/** An item record as the `items` table holds it (app/models/item.rb): the
    attributes the model's rules read, with every column that may be NULL
    as an `Option`. Times are integers on one clock (larger is later); the
    start of the current day is passed in wherever the source reads
    `Time.current.beginning_of_day`. `status` is treated as NOT NULL here;
    a nil status appears only in the saved change of `status`. */
module Items {
  import opened Wrappers
  import opened ItemStatus

  type UserId = nat
  type ItemId = nat

  /** A point in time, on the clock `deadline` is stored on. */
  type Time = int

  datatype Item = Item(
    id: ItemId,
    user: Option<UserId>,             // the seller (`belongs_to :user`)
    buyer: Option<UserId>,            // `belongs_to :buyer, optional: true`
    name: string,
    description: string,
    price: Option<int>,
    shippingCostCovered: Option<bool>,
    deadline: Option<Time>,
    status: Status)
}
