# Item listing rules

A model of the `Item` domain entity of a small marketplace, as written in
`app/models/item.rb`. Sellers list items. Other users request to buy them,
and once the deadline has passed, the seller picks a buyer (the
`select_buyer` context). The model covers:

- the `status` enum and its integer and name encodings;
- the validations, with the `select_buyer` context that skips the
  deadline-against-today check;
- the scopes `accessible_for` and `closed_yesterday`;
- the two status-transition queries;
- the cascading destroy of an item's purchase requests and comments.

Modules, one per concern:

- `Wrappers`: `Option`, the model of Ruby's `nil`.
- `ItemStatus`: the enum `listed = 0, unpublished = 1, buyer_selected = 2`.
- `Items`: the item record. Nullable columns are `Option`s. `status` is
  treated as NOT NULL in the record; nil is allowed only in the saved change
  of `status`. Times are integers on one clock.
- `ItemValidation`: `ValidationErrors` is the specification. It lists the
  `(attribute, message)` errors that validating a record in a context gives,
  in the order Rails adds them. `Errors` is the record's error collection, a
  class whose `Add` appends in place. The validator methods are proved to
  leave exactly `ValidationErrors` in it.
- `Relation`: ActiveRecord's `where` as an order-preserving filter over a
  table, with its lemmas: membership, subsequence, composition.
- `ItemScopes`: the scopes built from `where`.
- `ItemTransitions`: `changed_to_listed_from_unpublished?` and
  `changed_to_unpublished_from_listed?`, applied to the saved change of `status`.
- `ItemStore`: a `Store` class holding the items, purchase requests and
  comments tables. Its `Destroy` runs the two `dependent: :destroy` cascades.

Made explicit:

- `Time.current.beginning_of_day` is the parameter `todayStart`.
- `saved_change_to_status` is an `Option<StatusChange>` input. `SavedChange`
  builds it from the value before and after a save.
- The validation context is one of `Create`, `Update` or `SelectBuyer`.

Where the code says more than a plain reading of the rules:

- `belongs_to :user` (line 4) adds a required-association check. It gives the
  error `user` → "must exist", and it runs before the other validators.
- A missing price gets two errors: "can't be blank" from presence and "is not
  a number" from numericality, which does not allow nil.
- A missing deadline also gets two errors: "can't be blank", and "can't be
  earlier than today" from `deadline_later_than_today` unless the context is
  `select_buyer`.
- "Blank" is Ruby's `String#blank?`: empty, or only Unicode White_Space
  characters.
- `accessible_for(user)` compares `user_id` with the given user. With a nil
  user it selects rows whose `user_id` is NULL, so a guest sees the items
  that are not unpublished, plus any unpublished item that has no seller.
  `closed_yesterday` never selects a row whose deadline is NULL.
- Rails compares a saved attribute with its original value, which for a new
  record is the column default. The `status` column defaults to `listed`
  (0); the schema is not part of this model. So creating an item as
  `unpublished` makes `changed_to_unpublished_from_listed?` true.

## Model

| member | source | states |
|---|---|---|
| ItemStatus.Encode | app/models/item.rb:11 | every status is stored as one of 0, 1, 2 |
| ItemStatus.Decode | app/models/item.rb:11 | exactly the integers 0, 1, 2 decode to a status |
| ItemStatus.Parse | app/models/item.rb:11 | exactly the three enum names parse to a status |
| ItemStatus.Name | app/models/item.rb:11 | every status has a non-empty name that parses back to it |
| ItemStatus.DecodeEncode | app/models/item.rb:11 | decoding the stored integer gives back the status |
| ItemStatus.EncodeDecode | app/models/item.rb:11 | every integer that decodes is the encoding of its status |
| ItemStatus.EncodeInjective | app/models/item.rb:11 | distinct statuses are stored as distinct integers |
| ItemStatus.ParseName | app/models/item.rb:11 | name and parse round-trip in both directions |
| ItemValidation.UserErrors | app/models/item.rb:4 | an error on `user` ("must exist") exactly when the seller is missing |
| ItemValidation.Text | app/models/item.rb:36 | every message has a non-empty text; the deadline error reads "can't be earlier than today" |
| ItemValidation.IsSpace | app/models/item.rb:13-14 | a character is white space exactly when it is one of the 25 Unicode White_Space characters |
| ItemValidation.Blank | app/models/item.rb:13-14 | a string is blank exactly when every character is white space, the empty string included |
| ItemValidation.NameErrors | app/models/item.rb:13 | an error on `name` exactly when the name is blank |
| ItemValidation.DescriptionErrors | app/models/item.rb:14 | an error on `description` exactly when it is blank |
| ItemValidation.PriceErrors | app/models/item.rb:15 | no error exactly when price is present and > 0; nil gives "can't be blank" and "is not a number"; a price ≤ 0 gives only "must be greater than 0" |
| ItemValidation.ShippingCostCoveredErrors | app/models/item.rb:16 | no error exactly when the value is true or false |
| ItemValidation.DeadlinePresenceErrors | app/models/item.rb:17 | an error on `deadline` exactly when it is missing |
| ItemValidation.DeadlineLaterThanTodayErrors | app/models/item.rb:33-37 | no error exactly when the deadline is present and at or after the start of today; otherwise the one "can't be earlier than today" error |
| ItemValidation.ChecksDeadlineAgainstToday | app/models/item.rb:18 | the deadline-vs-today check runs in `create` and `update` and not in `select_buyer` |
| ItemValidation.ValidationErrors | app/models/item.rb:4-18 | a record has no errors exactly when it satisfies every rule, with the deadline-vs-today rule waived in `select_buyer` |
| ItemValidation.ErrorsPerAttribute | app/models/item.rb:4-18 | each attribute has an error exactly when its own rule fails |
| ItemValidation.EarlierThanTodayError | app/models/item.rb:33-37 | "can't be earlier than today" appears exactly outside `select_buyer` for a missing deadline or one before today |
| ItemValidation.MissingDeadlineErrors | app/models/item.rb:17-18 | a missing deadline outside `select_buyer` gets both the presence error and the earlier-than-today error |
| ItemValidation.SelectBuyerSkipsOnlyDeadlineCheck | app/models/item.rb:18 | any other context gives the `select_buyer` errors followed by exactly the deadline-vs-today errors |
| ItemValidation.SelectBuyerIgnoresToday | app/models/item.rb:18 | in `select_buyer` the outcome does not depend on the current day |
| ItemValidation.CreateAndUpdateAgree | app/models/item.rb:18 | `create` and `update` contexts give the same errors |
| ItemValidation.ValidityMonotone | app/models/item.rb:17-18 | valid in any context implies valid in `select_buyer`, and on every earlier day |
| ItemValidation.Errors.Add | app/models/item.rb:36 | appends exactly one error at the end of the collection |
| ItemValidation.Errors.Clear | app/models/item.rb:4-18 | a validation run starts from an empty collection |
| ItemValidation.DeadlineLaterThanToday | app/models/item.rb:33-37 | returns early for a present deadline not before today, otherwise adds the error; the new collection is the old one plus `DeadlineLaterThanTodayErrors` |
| ItemValidation.ValidateUser | app/models/item.rb:4 | appends exactly `UserErrors` |
| ItemValidation.ValidatePresence | app/models/item.rb:13-14 | appends "can't be blank" on the attribute exactly when the value is blank |
| ItemValidation.ValidatePrice | app/models/item.rb:15 | appends exactly `PriceErrors` |
| ItemValidation.ValidateShippingCostCovered | app/models/item.rb:16 | appends exactly `ShippingCostCoveredErrors` |
| ItemValidation.ValidateDeadlinePresence | app/models/item.rb:17 | appends exactly `DeadlinePresenceErrors` |
| ItemValidation.RunValidations | app/models/item.rb:4-18 | running the validators for a context appends exactly `ValidationErrors`, in order |
| ItemValidation.IsValid | app/models/item.rb:4-18 | afterwards the collection is exactly `ValidationErrors`, and the answer is true exactly when the record satisfies every rule |
| Relation.Where | app/models/item.rb:20-21 | the filtered table is never longer than the table |
| Relation.WhereMembers | app/models/item.rb:20-21 | a row is selected exactly when it is in the table and meets the condition |
| Relation.WhereAllMembers | app/models/item.rb:20-21 | for every row at once: selected exactly when it is in the table and meets the condition |
| Relation.WhereAppend | app/models/item.rb:20-21 | filtering a concatenation filters each part |
| Relation.WhereIsSubsequence | app/models/item.rb:20-21 | the selected rows are a subsequence of the table |
| Relation.WhereIndices | app/models/item.rb:20-21 | gives the strictly increasing positions of the selected rows in the table |
| Relation.WhereWhere | app/models/item.rb:21 | chaining two filters equals one filter on their conjunction |
| Relation.WhereWeaker | app/models/item.rb:20 | a weaker condition keeps every row a stronger one keeps, in order |
| ItemScopes.ListedItems | app/models/item.rb:11 | the enum scope `listed` selects exactly the listed items |
| ItemScopes.NotUnpublishedItems | app/models/item.rb:11 | the enum scope `not_unpublished` selects exactly the items that are not unpublished |
| ItemScopes.OwnedBy | app/models/item.rb:20 | `where(user:)` selects exactly the items whose seller is the given user |
| ItemScopes.AccessibleFor | app/models/item.rb:20 | an item is accessible exactly when the user owns it or it is not unpublished |
| ItemScopes.AccessibleForIsUnion | app/models/item.rb:20 | the `.or` selects the union of `where(user:)` and `not_unpublished` |
| ItemScopes.AccessibleForIsSubsequence | app/models/item.rb:20 | accessible items keep the table's order |
| ItemScopes.OwnItemsAccessible | app/models/item.rb:20 | every item of the user is accessible to them, in order, whatever its status |
| ItemScopes.UnpublishedOnlyForOwner | app/models/item.rb:20 | an unpublished item is accessible exactly to its owner |
| ItemScopes.ClosedYesterday | app/models/item.rb:21 | an item is selected exactly when it is listed and its deadline is before the start of today |
| ItemScopes.ClosedYesterdayIsOneFilter | app/models/item.rb:21 | `listed.where(...)` equals one filter on both conditions and keeps the table's order |
| ItemScopes.ClosedYesterdayOnlyListed | app/models/item.rb:21 | never selects an unpublished or buyer-selected item |
| ItemScopes.ClosedYesterdayGrows | app/models/item.rb:21 | a later start of today keeps every item selected before, in order |
| ItemScopes.AccessibleForExample | app/models/item.rb:20 | worked example: user 1 sees their unpublished item and user 2's listed item; user 2 sees only their own |
| ItemScopes.ClosedYesterdayExample | app/models/item.rb:21 | worked example: only the listed item due yesterday is selected |
| ItemTransitions.SavedChange | app/models/item.rb:24 | a save records no change exactly when the status stayed the same, and otherwise records the before and after values |
| ItemTransitions.SavedChangeOnCreate | app/models/item.rb:24 | creating a record records a change exactly when its status differs from the column default, and then the change is from the default |
| ItemTransitions.ChangedToListedFromUnpublished | app/models/item.rb:23-25 | true only for a recorded change whose new value is listed and differs from the old one |
| ItemTransitions.ChangedToUnpublishedFromListed | app/models/item.rb:27-29 | true only for a recorded change whose new value is unpublished and differs from the old one |
| ItemTransitions.TransitionQueriesOnSave | app/models/item.rb:23-29 | each query is true exactly when the save moved status from unpublished to listed, or from listed to unpublished |
| ItemTransitions.TransitionQueriesExclusive | app/models/item.rb:23-29 | the two queries are never both true |
| ItemTransitions.NoTransitionWithoutChange | app/models/item.rb:23-29 | both queries are false when the last save did not change status |
| ItemTransitions.TransitionQueriesMirror | app/models/item.rb:23-29 | a save from s to t satisfies the first query exactly when a save from t to s satisfies the second |
| ItemTransitions.TransitionQueriesOnCreate | app/models/item.rb:23-29 | right after a create, the unpublished-from-listed query holds exactly when the item was created unpublished, and the listed-from-unpublished query never holds |
| ItemStore.NoOrphans | app/models/item.rb:6-8 | defined as: every purchase request and every comment belongs to a stored item |
| ItemStore.CascadeRemovesExactlyDependents | app/models/item.rb:6-8 | after the cascade a request or comment remains exactly when it was there and belongs to another item |
| ItemStore.CascadeKeepsNoOrphans | app/models/item.rb:6-8 | if every request and comment belonged to a stored item before the destroy, that still holds after it |
| ItemStore.Store.Valid | app/models/item.rb:6-8 | defined as: the store's tables have no orphans |
| ItemStore.Store.DestroyPurchaseRequestsOf | app/models/item.rb:6 | removes every purchase request on the item, keeping each other row, one row at a time, in order; other tables are unchanged; keeps the no-orphans invariant |
| ItemStore.Store.DestroyCommentsOf | app/models/item.rb:8 | removes every comment on the item, keeping each other row, one row at a time, in order; other tables are unchanged; keeps the no-orphans invariant |
| ItemStore.Store.Destroy | app/models/item.rb:6-8 | removes the item, every purchase request and every comment on it, and nothing else; keeps the no-orphans invariant |

## Left out

- `app/controllers/listed_items_controller.rb`: `index` only hands `current_user.items` to the view. It has no logic of its own. Authentication is outside the model.
- `has_many_attached :images` (line 9): attachments live in external blob storage.
- `belongs_to :buyer` and `has_many :requesting_users` (lines 5 and 7): join wiring with no rule of its own. `buyer` is kept as a plain field.
- `Time.current`: the start of today is the parameter `todayStart`. Time zones and calendar arithmetic are not modelled. Times are integers compared with `<` and `>=`.
- SQL generation and how `.or` composes relations: each scope is modelled as a filter over the table in stored order. Row order is the table's stored order, not a database-chosen one.
- Rails' dirty tracking: the saved change of `status` is an input (`SavedChange` gives its shape).
- ItemValidation.ValidationErrors: `has_many :purchase_requests` and `has_many :comments` (lines 6 and 8) also validate the associated records they hold, which gives "is invalid" on `purchase_requests` or `comments`. That check is not modelled, because the purchase requests' and comments' own rules are outside this model. The model describes an item with no new or invalid purchase requests or comments loaded.
- ItemStore.Store.Destroy: the cascades remove an item's rows in one pass and write each table once. They do not delete the rows one by one as separate statements.
- ItemValidation.PriceErrors: price is an optional integer. Numericality's parsing of raw, non-numeric input (a string like "abc") and of decimals is not modelled.
- ItemValidation.NameErrors: a nil name or description is modelled as the empty string, which is blank in the same way.
- ItemValidation.UserErrors: "must exist" checks that the associated user row exists. The model checks only that a user id is set.
- ItemValidation.RunValidations: contexts other than `create`, `update` and `select_buyer` are not modelled. Any of them would run the deadline check, as `create` and `update` do.
- ItemStatus.Decode: assigning an unknown status raises `ArgumentError` in Rails. Here `Decode` returns `None` for it.
- ItemStore.Store.Destroy: the callbacks of the purchase requests and comments themselves are not modelled, and neither is rolling the transaction back when one destroy fails. Creating items, requests and comments belongs to flows outside this model.
