/** The query scopes of an item (app/models/item.rb lines 20-21) and the
    enum scopes they use, as filters over the `items` table in its stored
    order. `where(user:)` compares the foreign key with the given user, so a
    nil user selects the rows whose `user_id` is NULL, as SQL's `IS NULL`
    does; `deadline < ?` is never true of a NULL deadline. */
module ItemScopes {
  import opened Wrappers
  import opened ItemStatus
  import opened Items
  import opened Relation

  predicate IsListed(i: Item) {
    i.status == Listed
  }

  predicate IsNotUnpublished(i: Item) {
    i.status != Unpublished
  }

  function OwnedByPredicate(user: Option<UserId>): Item -> bool {
    (i: Item) => i.user == user
  }

  function DeadlineBeforePredicate(todayStart: Time): Item -> bool {
    (i: Item) => i.deadline.Some? && i.deadline.value < todayStart
  }

  /** The condition of `where(user:).or(not_unpublished)`. */
  function AccessiblePredicate(user: Option<UserId>): Item -> bool {
    (i: Item) => i.user == user || IsNotUnpublished(i)
  }

  /** The two conditions of `closed_yesterday` taken together. */
  function ClosedPredicate(todayStart: Time): Item -> bool {
    (i: Item) => IsListed(i) && DeadlineBeforePredicate(todayStart)(i)
  }

  /** The enum scope `Item.listed`. */
  function ListedItems(items: seq<Item>): (r: seq<Item>)
    ensures forall i :: i in r <==> i in items && i.status == Listed
  {
    WhereAllMembers(items, IsListed);
    Where(items, IsListed)
  }

  /** The enum scope `Item.not_unpublished`. */
  function NotUnpublishedItems(items: seq<Item>): (r: seq<Item>)
    ensures forall i :: i in r <==> i in items && i.status != Unpublished
  {
    WhereAllMembers(items, IsNotUnpublished);
    Where(items, IsNotUnpublished)
  }

  /** `where(user:)`. */
  function OwnedBy(items: seq<Item>, user: Option<UserId>): (r: seq<Item>)
    ensures forall i :: i in r <==> i in items && i.user == user
  {
    WhereAllMembers(items, OwnedByPredicate(user));
    Where(items, OwnedByPredicate(user))
  }

  /** `accessible_for(user)`: `where(user:).or(not_unpublished)`, one
      query whose condition is the disjunction of the two. An item is
      accessible exactly when the user owns it or it is not unpublished. */
  function AccessibleFor(items: seq<Item>, user: Option<UserId>): (r: seq<Item>)
    ensures forall i :: i in r <==> i in items && (i.user == user || i.status != Unpublished)
  {
    WhereAllMembers(items, AccessiblePredicate(user));
    Where(items, AccessiblePredicate(user))
  }

  /** `closed_yesterday`: `listed.where('deadline < ?', start of today)`.
      An item is selected exactly when it is still listed and its deadline
      is before the start of today. */
  function ClosedYesterday(items: seq<Item>, todayStart: Time): (r: seq<Item>)
    ensures forall i :: i in r <==>
      i in items && i.status == Listed && i.deadline.Some? && i.deadline.value < todayStart
  {
    WhereAllMembers(ListedItems(items), DeadlineBeforePredicate(todayStart));
    Where(ListedItems(items), DeadlineBeforePredicate(todayStart))
  }

  // ---------------------------------------------------------------------
  // accessible_for

  /** The `.or`: accessible items are those in either of the two scopes. */
  lemma AccessibleForIsUnion(items: seq<Item>, user: Option<UserId>, i: Item)
    ensures i in AccessibleFor(items, user) <==>
      i in OwnedBy(items, user) || i in NotUnpublishedItems(items)
  {
  }

  /** Accessible items come in the table's order. */
  lemma AccessibleForIsSubsequence(items: seq<Item>, user: Option<UserId>)
    ensures IsSubsequence(AccessibleFor(items, user), items)
  {
    WhereIsSubsequence(items, AccessiblePredicate(user));
  }

  /** A seller sees all of their own items, whatever their status, in
      order. */
  lemma OwnItemsAccessible(items: seq<Item>, user: Option<UserId>)
    ensures IsSubsequence(OwnedBy(items, user), AccessibleFor(items, user))
  {
    WhereWeaker(items, OwnedByPredicate(user), AccessiblePredicate(user));
  }

  /** An unpublished item is accessible to its seller and to no one else. */
  lemma UnpublishedOnlyForOwner(items: seq<Item>, user: Option<UserId>, i: Item)
    requires i in items && i.status == Unpublished
    ensures i in AccessibleFor(items, user) <==> i.user == user
  {
  }

  // ---------------------------------------------------------------------
  // closed_yesterday

  /** Chaining the enum scope and the `where` is one filter on both
      conditions, so the result keeps the table's order. */
  lemma ClosedYesterdayIsOneFilter(items: seq<Item>, todayStart: Time)
    ensures ClosedYesterday(items, todayStart)
         == Where(items, ClosedPredicate(todayStart))
    ensures IsSubsequence(ClosedYesterday(items, todayStart), items)
  {
    WhereWhere(items, IsListed, DeadlineBeforePredicate(todayStart), ClosedPredicate(todayStart));
    WhereIsSubsequence(items, ClosedPredicate(todayStart));
  }

  /** Neither unpublished nor buyer-selected items are ever closed. */
  lemma ClosedYesterdayOnlyListed(items: seq<Item>, todayStart: Time, i: Item)
    requires i in ClosedYesterday(items, todayStart)
    ensures i.status != Unpublished && i.status != BuyerSelected
  {
  }

  /** Once today starts later, everything closed before stays closed. */
  lemma ClosedYesterdayGrows(items: seq<Item>, todayStart: Time, later: Time)
    requires todayStart <= later
    ensures IsSubsequence(ClosedYesterday(items, todayStart), ClosedYesterday(items, later))
  {
    WhereWeaker(ListedItems(items), DeadlineBeforePredicate(todayStart), DeadlineBeforePredicate(later));
  }

  // ---------------------------------------------------------------------
  // Two concrete tables.

  /** An unpublished item of user 1 and a listed item of user 2: user 1
      sees both, user 2 only their own. */
  lemma AccessibleForExample()
    ensures var a := Item(1, Some(1), None, "a", "a", Some(100), Some(true), Some(0), Unpublished);
            var b := Item(2, Some(2), None, "b", "b", Some(100), Some(true), Some(0), Listed);
            && AccessibleFor([a, b], Some(1)) == [a, b]
            && AccessibleFor([a, b], Some(2)) == [b]
  {
  }

  /** With today starting at 86400: a listed item due yesterday is closed,
      one due today is not, and a buyer-selected one due yesterday is not. */
  lemma ClosedYesterdayExample()
    ensures var a := Item(1, Some(1), None, "a", "a", Some(100), Some(true), Some(36000), Listed);
            var b := Item(2, Some(1), None, "b", "b", Some(100), Some(true), Some(122400), Listed);
            var c := Item(3, Some(1), None, "c", "c", Some(100), Some(true), Some(36000), BuyerSelected);
            ClosedYesterday([a, b, c], 86400) == [a]
  {
  }
}
