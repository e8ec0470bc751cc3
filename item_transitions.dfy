/** The status-transition queries of an item (app/models/item.rb lines
    23-29). `saved_change_to_status` is what the last save did to the
    `status` column: nothing (nil) when the save left it alone, otherwise
    the pair of its value before and after. Rails compares with the
    attribute's original value, which for a new record is the column
    default, so creating a record is a save from `DefaultStatus`. Either
    value may be nil when `status` is explicitly set to nil. */
module ItemTransitions {
  import opened Wrappers
  import opened ItemStatus

  datatype StatusChange = StatusChange(before: Option<Status>, after: Option<Status>)

  /** The change a save records for `status`, given its persisted value
      before and after: none when the two are equal. */
  function SavedChange(before: Option<Status>, after: Option<Status>): (c: Option<StatusChange>)
    ensures c.None? <==> before == after
    ensures c.Some? ==> c.value.before == before && c.value.after == after
  {
    if before == after then None else Some(StatusChange(before, after))
  }

  /** The change that creating a record with status `s` records. */
  function SavedChangeOnCreate(s: Status): (c: Option<StatusChange>)
    ensures c.None? <==> s == DefaultStatus
    ensures c.Some? ==> c.value == StatusChange(Some(DefaultStatus), Some(s))
  {
    SavedChange(Some(DefaultStatus), Some(s))
  }

  /** `changed_to_listed_from_unpublished?`. */
  predicate ChangedToListedFromUnpublished(saved: Option<StatusChange>)
    ensures ChangedToListedFromUnpublished(saved) ==>
      saved.Some? && saved.value.after == Some(Listed) && saved.value.before != saved.value.after
  {
    saved == Some(StatusChange(Some(Unpublished), Some(Listed)))
  }

  /** `changed_to_unpublished_from_listed?`. */
  predicate ChangedToUnpublishedFromListed(saved: Option<StatusChange>)
    ensures ChangedToUnpublishedFromListed(saved) ==>
      saved.Some? && saved.value.after == Some(Unpublished) && saved.value.before != saved.value.after
  {
    saved == Some(StatusChange(Some(Listed), Some(Unpublished)))
  }

  /** Each query holds exactly when the last save moved `status` between
      the two named states, in the named direction. */
  lemma TransitionQueriesOnSave(before: Option<Status>, after: Option<Status>)
    ensures ChangedToListedFromUnpublished(SavedChange(before, after)) <==>
      before == Some(Unpublished) && after == Some(Listed)
    ensures ChangedToUnpublishedFromListed(SavedChange(before, after)) <==>
      before == Some(Listed) && after == Some(Unpublished)
  {
  }

  /** The two queries never hold together. */
  lemma TransitionQueriesExclusive(saved: Option<StatusChange>)
    ensures !(ChangedToListedFromUnpublished(saved) && ChangedToUnpublishedFromListed(saved))
  {
  }

  /** Both are false when the last save did not change `status`. */
  lemma NoTransitionWithoutChange(s: Status)
    ensures !ChangedToListedFromUnpublished(None) && !ChangedToUnpublishedFromListed(None)
    ensures !ChangedToListedFromUnpublished(SavedChange(Some(s), Some(s)))
    ensures !ChangedToUnpublishedFromListed(SavedChange(Some(s), Some(s)))
  {
  }

  /** Right after a create, `changed_to_unpublished_from_listed?` holds
      exactly when the record was created unpublished, and
      `changed_to_listed_from_unpublished?` never holds. */
  lemma TransitionQueriesOnCreate(s: Status)
    ensures ChangedToUnpublishedFromListed(SavedChangeOnCreate(s)) <==> s == Unpublished
    ensures !ChangedToListedFromUnpublished(SavedChangeOnCreate(s))
  {
  }

  /** Publishing then unpublishing: a save that undoes the other's change
      makes the other query true. */
  lemma TransitionQueriesMirror(before: Status, after: Status)
    ensures ChangedToListedFromUnpublished(SavedChange(Some(before), Some(after))) <==>
            ChangedToUnpublishedFromListed(SavedChange(Some(after), Some(before)))
  {
  }
}
