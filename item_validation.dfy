/** The validations of an item (app/models/item.rb lines 4 and 13-18, and the
    custom validator `deadline_later_than_today`, lines 33-37).

    `ValidationErrors` is the specification: the errors, in the order Rails
    adds them, that validating a candidate record in a given context yields.
    The class `Errors` is the record's error collection, which validators
    append to in place; the methods below run the validators against it and
    are proved to leave exactly `ValidationErrors` behind. */
module ItemValidation {
  import opened Wrappers
  import opened ItemStatus
  import opened Items

  datatype Attribute = User | Name | Description | Price | ShippingCostCovered | Deadline

  datatype Message =
    | MustExist           // belongs_to's required-association check
    | CantBeBlank         // presence
    | NotANumber          // numericality, on a nil value
    | NotGreaterThanZero  // numericality: { greater_than: 0 }
    | NotIncluded         // inclusion: { in: [true, false] }
    | EarlierThanToday    // deadline_later_than_today

  datatype Error = Error(attribute: Attribute, message: Message)

  /** The context validation runs in: `save` validates in :create or
      :update; the buyer-selection flow validates in :select_buyer. */
  datatype Context = Create | Update | SelectBuyer

  /** The human-readable text Rails attaches for each message. */
  function Text(m: Message): (t: string)
    ensures t != []
    ensures m == EarlierThanToday ==> t == "can't be earlier than today"
  {
    match m
    case MustExist => "must exist"
    case CantBeBlank => "can't be blank"
    case NotANumber => "is not a number"
    case NotGreaterThanZero => "must be greater than 0"
    case NotIncluded => "is not included in the list"
    case EarlierThanToday => "can't be earlier than today"
  }

  /** The 25 characters Unicode gives the White_Space property. */
  const WhiteSpace: set<char> := {
    '\t', '\n', '\U{000B}', '\U{000C}', '\r', ' ',
    '\U{0085}', '\U{00A0}', '\U{1680}',
    '\U{2000}', '\U{2001}', '\U{2002}', '\U{2003}', '\U{2004}', '\U{2005}',
    '\U{2006}', '\U{2007}', '\U{2008}', '\U{2009}', '\U{200A}',
    '\U{2028}', '\U{2029}', '\U{202F}', '\U{205F}', '\U{3000}'
  }

  /** Ruby's `[[:space:]]` on a Unicode string. */
  predicate IsSpace(c: char)
    ensures IsSpace(c) <==> c in WhiteSpace
  {
    || c == ' ' || ('\t' <= c <= '\r')
    || c == '\U{0085}' || c == '\U{00A0}' || c == '\U{1680}'
    || ('\U{2000}' <= c <= '\U{200A}')
    || c == '\U{2028}' || c == '\U{2029}' || c == '\U{202F}' || c == '\U{205F}' || c == '\U{3000}'
  }

  /** `String#blank?`: the string matches `\A[[:space:]]*\z`, which the
      empty string does too. */
  predicate Blank(s: string)
    ensures Blank(s) <==> forall i :: 0 <= i < |s| ==> s[i] in WhiteSpace
  {
    s == [] || (IsSpace(s[0]) && Blank(s[1..]))
  }

  /** True when `errs` holds some error on `a`. */
  predicate HasErrorOn(errs: seq<Error>, a: Attribute) {
    exists e :: e in errs && e.attribute == a
  }

  /** Every error in `errs` is on `a`. */
  predicate OnlyOn(errs: seq<Error>, a: Attribute) {
    forall e :: e in errs ==> e.attribute == a
  }

  // ---------------------------------------------------------------------
  // One function per validator, in the order the source declares them.

  /** `belongs_to :user` (line 4): the seller must be set. */
  function UserErrors(item: Item): (errs: seq<Error>)
    ensures OnlyOn(errs, User)
    ensures errs == [] <==> item.user.Some?
  {
    if item.user.None? then [Error(User, MustExist)] else []
  }

  /** `validates :name, presence: true` (line 13). */
  function NameErrors(item: Item): (errs: seq<Error>)
    ensures OnlyOn(errs, Name)
    ensures errs == [] <==> !Blank(item.name)
  {
    if Blank(item.name) then [Error(Name, CantBeBlank)] else []
  }

  /** `validates :description, presence: true` (line 14). */
  function DescriptionErrors(item: Item): (errs: seq<Error>)
    ensures OnlyOn(errs, Description)
    ensures errs == [] <==> !Blank(item.description)
  {
    if Blank(item.description) then [Error(Description, CantBeBlank)] else []
  }

  /** `validates :price, presence: true, numericality: { greater_than: 0 }`
      (line 15): presence runs first; numericality does not allow nil, so
      a missing price draws both errors. */
  function PriceErrors(item: Item): (errs: seq<Error>)
    ensures OnlyOn(errs, Price)
    ensures errs == [] <==> item.price.Some? && item.price.value > 0
    ensures item.price.None? ==> Error(Price, CantBeBlank) in errs && Error(Price, NotANumber) in errs
    ensures item.price.Some? && item.price.value <= 0 ==> errs == [Error(Price, NotGreaterThanZero)]
  {
    match item.price
    case None => [Error(Price, CantBeBlank), Error(Price, NotANumber)]
    case Some(p) => if p > 0 then [] else [Error(Price, NotGreaterThanZero)]
  }

  /** `validates :shipping_cost_covered, inclusion: { in: [true, false] }`
      (line 16): only an explicit true or false passes. */
  function ShippingCostCoveredErrors(item: Item): (errs: seq<Error>)
    ensures OnlyOn(errs, ShippingCostCovered)
    ensures errs == [] <==> item.shippingCostCovered == Some(true) || item.shippingCostCovered == Some(false)
  {
    match item.shippingCostCovered
    case Some(true) => []
    case Some(false) => []
    case None => [Error(ShippingCostCovered, NotIncluded)]
  }

  /** `validates :deadline, presence: true` (line 17). */
  function DeadlinePresenceErrors(item: Item): (errs: seq<Error>)
    ensures OnlyOn(errs, Deadline)
    ensures errs == [] <==> item.deadline.Some?
  {
    if item.deadline.None? then [Error(Deadline, CantBeBlank)] else []
  }

  /** `deadline_later_than_today` (lines 33-37): passes only for a present
      deadline at or after the start of today; a missing one fails too. */
  function DeadlineLaterThanTodayErrors(item: Item, todayStart: Time): (errs: seq<Error>)
    ensures OnlyOn(errs, Deadline)
    ensures errs == [] <==> item.deadline.Some? && item.deadline.value >= todayStart
    ensures errs != [] ==> errs == [Error(Deadline, EarlierThanToday)]
  {
    if item.deadline.Some? && item.deadline.value >= todayStart then []
    else [Error(Deadline, EarlierThanToday)]
  }

  /** The custom validator is registered `unless` the context is
      :select_buyer (line 18). */
  predicate ChecksDeadlineAgainstToday(ctx: Context)
    ensures ChecksDeadlineAgainstToday(ctx) <==> ctx == Create || ctx == Update
  {
    ctx != SelectBuyer
  }

  /** All errors that validating `item` in `ctx` yields, in the order Rails
      runs the validators. An item is valid exactly when it satisfies every
      rule. */
  function ValidationErrors(item: Item, ctx: Context, todayStart: Time): (errs: seq<Error>)
    ensures errs == [] <==> Conforms(item, ctx, todayStart)
  {
    UserErrors(item)
    + NameErrors(item)
    + DescriptionErrors(item)
    + PriceErrors(item)
    + ShippingCostCoveredErrors(item)
    + DeadlinePresenceErrors(item)
    + (if ChecksDeadlineAgainstToday(ctx) then DeadlineLaterThanTodayErrors(item, todayStart) else [])
  }

  /** The rules an item must satisfy, stated directly as one conjunction. */
  predicate Conforms(item: Item, ctx: Context, todayStart: Time) {
    && item.user.Some?
    && !Blank(item.name)
    && !Blank(item.description)
    && item.price.Some? && item.price.value > 0
    && (item.shippingCostCovered == Some(true) || item.shippingCostCovered == Some(false))
    && item.deadline.Some?
    && (ctx == SelectBuyer || item.deadline.value >= todayStart)
  }

  // ---------------------------------------------------------------------
  // What the validations promise.

  /** Each attribute has an error exactly when its own rule fails. */
  lemma ErrorsPerAttribute(item: Item, ctx: Context, todayStart: Time)
    ensures var errs := ValidationErrors(item, ctx, todayStart);
      && (HasErrorOn(errs, User) <==> item.user.None?)
      && (HasErrorOn(errs, Name) <==> Blank(item.name))
      && (HasErrorOn(errs, Description) <==> Blank(item.description))
      && (HasErrorOn(errs, Price) <==> item.price.None? || item.price.value <= 0)
      && (HasErrorOn(errs, ShippingCostCovered) <==> item.shippingCostCovered.None?)
      && (HasErrorOn(errs, Deadline) <==>
            item.deadline.None? || (ChecksDeadlineAgainstToday(ctx) && item.deadline.value < todayStart))
  {
    forall a: Attribute
      ensures HasErrorOn(ValidationErrors(item, ctx, todayStart), a) <==>
        || (a == User && item.user.None?)
        || (a == Name && Blank(item.name))
        || (a == Description && Blank(item.description))
        || (a == Price && (item.price.None? || item.price.value <= 0))
        || (a == ShippingCostCovered && item.shippingCostCovered.None?)
        || (a == Deadline && (item.deadline.None? ||
              (ChecksDeadlineAgainstToday(ctx) && item.deadline.value < todayStart)))
    {
      OnlyOnHasErrorOn(UserErrors(item), User, a);
      OnlyOnHasErrorOn(NameErrors(item), Name, a);
      OnlyOnHasErrorOn(DescriptionErrors(item), Description, a);
      OnlyOnHasErrorOn(PriceErrors(item), Price, a);
      OnlyOnHasErrorOn(ShippingCostCoveredErrors(item), ShippingCostCovered, a);
      OnlyOnHasErrorOn(DeadlinePresenceErrors(item), Deadline, a);
      OnlyOnHasErrorOn(DeadlineLaterThanTodayErrors(item, todayStart), Deadline, a);
    }
  }

  /** Errors all on `b` are on `a` exactly when there are some and a == b. */
  lemma OnlyOnHasErrorOn(errs: seq<Error>, b: Attribute, a: Attribute)
    requires OnlyOn(errs, b)
    ensures HasErrorOn(errs, a) <==> errs != [] && a == b
  {
    if errs != [] && a == b {
      assert errs[0] in errs;
    }
  }

  /** The deadline-against-today error appears exactly when the context
      checks it and the deadline is missing or before the start of today. */
  lemma EarlierThanTodayError(item: Item, ctx: Context, todayStart: Time)
    ensures Error(Deadline, EarlierThanToday) in ValidationErrors(item, ctx, todayStart) <==>
      ctx != SelectBuyer && (item.deadline.None? || item.deadline.value < todayStart)
  {
  }

  /** A missing deadline fails both deadline rules outside :select_buyer. */
  lemma MissingDeadlineErrors(item: Item, ctx: Context, todayStart: Time)
    requires item.deadline.None? && ctx != SelectBuyer
    ensures Error(Deadline, CantBeBlank) in ValidationErrors(item, ctx, todayStart)
    ensures Error(Deadline, EarlierThanToday) in ValidationErrors(item, ctx, todayStart)
  {
  }

  /** :select_buyer yields exactly the errors of any other context, less the
      deadline-against-today check, which comes last. */
  lemma SelectBuyerSkipsOnlyDeadlineCheck(item: Item, ctx: Context, todayStart: Time)
    requires ctx != SelectBuyer
    ensures ValidationErrors(item, ctx, todayStart)
         == ValidationErrors(item, SelectBuyer, todayStart) + DeadlineLaterThanTodayErrors(item, todayStart)
  {
  }

  /** In :select_buyer the outcome does not depend on the current day. */
  lemma SelectBuyerIgnoresToday(item: Item, today1: Time, today2: Time)
    ensures ValidationErrors(item, SelectBuyer, today1) == ValidationErrors(item, SelectBuyer, today2)
  {
  }

  /** :create and :update validate alike. */
  lemma CreateAndUpdateAgree(item: Item, todayStart: Time)
    ensures ValidationErrors(item, Create, todayStart) == ValidationErrors(item, Update, todayStart)
  {
  }

  /** An item valid in any context stays valid in :select_buyer, and one
      valid today was valid on every earlier day. */
  lemma ValidityMonotone(item: Item, ctx: Context, todayStart: Time, earlier: Time)
    requires ValidationErrors(item, ctx, todayStart) == []
    requires earlier <= todayStart
    ensures ValidationErrors(item, SelectBuyer, todayStart) == []
    ensures ValidationErrors(item, ctx, earlier) == []
  {
  }

  // ---------------------------------------------------------------------
  // The record's error collection and the validators run against it.

  /** `item.errors`: validators append to it in place. */
  class Errors {
    var entries: seq<Error>

    constructor ()
      ensures entries == []
    {
      entries := [];
    }

    /** `errors.add(attribute, message)`. */
    method Add(attribute: Attribute, message: Message)
      modifies this
      ensures entries == old(entries) + [Error(attribute, message)]
    {
      entries := entries + [Error(attribute, message)];
    }

    /** `errors.clear`, done by `valid?` before the validators run. */
    method Clear()
      modifies this
      ensures entries == []
    {
      entries := [];
    }

    /** `errors.empty?`. */
    function Empty(): (b: bool)
      reads this
      ensures b <==> |entries| == 0
    {
      entries == []
    }
  }

  /** The custom validator: returns early when the deadline is present and
      not before today, and otherwise adds the error. */
  method DeadlineLaterThanToday(item: Item, todayStart: Time, errors: Errors)
    modifies errors
    ensures errors.entries == old(errors.entries) + DeadlineLaterThanTodayErrors(item, todayStart)
  {
    if item.deadline.Some? && item.deadline.value >= todayStart {
      return;
    }
    errors.Add(Deadline, EarlierThanToday);
  }

  /** The required-association check of `belongs_to :user`. */
  method ValidateUser(item: Item, errors: Errors)
    modifies errors
    ensures errors.entries == old(errors.entries) + UserErrors(item)
  {
    if item.user.None? {
      errors.Add(User, MustExist);
    }
  }

  /** A presence validator on a string attribute. */
  method ValidatePresence(attribute: Attribute, value: string, errors: Errors)
    modifies errors
    ensures errors.entries == old(errors.entries) + (if Blank(value) then [Error(attribute, CantBeBlank)] else [])
  {
    if Blank(value) {
      errors.Add(attribute, CantBeBlank);
    }
  }

  /** The presence and numericality validators on `price`. */
  method ValidatePrice(item: Item, errors: Errors)
    modifies errors
    ensures errors.entries == old(errors.entries) + PriceErrors(item)
  {
    match item.price {
      case None =>
        errors.Add(Price, CantBeBlank);
        errors.Add(Price, NotANumber);
      case Some(p) =>
        if p <= 0 {
          errors.Add(Price, NotGreaterThanZero);
        }
    }
  }

  /** The inclusion validator on `shipping_cost_covered`. */
  method ValidateShippingCostCovered(item: Item, errors: Errors)
    modifies errors
    ensures errors.entries == old(errors.entries) + ShippingCostCoveredErrors(item)
  {
    if item.shippingCostCovered != Some(true) && item.shippingCostCovered != Some(false) {
      errors.Add(ShippingCostCovered, NotIncluded);
    }
  }

  /** The presence validator on `deadline`. */
  method ValidateDeadlinePresence(item: Item, errors: Errors)
    modifies errors
    ensures errors.entries == old(errors.entries) + DeadlinePresenceErrors(item)
  {
    if item.deadline.None? {
      errors.Add(Deadline, CantBeBlank);
    }
  }

  /** Runs every validator registered for `ctx`, in order, appending to
      `errors`. */
  method RunValidations(item: Item, ctx: Context, todayStart: Time, errors: Errors)
    modifies errors
    ensures errors.entries == old(errors.entries) + ValidationErrors(item, ctx, todayStart)
  {
    ghost var before := errors.entries;
    ValidateUser(item, errors);
    ghost var added := UserErrors(item);
    ValidatePresence(Name, item.name, errors);
    AppendAssociates(before, added, NameErrors(item));
    added := added + NameErrors(item);
    ValidatePresence(Description, item.description, errors);
    AppendAssociates(before, added, DescriptionErrors(item));
    added := added + DescriptionErrors(item);
    ValidatePrice(item, errors);
    AppendAssociates(before, added, PriceErrors(item));
    added := added + PriceErrors(item);
    ValidateShippingCostCovered(item, errors);
    AppendAssociates(before, added, ShippingCostCoveredErrors(item));
    added := added + ShippingCostCoveredErrors(item);
    ValidateDeadlinePresence(item, errors);
    AppendAssociates(before, added, DeadlinePresenceErrors(item));
    added := added + DeadlinePresenceErrors(item);
    if ChecksDeadlineAgainstToday(ctx) {
      DeadlineLaterThanToday(item, todayStart, errors);
      AppendAssociates(before, added, DeadlineLaterThanTodayErrors(item, todayStart));
    }
  }

  lemma AppendAssociates(done: seq<Error>, added: seq<Error>, next: seq<Error>)
    ensures done + added + next == done + (added + next)
  {
  }

  /** `valid?(ctx)`: clears the errors, runs the validators and reports
      whether none failed. */
  method IsValid(item: Item, ctx: Context, todayStart: Time, errors: Errors) returns (ok: bool)
    modifies errors
    ensures errors.entries == ValidationErrors(item, ctx, todayStart)
    ensures ok <==> Conforms(item, ctx, todayStart)
  {
    errors.Clear();
    RunValidations(item, ctx, todayStart, errors);
    ok := errors.Empty();
  }
}
