/** The `status` enum of an item (app/models/item.rb line 11): three named
    states stored in an integer column, listed = 0, unpublished = 1,
    buyer_selected = 2. Rails reads the column back as the state's name, so
    the model gives both the integer and the name encoding. */
module ItemStatus {
  import opened Wrappers

  datatype Status = Listed | Unpublished | BuyerSelected

  /** The default of the `status` column, which a new record starts from:
      listed (0). */
  const DefaultStatus: Status := Listed

  /** The integer stored in the `status` column. */
  function Encode(s: Status): (n: int)
    ensures 0 <= n <= 2
  {
    match s
    case Listed => 0
    case Unpublished => 1
    case BuyerSelected => 2
  }

  /** Reading the `status` column: only 0, 1 and 2 name a state. */
  function Decode(n: int): (r: Option<Status>)
    ensures r.Some? <==> 0 <= n <= 2
  {
    if n == 0 then Some(Listed)
    else if n == 1 then Some(Unpublished)
    else if n == 2 then Some(BuyerSelected)
    else None
  }

  /** The name Rails gives a state (what `item.status` returns). */
  function Name(s: Status): (name: string)
    ensures name != []
    ensures Parse(name) == Some(s)
  {
    match s
    case Listed => "listed"
    case Unpublished => "unpublished"
    case BuyerSelected => "buyer_selected"
  }

  /** Looking up a state by name; any other string names none. */
  function Parse(name: string): (r: Option<Status>)
    ensures r.Some? <==> name in {"listed", "unpublished", "buyer_selected"}
  {
    if name == "listed" then Some(Listed)
    else if name == "unpublished" then Some(Unpublished)
    else if name == "buyer_selected" then Some(BuyerSelected)
    else None
  }

  /** Every state survives a trip through the integer column. */
  lemma DecodeEncode(s: Status)
    ensures Decode(Encode(s)) == Some(s)
  {
  }

  /** Every integer that decodes is the encoding of the state it decodes to,
      so the encoding is a bijection between the states and {0, 1, 2}. */
  lemma EncodeDecode(n: int)
    ensures Decode(n).Some? ==> Encode(Decode(n).value) == n
  {
  }

  /** Distinct states are stored as distinct integers. */
  lemma EncodeInjective(s: Status, t: Status)
    ensures Encode(s) == Encode(t) <==> s == t
  {
  }

  /** Every state survives a trip through its name, and every name that
      parses is the name of the state it parses to. */
  lemma ParseName(s: Status, name: string)
    ensures Parse(Name(s)) == Some(s)
    ensures Parse(name).Some? ==> Name(Parse(name).value) == name
  {
  }
}
