/** The records of the league document, as the scripts see them after JSON
    decoding: a flat list of dictionaries with a "type" tag, an "id" and an
    "attributes" sub-dictionary.  Every value the scripts read is a JSON
    scalar; how a key can be missing, null, a string or a number is kept
    explicit, because `d.get(k)` and `d[k]` treat a missing key differently. */
module Json {

  datatype Option<T> = None | Some(value: T)

  /** What a dictionary holds under one key. */
  datatype Scalar =
    | Missing          // the key is absent
    | Null             // JSON null (Python None)
    | Str(s: string)
    | Int(i: int)

  /** The exceptions the scripts can raise on malformed records. */
  datatype Error =
    | KeyError(key: string)
    | TypeError(detail: string)
    | AttributeError(detail: string)
    | ValueError(detail: string)

  datatype Result<T> = Ok(value: T) | Err(error: Error)

  /** The attribute fields read by either script; teams use `name`, events
      the team, time, place and score fields, stat-events the last three. */
  datatype Attributes = Attributes(
    name: Scalar,
    hteamId: Scalar,
    vteamId: Scalar,
    start: Scalar,
    end: Scalar,
    resourceId: Scalar,
    resourceAreaId: Scalar,
    hscore: Scalar,
    vscore: Scalar,
    eventId: Scalar,
    teamId: Scalar,
    value: Scalar)

  /** An attributes dictionary without any of the keys above: Python's `{}`. */
  const NoFields := Attributes(Missing, Missing, Missing, Missing, Missing, Missing,
                               Missing, Missing, Missing, Missing, Missing, Missing)

  datatype AttrSlot = NoAttrs | NullAttrs | Attrs(fields: Attributes)

  /** One element of the document's "included" list. */
  datatype Record = Record(kind: Scalar, id: Scalar, attributes: AttrSlot)

  /** The decoded document; only its "included" key is read. */
  datatype IncludedSlot = NoIncluded | NullIncluded | Included(records: seq<Record>)
  datatype Document = Document(included: IncludedSlot)

  /** `item.get("type") == kind` */
  predicate IsType(r: Record, kind: string) {
    r.kind == Str(kind)
  }

  /** Python's `None` test on the result of `d.get(k)`. */
  predicate IsNone(v: Scalar) {
    v.Missing? || v.Null?
  }

  /** Python truthiness of a scalar. */
  predicate Truthy(v: Scalar) {
    match v
    case Missing => false
    case Null => false
    case Str(s) => s != ""
    case Int(i) => i != 0
  }

  /** `d.get("attributes") or {}`: absent and null attributes read as empty. */
  function AttrsOrEmpty(slot: AttrSlot): Attributes {
    if slot.Attrs? then slot.fields else NoFields
  }

  function DigitChar(d: nat): (c: char)
    requires d < 10
    ensures '0' <= c <= '9'
  {
    "0123456789"[d]
  }

  /** Decimal rendering of a natural number, without leading zeros. */
  function NatToString(n: nat): (s: string)
    ensures s != []
    ensures forall k :: 0 <= k < |s| ==> '0' <= s[k] <= '9'
    decreases n
  {
    if n < 10 then [DigitChar(n)] else NatToString(n / 10) + [DigitChar(n % 10)]
  }

  /** Python's `str()` of an int. */
  function IntToString(i: int): (s: string)
    ensures s != []
  {
    if i < 0 then "-" + NatToString(-i) else NatToString(i)
  }

  /** Python's `str()` of the value `d.get(k)` returns (None for a missing key). */
  function Show(v: Scalar): string {
    match v
    case Missing => "None"
    case Null => "None"
    case Str(s) => s
    case Int(i) => IntToString(i)
  }

  /** The Python type name of a value that `d[k]` or `d.get(k)` returned. */
  function TypeName(v: Scalar): string {
    match v
    case Missing => "NoneType"
    case Null => "NoneType"
    case Str(_) => "str"
    case Int(_) => "int"
  }

  /** The exception a loop over items raises: the one of the first item
      that raises. */
  function FirstError(errs: seq<Option<Error>>): Option<Error>
    decreases |errs|
  {
    if errs == [] then None
    else if errs[0].Some? then errs[0]
    else FirstError(errs[1..])
  }

  /** The loop raises exactly when some item does, and then it is the
      exception of the earliest such item. */
  lemma {:induction false} FirstErrorIsEarliest(errs: seq<Option<Error>>)
    ensures FirstError(errs).None? <==> forall k :: 0 <= k < |errs| ==> errs[k].None?
    ensures FirstError(errs).Some? ==>
              exists k :: 0 <= k < |errs| && errs[k] == FirstError(errs) &&
                          forall j :: 0 <= j < k ==> errs[j].None?
    decreases |errs|
  {
    if errs != [] && errs[0].None? {
      var rest := errs[1..];
      FirstErrorIsEarliest(rest);
      assert forall k :: 0 < k < |errs| ==> errs[k] == rest[k - 1];
      if FirstError(rest).Some? {
        var k :| 0 <= k < |rest| && rest[k] == FirstError(rest) && forall j :: 0 <= j < k ==> rest[j].None?;
        assert errs[k + 1] == rest[k];
      }
    }
  }
}
