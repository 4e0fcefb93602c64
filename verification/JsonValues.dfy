/**
 * JSON values as nlohmann::json holds them, and the conversions `get<T>()`
 * performs on them. Text parsing and printing are not part of this model;
 * `Reparse` is the one effect of a trip through text that a reader can observe.
 */
module JsonValues {
  import opened Wrappers

  type int64 = x: int | -0x8000_0000_0000_0000 <= x < 0x8000_0000_0000_0000
  type uint64 = x: int | 0 <= x < 0x1_0000_0000_0000_0000
  type int32 = x: int | -0x8000_0000 <= x < 0x8000_0000

  const TWO_TO_THE_64 := 0x1_0000_0000_0000_0000
  const TWO_TO_THE_63 := 0x8000_0000_0000_0000
  const TWO_TO_THE_32 := 0x1_0000_0000

  /** Integer literals without a sign are held as `Unsigned`, negative ones as `Integer`. */
  datatype Json =
    | Null
    | Boolean(b: bool)
    | Integer(i: int64)
    | Unsigned(u: uint64)
    | Real(r: real)
    | NotFinite
    | String(s: string)
    | Array(a: seq<Json>)
    | Object(o: map<string, Json>)
  {
    predicate IsNumber() {
      Integer? || Unsigned? || Real? || NotFinite?
    }

    /** `is_number_integer()`, which also holds of unsigned numbers. */
    predicate IsInteger() {
      Integer? || Unsigned?
    }

    /** The mathematical value of an integer number. */
    function IntegerValue(): int
      requires IsInteger()
    {
      if Integer? then i else u
    }

    /** `contains(key)`, false for anything but an object. */
    predicate Contains(key: string) {
      Object? && key in o
    }

    /** `at(key)`, which throws for a missing key and for anything but an object. */
    function At(key: string): Parsed<Json> {
      if Contains(key) then Ok(o[key]) else Rejected
    }

    /** An optional field is present when it is there and not null. */
    predicate Present(key: string) {
      Contains(key) && !o[key].Null?
    }
  }

  // ----- C++ integer conversions

  function ToUint64(n: int): uint64 {
    n % 0x1_0000_0000_0000_0000
  }

  function ToInt64(n: int): int64 {
    var m := n % 0x1_0000_0000_0000_0000;
    if m < TWO_TO_THE_63 then m else m - TWO_TO_THE_64
  }

  function ToInt32(n: int): int32 {
    var m := n % 0x1_0000_0000;
    if m < 0x8000_0000 then m else m - TWO_TO_THE_32
  }

  /** The value a cast from floating point keeps: truncation toward zero. */
  function Truncate(r: real): int {
    if r >= 0.0 then r.Floor else -(-r).Floor
  }

  /** `std::round`: to the nearest integer, halves away from zero. */
  function Round(r: real): int {
    if r >= 0.0 then (r + 0.5).Floor else -(-r + 0.5).Floor
  }

  /** The integer a number stands for: itself, or what is left of a fraction without its digits. */
  function WholeValue(j: Json): int
    requires j.IsInteger() || j.Real?
  {
    if j.IsInteger() then j.IntegerValue() else Truncate(j.r)
  }

  // ----- get<T>()

  function GetInt64(j: Json): Parsed<int64> {
    match j
    case Integer(i) => Ok(i)
    case Unsigned(u) => Ok(ToInt64(u))
    case Real(r) =>
      var t := Truncate(r);
      if -TWO_TO_THE_63 <= t < TWO_TO_THE_63 then Ok(t) else Undefined
    case NotFinite => Undefined
    case _ => Rejected
  }

  function GetUint64(j: Json): Parsed<uint64> {
    match j
    case Integer(i) => Ok(ToUint64(i))
    case Unsigned(u) => Ok(u)
    case Real(r) =>
      var t := Truncate(r);
      if 0 <= t < TWO_TO_THE_64 then Ok(t) else Undefined
    case NotFinite => Undefined
    case _ => Rejected
  }

  /** `int` goes through nlohmann's generic arithmetic conversion, which also takes booleans. */
  function GetInt32(j: Json): Parsed<int32> {
    match j
    case Integer(i) => Ok(ToInt32(i))
    case Unsigned(u) => Ok(ToInt32(u))
    case Real(r) =>
      var t := Truncate(r);
      if -0x8000_0000 <= t < 0x8000_0000 then Ok(t) else Undefined
    case NotFinite => Undefined
    case Boolean(b) => Ok(if b then 1 else 0)
    case _ => Rejected
  }

  function GetString(j: Json): Parsed<string> {
    if j.String? then Ok(j.s) else Rejected
  }

  function GetBool(j: Json): Parsed<bool> {
    if j.Boolean? then Ok(j.b) else Rejected
  }

  /** `get<std::vector<T>>()`, the elements converted by `get`. */
  function GetSeq<T>(get: Json -> Parsed<T>, j: Json): Parsed<seq<T>> {
    if j.Array? then GetElements(get, j.a) else Rejected
  }

  function GetElements<T>(get: Json -> Parsed<T>, a: seq<Json>): Parsed<seq<T>> {
    if a == [] then Ok([]) else
      var x :- get(a[0]);
      var rest :- GetElements(get, a[1..]);
      Ok([x] + rest)
  }

  /**
   * What `dump()` followed by `parse()` makes of a value: integers that are not
   * negative come back unsigned, and numbers JSON cannot write come back null.
   */
  function Reparse(j: Json): Json {
    match j
    case Integer(i) => if i >= 0 then Unsigned(i) else j
    case NotFinite => Null
    case Array(a) => Array(seq(|a|, k requires 0 <= k < |a| => Reparse(a[k])))
    case Object(o) => Object(map key | key in o :: Reparse(o[key]))
    case _ => j
  }

  // ----- facts about the conversions

  lemma WrapIsIdentity(n: int)
    ensures -TWO_TO_THE_63 <= n < TWO_TO_THE_63 ==> ToInt64(n) == n
    ensures TWO_TO_THE_63 <= n < TWO_TO_THE_64 ==> ToInt64(n) == n - TWO_TO_THE_64 < 0
  {
    if -TWO_TO_THE_63 <= n < 0 {
      assert n % 0x1_0000_0000_0000_0000 == n + TWO_TO_THE_64;
    }
  }
}
