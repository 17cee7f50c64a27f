/**
 * Decoded JSON values as `json_decode(..., true)` hands them to the relay handler,
 * and the few PHP coercions the handler applies to them: `isset` on nested array
 * reads, truthiness, `(string)` casts and ASCII `strtolower`.
 */
module PhpValues {

  datatype Option<+T> = None | Some(value: T)

  /**
   * A decoded JSON value. JSON objects and lists both decode to PHP arrays, which
   * are ordered key/value lists; a list's keys are "0", "1", ... (PHP treats the
   * integer key 0 and the string key "0" as the same key).
   */
  datatype Value =
    | Null
    | Bool(b: bool)
    | Int(i: int)
    | Str(s: string)
    | Arr(entries: seq<(string, Value)>)

  /** The value stored under `key` in an ordered array, if the key is present. */
  function Find(entries: seq<(string, Value)>, key: string): (r: Option<Value>)
    ensures r.None? <==> forall i :: 0 <= i < |entries| ==> entries[i].0 != key
    ensures r.Some? ==> (key, r.value) in entries
  {
    if entries == [] then None
    else if entries[0].0 == key then Some(entries[0].1)
    else Find(entries[1..], key)
  }

  /**
   * `$v[$key]` read under `isset`: present only when `v` is an array holding `key`
   * with a non-null value. Reading a string-keyed offset of a non-array yields
   * nothing under `isset`.
   */
  function IssetGet(v: Value, key: string): (r: Option<Value>)
    ensures r.Some? <==> v.Arr? && Find(v.entries, key).Some? && !Find(v.entries, key).value.Null?
    ensures r.Some? ==> r == Find(v.entries, key) && (key, r.value) in v.entries
  {
    match v
    case Arr(entries) =>
      (match Find(entries, key)
       case Some(x) => if x.Null? then None else Some(x)
       case None => None)
    case _ => None
  }

  /**
   * `isset($v[$k1][$k2]...)` / `$v[$k1][$k2]... ?? default`: follows the keys of
   * `path` from `v`, giving nothing as soon as one step is missing or null.
   */
  function Dig(v: Option<Value>, path: seq<string>): (r: Option<Value>)
    decreases |path|
    ensures |path| > 0 && r.Some? ==> !r.value.Null? && v.Some? && v.value.Arr?
    ensures v.None? ==> r.None?
  {
    if v.None? || path == [] then v
    else Dig(IssetGet(v.value, path[0]), path[1..])
  }

  /** A read of one key and then another: `$v[$a][$b]` under `isset`. */
  lemma DigTwoKeys(v: Value, a: string, b: string)
    ensures Dig(Some(v), [a, b]) == match IssetGet(v, a) case Some(x) => IssetGet(x, b) case None => None
  {
    assert [a, b][1..] == [b];
    assert [b][1..] == [];
    match IssetGet(v, a)
    case None =>
    case Some(x) =>
      assert Dig(Some(v), [a, b]) == Dig(Some(x), [b]);
      assert Dig(Some(x), [b]) == Dig(IssetGet(x, b), []);
  }

  /** A read of four keys in turn: `$v[$a][$b][$c][$d]` under `isset`. */
  lemma DigFourKeys(v: Value, a: string, b: string, c: string, d: string)
    ensures Dig(Some(v), [a, b, c, d]) ==
            match IssetGet(v, a)
            case None => None
            case Some(x) =>
              match IssetGet(x, b)
              case None => None
              case Some(y) => Dig(Some(y), [c, d])
  {
    assert [a, b, c, d][1..] == [b, c, d];
    assert [b, c, d][1..] == [c, d];
    match IssetGet(v, a)
    case None =>
    case Some(x) =>
      assert Dig(Some(v), [a, b, c, d]) == Dig(Some(x), [b, c, d]);
  }

  /** PHP truthiness of a string: only "" and "0" are falsy. */
  predicate FalsyString(s: string)
    ensures FalsyString(s) ==> |s| <= 1
  {
    s == "" || s == "0"
  }

  /** PHP truthiness of a decoded value, as the `?:` operator reads it. */
  predicate Falsy(v: Value)
    ensures v.Str? ==> (Falsy(v) <==> FalsyString(v.s))
    ensures v.Arr? ==> (Falsy(v) <==> v.entries == [])
    ensures v.Int? ==> (Falsy(v) <==> v.i == 0)
  {
    match v
    case Null => true
    case Bool(b) => !b
    case Int(i) => i == 0
    case Str(s) => FalsyString(s)
    case Arr(entries) => entries == []
  }

  /** A decimal digit. */
  function DigitChar(d: nat): (c: char)
    requires d < 10
    ensures '0' <= c <= '9' && c as int - '0' as int == d
  {
    "0123456789"[d]
  }

  /** The decimal spelling of a natural number, most significant digit first. */
  function NatToDecimal(n: nat): (r: string)
    ensures |r| >= 1
    ensures forall i :: 0 <= i < |r| ==> '0' <= r[i] <= '9'
    ensures r[0] == '0' ==> n == 0
  {
    if n < 10 then [DigitChar(n)] else NatToDecimal(n / 10) + [DigitChar(n % 10)]
  }

  /** The number a string of decimal digits spells. */
  function DecimalValue(s: string): nat
    requires forall i :: 0 <= i < |s| ==> '0' <= s[i] <= '9'
  {
    if s == [] then 0
    else DecimalValue(s[..|s| - 1]) * 10 + (s[|s| - 1] as int - '0' as int)
  }

  /** Reading back the decimal spelling of `n` gives `n`. */
  lemma {:induction false} DecimalRoundTrip(n: nat)
    ensures DecimalValue(NatToDecimal(n)) == n
  {
    if n >= 10 {
      var s := NatToDecimal(n);
      assert s[..|s| - 1] == NatToDecimal(n / 10);
      DecimalRoundTrip(n / 10);
    }
  }

  /** `(string) $i` for an integer: decimal, with a leading '-' when negative. */
  function IntToString(i: int): (r: string)
    ensures |r| >= 1
    ensures i < 0 <==> r[0] == '-'
    ensures var digits := if i < 0 then r[1..] else r;
            (forall k :: 0 <= k < |digits| ==> '0' <= digits[k] <= '9') &&
            DecimalValue(digits) == if i < 0 then -i else i
    ensures var digits := if i < 0 then r[1..] else r;
            |digits| >= 1 && (digits[0] == '0' ==> digits == "0")
  {
    var magnitude: nat := if i < 0 then -i else i;
    DecimalRoundTrip(magnitude);
    assert NatToDecimal(0) == "0";
    if i < 0 then
      var r := "-" + NatToDecimal(magnitude);
      assert r[1..] == NatToDecimal(magnitude);
      r
    else NatToDecimal(magnitude)
  }

  /**
   * Apart from arrays, a value is falsy exactly when its `(string)` cast is a
   * falsy string: null, false, 0, "" and "0" all cast to "" or "0".
   */
  lemma FalsyMatchesStringCast(v: Value)
    requires !v.Arr?
    ensures Falsy(v) <==> FalsyString(PhpString(v))
  {
    if v.Int? {
      assert IntToString(0) == "0";
    }
  }

  /** `(string) $v`: true is "1", false and null are "", an array is "Array". */
  function PhpString(v: Value): (r: string)
    ensures v.Str? ==> r == v.s
    ensures v.Arr? ==> r == "Array"
  {
    match v
    case Null => ""
    case Bool(b) => if b then "1" else ""
    case Int(i) => IntToString(i)
    case Str(s) => s
    case Arr(_) => "Array"
  }

  predicate IsUpper(c: char) {
    'A' <= c <= 'Z'
  }

  /** `strtolower` on one character: ASCII letters only. */
  function LowerChar(c: char): (r: char)
    ensures !IsUpper(r)
    ensures IsUpper(c) ==> r as int == c as int + 32
    ensures !IsUpper(c) ==> r == c
  {
    if IsUpper(c) then (c as int + 32) as char else c
  }

  /** `strtolower`: every ASCII capital is replaced by its small letter. */
  function LowerAscii(s: string): (r: string)
    ensures |r| == |s|
    ensures forall i :: 0 <= i < |s| ==> r[i] == LowerChar(s[i])
  {
    if s == [] then [] else [LowerChar(s[0])] + LowerAscii(s[1..])
  }

  /** A string without ASCII capitals is its own lower-case form. */
  lemma LowerAsciiUnchanged(s: string)
    requires forall i :: 0 <= i < |s| ==> !IsUpper(s[i])
    ensures LowerAscii(s) == s
  {
  }

  /** Lower-casing twice is lower-casing once; the result holds no capital. */
  lemma LowerAsciiIdempotent(s: string)
    ensures LowerAscii(LowerAscii(s)) == LowerAscii(s)
    ensures forall i :: 0 <= i < |s| ==> !IsUpper(LowerAscii(s)[i])
  {
  }
}
