/** Values as PHP sees them after `json_decode($body, true)`, PHP arrays with
    string keys, and the few PHP conversions the core relies on. */
module Json {

  datatype Option<+T> = None | Some(value: T)

  datatype Result<+T, +E> = Ok(value: T) | Err(error: E)

  /** A decoded JSON value. Objects keep their members in document order.
      `Int` is a number PHP decodes as an integer; `Num` is a number PHP
      decodes as a float (a fraction, an exponent, or an integer literal
      outside 64 bits), kept opaque by its text. */
  datatype Json =
    | Null
    | Bool(b: bool)
    | Int(i: int)
    | Num(text: string)
    | Str(s: string)
    | Arr(items: seq<Json>)
    | Obj(members: seq<(string, Json)>)

  /** A PHP array with string keys: an ordered list of key/value pairs. */
  type Fields = seq<(string, Json)>

  function Keys(f: Fields): (ks: seq<string>)
    ensures |ks| == |f|
    ensures forall i :: 0 <= i < |f| ==> ks[i] == f[i].0
  {
    if f == [] then [] else [f[0].0] + Keys(f[1..])
  }

  predicate DistinctKeys(f: Fields) {
    forall i, j :: 0 <= i < j < |f| ==> f[i].0 != f[j].0
  }

  /** `$f[$k]`: the value stored under key `k`, if any. */
  function Lookup(f: Fields, k: string): Option<Json> {
    if f == [] then None
    else if f[0].0 == k then Some(f[0].1)
    else Lookup(f[1..], k)
  }

  /** A key is found exactly when it is among the keys, and what is found is
      a member of the object. */
  lemma {:induction false} LookupFound(f: Fields, k: string)
    ensures Lookup(f, k).None? <==> k !in Keys(f)
    ensures Lookup(f, k).Some? ==> exists i :: 0 <= i < |f| && f[i] == (k, Lookup(f, k).value)
  {
    if f != [] {
      assert Keys(f) == [f[0].0] + Keys(f[1..]);
      if f[0].0 != k {
        LookupFound(f[1..], k);
        if Lookup(f, k).Some? {
          var i :| 0 <= i < |f[1..]| && f[1..][i] == (k, Lookup(f, k).value);
          assert f[i + 1] == f[1..][i];
        }
      } else {
        assert f[0] == (k, Lookup(f, k).value);
      }
    }
  }

  lemma {:induction false} LookupAt(f: Fields, i: int)
    requires DistinctKeys(f)
    requires 0 <= i < |f|
    ensures Lookup(f, f[i].0) == Some(f[i].1)
  {
    if i > 0 {
      assert f[0].0 != f[i].0;
      assert f[1..][i - 1] == f[i];
      LookupAt(f[1..], i - 1);
    }
  }

  lemma KeysAppend(f: Fields, e: (string, Json))
    ensures Keys(f + [e]) == Keys(f) + [e.0]
  {
    assert forall i :: 0 <= i < |f| ==> (f + [e])[i] == f[i];
  }

  lemma {:induction false} LookupAppend(f: Fields, e: (string, Json), k: string)
    requires DistinctKeys(f + [e])
    ensures Lookup(f + [e], k) == if e.0 == k then Some(e.1) else Lookup(f, k)
  {
    var g := f + [e];
    if f != [] {
      assert g[0] == f[0] && g[1..] == f[1..] + [e];
      if f[0].0 == k {
        assert g[0].0 != g[|f|].0;
      } else {
        assert DistinctKeys(f[1..] + [e]) by {
          forall i, j | 0 <= i < j < |f[1..] + [e]|
            ensures (f[1..] + [e])[i].0 != (f[1..] + [e])[j].0
          {
            assert (f[1..] + [e])[i] == g[i + 1] && (f[1..] + [e])[j] == g[j + 1];
          }
        }
        LookupAppend(f[1..], e, k);
      }
    }
  }

  /** `$f[$k] = $v`: an existing key keeps its position and takes the new
      value; a new key is appended at the end. */
  function Set(f: Fields, k: string, v: Json): (r: Fields)
    ensures Keys(r) == if k in Keys(f) then Keys(f) else Keys(f) + [k]
  {
    if f == [] then [(k, v)]
    else if f[0].0 == k then [(k, v)] + f[1..]
    else [f[0]] + Set(f[1..], k, v)
  }

  lemma {:induction false} SetAppendsNewKey(f: Fields, k: string, v: Json)
    requires k !in Keys(f)
    ensures Set(f, k, v) == f + [(k, v)]
  {
    if f != [] {
      assert Keys(f) == [f[0].0] + Keys(f[1..]);
      SetAppendsNewKey(f[1..], k, v);
    }
  }

  lemma {:induction false} SetLookup(f: Fields, k: string, v: Json, k': string)
    ensures Lookup(Set(f, k, v), k') == if k' == k then Some(v) else Lookup(f, k')
  {
    if f != [] && f[0].0 != k {
      SetLookup(f[1..], k, v, k');
    }
  }

  lemma {:induction false} SetDistinct(f: Fields, k: string, v: Json)
    requires DistinctKeys(f)
    ensures DistinctKeys(Set(f, k, v))
  {
    var r := Set(f, k, v);
    assert Keys(r) == if k in Keys(f) then Keys(f) else Keys(f) + [k];
    forall i, j | 0 <= i < j < |r| ensures r[i].0 != r[j].0 {
      assert Keys(r)[i] == r[i].0 && Keys(r)[j] == r[j].0;
    }
  }

  /** `$data[$key]` on whatever `json_decode` produced: only an object has
      string keys; any other value has no such offset. */
  function Member(data: Json, key: string): (r: Option<Json>)
  {
    if data.Obj? then Lookup(data.members, key) else None
  }

  /** PHP `isset($data[$key])`: the key is present and its value is not null. */
  predicate Isset(data: Json, key: string) {
    Member(data, key).Some? && Member(data, key).value != Null
  }

  /** PHP's integer range, `PHP_INT_MIN` to `PHP_INT_MAX`. */
  const IntMin: int := -0x8000_0000_0000_0000
  const IntMax: int := 0x7FFF_FFFF_FFFF_FFFF

  /** What `json_decode` can produce: integers are within PHP's 64-bit
      range, and object members have distinct keys. */
  predicate WellFormed(j: Json)
    decreases j
  {
    match j
    case Int(i) => IntMin <= i <= IntMax
    case Arr(items) => forall i :: 0 <= i < |items| ==> WellFormed(items[i])
    case Obj(ms) =>
      DistinctKeys(ms) && forall i :: 0 <= i < |ms| ==> WellFormed(ms[i].1)
    case _ => true
  }

  /** A member of a well-formed object is well-formed. */
  lemma MemberWellFormed(data: Json, key: string)
    requires WellFormed(data)
    requires Member(data, key).Some?
    ensures WellFormed(Member(data, key).value)
  {
    LookupFound(data.members, key);
    var i :| 0 <= i < |data.members| && data.members[i] == (key, Member(data, key).value);
  }

  function DigitChar(d: int): (c: char)
    requires 0 <= d < 10
    ensures '0' <= c <= '9'
  {
    ('0' as int + d) as char
  }

  predicate IsDigit(c: char) {
    '0' <= c <= '9'
  }

  function DigitValue(c: char): int
    requires IsDigit(c)
  {
    c as int - '0' as int
  }

  /** PHP's decimal rendering of a non-negative integer (no leading zeros). */
  function NatToString(n: nat): (s: string)
    ensures |s| >= 1
    ensures forall i :: 0 <= i < |s| ==> IsDigit(s[i])
    ensures |s| > 1 ==> s[0] != '0'
    decreases n
  {
    if n < 10 then [DigitChar(n)] else NatToString(n / 10) + [DigitChar(n % 10)]
  }

  /** Reading a string of decimal digits back as a number. */
  function ParseDigits(s: string): nat
    requires forall i :: 0 <= i < |s| ==> IsDigit(s[i])
  {
    if s == [] then 0
    else ParseDigits(s[..|s| - 1]) * 10 + DigitValue(s[|s| - 1])
  }

  lemma {:induction false} NatToStringRoundTrip(n: nat)
    ensures ParseDigits(NatToString(n)) == n
    decreases n
  {
    var s := NatToString(n);
    if n >= 10 {
      NatToStringRoundTrip(n / 10);
      assert s[..|s| - 1] == NatToString(n / 10);
    }
  }

  lemma NatToStringInjective(a: nat, b: nat)
    requires NatToString(a) == NatToString(b)
    ensures a == b
  {
    NatToStringRoundTrip(a);
    NatToStringRoundTrip(b);
  }

  /** PHP's int-to-string conversion, as used by `.` concatenation. */
  function IntToString(i: int): (s: string)
    ensures |s| >= 1
    ensures i >= 0 ==> s == NatToString(i)
    ensures i < 0 ==> s == "-" + NatToString(-i)
  {
    if i < 0 then "-" + NatToString(-i) else NatToString(i)
  }

  lemma IntToStringInjective(a: int, b: int)
    requires IntToString(a) == IntToString(b)
    ensures a == b
  {
    var sa, sb := IntToString(a), IntToString(b);
    if a < 0 && b < 0 {
      assert NatToString(-a) == sa[1..] == sb[1..] == NatToString(-b);
      NatToStringInjective(-a, -b);
    } else if a >= 0 && b >= 0 {
      NatToStringInjective(a, b);
    }
  }
}
