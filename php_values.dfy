/** PHP value semantics that the plugin relies on: optional keys, decoded JSON values,
    `empty()`, the `(int)` and `(string)` casts, `strcmp` order and `rtrim`. */
module PhpValues {

  datatype Option<+T> = None | Some(value: T)

  /** `$x ?? $default` for a key that may be absent or null. */
  function OrElse<T>(o: Option<T>, default: T): T {
    match o
    case Some(v) => v
    case None => default
  }

  /** A file the plugin reads back: absent, not decodable to an array, or decoded. */
  datatype File<T> = Missing | Corrupt | Json(data: T)

  /** A decoded JSON value as PHP holds it (floats are not modelled). */
  datatype Value = Null | Bool(b: bool) | Int(i: int) | Str(s: string) | Arr(entries: map<string, Value>)

  /** `$m[$k] ?? $default`: the default when the key is absent or its value is null. */
  function Lookup(m: map<string, Value>, k: string, default: Value): (v: Value)
    ensures k in m && m[k] != Null ==> v == m[k]
    ensures (k !in m || m[k] == Null) ==> v == default
  {
    if k in m && m[k] != Null then m[k] else default
  }

  /** PHP's `empty()` on a string: both "" and "0" count as empty. */
  predicate EmptyStr(s: string) {
    s == "" || s == "0"
  }

  /** PHP's `empty()` on an optional string (an absent key is empty). */
  predicate EmptyOpt(o: Option<string>) {
    o.None? || EmptyStr(o.value)
  }

  /** PHP's `empty()` on a decoded value. */
  predicate Empty(v: Value) {
    match v
    case Null => true
    case Bool(b) => !b
    case Int(i) => i == 0
    case Str(s) => EmptyStr(s)
    case Arr(m) => m == map[]
  }

  predicate IsDigit(c: char) {
    '0' <= c <= '9'
  }

  function DigitValue(c: char): nat
    requires IsDigit(c)
  {
    c as int - '0' as int
  }

  /** Number of leading decimal digits of s. */
  function DigitRun(s: string): (n: nat)
    ensures n <= |s|
    ensures forall j :: 0 <= j < n ==> IsDigit(s[j])
    ensures n < |s| ==> !IsDigit(s[n])
  {
    if s == [] || !IsDigit(s[0]) then 0 else 1 + DigitRun(s[1..])
  }

  /** The value of a string of decimal digits. */
  function DigitsValue(ds: string): nat
    requires forall j :: 0 <= j < |ds| ==> IsDigit(ds[j])
  {
    if ds == [] then 0 else 10 * DigitsValue(ds[..|ds| - 1]) + DigitValue(ds[|ds| - 1])
  }

  /** `(int)` of a string: an optional sign and the leading decimal digits; 0 when there are none. */
  function LeadingInt(s: string): int {
    if s != [] && (s[0] == '-' || s[0] == '+') then
      var n: int := DigitsValue(s[1..][..DigitRun(s[1..])]);
      if s[0] == '-' then -n else n
    else
      DigitsValue(s[..DigitRun(s)])
  }

  /** PHP's `(int)` cast. */
  function IntCast(v: Value): int {
    match v
    case Null => 0
    case Bool(b) => if b then 1 else 0
    case Int(i) => i
    case Str(s) => LeadingInt(s)
    case Arr(m) => if m == map[] then 0 else 1
  }

  function DigitChar(d: nat): (c: char)
    requires d < 10
    ensures IsDigit(c) && DigitValue(c) == d
  {
    ('0' as int + d) as char
  }

  /** The decimal digits of n, without leading zeros. */
  function NatToDecimal(n: nat): (s: string)
    ensures |s| >= 1
    ensures forall j :: 0 <= j < |s| ==> IsDigit(s[j])
    ensures n >= 10 ==> |s| >= 2
  {
    if n < 10 then [DigitChar(n)] else NatToDecimal(n / 10) + [DigitChar(n % 10)]
  }

  /** PHP's decimal rendering of an int. */
  function IntToDecimal(i: int): string {
    if i < 0 then "-" + NatToDecimal(-i) else NatToDecimal(i)
  }

  /** PHP's `(string)` cast. */
  function StrCast(v: Value): string {
    match v
    case Null => ""
    case Bool(b) => if b then "1" else ""
    case Int(i) => IntToDecimal(i)
    case Str(s) => s
    case Arr(_) => "Array"
  }

  /** `strcmp(a, b) <= 0`: byte-wise (here character-wise) lexicographic order. */
  predicate StrLeq(a: string, b: string) {
    if a == [] then true
    else if b == [] then false
    else if a[0] != b[0] then a[0] < b[0]
    else StrLeq(a[1..], b[1..])
  }

  /** `rtrim($s, $c)`: s without its trailing run of c. */
  function RTrim(s: string, c: char): (r: string)
    ensures |r| <= |s| && r == s[..|r|]
    ensures r == [] || r[|r| - 1] != c
    ensures forall j :: |r| <= j < |s| ==> s[j] == c
  {
    if s == [] || s[|s| - 1] != c then s else RTrim(s[..|s| - 1], c)
  }

  lemma {:induction false} StrLeqRefl(a: string)
    ensures StrLeq(a, a)
  {
    if a != [] { StrLeqRefl(a[1..]); }
  }

  lemma {:induction false} StrLeqTotal(a: string, b: string)
    ensures StrLeq(a, b) || StrLeq(b, a)
  {
    if a != [] && b != [] && a[0] == b[0] { StrLeqTotal(a[1..], b[1..]); }
  }

  lemma {:induction false} StrLeqTrans(a: string, b: string, c: string)
    requires StrLeq(a, b) && StrLeq(b, c)
    ensures StrLeq(a, c)
  {
    if a != [] && b != [] && c != [] && a[0] == b[0] && b[0] == c[0] {
      StrLeqTrans(a[1..], b[1..], c[1..]);
    }
  }

  lemma {:induction false} StrLeqAntisym(a: string, b: string)
    requires StrLeq(a, b) && StrLeq(b, a)
    ensures a == b
  {
    if a != [] && b != [] {
      StrLeqAntisym(a[1..], b[1..]);
      assert a == [a[0]] + a[1..] && b == [b[0]] + b[1..];
    }
  }

  /** Two strings that agree up to a point are ordered by the first characters after it. */
  lemma {:induction false} StrLeqCommonPrefix(p: string, x: string, y: string)
    requires x != [] && y != [] && x[0] != y[0]
    ensures StrLeq(p + x, p + y) <==> x[0] < y[0]
  {
    if p != [] {
      assert (p + x)[1..] == p[1..] + x && (p + y)[1..] == p[1..] + y;
      StrLeqCommonPrefix(p[1..], x, y);
    } else {
      assert p + x == x && p + y == y;
    }
  }

  /** The rendering of an int is PHP-empty exactly when the int is 0. */
  lemma IntRenderingEmpty(i: int)
    ensures EmptyStr(StrCast(Int(i))) <==> i == 0
  {
    if i < 0 {
      assert StrCast(Int(i))[0] == '-';
    } else if i >= 10 {
      assert |StrCast(Int(i))| >= 2;
    } else if i > 0 {
      assert StrCast(Int(i)) == [DigitChar(i)];
    }
  }
}
