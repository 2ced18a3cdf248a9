/** Values that live in a robot's state store, and the machine arithmetic on them. */
module Values {
  datatype Option<+T> = None | Some(value: T)

  const MIN_INT64: int := -0x8000_0000_0000_0000
  const MAX_INT64: int := 0x7fff_ffff_ffff_ffff
  const MAX_UINT64: int := 0xffff_ffff_ffff_ffff

  predicate IsInt64(i: int) {
    MIN_INT64 <= i <= MAX_INT64
  }

  /** Two's complement wrap-around into the signed 64-bit range. */
  function Wrap64(i: int): (r: int)
    ensures IsInt64(r)
    ensures IsInt64(i) ==> r == i
    ensures (r - i) % 0x1_0000_0000_0000_0000 == 0
  {
    (i - MIN_INT64) % 0x1_0000_0000_0000_0000 + MIN_INT64
  }

  function Abs(i: int): nat {
    if i < 0 then -i else i
  }

  /** Division that truncates toward zero, as Go divides integers. */
  function TruncDiv(a: int, b: int): int
    requires b != 0
  {
    if (a < 0) == (b < 0) then Abs(a) / Abs(b) else -(Abs(a) / Abs(b))
  }

  function TruncMod(a: int, b: int): int
    requires b != 0
  {
    a - b * TruncDiv(a, b)
  }

  // The Go integer types a store value can have. `Machine` is the platform-sized type.
  datatype Width = Machine | W8 | W16 | W32 | W64

  /**
   * A store value other than nil. Floats are an uninterpreted type F whose operations come
   * in a FloatOps record; `Opaque` stands for byte slices, lists, maps and lazy values.
   */
  datatype Value<F> =
    | Bool(b: bool)
    | Signed(width: Width, i: int)
    | Unsigned(uwidth: Width, u: nat)
    | Float(f: F)
    | Text(s: string)
    | Opaque(tag: nat)
  {
    predicate Valid() {
      match this
      case Signed(_, i) => IsInt64(i)
      case Unsigned(_, u) => u <= MAX_UINT64
      case _ => true
    }
  }

  // The float operations the program relies on; nothing is assumed about them.
  datatype FloatOps<!F> = FloatOps(
    parse: string -> Option<F>,
    ofInt: int -> F,
    toInt: F -> int,
    less: (F, F) -> bool,
    isZero: F -> bool,
    add: (F, F) -> F,
    sub: (F, F) -> F,
    mul: (F, F) -> F,
    div: (F, F) -> F,
    neg: F -> F,
    bits32: F -> int,
    bits64: F -> int)

  predicate IsDigit(c: char) {
    '0' <= c <= '9'
  }

  predicate AllDigits(s: string) {
    forall k :: 0 <= k < |s| ==> IsDigit(s[k])
  }

  function DecimalValue(s: string): (n: nat)
    requires AllDigits(s)
  {
    if s == "" then 0 else 10 * DecimalValue(s[..|s| - 1]) + (s[|s| - 1] - '0') as nat
  }

  /** A base-10 signed 64-bit integer, with an optional sign; None when malformed or out of range. */
  function ParseInt64(s: string): (r: Option<int>)
    ensures r.Some? ==> IsInt64(r.value)
  {
    var signed := s != "" && (s[0] == '-' || s[0] == '+');
    var digits := if signed then s[1..] else s;
    if digits == "" || !AllDigits(digits) then
      None
    else
      var magnitude: int := DecimalValue(digits);
      var n := if signed && s[0] == '-' then -magnitude else magnitude;
      if IsInt64(n) then Some(n) else None
  }

  function Digits(n: nat): (s: string)
    ensures s != "" && AllDigits(s) && DecimalValue(s) == n
  {
    var last := '0' + (n % 10) as char;
    if n < 10 then [last]
    else
      var s := Digits(n / 10) + [last];
      assert s[..|s| - 1] == Digits(n / 10);
      s
  }

  /** The text of an integer. */
  function Decimal(n: int): string {
    if n < 0 then "-" + Digits(-n) else Digits(n)
  }

  /** Every 64-bit integer is read back from its text, also with a plus sign or zeros in front; nothing beyond 64 bits is read. */
  lemma ParseDecimal(n: int)
    ensures ParseInt64(Decimal(n)) == if IsInt64(n) then Some(n) else None
    ensures n >= 0 ==> ParseInt64("+" + Decimal(n)) == ParseInt64(Decimal(n)) == ParseInt64("0" + Decimal(n))
  {
    if n < 0 {
      assert Decimal(n)[1..] == Digits(-n);
    } else {
      var d := Digits(n);
      assert IsDigit(d[0]);
      assert ("+" + d)[1..] == d;
      LeadingZero(d);
    }
  }

  lemma {:induction false} LeadingZero(d: string)
    requires AllDigits(d)
    ensures AllDigits("0" + d) && DecimalValue("0" + d) == DecimalValue(d)
    decreases |d|
  {
    var z := "0" + d;
    if d == "" {
      assert z[..0] == "";
    } else {
      LeadingZero(d[..|d| - 1]);
      assert z[..|z| - 1] == "0" + d[..|d| - 1];
    }
  }

  /** Unicode white space, as the standard library trims it. */
  predicate IsUnicodeSpace(c: char) {
    c == ' ' || '\t' <= c <= '\r' || c == '\U{85}' || c == '\U{A0}' || c == '\U{1680}' ||
    '\U{2000}' <= c <= '\U{200A}' || c == '\U{2028}' || c == '\U{2029}' || c == '\U{202F}' ||
    c == '\U{205F}' || c == '\U{3000}'
  }

  function TrimLeft(s: string): (r: string)
    ensures r != "" ==> !IsUnicodeSpace(r[0])
    ensures |r| <= |s| && r == s[|s| - |r|..]
  {
    if s != "" && IsUnicodeSpace(s[0]) then TrimLeft(s[1..]) else s
  }

  function TrimRight(s: string): (r: string)
    ensures r != "" ==> !IsUnicodeSpace(r[|r| - 1])
    ensures |r| <= |s| && r == s[..|r|]
  {
    if s != "" && IsUnicodeSpace(s[|s| - 1]) then TrimRight(s[..|s| - 1]) else s
  }

  function TrimSpace(s: string): (r: string)
    ensures r != "" ==> !IsUnicodeSpace(r[0]) && !IsUnicodeSpace(r[|r| - 1])
  {
    var l := TrimLeft(s);
    var r := TrimRight(l);
    assert r != "" ==> r[0] == l[0];
    r
  }

  lemma TrimSpaceIdentity(s: string)
    requires s != ""
    requires !IsUnicodeSpace(s[0]) && !IsUnicodeSpace(s[|s| - 1])
    ensures TrimSpace(s) == s
  {
  }
}
