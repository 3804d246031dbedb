/** Decimal numbers as the script reads and writes them: digit strings, Python's `int()`
    and `float()` constructors applied to text, and the six-decimal rendering of
    `'%f' % x` and `format(x, '.6f')`. Values are exact decimals, not binary doubles. */
module Numbers {
  import opened Wrappers
  import opened Text

  predicate IsDigit(c: char) {
    '0' <= c <= '9'
  }

  predicate AllDigits(s: string) {
    forall i :: 0 <= i < |s| ==> IsDigit(s[i])
  }

  function DigitValue(c: char): (d: nat)
    requires IsDigit(c)
    ensures d < 10
  {
    c as int - '0' as int
  }

  function DigitChar(d: nat): (c: char)
    requires d < 10
    ensures IsDigit(c) && DigitValue(c) == d
  {
    ('0' as int + d) as char
  }

  function Pow10(k: nat): (r: nat)
    ensures r >= 1
  {
    if k == 0 then 1 else 10 * Pow10(k - 1)
  }

  lemma {:induction false} Pow10Add(a: nat, b: nat)
    ensures Pow10(a + b) == Pow10(a) * Pow10(b)
    decreases a
  {
    if a > 0 {
      Pow10Add(a - 1, b);
      assert Pow10(a + b) == 10 * Pow10(a - 1 + b);
    }
  }

  /** The base-ten value of a digit string; the empty string is 0. */
  function DigitsValue(s: string): (r: nat)
    requires AllDigits(s)
    decreases |s|
  {
    if |s| == 0 then 0 else 10 * DigitsValue(s[..|s| - 1]) + DigitValue(s[|s| - 1])
  }

  lemma AllDigitsAppend(a: string, b: string)
    requires AllDigits(a) && AllDigits(b)
    ensures AllDigits(a + b)
  {
    forall i | 0 <= i < |a + b| ensures IsDigit((a + b)[i]) {
      if i < |a| { assert (a + b)[i] == a[i]; } else { assert (a + b)[i] == b[i - |a|]; }
    }
  }

  lemma ShiftDistributes(x: int, p: int, y: int, c: int)
    ensures 10 * (x * p + y) + c == x * (10 * p) + (10 * y + c)
  {
  }

  /** Reading `a` followed by `b` shifts `a` left by the length of `b`. */
  lemma {:induction false} DigitsValueAppend(a: string, b: string)
    requires AllDigits(a) && AllDigits(b)
    ensures AllDigits(a + b)
    ensures DigitsValue(a + b) == DigitsValue(a) * Pow10(|b|) + DigitsValue(b)
    decreases |b|
  {
    AllDigitsAppend(a, b);
    if |b| == 0 {
      assert a + b == a;
    } else {
      var b' := b[..|b| - 1];
      var last := b[|b| - 1];
      assert (a + b)[..|a + b| - 1] == a + b';
      assert (a + b)[|a + b| - 1] == last;
      DigitsValueAppend(a, b');
      ShiftDistributes(DigitsValue(a), Pow10(|b'|), DigitsValue(b'), DigitValue(last));
    }
  }

  /** Python's `str(n)` for a natural number: decimal digits without leading zeros. */
  function NatToString(n: nat): (s: string)
    ensures |s| >= 1 && AllDigits(s)
    ensures DigitsValue(s) == n
    ensures n > 0 ==> s[0] != '0'
    decreases n
  {
    if n < 10 then [DigitChar(n)]
    else
      var s := NatToString(n / 10) + [DigitChar(n % 10)];
      assert s[..|s| - 1] == NatToString(n / 10);
      s
  }

  /** Python's `str(i)` and `'%d' % i` for an integer. */
  function IntToString(i: int): (r: string) {
    SignText(i < 0) + NatToString(if i < 0 then -i else i)
  }

  lemma MulAtLeast(k: int, c: int)
    requires k > 0 && c >= 1
    ensures k * c >= k
  {
  }

  /** Division with remainder is unique. */
  lemma DivModUnique(n: int, k: int, a: int, b: int)
    requires k > 0 && 0 <= b < k && n == k * a + b
    ensures n / k == a && n % k == b
  {
    var q := n / k;
    var r := n % k;
    assert n == k * q + r;
    if q > a {
      assert k * q - k * a == k * (q - a);
      MulAtLeast(k, q - a);
    } else if q < a {
      assert k * a - k * q == k * (a - q);
      MulAtLeast(k, a - q);
    }
  }

  lemma ModTen(n: nat, m: nat)
    requires m >= 1
    ensures n % (10 * m) == 10 * ((n / 10) % m) + n % 10
  {
    var q := n / 10;
    var d := n % 10;
    var q2 := q / m;
    var r2 := q % m;
    assert q == m * q2 + r2;
    calc {
      n;
      10 * q + d;
      10 * (m * q2 + r2) + d;
      (10 * m) * q2 + (10 * r2 + d);
    }
    DivModUnique(n, 10 * m, q2, 10 * r2 + d);
  }

  /** The last `k` decimal digits of `n`, zero-padded to exactly `k` characters. */
  function FixedDigits(n: nat, k: nat): (s: string)
    ensures |s| == k && AllDigits(s)
    ensures DigitsValue(s) == n % Pow10(k)
    decreases k
  {
    if k == 0 then []
    else
      var s := FixedDigits(n / 10, k - 1) + [DigitChar(n % 10)];
      assert s[..|s| - 1] == FixedDigits(n / 10, k - 1);
      ModTen(n, Pow10(k - 1));
      s
  }

  /** A digit or the `_` that Python admits between two digits of a numeric literal. */
  predicate DigitOrSep(c: char) {
    IsDigit(c) || c == '_'
  }

  /** What a greedy scan of digits read, and the text it left. */
  datatype Run = Run(digits: string, rest: string)

  /** Python's `digitpart` (`digit (["_"] digit)*`), matched greedily at the start of `s`:
      the digits read (separators removed) and the text left over. */
  function DigitRun(s: string): (r: Run)
    ensures AllDigits(r.digits)
    ensures |r.rest| <= |s|
    ensures r.digits == [] ==> r.rest == s
    decreases |s|
  {
    if |s| > 0 && IsDigit(s[0]) then
      var tail := s[1..];
      var skip := if |tail| >= 2 && tail[0] == '_' && IsDigit(tail[1]) then 1 else 0;
      var r := DigitRun(tail[skip..]);
      Run([s[0]] + r.digits, r.rest)
    else Run([], s)
  }

  /** A digit string followed by a character that cannot continue it is read whole. */
  lemma {:induction false} DigitRunOfDigits(ds: string, rest: string)
    requires |ds| >= 1 && AllDigits(ds)
    requires rest == [] || !DigitOrSep(rest[0])
    ensures DigitRun(ds + rest) == Run(ds, rest)
    decreases |ds|
  {
    var s := ds + rest;
    assert s[0] == ds[0];
    var tail := s[1..];
    assert tail == ds[1..] + rest;
    if |ds| == 1 {
      assert tail == rest;
      assert DigitRun(rest) == Run([], rest);
      assert DigitRun(s) == Run([s[0]] + [], rest);
      assert [s[0]] + [] == ds;
    } else {
      assert tail[0] == ds[1];
      assert tail[0..] == tail;
      DigitRunOfDigits(ds[1..], rest);
      assert DigitRun(s) == Run([s[0]] + ds[1..], rest);
      assert [ds[0]] + ds[1..] == ds;
    }
  }

  /** An optional leading `+` or `-`: whether it was a minus, and the text after it. */
  function SplitSign(s: string): (r: (bool, string)) {
    if |s| > 0 && (s[0] == '+' || s[0] == '-') then (s[0] == '-', s[1..]) else (false, s)
  }

  /** A sign written in front of a number is read back by `SplitSign`. */
  lemma SplitSignOf(negative: bool, body: string)
    requires |body| >= 1 && IsDigit(body[0])
    ensures SplitSign(SignText(negative) + body) == (negative, body)
  {
    var t := SignText(negative) + body;
    if negative {
      assert t[0] == '-';
      assert t[1..] == body;
    } else {
      assert t == body;
    }
  }

  function SignText(negative: bool): (r: string) {
    if negative then "-" else ""
  }

  function Signed(negative: bool, n: nat): (r: int) {
    if negative then -(n as int) else n as int
  }

  /** The four ASCII information separators `\x1C` to `\x1F`: white space to `str.isspace`,
      but not to `int()` and `float()`. */
  predicate IsSeparator(c: char) {
    '\U{1C}' <= c <= '\U{1F}'
  }

  /** The white space `int()` and `float()` skip around a number. CPython first turns every
      non-ASCII white space character into a space and then skips only the ASCII space and
      `\t` to `\r`, which leaves `str.isspace` without the four separators. */
  predicate IsNumberSpace(c: char) {
    IsSpace(c) && !IsSeparator(c)
  }

  predicate NumberBlank(s: string) {
    forall i :: 0 <= i < |s| ==> IsNumberSpace(s[i])
  }

  predicate NoSeparator(s: string) {
    forall i :: 0 <= i < |s| ==> !IsSeparator(s[i])
  }

  /** `s` without the white space `int()` and `float()` skip in front of a number. */
  function TrimLeft(s: string): (r: string)
    ensures |r| <= |s| && r == s[|s| - |r|..]
    ensures forall i :: 0 <= i < |s| - |r| ==> IsNumberSpace(s[i])
    ensures r == [] || !IsNumberSpace(r[0])
    decreases |s|
  {
    if |s| > 0 && IsNumberSpace(s[0]) then TrimLeft(s[1..]) else s
  }

  /** `s` without the white space `int()` and `float()` skip after a number. */
  function TrimRight(s: string): (r: string)
    ensures |r| <= |s| && r == s[..|r|]
    ensures forall i :: |r| <= i < |s| ==> IsNumberSpace(s[i])
    ensures r == [] || !IsNumberSpace(r[|r| - 1])
    decreases |s|
  {
    if |s| > 0 && IsNumberSpace(s[|s| - 1]) then TrimRight(s[..|s| - 1]) else s
  }

  /** The text `int()` and `float()` parse once the white space around it is skipped. */
  function Trim(s: string): (r: string) {
    TrimRight(TrimLeft(s))
  }

  /** Python's `int(s)` on text: surrounding white space, an optional sign, and a
      `digitpart` that must reach the end of the text; anything else raises, shown here as
      `None`. */
  function ParseInt(s: string): (r: Option<int>) {
    ParseIntStripped(Trim(s))
  }

  function ParseIntStripped(t: string): (r: Option<int>) {
    var sign := SplitSign(t);
    var run := DigitRun(sign.1);
    if run.digits == [] || run.rest != [] then None
    else Some(Signed(sign.0, DigitsValue(run.digits)))
  }

  lemma ParseSignedDigits(negative: bool, digits: string)
    requires |digits| >= 1 && AllDigits(digits)
    ensures ParseIntStripped(SignText(negative) + digits) == Some(Signed(negative, DigitsValue(digits)))
  {
    SplitSignOf(negative, digits);
    DigitRunOfDigits(digits, []);
    assert digits + [] == digits;
  }

  /** `str(i)` read back by `int()` with white space around it gives `i` exactly when that
      white space holds none of the four separators; with one, `int()` raises. */
  lemma ParseIntOfIntToString(w1: string, i: int, w2: string)
    requires IsBlank(w1) && IsBlank(w2)
    ensures ParseInt(w1 + IntToString(i) + w2) == if NumberBlank(w1) && NumberBlank(w2) then Some(i) else None
  {
    if NumberBlank(w1) && NumberBlank(w2) {
      ParseIntBetweenBlanks(w1, i, w2);
    } else if !NumberBlank(w1) {
      var k :| 0 <= k < |w1| && !IsNumberSpace(w1[k]);
      SeparatorInFront(w1, IntToString(i), w2, k);
    } else {
      var k :| 0 <= k < |w2| && !IsNumberSpace(w2[k]);
      SeparatorBehind(w1, IntToString(i), w2, k);
    }
  }

  lemma ParseIntBetweenBlanks(w1: string, i: int, w2: string)
    requires NumberBlank(w1) && NumberBlank(w2)
    ensures ParseInt(w1 + IntToString(i) + w2) == Some(i)
  {
    TrimIntText(w1, i, w2);
    ParseSignedDigits(i < 0, NatToString(if i < 0 then -i else i));
  }

  lemma SeparatorInFront(w1: string, t: string, w2: string, k: int)
    requires IsBlank(w1) && 0 <= k < |w1| && !IsNumberSpace(w1[k])
    ensures ParseInt(w1 + t + w2) == None
  {
    assert (w1 + t + w2)[k] == w1[k];
    SeparatorRejected(w1 + t + w2, k);
  }

  lemma SeparatorBehind(w1: string, t: string, w2: string, k: int)
    requires IsBlank(w2) && 0 <= k < |w2| && !IsNumberSpace(w2[k])
    ensures ParseInt(w1 + t + w2) == None
  {
    assert (w1 + t + w2)[|w1 + t| + k] == w2[k];
    SeparatorRejected(w1 + t + w2, |w1 + t| + k);
  }

  lemma TrimIntText(w1: string, i: int, w2: string)
    requires NumberBlank(w1) && NumberBlank(w2)
    ensures Trim(w1 + IntToString(i) + w2) == IntToString(i)
  {
    var t := IntToString(i);
    var n: nat := if i < 0 then -i else i;
    var digits := NatToString(n);
    assert t[|t| - 1] == digits[|digits| - 1];
    if i >= 0 { assert t[0] == digits[0]; }
    TrimAround(w1, t, w2);
  }

  lemma TrimLeftAround(w: string, x: string)
    requires NumberBlank(w)
    requires |x| >= 1 && !IsNumberSpace(x[0])
    ensures TrimLeft(w + x) == x
    decreases |w|
  {
    if |w| == 0 {
      assert w + x == x;
    } else {
      assert (w + x)[1..] == w[1..] + x;
      TrimLeftAround(w[1..], x);
    }
  }

  lemma TrimRightAround(x: string, w: string)
    requires NumberBlank(w)
    requires |x| >= 1 && !IsNumberSpace(x[|x| - 1])
    ensures TrimRight(x + w) == x
    decreases |w|
  {
    if |w| == 0 {
      assert x + w == x;
    } else {
      assert (x + w)[..|x + w| - 1] == x + w[..|w| - 1];
      TrimRightAround(x, w[..|w| - 1]);
    }
  }

  /** A text that neither starts nor ends with white space `int()` and `float()` skip is
      its own trimmed text. */
  lemma TrimmedAlready(t: string)
    requires |t| >= 1 && !IsNumberSpace(t[0]) && !IsNumberSpace(t[|t| - 1])
    ensures Trim(t) == t
  {
    TrimAround([], t, []);
    assert [] + t + [] == t;
  }

  lemma TrimAround(w1: string, x: string, w2: string)
    requires NumberBlank(w1) && NumberBlank(w2)
    requires |x| >= 1 && !IsNumberSpace(x[0]) && !IsNumberSpace(x[|x| - 1])
    ensures Trim(w1 + x + w2) == x
  {
    assert w1 + x + w2 == w1 + (x + w2);
    TrimLeftAround(w1, x + w2);
    TrimRightAround(x, w2);
  }

  /** Skipping white space keeps every separator. */
  lemma TrimKeepsSeparators(s: string)
    ensures NoSeparator(Trim(s)) ==> NoSeparator(s)
  {
    var l := TrimLeft(s);
    var r := TrimRight(l);
    if NoSeparator(r) {
      forall i | 0 <= i < |s| ensures !IsSeparator(s[i]) {
        var j := i - (|s| - |l|);
        if j >= 0 {
          assert s[i] == l[j];
          if j < |r| { assert l[j] == r[j]; }
        }
      }
    }
  }

  /** A digit run reads no separator, so any separator is left over. */
  lemma {:induction false} DigitRunKeepsSeparators(s: string)
    ensures NoSeparator(DigitRun(s).rest) ==> NoSeparator(s)
    decreases |s|
  {
    if |s| > 0 && IsDigit(s[0]) && NoSeparator(DigitRun(s).rest) {
      var tail := s[1..];
      var skip := if |tail| >= 2 && tail[0] == '_' && IsDigit(tail[1]) then 1 else 0;
      DigitRunKeepsSeparators(tail[skip..]);
      forall i | 0 <= i < |s| ensures !IsSeparator(s[i]) {
        if i > skip { assert s[i] == tail[skip..][i - 1 - skip]; }
      }
    }
  }

  lemma SignKeepsSeparators(t: string)
    ensures NoSeparator(SplitSign(t).1) ==> NoSeparator(t)
  {
    if |t| > 0 && (t[0] == '+' || t[0] == '-') && NoSeparator(t[1..]) {
      forall i | 0 < i < |t| ensures !IsSeparator(t[i]) {
        assert t[i] == t[1..][i - 1];
      }
    }
  }

  lemma MantissaKeepsSeparators(body: string)
    ensures NoSeparator(ScanMantissa(body).rest) ==> NoSeparator(body)
  {
    var ip := DigitRun(body);
    if |ip.rest| > 0 && ip.rest[0] == '.' {
      DigitRunKeepsSeparators(ip.rest[1..]);
      if NoSeparator(ip.rest[1..]) {
        forall i | 0 < i < |ip.rest| ensures !IsSeparator(ip.rest[i]) {
          assert ip.rest[i] == ip.rest[1..][i - 1];
        }
      }
    }
    DigitRunKeepsSeparators(body);
  }

  /** An exponent suffix `float()` accepts holds no separator. */
  lemma ExponentHasNoSeparator(s: string)
    requires ExponentPart(s).Some?
    ensures NoSeparator(s)
  {
    if s != [] {
      var sign := SplitSign(s[1..]);
      DigitRunKeepsSeparators(sign.1);
      SignKeepsSeparators(s[1..]);
      forall i | 0 < i < |s| ensures !IsSeparator(s[i]) {
        assert s[i] == s[1..][i - 1];
      }
    }
  }

  /** A separator anywhere in the text makes both `int()` and `float()` raise. */
  lemma SeparatorRejected(s: string, k: int)
    requires 0 <= k < |s| && IsSeparator(s[k])
    ensures ParseInt(s) == None
    ensures ParseFloat(s) == None
  {
    var t := Trim(s);
    TrimKeepsSeparators(s);
    var sign := SplitSign(t);
    SignKeepsSeparators(t);
    DigitRunKeepsSeparators(sign.1);
    MantissaKeepsSeparators(sign.1);
    if ExponentPart(ScanMantissa(sign.1).rest).Some? {
      ExponentHasNoSeparator(ScanMantissa(sign.1).rest);
    }
  }

  /** An exact decimal `magnitude / 10^scale`, negated when `negative`. The sign is kept
      apart from the magnitude because Python prints a negative zero with its minus sign. */
  datatype Dec = Dec(negative: bool, magnitude: nat, scale: nat)

  /** The number a `Dec` stands for. */
  function Value(d: Dec): (r: real) {
    (if d.negative then -1.0 else 1.0) * (d.magnitude as real / Pow10(d.scale) as real)
  }

  /** An integer as a float: `float(i)`, or `format(i, '.6f')` applied to an int. */
  function FromInt(i: int): (d: Dec)
    ensures Value(d) == i as real
  {
    Dec(i < 0, if i < 0 then -i else i, 0)
  }

  /** A digit string with `fracLen` fractional digits and decimal exponent `e`. */
  function Scaled(negative: bool, digits: string, fracLen: nat, e: int): (r: Dec)
    requires AllDigits(digits)
  {
    if e >= fracLen then Dec(negative, DigitsValue(digits) * Pow10(e - fracLen), 0)
    else Dec(negative, DigitsValue(digits), fracLen - e)
  }

  /** Python's exponent suffix `(e|E) [sign] digitpart`; the empty text is exponent 0. */
  function ExponentPart(s: string): (r: Option<int>) {
    if s == [] then Some(0)
    else if s[0] == 'e' || s[0] == 'E' then
      var sign := SplitSign(s[1..]);
      var run := DigitRun(sign.1);
      if run.digits == [] || run.rest != [] then None
      else Some(Signed(sign.0, DigitsValue(run.digits)))
    else None
  }

  /** The mantissa of a float literal: integer digits, then the fraction digits after an
      optional point, and the text after them. */
  datatype Mantissa = Mantissa(intDigits: string, fracDigits: string, rest: string)

  function ScanMantissa(body: string): (m: Mantissa)
    ensures AllDigits(m.intDigits) && AllDigits(m.fracDigits)
  {
    var ip := DigitRun(body);
    if |ip.rest| > 0 && ip.rest[0] == '.' then
      var fp := DigitRun(ip.rest[1..]);
      Mantissa(ip.digits, fp.digits, fp.rest)
    else Mantissa(ip.digits, [], ip.rest)
  }

  /** Python's float literal after stripping: sign, digits with an optional point, exponent. */
  function ParseFloatStripped(t: string): (r: Option<Dec>) {
    var sign := SplitSign(t);
    var m := ScanMantissa(sign.1);
    if m.intDigits == [] && m.fracDigits == [] then None
    else
      match ExponentPart(m.rest)
      case None => None
      case Some(e) => Some(Scaled(sign.0, m.intDigits + m.fracDigits, |m.fracDigits|, e))
  }

  /** Python's `float(s)` on text, for finite decimal spellings; a `ValueError` is `None`. */
  function ParseFloat(s: string): (r: Option<Dec>) {
    ParseFloatStripped(Trim(s))
  }

  /** `n / q` rounded to the nearest integer, halves going to the even neighbour. */
  function RoundHalfEven(n: nat, q: nat): (r: nat)
    requires q >= 1
  {
    var f := n / q;
    var rem := n % q;
    if 2 * rem > q || (2 * rem == q && f % 2 == 1) then f + 1 else f
  }

  function Distance(a: int, b: int): (r: nat) {
    if a >= b then a - b else b - a
  }

  /** `RoundHalfEven` picks a nearest multiple, and the even quotient on a tie. */
  lemma RoundHalfEvenNearest(n: nat, q: nat)
    requires q >= 1
    ensures 2 * Distance(RoundHalfEven(n, q) * q, n) <= q
    ensures 2 * Distance(RoundHalfEven(n, q) * q, n) == q ==> RoundHalfEven(n, q) % 2 == 0
  {
    var f := n / q;
    var rem := n % q;
    var fq := f * q;
    assert n == fq + rem;
    assert (f + 1) * q == fq + q;
  }

  /** The value of `d` in millionths, rounded half-to-even beyond the sixth decimal. */
  function Micros(d: Dec): (r: nat) {
    if d.scale <= 6 then d.magnitude * Pow10(6 - d.scale)
    else RoundHalfEven(d.magnitude, Pow10(d.scale - 6))
  }

  /** `'%f' % x` and `format(x, '.6f')`: sign, integer part, point, six decimals. */
  function Format6(d: Dec): (r: string) {
    var m := Micros(d);
    SignText(d.negative) + NatToString(m / 1000000) + "." + FixedDigits(m, 6)
  }

  /** The mantissa scanner reads `ip.fp` whole and stops at the first character that
      cannot continue a digit run. */
  lemma MantissaOfPointLiteral(ip: string, fp: string, rest: string)
    requires |ip| >= 1 && AllDigits(ip) && |fp| >= 1 && AllDigits(fp)
    requires rest == [] || !DigitOrSep(rest[0])
    ensures ScanMantissa(ip + "." + fp + rest) == Mantissa(ip, fp, rest)
  {
    assert ip + "." + fp + rest == ip + ("." + fp + rest);
    DigitRunOfDigits(ip, "." + fp + rest);
    assert ("." + fp + rest)[1..] == fp + rest;
    DigitRunOfDigits(fp, rest);
  }

  /** `float()` reads a signed `digits.digits` literal as those digits over a power of ten. */
  lemma ParsePointLiteral(negative: bool, ip: string, fp: string)
    requires |ip| >= 1 && AllDigits(ip) && |fp| >= 1 && AllDigits(fp)
    ensures AllDigits(ip + fp)
    ensures ParseFloatStripped(SignText(negative) + ip + "." + fp)
            == Some(Dec(negative, DigitsValue(ip + fp), |fp|))
  {
    AllDigitsAppend(ip, fp);
    var body := ip + "." + fp;
    assert body[0] == ip[0];
    SplitSignOf(negative, body);
    Rebracket(SignText(negative), ip, ".", fp);
    MantissaOfPointLiteral(ip, fp, []);
    assert ip + "." + fp + [] == body;
  }

  /** `float()` reads a signed run of digits as that integer. */
  lemma ParseIntegerLiteral(negative: bool, ip: string)
    requires |ip| >= 1 && AllDigits(ip)
    ensures ParseFloatStripped(SignText(negative) + ip) == Some(Dec(negative, DigitsValue(ip), 0))
  {
    SplitSignOf(negative, ip);
    DigitRunOfDigits(ip, []);
    assert ip + [] == ip;
    assert ScanMantissa(ip) == Mantissa(ip, [], []);
    assert Pow10(0) == 1;
  }

  /** A `digits.digits` literal followed by a space and more text is rejected by `float()`. */
  lemma ParsePointLiteralThenText(negative: bool, ip: string, fp: string, rest: string)
    requires |ip| >= 1 && AllDigits(ip) && |fp| >= 1 && AllDigits(fp)
    requires |rest| >= 1 && rest[0] == ' '
    ensures ParseFloatStripped(SignText(negative) + ip + "." + fp + rest).None?
  {
    var body := ip + "." + fp + rest;
    assert body[0] == ip[0];
    SplitSignOf(negative, body);
    Rebracket(SignText(negative), ip + ".", fp, rest);
    Rebracket(SignText(negative), ip, ".", []);
    MantissaOfPointLiteral(ip, fp, rest);
  }

  /** The text of `Format6(d)` has no white space around it. */
  lemma Format6Trimmed(d: Dec, rest: string)
    requires rest == [] || !IsNumberSpace(rest[|rest| - 1])
    ensures Trim(Format6(d) + rest) == Format6(d) + rest
  {
    var m := Micros(d);
    var ip := NatToString(m / 1000000);
    var fp := FixedDigits(m, 6);
    var t := Format6(d) + rest;
    assert t == SignText(d.negative) + ip + "." + fp + rest;
    assert !IsNumberSpace(t[0]) by {
      if !d.negative { assert t[0] == ip[0]; }
    }
    assert !IsNumberSpace(t[|t| - 1]) by {
      if rest == [] { assert t[|t| - 1] == fp[5]; }
    }
    TrimAround([], t, []);
    assert [] + t + [] == t;
  }

  /** The integer and fraction parts of a six-decimal rendering spell out the millionths. */
  lemma Format6Digits(m: nat)
    ensures AllDigits(NatToString(m / 1000000) + FixedDigits(m, 6))
    ensures DigitsValue(NatToString(m / 1000000) + FixedDigits(m, 6)) == m
  {
    DigitsValueAppend(NatToString(m / 1000000), FixedDigits(m, 6));
    assert Pow10(6) == 1000000;
  }

  /** A six-decimal rendering is read back by `float()` as exactly the rounded value. */
  lemma Format6RoundTrip(d: Dec)
    ensures ParseFloat(Format6(d)) == Some(Dec(d.negative, Micros(d), 6))
  {
    var m := Micros(d);
    Format6Trimmed(d, []);
    assert Format6(d) + [] == Format6(d);
    ParsePointLiteral(d.negative, NatToString(m / 1000000), FixedDigits(m, 6));
    Format6Digits(m);
  }

  /** A six-decimal rendering followed by a space and a comment is rejected by `float()`:
      the trailing text is not part of a float literal. */
  lemma Format6ThenCommentRejected(d: Dec, rest: string)
    requires |rest| >= 1 && rest[0] == ' ' && !IsNumberSpace(rest[|rest| - 1])
    ensures ParseFloat(Format6(d) + rest).None?
  {
    var m := Micros(d);
    Format6Trimmed(d, rest);
    ParsePointLiteralThenText(d.negative, NatToString(m / 1000000), FixedDigits(m, 6), rest);
  }

  /** Rendering with six decimals loses nothing when the value has at most six. */
  lemma Format6Exact(d: Dec)
    requires d.scale <= 6
    ensures Value(Dec(d.negative, Micros(d), 6)) == Value(d)
  {
    Pow10Add(6 - d.scale, d.scale);
    var k := Pow10(6 - d.scale);
    var p := Pow10(d.scale);
    assert Pow10(6) == k * p;
    assert (d.magnitude * k) as real / (k * p) as real == d.magnitude as real / p as real;
  }
}
