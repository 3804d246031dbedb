/** The value extractor, `SpeedChangeByLayer.getValue(line, key, default)`: the number
    written right after the first occurrence of a marker on one G-code line, honouring
    `;` comments except for the two markers that are themselves comments. The three
    regular expressions of the script are written out as anchored scanners. */
module Extract {
  import opened Wrappers
  import opened Text
  import opened Numbers

  /** The layer-boundary marker Cura writes at the start of every layer. */
  const LayerKey := ";LAYER:"

  /** The prefix of this script's own instance annotation. */
  const InstanceKey := ";SpeedChangeByLayer"

  /** The text right after the first occurrence of `key`, or `None` when `getValue` gives
      up before looking at it: the key is missing, or the key is an ordinary one and its
      first occurrence comes after the first `;` of the line. */
  function ValueText(line: string, key: string): (r: Option<string>) {
    match IndexOf(line, key)
    case None => None
    case Some(k) =>
      if Contains(line, ";") && k > IndexOf(line, ";").value
         && !Contains(key, InstanceKey) && !Contains(key, LayerKey)
      then None
      else Some(line[k + |key|..])
  }

  /** The longest run of ASCII digits at the start of `s`: the regex `[0-9]*`. */
  function LeadingDigits(s: string): (r: string)
    ensures |r| <= |s| && r == s[..|r|] && AllDigits(r)
    ensures |r| < |s| ==> !IsDigit(s[|r|])
    decreases |s|
  {
    if |s| > 0 && IsDigit(s[0]) then [s[0]] + LeadingDigits(s[1..]) else []
  }

  /** `re.search("^[0-4]", sub)` and `float()` of the match. */
  function MatchInstanceDigit(sub: string): (r: Option<real>) {
    if |sub| > 0 && '0' <= sub[0] <= '4' then Some(DigitValue(sub[0]) as real) else None
  }

  /** `re.search("^[+-]?[0-9]*", sub)` and `float()` of the match; the match always
      succeeds, but `float()` raises when it holds no digit. */
  function MatchLayer(sub: string): (r: Option<int>) {
    var sign := SplitSign(sub);
    var ds := LeadingDigits(sign.1);
    if ds == [] then None else Some(Signed(sign.0, DigitsValue(ds)))
  }

  /** The digits of a literal split at its decimal point. */
  datatype Literal = Literal(intDigits: string, fracDigits: string)

  /** The fractional digits `\.?[0-9]*` contributes at the start of `after`: none unless
      it starts with a point. */
  function PointDigits(after: string): (r: string)
    ensures AllDigits(r)
  {
    if |after| > 0 && after[0] == '.' then LeadingDigits(after[1..]) else []
  }

  /** The unsigned part `[0-9]*\.?[0-9]*` of the decimal pattern. */
  function ScanDecimal(body: string): (r: Literal)
    ensures AllDigits(r.intDigits) && AllDigits(r.fracDigits)
  {
    var ip := LeadingDigits(body);
    Literal(ip, PointDigits(body[|ip|..]))
  }

  /** The optional leading minus of the decimal pattern. */
  predicate MinusSign(sub: string) {
    |sub| > 0 && sub[0] == '-'
  }

  /** `sub` without its leading minus. */
  function Unsigned(sub: string): (r: string) {
    if MinusSign(sub) then sub[1..] else sub
  }

  /** `float()` of the matched literal, which raises unless it holds at least one digit. */
  function LiteralValue(negative: bool, lit: Literal): (r: Option<Dec>)
    requires AllDigits(lit.intDigits) && AllDigits(lit.fracDigits)
  {
    AllDigitsAppend(lit.intDigits, lit.fracDigits);
    if lit.intDigits == [] && lit.fracDigits == [] then None
    else Some(Dec(negative, DigitsValue(lit.intDigits + lit.fracDigits), |lit.fracDigits|))
  }

  /** `re.search("^[-]?[0-9]*\.?[0-9]*", sub)` and `float()` of the match. */
  function MatchDecimal(sub: string): (r: Option<Dec>) {
    LiteralValue(MinusSign(sub), ScanDecimal(Unsigned(sub)))
  }

  /** `getValue(line, key, default)`. */
  function GetValue(line: string, key: string, default: real): (r: real)
    ensures !Contains(line, key) ==> r == default
    ensures (&& Contains(line, key) && Contains(line, ";")
             && IndexOf(line, ";").value < IndexOf(line, key).value
             && !Contains(key, InstanceKey) && !Contains(key, LayerKey)) ==> r == default
  {
    match ValueText(line, key)
    case None => default
    case Some(sub) =>
      if Contains(key, InstanceKey) then MatchInstanceDigit(sub).GetOr(default)
      else if Contains(key, LayerKey) then
        (match MatchLayer(sub) case Some(n) => n as real case None => default)
      else
        (match MatchDecimal(sub) case Some(d) => Value(d) case None => default)
  }

  /** The layer number a `;LAYER:` line announces, if `getValue` can read one. */
  function LayerOf(line: string): (r: Option<int>) {
    match ValueText(line, LayerKey)
    case None => None
    case Some(sub) => MatchLayer(sub)
  }

  /** `getValue(line, ";LAYER:", default)` for a layer number `default`. */
  function LayerValue(line: string, default: int): (r: int) {
    LayerOf(line).GetOr(default)
  }

  /** The specialised layer reading agrees with the general extractor, and leaves the
      layer alone on a line without a marker. */
  lemma LayerValueAgrees(line: string, default: int)
    ensures LayerValue(line, default) as real == GetValue(line, LayerKey, default as real)
    ensures !Contains(line, LayerKey) ==> LayerValue(line, default) == default
  {
    LongerNotContained(LayerKey, InstanceKey);
    PrefixFound(LayerKey, LayerKey);
  }

  lemma LeadingDigitsOf(ds: string, rest: string)
    requires AllDigits(ds)
    requires rest == [] || !IsDigit(rest[0])
    ensures LeadingDigits(ds + rest) == ds
    decreases |ds|
  {
    if |ds| > 0 {
      assert (ds + rest)[1..] == ds[1..] + rest;
      LeadingDigitsOf(ds[1..], rest);
      assert [ds[0]] + ds[1..] == ds;
    } else {
      assert ds + rest == rest;
    }
  }

  /** A layer marker written as `;LAYER:` and the layer number is read back as that number,
      whatever text without a `;` comes before it and whatever non-digit text follows it. */
  lemma LayerMarkerRoundTrip(pre: string, n: int, rest: string)
    requires ';' !in pre
    requires rest == [] || !IsDigit(rest[0])
    ensures LayerOf(pre + LayerKey + IntToString(n) + rest) == Some(n)
    ensures GetValue(pre + LayerKey + IntToString(n) + rest, LayerKey, 0.0) == n as real
  {
    var line := pre + LayerKey + IntToString(n) + rest;
    assert line == pre + LayerKey + (IntToString(n) + rest);
    LayerKeyFirstAfter(pre);
    ValueTextAfter(pre, LayerKey, IntToString(n) + rest);
    LayerDigitsMatched(n, rest);
    LayerValueAgrees(line, 0);
  }

  /** The layer pattern reads a rendered integer back, however the text continues after
      its digits. */
  lemma LayerDigitsMatched(n: int, rest: string)
    requires rest == [] || !IsDigit(rest[0])
    ensures MatchLayer(IntToString(n) + rest) == Some(n)
  {
    var digits := NatToString(if n < 0 then -n else n);
    assert IntToString(n) + rest == SignText(n < 0) + (digits + rest);
    assert (digits + rest)[0] == digits[0];
    SplitSignOf(n < 0, digits + rest);
    LeadingDigitsOf(digits, rest);
  }

  /** The decimal scanner reads a signed `digits.digits` literal up to the first
      character that is not a digit. */
  lemma PointDigitsOf(fp: string, rest: string)
    requires AllDigits(fp)
    requires rest == [] || !IsDigit(rest[0])
    ensures PointDigits(['.'] + (fp + rest)) == fp
  {
    assert (['.'] + (fp + rest))[1..] == fp + rest;
    LeadingDigitsOf(fp, rest);
  }

  lemma ScanDecimalOf(ip: string, fp: string, rest: string)
    requires AllDigits(ip) && AllDigits(fp)
    requires rest == [] || !IsDigit(rest[0])
    ensures ScanDecimal(ip + (['.'] + (fp + rest))) == Literal(ip, fp)
  {
    var point := ['.'] + (fp + rest);
    LeadingDigitsOf(ip, point);
    assert (ip + point)[|ip|..] == point;
    PointDigitsOf(fp, rest);
  }

  /** A sign written before a literal that does not start with a minus itself is
      recognised as exactly that sign. */
  lemma SignedBody(negative: bool, body: string)
    requires |body| > 0 && body[0] != '-'
    ensures MinusSign(SignText(negative) + body) == negative
    ensures Unsigned(SignText(negative) + body) == body
  {
    var sub := SignText(negative) + body;
    if negative {
      assert sub[0] == '-' && sub[1..] == body;
    } else {
      assert sub == body;
    }
  }

  lemma MatchDecimalOf(negative: bool, ip: string, fp: string, rest: string)
    requires |ip| + |fp| >= 1 && AllDigits(ip) && AllDigits(fp)
    requires rest == [] || !IsDigit(rest[0])
    ensures AllDigits(ip + fp)
    ensures MatchDecimal(SignText(negative) + ip + "." + fp + rest)
            == Some(Dec(negative, DigitsValue(ip + fp), |fp|))
  {
    AllDigitsAppend(ip, fp);
    var body := ip + (['.'] + (fp + rest));
    var sub := SignText(negative) + body;
    calc {
      SignText(negative) + ip + "." + fp + rest;
      { Rebracket(SignText(negative) + ip, ".", fp, rest); }
      SignText(negative) + ip + ("." + (fp + rest));
      { Rebracket(SignText(negative), ip, "." + (fp + rest), []); }
      sub;
    }
    ScanDecimalOf(ip, fp, rest);
    assert body[0] == if |ip| > 0 then ip[0] else '.';
    SignedBody(negative, body);
  }

  /** A key that follows a `;`-free prefix holding no earlier occurrence of it is read
      from just after that occurrence, whether or not the key is a comment marker. */
  lemma ValueTextAfter(pre: string, key: string, sub: string)
    requires |key| > 0 && ';' !in pre && !Contains(pre + key[..|key| - 1], key)
    ensures ValueText(pre + key + sub, key) == Some(sub)
  {
    var line := pre + key + sub;
    FoundAfter(pre, key, sub);
    IndexOfFirst(line, ";");
    forall j | 0 <= j < |pre| ensures line[j] != ';' {
      assert line[j] == pre[j];
    }
    if Contains(line, ";") {
      var c := IndexOf(line, ";").value;
      assert line[c..c + 1][0] == line[c];
    }
    assert line[|pre| + |key|..] == sub;
  }

  /** Before a `;`-free prefix the layer key has no earlier occurrence. */
  lemma LayerKeyFirstAfter(pre: string)
    requires ';' !in pre
    ensures !Contains(pre + LayerKey[..|LayerKey| - 1], LayerKey)
  {
    var t := pre + LayerKey[..|LayerKey| - 1];
    IndexOfFirst(t, LayerKey);
    forall j ensures !OccursAt(t, LayerKey, j) {
      if 0 <= j && j + |LayerKey| <= |t| {
        assert t[j..j + |LayerKey|][0] == t[j] == pre[j];
      }
    }
  }

  /** The decimal pattern reads a six-decimal rendering back as the rounded value,
      however the text continues after it. */
  lemma Format6Matched(d: Dec, rest: string)
    requires rest == [] || !IsDigit(rest[0])
    ensures MatchDecimal(Format6(d) + rest) == Some(Dec(d.negative, Micros(d), 6))
  {
    var m := Micros(d);
    var ip := NatToString(m / 1000000);
    var fp := FixedDigits(m, 6);
    assert Format6(d) + rest == SignText(d.negative) + ip + "." + fp + rest;
    MatchDecimalOf(d.negative, ip, fp, rest);
    Format6Digits(m);
  }

  /** A number rendered with six decimals right after an ordinary key is read back as the
      rendered value, whatever `;`-free text without the key comes before the key and
      however the line continues after the number. */
  lemma DecimalRoundTrip(pre: string, key: string, d: Dec, rest: string, default: real)
    requires |key| > 0 && !Contains(key, InstanceKey) && !Contains(key, LayerKey)
    requires ';' !in pre && !Contains(pre + key[..|key| - 1], key)
    requires rest == [] || !IsDigit(rest[0])
    ensures GetValue(pre + key + Format6(d) + rest, key, default) == Value(Dec(d.negative, Micros(d), 6))
  {
    var sub := Format6(d) + rest;
    assert pre + key + Format6(d) + rest == pre + key + sub;
    ValueTextAfter(pre, key, sub);
    Format6Matched(d, rest);
  }

  /** After an ordinary key, a literal with a decimal point, an optional minus in front and
      at least one digit on either side of the point, is read as its digits over the power
      of ten its fraction digits make, however the line continues after the last digit:
      `S5.`, `S.5`, `S-0.25` and a six-decimal rendering alike. */
  lemma PointLiteralRead(pre: string, key: string, negative: bool, ip: string, fp: string, rest: string,
                         default: real)
    requires |key| > 0 && !Contains(key, InstanceKey) && !Contains(key, LayerKey)
    requires ';' !in pre && !Contains(pre + key[..|key| - 1], key)
    requires AllDigits(ip) && AllDigits(fp) && |ip| + |fp| >= 1
    requires rest == [] || !IsDigit(rest[0])
    ensures AllDigits(ip + fp)
    ensures GetValue(pre + key + (SignText(negative) + ip + "." + fp + rest), key, default)
            == Value(Dec(negative, DigitsValue(ip + fp), |fp|))
  {
    MatchDecimalOf(negative, ip, fp, rest);
    OrdinaryRead(pre, key, SignText(negative) + ip + "." + fp + rest, default);
  }

  /** After an ordinary key, a run of digits with an optional minus in front and no point
      after it is read as that integer: `S255` and `S-3`. */
  lemma IntegerLiteralRead(pre: string, key: string, negative: bool, ip: string, rest: string, default: real)
    requires |key| > 0 && !Contains(key, InstanceKey) && !Contains(key, LayerKey)
    requires ';' !in pre && !Contains(pre + key[..|key| - 1], key)
    requires |ip| >= 1 && AllDigits(ip)
    requires rest == [] || (!IsDigit(rest[0]) && rest[0] != '.')
    ensures GetValue(pre + key + (SignText(negative) + ip + rest), key, default)
            == Signed(negative, DigitsValue(ip)) as real
  {
    IntegerMatched(negative, ip, rest);
    OrdinaryRead(pre, key, SignText(negative) + ip + rest, default);
    IntegerValue(negative, DigitsValue(ip));
  }

  /** An ordinary key read from just after its first occurrence gives what the decimal
      pattern matches there. */
  lemma OrdinaryRead(pre: string, key: string, sub: string, default: real)
    requires |key| > 0 && !Contains(key, InstanceKey) && !Contains(key, LayerKey)
    requires ';' !in pre && !Contains(pre + key[..|key| - 1], key)
    requires MatchDecimal(sub).Some?
    ensures GetValue(pre + key + sub, key, default) == Value(MatchDecimal(sub).value)
  {
    ValueTextAfter(pre, key, sub);
  }

  lemma IntegerMatched(negative: bool, ip: string, rest: string)
    requires |ip| >= 1 && AllDigits(ip)
    requires rest == [] || (!IsDigit(rest[0]) && rest[0] != '.')
    ensures MatchDecimal(SignText(negative) + ip + rest) == Some(Dec(negative, DigitsValue(ip), 0))
  {
    SignedInteger(negative, ip, rest);
    ScanDecimalInteger(ip, rest);
    IntegerLiteral(negative, ip);
  }

  lemma SignedInteger(negative: bool, ip: string, rest: string)
    requires |ip| >= 1 && AllDigits(ip)
    ensures MinusSign(SignText(negative) + ip + rest) == negative
    ensures Unsigned(SignText(negative) + ip + rest) == ip + rest
  {
    var body := ip + rest;
    assert SignText(negative) + ip + rest == SignText(negative) + body;
    assert body[0] == ip[0];
    SignedBody(negative, body);
  }

  lemma IntegerLiteral(negative: bool, ip: string)
    requires AllDigits(ip) && |ip| >= 1
    ensures LiteralValue(negative, Literal(ip, [])) == Some(Dec(negative, DigitsValue(ip), 0))
  {
    assert ip + [] == ip;
  }

  lemma ScanDecimalInteger(ip: string, rest: string)
    requires AllDigits(ip)
    requires rest == [] || (!IsDigit(rest[0]) && rest[0] != '.')
    ensures ScanDecimal(ip + rest) == Literal(ip, [])
  {
    LeadingDigitsOf(ip, rest);
    assert (ip + rest)[|ip|..] == rest;
  }

  /** A decimal with no fraction digits stands for the signed integer. */
  lemma IntegerValue(negative: bool, n: nat)
    ensures Value(Dec(negative, n, 0)) == Signed(negative, n) as real
  {
    assert Pow10(0) == 1;
  }

  /** What `getValue` reads once the key is found, `sub` being the text after its first
      occurrence. For the instance key: the digit 0 to 4 starting `sub`, comment or not,
      and the default when anything else starts it. For the layer key: the signed run of
      digits starting `sub`, comment or not, and the default when no digit follows the
      optional sign. For an ordinary key: the default when `sub` holds no digit where the
      pattern `-?[0-9]*\.?[0-9]*` looks for one, neither right after the optional minus
      nor right after a point there. */
  lemma GetValueCases(line: string, key: string, default: real)
    requires Contains(line, key)
    ensures var sub := line[IndexOf(line, key).value + |key|..];
            Contains(key, InstanceKey) ==>
              GetValue(line, key, default)
              == if |sub| > 0 && '0' <= sub[0] <= '4' then DigitValue(sub[0]) as real else default
    ensures var sub := line[IndexOf(line, key).value + |key|..];
            var signed := |sub| > 0 && (sub[0] == '+' || sub[0] == '-');
            var body := if signed then sub[1..] else sub;
            (Contains(key, LayerKey) && !Contains(key, InstanceKey)) ==>
              GetValue(line, key, default)
              == if body == [] || !IsDigit(body[0]) then default
                 else Signed(signed && sub[0] == '-', DigitsValue(LeadingDigits(body))) as real
    ensures var sub := line[IndexOf(line, key).value + |key|..];
            var body := if |sub| > 0 && sub[0] == '-' then sub[1..] else sub;
            (&& !Contains(key, InstanceKey) && !Contains(key, LayerKey)
             && (body == [] || !IsDigit(body[0]))
             && !(|body| >= 2 && body[0] == '.' && IsDigit(body[1])))
            ==> GetValue(line, key, default) == default
  {
    var sub := line[IndexOf(line, key).value + |key|..];
    var body := Unsigned(sub);
    if (body == [] || !IsDigit(body[0])) && !(|body| >= 2 && body[0] == '.' && IsDigit(body[1])) {
      assert LeadingDigits(body) == [];
      assert body[|LeadingDigits(body)|..] == body;
      if |body| > 0 && body[0] == '.' {
        assert LeadingDigits(body[1..]) == [];
      }
      assert ScanDecimal(body) == Literal([], []);
    }
  }
}
