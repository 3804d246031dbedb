/** Three fan lines on which the corrected reading and `float(line[6:])` part ways:
    `float()` takes an exponent, white space in front of the number and `_` between
    digits, where the pattern `-?[0-9]*\.?[0-9]*` stops at or before them. */
module ReadingsDiffer {
  import opened Wrappers
  import opened Text
  import opened Numbers
  import opened Extract
  import opened CorrectedPreScan

  /** `M106 S1e3` is fan value 1000 to `float()` and 1 to `getValue`; `M106 S 255` is 255
      to `float()` and no reading at all to `getValue`; `M106 S1_000` is 1000 to `float()`
      and 1 to `getValue`. */
  lemma ReadingsDiffer(prior: Dec)
    ensures ParseFloat(Drop(FanKey + "1e3", 6)) == Some(Dec(false, 1000, 0))
    ensures FanReading(FanKey + "1e3", prior) == Dec(false, 1, 0)
    ensures ParseFloat(Drop(FanKey + " 255", 6)) == Some(Dec(false, 255, 0))
    ensures FanReading(FanKey + " 255", prior) == prior
    ensures ParseFloat(Drop(FanKey + "1_000", 6)) == Some(Dec(false, 1000, 0))
    ensures FanReading(FanKey + "1_000", prior) == Dec(false, 1, 0)
  {
    ExponentReading(prior);
    SpaceReading(prior);
    UnderscoreReading(prior);
  }

  lemma ExponentReading(prior: Dec)
    ensures ParseFloat(Drop(FanKey + "1e3", 6)) == Some(Dec(false, 1000, 0))
    ensures FanReading(FanKey + "1e3", prior) == Dec(false, 1, 0)
  {
    var ip, ep := "1", "3";
    assert ip + "e" + ep == "1e3";
    assert DigitsValue(ip) == 1 && DigitsValue(ep) == 3;
    assert Pow10(3) == 1000;
    BothReadings(ip, "e" + ep, prior);
    assert ip + ("e" + ep) == "1e3";
    ExponentLiteral(ip, ep);
  }

  lemma SpaceReading(prior: Dec)
    ensures ParseFloat(Drop(FanKey + " 255", 6)) == Some(Dec(false, 255, 0))
    ensures FanReading(FanKey + " 255", prior) == prior
  {
    var ip := "255";
    assert [' '] + ip == " 255";
    Value255();
    SpaceLiteral(ip, prior);
  }

  lemma UnderscoreReading(prior: Dec)
    ensures ParseFloat(Drop(FanKey + "1_000", 6)) == Some(Dec(false, 1000, 0))
    ensures FanReading(FanKey + "1_000", prior) == Dec(false, 1, 0)
  {
    UnderscoreSpelling();
    Value1000();
    BothReadings("1", "_000", prior);
    UnderscoreLiteral('1', "000");
  }

  lemma UnderscoreSpelling()
    ensures "1" + "_000" == ['1'] + ("_" + "000") == "1_000"
    ensures ['1'] + "000" == "1000"
    ensures DigitsValue("1") == 1
    ensures AllDigits("1") && AllDigits("000")
  {
  }

  lemma Value255()
    ensures DigitsValue("255") == 255
  {
    assert "255"[..2] == "25";
    assert "25"[..1] == "2";
    assert DigitsValue("2") == 2;
    assert DigitsValue("25") == 25;
  }

  lemma Value1000()
    ensures DigitsValue("1000") == 1000
  {
    assert "1000"[..3] == "100";
    assert "100"[..2] == "10";
    assert "10"[..1] == "1";
    assert DigitsValue("1") == 1;
    assert DigitsValue("10") == 10;
    assert DigitsValue("100") == 100;
  }

  /** After the fan key, the pattern reads digits `ip` and stops at `rest`, and `float()`
      reads the text after the key. */
  lemma BothReadings(ip: string, rest: string, prior: Dec)
    requires |ip| >= 1 && AllDigits(ip)
    requires |rest| >= 1 && !IsDigit(rest[0]) && rest[0] != '.'
    ensures FanReading(FanKey + (ip + rest), prior) == Dec(false, DigitsValue(ip), 0)
    ensures Drop(FanKey + (ip + rest), 6) == ip + rest
  {
    FanValueText(ip + rest);
    IntegerMatched(false, ip, rest);
    NoSignText(ip);
  }

  lemma NoSignText(t: string)
    ensures SignText(false) + t == t
  {
    assert SignText(false) == [];
  }

  /** `float()` reads `ip` followed by `e` and a run of digits as `ip` times that power of
      ten. */
  lemma ExponentLiteral(ip: string, ep: string)
    requires |ip| >= 1 && AllDigits(ip) && |ep| >= 1 && AllDigits(ep)
    ensures ParseFloat(ip + "e" + ep) == Some(Dec(false, DigitsValue(ip) * Pow10(DigitsValue(ep)), 0))
  {
    TrimmedAlready(ip + "e" + ep);
    ExponentStripped(ip, ep);
  }

  lemma ExponentStripped(ip: string, ep: string)
    requires |ip| >= 1 && AllDigits(ip) && |ep| >= 1 && AllDigits(ep)
    ensures ParseFloatStripped(ip + "e" + ep) == Some(Dec(false, DigitsValue(ip) * Pow10(DigitsValue(ep)), 0))
  {
    ExponentMantissa(ip, ep);
    ExponentDigits(ep);
    ScaledInteger(ip, DigitsValue(ep));
  }

  /** Digits with no fraction part scaled up by `10^e`. */
  lemma ScaledInteger(ip: string, e: nat)
    requires AllDigits(ip)
    ensures AllDigits(ip + [])
    ensures Scaled(false, ip + [], 0, e) == Dec(false, DigitsValue(ip) * Pow10(e), 0)
  {
    assert ip + [] == ip;
  }

  lemma ExponentMantissa(ip: string, ep: string)
    requires |ip| >= 1 && AllDigits(ip)
    ensures SplitSign(ip + "e" + ep) == (false, ip + "e" + ep)
    ensures ScanMantissa(ip + "e" + ep) == Mantissa(ip, [], "e" + ep)
  {
    assert ip + "e" + ep == ip + ("e" + ep);
    DigitRunOfDigits(ip, "e" + ep);
  }

  lemma ExponentDigits(ep: string)
    requires |ep| >= 1 && AllDigits(ep)
    ensures ExponentPart("e" + ep) == Some(DigitsValue(ep))
  {
    assert ("e" + ep)[1..] == ep;
    assert SplitSign(ep) == (false, ep);
    DigitRunOfDigits(ep, []);
    assert ep + [] == ep;
  }

  /** With a space between the fan key and the digits, `float()` still reads the digits,
      but the pattern reads nothing. */
  lemma SpaceLiteral(ip: string, prior: Dec)
    requires |ip| >= 1 && AllDigits(ip)
    ensures ParseFloat(Drop(FanKey + ([' '] + ip), 6)) == Some(Dec(false, DigitsValue(ip), 0))
    ensures FanReading(FanKey + ([' '] + ip), prior) == prior
  {
    FanValueText([' '] + ip);
    SpaceFloat(ip);
    SpacePattern(ip);
  }

  lemma SpaceFloat(ip: string)
    requires |ip| >= 1 && AllDigits(ip)
    ensures ParseFloat([' '] + ip) == Some(Dec(false, DigitsValue(ip), 0))
  {
    SpaceTrimmed(ip);
    ParseIntegerLiteral(false, ip);
    NoSignText(ip);
  }

  lemma SpaceTrimmed(ip: string)
    requires |ip| >= 1 && AllDigits(ip)
    ensures Trim([' '] + ip) == ip
  {
    assert NumberBlank([' ']);
    TrimAround([' '], ip, []);
    assert [' '] + ip + [] == [' '] + ip;
  }

  lemma SpacePattern(ip: string)
    ensures MatchDecimal([' '] + ip).None?
  {
    var t := [' '] + ip;
    assert !MinusSign(t);
    assert t[0] == ' ';
    assert LeadingDigits(t) == [];
    assert ScanDecimal(t) == Literal([], []);
  }

  /** `float()` reads a digit, `_` and a run of digits as the digits without the `_`. */
  lemma UnderscoreLiteral(d: char, ds: string)
    requires IsDigit(d) && |ds| >= 1 && AllDigits(ds)
    ensures AllDigits([d] + ds)
    ensures ParseFloat([d] + ("_" + ds)) == Some(Dec(false, DigitsValue([d] + ds), 0))
  {
    AllDigitsAppend([d], ds);
    UnderscoreTrimmed(d, ds);
    UnderscoreRun(d, ds);
    WholeRun([d] + ("_" + ds), [d] + ds);
  }

  lemma UnderscoreTrimmed(d: char, ds: string)
    requires IsDigit(d) && |ds| >= 1 && AllDigits(ds)
    ensures Trim([d] + ("_" + ds)) == [d] + ("_" + ds)
  {
    var t := [d] + ("_" + ds);
    assert t[0] == d;
    assert t[|t| - 1] == ds[|ds| - 1];
    TrimmedAlready(t);
  }

  /** A text that starts with a digit and is one digit run throughout is read by `float()`
      as the run's digits. */
  lemma WholeRun(t: string, ds: string)
    requires |t| >= 1 && IsDigit(t[0])
    requires |ds| >= 1 && AllDigits(ds) && DigitRun(t) == Run(ds, [])
    ensures ParseFloatStripped(t) == Some(Dec(false, DigitsValue(ds), 0))
  {
    UnsignedText(t);
    RunMantissa(t, ds);
    ScaledInteger(ds, 0);
  }

  lemma UnsignedText(t: string)
    requires |t| >= 1 && IsDigit(t[0])
    ensures SplitSign(t) == (false, t)
  {
  }

  lemma RunMantissa(t: string, ds: string)
    requires DigitRun(t) == Run(ds, [])
    ensures ScanMantissa(t) == Mantissa(ds, [], [])
  {
  }

  lemma UnderscoreRun(d: char, ds: string)
    requires IsDigit(d) && |ds| >= 1 && AllDigits(ds)
    ensures DigitRun([d] + ("_" + ds)) == Run([d] + ds, [])
  {
    var t := [d] + ("_" + ds);
    assert t[1..] == "_" + ds;
    assert ("_" + ds)[1..] == ds;
    DigitRunOfDigits(ds, []);
    assert ds + [] == ds;
  }
}
