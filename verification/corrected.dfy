/** A corrected fan pre-scan. `execute` reads the fan value of an `M106` line with
    `float(line[6:])`, which raises on the comment the script's own override lines carry,
    so a second instance starting at the layer a first one changed stops with an error.
    Here the value is read the way `getValue(line, "M106 S", old)` reads it, and the
    outer loop built on it never stops. */
module CorrectedPreScan {
  import opened Wrappers
  import opened Text
  import opened Numbers
  import opened Extract
  import opened Gcode
  import opened Rewriter
  import opened Placement
  import opened FanRestore
  import opened Properties

  /** The key a fan line's value follows. */
  const FanKey := "M106 S"

  /** The fan value a line sets, exact, as `getValue(line, "M106 S", prior)` reads it:
      `prior` when the line has no readable value. */
  function FanReading(line: string, prior: Dec): (r: Dec)
    ensures Value(r) == GetValue(line, FanKey, Value(prior))
    ensures !Contains(line, FanKey) ==> r == prior
  {
    LongerNotContained(FanKey, InstanceKey);
    LongerNotContained(FanKey, LayerKey);
    match ValueText(line, FanKey)
    case None => prior
    case Some(sub) => MatchDecimal(sub).GetOr(prior)
  }

  /** The pre-scan with the corrected reading: the same layer counter and the same lines
      read, but no line can stop it. */
  function PreScanFixed(target: int, f: FanScan, lines: seq<string>): (r: FanScan)
    decreases |lines|
  {
    if |lines| == 0 then f
    else
      var line := lines[0];
      var layer := LayerValue(line, f.layer);
      if Contains(line, "M106") && layer == target then
        PreScanFixed(target, FanScan(layer, FanReading(line, f.saved)), lines[1..])
      else PreScanFixed(target, FanScan(layer, f.saved), lines[1..])
  }

  /** The value left after reading the lines `cs` one by one with the corrected reading. */
  function ReadThrough(initial: Dec, cs: seq<string>): (r: Dec)
    decreases |cs|
  {
    if |cs| == 0 then initial else ReadThrough(FanReading(cs[0], initial), cs[1..])
  }

  /** The corrected pre-scan reads exactly the lines the original one reads, ends at the
      same layer, and keeps what reading those lines in order leaves. */
  lemma {:induction false} PreScanFixedMeaning(target: int, f: FanScan, lines: seq<string>)
    ensures PreScanFixed(target, f, lines).layer == FanLayerAfter(f.layer, lines)
    ensures PreScanFixed(target, f, lines).saved == ReadThrough(f.saved, Captures(target, f.layer, lines))
    decreases |lines|
  {
    if |lines| > 0 {
      var line := lines[0];
      var l := LayerValue(line, f.layer);
      var rest := Captures(target, l, lines[1..]);
      if Contains(line, "M106") && l == target {
        assert Captures(target, f.layer, lines) == [line] + rest;
        assert ([line] + rest)[1..] == rest;
        PreScanFixedMeaning(target, FanScan(l, FanReading(line, f.saved)), lines[1..]);
      } else {
        assert Captures(target, f.layer, lines) == rest;
        PreScanFixedMeaning(target, FanScan(l, f.saved), lines[1..]);
      }
    }
  }

  /** `float(line[6:])` succeeds on the line and gives what the corrected reading gives. */
  predicate ReadsAlike(line: string) {
    && ParseFloat(Drop(line, 6)).Some?
    && ValueText(line, FanKey).Some?
    && MatchDecimal(ValueText(line, FanKey).value) == ParseFloat(Drop(line, 6))
  }

  /** A fan line `M106 S` followed by a signed run of digits, `M106 S255` for one, reads
      alike. */
  lemma IntegerReadsAlike(negative: bool, ip: string)
    requires |ip| >= 1 && AllDigits(ip)
    ensures ReadsAlike(FanKey + (SignText(negative) + ip))
  {
    var t := SignText(negative) + ip;
    FanValueText(t);
    NumberTrimmed(negative, ip, []);
    assert t + [] == t;
    ParseIntegerLiteral(negative, ip);
    IntegerMatched(negative, ip, []);
  }

  /** A fan line `M106 S` followed by a signed literal with digits on both sides of its
      point, `M106 S127.5` for one, reads alike. */
  lemma PointReadsAlike(negative: bool, ip: string, fp: string)
    requires |ip| >= 1 && AllDigits(ip) && |fp| >= 1 && AllDigits(fp)
    ensures ReadsAlike(FanKey + (SignText(negative) + ip + "." + fp))
  {
    var t := SignText(negative) + ip + "." + fp;
    FanValueText(t);
    NumberTrimmed(negative, ip, "." + fp);
    assert t == SignText(negative) + ip + ("." + fp);
    ParsePointLiteral(negative, ip, fp);
    MatchDecimalOf(negative, ip, fp, []);
    assert t + [] == t;
  }

  /** Bare fan lines `M106 S<str(n)>` and `M106 S<'%f' % d>`, with nothing after the
      number, as a slicer writes them, read alike. The script's own override and restore
      lines carry a comment after the number and do not. */
  lemma RenderedReadsAlike(n: int, d: Dec)
    ensures ReadsAlike(FanKey + IntToString(n))
    ensures ReadsAlike(FanKey + Format6(d))
  {
    IntegerReadsAlike(n < 0, NatToString(if n < 0 then -n else n));
    var m := Micros(d);
    PointReadsAlike(d.negative, NatToString(m / 1000000), FixedDigits(m, 6));
  }

  /** On a line that starts with the fan key, `line[6:]` and the text `getValue` reads
      after the key are the same. */
  lemma FanValueText(t: string)
    ensures Drop(FanKey + t, 6) == t
    ensures ValueText(FanKey + t, FanKey) == Some(t)
  {
    assert (FanKey + t)[6..] == t;
    LongerNotContained(FanKey[..5], FanKey);
    assert [] + FanKey == FanKey;
    ValueTextAfter([], FanKey, t);
  }

  /** A signed number starting with a digit and ending with one is its own trimmed text. */
  lemma NumberTrimmed(negative: bool, ip: string, tail: string)
    requires |ip| >= 1 && AllDigits(ip)
    requires tail == [] || IsDigit(tail[|tail| - 1])
    ensures Trim(SignText(negative) + ip + tail) == SignText(negative) + ip + tail
  {
    NumberFirst(negative, ip, tail);
    NumberLast(negative, ip, tail);
    TrimmedAlready(SignText(negative) + ip + tail);
  }

  lemma NumberFirst(negative: bool, ip: string, tail: string)
    requires |ip| >= 1 && AllDigits(ip)
    ensures |SignText(negative) + ip + tail| >= 1
    ensures !IsNumberSpace((SignText(negative) + ip + tail)[0])
  {
    assert (SignText(negative) + ip + tail)[0] == if negative then '-' else ip[0];
  }

  lemma NumberLast(negative: bool, ip: string, tail: string)
    requires |ip| >= 1 && AllDigits(ip)
    requires tail == [] || IsDigit(tail[|tail| - 1])
    ensures |SignText(negative) + ip + tail| >= 1
    ensures IsDigit((SignText(negative) + ip + tail)[|SignText(negative) + ip + tail| - 1])
  {
    var t := SignText(negative) + ip + tail;
    assert t[|t| - 1] == if tail == [] then ip[|ip| - 1] else tail[|tail| - 1];
  }

  /** Wherever every line the original pre-scan reads reads alike, the original pre-scan
      succeeds and agrees with the corrected one. */
  lemma {:induction false} PreScanFixedAgrees(target: int, f: FanScan, lines: seq<string>)
    requires forall i :: 0 <= i < |Captures(target, f.layer, lines)| ==> ReadsAlike(Captures(target, f.layer, lines)[i])
    ensures PreScanFan(target, f, lines) == Success(PreScanFixed(target, f, lines))
    decreases |lines|
  {
    if |lines| > 0 {
      var line := lines[0];
      var l := LayerValue(line, f.layer);
      if Contains(line, "M106") && l == target {
        var v := FanReading(line, f.saved);
        CapturedFirst(ReadsAlike, target, f.layer, lines);
        AlikeReading(line, f.saved);
        PreScanFixedAgrees(target, FanScan(l, v), lines[1..]);
        ReadStep(target, f, lines, v);
      } else {
        assert Captures(target, f.layer, lines) == Captures(target, l, lines[1..]);
        PreScanFixedAgrees(target, FanScan(l, f.saved), lines[1..]);
      }
    }
  }

  /** A line read alike gives the same value both ways. */
  lemma AlikeReading(line: string, prior: Dec)
    requires ReadsAlike(line)
    ensures ParseFloat(Drop(line, 6)) == Some(FanReading(line, prior))
  {
  }

  /** When the first line is read, it leads the captured lines, and what all of them
      satisfy the rest satisfy too. */
  lemma CapturedFirst(p: string -> bool, target: int, layer: int, lines: seq<string>)
    requires |lines| > 0 && Contains(lines[0], "M106") && LayerValue(lines[0], layer) == target
    requires forall i :: 0 <= i < |Captures(target, layer, lines)| ==> p(Captures(target, layer, lines)[i])
    ensures p(lines[0])
    ensures forall i :: 0 <= i < |Captures(target, target, lines[1..])| ==> p(Captures(target, target, lines[1..])[i])
  {
    var rest := Captures(target, target, lines[1..]);
    assert Captures(target, layer, lines) == [lines[0]] + rest;
    assert Captures(target, layer, lines)[0] == lines[0];
    forall i | 0 <= i < |rest| ensures p(rest[i]) {
      assert rest[i] == Captures(target, layer, lines)[i + 1];
    }
  }

  /** Both pre-scans take the same step over a line read alike. */
  lemma ReadStep(target: int, f: FanScan, lines: seq<string>, v: Dec)
    requires |lines| > 0 && Contains(lines[0], "M106") && LayerValue(lines[0], f.layer) == target
    requires ParseFloat(Drop(lines[0], 6)) == Some(v) && FanReading(lines[0], f.saved) == v
    ensures PreScanFan(target, f, lines) == PreScanFan(target, FanScan(target, v), lines[1..])
    ensures PreScanFixed(target, f, lines) == PreScanFixed(target, FanScan(target, v), lines[1..])
  {
  }

  /** One iteration of the outer loop with the corrected pre-scan. */
  function ProcessChunkFixed(cfg: Config, s: ScanState, chunk: string): (r: ChunkOut)
  {
    var old0 := ChunkInitial(s, chunk);
    var f :=
      if Contains(chunk, "M106") then PreScanFixed(cfg.TargetLayer(), FanScan(s.currentFanLayer, old0), Split(chunk))
      else FanScan(s.currentFanLayer, old0);
    var r := RewriteLines(cfg, LineState(s.(currentFanLayer := f.layer, fanOld := f.saved), []), Split(chunk));
    ChunkOut(r.state.scan, r.out)
  }

  /** A chunk without an `M106` line is processed as `execute` processes it. */
  lemma FixedAgreesWithoutFanLine(cfg: Config, s: ScanState, chunk: string)
    requires !Contains(chunk, "M106")
    ensures ProcessChunk(cfg, s, chunk) == Success(ProcessChunkFixed(cfg, s, chunk))
  {
  }

  /** With the corrected pre-scan, a chunk's fan value to restore is what reading the lines
      the original pre-scan reads leaves, and every fan restore it writes uses that value. */
  lemma FixedChunkMeaning(cfg: Config, s: ScanState, chunk: string)
    ensures Contains(chunk, "M106") ==>
              ProcessChunkFixed(cfg, s, chunk).scan.fanOld
              == ReadThrough(ChunkInitial(s, chunk), Captures(cfg.TargetLayer(), s.currentFanLayer, Split(chunk)))
    ensures RestoresFanTo(ProcessChunkFixed(cfg, s, chunk).out, ProcessChunkFixed(cfg, s, chunk).scan.fanOld)
  {
    var f :=
      if Contains(chunk, "M106") then PreScanFixed(cfg.TargetLayer(), FanScan(s.currentFanLayer, ChunkInitial(s, chunk)), Split(chunk))
      else FanScan(s.currentFanLayer, ChunkInitial(s, chunk));
    PreScanFixedMeaning(cfg.TargetLayer(), FanScan(s.currentFanLayer, ChunkInitial(s, chunk)), Split(chunk));
    RewriteRestores(cfg, LineState(s.(currentFanLayer := f.layer, fanOld := f.saved), []), Split(chunk));
  }

  /** The outer loop with the corrected pre-scan, as a step of the generic chunk loop. */
  function FixedStep(cfg: Config): (step: (ScanState, string) -> Result<ChunkOut, Error>) {
    (x: ScanState, chunk: string) => Success(ProcessChunkFixed(cfg, x, chunk))
  }

  /** With the corrected pre-scan, `execute` never stops with an error. */
  lemma {:induction false} FixedRunSucceeds(cfg: Config, s: ScanState, chunks: seq<string>)
    ensures RunChunks(FixedStep(cfg), s, chunks).Success?
    decreases |chunks|
  {
    if |chunks| > 0 {
      FixedRunSucceeds(cfg, ProcessChunkFixed(cfg, s, chunks[0]).scan, chunks[1..]);
    }
  }

  /** `execute(data)` with the corrected pre-scan: every chunk replaced by its rewritten
      text; no chunk stops it. */
  function ExecuteFixed(cfg: Config, data: seq<string>): (r: seq<string>)
    ensures |r| == |data|
  {
    FixedRunSucceeds(cfg, Initial, data);
    var outs := RunChunks(FixedStep(cfg), Initial, data).value;
    seq(|outs|, i requires 0 <= i < |outs| => Render(outs[i]))
  }

  /** Chunk `i` of the corrected result is the corrected step's text for it, from the state
      the chunks before it leave. */
  lemma ExecuteFixedAt(cfg: Config, data: seq<string>, i: int)
    requires 0 <= i < |data|
    ensures ExecuteFixed(cfg, data)[i]
            == Render(ProcessChunkFixed(cfg, StateAt(FixedStep(cfg), Initial, data, i), data[i]).out)
  {
    FixedRunSucceeds(cfg, Initial, data);
    RunAt(FixedStep(cfg), Initial, data, i);
  }

  /** Two chunk steps that agree on every chunk of `chunks` give the same loop. */
  lemma {:induction false} RunChunksAgree(step: (ScanState, string) -> Result<ChunkOut, Error>,
                                          other: (ScanState, string) -> Result<ChunkOut, Error>,
                                          s: ScanState, chunks: seq<string>)
    requires forall x: ScanState, k :: 0 <= k < |chunks| ==> step(x, chunks[k]) == other(x, chunks[k])
    ensures RunChunks(step, s, chunks) == RunChunks(other, s, chunks)
    decreases |chunks|
  {
    if |chunks| > 0 {
      assert step(s, chunks[0]) == other(s, chunks[0]);
      match step(s, chunks[0])
      case Failure(_) =>
      case Success(c) =>
        forall x: ScanState, k | 0 <= k < |chunks[1..]|
          ensures step(x, chunks[1..][k]) == other(x, chunks[1..][k])
        {
          assert chunks[1..][k] == chunks[k + 1];
        }
        RunChunksAgree(step, other, c.scan, chunks[1..]);
    }
  }

  /** Every `M106` line of the chunk reads alike. */
  predicate FanLinesReadAlike(chunk: string) {
    forall j :: 0 <= j < |Split(chunk)| && Contains(Split(chunk)[j], "M106") ==> ReadsAlike(Split(chunk)[j])
  }

  /** The lines the pre-scan reads are `M106` lines of the chunk, so whatever all of
      those satisfy, they satisfy. */
  lemma {:induction false} CapturesSatisfy(p: string -> bool, target: int, layer: int, lines: seq<string>)
    requires forall j :: 0 <= j < |lines| && Contains(lines[j], "M106") ==> p(lines[j])
    ensures forall i :: 0 <= i < |Captures(target, layer, lines)| ==> p(Captures(target, layer, lines)[i])
    decreases |lines|
  {
    if |lines| > 0 {
      var l := LayerValue(lines[0], layer);
      var head := if Contains(lines[0], "M106") && l == target then [lines[0]] else [];
      var rest := Captures(target, l, lines[1..]);
      forall j | 0 <= j < |lines[1..]| && Contains(lines[1..][j], "M106") ensures p(lines[1..][j]) {
        assert lines[1..][j] == lines[j + 1];
      }
      CapturesSatisfy(p, target, l, lines[1..]);
      assert Captures(target, layer, lines) == head + rest;
      forall i | 0 <= i < |head + rest| ensures p((head + rest)[i]) {
        if i < |head| { assert (head + rest)[i] == lines[0]; }
        else { assert (head + rest)[i] == rest[i - |head|]; }
      }
    }
  }

  /** A chunk whose `M106` lines all read alike is processed as `execute` processes it. */
  lemma FixedAgreesReadingAlike(cfg: Config, s: ScanState, chunk: string)
    requires FanLinesReadAlike(chunk)
    ensures ProcessChunk(cfg, s, chunk) == Success(ProcessChunkFixed(cfg, s, chunk))
  {
    if Contains(chunk, "M106") {
      var f := FanScan(s.currentFanLayer, ChunkInitial(s, chunk));
      CapturesSatisfy(ReadsAlike, cfg.TargetLayer(), f.layer, Split(chunk));
      PreScanFixedAgrees(cfg.TargetLayer(), f, Split(chunk));
    } else {
      FixedAgreesWithoutFanLine(cfg, s, chunk);
    }
  }

  /** On a file whose `M106` lines all read alike, plain `M106 S<number>` lines or none at
      all, the corrected `execute` gives what `execute` gives. */
  lemma ExecuteFixedAgrees(cfg: Config, data: seq<string>)
    requires forall k :: 0 <= k < |data| ==> FanLinesReadAlike(data[k])
    ensures Execute(cfg, data) == Success(ExecuteFixed(cfg, data))
  {
    forall x: ScanState, k | 0 <= k < |data|
      ensures ChunkStep(cfg)(x, data[k]) == FixedStep(cfg)(x, data[k])
    {
      FixedAgreesReadingAlike(cfg, x, data[k]);
    }
    RunChunksAgree(ChunkStep(cfg), FixedStep(cfg), Initial, data);
    FixedRunSucceeds(cfg, Initial, data);
    var outs := RunChunks(FixedStep(cfg), Initial, data).value;
    assert ExecuteTokens(cfg, Initial, data) == Success(outs);
    assert ExecuteFixed(cfg, data) == seq(|outs|, i requires 0 <= i < |outs| => Render(outs[i]));
  }

  // ---------------------------------------------------------------------------------
  // Steps of the corrected pre-scan over the chunk a first instance wrote.

  lemma FixedMarkerStep(target: int, f: FanScan, lines: seq<string>)
    requires |lines| >= 1 && lines[0] == MarkerLine(target)
    ensures PreScanFixed(target, f, lines) == PreScanFixed(target, FanScan(target, f.saved), lines[1..])
  {
    MarkerLineFacts(target, f.layer);
    MarkerAvoids(target, 'M');
    AbsentCharNotContained(MarkerLine(target), "M106", 0);
  }

  lemma FixedPassesQuiet(target: int, f: FanScan, lines: seq<string>)
    requires |lines| > 0 && Quiet(lines[0])
    ensures PreScanFixed(target, f, lines) == PreScanFixed(target, f, lines[1..])
  {
    LayerValueAgrees(lines[0], f.layer);
  }

  lemma FixedReadsHere(target: int, f: FanScan, lines: seq<string>)
    requires |lines| > 0 && f.layer == target
    requires !Contains(lines[0], LayerKey) && Contains(lines[0], "M106")
    ensures PreScanFixed(target, f, lines) == PreScanFixed(target, FanScan(target, FanReading(lines[0], f.saved)), lines[1..])
  {
    LayerValueAgrees(lines[0], f.layer);
  }

  /** The empty piece after the last line break changes nothing. */
  lemma FixedEndsAtEmpty(target: int, f: FanScan)
    ensures PreScanFixed(target, f, [[]]) == f
  {
    assert !Contains([], "M106");
    LayerValueAgrees([], f.layer);
  }

  /** The corrected pre-scan over the lines of a marker, the start header, the print
      override and the fan override keeps the fan override's reading. */
  lemma FixedOverFour(t: int, f: FanScan, h: string, po: string, fo: string)
    requires Quiet(h) && Quiet(po)
    requires !Contains(fo, LayerKey) && Contains(fo, "M106")
    ensures PreScanFixed(t, f, [MarkerLine(t), h, po, fo, []]).saved == FanReading(fo, f.saved)
  {
    var ls := [MarkerLine(t), h, po, fo, []];
    var f1 := FanScan(t, f.saved);
    FixedMarkerStep(t, f, ls);
    assert ls[1..] == [h, po, fo, []];
    FixedPassesQuiet(t, f1, [h, po, fo, []]);
    assert [h, po, fo, []][1..] == [po, fo, []];
    FixedPassesQuiet(t, f1, [po, fo, []]);
    assert [po, fo, []][1..] == [fo, []];
    FixedReadsHere(t, f1, [fo, []]);
    assert [fo, []][1..] == [[]];
    FixedEndsAtEmpty(t, FanScan(t, FanReading(fo, f.saved)));
  }

  /** The same without the print override. */
  lemma FixedOverThree(t: int, f: FanScan, h: string, fo: string)
    requires Quiet(h)
    requires !Contains(fo, LayerKey) && Contains(fo, "M106")
    ensures PreScanFixed(t, f, [MarkerLine(t), h, fo, []]).saved == FanReading(fo, f.saved)
  {
    var ls := [MarkerLine(t), h, fo, []];
    var f1 := FanScan(t, f.saved);
    FixedMarkerStep(t, f, ls);
    assert ls[1..] == [h, fo, []];
    FixedPassesQuiet(t, f1, [h, fo, []]);
    assert [h, fo, []][1..] == [fo, []];
    FixedReadsHere(t, f1, [fo, []]);
    assert [fo, []][1..] == [[]];
    FixedEndsAtEmpty(t, FanScan(t, FanReading(fo, f.saved)));
  }

  /** The corrected pre-scan of the chunk a first instance wrote at layer `t` keeps the
      reading of that instance's fan override. */
  lemma FixedScanOfStartChunk(first: Config, inst: int, t: int, f: FanScan)
    requires first.changeFanSpeed
    ensures PreScanFixed(t, f, Split(Render([Orig(MarkerLine(t))] + StartBlock(first, inst, t)))).saved
            == FanReading(LineOf(Override(FanSpeed, first.NewValue(FanSpeed), first.Percent(FanSpeed))), f.saved)
  {
    var h := StartText(inst, t, first.TotalLayers());
    var fo := LineOf(Override(FanSpeed, first.NewValue(FanSpeed), first.Percent(FanSpeed)));
    HeaderQuiet(inst, t, first.TotalLayers());
    OverrideNotMarker(FanSpeed, first.NewValue(FanSpeed), first.Percent(FanSpeed));
    FanOverrideUnreadable(first.NewValue(FanSpeed), first.Percent(FanSpeed));
    if first.changePrintSpeed {
      var po := LineOf(Override(PrintSpeed, first.NewValue(PrintSpeed), first.Percent(PrintSpeed)));
      OverrideNotMarker(PrintSpeed, first.NewValue(PrintSpeed), first.Percent(PrintSpeed));
      PrintOverrideNotFan(first.NewValue(PrintSpeed), first.Percent(PrintSpeed));
      ChunkLinesBoth(first, inst, t);
      FixedOverFour(t, f, h, po, fo);
    } else {
      ChunkLinesFan(first, inst, t);
      FixedOverThree(t, f, h, fo);
    }
  }

  /** The chunk a first instance with a fan change wrote at layer `t`, run through a second
      instance starting at the same layer with the corrected pre-scan, does not stop: the
      fan value its reset blocks restore is the first instance's, exactly `255 p / 100`. */
  lemma StackedFanChangeRestores(cfg: Config, s: ScanState, first: Config, inst: int)
    requires first.changeFanSpeed
    ensures var t := cfg.TargetLayer();
            var chunk := Render([Orig(MarkerLine(t))] + StartBlock(first, inst, t));
            Value(ProcessChunkFixed(cfg, s, chunk).scan.fanOld) == 255.0 * (first.fanSpeed as real) / 100.0
  {
    var t := cfg.TargetLayer();
    var chunk := Render([Orig(MarkerLine(t))] + StartBlock(first, inst, t));
    var f := FanScan(s.currentFanLayer, ChunkInitial(s, chunk));
    StartChunkMentionsFan(first, inst, t);
    FixedFanOld(cfg, s, chunk);
    FixedScanOfStartChunk(first, inst, t, f);
    FanOverrideReading(first, f.saved);
  }

  /** The fan value to restore after a chunk is what its corrected pre-scan keeps. */
  lemma FixedFanOld(cfg: Config, s: ScanState, chunk: string)
    requires Contains(chunk, "M106")
    ensures ProcessChunkFixed(cfg, s, chunk).scan.fanOld
            == PreScanFixed(cfg.TargetLayer(), FanScan(s.currentFanLayer, ChunkInitial(s, chunk)), Split(chunk)).saved
  {
  }

  /** The corrected reading of a fan override line gives exactly `255 p / 100`. */
  lemma FanOverrideReading(first: Config, prior: Dec)
    ensures Value(FanReading(LineOf(Override(FanSpeed, first.NewValue(FanSpeed), first.Percent(FanSpeed))), prior))
            == 255.0 * (first.fanSpeed as real) / 100.0
  {
    OverrideReadsBack(first, FanSpeed, Value(prior));
    assert Command(FanSpeed) + " S" == FanKey;
  }
}
