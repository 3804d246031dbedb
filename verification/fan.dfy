/** The fan side of `execute`: the pre-scan that records the fan value to restore, set
    against a reference description of which lines it reads; the values the override
    lines carry; and why a second instance starting at the same layer cannot read the
    fan line a first one wrote. */
module FanRestore {
  import opened Wrappers
  import opened Text
  import opened Numbers
  import opened Extract
  import opened Gcode
  import opened Rewriter
  import opened Placement

  /** The pre-scan's layer counter after `lines`, starting from `layer`. */
  function FanLayerAfter(layer: int, lines: seq<string>): (r: int)
    decreases |lines|
  {
    if |lines| == 0 then layer else FanLayerAfter(LayerValue(lines[0], layer), lines[1..])
  }

  /** The lines whose value the pre-scan reads, in order: the `M106` lines met while the
      counter, having read the line's own marker, is at `target`. */
  function Captures(target: int, layer: int, lines: seq<string>): (r: seq<string>)
    decreases |lines|
  {
    if |lines| == 0 then []
    else
      var l := LayerValue(lines[0], layer);
      (if Contains(lines[0], "M106") && l == target then [lines[0]] else [])
      + Captures(target, l, lines[1..])
  }

  /** `float(line[6:])` does not raise. */
  predicate Readable(line: string) {
    ParseFloat(Drop(line, 6)).Some?
  }

  predicate AllReadable(cs: seq<string>) {
    forall i :: 0 <= i < |cs| ==> Readable(cs[i])
  }

  /** The value left after reading the lines `cs` one by one, starting from `initial`:
      the last line's, or `initial` when there is none. */
  function LastRead(initial: Dec, cs: seq<string>): (r: Option<Dec>) {
    if |cs| == 0 then Some(initial) else ParseFloat(Drop(cs[|cs| - 1], 6))
  }

  lemma AllReadableCons(x: string, rest: seq<string>)
    ensures AllReadable([x] + rest) <==> Readable(x) && AllReadable(rest)
  {
    var cs := [x] + rest;
    assert cs[0] == x;
    forall i | 0 <= i < |rest| ensures cs[i + 1] == rest[i] {
    }
  }

  lemma LastReadCons(initial: Dec, x: string, v: Dec, rest: seq<string>)
    requires ParseFloat(Drop(x, 6)) == Some(v)
    ensures LastRead(initial, [x] + rest) == LastRead(v, rest)
  {
    if |rest| > 0 {
      assert ([x] + rest)[|rest|] == rest[|rest| - 1];
    }
  }

  /** The pre-scan succeeds exactly when every line it reads parses; it then ends at the
      layer the markers lead to and keeps the value of the last line read. */
  lemma {:induction false} PreScanMeaning(target: int, f: FanScan, lines: seq<string>)
    ensures PreScanFan(target, f, lines).Success?
            <==> AllReadable(Captures(target, f.layer, lines))
    ensures PreScanFan(target, f, lines).Success?
            ==> PreScanFan(target, f, lines).value.layer == FanLayerAfter(f.layer, lines)
    ensures PreScanFan(target, f, lines).Success?
            ==> Some(PreScanFan(target, f, lines).value.saved)
                == LastRead(f.saved, Captures(target, f.layer, lines))
    decreases |lines|
  {
    if |lines| > 0 {
      var line := lines[0];
      var l := LayerValue(line, f.layer);
      var rest := Captures(target, l, lines[1..]);
      if Contains(line, "M106") && l == target {
        assert Captures(target, f.layer, lines) == [line] + rest;
        AllReadableCons(line, rest);
        match ParseFloat(Drop(line, 6))
        case None =>
        case Some(v) =>
          PreScanMeaning(target, FanScan(l, v), lines[1..]);
          LastReadCons(f.saved, line, v, rest);
      } else {
        assert Captures(target, f.layer, lines) == rest;
        PreScanMeaning(target, FanScan(l, f.saved), lines[1..]);
      }
    }
  }

  /** The fan value `initial` a chunk's pre-scan starts from: 0 after an `M107`. */
  function ChunkInitial(s: ScanState, chunk: string): (r: Dec) {
    if Contains(chunk, "M107") then FromInt(0) else s.fanOld
  }

  /** A chunk stops `execute` exactly when it holds an `M106` and one of the lines the
      pre-scan reads does not parse; otherwise the fan value its reset blocks restore is
      the last one read, and the fan layer counter moves as its markers say. */
  lemma ChunkFanMeaning(cfg: Config, s: ScanState, chunk: string)
    ensures ProcessChunk(cfg, s, chunk).Failure?
            <==> Contains(chunk, "M106")
                 && !AllReadable(Captures(cfg.TargetLayer(), s.currentFanLayer, Split(chunk)))
    ensures ProcessChunk(cfg, s, chunk).Success? && Contains(chunk, "M106")
            ==> Some(ProcessChunk(cfg, s, chunk).value.scan.fanOld)
                == LastRead(ChunkInitial(s, chunk), Captures(cfg.TargetLayer(), s.currentFanLayer, Split(chunk)))
    ensures ProcessChunk(cfg, s, chunk).Success? && Contains(chunk, "M106")
            ==> ProcessChunk(cfg, s, chunk).value.scan.currentFanLayer
                == FanLayerAfter(s.currentFanLayer, Split(chunk))
  {
    PreScanMeaning(cfg.TargetLayer(), FanScan(s.currentFanLayer, ChunkInitial(s, chunk)), Split(chunk));
  }

  /** An override line carries, after its command, the value the settings ask for: the
      print speed percentage, or exactly `255 p / 100` of full fan power. */
  lemma OverrideReadsBack(cfg: Config, ch: Channel, default: real)
    ensures GetValue(LineOf(Override(ch, cfg.NewValue(ch), cfg.Percent(ch))), Command(ch) + " S", default)
            == if ch.PrintSpeed? then cfg.printSpeed as real else 255.0 * (cfg.fanSpeed as real) / 100.0
  {
    OverrideValueRead(ch, cfg.NewValue(ch), cfg.Percent(ch), default);
    Format6Exact(cfg.NewValue(ch));
  }

  /** Read with its command and ` S` as the key, an override line gives back its value
      rounded to the six decimals it is written with. */
  lemma OverrideValueRead(ch: Channel, v: Dec, p: int, default: real)
    ensures GetValue(LineOf(Override(ch, v, p)), Command(ch) + " S", default) == Value(Dec(v.negative, Micros(v), 6))
  {
    SetKeyFacts(ch);
    OverrideShape(ch, v, p);
    DecimalRoundTrip([], Command(ch) + " S", v, OverrideComment(ch, p), default);
  }

  /** The key `Command(ch) + " S"` is an ordinary key with no occurrence before its own. */
  lemma SetKeyFacts(ch: Channel)
    ensures |Command(ch) + " S"| > 0
    ensures !Contains(Command(ch) + " S", InstanceKey) && !Contains(Command(ch) + " S", LayerKey)
    ensures !Contains([] + (Command(ch) + " S")[..|Command(ch) + " S"| - 1], Command(ch) + " S")
  {
    var key := Command(ch) + " S";
    LongerNotContained(key, InstanceKey);
    LongerNotContained(key, LayerKey);
    assert [] + key[..|key| - 1] == key[..|key| - 1];
    LongerNotContained(key[..|key| - 1], key);
  }

  lemma OverrideShape(ch: Channel, v: Dec, p: int)
    ensures LineOf(Override(ch, v, p)) == [] + (Command(ch) + " S") + Format6(v) + OverrideComment(ch, p)
    ensures |OverrideComment(ch, p)| > 0 && OverrideComment(ch, p)[0] == ' '
  {
    CommentStartsWithSpace(ch, p);
    assert LineOf(Override(ch, v, p)) == SetText(ch, v) + OverrideComment(ch, p);
  }

  lemma CommentStartsWithSpace(ch: Channel, p: int)
    ensures |OverrideComment(ch, p)| > 0 && OverrideComment(ch, p)[0] == ' '
  {
    var head := if ch.PrintSpeed? then " ;Print speed " else " ;Fan speed ";
    var tail := if ch.PrintSpeed? then IntToString(p) + "% of original Cura speed" else IntToString(p) + "% of 100% [% of 255]";
    assert OverrideComment(ch, p) == head + tail;
    assert (head + tail)[0] == head[0];
  }

  /** The pre-scan steps over a line that is neither a marker nor a fan line. */
  lemma PassesQuiet(target: int, f: FanScan, lines: seq<string>)
    requires |lines| > 0 && !Contains(lines[0], LayerKey) && !Contains(lines[0], "M106")
    ensures PreScanFan(target, f, lines) == PreScanFan(target, f, lines[1..])
  {
    LayerValueAgrees(lines[0], f.layer);
  }

  /** The pre-scan stops at an unreadable fan line met at the target layer. */
  lemma FailsHere(target: int, f: FanScan, lines: seq<string>)
    requires |lines| > 0 && f.layer == target
    requires !Contains(lines[0], LayerKey) && Contains(lines[0], "M106") && !Readable(lines[0])
    ensures PreScanFan(target, f, lines).Failure?
  {
    LayerValueAgrees(lines[0], f.layer);
  }

  /** The start header is neither a marker nor a fan line. */
  lemma HeaderQuiet(inst: int, layer: int, total: int)
    ensures !Contains(StartText(inst, layer, total), LayerKey)
    ensures !Contains(StartText(inst, layer, total), "M106")
  {
    StartTextAvoids(inst, layer, total, 'Y');
    AbsentCharNotContained(StartText(inst, layer, total), LayerKey, 3);
    StartTextAvoids(inst, layer, total, 'M');
    AbsentCharNotContained(StartText(inst, layer, total), "M106", 0);
  }

  /** An override line after its command letter. */
  lemma OverrideTail(ch: Channel, v: Dec, p: int)
    ensures LineOf(Override(ch, v, p))[1..] == Command(ch)[1..] + " S" + Format6(v) + OverrideComment(ch, p)
  {
    var cmd := Command(ch);
    TailOfAppend(cmd, " S");
    TailOfAppend(cmd + " S", Format6(v));
    TailOfAppend(cmd + " S" + Format6(v), OverrideComment(ch, p));
  }

  lemma TailOfAppend(a: string, b: string)
    requires |a| >= 1
    ensures (a + b)[1..] == a[1..] + b
  {
  }

  lemma CommandTailAvoids(ch: Channel, c: char)
    requires Foreign(c)
    ensures c !in Command(ch)[1..] + " S"
  {
  }

  /** After its command letter, an override line holds no foreign character. */
  lemma OverrideTailAvoids(ch: Channel, v: Dec, p: int, c: char)
    requires Foreign(c)
    ensures c !in LineOf(Override(ch, v, p))[1..]
  {
    var tail := Command(ch)[1..] + " S";
    CommandTailAvoids(ch, c);
    Format6Avoids(v, c);
    OverrideCommentAvoids(ch, p, c);
    AppendAvoids(tail, Format6(v), c);
    AppendAvoids(tail + Format6(v), OverrideComment(ch, p), c);
    OverrideTail(ch, v, p);
  }

  /** No override line is a layer marker. */
  lemma OverrideNotMarker(ch: Channel, v: Dec, p: int)
    ensures !Contains(LineOf(Override(ch, v, p)), LayerKey)
  {
    var o := LineOf(Override(ch, v, p));
    OverrideTailAvoids(ch, v, p, 'Y');
    assert o == [o[0]] + o[1..];
    AbsentCharNotContained(o, LayerKey, 3);
  }

  /** The print-speed override is not a fan line. */
  lemma PrintOverrideNotFan(v: Dec, p: int)
    ensures !Contains(LineOf(Override(PrintSpeed, v, p)), "M106")
  {
    var o := LineOf(Override(PrintSpeed, v, p));
    OverrideTailAvoids(PrintSpeed, v, p, 'M');
    assert o[1] == '2';
    SecondCharRulesOutFan(o);
  }

  /** A text whose second character is not `1` and whose tail has no `M` holds no `M106`. */
  lemma SecondCharRulesOutFan(o: string)
    requires |o| >= 2 && o[1] != '1' && 'M' !in o[1..]
    ensures !Contains(o, "M106")
  {
    IndexOfFirst(o, "M106");
    forall j ensures !OccursAt(o, "M106", j) {
      if 0 <= j && j + 4 <= |o| {
        if j == 0 {
          assert o[j..j + 4][1] == o[1];
        } else {
          assert o[j..j + 4][0] == o[1..][j - 1];
        }
      }
    }
  }

  /** The fan override after its first six characters `M106 S`. */
  lemma FanOverrideArgument(v: Dec, p: int)
    ensures LineOf(Override(FanSpeed, v, p))[..4] == "M106"
    ensures Drop(LineOf(Override(FanSpeed, v, p)), 6) == Format6(v) + OverrideComment(FanSpeed, p)
  {
    var rest := Format6(v) + OverrideComment(FanSpeed, p);
    Rebracket("M106", " S", Format6(v), OverrideComment(FanSpeed, p));
    assert LineOf(Override(FanSpeed, v, p)) == "M106 S" + rest;
    assert ("M106 S" + rest)[6..] == rest;
  }

  /** The fan override's comment starts with a space and ends with `]`. */
  lemma FanCommentEnds(p: int)
    ensures |OverrideComment(FanSpeed, p)| >= 1
    ensures OverrideComment(FanSpeed, p)[0] == ' '
    ensures OverrideComment(FanSpeed, p)[|OverrideComment(FanSpeed, p)| - 1] == ']'
  {
  }

  /** The fan override is a fan line whose value `float(line[6:])` cannot read: the
      comment follows the number. */
  lemma FanOverrideUnreadable(v: Dec, p: int)
    ensures Contains(LineOf(Override(FanSpeed, v, p)), "M106")
    ensures !Readable(LineOf(Override(FanSpeed, v, p)))
  {
    FanOverrideArgument(v, p);
    PrefixFound(LineOf(Override(FanSpeed, v, p)), "M106");
    FanCommentEnds(p);
    Format6ThenCommentRejected(v, OverrideComment(FanSpeed, p));
  }

  /** A line that is neither a marker nor a fan line. */
  predicate Quiet(line: string) {
    !Contains(line, LayerKey) && !Contains(line, "M106")
  }

  /** The pre-scan steps over a run of quiet lines unchanged. */
  lemma {:induction false} PassesQuietRun(target: int, f: FanScan, lines: seq<string>, k: nat)
    requires k <= |lines|
    requires forall i :: 0 <= i < k ==> Quiet(lines[i])
    ensures PreScanFan(target, f, lines) == PreScanFan(target, f, lines[k..])
    decreases k
  {
    if k > 0 {
      PassesQuiet(target, f, lines);
      PassesQuietRun(target, f, lines[1..], k - 1);
      assert lines[1..][k - 1..] == lines[k..];
    }
  }

  /** The lines from the target layer's marker at index 0 run over quiet lines to an
      unreadable fan line at index `k`. */
  predicate StopsAt(lines: seq<string>, target: int, k: int) {
    && 1 <= k < |lines|
    && lines[0] == MarkerLine(target)
    && (forall i :: 1 <= i < k ==> Quiet(lines[i]))
    && !Contains(lines[k], LayerKey)
    && Contains(lines[k], "M106") && !Readable(lines[k])
  }

  /** The marker step of the pre-scan: the counter moves to the target layer, and the
      marker itself is no fan line. */
  lemma MarkerStep(target: int, f: FanScan, lines: seq<string>)
    requires |lines| >= 1 && lines[0] == MarkerLine(target)
    ensures PreScanFan(target, f, lines) == PreScanFan(target, FanScan(target, f.saved), lines[1..])
  {
    MarkerLineFacts(target, f.layer);
    MarkerAvoids(target, 'M');
    AbsentCharNotContained(MarkerLine(target), "M106", 0);
  }

  /** Such lines stop the pre-scan. */
  lemma StopsAfterMarker(target: int, f: FanScan, lines: seq<string>, k: nat)
    requires StopsAt(lines, target, k)
    ensures PreScanFan(target, f, lines).Failure?
  {
    var f1 := FanScan(target, f.saved);
    MarkerStep(target, f, lines);
    var tail := lines[1..];
    forall i | 0 <= i < k - 1 ensures Quiet(tail[i]) {
      assert tail[i] == lines[i + 1];
    }
    PassesQuietRun(target, f1, tail, k - 1);
    assert tail[k - 1..] == lines[k..];
    FailsHere(target, f1, lines[k..]);
  }

  /** A chunk whose lines stop the pre-scan stops `execute`. */
  lemma ChunkStopsAfterMarker(cfg: Config, s: ScanState, chunk: string, k: nat)
    requires Contains(chunk, "M106") && StopsAt(Split(chunk), cfg.TargetLayer(), k)
    ensures ProcessChunk(cfg, s, chunk).Failure?
  {
    StopsAfterMarker(cfg.TargetLayer(), FanScan(s.currentFanLayer, ChunkInitial(s, chunk)), Split(chunk), k);
  }

  /** The lines of a chunk that holds a layer marker followed by a start block changing
      both speeds. */
  lemma ChunkLinesBoth(first: Config, inst: int, t: int)
    requires first.changePrintSpeed && first.changeFanSpeed
    ensures Split(Render([Orig(MarkerLine(t))] + StartBlock(first, inst, t)))
            == [MarkerLine(t), StartText(inst, t, first.TotalLayers()),
                LineOf(Override(PrintSpeed, first.NewValue(PrintSpeed), first.Percent(PrintSpeed))),
                LineOf(Override(FanSpeed, first.NewValue(FanSpeed), first.Percent(FanSpeed))), []]
  {
    var hd := StartHeader(inst, t, first.TotalLayers());
    var po := Override(PrintSpeed, first.NewValue(PrintSpeed), first.Percent(PrintSpeed));
    var fo := Override(FanSpeed, first.NewValue(FanSpeed), first.Percent(FanSpeed));
    var ts := [Orig(MarkerLine(t))] + StartBlock(first, inst, t);
    assert ts == [Orig(MarkerLine(t)), hd, po, fo];
    StartChunkSingle(first, inst, t);
    SplitRenderFour(ts);
  }

  /** The lines of a chunk that holds a layer marker followed by a start block changing
      only the fan. */
  lemma ChunkLinesFan(first: Config, inst: int, t: int)
    requires !first.changePrintSpeed && first.changeFanSpeed
    ensures Split(Render([Orig(MarkerLine(t))] + StartBlock(first, inst, t)))
            == [MarkerLine(t), StartText(inst, t, first.TotalLayers()),
                LineOf(Override(FanSpeed, first.NewValue(FanSpeed), first.Percent(FanSpeed))), []]
  {
    var hd := StartHeader(inst, t, first.TotalLayers());
    var fo := Override(FanSpeed, first.NewValue(FanSpeed), first.Percent(FanSpeed));
    var ts := [Orig(MarkerLine(t))] + StartBlock(first, inst, t);
    assert ts == [Orig(MarkerLine(t)), hd, fo];
    StartChunkSingle(first, inst, t);
    SplitRenderThree(ts);
  }

  lemma StartChunkSingle(first: Config, inst: int, t: int)
    ensures SingleLines([Orig(MarkerLine(t))] + StartBlock(first, inst, t))
  {
    MarkerAvoids(t, '\n');
  }

  /** Those lines stop the pre-scan of a second instance starting at layer `t`. */
  lemma StartChunkFacts(first: Config, inst: int, t: int)
    requires first.changeFanSpeed
    ensures StopsAt(Split(Render([Orig(MarkerLine(t))] + StartBlock(first, inst, t))), t,
                    |StartBlock(first, inst, t)|)
  {
    if first.changePrintSpeed {
      StartChunkStopsBoth(first, inst, t);
    } else {
      StartChunkStopsFan(first, inst, t);
    }
  }

  lemma StartChunkStopsBoth(first: Config, inst: int, t: int)
    requires first.changePrintSpeed && first.changeFanSpeed
    ensures StopsAt(Split(Render([Orig(MarkerLine(t))] + StartBlock(first, inst, t))), t, 3)
  {
    var h := StartText(inst, t, first.TotalLayers());
    var po := LineOf(Override(PrintSpeed, first.NewValue(PrintSpeed), first.Percent(PrintSpeed)));
    var fo := LineOf(Override(FanSpeed, first.NewValue(FanSpeed), first.Percent(FanSpeed)));
    HeaderQuiet(inst, t, first.TotalLayers());
    OverrideNotMarker(FanSpeed, first.NewValue(FanSpeed), first.Percent(FanSpeed));
    FanOverrideUnreadable(first.NewValue(FanSpeed), first.Percent(FanSpeed));
    OverrideNotMarker(PrintSpeed, first.NewValue(PrintSpeed), first.Percent(PrintSpeed));
    PrintOverrideNotFan(first.NewValue(PrintSpeed), first.Percent(PrintSpeed));
    ChunkLinesBoth(first, inst, t);
    StopsAtFour(t, h, po, fo);
  }

  lemma StartChunkStopsFan(first: Config, inst: int, t: int)
    requires !first.changePrintSpeed && first.changeFanSpeed
    ensures StopsAt(Split(Render([Orig(MarkerLine(t))] + StartBlock(first, inst, t))), t, 2)
  {
    var h := StartText(inst, t, first.TotalLayers());
    var fo := LineOf(Override(FanSpeed, first.NewValue(FanSpeed), first.Percent(FanSpeed)));
    HeaderQuiet(inst, t, first.TotalLayers());
    OverrideNotMarker(FanSpeed, first.NewValue(FanSpeed), first.Percent(FanSpeed));
    FanOverrideUnreadable(first.NewValue(FanSpeed), first.Percent(FanSpeed));
    ChunkLinesFan(first, inst, t);
    StopsAtThree(t, h, fo);
  }

  lemma StopsAtFour(t: int, h: string, po: string, fo: string)
    requires Quiet(h) && Quiet(po)
    requires !Contains(fo, LayerKey) && Contains(fo, "M106") && !Readable(fo)
    ensures StopsAt([MarkerLine(t), h, po, fo, []], t, 3)
  {
  }

  lemma StopsAtThree(t: int, h: string, fo: string)
    requires Quiet(h)
    requires !Contains(fo, LayerKey) && Contains(fo, "M106") && !Readable(fo)
    ensures StopsAt([MarkerLine(t), h, fo, []], t, 2)
  {
  }

  /** The same chunk, rendered, mentions `M106`. */
  lemma StartChunkMentionsFan(first: Config, inst: int, t: int)
    requires first.changeFanSpeed
    ensures Contains(Render([Orig(MarkerLine(t))] + StartBlock(first, inst, t)), "M106")
  {
    var ts := [Orig(MarkerLine(t))] + StartBlock(first, inst, t);
    FanOverrideUnreadable(first.NewValue(FanSpeed), first.Percent(FanSpeed));
    RenderContains(ts, |ts| - 1, "M106");
  }

  /** A chunk a first instance wrote with a fan change, fed to a second instance that
      starts at the same layer, stops `execute`: the second pre-scan reads the first
      one's `M106` override, and `float()` rejects the comment after its value. */
  lemma StackedFanChangeFails(cfg: Config, s: ScanState, first: Config, inst: int)
    requires first.changeFanSpeed
    ensures ProcessChunk(cfg, s, Render([Orig(MarkerLine(cfg.TargetLayer()))]
                                        + StartBlock(first, inst, cfg.TargetLayer()))).Failure?
  {
    var t := cfg.TargetLayer();
    StartChunkFacts(first, inst, t);
    StartChunkMentionsFan(first, inst, t);
    ChunkStopsAfterMarker(cfg, s, Render([Orig(MarkerLine(t))] + StartBlock(first, inst, t)),
                          |StartBlock(first, inst, t)|);
  }

  // ---------------------------------------------------------------------------------
  // The value the fan restore lines carry.

  /** Every fan restore among `ts` sets the fan to `v`. */
  predicate RestoresFanTo(ts: seq<Token>, v: Dec) {
    forall i :: 0 <= i < |ts| && ts[i].Restore? && ts[i].channel == FanSpeed ==> ts[i].value == v
  }

  lemma RestoresFanAppend(a: seq<Token>, b: seq<Token>, v: Dec)
    requires RestoresFanTo(a, v) && RestoresFanTo(b, v)
    ensures RestoresFanTo(a + b, v)
  {
    forall i | 0 <= i < |a + b| && (a + b)[i].Restore? && (a + b)[i].channel == FanSpeed
      ensures (a + b)[i].value == v
    {
      if i < |a| { assert (a + b)[i] == a[i]; } else { assert (a + b)[i] == b[i - |a|]; }
    }
  }

  /** The blocks one line adds to `speed_gcode` restore the fan to the value the scan
      state holds. */
  lemma CollectRestores(cfg: Config, s: LineState, line: string)
    requires RestoresFanTo(s.speed, s.scan.fanOld)
    ensures RestoresFanTo(Collect(cfg, s, line), s.scan.fanOld)
  {
    var v := s.scan.fanOld;
    var next := Advance(cfg, s.scan, line);
    var start := StartBlock(cfg, next.instance, next.currentLayer);
    var speed := if Starts(cfg, s.scan, line) then s.speed + start else s.speed;
    if Starts(cfg, s.scan, line) {
      BlockRestores(cfg, next.isUM2, next.instance, next.currentLayer, v);
      RestoresFanAppend(s.speed, start, v);
    }
    var reset := if Ends(cfg, s.scan, line)
       then ResetBlock(cfg, next.isUM2, next.instance, next.currentLayer, v) else [];
    if Ends(cfg, s.scan, line) {
      BlockRestores(cfg, next.isUM2, next.instance, next.currentLayer, v);
    }
    RestoresFanAppend(speed, reset, v);
  }

  /** A start block restores nothing; a reset block restores the fan to its argument. */
  lemma BlockRestores(cfg: Config, isUM2: bool, instance: int, layer: int, v: Dec)
    ensures RestoresFanTo(StartBlock(cfg, instance, layer), v)
    ensures RestoresFanTo(ResetBlock(cfg, isUM2, instance, layer, v), v)
  {
  }

  lemma EmitRestores(cfg: Config, line: string, layer: int, speed: seq<Token>, v: Dec)
    requires RestoresFanTo(speed, v)
    ensures RestoresFanTo(Emit(cfg, line, layer, speed), v)
  {
    if !Dropped(line) {
      RestoresFanAppend([Orig(line)], speed, v);
      RestoresFanAppend(speed, [Orig(line)], v);
    }
  }

  lemma StepRestores(cfg: Config, s: LineState, line: string)
    requires RestoresFanTo(s.speed, s.scan.fanOld)
    ensures RestoresFanTo(StepLine(cfg, s, line).state.speed, s.scan.fanOld)
    ensures RestoresFanTo(StepLine(cfg, s, line).out, s.scan.fanOld)
  {
    if !IsBlank(line) {
      var next := Advance(cfg, s.scan, line);
      var speed := Collect(cfg, s, line);
      CollectRestores(cfg, s, line);
      EmitRestores(cfg, line, next.currentLayer, speed, s.scan.fanOld);
      RestoresFanAppend(Note(s.scan.instance, line), Emit(cfg, line, next.currentLayer, speed), s.scan.fanOld);
    }
  }

  /** Within a chunk every fan restore carries the value the chunk began with. */
  lemma {:induction false} RewriteRestores(cfg: Config, s: LineState, lines: seq<string>)
    requires RestoresFanTo(s.speed, s.scan.fanOld)
    ensures RestoresFanTo(RewriteLines(cfg, s, lines).out, s.scan.fanOld)
    decreases |lines|
  {
    if |lines| > 0 {
      var first := StepLine(cfg, s, lines[0]);
      StepRestores(cfg, s, lines[0]);
      RewriteRestores(cfg, first.state, lines[1..]);
      RestoresFanAppend(first.out, RewriteLines(cfg, first.state, lines[1..]).out, s.scan.fanOld);
    }
  }

  /** Every fan restore a chunk writes sets the fan to the value its pre-scan leaves: the
      last `M106` value read at the target layer, or the value the chunk starts from (0
      after an `M107`) when it reads none or holds no `M106` at all. */
  lemma ChunkRestoreValue(cfg: Config, s: ScanState, chunk: string)
    ensures ProcessChunk(cfg, s, chunk).Success? && Contains(chunk, "M106") ==>
              var out := ProcessChunk(cfg, s, chunk).value.out;
              forall i :: (0 <= i < |out| && out[i].Restore? && out[i].channel == FanSpeed) ==>
                Some(out[i].value) == LastRead(ChunkInitial(s, chunk), Captures(cfg.TargetLayer(), s.currentFanLayer, Split(chunk)))
    ensures !Contains(chunk, "M106") ==>
              RestoresFanTo(ProcessChunk(cfg, s, chunk).value.out, ChunkInitial(s, chunk))
  {
    ChunkFanMeaning(cfg, s, chunk);
    ChunkRestores(cfg, s, chunk);
  }

  /** Every fan restore a chunk writes sets the fan to the value the chunk leaves. */
  lemma ChunkRestores(cfg: Config, s: ScanState, chunk: string)
    ensures ProcessChunk(cfg, s, chunk).Success? ==>
              RestoresFanTo(ProcessChunk(cfg, s, chunk).value.out, ProcessChunk(cfg, s, chunk).value.scan.fanOld)
  {
    var old0 := ChunkInitial(s, chunk);
    var fan :=
      if Contains(chunk, "M106") then PreScanFan(cfg.TargetLayer(), FanScan(s.currentFanLayer, old0), Split(chunk))
      else Success(FanScan(s.currentFanLayer, old0));
    if fan.Success? {
      var f := fan.value;
      RewriteRestores(cfg, LineState(s.(currentFanLayer := f.layer, fanOld := f.saved), []), Split(chunk));
    }
  }
}
