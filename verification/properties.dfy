/** What the rewrite guarantees: every generated line is one the settings call for, the
    original lines come through filtered but unchanged and in order, the blocks sit on
    the right side of their markers, and the fan pre-scan keeps the last value it reads. */
module Properties {
  import opened Wrappers
  import opened Text
  import opened Numbers
  import opened Extract
  import opened Gcode
  import opened Rewriter

  /** A token `execute` may write under `cfg`: a kept input line, or a generated line
      whose layer, value and percentage are the ones the settings give. */
  predicate Sound(cfg: Config, t: Token) {
    match t
    case Orig(line) => !IsBlank(line) && !Dropped(line)
    case InstanceNote(_) => true
    case StartHeader(_, layer, total) => layer == cfg.TargetLayer() && total == cfg.TotalLayers()
    case Override(ch, value, p) => cfg.On(ch) && value == cfg.NewValue(ch) && p == cfg.Percent(ch)
    case ResetHeader(layer) => layer == cfg.EndLayer() - 1
    case Restore(ch, value) => cfg.On(ch) && (ch == PrintSpeed ==> value == PrintRestoreValue)
    case Recall(_) => false
  }

  predicate AllSound(cfg: Config, ts: seq<Token>) {
    forall i :: 0 <= i < |ts| ==> Sound(cfg, ts[i])
  }

  /** Only generated lines: what `speed_gcode` holds. */
  predicate NoOrig(ts: seq<Token>) {
    forall i :: 0 <= i < |ts| ==> !ts[i].Orig?
  }

  lemma AllSoundAppend(cfg: Config, a: seq<Token>, b: seq<Token>)
    requires AllSound(cfg, a) && AllSound(cfg, b)
    ensures AllSound(cfg, a + b)
  {
    forall i | 0 <= i < |a + b| ensures Sound(cfg, (a + b)[i]) {
      if i < |a| { assert (a + b)[i] == a[i]; } else { assert (a + b)[i] == b[i - |a|]; }
    }
  }

  lemma NoOrigAppend(a: seq<Token>, b: seq<Token>)
    requires NoOrig(a) && NoOrig(b)
    ensures NoOrig(a + b)
  {
    forall i | 0 <= i < |a + b| ensures !(a + b)[i].Orig? {
      if i < |a| { assert (a + b)[i] == a[i]; } else { assert (a + b)[i] == b[i - |a|]; }
    }
  }

  lemma BlocksSound(cfg: Config, isUM2: bool, instance: int, fanOld: Dec)
    ensures AllSound(cfg, StartBlock(cfg, instance, cfg.TargetLayer()))
    ensures NoOrig(StartBlock(cfg, instance, cfg.TargetLayer()))
    ensures AllSound(cfg, ResetBlock(cfg, isUM2, instance, cfg.EndLayer(), fanOld))
    ensures NoOrig(ResetBlock(cfg, isUM2, instance, cfg.EndLayer(), fanOld))
  {
  }

  lemma EmitSound(cfg: Config, line: string, layer: int, speed: seq<Token>)
    requires !IsBlank(line) && AllSound(cfg, speed)
    ensures AllSound(cfg, Emit(cfg, line, layer, speed))
  {
    if !Dropped(line) {
      AllSoundAppend(cfg, [Orig(line)], speed);
      AllSoundAppend(cfg, speed, [Orig(line)]);
    }
  }

  lemma CollectSound(cfg: Config, s: LineState, line: string)
    requires AllSound(cfg, s.speed) && NoOrig(s.speed)
    ensures AllSound(cfg, Collect(cfg, s, line)) && NoOrig(Collect(cfg, s, line))
  {
    var next := Advance(cfg, s.scan, line);
    var speed := if Starts(cfg, s.scan, line) then s.speed + StartBlock(cfg, next.instance, next.currentLayer) else s.speed;
    if Starts(cfg, s.scan, line) {
      BlocksSound(cfg, next.isUM2, next.instance, s.scan.fanOld);
      AllSoundAppend(cfg, s.speed, StartBlock(cfg, next.instance, next.currentLayer));
      NoOrigAppend(s.speed, StartBlock(cfg, next.instance, next.currentLayer));
    }
    var reset := if Ends(cfg, s.scan, line)
       then ResetBlock(cfg, next.isUM2, next.instance, next.currentLayer, s.scan.fanOld) else [];
    if Ends(cfg, s.scan, line) {
      BlocksSound(cfg, next.isUM2, next.instance, s.scan.fanOld);
    }
    AllSoundAppend(cfg, speed, reset);
    NoOrigAppend(speed, reset);
  }

  /** One line keeps `speed_gcode` free of original lines and every token sound. */
  lemma StepSound(cfg: Config, s: LineState, line: string)
    requires AllSound(cfg, s.speed) && NoOrig(s.speed)
    ensures AllSound(cfg, StepLine(cfg, s, line).state.speed)
    ensures NoOrig(StepLine(cfg, s, line).state.speed)
    ensures AllSound(cfg, StepLine(cfg, s, line).out)
  {
    if !IsBlank(line) {
      var next := Advance(cfg, s.scan, line);
      var speed := Collect(cfg, s, line);
      CollectSound(cfg, s, line);
      EmitSound(cfg, line, next.currentLayer, speed);
      AllSoundAppend(cfg, Note(s.scan.instance, line), Emit(cfg, line, next.currentLayer, speed));
    }
  }

  /** Rewriting a chunk's lines produces only sound tokens. */
  lemma {:induction false} RewriteSound(cfg: Config, s: LineState, lines: seq<string>)
    requires AllSound(cfg, s.speed) && NoOrig(s.speed)
    ensures AllSound(cfg, RewriteLines(cfg, s, lines).state.speed)
    ensures NoOrig(RewriteLines(cfg, s, lines).state.speed)
    ensures AllSound(cfg, RewriteLines(cfg, s, lines).out)
    decreases |lines|
  {
    if |lines| > 0 {
      var first := StepLine(cfg, s, lines[0]);
      StepSound(cfg, s, lines[0]);
      RewriteSound(cfg, first.state, lines[1..]);
      AllSoundAppend(cfg, first.out, RewriteLines(cfg, first.state, lines[1..]).out);
    }
  }

  /** In a loop over chunks that got through, the tokens of chunk `i` are what one step
      gives from the state the chunks before it leave. */
  lemma {:induction false} RunAt(step: (ScanState, string) -> Result<ChunkOut, Error>,
                                 s: ScanState, chunks: seq<string>, i: int)
    requires RunChunks(step, s, chunks).Success? && 0 <= i < |chunks|
    ensures step(StateAt(step, s, chunks, i), chunks[i]).Success?
    ensures RunChunks(step, s, chunks).value[i] == step(StateAt(step, s, chunks, i), chunks[i]).value.out
    decreases i
  {
    match step(s, chunks[0])
    case Success(c) =>
      if i > 0 {
        RunAt(step, c.scan, chunks[1..], i - 1);
        assert chunks[1..][i - 1] == chunks[i];
      }
  }

  /** The tokens `execute` writes for chunk `i` are those the chunk step gives from the
      state the earlier chunks leave. */
  lemma ExecuteAt(cfg: Config, s: ScanState, chunks: seq<string>, i: int)
    requires ExecuteTokens(cfg, s, chunks).Success? && 0 <= i < |chunks|
    ensures ProcessChunk(cfg, StateAt(ChunkStep(cfg), s, chunks, i), chunks[i]).Success?
    ensures ExecuteTokens(cfg, s, chunks).value[i]
            == ProcessChunk(cfg, StateAt(ChunkStep(cfg), s, chunks, i), chunks[i]).value.out
  {
    RunAt(ChunkStep(cfg), s, chunks, i);
  }

  /** A property of the scan state that every successful step keeps holds at every
      chunk. */
  lemma {:induction false} StateAtKeeps(step: (ScanState, string) -> Result<ChunkOut, Error>, inv: ScanState -> bool,
                                        s: ScanState, chunks: seq<string>, i: int)
    requires 0 <= i <= |chunks| && inv(s)
    requires forall x: ScanState, c: string :: inv(x) && step(x, c).Success? ==> inv(step(x, c).value.scan)
    ensures inv(StateAt(step, s, chunks, i))
    decreases i
  {
    if i > 0 {
      match step(s, chunks[0])
      case Failure(_) =>
      case Success(c) =>
        StateAtKeeps(step, inv, c.scan, chunks[1..], i - 1);
    }
  }

  /** Across the chunks, the number of start blocks counted never falls and never
      passes the settings' layer count. */
  lemma DoneBounded(cfg: Config, s: ScanState, chunks: seq<string>, i: int)
    requires 0 <= i <= |chunks|
    ensures s.doneLayers <= StateAt(ChunkStep(cfg), s, chunks, i).doneLayers
    ensures s.doneLayers <= cfg.TotalLayers() ==> StateAt(ChunkStep(cfg), s, chunks, i).doneLayers <= cfg.TotalLayers()
  {
    var inv := (x: ScanState) =>
      s.doneLayers <= x.doneLayers && (s.doneLayers <= cfg.TotalLayers() ==> x.doneLayers <= cfg.TotalLayers());
    forall x: ScanState, c: string | inv(x) && ChunkStep(cfg)(x, c).Success?
      ensures inv(ChunkStep(cfg)(x, c).value.scan)
    {
      var r := ProcessChunk(cfg, x, c);
      assert r.value.scan.doneLayers >= x.doneLayers;
    }
    StateAtKeeps(ChunkStep(cfg), inv, s, chunks, i);
  }

  /** One chunk's tokens are all sound. */
  lemma ChunkSound(cfg: Config, s: ScanState, chunk: string)
    ensures ProcessChunk(cfg, s, chunk).Success? ==> AllSound(cfg, ProcessChunk(cfg, s, chunk).value.out)
  {
    var old0 := if Contains(chunk, "M107") then FromInt(0) else s.fanOld;
    var fan :=
      if Contains(chunk, "M106") then PreScanFan(cfg.TargetLayer(), FanScan(s.currentFanLayer, old0), Split(chunk))
      else Success(FanScan(s.currentFanLayer, old0));
    if fan.Success? {
      var f := fan.value;
      RewriteSound(cfg, LineState(s.(currentFanLayer := f.layer, fanOld := f.saved), []), Split(chunk));
    }
  }

  /** Every line `execute` writes is a kept input line, an instance annotation, or a
      header, override or restore line with the layer and value the settings give; in
      particular the print speed is always restored to 100% and no `M606` is written. */
  lemma ExecuteSound(cfg: Config, s: ScanState, chunks: seq<string>)
    ensures ExecuteTokens(cfg, s, chunks).Success? ==>
              forall i :: 0 <= i < |chunks| ==> AllSound(cfg, ExecuteTokens(cfg, s, chunks).value[i])
  {
    if ExecuteTokens(cfg, s, chunks).Success? {
      forall i | 0 <= i < |chunks| ensures AllSound(cfg, ExecuteTokens(cfg, s, chunks).value[i]) {
        ExecuteAt(cfg, s, chunks, i);
        ChunkSound(cfg, StateAt(ChunkStep(cfg), s, chunks, i), chunks[i]);
      }
    }
  }

  // ---------------------------------------------------------------------------------
  // The input lines come through unchanged and in order, less the dropped ones.

  /** Whether an input line reappears in the output, `layer` being the current layer once
      the line has been read: it is not blank, not one of the dropped kinds, and not a
      fan command inside the start layer while the fan speed is being changed. */
  predicate Survives(cfg: Config, layer: int, line: string) {
    && !IsBlank(line)
    && !Dropped(line)
    && !(cfg.changeFanSpeed && layer == cfg.TargetLayer() && !Contains(line, LayerKey) && FanCommand(line))
  }

  /** The input lines that reappear, following the layer markers from `layer` on. */
  function Survivors(cfg: Config, layer: int, lines: seq<string>): (r: seq<string>)
    decreases |lines|
  {
    if |lines| == 0 then []
    else
      var l := LayerValue(lines[0], layer);
      (if Survives(cfg, l, lines[0]) then [lines[0]] else []) + Survivors(cfg, l, lines[1..])
  }

  /** The lines that are neither blank nor of a dropped kind. */
  function Kept(lines: seq<string>): (r: seq<string>)
    decreases |lines|
  {
    if |lines| == 0 then []
    else (if !IsBlank(lines[0]) && !Dropped(lines[0]) then [lines[0]] else []) + Kept(lines[1..])
  }

  lemma BlankHasNoMarker(line: string)
    requires IsBlank(line)
    ensures !Contains(line, LayerKey)
  {
    forall i | 0 <= i < |line| ensures line[i] != ';' {
      assert IsSpace(line[i]);
    }
    AbsentCharNotContained(line, LayerKey, 0);
  }

  lemma NoOrigOrigs(ts: seq<Token>)
    requires NoOrig(ts)
    ensures Origs(ts) == []
  {
    if |ts| > 0 {
      NoOrigOrigs(ts[1..]);
    }
  }

  lemma EmitOrigs(cfg: Config, line: string, layer: int, speed: seq<Token>)
    requires !IsBlank(line) && NoOrig(speed)
    ensures Origs(Emit(cfg, line, layer, speed)) == if Survives(cfg, layer, line) then [line] else []
  {
    NoOrigOrigs(speed);
    OrigsAppend([Orig(line)], speed);
    OrigsAppend(speed, [Orig(line)]);
  }

  /** One line passes itself through exactly when it survives, and moves the current
      layer to the one its marker names. */
  lemma StepOrigs(cfg: Config, s: LineState, line: string)
    requires AllSound(cfg, s.speed) && NoOrig(s.speed)
    ensures StepLine(cfg, s, line).state.scan.currentLayer == LayerValue(line, s.scan.currentLayer)
    ensures Origs(StepLine(cfg, s, line).out)
            == if Survives(cfg, LayerValue(line, s.scan.currentLayer), line) then [line] else []
  {
    if IsBlank(line) {
      BlankHasNoMarker(line);
    } else {
      var next := Advance(cfg, s.scan, line);
      var speed := Collect(cfg, s, line);
      CollectSound(cfg, s, line);
      EmitOrigs(cfg, line, next.currentLayer, speed);
      OrigsAppend(Note(s.scan.instance, line), Emit(cfg, line, next.currentLayer, speed));
    }
  }

  /** The original lines in a rewritten chunk are exactly its surviving input lines, each
      once and in input order: nothing the script generates replaces or reorders them. */
  lemma {:induction false} RewriteOrigs(cfg: Config, s: LineState, lines: seq<string>)
    requires AllSound(cfg, s.speed) && NoOrig(s.speed)
    ensures Origs(RewriteLines(cfg, s, lines).out) == Survivors(cfg, s.scan.currentLayer, lines)
    decreases |lines|
  {
    if |lines| > 0 {
      var first := StepLine(cfg, s, lines[0]);
      StepSound(cfg, s, lines[0]);
      StepOrigs(cfg, s, lines[0]);
      RewriteOrigs(cfg, first.state, lines[1..]);
      OrigsAppend(first.out, RewriteLines(cfg, first.state, lines[1..]).out);
    }
  }

  /** Without the fan change no line is suppressed for its layer: the survivors are the
      non-blank lines that are not of a dropped kind. */
  lemma {:induction false} SurvivorsWithoutFan(cfg: Config, layer: int, lines: seq<string>)
    requires !cfg.changeFanSpeed
    ensures Survivors(cfg, layer, lines) == Kept(lines)
    decreases |lines|
  {
    if |lines| > 0 {
      SurvivorsWithoutFan(cfg, LayerValue(lines[0], layer), lines[1..]);
    }
  }

  // ---------------------------------------------------------------------------------
  // When no marker names the start or the end layer, nothing is inserted.

  /** No `;LAYER:` line names the layer `layer`. */
  predicate NeverNames(lines: seq<string>, layer: int) {
    forall i :: 0 <= i < |lines| ==> LayerOf(lines[i]) != Some(layer)
  }

  /** Only original lines and instance annotations. */
  predicate Untouched(ts: seq<Token>) {
    forall i :: 0 <= i < |ts| ==> ts[i].Orig? || ts[i].InstanceNote?
  }

  lemma UntouchedAppend(a: seq<Token>, b: seq<Token>)
    requires Untouched(a) && Untouched(b)
    ensures Untouched(a + b)
  {
    forall i | 0 <= i < |a + b| ensures (a + b)[i].Orig? || (a + b)[i].InstanceNote? {
      if i < |a| { assert (a + b)[i] == a[i]; } else { assert (a + b)[i] == b[i - |a|]; }
    }
  }

  /** A line either leaves the layer alone or moves it to the layer its marker names. */
  lemma LayerValueCases(line: string, layer: int)
    ensures LayerValue(line, layer) == layer || LayerOf(line) == Some(LayerValue(line, layer))
  {
  }

  lemma {:induction false} SurvivorsAway(cfg: Config, layer: int, lines: seq<string>)
    requires layer != cfg.TargetLayer() && NeverNames(lines, cfg.TargetLayer())
    ensures Survivors(cfg, layer, lines) == Kept(lines)
    decreases |lines|
  {
    if |lines| > 0 {
      LayerValueCases(lines[0], layer);
      SurvivorsAway(cfg, LayerValue(lines[0], layer), lines[1..]);
    }
  }

  lemma StepAway(cfg: Config, s: LineState, line: string)
    requires s.speed == []
    requires s.scan.currentLayer != cfg.TargetLayer() && s.scan.currentLayer != cfg.EndLayer()
    requires LayerOf(line) != Some(cfg.TargetLayer()) && LayerOf(line) != Some(cfg.EndLayer())
    ensures StepLine(cfg, s, line).state.speed == []
    ensures StepLine(cfg, s, line).state.scan.doneLayers == s.scan.doneLayers
    ensures Untouched(StepLine(cfg, s, line).out)
  {
    LayerValueCases(line, s.scan.currentLayer);
    if !IsBlank(line) {
      var next := Advance(cfg, s.scan, line);
      assert Collect(cfg, s, line) == [] + [];
      UntouchedAppend(Note(s.scan.instance, line), Emit(cfg, line, next.currentLayer, []));
    }
  }

  /** A chunk none of whose markers names the start or the end layer, read while the
      current layer is neither, comes out as its kept lines in order plus the instance
      annotations, with no start or reset block and no start counted. */
  lemma {:induction false} RewriteAway(cfg: Config, s: LineState, lines: seq<string>)
    requires s.speed == []
    requires s.scan.currentLayer != cfg.TargetLayer() && s.scan.currentLayer != cfg.EndLayer()
    requires NeverNames(lines, cfg.TargetLayer()) && NeverNames(lines, cfg.EndLayer())
    ensures RewriteLines(cfg, s, lines).state.speed == []
    ensures RewriteLines(cfg, s, lines).state.scan.doneLayers == s.scan.doneLayers
    ensures RewriteLines(cfg, s, lines).state.scan.currentLayer != cfg.TargetLayer()
    ensures RewriteLines(cfg, s, lines).state.scan.currentLayer != cfg.EndLayer()
    ensures Untouched(RewriteLines(cfg, s, lines).out)
    ensures Origs(RewriteLines(cfg, s, lines).out) == Kept(lines)
    decreases |lines|
  {
    if |lines| == 0 {
    } else {
      var first := StepLine(cfg, s, lines[0]);
      StepAway(cfg, s, lines[0]);
      StepOrigs(cfg, s, lines[0]);
      LayerValueCases(lines[0], s.scan.currentLayer);
      RewriteAway(cfg, first.state, lines[1..]);
      UntouchedAppend(first.out, RewriteLines(cfg, first.state, lines[1..]).out);
      RewriteOrigs(cfg, s, lines);
      SurvivorsAway(cfg, s.scan.currentLayer, lines);
    }
  }

  /** The fan pre-scan cannot fail while its layer never reaches the start layer. */
  lemma {:induction false} PreScanAway(target: int, f: FanScan, lines: seq<string>)
    requires f.layer != target && NeverNames(lines, target)
    ensures PreScanFan(target, f, lines).Success?
    ensures PreScanFan(target, f, lines).value.layer != target
    decreases |lines|
  {
    if |lines| > 0 {
      LayerValueCases(lines[0], f.layer);
      PreScanAway(target, FanScan(LayerValue(lines[0], f.layer), f.saved), lines[1..]);
    }
  }

  /** Settings within the schema's bounds put both the start and the end layer above
      the value the layer counters start from. */
  lemma SentinelBelow(cfg: Config)
    requires cfg.Valid()
    ensures Sentinel < cfg.TargetLayer() < cfg.EndLayer()
  {
  }

  /** One chunk read away from the start and the end layer stays away from them. */
  lemma ChunkAway(cfg: Config, s: ScanState, chunk: string)
    requires s.currentLayer != cfg.TargetLayer() && s.currentLayer != cfg.EndLayer()
    requires s.currentFanLayer != cfg.TargetLayer()
    requires NeverNames(Split(chunk), cfg.TargetLayer()) && NeverNames(Split(chunk), cfg.EndLayer())
    ensures ProcessChunk(cfg, s, chunk).Success?
    ensures var c := ProcessChunk(cfg, s, chunk).value;
            && c.scan.currentLayer != cfg.TargetLayer() && c.scan.currentLayer != cfg.EndLayer()
            && c.scan.currentFanLayer != cfg.TargetLayer()
            && Untouched(c.out) && Origs(c.out) == Kept(Split(chunk))
  {
    var old0 := if Contains(chunk, "M107") then FromInt(0) else s.fanOld;
    if Contains(chunk, "M106") {
      PreScanAway(cfg.TargetLayer(), FanScan(s.currentFanLayer, old0), Split(chunk));
    }
    var fan :=
      if Contains(chunk, "M106") then PreScanFan(cfg.TargetLayer(), FanScan(s.currentFanLayer, old0), Split(chunk))
      else Success(FanScan(s.currentFanLayer, old0));
    var f := fan.value;
    RewriteAway(cfg, LineState(s.(currentFanLayer := f.layer, fanOld := f.saved), []), Split(chunk));
  }

  lemma {:induction false} ExecuteAwayFrom(cfg: Config, s: ScanState, chunks: seq<string>)
    requires s.currentLayer != cfg.TargetLayer() && s.currentLayer != cfg.EndLayer()
    requires s.currentFanLayer != cfg.TargetLayer()
    requires forall i :: 0 <= i < |chunks| ==>
               NeverNames(Split(chunks[i]), cfg.TargetLayer()) && NeverNames(Split(chunks[i]), cfg.EndLayer())
    ensures ExecuteTokens(cfg, s, chunks).Success?
    ensures forall i :: 0 <= i < |chunks| ==>
              && Untouched(ExecuteTokens(cfg, s, chunks).value[i])
              && Origs(ExecuteTokens(cfg, s, chunks).value[i]) == Kept(Split(chunks[i]))
    decreases |chunks|
  {
    if |chunks| > 0 {
      ChunkAway(cfg, s, chunks[0]);
      var c := ProcessChunk(cfg, s, chunks[0]).value;
      ExecuteAwayFrom(cfg, c.scan, chunks[1..]);
      var rest := ExecuteTokens(cfg, c.scan, chunks[1..]).value;
      var r := ExecuteTokens(cfg, s, chunks);
      assert r.value == [c.out] + rest;
      forall i | 0 <= i < |chunks|
        ensures Untouched(r.value[i]) && Origs(r.value[i]) == Kept(Split(chunks[i]))
      {
        if i > 0 {
          assert r.value[i] == rest[i - 1];
          assert chunks[i] == chunks[1..][i - 1];
        }
      }
    }
  }

  /** When no `;LAYER:` marker of the file names the start or the end layer, `execute`
      cannot fail and writes back every chunk as its kept lines, in order, plus the
      instance annotations: no header, override, restore or suppressed fan line. */
  lemma ExecuteWithoutMatch(cfg: Config, data: seq<string>)
    requires cfg.Valid()
    requires forall i :: 0 <= i < |data| ==>
               NeverNames(Split(data[i]), cfg.TargetLayer()) && NeverNames(Split(data[i]), cfg.EndLayer())
    ensures ExecuteTokens(cfg, Initial, data).Success?
    ensures forall i :: 0 <= i < |data| ==>
              && Untouched(ExecuteTokens(cfg, Initial, data).value[i])
              && Origs(ExecuteTokens(cfg, Initial, data).value[i]) == Kept(Split(data[i]))
  {
    SentinelBelow(cfg);
    ExecuteAwayFrom(cfg, Initial, data);
  }
}
