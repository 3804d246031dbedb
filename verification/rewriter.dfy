/** `SpeedChangeByLayer.execute`: one forward pass over the chunks of a G-code file that
    threads a scan state through every line, drops some lines, passes the others through
    and inserts override lines after the start layer's marker and restore lines before
    the end layer's marker. */
module Rewriter {
  import opened Wrappers
  import opened Text
  import opened Numbers
  import opened Extract
  import opened Gcode

  /** The value `current_layer` and `current_fan_layer` start from, below every layer
      the settings can name. */
  const Sentinel := -100000

  /** The script's `state`: always 1 ("activated"); the values 2 to 4 are never assigned. */
  const ScriptState := 1

  /** `oldValueUnknown`: never set, so the `M606` recall branch is never taken. */
  const OldValueUnknown := false

  /** The line Cura's engine writes at the top of every file it slices. */
  const GeneratedKey := ";Generated with Cura_SteamEngine"

  /** The flavour line of UltiGCode printers. */
  const FlavorKey := "FLAVOR:UltiGCode"

  /** The script's settings, as `getSettingValueByKey` hands them over. */
  datatype Config = Config(
    layerNumber: int,        // `layer_number`: the layer as numbered in the slicer's preview
    numberOfLayers: int,     // `number_of_layers`
    changePrintSpeed: bool,  // `change_print_speed`
    printSpeed: int,         // `print_speed`: percent of the sliced speed
    changeFanSpeed: bool,    // `change_fan_speed`
    fanSpeed: int)           // `fan_speed`: percent of full fan power
  {
    /** The bounds the settings schema declares for each value. */
    predicate Valid() {
      && layerNumber >= -100
      && numberOfLayers >= 1
      && printSpeed >= 1
      && 1 <= fanSpeed <= 100
    }

    /** `target_layer`: preview layers count from 1, `;LAYER:` markers from 0. */
    function TargetLayer(): (r: int) {
      layerNumber - 1
    }

    /** `total_layers = max(number_of_layers, 1)`. */
    function TotalLayers(): (r: int)
      ensures r >= 1 && r >= numberOfLayers
      ensures r == numberOfLayers || r == 1
    {
      if numberOfLayers > 1 then numberOfLayers else 1
    }

    /** `end_layer`: the first layer after the change. */
    function EndLayer(): (r: int)
      ensures r > TargetLayer()
    {
      TargetLayer() + TotalLayers()
    }

    /** `props[ch]["on"]` */
    predicate On(ch: Channel) {
      match ch
      case PrintSpeed => changePrintSpeed
      case FanSpeed => changeFanSpeed
    }

    /** `props[ch]["per"]`: the percentage the user entered. */
    function Percent(ch: Channel): (r: int) {
      match ch
      case PrintSpeed => printSpeed
      case FanSpeed => fanSpeed
    }

    /** `props[ch]["new"]`: the value an override sets. */
    function NewValue(ch: Channel): (r: Dec) {
      match ch
      case PrintSpeed => FromInt(printSpeed)
      case FanSpeed => FanDuty(fanSpeed)
    }
  }

  /** `255 * (p * .01)`: the fan power for `p` percent on the 0-255 scale of `M106`,
      computed exactly as `255 p / 100`. */
  function FanDuty(p: int): (d: Dec)
    ensures Value(d) == 255.0 * (p as real) / 100.0
    ensures d.scale == 2
  {
    Dec(p < 0, 255 * (if p < 0 then -p else p), 2)
  }

  /** The value a restore line sets for the print speed: `props["printSpeed"]["old"]`. */
  const PrintRestoreValue := FromInt(100)

  /** The variables `execute` carries from line to line and from chunk to chunk. */
  datatype ScanState = ScanState(
    instance: int,          // how many runs of the script the file records so far
    currentLayer: int,      // the layer of the last `;LAYER:` marker read
    currentFanLayer: int,   // the same, as tracked by the fan pre-scan
    doneLayers: int,        // how many start blocks have been generated
    isUM2: bool,            // an UltiGCode flavour line has been seen
    fanOld: Dec)            // `props["fanSpeed"]["old"]`: the fan value to restore

  /** The state before the first chunk. */
  const Initial := ScanState(0, Sentinel, Sentinel, 0, false, FromInt(0))

  /** The state within a chunk: the scan state and `speed_gcode`, the generated lines
      collected since the chunk began. */
  datatype LineState = LineState(scan: ScanState, speed: seq<Token>)

  /** The state after some lines, and the tokens they produced. */
  datatype Step = Step(state: LineState, out: seq<Token>)

  /** The start block: a header naming the instance, the layer and the layer count,
      then one override per enabled channel, print speed first. */
  function StartBlock(cfg: Config, instance: int, layer: int): (r: seq<Token>) {
    [StartHeader(instance, layer, cfg.TotalLayers())]
    + (if cfg.changePrintSpeed
       then [Override(PrintSpeed, cfg.NewValue(PrintSpeed), cfg.Percent(PrintSpeed))] else [])
    + (if cfg.changeFanSpeed
       then [Override(FanSpeed, cfg.NewValue(FanSpeed), cfg.Percent(FanSpeed))] else [])
  }

  /** One restore per enabled channel, print speed first: the print speed back to 100%,
      the fan to the value the pre-scan recorded. */
  function Restores(cfg: Config, fanOld: Dec): (r: seq<Token>) {
    (if cfg.changePrintSpeed then [Restore(PrintSpeed, PrintRestoreValue)] else [])
    + (if cfg.changeFanSpeed then [Restore(FanSpeed, fanOld)] else [])
  }

  /** The reset block: a header naming the last changed layer, then the restores (or the
      `M606` recall, on the branch `oldValueUnknown` closes). */
  function ResetBlock(cfg: Config, isUM2: bool, instance: int, layer: int, fanOld: Dec): (r: seq<Token>) {
    [ResetHeader(layer - 1)]
    + if isUM2 && OldValueUnknown then [Recall(instance - 1)] else Restores(cfg, fanOld)
  }

  /** A line that mentions a fan command. */
  predicate FanCommand(line: string) {
    Contains(line, "M106") || Contains(line, "M107")
  }

  /** A line `execute` never writes back: a motor-off or pause command, the dead `G1`
      clause, or an earlier instance annotation. */
  predicate Dropped(line: string) {
    || Contains(line, "M84")
    || Contains(line, "M25")
    || (Contains(line, "G1") && (ScriptState == 3 || ScriptState == 4))
    || Contains(line, InstancesKey)
  }

  /** `int(line[30:])` of an instance annotation, or `fallback` when it does not parse. */
  function AnnotatedCount(line: string, fallback: int): (r: int) {
    ParseInt(Drop(line, |InstancesKey|)).GetOr(fallback)
  }

  /** What a non-blank line at layer `layer` writes, `speed` being `speed_gcode`: nothing
      if it is dropped, the line and then the generated block at the start layer's marker,
      the block and then the line at the end layer's marker, nothing for a fan command
      within the start layer while the fan is being changed, and the line otherwise. */
  function Emit(cfg: Config, line: string, layer: int, speed: seq<Token>): (r: seq<Token>) {
    var marker := Contains(line, LayerKey);
    if Dropped(line) then []
    else if marker && layer == cfg.TargetLayer() then [Orig(line)] + speed
    else if marker && layer == cfg.EndLayer() then speed + [Orig(line)]
    else if cfg.changeFanSpeed && layer == cfg.TargetLayer() && FanCommand(line) then []
    else [Orig(line)]
  }

  /** The instance count after the `;Generated with` line check. */
  function Counted(instance: int, line: string): (r: int) {
    if Contains(line, GeneratedKey) then instance + 1 else instance
  }

  /** The annotation written in front of a `;Generated with` line. */
  function Note(instance: int, line: string): (r: seq<Token>) {
    if Contains(line, GeneratedKey) then [InstanceNote(instance + 1)] else []
  }

  /** The line is a `;LAYER:` marker of the start layer while start blocks remain. */
  predicate Starts(cfg: Config, sc: ScanState, line: string) {
    && Contains(line, LayerKey)
    && LayerValue(line, sc.currentLayer) == cfg.TargetLayer()
    && cfg.TotalLayers() - sc.doneLayers > 0
  }

  /** The line is a `;LAYER:` marker of the end layer. */
  predicate Ends(cfg: Config, sc: ScanState, line: string) {
    Contains(line, LayerKey) && LayerValue(line, sc.currentLayer) == cfg.EndLayer()
  }

  /** The scan state after a non-blank line: the instance count, the flavour flag and the
      current layer read from it, and one more start block counted if it starts one. */
  function Advance(cfg: Config, sc: ScanState, line: string): (r: ScanState)
    ensures sc.doneLayers <= r.doneLayers <= sc.doneLayers + 1
    ensures sc.doneLayers <= cfg.TotalLayers() ==> r.doneLayers <= cfg.TotalLayers()
    ensures r.doneLayers > sc.doneLayers ==> Contains(line, LayerKey) && r.currentLayer == cfg.TargetLayer()
    ensures r.currentFanLayer == sc.currentFanLayer && r.fanOld == sc.fanOld
  {
    var counted := Counted(sc.instance, line);
    sc.(instance := if Contains(line, InstancesKey) then AnnotatedCount(line, counted) else counted,
        currentLayer := LayerValue(line, sc.currentLayer),
        doneLayers := if Starts(cfg, sc, line) then sc.doneLayers + 1 else sc.doneLayers,
        isUM2 := Contains(line, FlavorKey) || sc.isUM2)
  }

  /** `speed_gcode` after a non-blank line: the start block appended at a start marker,
      then the reset block appended at an end marker. */
  function Collect(cfg: Config, s: LineState, line: string): (r: seq<Token>) {
    var next := Advance(cfg, s.scan, line);
    (if Starts(cfg, s.scan, line) then s.speed + StartBlock(cfg, next.instance, next.currentLayer) else s.speed)
    + (if Ends(cfg, s.scan, line)
       then ResetBlock(cfg, next.isUM2, next.instance, next.currentLayer, s.scan.fanOld) else [])
  }

  /** The body of the inner loop of `execute` for one line. */
  function StepLine(cfg: Config, s: LineState, line: string): (r: Step)
    ensures r.state.scan.doneLayers == s.scan.doneLayers
            || r.state.scan.doneLayers == s.scan.doneLayers + 1
    ensures s.scan.doneLayers <= cfg.TotalLayers() ==> r.state.scan.doneLayers <= cfg.TotalLayers()
    ensures r.state.scan.currentFanLayer == s.scan.currentFanLayer
    ensures r.state.scan.fanOld == s.scan.fanOld
  {
    if IsBlank(line) then Step(s, [])
    else
      var next := Advance(cfg, s.scan, line);
      var speed := Collect(cfg, s, line);
      Step(LineState(next, speed), Note(s.scan.instance, line) + Emit(cfg, line, next.currentLayer, speed))
  }

  /** The inner loop of `execute` over the lines of one chunk. */
  function RewriteLines(cfg: Config, s: LineState, lines: seq<string>): (r: Step)
    ensures s.scan.doneLayers <= cfg.TotalLayers() ==> r.state.scan.doneLayers <= cfg.TotalLayers()
    ensures r.state.scan.doneLayers >= s.scan.doneLayers
    ensures r.state.scan.currentFanLayer == s.scan.currentFanLayer
    ensures r.state.scan.fanOld == s.scan.fanOld
    decreases |lines|
  {
    if |lines| == 0 then Step(s, [])
    else
      var first := StepLine(cfg, s, lines[0]);
      var rest := RewriteLines(cfg, first.state, lines[1..]);
      Step(rest.state, first.out + rest.out)
  }

  /** What the fan pre-scan tracks: its own layer counter and the fan value to restore. */
  datatype FanScan = FanScan(layer: int, saved: Dec)

  /** Why `execute` stops: `float(line[6:])` raised on a fan line. */
  datatype Error = BadFanValue(line: string)

  /** The fan pre-scan of a chunk: follow the layer markers, and read the value of every
      `M106` line met while at the target layer; the last one read wins. */
  function PreScanFan(target: int, f: FanScan, lines: seq<string>): (r: Result<FanScan, Error>)
    decreases |lines|
  {
    if |lines| == 0 then Success(f)
    else
      var line := lines[0];
      var layer := LayerValue(line, f.layer);
      if Contains(line, "M106") && layer == target then
        match ParseFloat(Drop(line, 6))
        case None => Failure(BadFanValue(line))
        case Some(v) => PreScanFan(target, FanScan(layer, v), lines[1..])
      else PreScanFan(target, FanScan(layer, f.saved), lines[1..])
  }

  /** The state after a chunk, and the tokens of the text that replaces it. */
  datatype ChunkOut = ChunkOut(scan: ScanState, out: seq<Token>)

  /** One iteration of the outer loop of `execute`: the fan reset and pre-scan, then the
      rewrite of the chunk's lines with `speed_gcode` emptied. */
  function ProcessChunk(cfg: Config, s: ScanState, chunk: string): (r: Result<ChunkOut, Error>)
    ensures !Contains(chunk, "M106") ==> r.Success? && r.value.scan.currentFanLayer == s.currentFanLayer
    ensures (&& !Contains(chunk, "M106") && Contains(chunk, "M107")) ==> r.Success? && r.value.scan.fanOld == FromInt(0)
    ensures (&& !Contains(chunk, "M106") && !Contains(chunk, "M107")) ==> r.Success? && r.value.scan.fanOld == s.fanOld
    ensures r.Success? ==> r.value.scan.doneLayers >= s.doneLayers
    ensures r.Success? && s.doneLayers <= cfg.TotalLayers() ==> r.value.scan.doneLayers <= cfg.TotalLayers()
  {
    var old0 := if Contains(chunk, "M107") then FromInt(0) else s.fanOld;
    var fan :=
      if Contains(chunk, "M106") then PreScanFan(cfg.TargetLayer(), FanScan(s.currentFanLayer, old0), Split(chunk))
      else Success(FanScan(s.currentFanLayer, old0));
    match fan
    case Failure(e) => Failure(e)
    case Success(f) =>
      var r := RewriteLines(cfg, LineState(s.(currentFanLayer := f.layer, fanOld := f.saved), []), Split(chunk));
      Success(ChunkOut(r.state.scan, r.out))
  }

  /** One iteration of the outer loop, as a value: what `ProcessChunk` does under `cfg`. */
  function ChunkStep(cfg: Config): (step: (ScanState, string) -> Result<ChunkOut, Error>) {
    (x: ScanState, chunk: string) => ProcessChunk(cfg, x, chunk)
  }

  /** A loop over chunks that threads a scan state through `step`: one token sequence per
      chunk, or the first error. `execute`'s outer loop is this loop with `ChunkStep`. */
  function RunChunks(step: (ScanState, string) -> Result<ChunkOut, Error>, s: ScanState, chunks: seq<string>)
    : (r: Result<seq<seq<Token>>, Error>)
    ensures r.Success? ==> |r.value| == |chunks|
    decreases |chunks|
  {
    if |chunks| == 0 then Success([])
    else
      match step(s, chunks[0])
      case Failure(e) => Failure(e)
      case Success(c) =>
        match RunChunks(step, c.scan, chunks[1..])
        case Failure(e) => Failure(e)
        case Success(rest) => Success([c.out] + rest)
  }

  /** The state such a loop enters chunk `i` with: the state the chunks before it leave,
      or `s` again once one of them has failed. */
  function StateAt(step: (ScanState, string) -> Result<ChunkOut, Error>, s: ScanState, chunks: seq<string>, i: int)
    : (r: ScanState)
    requires 0 <= i <= |chunks|
    decreases i
  {
    if i == 0 then s
    else
      match step(s, chunks[0])
      case Failure(_) => s
      case Success(c) => StateAt(step, c.scan, chunks[1..], i - 1)
  }

  /** The outer loop of `execute` over the chunks, from state `s`: one token sequence per
      chunk, or the error that stopped the loop. */
  function ExecuteTokens(cfg: Config, s: ScanState, chunks: seq<string>): (r: Result<seq<seq<Token>>, Error>)
    ensures r.Success? ==> |r.value| == |chunks|
  {
    RunChunks(ChunkStep(cfg), s, chunks)
  }

  /** `execute(data)`: every chunk replaced by its rewritten text, or the error. */
  function Execute(cfg: Config, data: seq<string>): (r: Result<seq<string>, Error>)
    ensures r.Success? <==> ExecuteTokens(cfg, Initial, data).Success?
    ensures r.Success? ==> |r.value| == |data|
    ensures r.Success? ==> forall i :: 0 <= i < |data| ==> r.value[i] == Render(ExecuteTokens(cfg, Initial, data).value[i])
  {
    match ExecuteTokens(cfg, Initial, data)
    case Failure(e) => Failure(e)
    case Success(outs) => Success(seq(|outs|, i requires 0 <= i < |outs| => Render(outs[i])))
  }
}
