/** Where the generated blocks land relative to the `;LAYER:` markers, how the instance
    count is carried through annotation lines, and the repeated start block that
    `speed_gcode` being emptied only per chunk produces. */
module Placement {
  import opened Text
  import opened Numbers
  import opened Extract
  import opened Gcode
  import opened Rewriter

  /** The marker line Cura writes at the start of layer `n`. */
  function MarkerLine(n: int): (r: string) {
    LayerKey + IntToString(n)
  }

  /** A line that is kept and is neither an instance line nor a `;Generated with` line. */
  predicate Plain(line: string) {
    !IsBlank(line) && !Dropped(line) && !Contains(line, GeneratedKey)
  }

  lemma MarkerAvoids(n: int, c: char)
    requires c != '-' && !IsDigit(c) && c !in LayerKey
    ensures c !in MarkerLine(n)
  {
    IntAvoids(n, c);
  }

  /** A marker line is plain, is a marker, and names its layer. */
  lemma MarkerLineFacts(n: int, layer: int)
    ensures Plain(MarkerLine(n))
    ensures Contains(MarkerLine(n), LayerKey)
    ensures LayerValue(MarkerLine(n), layer) == n
  {
    MarkerPlain(n);
    var line := MarkerLine(n);
    PrefixFound(line, LayerKey);
    LayerMarkerRoundTrip([], n, []);
    assert [] + LayerKey + IntToString(n) + [] == line;
  }

  lemma MarkerPlain(n: int)
    ensures Plain(MarkerLine(n))
  {
    var line := MarkerLine(n);
    assert line[0] == ';';
    assert !IsBlank(line) by { assert !IsSpace(line[0]); }
    MarkerAvoids(n, 'M');
    AbsentCharNotContained(line, "M84", 0);
    AbsentCharNotContained(line, "M25", 0);
    MarkerAvoids(n, 'S');
    AbsentCharNotContained(line, InstancesKey, 1);
    MarkerAvoids(n, 'G');
    AbsentCharNotContained(line, GeneratedKey, 1);
  }

  /** At the first start marker of a chunk, the marker line is written first and the
      start block right after it; one more start is counted. */
  lemma StartFollowsMarker(cfg: Config, s: LineState, line: string)
    requires s.speed == [] && Plain(line) && Contains(line, LayerKey)
    requires LayerValue(line, s.scan.currentLayer) == cfg.TargetLayer()
    requires s.scan.doneLayers < cfg.TotalLayers()
    ensures StepLine(cfg, s, line).out == [Orig(line)] + StartBlock(cfg, s.scan.instance, cfg.TargetLayer())
    ensures StepLine(cfg, s, line).state.speed == StartBlock(cfg, s.scan.instance, cfg.TargetLayer())
    ensures StepLine(cfg, s, line).state.scan.doneLayers == s.scan.doneLayers + 1
  {
    var sb := StartBlock(cfg, s.scan.instance, cfg.TargetLayer());
    StartCollect(cfg, s, line);
    EmitAtStart(cfg, line, sb);
  }

  /** At a start marker while start blocks remain, `speed_gcode` gains the start block. */
  lemma StartCollect(cfg: Config, s: LineState, line: string)
    requires s.speed == [] && !Contains(line, GeneratedKey) && !Contains(line, InstancesKey)
    requires Contains(line, LayerKey)
    requires LayerValue(line, s.scan.currentLayer) == cfg.TargetLayer()
    requires s.scan.doneLayers < cfg.TotalLayers()
    ensures Collect(cfg, s, line) == StartBlock(cfg, s.scan.instance, cfg.TargetLayer())
  {
    var sb := StartBlock(cfg, s.scan.instance, cfg.TargetLayer());
    assert Starts(cfg, s.scan, line) && !Ends(cfg, s.scan, line);
    assert Collect(cfg, s, line) == [] + sb + [];
  }

  /** A kept marker line at the start layer is written before the held block. */
  lemma EmitAtStart(cfg: Config, line: string, speed: seq<Token>)
    requires !Dropped(line) && Contains(line, LayerKey)
    ensures Emit(cfg, line, cfg.TargetLayer(), speed) == [Orig(line)] + speed
  {
  }

  /** At the first end marker of a chunk, the reset header naming the last changed layer
      and the restores come first and the marker line after them; no `M606` is written. */
  lemma ResetPrecedesMarker(cfg: Config, s: LineState, line: string)
    requires s.speed == [] && Plain(line) && Contains(line, LayerKey)
    requires LayerValue(line, s.scan.currentLayer) == cfg.EndLayer()
    ensures StepLine(cfg, s, line).out
            == [ResetHeader(cfg.EndLayer() - 1)] + Restores(cfg, s.scan.fanOld) + [Orig(line)]
    ensures StepLine(cfg, s, line).state.scan.doneLayers == s.scan.doneLayers
  {
    var rb := [ResetHeader(cfg.EndLayer() - 1)] + Restores(cfg, s.scan.fanOld);
    EndCollect(cfg, s, line);
    EmitAtEnd(cfg, line, rb);
  }

  /** At an end marker that is not a start marker, `speed_gcode` gains the reset block. */
  lemma EndCollect(cfg: Config, s: LineState, line: string)
    requires s.speed == [] && Contains(line, LayerKey)
    requires LayerValue(line, s.scan.currentLayer) == cfg.EndLayer()
    ensures Collect(cfg, s, line) == [ResetHeader(cfg.EndLayer() - 1)] + Restores(cfg, s.scan.fanOld)
  {
    assert !Starts(cfg, s.scan, line) && Ends(cfg, s.scan, line);
  }

  /** A kept marker line at the end layer is written after the held block. */
  lemma EmitAtEnd(cfg: Config, line: string, speed: seq<Token>)
    requires !Dropped(line) && Contains(line, LayerKey)
    ensures Emit(cfg, line, cfg.EndLayer(), speed) == speed + [Orig(line)]
  {
  }

  /** Rewriting two lines is stepping through one and then the other. */
  lemma RewriteTwo(cfg: Config, s: LineState, a: string, b: string)
    ensures RewriteLines(cfg, s, [a, b]).out
            == StepLine(cfg, s, a).out + StepLine(cfg, StepLine(cfg, s, a).state, b).out
    ensures RewriteLines(cfg, s, [a, b]).state == StepLine(cfg, StepLine(cfg, s, a).state, b).state
  {
    var first := StepLine(cfg, s, a);
    assert [a, b][1..] == [b];
    assert [b][1..] == [];
    var second := StepLine(cfg, first.state, b);
    assert RewriteLines(cfg, first.state, [b]).out == second.out + [];
  }

  /** When the start and the end marker share a chunk, `speed_gcode` still holds the start
      block at the end marker, so the start block is written a second time, right before
      the reset block. */
  lemma StartBlockRepeats(cfg: Config, s: LineState)
    requires s.speed == [] && s.scan.doneLayers < cfg.TotalLayers()
    ensures var sb := StartBlock(cfg, s.scan.instance, cfg.TargetLayer());
            RewriteLines(cfg, s, [MarkerLine(cfg.TargetLayer()), MarkerLine(cfg.EndLayer())]).out
            == [Orig(MarkerLine(cfg.TargetLayer()))] + sb + sb
               + [ResetHeader(cfg.EndLayer() - 1)] + Restores(cfg, s.scan.fanOld)
               + [Orig(MarkerLine(cfg.EndLayer()))]
  {
    var sb := StartBlock(cfg, s.scan.instance, cfg.TargetLayer());
    RepeatSteps(cfg, s);
    RepeatFromSteps(cfg, s, MarkerLine(cfg.TargetLayer()), MarkerLine(cfg.EndLayer()), sb,
                    ResetHeader(cfg.EndLayer() - 1), Restores(cfg, s.scan.fanOld));
  }

  lemma RepeatSteps(cfg: Config, s: LineState)
    requires s.speed == [] && s.scan.doneLayers < cfg.TotalLayers()
    ensures var t := MarkerLine(cfg.TargetLayer());
            var sb := StartBlock(cfg, s.scan.instance, cfg.TargetLayer());
            && StepLine(cfg, s, t).out == [Orig(t)] + sb
            && StepLine(cfg, StepLine(cfg, s, t).state, MarkerLine(cfg.EndLayer())).out
               == sb + ([ResetHeader(cfg.EndLayer() - 1)] + Restores(cfg, s.scan.fanOld))
                  + [Orig(MarkerLine(cfg.EndLayer()))]
  {
    var t := MarkerLine(cfg.TargetLayer());
    var sb := StartBlock(cfg, s.scan.instance, cfg.TargetLayer());
    assert StepLine(cfg, s, t).out == [Orig(t)] + sb
           && StepLine(cfg, s, t).state.speed == sb
           && StepLine(cfg, s, t).state.scan.fanOld == s.scan.fanOld by {
      MarkerLineFacts(cfg.TargetLayer(), s.scan.currentLayer);
      StartFollowsMarker(cfg, s, t);
    }
    EndMarkerStep(cfg, StepLine(cfg, s, t).state, sb);
  }

  lemma EndMarkerStep(cfg: Config, s: LineState, held: seq<Token>)
    requires s.speed == held
    ensures StepLine(cfg, s, MarkerLine(cfg.EndLayer())).out
            == held + ([ResetHeader(cfg.EndLayer() - 1)] + Restores(cfg, s.scan.fanOld))
               + [Orig(MarkerLine(cfg.EndLayer()))]
  {
    MarkerLineFacts(cfg.EndLayer(), s.scan.currentLayer);
    SecondBlockAtEnd(cfg, s, MarkerLine(cfg.EndLayer()), held);
  }

  lemma RepeatFromSteps(cfg: Config, s: LineState, t: string, e: string, sb: seq<Token>, h: Token, rs: seq<Token>)
    requires StepLine(cfg, s, t).out == [Orig(t)] + sb
    requires StepLine(cfg, StepLine(cfg, s, t).state, e).out == sb + ([h] + rs) + [Orig(e)]
    ensures RewriteLines(cfg, s, [t, e]).out == [Orig(t)] + sb + sb + [h] + rs + [Orig(e)]
  {
    RewriteTwo(cfg, s, t, e);
    Regroup(Orig(t), sb, h, rs, Orig(e));
  }

  lemma Regroup<T>(x: T, b: seq<T>, h: T, rs: seq<T>, y: T)
    ensures ([x] + b) + (b + ([h] + rs) + [y]) == [x] + b + b + [h] + rs + [y]
  {
  }

  /** At an end marker, whatever `speed_gcode` already holds is written again before the
      reset block. */
  lemma SecondBlockAtEnd(cfg: Config, s: LineState, line: string, held: seq<Token>)
    requires s.speed == held && Plain(line) && Contains(line, LayerKey)
    requires LayerValue(line, s.scan.currentLayer) == cfg.EndLayer()
    ensures StepLine(cfg, s, line).out
            == held + ([ResetHeader(cfg.EndLayer() - 1)] + Restores(cfg, s.scan.fanOld)) + [Orig(line)]
  {
    var rb := [ResetHeader(cfg.EndLayer() - 1)] + Restores(cfg, s.scan.fanOld);
    assert !Starts(cfg, s.scan, line);
    assert Collect(cfg, s, line) == held + rb;
    assert Note(s.scan.instance, line) == [];
  }
}
