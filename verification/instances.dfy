/** How `execute` counts its own instances: every `;Generated with` line bumps the count
    and gets an annotation in front of it, and an annotation left by an earlier run sets
    the count to the number it records and is itself dropped. */
module Instances {
  import opened Wrappers
  import opened Text
  import opened Numbers
  import opened Extract
  import opened Gcode
  import opened Rewriter
  import opened Placement
  import opened Properties

  /** A text holding an occurrence of `p` whose first character is not white space is
      not blank. */
  lemma ContainsNotBlank(s: string, p: string)
    requires |p| > 0 && !IsSpace(p[0]) && Contains(s, p)
    ensures !IsBlank(s)
  {
    IndexOfFirst(s, p);
    var k := IndexOf(s, p).value;
    assert s[k..k + |p|][0] == s[k];
  }

  lemma AnnotationAvoids(n: int, c: char)
    requires c == 'G' || c == 'Y' || c == 'F'
    ensures c !in AnnotationLine(n)
  {
    IntAvoids(n, c);
    AppendAvoids(InstancesKey + " ", IntToString(n), c);
  }

  /** The annotation starts with the instance key and reads back as its own count. */
  lemma AnnotationCount(n: int, fallback: int)
    ensures Contains(AnnotationLine(n), InstancesKey)
    ensures AnnotatedCount(AnnotationLine(n), fallback) == n
  {
    var line := AnnotationLine(n);
    assert line == InstancesKey + (" " + IntToString(n));
    assert line[..|InstancesKey|] == InstancesKey;
    PrefixFound(line, InstancesKey);
    assert Drop(line, |InstancesKey|) == " " + IntToString(n) + [];
    assert IsBlank(" ") && NumberBlank(" ");
    ParseIntOfIntToString(" ", n, []);
  }

  /** The annotation `execute` writes is an instance line, and nothing else the rewrite
      looks for: not a layer marker, not a `;Generated with` line, not a flavour line.
      Its count reads back as the number written. */
  lemma AnnotationLineFacts(n: int, fallback: int)
    ensures !IsBlank(AnnotationLine(n)) && Dropped(AnnotationLine(n))
    ensures Contains(AnnotationLine(n), InstancesKey)
    ensures !Contains(AnnotationLine(n), GeneratedKey)
    ensures !Contains(AnnotationLine(n), LayerKey)
    ensures !Contains(AnnotationLine(n), FlavorKey)
    ensures AnnotatedCount(AnnotationLine(n), fallback) == n
  {
    AnnotationCount(n, fallback);
    ContainsNotBlank(AnnotationLine(n), InstancesKey);
    AnnotationNotGenerated(n);
    AnnotationNotMarker(n);
    AnnotationNotFlavor(n);
  }

  lemma AnnotationNotGenerated(n: int)
    ensures !Contains(AnnotationLine(n), GeneratedKey)
  {
    AnnotationAvoids(n, 'G');
    AbsentCharNotContained(AnnotationLine(n), GeneratedKey, 1);
  }

  lemma AnnotationNotMarker(n: int)
    ensures !Contains(AnnotationLine(n), LayerKey)
  {
    AnnotationAvoids(n, 'Y');
    AbsentCharNotContained(AnnotationLine(n), LayerKey, 3);
  }

  lemma AnnotationNotFlavor(n: int)
    ensures !Contains(AnnotationLine(n), FlavorKey)
  {
    AnnotationAvoids(n, 'F');
    AbsentCharNotContained(AnnotationLine(n), FlavorKey, 0);
  }

  /** Any instance line that is neither a marker nor a `;Generated with` line sets the
      count to the number it records and writes nothing. */
  lemma InstanceLineStep(cfg: Config, s: LineState, line: string, n: int)
    requires !IsBlank(line) && Contains(line, InstancesKey)
    requires !Contains(line, GeneratedKey) && !Contains(line, LayerKey)
    requires AnnotatedCount(line, s.scan.instance) == n
    ensures StepLine(cfg, s, line).out == []
    ensures StepLine(cfg, s, line).state.scan.instance == n
    ensures StepLine(cfg, s, line).state.scan.currentLayer == s.scan.currentLayer
    ensures StepLine(cfg, s, line).state.scan.doneLayers == s.scan.doneLayers
    ensures StepLine(cfg, s, line).state.speed == s.speed
  {
    LayerValueAgrees(line, s.scan.currentLayer);
    assert !Starts(cfg, s.scan, line) && !Ends(cfg, s.scan, line);
    assert Note(s.scan.instance, line) == [] && Dropped(line);
  }

  /** Stepping over an earlier annotation sets the instance count to the number it
      records, writes nothing, and leaves the layer, the start count and `speed_gcode`
      alone. */
  lemma AnnotationResetsCount(cfg: Config, s: LineState, n: int)
    ensures StepLine(cfg, s, AnnotationLine(n)).out == []
    ensures StepLine(cfg, s, AnnotationLine(n)).state.scan.instance == n
    ensures StepLine(cfg, s, AnnotationLine(n)).state.scan.currentLayer == s.scan.currentLayer
    ensures StepLine(cfg, s, AnnotationLine(n)).state.scan.doneLayers == s.scan.doneLayers
    ensures StepLine(cfg, s, AnnotationLine(n)).state.speed == s.speed
  {
    AnnotationLineFacts(n, s.scan.instance);
    InstanceLineStep(cfg, s, AnnotationLine(n), n);
  }

  /** A `;Generated with` line bumps the instance count by one and is preceded by the
      annotation of the new count. */
  lemma GeneratedCounts(cfg: Config, s: LineState, g: string)
    requires Contains(g, GeneratedKey) && !Contains(g, InstancesKey)
    ensures StepLine(cfg, s, g).state.scan.instance == s.scan.instance + 1
    ensures |StepLine(cfg, s, g).out| >= 1
    ensures StepLine(cfg, s, g).out[0] == InstanceNote(s.scan.instance + 1)
  {
    ContainsNotBlank(g, GeneratedKey);
  }

  /** Run over text an earlier run annotated with count `n`, the script counts itself as
      instance `n + 1` and writes that count in front of the `;Generated with` line. */
  lemma RerunCountsOn(cfg: Config, s: LineState, n: int, g: string)
    requires Contains(g, GeneratedKey) && !Contains(g, InstancesKey)
    ensures RewriteLines(cfg, s, [LineOf(InstanceNote(n)), g]).state.scan.instance == n + 1
    ensures |RewriteLines(cfg, s, [LineOf(InstanceNote(n)), g]).out| >= 1
    ensures RewriteLines(cfg, s, [LineOf(InstanceNote(n)), g]).out[..1] == [InstanceNote(n + 1)]
  {
    var a := LineOf(InstanceNote(n));
    RewriteTwo(cfg, s, a, g);
    AnnotationResetsCount(cfg, s, n);
    GeneratedCounts(cfg, StepLine(cfg, s, a).state, g);
  }

  /** Run again over a file whose chunk `k` an earlier run began with its annotation of
      count `n` and the `;Generated with` line, `execute` writes the annotation of count
      `n + 1` as the first line of that chunk. */
  lemma RerunExecuteCountsOn(cfg: Config, data: seq<string>, k: int, n: int, g: string, rest: seq<Token>)
    requires 0 <= k < |data| && Execute(cfg, data).Success?
    requires Contains(g, GeneratedKey) && !Contains(g, InstancesKey)
    requires SingleLines([InstanceNote(n), Orig(g)] + rest)
    requires data[k] == Render([InstanceNote(n), Orig(g)] + rest)
    ensures AnnotationLine(n + 1) + "\n" <= Execute(cfg, data).value[k]
  {
    var x := StateAt(ChunkStep(cfg), Initial, data, k);
    ExecuteAt(cfg, Initial, data, k);
    AnnotatedChunkLines(n, g, rest);
    ChunkCountsOn(cfg, x, data[k], n, g, Lines(rest) + [[]]);
    RenderHead(ProcessChunk(cfg, x, data[k]).value.out);
  }

  /** The lines of an annotated chunk: the annotation, the `;Generated with` line, the rest
      and the empty text after the final line break. */
  lemma AnnotatedChunkLines(n: int, g: string, rest: seq<Token>)
    requires SingleLines([InstanceNote(n), Orig(g)] + rest)
    ensures Split(Render([InstanceNote(n), Orig(g)] + rest)) == [AnnotationLine(n), g] + (Lines(rest) + [[]])
  {
    SplitRender([InstanceNote(n), Orig(g)] + rest);
    LinesFront(InstanceNote(n), Orig(g), rest);
  }

  lemma LinesFront(a: Token, b: Token, rest: seq<Token>)
    ensures Lines([a, b] + rest) == [LineOf(a), LineOf(b)] + Lines(rest)
  {
    LinesAppend([a, b], rest);
    LinesPair(a, b);
  }

  lemma LinesPair(a: Token, b: Token)
    ensures Lines([a, b]) == [LineOf(a), LineOf(b)]
  {
    assert Lines([a, b])[0] == LineOf(a);
  }

  /** A chunk whose lines begin with an annotation of count `n` and the `;Generated with`
      line rewrites to tokens that begin with the annotation of count `n + 1`. */
  lemma ChunkCountsOn(cfg: Config, x: ScanState, chunk: string, n: int, g: string, more: seq<string>)
    requires Split(chunk) == [AnnotationLine(n), g] + more
    requires Contains(g, GeneratedKey) && !Contains(g, InstancesKey)
    requires ProcessChunk(cfg, x, chunk).Success?
    ensures |ProcessChunk(cfg, x, chunk).value.out| >= 1
    ensures ProcessChunk(cfg, x, chunk).value.out[0] == InstanceNote(n + 1)
  {
    var old0 := if Contains(chunk, "M107") then FromInt(0) else x.fanOld;
    var fan :=
      if Contains(chunk, "M106") then PreScanFan(cfg.TargetLayer(), FanScan(x.currentFanLayer, old0), Split(chunk))
      else Success(FanScan(x.currentFanLayer, old0));
    var f := fan.value;
    RewriteFront(cfg, LineState(x.(currentFanLayer := f.layer, fanOld := f.saved), []), n, g, more);
  }

  /** Rewriting lines that begin with an annotation of count `n` and the `;Generated with`
      line writes the annotation of count `n + 1` first. */
  lemma RewriteFront(cfg: Config, s: LineState, n: int, g: string, more: seq<string>)
    requires Contains(g, GeneratedKey) && !Contains(g, InstancesKey)
    ensures |RewriteLines(cfg, s, [AnnotationLine(n), g] + more).out| >= 1
    ensures RewriteLines(cfg, s, [AnnotationLine(n), g] + more).out[0] == InstanceNote(n + 1)
  {
    var lines := [AnnotationLine(n), g] + more;
    assert lines[0] == AnnotationLine(n);
    assert lines[1..] == [g] + more;
    assert ([g] + more)[0] == g && ([g] + more)[1..] == more;
    AnnotationResetsCount(cfg, s, n);
    GeneratedCounts(cfg, StepLine(cfg, s, AnnotationLine(n)).state, g);
  }

  /** A rendered token sequence begins with its first token's line and a line break. */
  lemma RenderHead(ts: seq<Token>)
    requires |ts| >= 1
    ensures LineOf(ts[0]) + "\n" <= Render(ts)
  {
  }

  /** No instance annotation among `ts`. */
  predicate NoNote(ts: seq<Token>) {
    forall i :: 0 <= i < |ts| ==> !ts[i].InstanceNote?
  }

  /** The first instance annotation among `ts` has count `m`. */
  predicate FirstNote(ts: seq<Token>, m: int) {
    exists j :: 0 <= j < |ts| && ts[j] == InstanceNote(m) && NoNote(ts[..j])
  }

  /** Run again over a file whose chunk `k` holds an earlier run's annotation of count `n`
      right before the `;Generated with` line, after any header lines without that key,
      `execute` writes the annotation of count `n + 1` as the first annotation of that
      chunk. */
  lemma RerunFileCountsOn(cfg: Config, data: seq<string>, k: int, pre: seq<Token>, n: int, g: string,
                          rest: seq<Token>)
    requires 0 <= k < |data| && Execute(cfg, data).Success?
    requires forall i :: 0 <= i < |pre| ==> !Contains(LineOf(pre[i]), GeneratedKey)
    requires Contains(g, GeneratedKey) && !Contains(g, InstancesKey)
    requires SingleLines(pre + ([InstanceNote(n), Orig(g)] + rest))
    requires data[k] == Render(pre + ([InstanceNote(n), Orig(g)] + rest))
    ensures FirstNote(ExecuteTokens(cfg, Initial, data).value[k], n + 1)
  {
    ExecuteAt(cfg, Initial, data, k);
    RenderedChunkCountsOn(cfg, StateAt(ChunkStep(cfg), Initial, data, k), data[k], pre, n, g, rest);
  }

  /** The chunk-level form: a rendered chunk with header tokens, the annotation of count
      `n` and the `;Generated with` line rewrites to tokens whose first annotation has
      count `n + 1`. */
  lemma RenderedChunkCountsOn(cfg: Config, x: ScanState, chunk: string, pre: seq<Token>, n: int, g: string,
                              rest: seq<Token>)
    requires forall i :: 0 <= i < |pre| ==> !Contains(LineOf(pre[i]), GeneratedKey)
    requires Contains(g, GeneratedKey) && !Contains(g, InstancesKey)
    requires SingleLines(pre + ([InstanceNote(n), Orig(g)] + rest))
    requires chunk == Render(pre + ([InstanceNote(n), Orig(g)] + rest))
    requires ProcessChunk(cfg, x, chunk).Success?
    ensures FirstNote(ProcessChunk(cfg, x, chunk).value.out, n + 1)
  {
    HeaderChunkLines(pre, n, g, rest);
    HeaderLinesClean(pre);
    ChunkCountsOnAfter(cfg, x, chunk, Lines(pre), n, g, Lines(rest) + [[]]);
  }

  lemma HeaderLinesClean(pre: seq<Token>)
    requires forall i :: 0 <= i < |pre| ==> !Contains(LineOf(pre[i]), GeneratedKey)
    ensures forall i :: 0 <= i < |Lines(pre)| ==> !Contains(Lines(pre)[i], GeneratedKey)
  {
  }

  /** The lines of a chunk with header lines, the annotation, the `;Generated with` line
      and the rest. */
  lemma HeaderChunkLines(pre: seq<Token>, n: int, g: string, rest: seq<Token>)
    requires SingleLines(pre + ([InstanceNote(n), Orig(g)] + rest))
    ensures Split(Render(pre + ([InstanceNote(n), Orig(g)] + rest)))
            == Lines(pre) + ([AnnotationLine(n), g] + (Lines(rest) + [[]]))
  {
    var ts := pre + ([InstanceNote(n), Orig(g)] + rest);
    SplitRender(ts);
    LinesAppend(pre, [InstanceNote(n), Orig(g)] + rest);
    LinesFront(InstanceNote(n), Orig(g), rest);
  }

  lemma LinesAppend(a: seq<Token>, b: seq<Token>)
    ensures Lines(a + b) == Lines(a) + Lines(b)
  {
  }

  /** A chunk whose lines hold an annotation of count `n` and then the `;Generated with`
      line, after lines without that key, rewrites to tokens whose first annotation has
      count `n + 1`. */
  lemma ChunkCountsOnAfter(cfg: Config, x: ScanState, chunk: string, header: seq<string>, n: int, g: string,
                           more: seq<string>)
    requires Split(chunk) == header + ([AnnotationLine(n), g] + more)
    requires forall i :: 0 <= i < |header| ==> !Contains(header[i], GeneratedKey)
    requires Contains(g, GeneratedKey) && !Contains(g, InstancesKey)
    requires ProcessChunk(cfg, x, chunk).Success?
    ensures FirstNote(ProcessChunk(cfg, x, chunk).value.out, n + 1)
  {
    var old0 := if Contains(chunk, "M107") then FromInt(0) else x.fanOld;
    var fan :=
      if Contains(chunk, "M106") then PreScanFan(cfg.TargetLayer(), FanScan(x.currentFanLayer, old0), Split(chunk))
      else Success(FanScan(x.currentFanLayer, old0));
    var f := fan.value;
    RewriteAfter(cfg, LineState(x.(currentFanLayer := f.layer, fanOld := f.saved), []), header, n, g, more);
  }

  /** Rewriting header lines without the `;Generated with` key, then an annotation of count
      `n` and the `;Generated with` line, writes no annotation before the one of count
      `n + 1`: the header lines write none, and `speed_gcode` never holds one. */
  lemma RewriteAfter(cfg: Config, s: LineState, header: seq<string>, n: int, g: string, more: seq<string>)
    requires NoNote(s.speed)
    requires forall i :: 0 <= i < |header| ==> !Contains(header[i], GeneratedKey)
    requires Contains(g, GeneratedKey) && !Contains(g, InstancesKey)
    ensures FirstNote(RewriteLines(cfg, s, header + ([AnnotationLine(n), g] + more)).out, n + 1)
  {
    var tail := [AnnotationLine(n), g] + more;
    var h := RewriteLines(cfg, s, header);
    RewriteAppend(cfg, s, header, tail);
    HeaderNoNote(cfg, s, header);
    RewriteFront(cfg, h.state, n, g, more);
    FirstNoteAfter(h.out, RewriteLines(cfg, h.state, tail).out, n + 1);
  }

  /** Tokens without an annotation, followed by tokens that begin with the annotation of
      count `m`. */
  lemma FirstNoteAfter(a: seq<Token>, b: seq<Token>, m: int)
    requires NoNote(a) && |b| >= 1 && b[0] == InstanceNote(m)
    ensures FirstNote(a + b, m)
  {
    assert (a + b)[|a|] == InstanceNote(m);
    assert (a + b)[..|a|] == a;
  }

  /** Rewriting `a + b` is rewriting `a` and then `b` from the state `a` leaves. */
  lemma {:induction false} RewriteAppend(cfg: Config, s: LineState, a: seq<string>, b: seq<string>)
    ensures RewriteLines(cfg, s, a + b).out
            == RewriteLines(cfg, s, a).out + RewriteLines(cfg, RewriteLines(cfg, s, a).state, b).out
    decreases |a|
  {
    if |a| == 0 {
      assert a + b == b;
    } else {
      var first := StepLine(cfg, s, a[0]);
      assert (a + b)[0] == a[0];
      assert (a + b)[1..] == a[1..] + b;
      RewriteAppend(cfg, first.state, a[1..], b);
    }
  }

  /** Lines without the `;Generated with` key write no annotation, from a state whose
      `speed_gcode` holds none, and leave `speed_gcode` without one. */
  lemma {:induction false} HeaderNoNote(cfg: Config, s: LineState, header: seq<string>)
    requires NoNote(s.speed)
    requires forall i :: 0 <= i < |header| ==> !Contains(header[i], GeneratedKey)
    ensures NoNote(RewriteLines(cfg, s, header).out)
    ensures NoNote(RewriteLines(cfg, s, header).state.speed)
    decreases |header|
  {
    if |header| > 0 {
      var first := StepLine(cfg, s, header[0]);
      StepNoNote(cfg, s, header[0]);
      HeaderNoNote(cfg, first.state, header[1..]);
      NoNoteAppend(first.out, RewriteLines(cfg, first.state, header[1..]).out);
    }
  }

  /** A non-`;Generated with` line writes no annotation, and `speed_gcode` stays free of
      them. */
  lemma StepNoNote(cfg: Config, s: LineState, line: string)
    requires NoNote(s.speed) && !Contains(line, GeneratedKey)
    ensures NoNote(StepLine(cfg, s, line).out)
    ensures NoNote(StepLine(cfg, s, line).state.speed)
  {
    if !IsBlank(line) {
      var next := Advance(cfg, s.scan, line);
      CollectNoNote(cfg, s, line);
      EmitNoNote(cfg, line, next.currentLayer, Collect(cfg, s, line));
    }
  }

  lemma CollectNoNote(cfg: Config, s: LineState, line: string)
    requires NoNote(s.speed)
    ensures NoNote(Collect(cfg, s, line))
  {
    var next := Advance(cfg, s.scan, line);
    var start := if Starts(cfg, s.scan, line) then s.speed + StartBlock(cfg, next.instance, next.currentLayer) else s.speed;
    var reset := if Ends(cfg, s.scan, line)
       then ResetBlock(cfg, next.isUM2, next.instance, next.currentLayer, s.scan.fanOld) else [];
    NoNoteAppend(s.speed, StartBlock(cfg, next.instance, next.currentLayer));
    NoNoteAppend(start, reset);
  }

  lemma EmitNoNote(cfg: Config, line: string, layer: int, speed: seq<Token>)
    requires NoNote(speed)
    ensures NoNote(Emit(cfg, line, layer, speed))
  {
    NoNoteAppend([Orig(line)], speed);
    NoNoteAppend(speed, [Orig(line)]);
  }

  lemma NoNoteAppend(a: seq<Token>, b: seq<Token>)
    requires NoNote(a) && NoNote(b)
    ensures NoNote(a + b)
  {
    forall i | 0 <= i < |a + b| ensures !(a + b)[i].InstanceNote? {
      if i < |a| { assert (a + b)[i] == a[i]; } else { assert (a + b)[i] == b[i - |a|]; }
    }
  }
}
