/** The G-code lines `execute` writes, as tokens: an original line passed through, or
    one of the script's own annotation, override and restore lines. Each token renders as
    one line followed by a line break, with the script's exact wording. */
module Gcode {
  import opened Text
  import opened Numbers

  /** `SpeedChangeByLayer.version`, printed in the start and reset headers. */
  const Version := "0.3.0"

  /** The annotation that records how many instances of the script have run. */
  const InstancesKey := ";SpeedChangeByLayer instances:"

  /** The two speeds the script can change: `props["printSpeed"]` and `props["fanSpeed"]`. */
  datatype Channel = PrintSpeed | FanSpeed

  datatype Token =
    | Orig(line: string)                                  // an input line, passed through
    | InstanceNote(count: int)                            // `;SpeedChangeByLayer instances: %d`
    | StartHeader(instance: int, layer: int, total: int)  // the comment opening a change
    | Override(channel: Channel, value: Dec, percent: int)  // `startStr` of an enabled channel
    | ResetHeader(layer: int)                             // the comment closing a change
    | Restore(channel: Channel, value: Dec)               // `endStr` of an enabled channel
    | Recall(slot: int)                                   // `M606`, on a branch that is never taken

  /** The instance annotation for count `n`, without its line break. */
  function AnnotationLine(n: int): (r: string) {
    InstancesKey + " " + IntToString(n)
  }

  /** The G-code command a channel is set with. */
  function Command(ch: Channel): (r: string) {
    match ch
    case PrintSpeed => "M220"
    case FanSpeed => "M106"
  }

  /** The comment opening a change: which instance, from which layer, for how many. */
  function StartText(inst: int, layer: int, total: int): (r: string) {
    ";SpeedChangeByLayer V" + Version + " instance #" + IntToString(inst)
    + ": Starting at layer " + IntToString(layer) + " for a total of " + IntToString(total)
    + (if total > 1 then " layers" else " layer")
  }

  /** The comment `startStr` puts after a new setting. */
  function OverrideComment(ch: Channel, p: int): (r: string) {
    match ch
    case PrintSpeed => " ;Print speed " + IntToString(p) + "% of original Cura speed"
    case FanSpeed => " ;Fan speed " + IntToString(p) + "% of 100% [% of 255]"
  }

  /** The comment `endStr` puts after a restored setting. */
  function RestoreComment(ch: Channel): (r: string) {
    match ch
    case PrintSpeed => " ;Resetting print speed"
    case FanSpeed => " ;Resetting fan speed"
  }

  /** A channel command with its `S` argument printed with six decimals. */
  function SetText(ch: Channel, value: Dec): (r: string) {
    Command(ch) + " S" + Format6(value)
  }

  /** The text of a token, without its line break. */
  function LineOf(t: Token): (r: string) {
    match t
    case Orig(line) => line
    case InstanceNote(n) => AnnotationLine(n)
    case StartHeader(inst, layer, total) => StartText(inst, layer, total)
    case Override(ch, value, p) => SetText(ch, value) + OverrideComment(ch, p)
    case ResetHeader(layer) => ";SpeedChangeByLayer V" + Version + ": Reset layer " + IntToString(layer)
    case Restore(ch, value) => SetText(ch, value) + RestoreComment(ch)
    case Recall(slot) => "M606 S" + IntToString(slot) + ";recalls saved settings"
  }

  /** The lines of a token sequence. */
  function Lines(ts: seq<Token>): (r: seq<string>) {
    seq(|ts|, i requires 0 <= i < |ts| => LineOf(ts[i]))
  }

  /** The text a token sequence stands for: every line followed by a line break. */
  function Render(ts: seq<Token>): (r: string) {
    if |ts| == 0 then [] else LineOf(ts[0]) + "\n" + Render(ts[1..])
  }

  /** The original lines a token sequence passes through, in order. */
  function Origs(ts: seq<Token>): (r: seq<string>) {
    if |ts| == 0 then []
    else (if ts[0].Orig? then [ts[0].line] else []) + Origs(ts[1..])
  }

  lemma OrigsAppend(a: seq<Token>, b: seq<Token>)
    ensures Origs(a + b) == Origs(a) + Origs(b)
  {
    if |a| > 0 {
      assert (a + b)[1..] == a[1..] + b;
      OrigsAppend(a[1..], b);
    } else {
      assert a + b == b;
    }
  }

  /** No passed-through line holds a line break. */
  predicate SingleLines(ts: seq<Token>) {
    forall i :: 0 <= i < |ts| ==> ts[i].Orig? ==> '\n' !in ts[i].line
  }

  /** A character that none of the script's own comment texts uses: the line break, and
      the letters that begin `M106` and `;LAYER:`'s `Y`. */
  predicate Foreign(c: char) {
    c == '\n' || c == 'M' || c == 'Y'
  }

  lemma DigitsAvoid(s: string, c: char)
    requires AllDigits(s) && !IsDigit(c)
    ensures c !in s
  {
    forall i | 0 <= i < |s| ensures s[i] != c {
      assert IsDigit(s[i]);
    }
  }

  lemma IntAvoids(i: int, c: char)
    requires !IsDigit(c) && c != '-'
    ensures c !in IntToString(i)
  {
    DigitsAvoid(NatToString(if i < 0 then -i else i), c);
  }

  lemma Format6Avoids(d: Dec, c: char)
    requires !IsDigit(c) && c != '-' && c != '.'
    ensures c !in Format6(d)
  {
    var m := Micros(d);
    var ip := NatToString(m / 1000000);
    var fp := FixedDigits(m, 6);
    DigitsAvoid(ip, c);
    DigitsAvoid(fp, c);
    assert c !in SignText(d.negative) && c !in ".";
    AppendAvoids(SignText(d.negative), ip, c);
    AppendAvoids(SignText(d.negative) + ip, ".", c);
    AppendAvoids(SignText(d.negative) + ip + ".", fp, c);
  }

  lemma AppendAvoids(a: string, b: string, c: char)
    requires c !in a && c !in b
    ensures c !in a + b
  {
  }

  /** The fixed pieces of the start header hold no foreign character. */
  lemma StartPiecesAvoid(c: char)
    requires Foreign(c)
    ensures c !in ";SpeedChangeByLayer V" && c !in Version && c !in " instance #"
    ensures c !in ": Starting at layer " && c !in " for a total of "
    ensures c !in " layers" && c !in " layer"
  {
    if c == '\n' { StartPiecesAvoidBreak(); }
    else if c == 'M' { StartPiecesAvoidM(); }
    else { StartPiecesAvoidY(); }
  }

  lemma StartPiecesAvoidBreak()
    ensures '\n' !in ";SpeedChangeByLayer V" && '\n' !in Version && '\n' !in " instance #"
    ensures '\n' !in ": Starting at layer " && '\n' !in " for a total of "
    ensures '\n' !in " layers" && '\n' !in " layer"
  {
  }

  lemma StartPiecesAvoidM()
    ensures 'M' !in ";SpeedChangeByLayer V" && 'M' !in Version && 'M' !in " instance #"
    ensures 'M' !in ": Starting at layer " && 'M' !in " for a total of "
    ensures 'M' !in " layers" && 'M' !in " layer"
  {
  }

  lemma StartPiecesAvoidY()
    ensures 'Y' !in ";SpeedChangeByLayer V" && 'Y' !in Version && 'Y' !in " instance #"
    ensures 'Y' !in ": Starting at layer " && 'Y' !in " for a total of "
    ensures 'Y' !in " layers" && 'Y' !in " layer"
  {
  }

  lemma StartTextAvoids(inst: int, layer: int, total: int, c: char)
    requires Foreign(c)
    ensures c !in StartText(inst, layer, total)
  {
    IntAvoids(inst, c);
    IntAvoids(layer, c);
    IntAvoids(total, c);
    StartPiecesAvoid(c);
    AppendAvoids(";SpeedChangeByLayer V", Version, c);
    AppendAvoids(";SpeedChangeByLayer V" + Version, " instance #", c);
    var a := ";SpeedChangeByLayer V" + Version + " instance #";
    AppendAvoids(a, IntToString(inst), c);
    AppendAvoids(a + IntToString(inst), ": Starting at layer ", c);
    var b := a + IntToString(inst) + ": Starting at layer ";
    AppendAvoids(b, IntToString(layer), c);
    AppendAvoids(b + IntToString(layer), " for a total of ", c);
    var e := b + IntToString(layer) + " for a total of ";
    AppendAvoids(e, IntToString(total), c);
    AppendAvoids(e + IntToString(total), if total > 1 then " layers" else " layer", c);
  }

  lemma OverrideCommentAvoids(ch: Channel, p: int, c: char)
    requires Foreign(c)
    ensures c !in OverrideComment(ch, p)
  {
    IntAvoids(p, c);
    if ch.PrintSpeed? {
      PrintCommentAvoids(p, c);
    } else {
      FanCommentAvoids(p, c);
    }
  }

  lemma PrintCommentAvoids(p: int, c: char)
    requires Foreign(c) && c !in IntToString(p)
    ensures c !in " ;Print speed " + IntToString(p) + "% of original Cura speed"
  {
    assert c !in " ;Print speed " && c !in "% of original Cura speed";
    AppendAvoids(" ;Print speed ", IntToString(p), c);
    AppendAvoids(" ;Print speed " + IntToString(p), "% of original Cura speed", c);
  }

  lemma FanCommentAvoids(p: int, c: char)
    requires Foreign(c) && c !in IntToString(p)
    ensures c !in " ;Fan speed " + IntToString(p) + "% of 100% [% of 255]"
  {
    assert c !in " ;Fan speed " && c !in "% of 100% [% of 255]";
    AppendAvoids(" ;Fan speed ", IntToString(p), c);
    AppendAvoids(" ;Fan speed " + IntToString(p), "% of 100% [% of 255]", c);
  }

  /** A set command holds no line break. */
  lemma SetTextNoBreak(ch: Channel, value: Dec)
    ensures '\n' !in SetText(ch, value)
  {
    Format6Avoids(value, '\n');
    assert '\n' !in Command(ch) + " S";
    AppendAvoids(Command(ch) + " S", Format6(value), '\n');
  }

  lemma OverrideNoBreak(ch: Channel, value: Dec, p: int)
    ensures '\n' !in SetText(ch, value) + OverrideComment(ch, p)
  {
    SetTextNoBreak(ch, value);
    OverrideCommentAvoids(ch, p, '\n');
    AppendAvoids(SetText(ch, value), OverrideComment(ch, p), '\n');
  }

  lemma RestoreNoBreak(ch: Channel, value: Dec)
    ensures '\n' !in SetText(ch, value) + RestoreComment(ch)
  {
    SetTextNoBreak(ch, value);
    assert '\n' !in RestoreComment(ch);
    AppendAvoids(SetText(ch, value), RestoreComment(ch), '\n');
  }

  /** Only a passed-through line can bring a line break into a token's text. */
  lemma LineOfNoBreak(t: Token)
    requires t.Orig? ==> '\n' !in t.line
    ensures '\n' !in LineOf(t)
  {
    match t
    case Orig(_) =>
    case InstanceNote(n) => AnnotationNoBreak(n);
    case StartHeader(inst, layer, total) => StartTextAvoids(inst, layer, total, '\n');
    case Override(ch, value, p) => OverrideNoBreak(ch, value, p);
    case ResetHeader(layer) => ResetNoBreak(layer);
    case Restore(ch, value) => RestoreNoBreak(ch, value);
    case Recall(slot) => RecallNoBreak(slot);
  }

  lemma AnnotationNoBreak(n: int)
    ensures '\n' !in AnnotationLine(n)
  {
    IntAvoids(n, '\n');
    assert '\n' !in InstancesKey + " ";
    AppendAvoids(InstancesKey + " ", IntToString(n), '\n');
  }

  lemma ResetNoBreak(layer: int)
    ensures '\n' !in ";SpeedChangeByLayer V" + Version + ": Reset layer " + IntToString(layer)
  {
    IntAvoids(layer, '\n');
    assert '\n' !in ";SpeedChangeByLayer V" + Version + ": Reset layer ";
    AppendAvoids(";SpeedChangeByLayer V" + Version + ": Reset layer ", IntToString(layer), '\n');
  }

  lemma RecallNoBreak(slot: int)
    ensures '\n' !in "M606 S" + IntToString(slot) + ";recalls saved settings"
  {
    IntAvoids(slot, '\n');
    assert '\n' !in "M606 S" && '\n' !in ";recalls saved settings";
    AppendAvoids("M606 S", IntToString(slot), '\n');
    AppendAvoids("M606 S" + IntToString(slot), ";recalls saved settings", '\n');
  }

  /** Whatever one token's line holds, the rendered text holds. */
  lemma {:induction false} RenderContains(ts: seq<Token>, i: int, p: string)
    requires 0 <= i < |ts| && Contains(LineOf(ts[i]), p)
    ensures Contains(Render(ts), p)
    decreases |ts|
  {
    if i > 0 {
      assert ts[1..][i - 1] == ts[i];
      RenderContains(ts[1..], i - 1, p);
    }
    ContainsAround(LineOf(ts[0]), Render(ts[1..]), p);
  }

  /** An occurrence on either side of a line break is an occurrence in the whole. */
  lemma ContainsAround(a: string, b: string, p: string)
    ensures Contains(a, p) ==> Contains(a + "\n" + b, p)
    ensures Contains(b, p) ==> Contains(a + "\n" + b, p)
  {
    ContainsAppend(a, "\n", p);
    ContainsAppend(a + "\n", b, p);
  }

  lemma {:induction false} RenderJoin(ts: seq<Token>)
    ensures Render(ts) == Join(Lines(ts) + [[]])
    decreases |ts|
  {
    if |ts| > 0 {
      RenderJoin(ts[1..]);
      var ls := Lines(ts) + [[]];
      assert ls[1..] == Lines(ts[1..]) + [[]];
      assert Join(ls) == ls[0] + "\n" + Join(ls[1..]);
    }
  }

  /** Splitting a rendered chunk at its line breaks gives one line per token, in order,
      and the empty text after the final line break. */
  lemma SplitRender(ts: seq<Token>)
    requires SingleLines(ts)
    ensures Split(Render(ts)) == Lines(ts) + [[]]
  {
    var ls := Lines(ts) + [[]];
    forall i | 0 <= i < |ls| ensures '\n' !in ls[i] {
      if i < |ts| {
        LineOfNoBreak(ts[i]);
      }
    }
    RenderJoin(ts);
    SplitJoin(ls);
  }

  /** The same, for lines given one by one. */
  lemma SplitRenderOf(ts: seq<Token>, ls: seq<string>)
    requires SingleLines(ts) && |ls| == |ts|
    requires forall i :: 0 <= i < |ts| ==> LineOf(ts[i]) == ls[i]
    ensures Split(Render(ts)) == ls + [[]]
  {
    SplitRender(ts);
    assert Lines(ts) == ls;
  }

  /** The lines of three and of four rendered tokens. */
  lemma SplitRenderThree(ts: seq<Token>)
    requires SingleLines(ts) && |ts| == 3
    ensures Split(Render(ts)) == [LineOf(ts[0]), LineOf(ts[1]), LineOf(ts[2]), []]
  {
    SplitRender(ts);
    LinesListed(ts);
  }

  lemma SplitRenderFour(ts: seq<Token>)
    requires SingleLines(ts) && |ts| == 4
    ensures Split(Render(ts)) == [LineOf(ts[0]), LineOf(ts[1]), LineOf(ts[2]), LineOf(ts[3]), []]
  {
    SplitRender(ts);
    LinesListed(ts);
  }

  lemma LinesListed(ts: seq<Token>)
    ensures |ts| == 3 ==> Lines(ts) + [[]] == [LineOf(ts[0]), LineOf(ts[1]), LineOf(ts[2]), []]
    ensures |ts| == 4 ==> Lines(ts) + [[]] == [LineOf(ts[0]), LineOf(ts[1]), LineOf(ts[2]), LineOf(ts[3]), []]
  {
  }
}
