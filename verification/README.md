# SpeedChangeByLayer, modelled in Dafny

This project models the core of `SpeedChangeByLayer`, a Cura post-processing script. It
changes the print speed (`M220`) and/or the fan speed (`M106`) for a run of layers of a
sliced G-code file. The file arrives as a list of text chunks (`data`). `execute` walks
these chunks once and threads a scan state through them:

- For each chunk it resets the fan value to 0 after an `M107`. If the chunk holds an
  `M106`, a pre-scan records the fan value to restore later: the last `M106` read at
  the start layer.
- Each non-blank line then updates the instance count, the UltiGCode flag and the
  current layer.
- At the start layer's `;LAYER:` marker (while start blocks remain), a start block is
  collected: a header comment and one override line per enabled channel.
- At the end layer's marker, a reset block is collected: a header and one restore line
  per enabled channel.
- Lines are then written back, dropped, or suppressed. Existing fan commands inside the
  start layer are suppressed when the fan change is on. The collected block is written
  after the start marker and before the end marker.

`getValue(line, key, default)` is the script's own value extractor. It is honest about
`;` comments and has three anchored patterns, one per kind of key.

The model is pure and functional:

- Numbers are exact decimals: `Dec(negative, magnitude, scale)`.
- Python's `int()` and `float()` on ASCII decimal text, `str()`, `'%f'`/`format(…, '.6f')`,
  `str.strip`, `str.find`, `in` and `split("\n")` are written out in `Text` and `Numbers`.
  `int()` and `float()` skip only the ASCII space and `\t` to `\r` around a number, while
  `str.strip` also counts the separators `\x1C` to `\x1F` as white space; the model keeps
  the two apart.
- Output is a sequence of `Token`s per chunk, and `Gcode.Render` turns it into text.
- The `ValueError` that `float(line[6:])` can raise becomes a `Failure`.

Modules, in dependency order:

- `Wrappers`: Option and Result.
- `Text`
- `Numbers`
- `Extract`: `getValue`.
- `Gcode`: the lines the script writes.
- `Rewriter`: `execute`, made of the pre-scan, the line step, the chunk step and the
  chunk loop.
- Modules of properties:
  - `Placement`: where the blocks go.
  - `Instances`: instance counting.
  - `FanRestore`: the fan pre-scan and restore values.
  - `Properties`: whole-run soundness, the order of passed-through lines, and the
    no-match case.
- `CorrectedPreScan`: the repaired pre-scan of the finding below.
- `ReadingsDiffer`: fan lines on which the repaired reading and `float()` disagree.

Behaviour worth knowing, proved as stated:

- `speed_gcode` is emptied only once per chunk. When the start and end markers fall in
  the same chunk, the start block is written a second time right before the reset block
  (`Placement.StartBlockRepeats`).
- So the number of start headers in the output can exceed `total_layers`. With
  `number_of_layers = 1`, such a chunk carries two start headers.
- `done_layers` itself never passes `total_layers` (`Properties.DoneBounded`).
- The script's `state` is always 1 and `oldValueUnknown` is always false. So the
  `G1`-dropping branch and the `M606` recall branch are present in the model but can
  never be taken, and no `M606` line is ever written (`Properties.ExecuteSound`).

## Model

| member | source | states |
|---|---|---|
| Extract.GetValue | SpeedChangeByLayer.py:128-131 | A key absent from the line gives the default. So does an ordinary key whose first occurrence comes after the line's first `;`. |
| Extract.GetValueCases | SpeedChangeByLayer.py:132-145 | Reading starts right after the key's first occurrence. `;SpeedChangeByLayer` keys read one digit 0-4, else the default. `;LAYER:` keys read a signed digit run, or the default when no digit follows the sign. Ordinary keys give the default when `-?[0-9]*\.?[0-9]*` matches no digit. |
| Extract.PointLiteralRead | SpeedChangeByLayer.py:137-143 | After an ordinary key, a literal with a point and a digit on at least one side (`S5.`, `S.5`, `S-0.25`) reads as its digits over the power of ten its fraction digits give, whatever follows the last digit. |
| Extract.IntegerLiteralRead | SpeedChangeByLayer.py:137-143 | After an ordinary key, a digit run with an optional minus and no point after it (`S255`, `S-3`) reads as that integer. |
| Extract.ValueTextAfter | SpeedChangeByLayer.py:129-132 | With no `;` and no earlier occurrence before it, the text after `pre + key` is what is read. |
| Extract.LayerMarkerRoundTrip | SpeedChangeByLayer.py:135-143 | `;LAYER:` followed by `str(n)` and a non-digit, after any comment-free prefix, reads back as `n`. |
| Extract.DecimalRoundTrip | SpeedChangeByLayer.py:137-143 | An ordinary key followed by a six-decimal rendering of `d` and a non-digit reads back as `d` rounded to six decimals. |
| Extract.LayerValueAgrees | SpeedChangeByLayer.py:180-181 | The layer counters' update is `getValue(line, ";LAYER:", current)`, and a line without a marker leaves the layer unchanged. |
| Text.IndexOfFirst | SpeedChangeByLayer.py:129-132 | `find` gives the lowest index of an occurrence, and none exactly when there is no occurrence. |
| Text.JoinSplit | SpeedChangeByLayer.py:178 | Joining the pieces of `split("\n")` gives back the chunk. |
| Text.SplitJoin | SpeedChangeByLayer.py:186 | Splitting a join of pieces without line breaks gives back the pieces. |
| Numbers.TrimLeft | SpeedChangeByLayer.py:196 | Before the number, `int()` and `float()` skip exactly the leading run of the space and `\t` to `\r`, and nothing else. |
| Numbers.SeparatorRejected | SpeedChangeByLayer.py:196 | A `\x1C` to `\x1F` separator anywhere in the text makes `int()` and `float()` raise. |
| Numbers.ParseIntOfIntToString | SpeedChangeByLayer.py:192-196 | `int()` of `str(i)` with white space around it gives `i` exactly when that white space holds no `\x1C` to `\x1F` separator, and raises otherwise: the count an annotation records reads back. |
| Numbers.Format6RoundTrip | SpeedChangeByLayer.py:208 | `float()` reads a six-decimal rendering back as the value rounded to six decimals. |
| Numbers.Format6ThenCommentRejected | SpeedChangeByLayer.py:183 | `float()` rejects a six-decimal rendering followed by a space and a comment. |
| Numbers.Format6Exact | SpeedChangeByLayer.py:208 | Rendering a value with at most six decimals at six decimals loses nothing. |
| Numbers.RoundHalfEvenNearest | SpeedChangeByLayer.py:218 | The rendering's rounding picks a nearest multiple, and the even one on a tie. |
| Rewriter.FanDuty | SpeedChangeByLayer.py:158 | The fan override value is exactly `255 p / 100`, with two decimals. |
| Rewriter.Advance | SpeedChangeByLayer.py:190-209 | A line counts at most one more start block, never beyond `total_layers`, and only at a marker that puts the layer at the start layer. |
| Rewriter.StepLine | SpeedChangeByLayer.py:187-235 | One line moves the start count by at most one, keeps it within `total_layers`, and leaves the fan pre-scan's state alone. |
| Rewriter.RewriteLines | SpeedChangeByLayer.py:186-235 | The same facts hold over all of a chunk's lines. |
| Rewriter.ProcessChunk | SpeedChangeByLayer.py:174-237 | A chunk without `M106` cannot fail. It keeps the fan layer, and its fan value is 0 after an `M107`, else unchanged. The start count never falls and stays within `total_layers`. |
| Rewriter.RunChunks | SpeedChangeByLayer.py:174-237 | A successful loop gives one output per chunk. |
| Rewriter.Execute | SpeedChangeByLayer.py:147-238 | `execute` fails exactly when its chunk loop fails. Otherwise it returns one rendered text per input chunk, chunk `i` being the loop's tokens for chunk `i`. |
| Placement.MarkerLineFacts | SpeedChangeByLayer.py:200-201 | A marker line `;LAYER:n` is kept, is a marker, and moves the current layer to `n`. |
| Placement.StartFollowsMarker | SpeedChangeByLayer.py:200-209 | At the first start marker of a chunk, the marker is written first and the start block right after it, and one more start is counted. |
| Placement.ResetPrecedesMarker | SpeedChangeByLayer.py:211-225 | At the first end marker of a chunk, the reset header for layer `end - 1` and the restores come first, then the marker. No start is counted. |
| Placement.StartBlockRepeats | SpeedChangeByLayer.py:185-225 | Start and end markers in one chunk give: marker, start block, start block again, reset header, restores, end marker. |
| Instances.AnnotationCount | SpeedChangeByLayer.py:192-199 | The annotation written for count `n` reads back as `n`. |
| Instances.AnnotationResetsCount | SpeedChangeByLayer.py:194-199 | An earlier annotation sets the count to the number it records. It writes nothing and changes neither the layer, the start count nor `speed_gcode`. |
| Instances.GeneratedCounts | SpeedChangeByLayer.py:190-192 | A `;Generated with` line bumps the count by one, and the new count's annotation comes first. |
| Instances.RerunCountsOn | SpeedChangeByLayer.py:190-199 | After an earlier annotation `n`, the next `;Generated with` line is annotated `n + 1`. |
| Instances.RerunExecuteCountsOn | SpeedChangeByLayer.py:186-236 | When `execute` succeeds on a file whose chunk `k` an earlier run began with annotation `n` and the `;Generated with` line, output chunk `k` begins with the annotation line of `n + 1`. |
| Instances.RerunFileCountsOn | SpeedChangeByLayer.py:186-199 | When `execute` succeeds on a file whose chunk `k` holds an earlier run's annotation `n` right before the `;Generated with` line, after any header lines (`;FLAVOR:`, `;TIME:`, …) without that key, the first annotation in output chunk `k` is `n + 1`. |
| FanRestore.PreScanMeaning | SpeedChangeByLayer.py:177-183 | The pre-scan fails exactly when a line it reads does not parse. It reads the `M106` lines met at the start layer, per a reference definition. It keeps the last value read and ends at the layer the markers lead to. |
| FanRestore.ChunkFanMeaning | SpeedChangeByLayer.py:175-183 | A chunk fails exactly when it holds `M106` and a line read does not parse. Otherwise its fan value is the last one read, starting from 0 after `M107`. |
| FanRestore.ChunkRestoreValue | SpeedChangeByLayer.py:175-218 | Every fan restore a chunk writes carries the last value its pre-scan read, or the chunk's starting value when it has no `M106`. |
| FanRestore.ChunkRestores | SpeedChangeByLayer.py:216-218 | Every fan restore a chunk writes carries the fan value the chunk leaves. |
| FanRestore.OverrideReadsBack | SpeedChangeByLayer.py:148-158 | Read with `getValue`, an override line gives back the print percentage or exactly `255 p / 100`. |
| FanRestore.FanOverrideUnreadable | SpeedChangeByLayer.py:155 | The fan override is an `M106` line whose `float(line[6:])` raises. |
| FanRestore.StackedFanChangeFails | SpeedChangeByLayer.py:177-183 | A first instance's fan-change chunk, fed to a second instance at the same layer, makes `execute` fail. |
| Properties.ExecuteSound | SpeedChangeByLayer.py:147-238 | Every token written is a kept line, an annotation, or a header, override or restore. Each carries the layer and value the settings give. Print restores are 100%, and no `M606` is written. |
| Properties.ExecuteAt | SpeedChangeByLayer.py:174-237 | Chunk `i`'s output is the chunk step applied from the state the earlier chunks leave. |
| Properties.DoneBounded | SpeedChangeByLayer.py:160-209 | Across the chunks, the start count never falls and never passes `total_layers`. |
| Properties.RewriteOrigs | SpeedChangeByLayer.py:219-235 | The input lines in a chunk's output are exactly its surviving lines, once each and in order. |
| Properties.SurvivorsWithoutFan | SpeedChangeByLayer.py:226-235 | Without the fan change, the survivors are the non-blank lines not of a dropped kind. |
| Properties.PreScanAway | SpeedChangeByLayer.py:177-183 | A pre-scan whose layer never reaches the start layer cannot fail. |
| Properties.ExecuteWithoutMatch | SpeedChangeByLayer.py:174-238 | If no marker names the start or end layer, `execute` cannot fail. Each chunk comes out as its kept lines in order plus annotations. |
| Gcode.SplitRender | SpeedChangeByLayer.py:236 | Splitting a rendered chunk gives one line per token, in order, then the empty piece. |
| CorrectedPreScan.FanReading | SpeedChangeByLayer.py:128-145 | The corrected reading is exactly `getValue(line, "M106 S", prior)`. |
| CorrectedPreScan.PreScanFixedMeaning | SpeedChangeByLayer.py:177-183 | The corrected pre-scan reads the same lines as the original and ends at the same layer. It keeps what reading those lines in order leaves. |
| CorrectedPreScan.PreScanFixedAgrees | SpeedChangeByLayer.py:177-183 | Where every line read parses alike both ways, the original pre-scan succeeds and agrees with the corrected one. |
| CorrectedPreScan.FixedChunkMeaning | SpeedChangeByLayer.py:175-218 | With the corrected pre-scan, a chunk's restore value is what reading its captured lines leaves, and every fan restore carries it. |
| CorrectedPreScan.FixedRunSucceeds | SpeedChangeByLayer.py:174-183 | The chunk loop with the corrected pre-scan never fails. |
| CorrectedPreScan.ExecuteFixedAt | SpeedChangeByLayer.py:174-237 | Chunk `i` of the corrected result is the corrected step from the state the earlier chunks leave. |
| CorrectedPreScan.IntegerReadsAlike | SpeedChangeByLayer.py:183 | On `M106 S` and a signed digit run, `float(line[6:])` succeeds and agrees with the corrected reading. |
| CorrectedPreScan.PointReadsAlike | SpeedChangeByLayer.py:183 | On `M106 S` and a signed literal with digits on both sides of its point, `float(line[6:])` succeeds and agrees with the corrected reading. |
| CorrectedPreScan.RenderedReadsAlike | SpeedChangeByLayer.py:183 | A bare `M106 S` followed by `str(n)` or by a six-decimal rendering, with nothing after it, reads alike both ways. |
| CorrectedPreScan.FixedAgreesReadingAlike | SpeedChangeByLayer.py:175-237 | A chunk whose `M106` lines all read alike is processed by the corrected step exactly as by the original, which does not fail on it. |
| CorrectedPreScan.ExecuteFixedAgrees | SpeedChangeByLayer.py:147-238 | On a file whose `M106` lines all read alike (including a file with none), `execute` succeeds and the corrected `execute` gives the same chunks. |
| ReadingsDiffer.ReadingsDiffer | SpeedChangeByLayer.py:183 | `float()` reads `M106 S1e3` as 1000, `M106 S 255` as 255 and `M106 S1_000` as 1000, where the corrected reading gives 1, the prior value, and 1. |
| CorrectedPreScan.StackedFanChangeRestores | SpeedChangeByLayer.py:177-183 | The stacked chunk no longer fails, and its restore value is the first instance's override: exactly `255 p / 100`. |

## Left out

- `getSettingDataString`, the `Script` base class, `Logger` and `getSettingValueByKey` are not modelled. The settings arrive as a `Rewriter.Config` value, and `Valid()` states the schema's bounds.
- Rewriter.FanDuty: values are exact decimals (`Numbers.Dec`), not binary doubles. `255 * (p * .01)` is modelled as exactly `255 p / 100`.
- Numbers.Format6: rounds the exact decimal half-to-even, whereas `'%f'` rounds the nearest double. On a value with at most six decimals the model loses nothing (`Numbers.Format6Exact`), and `'%f'` agrees with it as long as the nearest double still rounds to the same six decimals. They differ on fan values read from the file at line 183 and rendered at line 218 that have more than six decimals, that a double cannot hold exactly (`M106 S12345678901234567.5` renders as `12345678901234568.000000` in Python), or that overflow a double (`M106 S1e400` renders as `inf`).
- Numbers.ParseFloat: returns `None` for `inf`, `nan` and `infinity` and for non-ASCII decimal digits, all of which `float()` accepts. Only finite ASCII spellings are modelled.
- Numbers.ParseInt: returns `None` for non-ASCII decimal digits, which `int()` accepts. It reads an integer of any length, whereas `int()` on current CPython raises on more than 4300 digits; on such an annotation `int(line[30:])` at line 196 raises and line 198 keeps `instance`, while the model takes the number.
- Extract.GetValue: `default=None` is not modelled. Every call in `execute` passes a number.
- Extract.GetValue: reads numbers exactly, whereas `float(m.group(0))` at line 143 gives a double, so `current_layer` and `current_fan_layer` are doubles compared exactly with the integers `target_layer` and `end_layer` at lines 182, 203 and 211. The two differ on layer numbers a double cannot hold: with `;LAYER:9007199254740993` and `layer_number = 9007199254740994`, Python reads 9007199254740992.0 and never starts, while the model starts; a `;LAYER:` marker of 309 or more digits reads as `inf` in Python and as its exact value in the model (`Extract.LayerValue` likewise).
- Rewriter.Execute: when `float(line[6:])` raises, the Python list `data` has already been partly rewritten in place. `Execute` returns a bare `Failure` without the partial list.
- Regular expressions (`re.search`) are written out as the anchored scanners in `Extract`. No general regex engine is modelled.

## Findings

| source | as written | input that shows it | evidently intended | confidence | as-written member | corrected member |
|---|---|---|---|---|---|---|
| SpeedChangeByLayer.py:183 | The fan pre-scan reads a fan line's value with `float(line[6:])`, so any text after the number makes it raise. | A file a first instance already processed with the fan change at layer `t`, run through a second instance whose start layer is also `t`. The chunk holds the override `M106 S127.500000 ;Fan speed 50% of 100% [% of 255]`, and `float("127.500000 ;Fan speed …")` raises `ValueError`. | Multiple instances are supported (lines 18-20 and 32), and the value restored is the last fan speed found (lines 23-25). So the number after `M106 S` should be read the way `getValue(line, "M106 S", old)` reads it, ignoring the comment. That reading is not `float()` on every line: it gives 1 for `M106 S1e3` and `M106 S1_000` and nothing for `M106 S 255` (`ReadingsDiffer.ReadingsDiffer`). | not executed; high (follows from the text of lines 155 and 183) | FanRestore.StackedFanChangeFails | CorrectedPreScan.StackedFanChangeRestores |

The as-written model (`Rewriter.Execute`) stays the reference for every other property
above. `CorrectedPreScan.ExecuteFixed` is the corrected whole-file operation built on
`CorrectedPreScan.PreScanFixed`. It agrees with `Execute` on files
whose `M106` lines all read alike, which covers bare `M106 S<n>` and `M106 S<d.dddddd>`
lines with nothing after the number, as a slicer writes them
(`CorrectedPreScan.ExecuteFixedAgrees`, `CorrectedPreScan.RenderedReadsAlike`), and never
fails
(`CorrectedPreScan.FixedRunSucceeds`). A file that carries an earlier instance's override
or restore line is outside `CorrectedPreScan.ExecuteFixedAgrees`: those lines have a
comment after the number, so `float(line[6:])` raises on them
(`FanRestore.FanOverrideUnreadable`), which is the finding itself.

The corrected reading is not `float()` on every line it accepts. `float()` takes an
exponent, white space in front of the number and `_` between digits, where the pattern
`-?[0-9]*\.?[0-9]*` stops at or before them: on `M106 S1e3` the original reads 1000 and
the corrected reading 1, on `M106 S 255` 255 against no reading (the prior value is
kept), and on `M106 S1_000` 1000 against 1 (`ReadingsDiffer.ReadingsDiffer`).
