# RetroAchievements engine and frontend state logic of the libretro bridge

This project models, in Dafny, the achievement ("cheevos") engine of the
RetroArch frontend that Provenance bundles in `PVCoreBridgeRetro`, together
with small pieces of state logic from the input driver, the run loop and the
video driver of the same frontend.

**The achievement engine** (`cheevos.c`) has these parts:

- **The MemAddr parser.** It reads an achievement's condition string, such as
  `0xH0012=5_R:d0x0100>0x0100(3)S0xX0200!=h10`, into typed conditions. Each
  condition has a type, a source operand, an operator, a target operand and a
  hit count. The parser resolves each memory operand's guest address once, at
  load time, into a memory bank and an offset.
- **The per-frame evaluator.** It reads operands (a delta operand returns the
  value of the previous frame), counts hits, and applies PauseIf and ResetIf
  conditions. It combines the core set with the alternative sets. An
  achievement that unlocks is deactivated, so it is awarded at most once.
- **The loaders.** These are folds over the events of the JSON parser:
  - the key lookup;
  - the counting pass that sizes the achievement arrays;
  - the reading pass that files each achievement into the core or the
    unofficial array;
  - the deactivation pass that switches off achievements already unlocked.
- **Helpers.** The djb2 hash, the URL encoder and the power-of-two rounding.

**The frontend pieces** are:

- from `input_driver.c`:
  - the analog-to-D-pad bind overlay with its save and restore;
  - the turbo bit mask;
  - the hotkey-blocking decision;
  - pointer-coordinate scaling;
  - driver teardown;
- from `runloop.c`:
  - the pause/focus state machine;
  - fast-forward;
  - save-slot stepping;
  - the circular shader index;
  - the edge-triggered command mask;
  - the exit decision;
  - the flag cases of the control switch;
- from `video_driver.c`:
  - pitch alignment;
  - the square-pixel aspect reduction;
  - integer-scaled viewports;
  - the cached-frame and stub-frame save and restore.

**Modelling conventions**

- Imperative code stays imperative: classes with fields, arrays rewritten in
  place, and loops with invariants. Each method is proved against a
  specification function, and the properties are proved about those functions.
- Emulated memory is a sequence of banks of bytes.
- JSON text is taken as the sequence of parser events of a successful parse.
- C's unsigned wrap-around, `strtol` into `int` and `unsigned`, and C's
  truncating division are written out explicitly (`Wrap32`, `Int32`,
  `CArith.Quot`).
- 64-bit input masks are sets of bit indices.

| file | module |
|---|---|
| cheevos_types.dfy | `CheevosTypes`: 32-bit words, operand, condition and condition-set records |
| cheevos_util.dfy | `CheevosUtil`: djb2, URL encoding, next power of two |
| cheevos_memory.dfy | `CheevosMemory`: guest address resolution, operand reads |
| cheevos_parse.dfy | `CheevosParse`: MemAddr parser, scanners and their round trips |
| cheevos_eval.dfy | `CheevosEval`: condition comparison, the three passes over a set, set reset |
| cheevos_cheevo.dfy | `Cheevos`: the achievement class, achievement test, per-frame set test |
| cheevos_json.dfy | `CheevosJson`: event folds of the key lookup, counting and reading passes |
| cheevos_engine.dfy | `CheevosEngine`: loading into arrays, deactivation, `cheevos_test` |
| c_arith.dfy | `CArith`: C's truncating division |
| input_driver.dfy | `InputDriver`: D-pad bind overlay, pointer scaling, turbo, hotkey block, teardown |
| runloop.dfy | `Runloop`: pause and focus, input sampling, fast-forward, save slots, shader list, exit, control flags |
| video_driver.dfy | `VideoDriver`: pitch alignment, square pixels, integer scaling, cached and stub frames |

## Model

| member | source | states |
|---|---|---|
| CheevosTypes.Wrap32 | PVCoreBridgeRetro/Sources/retro/cheevos.c:852 | the C conversion into `unsigned`: the identity in range, otherwise congruent modulo 2^32 |
| CheevosUtil.Djb2IsPolynomial | PVCoreBridgeRetro/Sources/retro/cheevos.c:276-286 | the hash loop (`hash*33 + byte` in 32 bits from 5381) equals the polynomial 5381·33^n + Σ byte·33^(n-1-i), reduced once modulo 2^32 |
| CheevosUtil.KnownHashes | PVCoreBridgeRetro/Sources/retro/cheevos.c:57 | the `ID` key constant 0x005973f2 and the extension constants 0x005978b6 ("md") and 0x005977f3 ("gg", lines 2045 and 2052) are the djb2 hashes of those names |
| CheevosUtil.ComputeDjb2 | PVCoreBridgeRetro/Sources/retro/cheevos.c:276-286 | the loop returns `Djb2(s)` and the closed-form polynomial |
| CheevosUtil.Escape | PVCoreBridgeRetro/Sources/retro/cheevos.c:1346-1368 | an unreserved character is copied as one character; any other becomes three |
| CheevosUtil.EncodeFitBound | PVCoreBridgeRetro/Sources/retro/cheevos.c:1342-1373 | the encoded text and its NUL always fit in `len` bytes |
| CheevosUtil.EncodeFitIsPrefix | PVCoreBridgeRetro/Sources/retro/cheevos.c:1349-1367 | the output is the full encoding of a prefix of the input, and the next character's encoding plus the NUL would not fit: an escape is never split |
| CheevosUtil.EncodeFitWhole | PVCoreBridgeRetro/Sources/retro/cheevos.c:1342-1373 | a buffer larger than the full encoding receives all of it |
| CheevosUtil.HexRoundTrip | PVCoreBridgeRetro/Sources/retro/cheevos.c:1362 | the lower-case hex digit of a nibble reads back as that nibble |
| CheevosUtil.DecodeEncode | PVCoreBridgeRetro/Sources/retro/cheevos.c:1342-1373 | percent-decoding the full encoding of a byte string gives it back |
| CheevosUtil.DecodeTruncated | PVCoreBridgeRetro/Sources/retro/cheevos.c:1342-1373 | decoding what fits in the buffer gives back exactly the consumed prefix of the input |
| CheevosUtil.PutEncoded | PVCoreBridgeRetro/Sources/retro/cheevos.c:1350-1365 | one character is written at the cursor as itself or as `%` plus two lower-case hex digits; nothing else changes |
| CheevosUtil.EncodeLoop | PVCoreBridgeRetro/Sources/retro/cheevos.c:1344-1370 | the loop writes the fitting encoding and stops at the index of the terminator, which is inside the buffer |
| CheevosUtil.UrlEncode | PVCoreBridgeRetro/Sources/retro/cheevos.c:1342-1373 | the buffer holds the encoding of the longest prefix that fits, then a NUL; bytes after the NUL are untouched |
| CheevosUtil.NextPowerOf2 | PVCoreBridgeRetro/Sources/retro/cheevos.c:1775-1786 | 0 maps to 0; for 1 ≤ n ≤ 2^31 the result is a power of two with n ≤ r and r/2 < n; larger inputs wrap to 0 |
| CheevosMemory.BitAnd | PVCoreBridgeRetro/Sources/retro/cheevos.c:640 | the bitwise AND of two values is at most either of them |
| CheevosMemory.FindDescriptorIsFirst | PVCoreBridgeRetro/Sources/retro/cheevos.c:637-645 | the search returns the first descriptor whose selected address bits equal its start, or none when no descriptor selects the address |
| CheevosMemory.DescriptorBank | PVCoreBridgeRetro/Sources/retro/cheevos.c:609-646 | with a memory map: GBA and PC Engine addresses are rebased first; the bank is the first selecting descriptor (-1 exactly when none selects) and the offset is `addr - start + offset` in 32 bits |
| CheevosMemory.FindRegionByBounds | PVCoreBridgeRetro/Sources/retro/cheevos.c:648-661 | the region walk subtracts each skipped region's size and stops at the region holding the address |
| CheevosMemory.RegionBank | PVCoreBridgeRetro/Sources/retro/cheevos.c:647-662 | without a memory map: the bank is the region whose span holds the address and the offset is relative to its start; past all regions the bank is -1 and the value is what remains after subtracting every size |
| CheevosMemory.ParseGuestAddr | PVCoreBridgeRetro/Sources/retro/cheevos.c:605-663 | the method's bank and offset are the resolution function's |
| CheevosMemory.SearchDescriptors | PVCoreBridgeRetro/Sources/retro/cheevos.c:634-645 | the descriptor loop stops at the first selecting descriptor, or at the end |
| CheevosMemory.SearchRegions | PVCoreBridgeRetro/Sources/retro/cheevos.c:649-661 | the region loop computes the region walk |
| CheevosMemory.BitOf | PVCoreBridgeRetro/Sources/retro/cheevos.c:1124-1126 | a bit read yields 0 or 1 |
| CheevosMemory.LiveValue | PVCoreBridgeRetro/Sources/retro/cheevos.c:1114-1152 | the live read is below its width's limit: 2 for bits 1 to 7, 16 for a nibble, 256 for a byte, 65536 for 16 bits; bit 0 is not masked by the guard, so it is limited only to the byte |
| CheevosMemory.ReadVarChangesOnlyPrevious | PVCoreBridgeRetro/Sources/retro/cheevos.c:1105-1165 | reading an operand changes nothing but a delta operand's remembered value |
| CheevosMemory.DeltaLagsOneRead | PVCoreBridgeRetro/Sources/retro/cheevos.c:1154-1158 | a delta operand returns what the previous read saw live, and remembers the current live value |
| CheevosParse.DigitEnd | PVCoreBridgeRetro/Sources/retro/cheevos.c:697-698 | the digit run never ends before it starts |
| CheevosParse.ReadNumber | PVCoreBridgeRetro/Sources/retro/cheevos.c:697-698 | `strtol` stored into an `unsigned` never moves the cursor backwards |
| CheevosParse.NumeralRoundTrip | PVCoreBridgeRetro/Sources/retro/cheevos.c:697-698 | a number written in base 10 or 16 and followed by a non-digit reads back with the cursor after its digits |
| CheevosParse.SizePrefixRoundTrip | PVCoreBridgeRetro/Sources/retro/cheevos.c:501-537 | every width but the 16-bit default has an upper-case letter that selects it, and its lower-case form selects it too |
| CheevosParse.DigitsSelectSixteenBits | PVCoreBridgeRetro/Sources/retro/cheevos.c:503-537 | a hexadecimal digit or the terminator selects the 16-bit default, so no address digit is taken for a width |
| CheevosParse.ReadHits | PVCoreBridgeRetro/Sources/retro/cheevos.c:539-553 | reading hits never moves the cursor backwards |
| CheevosParse.HitsRoundTrip | PVCoreBridgeRetro/Sources/retro/cheevos.c:539-553 | `(N)` reads as N with the cursor after the `)`; with no `(` or `.` the count is 0 and nothing is consumed |
| CheevosParse.ParseOperator | PVCoreBridgeRetro/Sources/retro/cheevos.c:555-603 | the operator reader consumes at most two characters |
| CheevosParse.OperatorRoundTrip | PVCoreBridgeRetro/Sources/retro/cheevos.c:555-603 | `=`, `!=`, `<=`, `<`, `>=`, `>` read back as their operators, consuming exactly their text |
| CheevosParse.OperatorFallbacks | PVCoreBridgeRetro/Sources/retro/cheevos.c:560-600 | `==` is equality and consumes two characters; a character that starts no operator reads as equality and is not consumed |
| CheevosParse.ReadVarKind | PVCoreBridgeRetro/Sources/retro/cheevos.c:671-691 | the operand kind sets base 10 or 16 and never moves the cursor backwards |
| CheevosParse.MemOperandKind | PVCoreBridgeRetro/Sources/retro/cheevos.c:671-682 | `d0x` selects a delta read and `0x` a memory read, both base 16, with the cursor after the lead |
| CheevosParse.MemOperandWidth | PVCoreBridgeRetro/Sources/retro/cheevos.c:693-699 | the width letter is consumed exactly when the width is not the 16-bit default |
| CheevosParse.OperandRoundTrip | PVCoreBridgeRetro/Sources/retro/cheevos.c:665-716 | every written operand followed by a delimiter parses back to the operand record it stands for, with the cursor after it |
| CheevosParse.MemOperandRoundTrip | PVCoreBridgeRetro/Sources/retro/cheevos.c:665-716 | the same for `0x`/`d0x` operands, with the address resolved in the layout |
| CheevosParse.ConstOperandRoundTrip | PVCoreBridgeRetro/Sources/retro/cheevos.c:684-698 | the same for decimal and `h` constants |
| CheevosParse.CondTypeRoundTrip | PVCoreBridgeRetro/Sources/retro/cheevos.c:722-734 | `R:` reads as ResetIf and `P:` as PauseIf, consuming two characters; without a prefix the type is Standard and nothing is consumed |
| CheevosParse.CondRoundTrip | PVCoreBridgeRetro/Sources/retro/cheevos.c:718-742 | every written condition followed by a character that ends it parses back to the condition it stands for, with `curr_hits` 0 |
| CheevosParse.CondPartsRoundTrip | PVCoreBridgeRetro/Sources/retro/cheevos.c:718-742 | the five parts laid out one after another parse back one by one |
| CheevosParse.SkipSeps | PVCoreBridgeRetro/Sources/retro/cheevos.c:753-758 | the separator loop stops on a character that is not a space, `_`, `\|` or `S`, and consumes at least one when it starts on one |
| CheevosParse.ScanStep | PVCoreBridgeRetro/Sources/retro/cheevos.c:749-767 | one scanner turn appends the condition read; `_`, `R` or `P` continue the set, `S` starts a new one, anything else ends the scan |
| CheevosParse.BareResetReadsNothing | PVCoreBridgeRetro/Sources/retro/cheevos.c:718-740 | at an `R` not followed by `:` the condition parser reads nothing and stays where it started |
| CheevosParse.StuckAt | PVCoreBridgeRetro/Sources/retro/cheevos.c:749-767 | a first condition that ends at a bare `R` leaves the condition scan unable to move on: the scan reports `Stuck` |
| CheevosParse.StuckOnBareReset | PVCoreBridgeRetro/Sources/retro/cheevos.c:749-767 | every written condition followed by a bare `R` is a string on which the counting loops never end |
| CheevosParse.ScanExtends | PVCoreBridgeRetro/Sources/retro/cheevos.c:749-767 | a scan that ends only ever appends conditions and adds at least one set |
| CheevosParse.ScanHasConditions | PVCoreBridgeRetro/Sources/retro/cheevos.c:744-771 | a MemAddr string that scans has at least one condition and one set |
| CheevosParse.ReadNextCond | PVCoreBridgeRetro/Sources/retro/cheevos.c:753-760 | the head of each scanner iteration skips separators and parses one condition |
| CheevosParse.CountCondSets | PVCoreBridgeRetro/Sources/retro/cheevos.c:744-771 | the number of sets is one per condition not followed by `_`, `R` or `P`, that is one per `S` plus the last |
| CheevosParse.CountCondsInSet | PVCoreBridgeRetro/Sources/retro/cheevos.c:773-800 | because `index` never advances, set 0 counts every condition of the string and every other set counts none |
| CheevosParse.ParseMemaddr | PVCoreBridgeRetro/Sources/retro/cheevos.c:802-820 | every condition of the string, in string order, is written into consecutive slots; later slots are untouched |
| CheevosParse.Put | PVCoreBridgeRetro/Sources/retro/cheevos.c:815 | `cond++` stores one condition after those written and keeps the rest |
| CheevosParse.ScanWritten | PVCoreBridgeRetro/Sources/retro/cheevos.c:749-767 | scanning conditions written with separators reads each back in order and counts one set per `S` plus one |
| CheevosParse.MemaddrRoundTrip | PVCoreBridgeRetro/Sources/retro/cheevos.c:744-820 | a MemAddr string written from conditions joined by `_` and `S` scans back to exactly those conditions, with one set per `S` plus one |
| CheevosEval.CompareNegated | PVCoreBridgeRetro/Sources/retro/cheevos.c:1172-1190 | each of the six comparisons has a complement among them |
| CheevosEval.TestCondition | PVCoreBridgeRetro/Sources/retro/cheevos.c:1167-1191 | testing a condition changes only its operands (a delta operand's remembered value) |
| CheevosEval.HoldsIgnoresHits | PVCoreBridgeRetro/Sources/retro/cheevos.c:1167-1191 | the comparison reads only the operands, never the hit counters |
| CheevosEval.ConstantsCompare | PVCoreBridgeRetro/Sources/retro/cheevos.c:1167-1191 | two constants compare by the operator and change nothing |
| CheevosEval.PauseFromMeaning | PVCoreBridgeRetro/Sources/retro/cheevos.c:1204-1222 | the PauseIf pass stops exactly when some PauseIf condition holds, and changes only PauseIf conditions |
| CheevosEval.ResetFromMeaning | PVCoreBridgeRetro/Sources/retro/cheevos.c:1254-1268 | the ResetIf pass stops exactly when some ResetIf condition holds, and changes only ResetIf conditions |
| CheevosEval.HitStep | PVCoreBridgeRetro/Sources/retro/cheevos.c:1234-1247 | a hit on a condition short of its target counts as true exactly when the condition is satisfied, and stays within the target |
| CheevosEval.StandardFromMeaning | PVCoreBridgeRetro/Sources/retro/cheevos.c:1225-1251 | without match-any, the Standard pass ends valid exactly when every Standard condition is satisfied (already at its target, or comparing true with the new hit reaching the target), and changes only Standard conditions |
| CheevosEval.PausedChangesOnlyPauseIf | PVCoreBridgeRetro/Sources/retro/cheevos.c:1204-1222 | a paused set is invalid, raises dirty and no reset, and Standard and ResetIf conditions are not processed |
| CheevosEval.ResetIff | PVCoreBridgeRetro/Sources/retro/cheevos.c:1254-1268 | a set raises reset exactly when it is not paused and a ResetIf condition holds |
| CheevosEval.ValidIff | PVCoreBridgeRetro/Sources/retro/cheevos.c:1193-1271 | a set is valid exactly when no PauseIf holds, every Standard condition is satisfied and no ResetIf holds |
| CheevosEval.EmptySetValid | PVCoreBridgeRetro/Sources/retro/cheevos.c:1197-1198 | an empty set is valid and raises nothing |
| CheevosEval.StandardFromHits | PVCoreBridgeRetro/Sources/retro/cheevos.c:1231-1232 | the Standard pass keeps every hit count within its target and leaves a condition that reached it untouched |
| CheevosEval.EvalKeepsHitsWithinTarget | PVCoreBridgeRetro/Sources/retro/cheevos.c:1231-1232 | a set evaluation keeps hit counts within their targets, and a Standard condition at its target is not compared at all |
| CheevosEval.PausePass | PVCoreBridgeRetro/Sources/retro/cheevos.c:1204-1222 | the PauseIf loop rewrites the array as the PauseIf pass function says |
| CheevosEval.StandardPassInPlace | PVCoreBridgeRetro/Sources/retro/cheevos.c:1225-1251 | the Standard loop, including the match-any early exit, rewrites the array as the Standard pass function says |
| CheevosEval.ResetPass | PVCoreBridgeRetro/Sources/retro/cheevos.c:1254-1268 | the ResetIf loop rewrites the array as the ResetIf pass function says |
| CheevosEval.TestCondSet | PVCoreBridgeRetro/Sources/retro/cheevos.c:1193-1271 | the three loops together leave the array, the validity and the dirty and reset flags that the set evaluation function gives |
| CheevosEval.ResetCond | PVCoreBridgeRetro/Sources/retro/cheevos.c:1273-1300 | a reset condition has no hits and keeps its type, target and operator; without deltas nothing else changes |
| CheevosEval.ResetCondsIdempotent | PVCoreBridgeRetro/Sources/retro/cheevos.c:1273-1300 | after a reset no condition has a hit, and resetting again changes nothing |
| CheevosEval.ResetCondSet | PVCoreBridgeRetro/Sources/retro/cheevos.c:1273-1300 | the loop clears every hit count (with deltas, also the remembered values) and reports whether any hit was cleared |
| Cheevos.UnlockIff | PVCoreBridgeRetro/Sources/retro/cheevos.c:1302-1340 | an achievement unlocks exactly when its core set passes and there is no alternative or some alternative passes |
| Cheevos.NoSetsNeverUnlocks | PVCoreBridgeRetro/Sources/retro/cheevos.c:1311-1339 | an achievement with no set never unlocks |
| Cheevos.EmptyAlternativesDefer | PVCoreBridgeRetro/Sources/retro/cheevos.c:1316-1339 | with empty alternatives, the achievement unlocks exactly when its core set is valid |
| Cheevos.ResetClearsEveryHit | PVCoreBridgeRetro/Sources/retro/cheevos.c:1328-1337 | a reset is raised exactly when some unpaused set has a ResetIf that holds, and then no set keeps a hit after the frame |
| Cheevos.MarkDirtySetsOnlyConditions | PVCoreBridgeRetro/Sources/retro/cheevos.c:1325-1326 | marking dirty sets the conditions bit and no other bit |
| Cheevos.MarkDirtyTwice | PVCoreBridgeRetro/Sources/retro/cheevos.c:1325-1337 | marking for a set and again for a reset is marking once for either reason |
| Cheevos.InactiveNeverAwarded | PVCoreBridgeRetro/Sources/retro/cheevos.c:1478 | an inactive achievement is never tested and never awarded, over any run of frames |
| Cheevos.AwardedAtMostOnce | PVCoreBridgeRetro/Sources/retro/cheevos.c:1471-1494 | over any run of frames an achievement is awarded at most once, because `active` is cleared before the award |
| Cheevos.Cheevo.EvalSetsInPlace | PVCoreBridgeRetro/Sources/retro/cheevos.c:1306-1323 | the first two loops evaluate every set in place and compute the core validity, whether an alternative (or no alternative) is valid, and the two flags |
| Cheevos.Cheevo.ResetSetsInPlace | PVCoreBridgeRetro/Sources/retro/cheevos.c:1328-1334 | the reset loop clears every set without deltas and reports whether any hit was cleared |
| Cheevos.Cheevo.TestCheevo | PVCoreBridgeRetro/Sources/retro/cheevos.c:1302-1340 | the result, the new sets and the dirty mask are those of the achievement evaluation function; `active` is unchanged |
| Cheevos.AwardedWereActive | PVCoreBridgeRetro/Sources/retro/cheevos.c:1478-1483 | every awarded id belongs to an achievement that was active and unlocked this frame |
| Cheevos.StepOne | PVCoreBridgeRetro/Sources/retro/cheevos.c:1478-1483 | one achievement is tested only when active, and deactivated when it unlocks |
| Cheevos.StepAt | PVCoreBridgeRetro/Sources/retro/cheevos.c:1476-1493 | stepping one achievement of the array leaves every other one unchanged |
| Cheevos.TestCheevoSet | PVCoreBridgeRetro/Sources/retro/cheevos.c:1471-1494 | every achievement ends in its one-frame state, in order, and the ids awarded are those of the active achievements that unlocked |
| CheevosEngine.NewCheevo | PVCoreBridgeRetro/Sources/retro/cheevos.c:839-911 | a loaded achievement has the id and points read by `strtol`, is active and clean, has as many sets as the string has, and keeps the MemAddr string as the expression of set 0 only |
| CheevosEngine.NewCondSet | PVCoreBridgeRetro/Sources/retro/cheevos.c:886-906 | set k gets a fresh array of its counted size, filled by the MemAddr parser when not empty |
| CheevosEngine.LoadedUnlocksOnEveryCondition | PVCoreBridgeRetro/Sources/retro/cheevos.c:871-907 | every condition of every set lands in set 0, the others stay empty, and the achievement unlocks exactly when all conditions hold together as one set |
| CheevosEngine.ZeroCheevos | PVCoreBridgeRetro/Sources/retro/cheevos.c:1064-1067 | the zero-filled slots are inactive, with id 0 and no sets |
| CheevosEngine.LoadedStatesSnoc | PVCoreBridgeRetro/Sources/retro/cheevos.c:847-850 | filing one more achievement changes exactly the next free slot |
| CheevosEngine.FileNext | PVCoreBridgeRetro/Sources/retro/cheevos.c:847-850 | a new achievement takes the next free slot of its array and every other slot keeps its achievement |
| CheevosEngine.ReadEvent | PVCoreBridgeRetro/Sources/retro/cheevos.c:913-1013 | one event of the reading pass updates the userdata and the arrays as the reading fold says |
| CheevosEngine.ReadPass | PVCoreBridgeRetro/Sources/retro/cheevos.c:1064-1080 | over zero-filled arrays, each achievement object is filed, in order, into the next free slot of the array its flags select |
| CheevosEngine.Engine.Load | PVCoreBridgeRetro/Sources/retro/cheevos.c:1015-1083 | disabled: nothing changes; enabled: the core and unofficial arrays hold exactly the achievements the reading pass files, in order, each parsed for the console id current when its object ended, and the console id named in the document is kept |
| CheevosEngine.FirstWithId | PVCoreBridgeRetro/Sources/retro/cheevos.c:1674-1682 | the index found is the first with the id, or none has it |
| CheevosEngine.Engine.Deactivate | PVCoreBridgeRetro/Sources/retro/cheevos.c:1657-1705 | the first core achievement with the id (converted to `unsigned`) is deactivated; only when none has it, the first unofficial one; nothing else changes |
| CheevosEngine.DeactivateFirst | PVCoreBridgeRetro/Sources/retro/cheevos.c:1674-1696 | one loop clears `active` on the first match only and reports whether there was one |
| CheevosEngine.FindId | PVCoreBridgeRetro/Sources/retro/cheevos.c:1674-1682 | the search loop stops at the first index with the id, or at the end |
| CheevosEngine.Engine.UnlockEvent | PVCoreBridgeRetro/Sources/retro/cheevos.c:1650-1705 | an index event marks the next number as an element; that number deactivates its id |
| CheevosEngine.Engine.DeactivateUnlocks | PVCoreBridgeRetro/Sources/retro/cheevos.c:1708-1770 | after the pass, the `active` flags are those left by deactivating each listed id in order; dirty masks are unchanged |
| CheevosEngine.UnlockedIdsRoundTrip | PVCoreBridgeRetro/Sources/retro/cheevos.c:1650-1705 | the pass reads back every id of an array of decimal ids, in order |
| CheevosEngine.DeactivateIdsClears | PVCoreBridgeRetro/Sources/retro/cheevos.c:1657-1705 | every achievement a listed id targets ends inactive |
| CheevosEngine.DeactivateIdsOnlyTargets | PVCoreBridgeRetro/Sources/retro/cheevos.c:1657-1705 | a flag that changes was set and is targeted by some listed id |
| CheevosEngine.Engine.Test | PVCoreBridgeRetro/Sources/retro/cheevos.c:2337-2355 | false exactly when not loaded, or cheats are and were off and achievements are disabled; the core set is tested only when loaded, cheats are and were off and achievements are enabled, and the unofficial set also needs `test_unofficial` |
| CheevosEngine.Engine.TestSets | PVCoreBridgeRetro/Sources/retro/cheevos.c:2348-2351 | the core achievements step once, the unofficial ones only with `test_unofficial`, and the awards are the core ones then the unofficial ones |
| CheevosEngine.TestBeside | PVCoreBridgeRetro/Sources/retro/cheevos.c:2348-2351 | testing one array leaves every achievement of the other array unchanged |
| CheevosJson.AchievementsKey | PVCoreBridgeRetro/Sources/retro/cheevos.c:56 | the array key constant is the hash of "Achievements" |
| CheevosJson.FlagsKey | PVCoreBridgeRetro/Sources/retro/cheevos.c:68 | the flags key constant is the hash of "Flags" |
| CheevosJson.StrtolDecimal | PVCoreBridgeRetro/Sources/retro/cheevos.c:446 | `strtol` reads back every number written in decimal |
| CheevosJson.Int32 | PVCoreBridgeRetro/Sources/retro/cheevos.c:845 | a `long` stored into an `int` lies in the 32-bit signed range |
| CheevosJson.GetValue | PVCoreBridgeRetro/Sources/retro/cheevos.c:377-413 | a value is returned only when it is shorter than the buffer |
| CheevosJson.LastKeyWins | PVCoreBridgeRetro/Sources/retro/cheevos.c:325-413 | the value of the last key with the hash is returned when it fits the buffer, and nothing when it does not |
| CheevosJson.MissingKey | PVCoreBridgeRetro/Sources/retro/cheevos.c:377-413 | without the key, nothing is returned |
| CheevosJson.GetValueQuiet | PVCoreBridgeRetro/Sources/retro/cheevos.c:325-375 | scalars after a non-matching key change nothing |
| CheevosJson.CountObject | PVCoreBridgeRetro/Sources/retro/cheevos.c:444-458 | inside the array, an object without a second flags member adds one to the core count when its flags count as core and one to the unofficial count when they count as unofficial: as written, 3 and 5 only; corrected, as the reading pass files them |
| CheevosJson.CountPatch | PVCoreBridgeRetro/Sources/retro/cheevos.c:464-495 | the counting pass over a patch document counts each achievement once, by its flags |
| CheevosJson.SlotOf | PVCoreBridgeRetro/Sources/retro/cheevos.c:913-963 | the array key and the console-id key select no field slot |
| CheevosJson.Store | PVCoreBridgeRetro/Sources/retro/cheevos.c:965-996 | storing a scalar sets the selected slot and no other |
| CheevosJson.ReadObject | PVCoreBridgeRetro/Sources/retro/cheevos.c:913-1006 | an achievement object updates the slots it names and is filed by its flags, 3 to core and anything else to unofficial |
| CheevosJson.ReadPatch | PVCoreBridgeRetro/Sources/retro/cheevos.c:1015-1083 | the reading pass creates one record per achievement, in order, with flags 3 in the core records and all others in the unofficial ones |
| CheevosJson.FieldInherited | PVCoreBridgeRetro/Sources/retro/cheevos.c:919-961 | slots are not cleared between achievements: a field an object omits keeps the previous achievement's value |
| CheevosJson.AsWrittenUndercounts | PVCoreBridgeRetro/Sources/retro/cheevos.c:448-458 | the counting pass never counts more than the reading pass files, on either side, and matches it exactly when every flags value is 3 or 5 |
| CheevosJson.PassesAgreeIffKnownFlags | PVCoreBridgeRetro/Sources/retro/cheevos.c:1015-1083 | the arrays sized by the counting pass hold the records of the reading pass exactly when every flags value is 3 or 5; otherwise the reading pass files more records than there are slots |
| CheevosJson.CorrectedCountsFit | PVCoreBridgeRetro/Sources/retro/cheevos.c:448-458 | counting by the reading pass's classification sizes both arrays exactly |
| CheevosJson.UnknownFlagsOverflow | PVCoreBridgeRetro/Sources/retro/cheevos.c:845-850 | flags 4: counted nowhere, but filed as unofficial, past the end of an empty array |
| CheevosJson.CountIgnoresStrings | PVCoreBridgeRetro/Sources/retro/cheevos.c:465-480 | the counting pass counts flags written as numbers only: over events holding no number, both counts stay as they were |
| CheevosJson.ReadOpensFlags | PVCoreBridgeRetro/Sources/retro/cheevos.c:913-963 | after `{"Achievements":[{"Flags"` the reading pass is inside the array, at the flags slot, with nothing filed |
| CheevosJson.ReadStringFlags | PVCoreBridgeRetro/Sources/retro/cheevos.c:965-974 | the reading pass stores the string `"3"` into the flags slot and files that achievement as core |
| CheevosJson.StringFlagsOverflow | PVCoreBridgeRetro/Sources/retro/cheevos.c:448-480 | flags written as the JSON string `"3"`: counted nowhere, but filed as core, past the end of an empty array |
| CheevosJson.TruncatedFlagsOverflow | PVCoreBridgeRetro/Sources/retro/cheevos.c:845-848 | flags 4294967299: not 3 as a `long`, but 3 in an `int`, so a core record is filed past the end |
| CheevosJson.PassesDisagree | PVCoreBridgeRetro/Sources/retro/cheevos.c:448-458 | the two concrete documents on which the passes disagree |
| CArith.QuotRemainder | PVCoreBridgeRetro/Sources/retro/input/input_driver.c:388-410 | C's truncating division leaves a remainder smaller than the divisor and never of the opposite sign to the numerator |
| CArith.QuotUnique | PVCoreBridgeRetro/Sources/retro/input/input_driver.c:388-410 | truncation is the only quotient with those two properties |
| CArith.QuotNegate | PVCoreBridgeRetro/Sources/retro/input/input_driver.c:388-410 | truncating division is symmetric under negating the numerator |
| CArith.QuotNonNegative | PVCoreBridgeRetro/Sources/retro/gfx/video_driver.c:1890-1897 | on non-negative operands, truncating and Euclidean division agree |
| InputDriver.PushAnalogDpad | PVCoreBridgeRetro/Sources/retro/input/input_driver.c:305-346 | the bind array is rewritten in place into the pushed bind list: each D-pad bind saves its axis and, when the chosen stick is usable, takes that stick's axes |
| InputDriver.PopAnalogDpad | PVCoreBridgeRetro/Sources/retro/input/input_driver.c:355-361 | each D-pad bind takes back its saved axis, in place |
| InputDriver.PushPopRestores | PVCoreBridgeRetro/Sources/retro/input/input_driver.c:305-361 | push then pop gives every bind its original axis back; only the saved copy in the D-pad binds remains |
| InputDriver.PushedStickDirections | PVCoreBridgeRetro/Sources/retro/input/input_driver.c:313-345 | with a usable stick, up reads Y minus, down Y plus, left X minus and right X plus |
| InputDriver.PushedWithoutStick | PVCoreBridgeRetro/Sources/retro/input/input_driver.c:313-343 | with no usable stick (plus and minus equal on an axis, or no stick mode), no axis changes |
| InputDriver.TranslateCoordViewport | PVCoreBridgeRetro/Sources/retro/input/input_driver.c:378-411 | coordinates are produced exactly when the video driver reports a viewport |
| InputDriver.ScaleAxis | PVCoreBridgeRetro/Sources/retro/input/input_driver.c:388-405 | a scaled coordinate is always within -0x8000..0x7fff |
| InputDriver.ScaleAxisInside | PVCoreBridgeRetro/Sources/retro/input/input_driver.c:388-405 | a position inside the range is never out of bounds; its two ends map to -0x7fff and 0x7fff |
| InputDriver.ScaleAxisOutOfBounds | PVCoreBridgeRetro/Sources/retro/input/input_driver.c:388-405 | the exact set of positions that read as out of bounds (-0x8000), on each side, under truncating division |
| InputDriver.TruncationKeepsNearMisses | PVCoreBridgeRetro/Sources/retro/input/input_driver.c:388-393 | one pixel left of a 65536-wide screen reads as the left edge, not as out of bounds |
| InputDriver.PointerInsideViewport | PVCoreBridgeRetro/Sources/retro/input/input_driver.c:395-403 | a pointer inside the viewport gets viewport coordinates within -0x7fff..0x7fff |
| InputDriver.TurboRelease | PVCoreBridgeRetro/Sources/retro/input/input_driver.c:506-516 | a released button disarms its turbo bit and reads as released |
| InputDriver.TurboPulse | PVCoreBridgeRetro/Sources/retro/input/input_driver.c:506-516 | a button pressed while the turbo button is held is armed and reads pressed exactly in the first `duty` frames of each period |
| InputDriver.TurboPassThrough | PVCoreBridgeRetro/Sources/retro/input/input_driver.c:506-516 | a pressed button that is not armed, without the turbo button, keeps the mask and passes through unchanged |
| InputDriver.UpdateTurboMask | PVCoreBridgeRetro/Sources/retro/input/input_driver.c:506-509 | the arm and disarm step computes the turbo mask function |
| InputDriver.ReadTurbo | PVCoreBridgeRetro/Sources/retro/input/input_driver.c:511-516 | the read step computes the duty-cycle output function |
| InputDriver.InputDriver.TurboState | PVCoreBridgeRetro/Sources/retro/input/input_driver.c:494-517 | for joypad buttons other than the D-pad, only this port's mask changes and the result follows the duty cycle; every other device and id, keyboard codes included, passes through with the masks unchanged |
| InputDriver.InputDriver.CheckBlockHotkey | PVCoreBridgeRetro/Sources/retro/input/input_driver.c:531-566 | hotkeys end blocked exactly when the keyboard mapping is blocked or the enable-hotkey bind is bound and not held; the result is bound and held |
| InputDriver.HotkeyDecision | PVCoreBridgeRetro/Sources/retro/input/input_driver.c:558-565 | holding the bound enable key leaves only the keyboard mapping blocking hotkeys and reports it held; with nothing bound the result is false and only the keyboard mapping blocks; bound but not held blocks them |
| InputDriver.InputDriver.Destroy | PVCoreBridgeRetro/Sources/retro/input/input_driver.c:680-690 | every block, non-block, flushing and ownership flag cleared, the turbo state zeroed, no current driver; the on-screen keyboard flag is kept |
| Runloop.TriggerRisingEdge | PVCoreBridgeRetro/Sources/retro/runloop.c:1402-1464 | outside a flush the masks are the new sample, the previous sample, and the keys that went down |
| Runloop.HeldKeyTriggersOnce | PVCoreBridgeRetro/Sources/retro/runloop.c:1402-1464 | a key held across two frames does not trigger on the second |
| Runloop.FlushSwallowsInput | PVCoreBridgeRetro/Sources/retro/runloop.c:1423-1436 | a flush goes on exactly while the sample is non-empty; it swallows the sample, leaving only the pause-toggle key when paused |
| Runloop.Runloop.SampleInput | PVCoreBridgeRetro/Sources/retro/runloop.c:1402-1464 | the raw sample is remembered for the next frame, and the masks and the flushing flag are those of the sampling function |
| Runloop.FrameAdvancePauses | PVCoreBridgeRetro/Sources/retro/runloop.c:383-386 | frame advance on a running, focused core pauses it |
| Runloop.FrameAdvanceKeepsPause | PVCoreBridgeRetro/Sources/retro/runloop.c:383-386 | frame advance alone on a paused core that kept focus leaves it paused |
| Runloop.FocusLostPauses | PVCoreBridgeRetro/Sources/retro/runloop.c:385-390 | losing focus pauses whatever else was pressed |
| Runloop.UnfocusedIgnoresKeys | PVCoreBridgeRetro/Sources/retro/runloop.c:385-390 | without focus, and not losing it this frame, the keys do nothing |
| Runloop.FocusRegainedUnpauses | PVCoreBridgeRetro/Sources/retro/runloop.c:385-388 | regaining focus unpauses unless a pause press toggles instead |
| Runloop.Runloop.CheckPause | PVCoreBridgeRetro/Sources/retro/runloop.c:374-401 | the paused flag takes the frame's command, the focus is remembered, and the result is whether the flag changed |
| Runloop.Runloop.RunCommand | PVCoreBridgeRetro/Sources/retro/runloop.c:394-395 | the pause commands toggle, clear or set the paused flag, and no command leaves it |
| Runloop.Runloop.SetFromPointer | PVCoreBridgeRetro/Sources/retro/runloop.c:1016-1041 | SET_IDLE, SET_SLOWMOTION and SET_PAUSED store the pointed-at value into that flag alone; NULL fails and changes nothing |
| Runloop.Runloop.Store | PVCoreBridgeRetro/Sources/retro/runloop.c:1098-1119 | the SET and UNSET cases of exec, shutdown and core shutdown change that flag alone |
| Runloop.Runloop.SetMaxFrames | PVCoreBridgeRetro/Sources/retro/runloop.c:1006-1013 | the limit takes the pointed-at value; NULL fails and keeps it |
| Runloop.RunningCoreRuns | PVCoreBridgeRetro/Sources/retro/runloop.c:615-639 | a running core runs on every frame with command masks, and never without them |
| Runloop.FrameAdvanceOneShot | PVCoreBridgeRetro/Sources/retro/runloop.c:615-639 | on a paused core, pressing frame advance runs one frame and holding it into the next runs none |
| Runloop.Runloop.TimeToExit | PVCoreBridgeRetro/Sources/retro/runloop.c:1323-1350 | 1 exactly when no exit reason holds or the dummy core takes over; otherwise -1; exec always ends cleared; shutdown flags are cleared only by the dummy core |
| Runloop.Runloop.LoadDummy | PVCoreBridgeRetro/Sources/retro/runloop.c:1298-1313 | 1 and both shutdown flags cleared when the load is queued, otherwise -1 with nothing changed |
| Runloop.CheckFastForwardButton | PVCoreBridgeRetro/Sources/retro/runloop.c:412-437 | the non-blocking flag takes its new state, and it is applied exactly when the key was pressed or the hold key changed |
| Runloop.FastForwardPressTwice | PVCoreBridgeRetro/Sources/retro/runloop.c:419-425 | two presses give back the state before them |
| Runloop.FastForwardHold | PVCoreBridgeRetro/Sources/retro/runloop.c:426-432 | without a press, a changed hold key makes the state follow it and an unchanged one leaves it |
| Runloop.CheckStateslots | PVCoreBridgeRetro/Sources/retro/runloop.c:447-461 | increase wins over decrease, decrease stops at 0, and the slot is announced exactly when a key was pressed |
| Runloop.SlotStaysNonNegative | PVCoreBridgeRetro/Sources/retro/runloop.c:453-459 | a non-negative slot never becomes negative, and decrease undoes increase |
| Runloop.ShaderDirList.Free | PVCoreBridgeRetro/Sources/retro/runloop.c:472-480 | no list and index 0 |
| Runloop.ShaderDirList.Init | PVCoreBridgeRetro/Sources/retro/runloop.c:482-510 | success exactly for a configured directory whose listing is non-empty, with the index at 0; a failed listing frees the list; an unconfigured directory changes nothing |
| Runloop.ShaderDirList.CheckShaderDir | PVCoreBridgeRetro/Sources/retro/runloop.c:519-543 | with a list and a key, the index moves to the next or previous shader and the result reports the move, so the shader it names goes on to the extension check; otherwise nothing changes; the index stays in the list |
| Runloop.NextShader | PVCoreBridgeRetro/Sources/retro/runloop.c:530-533 | the next index is inside the list |
| Runloop.PrevShader | PVCoreBridgeRetro/Sources/retro/runloop.c:534-540 | the previous index is inside the list |
| Runloop.NextShaderStep | PVCoreBridgeRetro/Sources/retro/runloop.c:530-533 | next moves one place on and wraps from the last index to the first |
| Runloop.NextPrevInverse | PVCoreBridgeRetro/Sources/retro/runloop.c:530-540 | next and previous undo each other |
| Runloop.NextShaderWalk | PVCoreBridgeRetro/Sources/retro/runloop.c:530-533 | presses that stay inside the list move the index one place each |
| Runloop.NextShaderCycles | PVCoreBridgeRetro/Sources/retro/runloop.c:530-533 | pressing next once per shader comes back to the same shader |
| Runloop.NextShaderCompose | PVCoreBridgeRetro/Sources/retro/runloop.c:530-533 | a presses then b presses are a + b presses |
| VideoDriver.PixelGetAlignment | PVCoreBridgeRetro/Sources/retro/gfx/video_driver.c:1913-1922 | the alignment is 1, 2, 4 or 8 |
| VideoDriver.PixelAlignmentDivides | PVCoreBridgeRetro/Sources/retro/gfx/video_driver.c:1913-1922 | the alignment divides the pitch and, below 8, twice it does not: the largest of 1, 2, 4, 8 dividing the pitch |
| VideoDriver.SquareDivisorSpec | PVCoreBridgeRetro/Sources/retro/gfx/video_driver.c:1293-1300 | the divisor divides both sides and is 1 or below the smaller side, with no common divisor between it and the smaller side |
| VideoDriver.CommonDivisorBelowDivides | PVCoreBridgeRetro/Sources/retro/gfx/video_driver.c:1294-1300 | the divisor the loop keeps divides both sides and is 1 or below the loop bound |
| VideoDriver.CommonDivisorBelowLargest | PVCoreBridgeRetro/Sources/retro/gfx/video_driver.c:1294-1300 | no number between the kept divisor and the loop bound divides both sides |
| VideoDriver.SetViewportSquarePixel | PVCoreBridgeRetro/Sources/retro/gfx/video_driver.c:1273-1307 | a zero side leaves the entry alone; otherwise the entry's sides times the divisor give the base geometry |
| VideoDriver.SquarePixelExamples | PVCoreBridgeRetro/Sources/retro/gfx/video_driver.c:1293-1303 | 320x240 shows as 4:3, and a 4x4 frame as 2:2 because the loop stops below the smaller side |
| VideoDriver.ScaledPadding | PVCoreBridgeRetro/Sources/retro/gfx/video_driver.c:1872-1891 | the padding never exceeds the window |
| VideoDriver.GetScaledInteger | PVCoreBridgeRetro/Sources/retro/gfx/video_driver.c:1825-1897 | a null viewport is left alone; otherwise its offset and size become the placement and its full size is kept |
| VideoDriver.ScaledIntegerPadding | PVCoreBridgeRetro/Sources/retro/gfx/video_driver.c:1872-1888 | the method computes the padding function |
| VideoDriver.ScaledPaddingFits | PVCoreBridgeRetro/Sources/retro/gfx/video_driver.c:1877-1880 | the common scale keeps the scaled base frame inside the window on both axes |
| VideoDriver.KeepAspectScaling | PVCoreBridgeRetro/Sources/retro/gfx/video_driver.c:1874-1881 | keeping the aspect, the frame is scaled by one factor of at least 1, the largest that fits both axes, and centred |
| VideoDriver.IndependentScaling | PVCoreBridgeRetro/Sources/retro/gfx/video_driver.c:1882-1887 | each axis is the largest multiple of its base side that fits the window, centred |
| VideoDriver.SmallWindowUnscaled | PVCoreBridgeRetro/Sources/retro/gfx/video_driver.c:1872-1897 | a window smaller than one base frame is used whole, from the origin |
| VideoDriver.CustomViewportCentred | PVCoreBridgeRetro/Sources/retro/gfx/video_driver.c:1836-1847 | the custom viewport keeps its size and is centred to within half a pixel; its offset is negative exactly when it exceeds the window by more than one pixel |
| VideoDriver.CachedFrameSetGet | PVCoreBridgeRetro/Sources/retro/gfx/video_driver.c:702-722 | a later get returns the geometry the set stored, and its frame unless that was NULL, which keeps the old one |
| VideoDriver.StubRoundTrip | PVCoreBridgeRetro/Sources/retro/gfx/video_driver.c:1205-1217 | installing and removing the stub restores the driver's frame function and leaves no backup |
| VideoDriver.StubUnsetIdle | PVCoreBridgeRetro/Sources/retro/gfx/video_driver.c:1211-1217 | removing the stub when none is installed changes nothing |
| VideoDriver.StubTwiceLosesDriverFrame | PVCoreBridgeRetro/Sources/retro/gfx/video_driver.c:1205-1217 | installing the stub twice saves the stub over the driver's function, so removing it leaves the null frame |
| VideoDriver.VideoState.SetCachedFramePtr | PVCoreBridgeRetro/Sources/retro/gfx/video_driver.c:1199-1203 | a non-NULL pointer replaces the cached frame; NULL changes nothing |
| VideoDriver.VideoState.CachedFrameSet | PVCoreBridgeRetro/Sources/retro/gfx/video_driver.c:702-709 | the cache becomes the set function's result; nothing else changes |
| VideoDriver.VideoState.CachedFrameGet | PVCoreBridgeRetro/Sources/retro/gfx/video_driver.c:711-722 | every out-value is the cached field |
| VideoDriver.VideoState.SetStubFrame | PVCoreBridgeRetro/Sources/retro/gfx/video_driver.c:1205-1209 | the entry point and the backup become those of the stub function; the cache is unchanged |
| VideoDriver.VideoState.UnsetStubFrame | PVCoreBridgeRetro/Sources/retro/gfx/video_driver.c:1211-1217 | the entry point and the backup become those of the unset function; the cache is unchanged |

## Left out

- Malformed JSON and the JSON parser's own errors: the loaders take the event sequence of a successful parse.
- Allocation failures of `malloc`, `calloc` and string duplication, and the NULL strings they leave: every string field is a sequence, empty when absent.
- The uninitialised field slots of the first achievement: the field slots of the reading pass's userdata are never initialised in the source (only five of its members are set before parsing), so a first achievement lacking a key reads whatever the stack held; the model starts from `NO_FIELDS`, an empty text in every slot.
- `strtol`'s leading whitespace, sign and saturation on overflow: `Strtol` reads the leading run of decimal digits, which is what patch documents hold.
- CheevosParse.ReadNumber: does not model `strtol`'s leading whitespace, sign, saturation at the `long` limits, or the optional `0x`/`0X` prefix it accepts in base 16 (so `0xH0x10` reads address 0 ending at the `x`, where the source reads 0x10), because MemAddr operands and hit counts are written as a bare run of digits.
- The modified, created and badge fields are read and filed but change nothing, as in the source.
- Logging, on-screen messages, the network requests, MD5 hashing of content and HTTP: I/O outside the engine.
- Floating point: `base_width` of integer scaling (the rounded product of the base height and a float aspect ratio) is an input, the square-pixel entry's float aspect value is not computed, and frame-time deltas are not modelled.
- Threads and locks: every operation runs alone.
- Calls into drivers (`driver_ctl`, shader application, the dummy core's load task, directory listing) are inputs or results: the model keeps only their effect on the state it tracks.
- InputDriver.ScaleAxis: does not model the 32-bit overflow of `2 * mouse_x * 0x7fff` for coordinates beyond about 32768, because integers are unbounded here.
- Runloop.CheckStateslots: does not model the overflow of `state_slot` past the largest `int`, because the slot is an unbounded integer.
- `input_keys_pressed`, the turbo counter's increment and the rest of `input_state`: their results are inputs.
- The body of `runloop_check_state` beyond the checks modelled here: it is out of this model's scope.
- `command.c` is not part of this model: `command_event` is modelled only through its effect on the paused flag.
- The fullscreen toggle of `runloop_check_pause_state`: a driver call with no effect on whether the core runs.
- CheevosMemory.ReadByte: a byte past the end of a bank reads as 0, where the source would read outside the buffer.
- CheevosEngine.Engine.Load: its `Loadable` precondition asks that each MemAddr string scans, because the source's scan never stops on `Stuck` input; the arrays are sized by what the reading pass files, the corrected count, so the overflow of the Findings below is not modelled in the loader.
- CheevosParse.ScanMemaddr: a string on which the source's loops never end yields `Stuck` instead of running forever; `CheevosParse.StuckOnBareReset` shows one such string, any condition followed by a bare `R`.
- InputDriver.ScaleAxis: requires a non-zero dimension, because the source divides by it and a zero one is undefined behaviour in C.
- InputDriver.TranslateCoordViewport: requires non-zero viewport and full sides, because the source divides by each and a zero one is undefined behaviour in C.
- InputDriver.InputDriver.TurboState: requires a joypad button id below 32 when turbo applies, because the source shifts `1 << id` and a larger shift is undefined behaviour in C; `TurboBit`, `TurboMaskAfter`, `TurboOutput`, `UpdateTurboMask`, `ReadTurbo`, `TurboRelease` and `TurboPassThrough` carry the same exclusion.
- Runloop.ShaderDirList.CheckShaderDir: the extension switch that follows the index step (the shader type from the file extension, returning without applying anything for an unknown one), the on-screen message and the shader application are not modelled; the listing holds shader files only.
- VideoDriver.ScaledInteger: requires a non-zero base width whenever the window is at least one base frame high, because the source divides the width by it there and a zero one is undefined behaviour in C.
- VideoDriver.ScaledPadding: requires a non-zero base width whenever the window is at least one base frame high, for the same division by zero, and a positive base height, which `BaseHeight` always supplies.
- VideoDriver.ScaledIntegerPadding: has the requires of `ScaledPadding`, for the same reasons.
- VideoDriver.GetScaledInteger: requires a non-zero base width whenever the window is at least one base frame high, for the same division by zero.
- Constants taken from libretro and RetroArch headers that are not part of this model (device ids, bind indices, key codes, nothing-bound values) are written out with their header values.

## Findings

| source | as written | input that shows it | evidently intended | confidence | as-written member | corrected member |
|---|---|---|---|---|---|---|
| PVCoreBridgeRetro/Sources/retro/cheevos.c:448-458 | the counting pass counts an achievement as core only when `strtol` of its flags (a `long`) is 3 and as unofficial only when it is 5, while the reading pass (845-850) stores the value into an `int` and files everything but 3 as unofficial; the arrays are then too small and the reading pass writes past their end | an achievement with flags `4` (counted nowhere, filed as unofficial); one with flags `4294967299` (not 3 as a `long`, 3 as an `int`: filed as core) | count each achievement the way the reading pass files it | not executed | CheevosJson.PassesDisagree | CheevosJson.CorrectedCountsFit |
| PVCoreBridgeRetro/Sources/retro/cheevos.c:465-480 | the counting pass installs a number handler but no string handler, while the reading pass (965-974) stores strings into the current field too; flags written as a JSON string are counted nowhere but filed, past the end of the arrays | an achievement with flags written as the JSON string `"3"`: counted nowhere, filed as core | count each achievement the way the reading pass files it, whatever the JSON type of its flags | not executed | CheevosJson.StringFlagsOverflow | CheevosEngine.Engine.Load |
