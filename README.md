# A verified model of the ReevaJS regular-expression engine

ReevaJS's regexp engine is a backtracking engine for ECMAScript-flavoured
patterns (ECMA-262, section 22.2), written in Kotlin. It runs in four stages:

1. **Parser** (`parser/Parser.kt`). A cursor-driven recursive-descent parser.
   It turns the pattern's code points into an `ASTNode` tree, numbers the
   capturing groups, and resolves `\k<name>` references at the end.
2. **AST and optimizer** (`parser/ASTNode.kt`, `parser/Optimizer.kt`).
   - `asReversed` mirrors a tree for lookbehind.
   - `optimizeChildren` folds runs of small code points into
     `CodePointListNode`s.
3. **Compiler** (`compiler/Compiler.kt`, `compiler/Opcode.kt`,
   `compiler/GrowableByteBuffer.kt`).
   - One pass lowers the tree into a byte program.
   - Forward jumps go through `Label`s that are patched when placed.
4. **Matcher** (`Matcher.kt`, `MatchResult.kt`). A fetch/decode/execute
   virtual machine.
   - Threads (`MatchState`s) are forked onto a stack and resumed in LIFO
     order when the current one fails.
   - A successful thread becomes a `MatchResult`: a key-sorted map of
     captured groups.

The Dafny project has one module per source file:

| module | file | stage |
|---|---|---|
| `Utils` | `utils.dfy` | shared |
| `Numeric` | `numeric.dfy` | shared: Kotlin `Byte`/`Short`/`Int` widths and big-endian layouts |
| `Unicode` | `unicode.dfy` | shared |
| `Ast` | `ast.dfy` | AST |
| `Optimizer` | `optimizer.dfy` | optimizer |
| `Parser` | `parser.dfy` | parser |
| `Opcode` | `opcode.dfy` | compiler |
| `ByteBuffer` | `bytebuffer.dfy` | compiler |
| `Compiler` | `compiler.dfy` | compiler |
| `Results` | `results.dfy` | matcher |
| `Matcher` | `matcher.dfy` | matcher |

Each source file keeps its own form in the model.

**Parser, compiler, growable buffer and matcher** are classes whose
methods update fields.
- Most methods are proved against a specification function of the old
  state: `Parser.Parser.ReadDigits` computes `Accumulate(DigitsAt(...))`,
  and `Matcher.Matcher.AdvanceSource` produces `Advanced(...)`.
- The compiler writes into the buffer with `ensureCapacity` corrected (see
  "Findings"), and there `Compiler.Compiler.CompileNode` emits exactly
  `Code(node)`. The buffer as written agrees with it only while the program
  stays below 512 bytes (`ByteBuffer.WriteAllAppends`).
- `Matcher.Matcher.ExecOp` and the ops that call back into it (the two
  character classes, the lookarounds, NEGATE_NEXT) are not tied to one
  function of the old state. Their contracts state the header checks, the
  verdict and the new thread in terms of the nested runs: a ghost trace of
  the members tried for the classes, the nested match found for the
  lookarounds.

**The tree and the match results** are datatypes and pure functions.

**Ordering and errors.**
- The model keeps the source's checks in their original order.
- A thrown JVM exception becomes an error value: `Crash`, `ParseError` or
  `Stop`.
- A `Result` or `Option` stands where the source returns null.

Several quirks of the source are modelled as written:
- **`parseNumber` digit accumulation.** It combines digits with
  `(value * base) or digit`. This is positional in bases 8 and 16 but not in
  base 10 (`Parser.DecimalAccumulateDiffers`).
- **Incomplete `{` fallback.** It sets the cursor to the *code point*
  after `{` (`Parser.Parser.ParseRepetition`).
- **`[^`** skips one more code point (`Parser.CaretSkipsOneMember`).
- **The optimizer** works on one list only and does not flush a trailing
  run.
- **Inverted character classes.**
  - The compiler writes no header for an inverted class.
  - The matcher still reads two `Short`s.
  - The matcher re-runs the member at the thread's cursor on copies.
- **Decoding** ignores `execOp`'s `position` argument, apart from the
  buffer's range check.
- **Jump offsets** are relative to the offset field. The comment in
  `compiler/Opcode.kt:108-109` says they are relative to the opcode byte.

## Model

| member | source | states |
|---|---|---|
| Utils.Expect | src/main/kotlin/com/reevajs/regexp/utils.kt:13-30 | returns normally exactly when the condition holds, otherwise throws ExpectationError |
| Utils.Unreachable | src/main/kotlin/com/reevajs/regexp/utils.kt:8-10 | always ends in IllegalStateException |
| Numeric.ToByte | src/main/kotlin/com/reevajs/regexp/compiler/Compiler.kt:30 | `toByte()` yields a Kotlin Byte congruent to the input mod 256, and is the identity on Bytes |
| Numeric.ToShort | src/main/kotlin/com/reevajs/regexp/compiler/Compiler.kt:34 | `toShort()` yields a Short congruent mod 65536, and is the identity on Shorts |
| Numeric.ToShortStep | src/main/kotlin/com/reevajs/regexp/parser/Parser.kt:65 | incrementing a Short commutes with truncation, so `nextGroupIndex++` is the group count mod 2^16 |
| Numeric.ToInt | src/main/kotlin/com/reevajs/regexp/parser/Parser.kt:463 | 32-bit Int arithmetic gives a congruent Int and is the identity on Ints |
| Numeric.Or32 | src/main/kotlin/com/reevajs/regexp/parser/Parser.kt:463 | `or` on two Ints is an Int |
| Numeric.Signed8 | src/main/kotlin/com/reevajs/regexp/Matcher.kt:435-437 | the signed value of a stored byte stores back as the same bit pattern |
| Numeric.Signed8OfUnsigned8 | src/main/kotlin/com/reevajs/regexp/compiler/GrowableByteBuffer.kt:26-29 | a byte written with `writeByte(v)` reads back as `v.toByte()` |
| Numeric.Unsigned8OfToByte | src/main/kotlin/com/reevajs/regexp/compiler/Compiler.kt:30 | truncating to a Byte before storing does not change the stored pattern |
| Numeric.ShortBytes | src/main/kotlin/com/reevajs/regexp/compiler/GrowableByteBuffer.kt:31-34 | `putShort` stores two bytes |
| Numeric.IntBytes | src/main/kotlin/com/reevajs/regexp/compiler/GrowableByteBuffer.kt:36-39 | `putInt` stores four bytes |
| Numeric.LongBytes | src/main/kotlin/com/reevajs/regexp/compiler/GrowableByteBuffer.kt:41-44 | `putLong` stores eight bytes, which read back as the Long by `Numeric.LongRoundTrip` |
| Numeric.ShortBytesOfToShort | src/main/kotlin/com/reevajs/regexp/compiler/Compiler.kt:99 | `putShort(x.toShort())` stores the same bytes as `putShort(x)` |
| Numeric.GetShort | src/main/kotlin/com/reevajs/regexp/Matcher.kt:439-441 | `getShort` reads a Kotlin Short |
| Numeric.GetInt | src/main/kotlin/com/reevajs/regexp/Matcher.kt:443-445 | `getInt` reads a Kotlin Int |
| Numeric.ShortRoundTrip | src/main/kotlin/com/reevajs/regexp/Matcher.kt:439-441 | a Short written big-endian anywhere in a buffer reads back as `v.toShort()` |
| Numeric.IntRoundTrip | src/main/kotlin/com/reevajs/regexp/Matcher.kt:443-445 | an Int written big-endian reads back as `v` in 32 bits |
| Numeric.GetLong | src/main/kotlin/com/reevajs/regexp/compiler/GrowableByteBuffer.kt:57 | `readLong`: a signed big-endian Long |
| Numeric.LongRoundTrip | src/main/kotlin/com/reevajs/regexp/compiler/GrowableByteBuffer.kt:41-44 | a Long written by `putLong` anywhere reads back as `v` in 64 bits |
| Unicode.WhitespaceDependsOnlyOnSpaceSeparator | src/main/kotlin/com/reevajs/regexp/unicode.kt:13-14 | `isWhitespace` consults the ICU sets only through Space_Separator, and the fixed code points are whitespace whatever the sets |
| Unicode.Lookup | src/main/kotlin/com/reevajs/regexp/unicode.kt:17-123 | `mapOf` lookup: a found value is paired with the key in the table, and None exactly when no pair has the key |
| Unicode.NormalizeIdempotent | src/main/kotlin/com/reevajs/regexp/unicode.kt:126-525 | when every table value maps to itself, normalising a normalised name changes nothing |
| Ast.ReverseChildren | src/main/kotlin/com/reevajs/regexp/parser/ASTNode.kt:8 | the reversed child list has the same length |
| Ast.AsReversedLeaf | src/main/kotlin/com/reevajs/regexp/parser/ASTNode.kt:4 | every leaf is its own reversal |
| Ast.AsReversedReversesChildren | src/main/kotlin/com/reevajs/regexp/parser/ASTNode.kt:7-13 | Root, Group and the four lookarounds: child `i` of the reversal is the reversal of child `n-1-i`, and kind, index and names are kept |
| Ast.AsReversedKeepsShape | src/main/kotlin/com/reevajs/regexp/parser/ASTNode.kt:19-21 | negation, quantifiers and alternation keep constructor, laziness, bounds and sides, with their children reversed |
| Ast.AsReversedInvolution | src/main/kotlin/com/reevajs/regexp/parser/ASTNode.kt:3-106 | reversing twice gives back the original tree |
| Ast.ReverseChildrenInvolution | src/main/kotlin/com/reevajs/regexp/parser/ASTNode.kt:8 | reversing a child list twice gives it back |
| Optimizer.OptimizeChildren | src/main/kotlin/com/reevajs/regexp/parser/Optimizer.kt:23-49 | the loop over the two growing lists computes the specification fold `OptimizedChildren` |
| Optimizer.FoldWellFormed | src/main/kotlin/com/reevajs/regexp/parser/Optimizer.kt:29-32 | the open run never exceeds 127 bytes, and every emitted list is well formed |
| Optimizer.ListsAreBounded | src/main/kotlin/com/reevajs/regexp/parser/Optimizer.kt:36-38 | every emitted `CodePointListNode` holds between 2 and 127 bytes |
| Optimizer.StepOthers | src/main/kotlin/com/reevajs/regexp/parser/Optimizer.kt:33-45 | one loop step adds to the output exactly the non-small nodes of the visited node |
| Optimizer.OthersPreserved | src/main/kotlin/com/reevajs/regexp/parser/Optimizer.kt:23-49 | nodes that are not small code points come out unchanged and in their relative order |
| Optimizer.FoldNoAdjacentSmall | src/main/kotlin/com/reevajs/regexp/parser/Optimizer.kt:36-44 | no two small code points are adjacent in the output, and the output never ends with one |
| Optimizer.NoTwoSmallCodePointsAdjacent | src/main/kotlin/com/reevajs/regexp/parser/Optimizer.kt:23-49 | the optimized list never holds two adjacent small code points |
| Optimizer.Truncated | src/main/kotlin/com/reevajs/regexp/parser/Optimizer.kt:34 | the input as the loop sees it, with small code points truncated to a Byte, has the same length |
| Optimizer.StepExpands | src/main/kotlin/com/reevajs/regexp/parser/Optimizer.kt:27-45 | one step preserves "expanded output plus open run equals truncated input seen so far" |
| Optimizer.FlushedExpands | src/main/kotlin/com/reevajs/regexp/parser/Optimizer.kt:36-42 | flushing a run emits exactly its bytes, one code point each |
| Optimizer.FoldExpands | src/main/kotlin/com/reevajs/regexp/parser/Optimizer.kt:23-49 | expanding the output and appending the open run gives back the truncated input |
| Optimizer.FoldRunEmpty | src/main/kotlin/com/reevajs/regexp/parser/Optimizer.kt:48 | the unflushed run is empty exactly when the input is empty or ends with a node that is not small |
| Optimizer.ExpandRecoversInput | src/main/kotlin/com/reevajs/regexp/parser/Optimizer.kt:23-49 | expanding the output recovers the input when it does not end in a small code point; otherwise the final run of 1 to 127 small code points is lost |
| Optimizer.TruncatedIdentity | src/main/kotlin/com/reevajs/regexp/parser/Optimizer.kt:34 | code points in -128..127 survive truncation unchanged |
| Optimizer.OptimizeLeaf | src/main/kotlin/com/reevajs/regexp/parser/Optimizer.kt:20 | leaves come back unchanged |
| Optimizer.OptimizeKeepsShape | src/main/kotlin/com/reevajs/regexp/parser/Optimizer.kt:5-21 | `optimize` keeps node kind, group names and count, index, lookaround kind, laziness and bounds |
| Parser.CodePointToInt | src/main/kotlin/com/reevajs/regexp/parser/Parser.kt:441-452 | a digit value is below the base; in bases up to 10 exactly the decimal digits below the base have one; letters count from 10 |
| Parser.DigitsAt | src/main/kotlin/com/reevajs/regexp/parser/Parser.kt:461-465 | the digit run stays inside the input and has at most `max` digits |
| Parser.DigitsAtDigits | src/main/kotlin/com/reevajs/regexp/parser/Parser.kt:461-465 | the run is the longest one: each element is its code point's digit value, and it stops at a non-digit, at `max` or at the end |
| Parser.DigitsAtStops | src/main/kotlin/com/reevajs/regexp/parser/Parser.kt:462 | the run ends at the first non-digit |
| Parser.DigitsAtContinues | src/main/kotlin/com/reevajs/regexp/parser/Parser.kt:461-464 | a digit below `max` after a prefix of the run extends it |
| Parser.Accumulate | src/main/kotlin/com/reevajs/regexp/parser/Parser.kt:463 | the accumulated value is always a Kotlin Int |
| Parser.AccumulateIsPositional | src/main/kotlin/com/reevajs/regexp/parser/Parser.kt:463 | in bases 8 and 16 the `or` accumulation equals the positional value while it fits an Int |
| Parser.AccumulateStep | src/main/kotlin/com/reevajs/regexp/parser/Parser.kt:463 | one step below 2^31 is `p * base + d` |
| Parser.PositionalBelowPower | src/main/kotlin/com/reevajs/regexp/parser/Parser.kt:461 | k digits have a positional value below base^k |
| Parser.DecimalAccumulateBounds | src/main/kotlin/com/reevajs/regexp/parser/Parser.kt:226 | up to eight decimal digits accumulate into [0, 10^n), so a `{n,m}` bound never wraps |
| Parser.DecimalAccumulateDiffers | src/main/kotlin/com/reevajs/regexp/parser/Parser.kt:463 | in base 10 the accumulation is not positional: `12` gives 10 |
| Parser.HexAccumulateWraps | src/main/kotlin/com/reevajs/regexp/parser/Parser.kt:414-415 | `\u{FFFFFFFF}` accumulates to -1, so the `0x10ffff` check passes a negative code point |
| Parser.AccumulatePrefix | src/main/kotlin/com/reevajs/regexp/parser/Parser.kt:461-465 | accumulating one more digit of a run is one more loop step |
| Parser.FindFrom | src/main/kotlin/com/reevajs/regexp/parser/Parser.kt:495-496 | the position `consumeUntil` stops at: it holds the delimiter unless it is the end, and never lies before `i` |
| Parser.FindFromIsFirst | src/main/kotlin/com/reevajs/regexp/parser/Parser.kt:495-496 | no position `consumeUntil` steps over holds the delimiter, so it stops at the first one |
| Parser.IndexOf | src/main/kotlin/com/reevajs/regexp/parser/Parser.kt:359 | the first `=` in the text, or its length |
| Parser.SplitName | src/main/kotlin/com/reevajs/regexp/parser/Parser.kt:359-361 | `split('=')`: the parts before the first `=` and between it and any second `=` |
| Parser.ClassName | src/main/kotlin/com/reevajs/regexp/parser/Parser.kt:359-371 | `\p{Value}` yields the normalised value or UnknownUnicodeValue; `\p{Property=Value}` yields `property + "=" + value` normalised by the alias tables, UnknownUnicodeProperty for an unknown property, else UnknownUnicodeValue for an unknown value |
| Parser.ClassNameIsCanonical | src/main/kotlin/com/reevajs/regexp/parser/Parser.kt:369-371 | with canonical alias tables, every emitted class name is canonical |
| Parser.Put | src/main/kotlin/com/reevajs/regexp/parser/Parser.kt:66 | a LinkedHashMap `put`: the pair is present afterwards, and the map grows by at most one |
| Parser.NamedGroupsInOrder | src/main/kotlin/com/reevajs/regexp/parser/Parser.kt:60-71 | below 32767 groups, `namedGroups` holds exactly one entry per named group, keyed by its opening-order index |
| Parser.PutFresh | src/main/kotlin/com/reevajs/regexp/parser/Parser.kt:66 | putting an absent key appends |
| Parser.FirstKeyOf | src/main/kotlin/com/reevajs/regexp/parser/Parser.kt:29 | `entries.first { value == name }.key` returns a key holding the name, and None exactly when no entry has it |
| Parser.ResolveAll | src/main/kotlin/com/reevajs/regexp/parser/Parser.kt:26-30 | keeps the node count; each listed reference awaiting a name `namedGroups` holds becomes a back reference to the first group with that name; the awaited names left are exactly those `namedGroups` lacks (`Parser.ResolveAllAwaiting`), and a list awaiting nothing is unchanged |
| Parser.Resolve | src/main/kotlin/com/reevajs/regexp/parser/Parser.kt:26-30 | a reference awaiting a name `namedGroups` holds becomes a back reference to the first group with that name |
| Parser.ResolveAwaiting | src/main/kotlin/com/reevajs/regexp/parser/Parser.kt:26-30 | after the pass a tree awaits exactly the names `namedGroups` lacks, and a tree awaiting nothing is unchanged |
| Parser.ResolveAllAwaiting | src/main/kotlin/com/reevajs/regexp/parser/Parser.kt:26-30 | the same for a list of nodes |
| Parser.GroupOf | src/main/kotlin/com/reevajs/regexp/parser/Parser.kt:83-90 | lookaheads get a trailing `MatchNode`, lookbehinds a reversed body plus `MatchNode`, and groups keep their index |
| Parser.AlternativeOf | src/main/kotlin/com/reevajs/regexp/parser/Parser.kt:200-202 | a side of `\|` is a lone group as it is, otherwise the nodes wrapped in a non-capturing group |
| Parser.ScannedName | src/main/kotlin/com/reevajs/regexp/parser/Parser.kt:473-490 | a name that is read is non-empty and runs up to the delimiter |
| Parser.ScannedNameIs | src/main/kotlin/com/reevajs/regexp/parser/Parser.kt:482-489 | a name read code point by code point is the scanned name |
| Parser.FirstNonName | src/main/kotlin/com/reevajs/regexp/parser/Parser.kt:482-487 | the first code point of the name that is neither a word character nor (in a class name) `=`, or the end of the name |
| Parser.FirstNonNameSkipsNames | src/main/kotlin/com/reevajs/regexp/parser/Parser.kt:482-487 | every code point before that one is allowed in a name |
| Parser.NameAt | src/main/kotlin/com/reevajs/regexp/parser/Parser.kt:473-490 | `parseName`: an empty name is ExpectedName at the start, a missing delimiter ExpectedDelimiter at the end of input, a refused character InvalidNameChar at its own position, the first refused one; otherwise the name's characters are exactly the code points up to the delimiter, and outside a class name it is `ScannedName` |
| Parser.IncompleteAt | src/main/kotlin/com/reevajs/regexp/parser/Parser.kt:403-408 | `incomplete()`: an IncompleteUnicodeEscape error in unicode mode, otherwise a literal `u` with the cursor back at `start` |
| Parser.BracedEscapeAt | src/main/kotlin/com/reevajs/regexp/parser/Parser.kt:413-424 | `\u{H...}`: no digit is `incomplete()`; a 32-bit accumulation above 0x10FFFF is UnicodeEscapeTooLarge after the `{`; otherwise a `}` gives that code point and the cursor after it, and no `}` is `incomplete()` |
| Parser.FourDigitEscapeAt | src/main/kotlin/com/reevajs/regexp/parser/Parser.kt:425-432 | `\uHHHH`: fewer than four hex digits is `incomplete()`; four give their positional value and the cursor after them |
| Parser.UnicodeEscapeAt | src/main/kotlin/com/reevajs/regexp/parser/Parser.kt:397-433 | nothing after `u` is `incomplete()`; a `{` selects the braced form, anything else the four-digit form; every success is a code point at most 0x10FFFF and every error UnicodeEscapeTooLarge or, in unicode mode, IncompleteUnicodeEscape |
| Parser.DigitEscapeAt | src/main/kotlin/com/reevajs/regexp/parser/Parser.kt:322-340 | in a class up to three octal digits give their positional value and a lone 8 or 9 is itself; elsewhere up to three decimal digits give a numbered back reference below 1000, with the cursor after the digits |
| Parser.HexEscapeAt | src/main/kotlin/com/reevajs/regexp/parser/Parser.kt:342-349 | two hex digits give their positional value and the cursor after them; otherwise a literal `x` |
| Parser.PropertyAt | src/main/kotlin/com/reevajs/regexp/parser/Parser.kt:350-356 | no `{` after `p`/`P` is ExpectedOpenBrace; otherwise the braced name, negated for `P` |
| Parser.PropertyNameAt | src/main/kotlin/com/reevajs/regexp/parser/Parser.kt:357-375 | `parseName`'s error on the braced name is the result; otherwise the cursor steps over the `}` and the result is `ClassName`'s error there or its unicode class, negated when asked |
| Parser.NamedReferenceAt | src/main/kotlin/com/reevajs/regexp/parser/Parser.kt:381-391 | no `<` after `k` gives a literal `k`; otherwise the reference name after `<` |
| Parser.ReferenceNameAt | src/main/kotlin/com/reevajs/regexp/parser/Parser.kt:383-388 | when the name is read, a reference awaiting exactly `ScannedName` of the text, the cursor after the `>`; otherwise `parseName`'s error |
| Parser.OtherEscapeAt | src/main/kotlin/com/reevajs/regexp/parser/Parser.kt:322-393 | the dispatch: digits, `u`, `x`, `p`/`P` and `k` give their own readings (`\k` in a class is EscapeKInClass); any other code point is itself, the cursor after it |
| Parser.EscapeAt | src/main/kotlin/com/reevajs/regexp/parser/Parser.kt:262-395 | a backslash at the end is TrailingBackslash; a fixed escape gives its node; the others as `OtherEscapeAt`; in a class every success is a class member, and only `\k<name>` adds a reference, awaiting the scanned name |
| Parser.RangeAt | src/main/kotlin/com/reevajs/regexp/parser/Parser.kt:131-138 | a range out of order is RangeOutOfOrder; equal ends give one code point, otherwise a range node |
| Parser.RangeEndAt | src/main/kotlin/com/reevajs/regexp/parser/Parser.kt:118-138 | after the `-`: the end of input is an index error; a plain code point or an escape that yields one closes the range; an escape that is not a code point is InvalidRangeMember |
| Parser.ClassMemberAt | src/main/kotlin/com/reevajs/regexp/parser/Parser.kt:102-141 | a plain code point not followed by `-` (or by `-]`) is itself; followed by `-` it starts a range; an escape not followed by `-` is its node, an escape starting a range must be a code point or it is InvalidRangeMember |
| Parser.ClassMembersAt | src/main/kotlin/com/reevajs/regexp/parser/Parser.kt:102-142 | the members read up to `]` or the end, stopping at the first error; on success they are all class members and the stop is a `]` or the end |
| Parser.MembersFrom | src/main/kotlin/com/reevajs/regexp/parser/Parser.kt:102-142 | one member, then the members after it, in order |
| Parser.ClassAt | src/main/kotlin/com/reevajs/regexp/parser/Parser.kt:92-148 | the members from the `[` plus one, or plus three after `[^`; a member's error is the result; otherwise a `]` closes a class node, inverted exactly after `[^`, and no `]` is ExpectedCloseBracket |
| Parser.BoundsAt | src/main/kotlin/com/reevajs/regexp/parser/Parser.kt:226-242 | complete bounds exactly when up to eight digits, then `}` or `,` with an optional number and `}`, follow the `{`; then the lower bound, the upper bound of `UpperBoundAt` and the position after the `}`, both below 10^8 |
| Parser.UpperBoundAt | src/main/kotlin/com/reevajs/regexp/parser/Parser.kt:234-239 | no `,` keeps the lower bound; after a `,`, no digits give none and up to eight digits give their value, with the position after them |
| Parser.RepetitionOf | src/main/kotlin/com/reevajs/regexp/parser/Parser.kt:244-255 | out-of-order bounds are QuantifierOutOfOrder; a quantified target (a repetition included) is InvalidQuantifier; a bound of 32767 or more fails an `expect`; otherwise a repetition of the target with exactly these bounds, lazy exactly when `?` follows |
| Parser.CaretSkipsOneMember | src/main/kotlin/com/reevajs/regexp/parser/Parser.kt:95-96 | `[^ab]` is an inverted class holding only `b`: the code point after `^` is skipped |
| Parser.OneMemberClass | src/main/kotlin/com/reevajs/regexp/parser/Parser.kt:92-148 | `[a]` is a class holding the one code point `a` |
| Parser.BoundsOutOfOrder | src/main/kotlin/com/reevajs/regexp/parser/Parser.kt:226-245 | `a{5,2}` has complete bounds 5 and 2, and the repetition is QuantifierOutOfOrder after the `}` |
| Parser.BoundsIncomplete | src/main/kotlin/com/reevajs/regexp/parser/Parser.kt:226-242 | `a{2` and `a{2,x}` have incomplete bounds |
| Parser.BracedEscapeTooLarge | src/main/kotlin/com/reevajs/regexp/parser/Parser.kt:413-416 | `\u{110000}` in unicode mode is UnicodeEscapeTooLarge after the `{` |
| Parser.QuantifierOf | src/main/kotlin/com/reevajs/regexp/parser/Parser.kt:183-197 | `?`, `*` and `+` wrap the target in a quantifier with the given laziness |
| Parser.FirstKeyOfNamed | src/main/kotlin/com/reevajs/regexp/parser/Parser.kt:29 | every group name leads to the index of the first group with that name |
| Parser.EntriesHas | src/main/kotlin/com/reevajs/regexp/parser/Parser.kt:65-66 | every named group has its entry |
| Parser.ReferenceCheckPasses | src/main/kotlin/com/reevajs/regexp/parser/Parser.kt:26-30 | when every referenced name exists, the final pass cannot throw |
| Parser.ReferenceCheckReportsUnknown | src/main/kotlin/com/reevajs/regexp/parser/Parser.kt:27-28 | a reference to a missing name is always reported |
| Parser.ReferenceCheckNamed | src/main/kotlin/com/reevajs/regexp/parser/Parser.kt:26-30 | a passing final pass found every referenced name |
| Parser.WithNode | src/main/kotlin/com/reevajs/regexp/parser/Parser.kt:520-522 | `+node` appends to the innermost buffer and leaves the outer buffers alone |
| Parser.ReplaceLast | src/main/kotlin/com/reevajs/regexp/parser/Parser.kt:185 | pop-then-push replaces the innermost buffer's last node and nothing else |
| Parser.WithNodeInjective | src/main/kotlin/com/reevajs/regexp/parser/Parser.kt:524 | `popNode` undoes `+node` |
| Parser.GroupLogAppend | src/main/kotlin/com/reevajs/regexp/parser/Parser.kt:62-70 | opening a group under a fresh name or none keeps names distinct and extends the name set |
| Parser.ShortRunIsPositional | src/main/kotlin/com/reevajs/regexp/parser/Parser.kt:324 | a run of at most k octal or hex digits with base^k below 2^31 accumulates to its positional value |
| Parser.DecimalRunBounds | src/main/kotlin/com/reevajs/regexp/parser/Parser.kt:333 | at most k ≤ 8 decimal digits accumulate into [0, 10^k) |
| Parser.Parser.constructor | src/main/kotlin/com/reevajs/regexp/parser/Parser.kt:5-12 | starts at cursor 0 with no buffers, groups or references |
| Parser.Parser.Peek | src/main/kotlin/com/reevajs/regexp/parser/Parser.kt:516 | the code point `n` ahead, and None exactly when that is out of range |
| Parser.Parser.ConsumeIf | src/main/kotlin/com/reevajs/regexp/parser/Parser.kt:503-514 | true exactly when the literal comes next; then the cursor moves past it, otherwise it stays |
| Parser.Parser.ConsumeUntil | src/main/kotlin/com/reevajs/regexp/parser/Parser.kt:493-501 | moves to the next delimiter or the end, returning the skipped code points, or null when it did not move |
| Parser.Parser.ParseNumber | src/main/kotlin/com/reevajs/regexp/parser/Parser.kt:454-471 | the longest digit run up to `max`, its accumulated value, null unless its length is in [min, max]; the cursor does not move |
| Parser.Parser.ReadDigits | src/main/kotlin/com/reevajs/regexp/parser/Parser.kt:461-465 | the loop counts exactly the digit run and accumulates its value |
| Parser.Parser.ParseName | src/main/kotlin/com/reevajs/regexp/parser/Parser.kt:473-490 | a non-empty name of word characters (plus `=` in a class name) up to the delimiter, which is stepped over; otherwise the matching syntax error at the offending position |
| Parser.Parser.Add | src/main/kotlin/com/reevajs/regexp/parser/Parser.kt:520-522 | the node is appended to the innermost buffer |
| Parser.Parser.PopNode | src/main/kotlin/com/reevajs/regexp/parser/Parser.kt:524 | removes and returns the innermost buffer's last node |
| Parser.Parser.PushNodeBuffer | src/main/kotlin/com/reevajs/regexp/parser/Parser.kt:526-528 | pushes an empty buffer |
| Parser.Parser.PopNodeBuffer | src/main/kotlin/com/reevajs/regexp/parser/Parser.kt:530 | removes and returns the innermost buffer |
| Parser.Parser.ParseEscape | src/main/kotlin/com/reevajs/regexp/parser/Parser.kt:262-395 | does what `EscapeAt` says: a trailing backslash is an error; a fixed escape adds its node; the others as `ParseOtherEscape`; the cursor steps past the escape |
| Parser.Parser.ParseOtherEscape | src/main/kotlin/com/reevajs/regexp/parser/Parser.kt:322-393 | does what `OtherEscapeAt` says: digits, `u`, `x`, `p`/`P` and `k` go to their parsers, and any other code point is added as itself, the cursor after it |
| Parser.Parser.ParseDigitEscape | src/main/kotlin/com/reevajs/regexp/parser/Parser.kt:322-340 | `\1`–`\9` are octal in a class and numbered references elsewhere |
| Parser.Parser.ParseOctalEscape | src/main/kotlin/com/reevajs/regexp/parser/Parser.kt:323-331 | up to three octal digits give their value; a lone 8 or 9 stays a literal digit |
| Parser.Parser.ParseNumberedReference | src/main/kotlin/com/reevajs/regexp/parser/Parser.kt:332-339 | up to three decimal digits become a back reference to that index |
| Parser.Parser.ParseHexEscape | src/main/kotlin/com/reevajs/regexp/parser/Parser.kt:342-349 | two hex digits give their value, otherwise a literal `x` |
| Parser.Parser.ParseUnicodeEscapeSequence | src/main/kotlin/com/reevajs/regexp/parser/Parser.kt:397-433 | does what `UnicodeEscapeAt` says: the braced or four-digit form, `incomplete()` when nothing follows, a code point at most 0x10FFFF on success |
| Parser.Parser.ParseBracedEscape | src/main/kotlin/com/reevajs/regexp/parser/Parser.kt:413-424 | does what `BracedEscapeAt` says: the digits' value or `incomplete()`, UnicodeEscapeTooLarge above 0x10FFFF, then a required `}` |
| Parser.Parser.ParseFourDigitEscape | src/main/kotlin/com/reevajs/regexp/parser/Parser.kt:425-432 | does what `FourDigitEscapeAt` says: four hex digits give their positional value, fewer are `incomplete()` |
| Parser.Parser.Incomplete | src/main/kotlin/com/reevajs/regexp/parser/Parser.kt:403-408 | an error in unicode mode, otherwise a literal `u` with the cursor reset after it |
| Parser.Parser.ParseProperty | src/main/kotlin/com/reevajs/regexp/parser/Parser.kt:350-376 | does what `PropertyAt` says: `{` is required, then the braced name |
| Parser.Parser.ParsePropertyName | src/main/kotlin/com/reevajs/regexp/parser/Parser.kt:357-375 | does what `PropertyNameAt` says: the name up to `}`, and `ClassName`'s class, negated for `\P`, or its unknown-name error |
| Parser.Parser.ParseNamedReference | src/main/kotlin/com/reevajs/regexp/parser/Parser.kt:377-392 | does what `NamedReferenceAt` says: `\k<name>` records a reference awaiting the name in the text; `\k` without `<` is a literal `k` |
| Parser.Parser.ParseReferenceName | src/main/kotlin/com/reevajs/regexp/parser/Parser.kt:383-388 | does what `ReferenceNameAt` says: the reference awaits the scanned name and is recorded, or `parseName`'s error |
| Parser.Parser.ConsumeGroupPrefix | src/main/kotlin/com/reevajs/regexp/parser/Parser.kt:54-73 | consumes the first of `?:`, `?=`, `?!`, `?<=`, `?<!`, `?<` that matches, in that order |
| Parser.Parser.ParseClass | src/main/kotlin/com/reevajs/regexp/parser/Parser.kt:92-148 | does what `ClassAt` says: members from after `[`, or one code point later after `[^`, then `]` and the class node; references are untouched |
| Parser.Parser.ParseClassMembers | src/main/kotlin/com/reevajs/regexp/parser/Parser.kt:100-142 | the innermost buffer is a new one holding exactly the members `ClassMembersAt` reads, the cursor where they stop, or their error |
| Parser.Parser.CloseClass | src/main/kotlin/com/reevajs/regexp/parser/Parser.kt:144-147 | a missing `]` is ExpectedCloseBracket; otherwise the cursor steps over it and the innermost buffer's members become the class node in the buffer below |
| Parser.Parser.ParseClassMember | src/main/kotlin/com/reevajs/regexp/parser/Parser.kt:102-141 | does what `ClassMemberAt` says: an escape, a single code point, or an ordered range `a-b` that collapses to `a` when `a == b` |
| Parser.Parser.ParseClassEscape | src/main/kotlin/com/reevajs/regexp/parser/Parser.kt:103-113 | the escape is read and taken back off the buffer; a non-code-point escape cannot start a range |
| Parser.Parser.ParseRangeEnd | src/main/kotlin/com/reevajs/regexp/parser/Parser.kt:118-138 | does what `RangeEndAt` says: the end after `-` must be a code point, and the range is checked and added |
| Parser.Parser.AddRange | src/main/kotlin/com/reevajs/regexp/parser/Parser.kt:131-138 | start above end is an error; equal ends give one code point, otherwise a range node |
| Parser.Parser.OpenGroup | src/main/kotlin/com/reevajs/regexp/parser/Parser.kt:62-71 | a capturing group takes the next index and a named one is entered in `namedGroups` |
| Parser.Parser.OpenGroupFor | src/main/kotlin/com/reevajs/regexp/parser/Parser.kt:60-72 | a named group reads its name up to `>` and may not reuse one; named and plain groups take the next index |
| Parser.Parser.ParseGroup | src/main/kotlin/com/reevajs/regexp/parser/Parser.kt:48-90 | the prefix decides the node; capturing groups are numbered in opening order |
| Parser.Parser.BeginGroup | src/main/kotlin/com/reevajs/regexp/parser/Parser.kt:49-73 | steps past `(`, pushes a buffer and reads the prefix |
| Parser.Parser.CloseGroup | src/main/kotlin/com/reevajs/regexp/parser/Parser.kt:75-90 | the body up to `)`; a missing `)` is an error; the buffer closes into the group's node |
| Parser.Parser.ParseSequence | src/main/kotlin/com/reevajs/regexp/parser/Parser.kt:75-76 | atoms go into the innermost buffer up to `)` or the end |
| Parser.Parser.ParseNode | src/main/kotlin/com/reevajs/regexp/parser/Parser.kt:46-170 | adds one atom; `+ * ? ( ) [ /` may not stand alone; `^ $ .` are anchors and any |
| Parser.Parser.ParseSingle | src/main/kotlin/com/reevajs/regexp/parser/Parser.kt:39-44 | an atom followed by any number of quantifiers and alternations |
| Parser.Parser.TryParseSecondary | src/main/kotlin/com/reevajs/regexp/parser/Parser.kt:172-260 | false at the end, with no buffer, or on a non-quantifier; otherwise handles one quantifier or `\|` |
| Parser.Parser.ParseQuantifier | src/main/kotlin/com/reevajs/regexp/parser/Parser.kt:183-197 | wraps the last node in `?`/`*`/`+` (lazy after `?`); quantifying a quantifier is an error |
| Parser.Parser.ParseAlternation | src/main/kotlin/com/reevajs/regexp/parser/Parser.kt:198-215 | the buffer so far is the left side, the right side runs to `)` or the end, and the buffer ends holding the alternation |
| Parser.Parser.ParseRepetition | src/main/kotlin/com/reevajs/regexp/parser/Parser.kt:216-257 | nothing after `{` is an index error; incomplete bounds (`BoundsAt` is None) add a literal `{` and set the cursor to the code point value; complete ones give `RepetitionOf`'s outcome around the last node |
| Parser.Parser.AddRepetition | src/main/kotlin/com/reevajs/regexp/parser/Parser.kt:244-255 | the outcome of `RepetitionOf` on the last node: its error, or the last node replaced by the repetition and the cursor past a lazy `?` |
| Parser.Parser.ReadBounds | src/main/kotlin/com/reevajs/regexp/parser/Parser.kt:226-242 | None exactly when `BoundsAt` is None; otherwise both bounds it gives and the cursor after the `}` |
| Parser.Parser.ReadUpperBound | src/main/kotlin/com/reevajs/regexp/parser/Parser.kt:234-239 | the upper bound and cursor `UpperBoundAt` gives: the lower bound again, none after a bare `,`, or the number after `,` |
| Parser.Parser.IncompleteBrace | src/main/kotlin/com/reevajs/regexp/parser/Parser.kt:220-224 | adds a literal `{`, sets the cursor to `start` and returns false |
| Parser.Parser.CheckReferences | src/main/kotlin/com/reevajs/regexp/parser/Parser.kt:26-30 | the final pass over the references, in source order, reports the first unknown name |
| Parser.Parser.Parse | src/main/kotlin/com/reevajs/regexp/parser/Parser.kt:20-37 | on success: input used up, buffer stack empty, every reference named, and the optimized root of the top nodes plus `MatchNode` with references resolved |
| Parser.ParsePattern | src/main/kotlin/com/reevajs/regexp/parser/Parser.kt:20-37 | a parse yields a root whose names and group count come from one group log with distinct names |
| Opcode.DeclaredAreDistinctBytes | src/main/kotlin/com/reevajs/regexp/compiler/Opcode.kt:12-209 | the 35 opcodes are the distinct Bytes 1 to 35 |
| Opcode.DocumentedLength | src/main/kotlin/com/reevajs/regexp/compiler/Opcode.kt:8-209 | the documented instruction length at `i` never runs past the end |
| ByteBuffer.Grown | src/main/kotlin/com/reevajs/regexp/compiler/GrowableByteBuffer.kt:60-62 | the new 1024-byte buffer holds the old buffer's bytes from `position` to its limit at the start |
| ByteBuffer.EnsureCapacityState | src/main/kotlin/com/reevajs/regexp/compiler/GrowableByteBuffer.kt:59-65 | capacity never exceeds 1024, because `size` stays 512 |
| ByteBuffer.PutState | src/main/kotlin/com/reevajs/regexp/compiler/GrowableByteBuffer.kt:46-49 | a relative put overflows when too few bytes remain, and otherwise keeps the buffer valid |
| ByteBuffer.PutShortAtState | src/main/kotlin/com/reevajs/regexp/compiler/Compiler.kt:252 | an absolute `putShort` keeps the position and throws unless both bytes fit |
| ByteBuffer.WriteAppends | src/main/kotlin/com/reevajs/regexp/compiler/GrowableByteBuffer.kt:26-49 | while `position + n < 512` a write stores its bytes at `position` and advances past them |
| ByteBuffer.WriteAllAppends | src/main/kotlin/com/reevajs/regexp/compiler/GrowableByteBuffer.kt:26-63 | any run of writes on the buffer as written appends all its bytes while the run stays below 512 bytes, where it agrees with the corrected buffer |
| ByteBuffer.GrowthDropsPrefix | src/main/kotlin/com/reevajs/regexp/compiler/GrowableByteBuffer.kt:59-63 | as written, growth loses every byte written so far |
| ByteBuffer.WriteAfterGrowthLosesOutput | src/main/kotlin/com/reevajs/regexp/compiler/GrowableByteBuffer.kt:59-63 | 511 one-byte writes of 1 into a fresh buffer, then a 512th of 2: the written bytes become `[0, 2]`, so none of the 511 survive and the kept 0 was never written |
| ByteBuffer.PutShortAtReadBack | src/main/kotlin/com/reevajs/regexp/compiler/Compiler.kt:252 | a patched Short reads back as written |
| ByteBuffer.PutShortAtFrame | src/main/kotlin/com/reevajs/regexp/compiler/Compiler.kt:252 | bytes outside the patched two are untouched |
| ByteBuffer.GrowableByteBuffer.constructor | src/main/kotlin/com/reevajs/regexp/compiler/GrowableByteBuffer.kt:6-9 | a zeroed 512-byte buffer at position 0 |
| ByteBuffer.GrowableByteBuffer.SetPosition | src/main/kotlin/com/reevajs/regexp/compiler/GrowableByteBuffer.kt:11-15 | IllegalArgument unless `0 <= p <= limit`, otherwise the position becomes `p` |
| ByteBuffer.GrowableByteBuffer.EnsureCapacity | src/main/kotlin/com/reevajs/regexp/compiler/GrowableByteBuffer.kt:59-65 | corrected: afterwards `n` more bytes fit and what was written is unchanged |
| ByteBuffer.GrowableByteBuffer.Put | src/main/kotlin/com/reevajs/regexp/compiler/GrowableByteBuffer.kt:48 | the written bytes are the old ones plus `bs` |
| ByteBuffer.GrowableByteBuffer.WriteBytes | src/main/kotlin/com/reevajs/regexp/compiler/GrowableByteBuffer.kt:46-49 | corrected buffer: appends `bs` to what was written |
| ByteBuffer.GrowableByteBuffer.WriteByte | src/main/kotlin/com/reevajs/regexp/compiler/GrowableByteBuffer.kt:26-29 | corrected buffer: appends the byte's pattern |
| ByteBuffer.GrowableByteBuffer.WriteShort | src/main/kotlin/com/reevajs/regexp/compiler/GrowableByteBuffer.kt:31-34 | corrected buffer: appends the two big-endian bytes |
| ByteBuffer.GrowableByteBuffer.WriteInt | src/main/kotlin/com/reevajs/regexp/compiler/GrowableByteBuffer.kt:36-39 | corrected buffer: appends the four big-endian bytes |
| ByteBuffer.GrowableByteBuffer.WriteLong | src/main/kotlin/com/reevajs/regexp/compiler/GrowableByteBuffer.kt:41-44 | corrected buffer: appends the eight big-endian bytes |
| ByteBuffer.GrowableByteBuffer.PutShortAt | src/main/kotlin/com/reevajs/regexp/compiler/Compiler.kt:252 | stores the Short at `index` when it fits, and throws otherwise |
| ByteBuffer.GrowableByteBuffer.Finalize | src/main/kotlin/com/reevajs/regexp/compiler/GrowableByteBuffer.kt:17-24 | returns exactly the written bytes and resets the position to 0 |
| Compiler.AsciiBytes | src/main/kotlin/com/reevajs/regexp/compiler/Compiler.kt:62-65 | one byte per name character |
| Compiler.ListBytes | src/main/kotlin/com/reevajs/regexp/compiler/Compiler.kt:44 | one stored byte per list element |
| Compiler.CodeFailsOnlyByExpect | src/main/kotlin/com/reevajs/regexp/compiler/Compiler.kt:15-230 | every failure of `compileNode` is a failed `expect` |
| Compiler.CodeAllFailsOnlyByExpect | src/main/kotlin/com/reevajs/regexp/compiler/Compiler.kt:17 | compiling a node list fails only by `expect` |
| Compiler.CodePointTiers | src/main/kotlin/com/reevajs/regexp/compiler/Compiler.kt:27-40 | a code point takes the smallest of CODEPOINT1/2/4 that holds it; it reads back as itself from -128 on, and one below -128 goes to CODEPOINT1 and reads back as its `toByte()` |
| Compiler.RangeByteTier | src/main/kotlin/com/reevajs/regexp/compiler/Compiler.kt:92-96 | both ends at most 127: RANGE1, each end reads back as its `toByte()`, which is the end itself from -128 on |
| Compiler.RangeShortTier | src/main/kotlin/com/reevajs/regexp/compiler/Compiler.kt:97-101 | both ends at most 32767, one above 127: RANGE2, each end reads back as its `toShort()`, the end itself from -32768 on |
| Compiler.RangeIntTier | src/main/kotlin/com/reevajs/regexp/compiler/Compiler.kt:102-106 | one end above 32767: RANGE4, both ends read back |
| Compiler.BackReferenceLowering | src/main/kotlin/com/reevajs/regexp/compiler/Compiler.kt:67-78 | an index below `numGroups` keeps BACK_REFERENCE; any other becomes a literal code point of that value |
| Compiler.ListLayout | src/main/kotlin/com/reevajs/regexp/compiler/Compiler.kt:41-45 | the count, then each code point as one byte that reads back |
| Compiler.JumpAt | src/main/kotlin/com/reevajs/regexp/compiler/Compiler.kt:237-246 | the offset stored at a slot designates the target relative to the slot |
| Compiler.JumpBytesDesignate | src/main/kotlin/com/reevajs/regexp/compiler/Compiler.kt:239-241 | jump bytes written at a slot designate their target wherever they sit |
| Compiler.ZeroOrOneLayout | src/main/kotlin/com/reevajs/regexp/compiler/Compiler.kt:108-119 | `?`: the fork skips exactly the body |
| Compiler.ZeroOrMoreLayout | src/main/kotlin/com/reevajs/regexp/compiler/Compiler.kt:120-142 | `*`: the first fork skips the loop and the second returns to the body's start |
| Compiler.OneOrMoreLayout | src/main/kotlin/com/reevajs/regexp/compiler/Compiler.kt:143-154 | `+`: the body, then a fork back to its start |
| Compiler.RepetitionHead | src/main/kotlin/com/reevajs/regexp/compiler/Compiler.kt:179-186 | the 12-byte head: bounds, then three jumps |
| Compiler.RepetitionLayout | src/main/kotlin/com/reevajs/regexp/compiler/Compiler.kt:164-191 | RANGE_JUMP with the bounds and jumps into the body and past the loop, a fork past it, the body, and a JUMP back to the start |
| Compiler.AlternationLayout | src/main/kotlin/com/reevajs/regexp/compiler/Compiler.kt:193-215 | the fork aims at the right side; the jump after the left side goes past it |
| Compiler.GroupLayout | src/main/kotlin/com/reevajs/regexp/compiler/Compiler.kt:18-26 | START_GROUP with the index, or START_NON_CAPTURING_GROUP, then the children, then END_GROUP |
| Compiler.ClassLayout | src/main/kotlin/com/reevajs/regexp/compiler/Compiler.kt:79-85 | the entry count, the block length, then exactly that many bytes |
| Compiler.LookLayout | src/main/kotlin/com/reevajs/regexp/compiler/Compiler.kt:216-228 | the block length, then exactly that many bytes |
| Compiler.PatchAll | src/main/kotlin/com/reevajs/regexp/compiler/Compiler.kt:251-252 | patching keeps the buffer valid and the position |
| Compiler.PatchAllReadBack | src/main/kotlin/com/reevajs/regexp/compiler/Compiler.kt:248-253 | after patching, every recorded slot holds a jump to the label's position |
| Compiler.PatchAllStep | src/main/kotlin/com/reevajs/regexp/compiler/Compiler.kt:251-252 | patching one more slot is one more `putShort` |
| Compiler.PatchAllPrefixNone | src/main/kotlin/com/reevajs/regexp/compiler/Compiler.kt:251-252 | once one slot cannot be patched, the whole patch fails |
| Compiler.PutPlaceholder | src/main/kotlin/com/reevajs/regexp/compiler/Compiler.kt:243-244 | patching a `[0, 0]` placeholder replaces exactly those two bytes |
| Compiler.PatchOne | src/main/kotlin/com/reevajs/regexp/compiler/Compiler.kt:248-253 | a label referenced from one slot ends up as a jump to it |
| Compiler.PatchTwo | src/main/kotlin/com/reevajs/regexp/compiler/Compiler.kt:182-191 | the two end slots of a repetition both jump to its end |
| Compiler.ZeroOrOneAssembly | src/main/kotlin/com/reevajs/regexp/compiler/Compiler.kt:115-118 | the patched bytes of `?` are its layout |
| Compiler.ZeroOrMoreAssembly | src/main/kotlin/com/reevajs/regexp/compiler/Compiler.kt:132-141 | the patched bytes of `*` are its layout |
| Compiler.RepetitionBytesPlaced | src/main/kotlin/com/reevajs/regexp/compiler/Compiler.kt:182-186 | placing the body label patches the repetition's first jump |
| Compiler.RepetitionAssembly | src/main/kotlin/com/reevajs/regexp/compiler/Compiler.kt:174-191 | the patched bytes of a counted loop are its layout |
| Compiler.RepetitionEndPlaced | src/main/kotlin/com/reevajs/regexp/compiler/Compiler.kt:183-191 | placing the end label patches both end slots |
| Compiler.AlternationRhsPlaced | src/main/kotlin/com/reevajs/regexp/compiler/Compiler.kt:208-212 | placing the right-side label patches the fork |
| Compiler.AlternationEndPlaced | src/main/kotlin/com/reevajs/regexp/compiler/Compiler.kt:211-214 | placing the end label patches the jump, giving the alternation's layout |
| Compiler.Label.constructor | src/main/kotlin/com/reevajs/regexp/compiler/Compiler.kt:255-258 | a new label is unplaced with no recorded slots |
| Compiler.Compiler.constructor | src/main/kotlin/com/reevajs/regexp/compiler/Compiler.kt:7-8 | a fresh empty buffer for the root |
| Compiler.Compiler.Compile | src/main/kotlin/com/reevajs/regexp/compiler/Compiler.kt:10-13 | on the corrected buffer: returns the bytes of the root's children, or the failed `expect` |
| Compiler.Compiler.CompileNested | src/main/kotlin/com/reevajs/regexp/compiler/Compiler.kt:82 | on the corrected buffer: a nested compile of a child list, with the same group count |
| Compiler.Compiler.CompileNode | src/main/kotlin/com/reevajs/regexp/compiler/Compiler.kt:15-230 | on the corrected buffer: appends exactly `Code(node)` to the buffer, or fails as `Code(node)` does |
| Compiler.Compiler.CompileQuantifier | src/main/kotlin/com/reevajs/regexp/compiler/Compiler.kt:108-192 | on the corrected buffer: the four quantifier branches emit `Code(node)` |
| Compiler.Compiler.CompileBranch | src/main/kotlin/com/reevajs/regexp/compiler/Compiler.kt:17-26 | on the corrected buffer: the other branches with children emit `Code(node)` |
| Compiler.Compiler.CompileLeaf | src/main/kotlin/com/reevajs/regexp/compiler/Compiler.kt:27-107 | on the corrected buffer: the childless branches emit their code |
| Compiler.Compiler.CompileAll | src/main/kotlin/com/reevajs/regexp/compiler/Compiler.kt:17 | on the corrected buffer: `forEach(::compileNode)` emits the concatenated code |
| Compiler.Compiler.WriteOp | src/main/kotlin/com/reevajs/regexp/compiler/Compiler.kt:46-57 | on the corrected buffer: appends the op byte |
| Compiler.Compiler.CompileOp | src/main/kotlin/com/reevajs/regexp/compiler/Compiler.kt:46-57 | on the corrected buffer: a single-op node is just its opcode |
| Compiler.Compiler.WriteJumpRef | src/main/kotlin/com/reevajs/regexp/compiler/Compiler.kt:237-246 | on the corrected buffer: a placed label gets its Short-checked offset; an unplaced one gets a recorded zero slot |
| Compiler.Compiler.WriteJump | src/main/kotlin/com/reevajs/regexp/compiler/Compiler.kt:232-235 | on the corrected buffer: the op, then the label reference |
| Compiler.Compiler.PlaceLabel | src/main/kotlin/com/reevajs/regexp/compiler/Compiler.kt:248-253 | the label takes the current position, and every recorded slot receives the distance to it |
| Compiler.Compiler.PatchSlots | src/main/kotlin/com/reevajs/regexp/compiler/Compiler.kt:251-252 | the patch loop computes `PatchAll` |
| Compiler.Compiler.CompileGroup | src/main/kotlin/com/reevajs/regexp/compiler/Compiler.kt:18-26 | on the corrected buffer: emits the group layout around the children's code |
| Compiler.Compiler.CompileCodePoint | src/main/kotlin/com/reevajs/regexp/compiler/Compiler.kt:27-40 | on the corrected buffer: emits the code point's tier |
| Compiler.Compiler.CompileCodePointList | src/main/kotlin/com/reevajs/regexp/compiler/Compiler.kt:41-45 | on the corrected buffer: emits the list layout |
| Compiler.Compiler.WriteListBytes | src/main/kotlin/com/reevajs/regexp/compiler/Compiler.kt:44 | on the corrected buffer: appends each list byte |
| Compiler.Compiler.CompileNegate | src/main/kotlin/com/reevajs/regexp/compiler/Compiler.kt:49-52 | on the corrected buffer: NEGATE_NEXT, then the negated node's code |
| Compiler.Compiler.CompileUnicodeClass | src/main/kotlin/com/reevajs/regexp/compiler/Compiler.kt:58-66 | on the corrected buffer: UNICODE_CLASS, the length and the ASCII name, each `expect`ed to fit |
| Compiler.Compiler.WriteAsciiName | src/main/kotlin/com/reevajs/regexp/compiler/Compiler.kt:62-65 | on the corrected buffer: succeeds exactly on an ASCII name, appending its bytes |
| Compiler.Compiler.CompileBackReference | src/main/kotlin/com/reevajs/regexp/compiler/Compiler.kt:67-78 | on the corrected buffer: emits the back-reference lowering |
| Compiler.Compiler.CompileCharacterClass | src/main/kotlin/com/reevajs/regexp/compiler/Compiler.kt:79-85 | on the corrected buffer: CHAR_CLASS, count, block length, then the separately compiled block |
| Compiler.Compiler.CompileInvertedCharacterClass | src/main/kotlin/com/reevajs/regexp/compiler/Compiler.kt:86-90 | on the corrected buffer: INVERTED_CHAR_CLASS, then the block with no header |
| Compiler.Compiler.CompileRange | src/main/kotlin/com/reevajs/regexp/compiler/Compiler.kt:91-107 | on the corrected buffer: emits the range tier chosen by both ends |
| Compiler.Compiler.CompileZeroOrOne | src/main/kotlin/com/reevajs/regexp/compiler/Compiler.kt:108-119 | on the corrected buffer: emits the `?` layout |
| Compiler.Compiler.FinishZeroOrOne | src/main/kotlin/com/reevajs/regexp/compiler/Compiler.kt:118 | placing the end label completes the `?` layout |
| Compiler.Compiler.CompileZeroOrMore | src/main/kotlin/com/reevajs/regexp/compiler/Compiler.kt:120-142 | on the corrected buffer: emits the `*` layout |
| Compiler.Compiler.WriteForkHead | src/main/kotlin/com/reevajs/regexp/compiler/Compiler.kt:135-136 | on the corrected buffer: a fork with a recorded slot, then the body label placed |
| Compiler.Compiler.FinishZeroOrMore | src/main/kotlin/com/reevajs/regexp/compiler/Compiler.kt:140-141 | on the corrected buffer: the back fork and end label complete the `*` layout |
| Compiler.Compiler.CompileOneOrMore | src/main/kotlin/com/reevajs/regexp/compiler/Compiler.kt:143-154 | on the corrected buffer: emits the `+` layout |
| Compiler.Compiler.FinishOneOrMore | src/main/kotlin/com/reevajs/regexp/compiler/Compiler.kt:153 | on the corrected buffer: the back fork completes the `+` layout |
| Compiler.Compiler.CompileRepetition | src/main/kotlin/com/reevajs/regexp/compiler/Compiler.kt:155-192 | on the corrected buffer: nothing for `{0,0}`, the body for `{1,1}`, otherwise the counted loop |
| Compiler.Compiler.CompileCountedLoop | src/main/kotlin/com/reevajs/regexp/compiler/Compiler.kt:174-191 | on the corrected buffer: emits the counted loop layout |
| Compiler.Compiler.WriteCountedLoopHead | src/main/kotlin/com/reevajs/regexp/compiler/Compiler.kt:178-186 | on the corrected buffer: writes the loop head with its slots recorded |
| Compiler.Compiler.WriteRangeJump | src/main/kotlin/com/reevajs/regexp/compiler/Compiler.kt:179-183 | on the corrected buffer: RANGE_JUMP, the bounds, and two recorded slots |
| Compiler.Compiler.FinishCountedLoop | src/main/kotlin/com/reevajs/regexp/compiler/Compiler.kt:189-191 | on the corrected buffer: the jump back and the end label complete the loop |
| Compiler.Compiler.CompileAlternation | src/main/kotlin/com/reevajs/regexp/compiler/Compiler.kt:193-215 | on the corrected buffer: emits the alternation layout |
| Compiler.Compiler.CompileAlternationRhs | src/main/kotlin/com/reevajs/regexp/compiler/Compiler.kt:211-214 | on the corrected buffer: the right side once the left one is compiled |
| Compiler.Compiler.PlaceAlternationRhs | src/main/kotlin/com/reevajs/regexp/compiler/Compiler.kt:211-212 | on the corrected buffer: the jump past the right side, then the right-side label placed |
| Compiler.Compiler.FinishAlternation | src/main/kotlin/com/reevajs/regexp/compiler/Compiler.kt:214 | the end label completes the alternation |
| Compiler.Compiler.CompileLook | src/main/kotlin/com/reevajs/regexp/compiler/Compiler.kt:216-228 | on the corrected buffer: the lookaround op, the block length (`expect`ed below Short.MAX_VALUE), then the block |
| Compiler.CompileOpcodes | src/main/kotlin/com/reevajs/regexp/compiler/Compiler.kt:261-263 | on the corrected buffer: the program is the root's code with its group names, or the failed `expect` |
| Results.RangeHash | src/main/kotlin/com/reevajs/regexp/MatchResult.kt:27 | `IntRange.hashCode` is a Kotlin Int |
| Results.Until | src/main/kotlin/com/reevajs/regexp/Matcher.kt:62 | `a until b` runs from `a` to `b - 1`, or is empty when `b` is Int.MIN_VALUE |
| Results.ContentHash | src/main/kotlin/com/reevajs/regexp/MatchResult.kt:25 | `contentHashCode` is a Kotlin Int |
| Results.GroupHash | src/main/kotlin/com/reevajs/regexp/MatchResult.kt:24-28 | `MatchGroup.hashCode` is a Kotlin Int |
| Results.GroupEqualsIsEquivalence | src/main/kotlin/com/reevajs/regexp/MatchResult.kt:17-22 | `equals` is reflexive, symmetric and transitive |
| Results.EqualGroupsHashAlike | src/main/kotlin/com/reevajs/regexp/MatchResult.kt:17-28 | equal groups have equal hash codes, empty ranges included |
| Results.Copy | src/main/kotlin/com/reevajs/regexp/MatchResult.kt:13 | a copy equals and hashes like the original |
| Results.Get | src/main/kotlin/com/reevajs/regexp/MatchResult.kt:48 | `groups[key]` finds the entry with that key, and None exactly when no entry has it |
| Results.Range | src/main/kotlin/com/reevajs/regexp/MatchResult.kt:35-45 | as written: NullPointer exactly when there are no groups; `first` is the least `first`; `last` is decided by the group with the greatest key |
| Results.Span | src/main/kotlin/com/reevajs/regexp/MatchResult.kt:35-45 | corrected: from the least `first` to the greatest `last` over all groups |
| Results.NestedCapture | src/test/kotlin/com/reevajs/regexp/TestBase.kt:72 | the match of `(a)b` on "ab" is a sorted group map |
| Results.RangeMissesMatchEnd | src/main/kotlin/com/reevajs/regexp/MatchResult.kt:41 | as written `range` gives 0..0 for that match, while the corrected one gives 0..1 |
| Results.NamedGroups | src/main/kotlin/com/reevajs/regexp/MatchResult.kt:47-48 | pairs each declared name with its group in declaration order, and throws NullPointer exactly when a named group is missing |
| Matcher.Reversed | src/main/kotlin/com/reevajs/regexp/Matcher.kt:366 | `reversedArray()` puts element `i` at `n-1-i` |
| Matcher.ExtendAll | src/main/kotlin/com/reevajs/regexp/Matcher.kt:424-426 | every open group with the code points appended, nothing else changed |
| Matcher.ExtendAllTwice | src/main/kotlin/com/reevajs/regexp/Matcher.kt:422-429 | appending twice is appending the concatenation |
| Matcher.AdvancedKeeps | src/main/kotlin/com/reevajs/regexp/Matcher.kt:422-429 | advancing keeps every open group equal to the source slice from its start to the cursor, and moves the cursor by `n` |
| Matcher.AppendToAll | src/main/kotlin/com/reevajs/regexp/Matcher.kt:424-426 | the loop appends the code point to every open group |
| Matcher.MirroredCapture | src/main/kotlin/com/reevajs/regexp/Matcher.kt:374-377 | a capture of the reversed source, mirrored back, is the matching slice of the source |
| Matcher.MergeCaptures | src/main/kotlin/com/reevajs/regexp/Matcher.kt:367-379 | keeps every capture the thread held, adds each new non-zero group from the nested match (mirrored for lookbehind), and adds nothing else |
| Matcher.MergeKeeps | src/main/kotlin/com/reevajs/regexp/Matcher.kt:367-379 | merged captures are slices of the source |
| Matcher.SortedEntries | src/main/kotlin/com/reevajs/regexp/Matcher.kt:65 | the `TreeMap`: entries in ascending key order, each from the captures, and every capture present |
| Matcher.GetIn | src/main/kotlin/com/reevajs/regexp/Matcher.kt:65 | any entry's key finds its group in the sorted map |
| Matcher.Sorted | src/main/kotlin/com/reevajs/regexp/Matcher.kt:65 | sorted captures holding group 0 form a well-formed result whose group 0 is that capture |
| Matcher.ClosedCaptured | src/main/kotlin/com/reevajs/regexp/Matcher.kt:56-67 | closing group 0 of a consistent thread yields a result whose every group is a slice of the source |
| Matcher.IntKeyed | src/main/kotlin/com/reevajs/regexp/Matcher.kt:66 | `mapKeys { it.toInt() }` keeps order and names |
| Matcher.ClassNameReadsBack | src/main/kotlin/com/reevajs/regexp/Matcher.kt:213-218 | a class name the compiler wrote as ASCII reads back unchanged |
| Matcher.ListReadsBack | src/main/kotlin/com/reevajs/regexp/Matcher.kt:128-133 | a code point list the compiler wrote reads back as the same code points |
| Matcher.Matcher.constructor | src/main/kotlin/com/reevajs/regexp/Matcher.kt:9-22 | wraps the program with no pending threads, counts or negation, and the two flags |
| Matcher.Matcher.ReadByte | src/main/kotlin/com/reevajs/regexp/Matcher.kt:435-437 | the signed byte at the cursor, which moves by one; IndexOutOfBounds outside the buffer |
| Matcher.Matcher.ReadShort | src/main/kotlin/com/reevajs/regexp/Matcher.kt:439-441 | the big-endian Short at the cursor, which moves by two; IndexOutOfBounds when it does not fit |
| Matcher.Matcher.ReadInt | src/main/kotlin/com/reevajs/regexp/Matcher.kt:443-445 | the big-endian Int at the cursor, which moves by four; IndexOutOfBounds when it does not fit |
| Matcher.Matcher.ReadBytes | src/main/kotlin/com/reevajs/regexp/Matcher.kt:447-455 | `count` bytes from the cursor; a negative count, a bad position and an underflow each raise their own exception |
| Matcher.Matcher.ReadShortOfEmitted | src/main/kotlin/com/reevajs/regexp/Matcher.kt:439-441 | a Short the compiler emitted reads back as its value |
| Matcher.Matcher.ReadClassName | src/main/kotlin/com/reevajs/regexp/Matcher.kt:213-218 | the loop reads the name `ClassName` describes |
| Matcher.Matcher.AdvanceSource | src/main/kotlin/com/reevajs/regexp/Matcher.kt:422-429 | the loop computes `Advanced`: each code point appended to every open group, one cursor step each |
| Matcher.Matcher.Consume | src/main/kotlin/com/reevajs/regexp/Matcher.kt:400 | a passing test advances `n` and continues; a failing one fails |
| Matcher.Matcher.ConsumedKeeps | src/main/kotlin/com/reevajs/regexp/Matcher.kt:107-211 | a consuming test keeps the thread invariant and a passing one moves exactly `n` on |
| Matcher.Matcher.SourceMatches | src/main/kotlin/com/reevajs/regexp/Matcher.kt:136-139 | compares `source[c..c+len]` to the expected code points, and throws for a negative cursor |
| Matcher.Matcher.ExecGroupOp | src/main/kotlin/com/reevajs/regexp/Matcher.kt:89-106 | START_GROUP opens a capturing group at the cursor, START_NON_CAPTURING_GROUP an anonymous one; END_GROUP closes the innermost and stores its capture |
| Matcher.Matcher.ExecCodePointOp | src/main/kotlin/com/reevajs/regexp/Matcher.kt:107-127 | CODEPOINTn and RANGEn pass on an equal or in-range code point; negation flips the test but never lets a thread at the end pass |
| Matcher.Matcher.ExecTestOp | src/main/kotlin/com/reevajs/regexp/Matcher.kt:148-211 | START, END and WORD_BOUNDARY look without consuming; ANY, WORD, DIGIT and WHITESPACE consume one code point |
| Matcher.Matcher.ExecUnicodeClass | src/main/kotlin/com/reevajs/regexp/Matcher.kt:213-226 | passes on a member of the named ICU set, and keeps the thread invariant |
| Matcher.Matcher.ExecList | src/main/kotlin/com/reevajs/regexp/Matcher.kt:128-147 | fails when the source is too short, otherwise consumes the run when it matches (or, negated, when it does not) |
| Matcher.Matcher.ExecBackReference | src/main/kotlin/com/reevajs/regexp/Matcher.kt:227-253 | a group never captured matches the empty string; a captured one must recur at the cursor and is consumed |
| Matcher.Matcher.ExecFork | src/main/kotlin/com/reevajs/regexp/Matcher.kt:312-317 | pushes a thread at the operand's slot plus the operand; this thread continues past it |
| Matcher.Matcher.ExecForkNow | src/main/kotlin/com/reevajs/regexp/Matcher.kt:318-324 | pushes a thread past the operand; this thread jumps |
| Matcher.Matcher.ExecJump | src/main/kotlin/com/reevajs/regexp/Matcher.kt:325-328 | moves to the operand's slot plus the operand |
| Matcher.Matcher.ExecRangeJump | src/main/kotlin/com/reevajs/regexp/Matcher.kt:329-347 | counts its own executions: below `min` to the first target, at or above a non-zero `max` to the second, else falls through |
| Matcher.Matcher.ExecNegateNext | src/main/kotlin/com/reevajs/regexp/Matcher.kt:177-182 | runs the next op with the flag set and clears it when the op returns |
| Matcher.Matcher.ExecCharClass | src/main/kotlin/com/reevajs/regexp/Matcher.kt:254-268 | reads two Shorts; the members run in order, each on the thread the previous one left (ghost trace `tried`/`steps`); Continue exactly when the last member run continued, the thread then skipping the block; Fail after all members, none continuing |
| Matcher.Matcher.ExecInvertedCharClass | src/main/kotlin/com/reevajs/regexp/Matcher.kt:269-287 | fails at the end of the source, refuses negation, reads two Shorts; every run is on the unchanged thread at the first member; Fail exactly when a run continued, otherwise all runs done, skip and consume one code point |
| Matcher.Matcher.ExecLookaround | src/main/kotlin/com/reevajs/regexp/Matcher.kt:350-388 | refuses negation, never yields Match, keeps cursor and open groups; Continue exactly when a positive lookaround found a match or a negative one found none; on Continue with a match the captures are `MergedFrom` it (old kept, new non-zero groups mirrored, nothing else) |
| Matcher.Matcher.ExecOp | src/main/kotlin/com/reevajs/regexp/Matcher.kt:81-394 | a thread past the end fails; a bad position throws; otherwise dispatches and keeps the thread invariant |
| Matcher.Matcher.Finish | src/main/kotlin/com/reevajs/regexp/Matcher.kt:56-69 | group 0 must be the only open group; its capture spans the match, and the result is captured from the source |
| Matcher.Matcher.Exec | src/main/kotlin/com/reevajs/regexp/Matcher.kt:48-79 | a match is well formed with the program's group names; no match means no pending thread is left |
| Matcher.Matcher.Match | src/main/kotlin/com/reevajs/regexp/Matcher.kt:42-46 | a match starting at `startIndex` is well formed and captured from the source at or after it |
| Matcher.Matcher.MatchSequence | src/main/kotlin/com/reevajs/regexp/Matcher.kt:24-36 | every match is well formed and captured, and successive matches do not overlap |
| Matcher.Matcher.MatchAll | src/main/kotlin/com/reevajs/regexp/Matcher.kt:38-40 | a non-empty list of well-formed matches, or null rather than an empty list |

## Left out

- ICU Unicode sets.
  - `UnicodeSet` membership is a parameter: the `UnicodeSets` function from a class name and a code point to a boolean.
  - A name ICU would reject cannot be expressed.
  - The `unicodeSets` cache (`unicode.kt:5-9`) is left out; a cache does not change answers.
- The alias tables. That every table value maps to itself is a premise of `Unicode.NormalizeIdempotent`. The 500 literal entries are beyond what the verifier handles for one fact, so that fact is not proved here.
- Termination and fuel.
  - The parser, `exec` and nested matches carry a fuel bound. Running out of fuel is a distinct error the source does not have.
  - The source loops forever on a program whose threads never end.
- `\k<name>` references. They are resolved by a recorded name and patched in a final pass. This stands for the object identity the Kotlin parser mutates.
- `MatchState.copy` / `GroupState.copy`. Threads are values, so every copy is deep by construction. Aliasing between threads cannot be expressed.
- Messages. Exception message texts and the `println` of an unknown op are left out; errors keep their kind and position.
- The `RegExp` facade, the AST and opcode printers, and `toString` methods are not part of this model.
- Flags: `RegExp.Flag` sets become two booleans, `dotMatchesNewlines` and `unicode`.
- Overflow of cursors and offsets. The source and opcode cursors are unbounded integers, which does not matter below 2^31 code points or bytes.
- `matchSequence` is a lazy `Sequence`; the model computes it in full.
- Matcher.Matcher.Exec: LIFO resumption of pending threads is in the body, but the contract states only that a failed match leaves no pending thread.
- Matcher.Matcher.ExecNegateNext: states the flag handling and the invariant, not which op ran.
- Matcher.Matcher.ExecList: the consume case is stated only for a non-negative source cursor, which every match from a non-negative `startIndex` keeps; for a negative one only the length checks are stated.
- Matcher.Matcher.ExecOp: states the preamble checks and the thread invariant; each op family's behaviour is in its own method's contract.
- Matcher.Matcher.ExecLookaround: ties the verdict and the merged captures to the nested match it found, but does not state that match as a function of the sub-program.
- Matcher.Matcher.ExecCharClass: the trace records the thread each member ran on and its step, not the member's position argument, which decoding only range-checks.
- Matcher.Matcher.ExecInvertedCharClass: the same trace, with the same omission.
- The compiler and the buffer as written. `ensureCapacity` (`compiler/GrowableByteBuffer.kt:59-63`) loses what was written once a write reaches 512 bytes (see "Findings"). The compiler is stated on the corrected buffer instead. Its exact emission holds for the source's buffer only while the whole program stays below 512 bytes (`ByteBuffer.WriteAllAppends`); from the write that reaches 512 on, the source keeps only the buffer's unwritten tail (`ByteBuffer.GrowthDropsPrefix`). Each member below is stated on the corrected buffer and is weaker than the source in that sense:
- ByteBuffer.GrowableByteBuffer.WriteBytes: appends at every position; as written it appends only below 512 bytes.
- ByteBuffer.GrowableByteBuffer.WriteByte: appends at every position; as written it appends only below 512 bytes.
- ByteBuffer.GrowableByteBuffer.WriteShort: appends at every position; as written it appends only below 512 bytes.
- ByteBuffer.GrowableByteBuffer.WriteInt: appends at every position; as written it appends only below 512 bytes.
- ByteBuffer.GrowableByteBuffer.WriteLong: appends at every position; as written it appends only below 512 bytes.
- Compiler.Compiler.Compile: its emitted bytes are those of the corrected buffer; as written they agree only below 512 bytes.
- Compiler.Compiler.CompileNested: its emitted bytes are those of the corrected buffer; as written they agree only below 512 bytes.
- Compiler.Compiler.CompileNode: its emitted bytes are those of the corrected buffer; as written they agree only below 512 bytes.
- Compiler.Compiler.CompileQuantifier: its emitted bytes are those of the corrected buffer; as written they agree only below 512 bytes.
- Compiler.Compiler.CompileBranch: its emitted bytes are those of the corrected buffer; as written they agree only below 512 bytes.
- Compiler.Compiler.CompileLeaf: its emitted bytes are those of the corrected buffer; as written they agree only below 512 bytes.
- Compiler.Compiler.CompileAll: its emitted bytes are those of the corrected buffer; as written they agree only below 512 bytes.
- Compiler.Compiler.WriteOp: its emitted bytes are those of the corrected buffer; as written they agree only below 512 bytes.
- Compiler.Compiler.CompileOp: its emitted bytes are those of the corrected buffer; as written they agree only below 512 bytes.
- Compiler.Compiler.WriteJumpRef: its emitted bytes are those of the corrected buffer; as written they agree only below 512 bytes.
- Compiler.Compiler.WriteJump: its emitted bytes are those of the corrected buffer; as written they agree only below 512 bytes.
- Compiler.Compiler.CompileGroup: its emitted bytes are those of the corrected buffer; as written they agree only below 512 bytes.
- Compiler.Compiler.CompileCodePoint: its emitted bytes are those of the corrected buffer; as written they agree only below 512 bytes.
- Compiler.Compiler.CompileCodePointList: its emitted bytes are those of the corrected buffer; as written they agree only below 512 bytes.
- Compiler.Compiler.WriteListBytes: its emitted bytes are those of the corrected buffer; as written they agree only below 512 bytes.
- Compiler.Compiler.CompileNegate: its emitted bytes are those of the corrected buffer; as written they agree only below 512 bytes.
- Compiler.Compiler.CompileUnicodeClass: its emitted bytes are those of the corrected buffer; as written they agree only below 512 bytes.
- Compiler.Compiler.WriteAsciiName: its emitted bytes are those of the corrected buffer; as written they agree only below 512 bytes.
- Compiler.Compiler.CompileBackReference: its emitted bytes are those of the corrected buffer; as written they agree only below 512 bytes.
- Compiler.Compiler.CompileCharacterClass: its emitted bytes are those of the corrected buffer; as written they agree only below 512 bytes.
- Compiler.Compiler.CompileInvertedCharacterClass: its emitted bytes are those of the corrected buffer; as written they agree only below 512 bytes.
- Compiler.Compiler.CompileRange: its emitted bytes are those of the corrected buffer; as written they agree only below 512 bytes.
- Compiler.Compiler.CompileZeroOrOne: its emitted bytes are those of the corrected buffer; as written they agree only below 512 bytes.
- Compiler.Compiler.CompileZeroOrMore: its emitted bytes are those of the corrected buffer; as written they agree only below 512 bytes.
- Compiler.Compiler.WriteForkHead: its emitted bytes are those of the corrected buffer; as written they agree only below 512 bytes.
- Compiler.Compiler.FinishZeroOrMore: its emitted bytes are those of the corrected buffer; as written they agree only below 512 bytes.
- Compiler.Compiler.CompileOneOrMore: its emitted bytes are those of the corrected buffer; as written they agree only below 512 bytes.
- Compiler.Compiler.FinishOneOrMore: its emitted bytes are those of the corrected buffer; as written they agree only below 512 bytes.
- Compiler.Compiler.CompileRepetition: its emitted bytes are those of the corrected buffer; as written they agree only below 512 bytes.
- Compiler.Compiler.CompileCountedLoop: its emitted bytes are those of the corrected buffer; as written they agree only below 512 bytes.
- Compiler.Compiler.WriteCountedLoopHead: its emitted bytes are those of the corrected buffer; as written they agree only below 512 bytes.
- Compiler.Compiler.WriteRangeJump: its emitted bytes are those of the corrected buffer; as written they agree only below 512 bytes.
- Compiler.Compiler.FinishCountedLoop: its emitted bytes are those of the corrected buffer; as written they agree only below 512 bytes.
- Compiler.Compiler.CompileAlternation: its emitted bytes are those of the corrected buffer; as written they agree only below 512 bytes.
- Compiler.Compiler.CompileAlternationRhs: its emitted bytes are those of the corrected buffer; as written they agree only below 512 bytes.
- Compiler.Compiler.PlaceAlternationRhs: its emitted bytes are those of the corrected buffer; as written they agree only below 512 bytes.
- Compiler.Compiler.CompileLook: its emitted bytes are those of the corrected buffer; as written they agree only below 512 bytes.
- Compiler.CompileOpcodes: its emitted bytes are those of the corrected buffer; as written they agree only below 512 bytes.
- Parser.ParsePattern: states the root's group bookkeeping; the tree itself is stated by `Parser.Parser.Parse`.
- Opcode.DocumentedLength: states that the layout stays in bounds, not that the compiler's output is a sequence of such instructions.
- Dead checks. In `parseEscape` the `?: unreachable()` and `expect(result.value <= Short.MAX_VALUE)` of a numbered reference (`parser/Parser.kt:333-336`) cannot fire. A digit escape always has a digit, and three decimal digits stay below 1000. The model proves this and leaves the two checks out.
- Two more dead checks in the parser are left out, and the model's functions omit them:
  - the `if (done)` after the four digits of `\uHHHH` (`parser/Parser.kt:427-428`), because the cursor has not moved since the check at line 410;
  - the `node is RepetitionNode` test of a `{...}` target (`parser/Parser.kt:248-249`), because a `RepetitionNode` is a `QuantifierNode` and the InvalidQuantifier check before it fires first (`Parser.RepetitionOf`).
- Where the opcode comments in `compiler/Opcode.kt` and the code differ, the model follows the code:
  - the comment on jump offsets (`compiler/Opcode.kt:108-109`);
  - the header the comment on INVERTED_CHAR_CLASS (`compiler/Opcode.kt:76-80`) documents, which the compiler does not write.

## Findings

| source | as written | input that shows it | evidently intended | confidence | as-written member | corrected member |
|---|---|---|---|---|---|---|
| src/main/kotlin/com/reevajs/regexp/compiler/GrowableByteBuffer.kt:59-63 | growth puts the old buffer's *remaining* bytes (from `position` to its limit) at the start of the new one, losing everything already written; `size` stays 512, so it fires again on every write past 512 | 511 one-byte writes of 1 into a fresh buffer, then a 512th of 2: the written bytes become `[0, 2]`; none of the 511 survive, and the 0 was never written | copy the written bytes `[0, position)` and keep the position, so writes append | not executed | ByteBuffer.WriteAfterGrowthLosesOutput | ByteBuffer.GrowableByteBuffer.EnsureCapacity |
| src/main/kotlin/com/reevajs/regexp/MatchResult.kt:41 | `end = max(group.range.last, start)` compares with `start`, so the group with the greatest key decides the end | `(a)b` matched on "ab": `range` is 0..0 | 0..1, the whole match, as `TestBase.kt:72` expects: `end = max(group.range.last, end)` | not executed | Results.RangeMissesMatchEnd | Results.Span |
