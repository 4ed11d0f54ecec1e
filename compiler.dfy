// compiler/Compiler.kt: lowers the syntax tree into opcode bytes in one pass,
// patching forward jumps through labels.

module Compiler {
  import opened Utils
  import opened Numeric
  import opened Ast
  import opened Opcode
  import opened ByteBuffer

  // ---------------------------------------------------------------------------
  // The byte layout of each node kind, given the bytes of its children

  function LookOp(kind: LookKind): byte
  {
    match kind
    case PositiveLookahead => POSITIVE_LOOKAHEAD_OP
    case PositiveLookbehind => POSITIVE_LOOKBEHIND_OP
    case NegativeLookahead => NEGATIVE_LOOKAHEAD_OP
    case NegativeLookbehind => NEGATIVE_LOOKBEHIND_OP
  }

  /** The fork in front of an optional body: a greedy one tries the body first. */
  function ForkInto(lz: bool): byte
  {
    if lz then FORK_NOW_OP else FORK_OP
  }

  /** The fork behind a repeated body: a greedy one tries another round first. */
  function ForkBack(lz: bool): byte
  {
    if lz then FORK_OP else FORK_NOW_OP
  }

  /** `node.max ?: 0`: the upper bound operand, 0 standing for none. */
  function MaxOperand(hi: Option<int16>): int16
  {
    if hi.Some? then hi.value else 0
  }

  /** The operand bytes of a jump stored at slot `s` aiming at `target`. */
  function JumpBytes(target: int, s: int): seq<byte>
  {
    ShortBytes(ToShort(target - s))
  }

  predicate IsAscii(name: string)
  {
    forall i | 0 <= i < |name| :: name[i] as int <= BYTE_MAX
  }

  function AsciiBytes(name: string): (r: seq<byte>)
    requires IsAscii(name)
    ensures |r| == |name|
  {
    seq(|name|, i requires 0 <= i < |name| => name[i] as int)
  }

  function ListBytes(bs: seq<int8>): (r: seq<byte>)
    ensures |r| == |bs|
  {
    seq(|bs|, i requires 0 <= i < |bs| => Unsigned8(bs[i]))
  }

  function GroupCode(idx: Option<int16>, c: seq<byte>): seq<byte>
  {
    (if idx.Some? then [START_GROUP_OP] + ShortBytes(idx.value) else [START_NON_CAPTURING_GROUP_OP])
    + c + [END_GROUP_OP]
  }

  /** The code point tiers: one byte up to 127, a short up to 32767, otherwise an int. */
  function CodePointCode(cp: int): seq<byte>
  {
    if cp <= BYTE_MAX then [CODEPOINT1_OP] + [Unsigned8(cp)]
    else if cp <= SHORT_MAX then [CODEPOINT2_OP] + ShortBytes(cp)
    else [CODEPOINT4_OP] + IntBytes(cp)
  }

  function ListCode(bs: seq<int8>): seq<byte>
  {
    [CODEPOINT1_LIST_OP] + [Unsigned8(|bs|)] + ListBytes(bs)
  }

  function UnicodeClassCode(name: string): seq<byte>
    requires |name| <= BYTE_MAX && IsAscii(name)
  {
    [UNICODE_CLASS_OP] + [|name|] + AsciiBytes(name)
  }

  /** An index naming a group is a back reference; any other index a literal code point. */
  function BackReferenceCode(index: int, numGroups: int): seq<byte>
  {
    if index < numGroups then [BACK_REFERENCE_OP] + ShortBytes(index)
    else if index <= BYTE_MAX then [CODEPOINT1_OP] + [Unsigned8(index)]
    else [CODEPOINT2_OP] + ShortBytes(index)
  }

  /** A positive class: the entry count, the block length, then the block `c`. */
  function ClassCode(count: int, c: seq<byte>): seq<byte>
  {
    [CHAR_CLASS_OP] + ShortBytes(count) + ShortBytes(|c|) + c
  }

  function RangeCode(s: int, e: int): seq<byte>
  {
    if s <= BYTE_MAX && e <= BYTE_MAX then [RANGE1_OP] + [Unsigned8(s)] + [Unsigned8(e)]
    else if s <= SHORT_MAX && e <= SHORT_MAX then [RANGE2_OP] + ShortBytes(s) + ShortBytes(e)
    else [RANGE4_OP] + IntBytes(s) + IntBytes(e)
  }

  /** `?` around the body `c`: a fork past the body, then the body. */
  function ZeroOrOneCode(c: seq<byte>, lz: bool): seq<byte>
  {
    [ForkInto(lz)] + JumpBytes(|c| + 3, 1) + c
  }

  /** `*` around the body `c`: a fork past the loop, the body, a fork back to the body. */
  function ZeroOrMoreCode(c: seq<byte>, lz: bool): seq<byte>
  {
    [ForkInto(lz)] + JumpBytes(|c| + 6, 1) + c + [ForkBack(lz)] + JumpBytes(3, |c| + 4)
  }

  /** `+` around the body `c`: the body, then a fork back to it. */
  function OneOrMoreCode(c: seq<byte>, lz: bool): seq<byte>
  {
    c + [ForkBack(lz)] + JumpBytes(0, |c| + 1)
  }

  /** A `{min,max}` loop around the body `c`; `mx` is 0 when unbounded. */
  function RepetitionCode(c: seq<byte>, lo: int, mx: int, op: byte): seq<byte>
  {
    [RANGE_JUMP_OP] + ShortBytes(lo) + ShortBytes(mx) + JumpBytes(12, 5) + JumpBytes(|c| + 15, 7)
    + [op] + JumpBytes(|c| + 15, 10) + c + [JUMP_OP] + JumpBytes(0, |c| + 13)
  }

  /** Both sides: a fork to the right side, the left side, a jump past the right side. */
  function AlternationCode(cl: seq<byte>, cr: seq<byte>): seq<byte>
  {
    [FORK_OP] + JumpBytes(|cl| + 6, 1) + cl + [JUMP_OP] + JumpBytes(|cl| + 6 + |cr|, |cl| + 4) + cr
  }

  function LookCode(kind: LookKind, c: seq<byte>): seq<byte>
  {
    [LookOp(kind)] + ShortBytes(|c|) + c
  }

  // Each node kind's result from its children's results: a child's failure
  // propagates, and each `expect` of the kind is a failure of its own.

  function GroupResult(idx: Option<int16>, c: Result<seq<byte>, Crash>): Result<seq<byte>, Crash>
  {
    if c.Failure? then c else Success(GroupCode(idx, c.value))
  }

  function NegateResult(c: Result<seq<byte>, Crash>): Result<seq<byte>, Crash>
  {
    if c.Failure? then c else Success([NEGATE_NEXT_OP] + c.value)
  }

  /** The name's length and every character are `expect`ed to fit a `Byte`. */
  function UnicodeClassResult(name: string): Result<seq<byte>, Crash>
  {
    if |name| <= BYTE_MAX && IsAscii(name) then Success(UnicodeClassCode(name)) else Failure(ExpectationError)
  }

  function ClassResult(count: int, c: Result<seq<byte>, Crash>): Result<seq<byte>, Crash>
  {
    if c.Failure? then c else Success(ClassCode(count, c.value))
  }

  function InvertedClassResult(c: Result<seq<byte>, Crash>): Result<seq<byte>, Crash>
  {
    if c.Failure? then c else Success([INVERTED_CHAR_CLASS_OP] + c.value)
  }

  function ZeroOrOneResult(c: Result<seq<byte>, Crash>, lz: bool): Result<seq<byte>, Crash>
  {
    if c.Failure? then c else Success(ZeroOrOneCode(c.value, lz))
  }

  /** The jump back over the body is `expect`ed to fit a `Short`. */
  function ZeroOrMoreResult(c: Result<seq<byte>, Crash>, lz: bool): Result<seq<byte>, Crash>
  {
    if c.Failure? then c
    else if IsShort(-(|c.value| + 1)) then Success(ZeroOrMoreCode(c.value, lz))
    else Failure(ExpectationError)
  }

  /** The jump back over the body is `expect`ed to fit a `Short`. */
  function OneOrMoreResult(c: Result<seq<byte>, Crash>, lz: bool): Result<seq<byte>, Crash>
  {
    if c.Failure? then c
    else if IsShort(-(|c.value| + 1)) then Success(OneOrMoreCode(c.value, lz))
    else Failure(ExpectationError)
  }

  /** The jump back to the loop's start is `expect`ed to fit a `Short`. */
  function CountedLoopResult(c: Result<seq<byte>, Crash>, lo: int, mx: int, op: byte): Result<seq<byte>, Crash>
  {
    if c.Failure? then c
    else if IsShort(-(|c.value| + 13)) then Success(RepetitionCode(c.value, lo, mx, op))
    else Failure(ExpectationError)
  }

  /** `{0,0}` emits nothing (the body is not compiled at all) and `{1,1}` just the body. */
  function RepetitionResult(c: Result<seq<byte>, Crash>, lo: int, hi: Option<int16>, lz: bool): Result<seq<byte>, Crash>
  {
    if lo == 0 && hi == Some(0) then Success([])
    else if lo == 1 && hi == Some(1) then c
    else CountedLoopResult(c, lo, MaxOperand(hi), ForkInto(lz))
  }

  function AlternationResult(cl: Result<seq<byte>, Crash>, cr: Result<seq<byte>, Crash>): Result<seq<byte>, Crash>
  {
    if cl.Failure? then cl else if cr.Failure? then cr else Success(AlternationCode(cl.value, cr.value))
  }

  /** The block's length is `expect`ed to stay below `Short.MAX_VALUE`. */
  function LookResult(kind: LookKind, c: Result<seq<byte>, Crash>): Result<seq<byte>, Crash>
  {
    if c.Failure? then c
    else if |c.value| < SHORT_MAX then Success(LookCode(kind, c.value))
    else Failure(ExpectationError)
  }

  function ConcatResult(c1: Result<seq<byte>, Crash>, c2: Result<seq<byte>, Crash>): Result<seq<byte>, Crash>
  {
    if c1.Failure? then c1 else if c2.Failure? then c2 else Success(c1.value + c2.value)
  }

  /** The op of a node that compiles to exactly that one op. */
  function SingleOp(n: ASTNode): Option<byte>
  {
    match n
    case StartNode => Some(START_OP)
    case EndNode => Some(END_OP)
    case AnyNode => Some(ANY_OP)
    case WordNode => Some(WORD_OP)
    case WordBoundaryNode => Some(WORD_BOUNDARY_OP)
    case DigitNode => Some(DIGIT_OP)
    case WhitespaceNode => Some(WHITESPACE_OP)
    case MatchNode => Some(MATCH_OP)
    case _ => None
  }

  /** The code of a node without children: only a unicode class name can fail. */
  function LeafResult(n: ASTNode, numGroups: int): Result<seq<byte>, Crash>
  {
    match n
    case CodePointNode(cp) => Success(CodePointCode(cp))
    case CodePointListNode(bs) => Success(ListCode(bs))
    case StartNode => Success([START_OP])
    case EndNode => Success([END_OP])
    case AnyNode => Success([ANY_OP])
    case WordNode => Success([WORD_OP])
    case WordBoundaryNode => Success([WORD_BOUNDARY_OP])
    case DigitNode => Success([DIGIT_OP])
    case WhitespaceNode => Success([WHITESPACE_OP])
    case MatchNode => Success([MATCH_OP])
    case UnicodeClassNode(name) => UnicodeClassResult(name)
    case BackReferenceNode(index, _) => Success(BackReferenceCode(index, numGroups))
    case CodePointRangeNode(s, e) => Success(RangeCode(s, e))
    case _ => Success([])
  }

  /**
   * The bytes `compileNode(n)` appends for a root with `numGroups` groups, or
   * the `expect` it fails. Jump operands are relative to their own slot.
   */
  function Code(n: ASTNode, numGroups: int): Result<seq<byte>, Crash>
    decreases n, 1
  {
    match n
    case RootNode(_, _, ns) => CodeAll(ns, numGroups)
    case GroupNode(idx, ns) => GroupResult(idx, CodeAll(ns, numGroups))
    case NegateNode(m) => NegateResult(Code(m, numGroups))
    case CharacterClassNode(ns) => ClassResult(|ns|, CodeAll(ns, numGroups))
    case InvertedCharacterClassNode(ns) => InvertedClassResult(CodeAll(ns, numGroups))
    case ZeroOrOneNode(m, lz) => ZeroOrOneResult(Code(m, numGroups), lz)
    case ZeroOrMoreNode(m, lz) => ZeroOrMoreResult(Code(m, numGroups), lz)
    case OneOrMoreNode(m, lz) => OneOrMoreResult(Code(m, numGroups), lz)
    case RepetitionNode(m, lo, hi, lz) => RepetitionResult(Code(m, numGroups), lo, hi, lz)
    case AlternationNode(l, r) => AlternationResult(Code(l, numGroups), Code(r, numGroups))
    case LookNode(kind, ns) => LookResult(kind, CodeAll(ns, numGroups))
    case _ => LeafResult(n, numGroups)
  }

  /** `nodes.forEach(::compileNode)`: the children's code in order; the first failure wins. */
  function CodeAll(ns: seq<ASTNode>, numGroups: int): Result<seq<byte>, Crash>
    decreases ns, 0
  {
    if ns == [] then Success([]) else ConcatResult(CodeAll(ns[..|ns| - 1], numGroups), Code(ns[|ns| - 1], numGroups))
  }

  lemma {:induction false} CodeAllPrefixFailure(ns: seq<ASTNode>, j: nat, numGroups: int)
    requires j <= |ns| && CodeAll(ns[..j], numGroups).Failure?
    ensures CodeAll(ns, numGroups).Failure?
    decreases |ns|
  {
    if j < |ns| {
      assert ns[..|ns| - 1][..j] == ns[..j];
      CodeAllPrefixFailure(ns[..|ns| - 1], j, numGroups);
    } else {
      assert ns[..j] == ns;
    }
  }

  lemma CodeAllStep(ns: seq<ASTNode>, i: nat, numGroups: int)
    requires i < |ns|
    ensures CodeAll(ns[..i + 1], numGroups) ==
            (match CodeAll(ns[..i], numGroups)
             case Failure(e) => Failure(e)
             case Success(c1) =>
               match Code(ns[i], numGroups)
               case Failure(e) => Failure(e)
               case Success(c2) => Success(c1 + c2))
  {
    assert ns[..i + 1][..i] == ns[..i];
  }

  /** Every failure of the compiler is a failed `expect`. */
  lemma {:induction false} CodeFailsOnlyByExpect(n: ASTNode, numGroups: int)
    ensures Code(n, numGroups).Failure? ==> Code(n, numGroups).error == ExpectationError
    decreases n, 2
  {
    if n.NegateNode? || IsQuantifier(n) {
      UnaryFailsOnlyByExpect(n, numGroups);
    } else if n.AlternationNode? {
      AlternationFailsOnlyByExpect(n, numGroups);
    } else if HasChildList(n) || n.CharacterClassNode? || n.InvertedCharacterClassNode? {
      ListFailsOnlyByExpect(n, numGroups);
    }
  }

  lemma {:induction false} UnaryFailsOnlyByExpect(n: ASTNode, numGroups: int)
    requires n.NegateNode? || IsQuantifier(n)
    ensures Code(n, numGroups).Failure? ==> Code(n, numGroups).error == ExpectationError
    decreases n, 1
  {
    match n
    case NegateNode(m) => CodeFailsOnlyByExpect(m, numGroups);
    case ZeroOrOneNode(m, _) => CodeFailsOnlyByExpect(m, numGroups);
    case ZeroOrMoreNode(m, _) => CodeFailsOnlyByExpect(m, numGroups);
    case OneOrMoreNode(m, _) => CodeFailsOnlyByExpect(m, numGroups);
    case RepetitionNode(m, _, _, _) => CodeFailsOnlyByExpect(m, numGroups);
  }

  lemma {:induction false} AlternationFailsOnlyByExpect(n: ASTNode, numGroups: int)
    requires n.AlternationNode?
    ensures Code(n, numGroups).Failure? ==> Code(n, numGroups).error == ExpectationError
    decreases n, 1
  {
    CodeFailsOnlyByExpect(n.lhs, numGroups);
    CodeFailsOnlyByExpect(n.rhs, numGroups);
  }

  lemma {:induction false} ListFailsOnlyByExpect(n: ASTNode, numGroups: int)
    requires HasChildList(n) || n.CharacterClassNode? || n.InvertedCharacterClassNode?
    ensures Code(n, numGroups).Failure? ==> Code(n, numGroups).error == ExpectationError
    decreases n, 1
  {
    CodeAllFailsOnlyByExpect(n.nodes, numGroups);
  }

  lemma {:induction false} CodeAllFailsOnlyByExpect(ns: seq<ASTNode>, numGroups: int)
    ensures CodeAll(ns, numGroups).Failure? ==> CodeAll(ns, numGroups).error == ExpectationError
    decreases ns, 0
  {
    if ns != [] {
      CodeAllFailsOnlyByExpect(ns[..|ns| - 1], numGroups);
      CodeFailsOnlyByExpect(ns[|ns| - 1], numGroups);
    }
  }

  // ---------------------------------------------------------------------------
  // Properties of the layout

  /**
   * A code point uses the smallest tier that holds it and reads back as
   * itself, except that a negative one below -128 (a wrapped `\u{...}`)
   * goes to CODEPOINT1 through `toByte()` and reads back truncated.
   */
  lemma CodePointTiers(cp: int)
    requires IsInt(cp)
    ensures cp <= BYTE_MAX ==> |CodePointCode(cp)| == 2 && CodePointCode(cp)[0] == CODEPOINT1_OP
                               && Signed8(CodePointCode(cp)[1]) == ToByte(cp)
    ensures IsByte(cp) ==> Signed8(CodePointCode(cp)[1]) == cp
    ensures cp < -0x80 ==> Signed8(CodePointCode(cp)[1]) != cp
    ensures BYTE_MAX < cp <= SHORT_MAX ==> |CodePointCode(cp)| == 3 && CodePointCode(cp)[0] == CODEPOINT2_OP
                                           && GetShort(CodePointCode(cp), 1) == cp
    ensures SHORT_MAX < cp ==> |CodePointCode(cp)| == 5 && CodePointCode(cp)[0] == CODEPOINT4_OP
                               && GetInt(CodePointCode(cp), 1) == cp
  {
    if cp <= BYTE_MAX {
      Signed8OfUnsigned8(cp);
    } else if cp <= SHORT_MAX {
      ShortRoundTrip(cp, [CODEPOINT2_OP], []);
      assert [CODEPOINT2_OP] + ShortBytes(cp) + [] == CodePointCode(cp);
    } else {
      IntRoundTrip(cp, [CODEPOINT4_OP], []);
      assert [CODEPOINT4_OP] + IntBytes(cp) + [] == CodePointCode(cp);
    }
  }

  /**
   * Both endpoints at most 127: RANGE1 with one byte each, read back as
   * `toByte()` of the endpoint, which is the endpoint itself from -128 on.
   */
  lemma RangeByteTier(s: int, e: int)
    requires s <= BYTE_MAX && e <= BYTE_MAX
    ensures |RangeCode(s, e)| == 3 && RangeCode(s, e)[0] == RANGE1_OP
    ensures Signed8(RangeCode(s, e)[1]) == ToByte(s) && Signed8(RangeCode(s, e)[2]) == ToByte(e)
    ensures IsByte(s) && IsByte(e) ==> Signed8(RangeCode(s, e)[1]) == s && Signed8(RangeCode(s, e)[2]) == e
  {
    Signed8OfUnsigned8(s);
    Signed8OfUnsigned8(e);
  }

  /**
   * Both endpoints at most 32767 and one above 127: RANGE2 with one short
   * each, read back as `toShort()`, the endpoint itself from -32768 on.
   */
  lemma RangeShortTier(s: int, e: int)
    requires s <= SHORT_MAX && e <= SHORT_MAX && (BYTE_MAX < s || BYTE_MAX < e)
    ensures |RangeCode(s, e)| == 5 && RangeCode(s, e)[0] == RANGE2_OP
    ensures GetShort(RangeCode(s, e), 1) == ToShort(s) && GetShort(RangeCode(s, e), 3) == ToShort(e)
    ensures IsShort(s) && IsShort(e) ==> GetShort(RangeCode(s, e), 1) == s && GetShort(RangeCode(s, e), 3) == e
  {
    ShortRoundTrip(s, [RANGE2_OP], ShortBytes(e));
    ShortRoundTrip(e, [RANGE2_OP] + ShortBytes(s), []);
    assert [RANGE2_OP] + ShortBytes(s) + ShortBytes(e) + [] == RangeCode(s, e);
  }

  /** One endpoint needs an `Int`: RANGE4 with one int each. */
  lemma RangeIntTier(s: int, e: int)
    requires IsInt(s) && IsInt(e) && (SHORT_MAX < s || SHORT_MAX < e)
    ensures |RangeCode(s, e)| == 9 && RangeCode(s, e)[0] == RANGE4_OP
    ensures GetInt(RangeCode(s, e), 1) == s && GetInt(RangeCode(s, e), 5) == e
  {
    var c := [RANGE4_OP] + IntBytes(s) + IntBytes(e);
    assert c == RangeCode(s, e);
    IntRoundTrip(s, [RANGE4_OP], IntBytes(e));
    IntRoundTrip(e, [RANGE4_OP] + IntBytes(s), []);
    assert [RANGE4_OP] + IntBytes(s) + IntBytes(e) + [] == c;
  }

  /** Back references below `numGroups` keep their op; others become a literal code point. */
  lemma BackReferenceLowering(index: int, numGroups: int)
    requires IsShort(index)
    ensures index < numGroups ==> BackReferenceCode(index, numGroups)[0] == BACK_REFERENCE_OP
                                  && GetShort(BackReferenceCode(index, numGroups), 1) == index
    ensures numGroups <= index <= BYTE_MAX ==>
              BackReferenceCode(index, numGroups) == [CODEPOINT1_OP] + [Unsigned8(index)]
              && Signed8(BackReferenceCode(index, numGroups)[1]) == ToByte(index)
    ensures numGroups <= index && BYTE_MAX < index ==>
              BackReferenceCode(index, numGroups)[0] == CODEPOINT2_OP
              && GetShort(BackReferenceCode(index, numGroups), 1) == index
  {
    Signed8OfUnsigned8(index);
    if index < numGroups || BYTE_MAX < index {
      var op := BackReferenceCode(index, numGroups)[0];
      ShortRoundTrip(index, [op], []);
      assert [op] + ShortBytes(index) + [] == BackReferenceCode(index, numGroups);
    }
  }

  /** A code point list: the count, then each code point as one byte that reads back. */
  lemma ListLayout(bs: seq<int8>)
    requires |bs| <= BYTE_MAX
    ensures var code := ListCode(bs);
            |code| == |bs| + 2 && code[0] == CODEPOINT1_LIST_OP && code[1] as int == |bs|
            && forall i | 0 <= i < |bs| :: Signed8(code[i + 2]) == bs[i]
  {
    var code := ListCode(bs);
    forall i | 0 <= i < |bs|
      ensures Signed8(code[i + 2]) == bs[i]
    {
      Signed8OfUnsigned8(bs[i]);
    }
  }

  /** The jump stored at slot `s` of `code` designates `s + operand`. */
  predicate JumpsTo(code: seq<byte>, s: int, target: int)
  {
    0 <= s && s + 2 <= |code| && s + GetShort(code, s) == target
  }

  lemma JumpAt(code: seq<byte>, s: int, target: int)
    requires 0 <= s && s + 2 <= |code| && code[s..s + 2] == JumpBytes(target, s)
    requires IsShort(target - s)
    ensures JumpsTo(code, s, target)
  {
    ShortRoundTrip(ToShort(target - s), code[..s], code[s + 2..]);
    assert code[..s] + JumpBytes(target, s) + code[s + 2..] == code;
  }

  lemma JumpBytesDesignate(pre: seq<byte>, target: int, post: seq<byte>)
    requires IsShort(target - |pre|)
    ensures JumpsTo(pre + JumpBytes(target, |pre|) + post, |pre|, target)
  {
    ShortRoundTrip(ToShort(target - |pre|), pre, post);
  }

  /** `?`: the fork skips exactly the body, so that a greedy `?` tries the body first. */
  lemma ZeroOrOneLayout(c: seq<byte>, lz: bool)
    requires |c| + 2 <= SHORT_MAX
    ensures var code := ZeroOrOneCode(c, lz);
            |code| == |c| + 3 && code[0] == ForkInto(lz) && code[3..] == c
            && JumpsTo(code, 1, |code|)
  {
    JumpBytesDesignate([ForkInto(lz)], |c| + 3, c);
  }

  /** `*`: the first fork skips the loop, the second goes back to the body's start. */
  lemma ZeroOrMoreLayout(c: seq<byte>, lz: bool)
    requires |c| + 5 <= SHORT_MAX
    ensures var code := ZeroOrMoreCode(c, lz);
            |code| == |c| + 6
            && code[0] == ForkInto(lz) && code[3..|c| + 3] == c && code[|c| + 3] == ForkBack(lz)
            && JumpsTo(code, 1, |code|) && JumpsTo(code, |c| + 4, 3)
  {
    var code := ZeroOrMoreCode(c, lz);
    assert code[1..3] == JumpBytes(|c| + 6, 1);
    assert code[|c| + 4..|c| + 6] == JumpBytes(3, |c| + 4);
    JumpAt(code, 1, |c| + 6);
    JumpAt(code, |c| + 4, 3);
  }

  /** `+`: the body, then a fork back to its start. */
  lemma OneOrMoreLayout(c: seq<byte>, lz: bool)
    requires |c| + 1 <= SHORT_MAX
    ensures var code := OneOrMoreCode(c, lz);
            |code| == |c| + 3 && code[..|c|] == c && code[|c|] == ForkBack(lz) && JumpsTo(code, |c| + 1, 0)
  {
    JumpBytesDesignate(c + [ForkBack(lz)], 0, []);
    assert c + [ForkBack(lz)] + JumpBytes(0, |c| + 1) + [] == OneOrMoreCode(c, lz);
  }

  lemma ShortAt(code: seq<byte>, s: int, v: int)
    requires 0 <= s && s + 2 <= |code| && code[s..s + 2] == ShortBytes(v)
    ensures GetShort(code, s) == ToShort(v)
  {
    ShortRoundTrip(v, code[..s], code[s + 2..]);
    assert code[..s] + ShortBytes(v) + code[s + 2..] == code;
  }

  /** The twelve-byte head of a repetition: bounds, then three jumps. */
  lemma RepetitionHead(lo: int, mx: int, op: byte, n: int)
    requires IsShort(lo) && IsShort(mx) && 0 <= n && n + 15 <= SHORT_MAX
    ensures var head := [RANGE_JUMP_OP] + ShortBytes(lo) + ShortBytes(mx) + JumpBytes(12, 5)
                        + JumpBytes(n + 15, 7) + [op] + JumpBytes(n + 15, 10);
            |head| == 12 && head[0] == RANGE_JUMP_OP && head[9] == op
            && GetShort(head, 1) == lo && GetShort(head, 3) == mx
            && 5 + GetShort(head, 5) == 12 && 7 + GetShort(head, 7) == n + 15
            && 10 + GetShort(head, 10) == n + 15
  {
    var head := [RANGE_JUMP_OP] + ShortBytes(lo) + ShortBytes(mx) + JumpBytes(12, 5)
                + JumpBytes(n + 15, 7) + [op] + JumpBytes(n + 15, 10);
    assert head[1..3] == ShortBytes(lo);
    assert head[3..5] == ShortBytes(mx);
    assert head[5..7] == JumpBytes(12, 5);
    assert head[7..9] == JumpBytes(n + 15, 7);
    assert head[10..12] == JumpBytes(n + 15, 10);
    ShortAt(head, 1, lo);
    ShortAt(head, 3, mx);
    ShortAt(head, 5, 7);
    ShortAt(head, 7, n + 8);
    ShortAt(head, 10, n + 5);
  }

  lemma GetShortPrefix(code: seq<byte>, head: seq<byte>, s: int)
    requires |head| <= |code| && code[..|head|] == head
    requires 0 <= s && s + 2 <= |head|
    ensures GetShort(code, s) == GetShort(head, s)
  {
    assert code[s] == head[s] && code[s + 1] == head[s + 1];
  }

  /** The layout facts of a repetition with body `c`. */
  predicate RepetitionShape(c: seq<byte>, code: seq<byte>, lo: int, mx: int, op: byte)
  {
    |code| == |c| + 15 && code[0] == RANGE_JUMP_OP
    && GetShort(code, 1) == lo && GetShort(code, 3) == mx
    && JumpsTo(code, 5, 12) && JumpsTo(code, 7, |code|)
    && code[9] == op && JumpsTo(code, 10, |code|)
    && code[12..|c| + 12] == c && code[|c| + 12] == JUMP_OP && JumpsTo(code, |c| + 13, 0)
  }

  /**
   * `{min,max}`: RANGE_JUMP with the bounds and two jumps (into the body, past
   * the loop), a fork past the loop, the body, and a JUMP back to the start.
   */
  lemma RepetitionLayout(c: seq<byte>, lo: int, mx: int, op: byte)
    requires IsShort(lo) && IsShort(mx) && |c| + 15 <= SHORT_MAX
    ensures RepetitionShape(c, RepetitionCode(c, lo, mx, op), lo, mx, op)
  {
    var head := [RANGE_JUMP_OP] + ShortBytes(lo) + ShortBytes(mx) + JumpBytes(12, 5)
                + JumpBytes(|c| + 15, 7) + [op] + JumpBytes(|c| + 15, 10);
    RepetitionHead(lo, mx, op, |c|);
    var code := head + c + [JUMP_OP] + JumpBytes(0, |c| + 13);
    assert code == RepetitionCode(c, lo, mx, op);
    assert code[..12] == head;
    GetShortPrefix(code, head, 1);
    GetShortPrefix(code, head, 3);
    GetShortPrefix(code, head, 5);
    GetShortPrefix(code, head, 7);
    GetShortPrefix(code, head, 10);
    assert code[|c| + 13..|c| + 15] == JumpBytes(0, |c| + 13);
    JumpAt(code, |c| + 13, 0);
    assert RepetitionShape(c, code, lo, mx, op);
  }

  /** Alternation: the fork aims at the right side, the jump behind the left side past it. */
  lemma AlternationLayout(cl: seq<byte>, cr: seq<byte>)
    requires |cl| + |cr| + 6 <= SHORT_MAX
    ensures var code := AlternationCode(cl, cr);
            |code| == |cl| + |cr| + 6 && code[0] == FORK_OP && code[3..|cl| + 3] == cl
            && code[|cl| + 3] == JUMP_OP && code[|cl| + 6..] == cr
            && JumpsTo(code, 1, |cl| + 6) && JumpsTo(code, |cl| + 4, |code|)
  {
    var pre := [FORK_OP] + JumpBytes(|cl| + 6, 1) + cl + [JUMP_OP];
    var code := pre + JumpBytes(|cl| + 6 + |cr|, |cl| + 4) + cr;
    JumpBytesDesignate([FORK_OP], |cl| + 6, cl + [JUMP_OP] + JumpBytes(|cl| + 6 + |cr|, |cl| + 4) + cr);
    assert [FORK_OP] + JumpBytes(|cl| + 6, 1) + (cl + [JUMP_OP] + JumpBytes(|cl| + 6 + |cr|, |cl| + 4) + cr)
        == code;
    JumpBytesDesignate(pre, |cl| + 6 + |cr|, cr);
  }

  /** Groups bracket their children with START_GROUP idx / START_NON_CAPTURING_GROUP and END_GROUP. */
  lemma GroupLayout(idx: Option<int16>, c: seq<byte>)
    ensures var code := GroupCode(idx, c);
            code[|code| - 1] == END_GROUP_OP
            && (idx.Some? ==> code[0] == START_GROUP_OP && GetShort(code, 1) == idx.value
                              && code[3..|code| - 1] == c)
            && (idx.None? ==> code[0] == START_NON_CAPTURING_GROUP_OP && code[1..|code| - 1] == c)
  {
    if idx.Some? {
      ShortRoundTrip(idx.value, [START_GROUP_OP], c + [END_GROUP_OP]);
      assert [START_GROUP_OP] + ShortBytes(idx.value) + (c + [END_GROUP_OP]) == GroupCode(idx, c);
    }
  }

  /**
   * A positive class holds its entry count and its block length, then exactly
   * that many bytes, as the documented layout reads them.
   */
  lemma ClassLayout(count: int, c: seq<byte>)
    requires 0 <= count <= SHORT_MAX && |c| <= SHORT_MAX
    ensures var code := ClassCode(count, c);
            code[0] == CHAR_CLASS_OP && GetShort(code, 1) == count && GetShort(code, 3) == |c|
            && code[5..] == c && DocumentedLength(code, 0) == Some(|code|)
  {
    var code := ClassCode(count, c);
    ShortRoundTrip(count, [CHAR_CLASS_OP], ShortBytes(|c|) + c);
    assert [CHAR_CLASS_OP] + ShortBytes(count) + (ShortBytes(|c|) + c) == code;
    ShortRoundTrip(|c|, [CHAR_CLASS_OP] + ShortBytes(count), c);
    assert code[3] as int * 0x100 + code[4] as int == |c|;
  }

  /** A lookaround holds its block length, then exactly that many bytes. */
  lemma LookLayout(kind: LookKind, c: seq<byte>)
    requires |c| < SHORT_MAX
    ensures var code := LookCode(kind, c);
            code[0] == LookOp(kind) && GetShort(code, 1) == |c| && code[3..] == c
            && DocumentedLength(code, 0) == Some(|code|)
  {
    var code := LookCode(kind, c);
    ShortRoundTrip(|c|, [LookOp(kind)], c);
    assert code[1] as int * 0x100 + code[2] as int == |c|;
  }

  // ---------------------------------------------------------------------------
  // Label patching

  /** Patching every recorded slot `s` with `pos - s`, in recording order. */
  function PatchAll(s: BufferState, offsets: seq<int>, pos: int): (r: Option<BufferState>)
    requires s.Valid()
    ensures r.Some? ==> r.value.Valid() && r.value.position == s.position
  {
    if offsets == [] then Some(s)
    else
      match PatchAll(s, offsets[..|offsets| - 1], pos)
      case None => None
      case Some(t) =>
        var o := offsets[|offsets| - 1];
        PutShortAtState(t, o, ToShort(pos - o))
  }

  /** Slots at least two bytes apart, as the compiler records them. */
  predicate SlotsApart(offsets: seq<int>)
  {
    forall i, j | 0 <= i < j < |offsets| :: offsets[i] + 2 <= offsets[j] || offsets[j] + 2 <= offsets[i]
  }

  /**
   * After patching, each recorded slot `s` holds `pos - s`: the jump stored
   * there designates `pos`, the label's position.
   */
  lemma {:induction false} PatchAllReadBack(s: BufferState, offsets: seq<int>, pos: int, i: int)
    requires s.Valid() && PatchAll(s, offsets, pos).Some? && SlotsApart(offsets)
    requires 0 <= i < |offsets|
    ensures 0 <= offsets[i] && offsets[i] + 2 <= |PatchAll(s, offsets, pos).value.contents|
    ensures GetShort(PatchAll(s, offsets, pos).value.contents, offsets[i]) == ToShort(pos - offsets[i])
    decreases |offsets|
  {
    var init := offsets[..|offsets| - 1];
    var o := offsets[|offsets| - 1];
    var t := PatchAll(s, init, pos).value;
    if i == |offsets| - 1 {
      PutShortAtReadBack(t, o, ToShort(pos - o));
    } else {
      assert init[i] == offsets[i];
      assert SlotsApart(init);
      PatchAllReadBack(s, init, pos, i);
      PatchAllReadBackFrame(t, o, ToShort(pos - o), offsets[i]);
    }
  }

  lemma PatchAllReadBackFrame(t: BufferState, o: int, v: int, x: int)
    requires t.Valid() && PutShortAtState(t, o, v).Some?
    requires 0 <= x && x + 2 <= |t.contents| && (x + 2 <= o || o + 2 <= x)
    ensures GetShort(PutShortAtState(t, o, v).value.contents, x) == GetShort(t.contents, x)
  {
    PutShortAtFrame(t, o, v, x);
    PutShortAtFrame(t, o, v, x + 1);
  }

  /** Patching one more slot is one more `putShort` on what the shorter patch left. */
  lemma PatchAllStep(s: BufferState, offsets: seq<int>, i: nat, pos: int, t: BufferState)
    requires s.Valid() && i < |offsets| && PatchAll(s, offsets[..i], pos) == Some(t)
    ensures t.Valid() && PatchAll(s, offsets[..i + 1], pos) == PutShortAtState(t, offsets[i], ToShort(pos - offsets[i]))
  {
    assert offsets[..i + 1][..i] == offsets[..i];
  }

  /** Once one slot cannot be patched, the whole patch fails. */
  lemma {:induction false} PatchAllPrefixNone(s: BufferState, offsets: seq<int>, j: nat, pos: int)
    requires s.Valid() && j <= |offsets| && PatchAll(s, offsets[..j], pos).None?
    ensures PatchAll(s, offsets, pos).None?
    decreases |offsets|
  {
    if j < |offsets| {
      assert offsets[..|offsets| - 1][..j] == offsets[..j];
      PatchAllPrefixNone(s, offsets[..|offsets| - 1], j, pos);
    } else {
      assert offsets[..j] == offsets;
    }
  }

  /** Patching the placeholder `[0, 0]` after `a` replaces exactly those two bytes. */
  lemma PutPlaceholder(t: BufferState, a: seq<byte>, b: seq<byte>, v: int)
    requires t.Valid() && t.Written() == a + [0, 0] + b
    ensures PutShortAtState(t, |a|, v).Some?
    ensures PutShortAtState(t, |a|, v).value.Written() == a + ShortBytes(v) + b
  {
    assert |a| + 2 <= t.position <= |t.contents|;
    var u := PutShortAtState(t, |a|, v).value;
    assert u.contents == t.contents[..|a|] + ShortBytes(v) + t.contents[|a| + 2..];
    assert t.contents[..|a|] == a;
    assert t.contents[|a| + 2..t.position] == b;
  }

  /** A label referenced from one slot. */
  lemma PatchOne(s: BufferState, a: seq<byte>, b: seq<byte>, pos: int)
    requires s.Valid() && s.Written() == a + [0, 0] + b
    ensures PatchAll(s, [|a|], pos).Some?
    ensures PatchAll(s, [|a|], pos).value.Written() == a + JumpBytes(pos, |a|) + b
  {
    assert [|a|][..0] == [];
    PutPlaceholder(s, a, b, ToShort(pos - |a|));
  }

  /** A label referenced from two slots (the end of a repetition). */
  lemma PatchTwo(s: BufferState, a: seq<byte>, m: seq<byte>, b: seq<byte>, pos: int)
    requires s.Valid() && s.Written() == a + [0, 0] + m + [0, 0] + b
    ensures PatchAll(s, [|a|, |a| + 2 + |m|], pos).Some?
    ensures PatchAll(s, [|a|, |a| + 2 + |m|], pos).value.Written()
            == a + JumpBytes(pos, |a|) + m + JumpBytes(pos, |a| + 2 + |m|) + b
  {
    var offsets := [|a|, |a| + 2 + |m|];
    assert offsets[..1] == [|a|];
    assert s.Written() == a + [0, 0] + (m + [0, 0] + b);
    PatchOne(s, a, m + [0, 0] + b, pos);
    var t := PatchAll(s, [|a|], pos).value;
    assert t.Written() == (a + JumpBytes(pos, |a|) + m) + [0, 0] + b;
    PutPlaceholder(t, a + JumpBytes(pos, |a|) + m, b, ToShort(pos - (|a| + 2 + |m|)));
  }

  /** Appending piece by piece is appending the pieces' concatenation. */
  lemma Append2(w: seq<byte>, a: seq<byte>, b: seq<byte>)
    ensures w + a + b == w + (a + b)
  {
  }

  lemma Append3(w: seq<byte>, a: seq<byte>, b: seq<byte>, c: seq<byte>)
    ensures w + a + b + c == w + (a + b + c)
  {
  }

  lemma Append4(w: seq<byte>, a: seq<byte>, b: seq<byte>, c: seq<byte>, d: seq<byte>)
    ensures w + a + b + c + d == w + (a + b + c + d)
  {
  }

  lemma Append5(w: seq<byte>, a: seq<byte>, b: seq<byte>, c: seq<byte>, d: seq<byte>, e: seq<byte>)
    ensures w + a + b + c + d + e == w + (a + b + c + d + e)
  {
  }

  // The output of each jump-bearing node once its labels are placed: the
  // patched placeholders give exactly the node's layout.

  lemma ZeroOrOneAssembly(s1: BufferState, w0: seq<byte>, c: seq<byte>, lz: bool)
    requires s1.Valid() && s1.Written() == w0 + [ForkInto(lz)] + [0, 0] + c
    ensures PatchAll(s1, [|w0| + 1], s1.position).Some?
    ensures PatchAll(s1, [|w0| + 1], s1.position).value.Written() == w0 + ZeroOrOneCode(c, lz)
  {
    var op := ForkInto(lz);
    PatchOne(s1, w0 + [op], c, s1.position);
    assert |s1.Written()| == s1.position == |w0| + |c| + 3;
    assert JumpBytes(s1.position, |w0| + 1) == JumpBytes(|c| + 3, 1);
    Append2(w0, [op], JumpBytes(|c| + 3, 1));
    Append2(w0, [op] + JumpBytes(|c| + 3, 1), c);
  }

  lemma ZeroOrMoreAssembly(s1: BufferState, w0: seq<byte>, c: seq<byte>, lz: bool)
    requires s1.Valid() && IsShort(-(|c| + 1))
    requires s1.Written() == w0 + [ForkInto(lz)] + [0, 0] + c + [ForkBack(lz)] + ShortBytes(-(|c| + 1))
    ensures PatchAll(s1, [|w0| + 1], s1.position).Some?
    ensures PatchAll(s1, [|w0| + 1], s1.position).value.Written() == w0 + ZeroOrMoreCode(c, lz)
  {
    var firstOp := ForkInto(lz);
    var secondOp := ForkBack(lz);
    var back := ShortBytes(-(|c| + 1));
    Append3(w0 + [firstOp] + [0, 0], c, [secondOp], back);
    PatchOne(s1, w0 + [firstOp], c + [secondOp] + back, s1.position);
    assert |s1.Written()| == s1.position == |w0| + |c| + 6;
    var j := JumpBytes(s1.position, |w0| + 1);
    assert j == JumpBytes(|c| + 6, 1);
    assert 3 - (|c| + 4) == -(|c| + 1) && ToShort(-(|c| + 1)) == -(|c| + 1);
    assert back == JumpBytes(3, |c| + 4);
    Append3(w0 + [firstOp] + j, c, [secondOp], back);
    Append5(w0, [firstOp], j, c, [secondOp], back);
  }

  /** The head of a counted loop once its body label is placed. */
  function RepetitionHeadBytes(w0: seq<byte>, lo: int, mx: int): seq<byte>
  {
    w0 + [RANGE_JUMP_OP] + ShortBytes(lo) + ShortBytes(mx) + JumpBytes(|w0| + 12, |w0| + 5)
  }

  lemma RepetitionBytesPlaced(s1: BufferState, w0: seq<byte>, lo: int, mx: int, op: byte)
    requires s1.Valid()
    requires s1.Written() == w0 + [RANGE_JUMP_OP] + ShortBytes(lo) + ShortBytes(mx) + [0, 0] + [0, 0] + [op] + [0, 0]
    ensures PatchAll(s1, [|w0| + 5], s1.position).Some?
    ensures PatchAll(s1, [|w0| + 5], s1.position).value.Written()
            == RepetitionHeadBytes(w0, lo, mx) + [0, 0] + [op] + [0, 0]
  {
    var a := w0 + [RANGE_JUMP_OP] + ShortBytes(lo) + ShortBytes(mx);
    Append3(a + [0, 0], [0, 0], [op], [0, 0]);
    PatchOne(s1, a, [0, 0] + [op] + [0, 0], s1.position);
    assert |s1.Written()| == s1.position == |w0| + 12;
    var j := JumpBytes(s1.position, |a|);
    assert j == JumpBytes(|w0| + 12, |w0| + 5);
    Append3(a + j, [0, 0], [op], [0, 0]);
  }

  /** The bytes of a counted loop after both end slots are patched, against its layout. */
  lemma RepetitionAssembly(w0: seq<byte>, c: seq<byte>, lo: int, mx: int, op: byte)
    requires IsShort(-(|c| + 13))
    ensures var pos := |w0| + |c| + 15;
            RepetitionHeadBytes(w0, lo, mx) + JumpBytes(pos, |w0| + 7) + [op] + JumpBytes(pos, |w0| + 10)
            + (c + [JUMP_OP] + ShortBytes(-(|c| + 13)))
            == w0 + RepetitionCode(c, lo, mx, op)
  {
    var pos := |w0| + |c| + 15;
    assert JumpBytes(|w0| + 12, |w0| + 5) == JumpBytes(12, 5);
    assert JumpBytes(pos, |w0| + 7) == JumpBytes(|c| + 15, 7);
    assert JumpBytes(pos, |w0| + 10) == JumpBytes(|c| + 15, 10);
    assert ShortBytes(-(|c| + 13)) == JumpBytes(0, |c| + 13);
  }

  lemma RepetitionEndPlaced(s3: BufferState, w0: seq<byte>, c: seq<byte>, lo: int, mx: int, op: byte)
    requires s3.Valid() && IsShort(-(|c| + 13))
    requires s3.Written() == RepetitionHeadBytes(w0, lo, mx) + [0, 0] + [op] + [0, 0] + c
                             + [JUMP_OP] + ShortBytes(-(|c| + 13))
    ensures PatchAll(s3, [|w0| + 7, |w0| + 10], s3.position).Some?
    ensures PatchAll(s3, [|w0| + 7, |w0| + 10], s3.position).value.Written()
            == w0 + RepetitionCode(c, lo, mx, op)
  {
    var a := RepetitionHeadBytes(w0, lo, mx);
    var back := ShortBytes(-(|c| + 13));
    Append3(a + [0, 0] + [op] + [0, 0], c, [JUMP_OP], back);
    assert |a| == |w0| + 7;
    PatchTwo(s3, a, [op], c + [JUMP_OP] + back, s3.position);
    assert |s3.Written()| == s3.position == |w0| + |c| + 15;
    RepetitionAssembly(w0, c, lo, mx, op);
  }

  lemma AlternationRhsPlaced(s1: BufferState, w0: seq<byte>, cl: seq<byte>)
    requires s1.Valid() && s1.Written() == w0 + [FORK_OP] + [0, 0] + cl + [JUMP_OP] + [0, 0]
    ensures PatchAll(s1, [|w0| + 1], s1.position).Some?
    ensures PatchAll(s1, [|w0| + 1], s1.position).value.Written()
            == w0 + [FORK_OP] + JumpBytes(|cl| + 6, 1) + cl + [JUMP_OP] + [0, 0]
  {
    Append3(w0 + [FORK_OP] + [0, 0], cl, [JUMP_OP], [0, 0]);
    PatchOne(s1, w0 + [FORK_OP], cl + [JUMP_OP] + [0, 0], s1.position);
    assert |s1.Written()| == s1.position == |w0| + |cl| + 6;
    var j := JumpBytes(s1.position, |w0| + 1);
    assert j == JumpBytes(|cl| + 6, 1);
    Append3(w0 + [FORK_OP] + j, cl, [JUMP_OP], [0, 0]);
  }

  lemma AlternationEndPlaced(s3: BufferState, w0: seq<byte>, cl: seq<byte>, cr: seq<byte>)
    requires s3.Valid()
    requires s3.Written() == w0 + [FORK_OP] + JumpBytes(|cl| + 6, 1) + cl + [JUMP_OP] + [0, 0] + cr
    ensures PatchAll(s3, [|w0| + 4 + |cl|], s3.position).Some?
    ensures PatchAll(s3, [|w0| + 4 + |cl|], s3.position).value.Written() == w0 + AlternationCode(cl, cr)
  {
    var j1 := JumpBytes(|cl| + 6, 1);
    var a := w0 + [FORK_OP] + j1 + cl + [JUMP_OP];
    PatchOne(s3, a, cr, s3.position);
    assert |s3.Written()| == s3.position == |w0| + |cl| + 6 + |cr|;
    var j2 := JumpBytes(s3.position, |a|);
    assert j2 == JumpBytes(|cl| + 6 + |cr|, |cl| + 4);
    Append5(w0, [FORK_OP], j1, cl, [JUMP_OP], j2);
    Append2(w0, [FORK_OP] + j1 + cl + [JUMP_OP] + j2, cr);
  }

  // ---------------------------------------------------------------------------
  // The imperative compiler

  /** A jump target: the slots waiting for it, and its position once placed. */
  class Label {
    var offsetsToWritePositionTo: seq<int>
    var position: Option<int>

    constructor()
      ensures offsetsToWritePositionTo == [] && position == None
    {
      offsetsToWritePositionTo := [];
      position := None;
    }
  }

  /**
   * One compiler per root; the class and lookaround bodies are compiled by a
   * fresh compiler over a copy of the root holding just those children. Every
   * compile step appends exactly the layout of its node, or fails as `Code` does.
   */
  class Compiler {
    const root: Root
    const buffer: GrowableByteBuffer

    ghost predicate Valid()
      reads this, buffer, buffer.buffer
    {
      buffer.Valid()
    }

    /**
     * The contract of `compileNode`, given the output `w0` before it: it
     * passes exactly when `code` succeeds, then having appended `code`'s bytes,
     * and it fails only by a failed `expect`.
     */
    static ghost predicate Emitted(w0: seq<byte>, code: Result<seq<byte>, Crash>, r: Outcome<Crash>, w1: seq<byte>)
    {
      (r.Pass? <==> code.Success?)
      && (r.Pass? ==> w1 == w0 + code.value)
      && (r.Fail? ==> r.error == ExpectationError)
    }

    /** Emitting `c` behind `NEGATE_NEXT` emits the negation of `c`. */
    static lemma NegateEmitted(w0: seq<byte>, c: Result<seq<byte>, Crash>, r: Outcome<Crash>, w1: seq<byte>)
      requires Emitted(w0 + [NEGATE_NEXT_OP], c, r, w1)
      ensures Emitted(w0, NegateResult(c), r, w1)
    {
    }

    constructor(root: Root)
      ensures Valid() && this.root == root && fresh(buffer) && fresh(buffer.buffer)
      ensures buffer.position == 0
    {
      this.root := root;
      buffer := new GrowableByteBuffer();
    }

    /** `compile()`: the bytes of the root's children, or the `expect` that failed. */
    method Compile() returns (r: Result<seq<byte>, Crash>)
      requires Valid() && buffer.position == 0
      modifies buffer, buffer.buffer
      decreases Size(root), 5
      ensures Valid()
      ensures r == CodeAll(root.nodes, root.numGroups)
    {
      assert buffer.Written() == [];
      var o := CompileNode(root);
      if o.Fail? {
        CodeAllFailsOnlyByExpect(root.nodes, root.numGroups);
        return Failure(o.error);
      }
      assert buffer.Written() == CodeAll(root.nodes, root.numGroups).value;
      var bytes := buffer.Finalize();
      r := Success(bytes);
    }

    /** `Compiler(root.copy(nodes = ns)).compile()` */
    method CompileNested(ns: seq<ASTNode>) returns (r: Result<seq<byte>, Crash>)
      requires Valid()
      decreases SizeAll(ns) + 1, 6
      ensures r == CodeAll(ns, root.numGroups)
    {
      var nested := new Compiler(RootNode(root.groupNames, root.numGroups, ns));
      r := nested.Compile();
    }

    /** `compileNode`: dispatch on the node kind. */
    method CompileNode(node: ASTNode) returns (r: Outcome<Crash>)
      requires Valid()
      modifies buffer, buffer.buffer
      decreases Size(node), 4
      ensures Valid() && (buffer.buffer == old(buffer.buffer) || fresh(buffer.buffer))
      ensures Emitted(old(buffer.Written()), Code(node, root.numGroups), r, buffer.Written())
    {
      if IsQuantifier(node) {
        r := CompileQuantifier(node);
      } else if IsLeaf(node) && !node.CharacterClassNode? && !node.InvertedCharacterClassNode? {
        r := CompileLeaf(node);
      } else {
        r := CompileBranch(node);
      }
    }

    /** The branches of `compileNode` for the four quantifiers. */
    method CompileQuantifier(node: ASTNode) returns (r: Outcome<Crash>)
      requires Valid() && IsQuantifier(node)
      modifies buffer, buffer.buffer
      decreases Size(node), 3
      ensures Valid() && (buffer.buffer == old(buffer.buffer) || fresh(buffer.buffer))
      ensures Emitted(old(buffer.Written()), Code(node, root.numGroups), r, buffer.Written())
    {
      match node
      case ZeroOrOneNode(m, lz) => r := CompileZeroOrOne(m, lz);
      case ZeroOrMoreNode(m, lz) => r := CompileZeroOrMore(m, lz);
      case OneOrMoreNode(m, lz) => r := CompileOneOrMore(m, lz);
      case RepetitionNode(m, lo, hi, lz) => r := CompileRepetition(m, lo, hi, lz);
    }

    /** The branches of `compileNode` for the other nodes with children. */
    method CompileBranch(node: ASTNode) returns (r: Outcome<Crash>)
      requires Valid() && !IsQuantifier(node)
      requires !IsLeaf(node) || node.CharacterClassNode? || node.InvertedCharacterClassNode?
      modifies buffer, buffer.buffer
      decreases Size(node), 3
      ensures Valid() && (buffer.buffer == old(buffer.buffer) || fresh(buffer.buffer))
      ensures Emitted(old(buffer.Written()), Code(node, root.numGroups), r, buffer.Written())
    {
      match node
      case RootNode(_, _, ns) => r := CompileAll(ns);
      case GroupNode(index, ns) => r := CompileGroup(index, ns);
      case NegateNode(m) => r := CompileNegate(m);
      case CharacterClassNode(ns) => r := CompileCharacterClass(ns);
      case InvertedCharacterClassNode(ns) => r := CompileInvertedCharacterClass(ns);
      case AlternationNode(lhs, rhs) => r := CompileAlternation(lhs, rhs);
      case LookNode(kind, ns) => r := CompileLook(kind, ns);
    }

    /** The branches of `compileNode` for nodes without children. */
    method CompileLeaf(node: ASTNode) returns (r: Outcome<Crash>)
      requires Valid() && IsLeaf(node) && !node.CharacterClassNode? && !node.InvertedCharacterClassNode?
      modifies buffer, buffer.buffer
      ensures Valid() && (buffer.buffer == old(buffer.buffer) || fresh(buffer.buffer))
      ensures Emitted(old(buffer.Written()), LeafResult(node, root.numGroups), r, buffer.Written())
    {
      var op := SingleOp(node);
      if op.Some? {
        r := CompileOp(op.value);
        return;
      }
      match node
      case CodePointNode(cp) => r := CompileCodePoint(cp);
      case CodePointListNode(bs) => r := CompileCodePointList(bs);
      case UnicodeClassNode(name) => r := CompileUnicodeClass(name);
      case BackReferenceNode(index, _) => r := CompileBackReference(index);
      case CodePointRangeNode(lo, hi) => r := CompileRange(lo, hi);
    }

    /** `nodes.forEach(::compileNode)` */
    method CompileAll(ns: seq<ASTNode>) returns (r: Outcome<Crash>)
      requires Valid()
      modifies buffer, buffer.buffer
      decreases SizeAll(ns) + 1, 1
      ensures Valid() && (buffer.buffer == old(buffer.buffer) || fresh(buffer.buffer))
      ensures Emitted(old(buffer.Written()), CodeAll(ns, root.numGroups), r, buffer.Written())
    {
      ghost var w0 := buffer.Written();
      var i := 0;
      assert ns[..0] == [];
      while i < |ns|
        invariant 0 <= i <= |ns| && Valid()
        invariant buffer.buffer == old(buffer.buffer) || fresh(buffer.buffer)
        invariant CodeAll(ns[..i], root.numGroups).Success?
        invariant buffer.Written() == w0 + CodeAll(ns[..i], root.numGroups).value
      {
        SizeAllBounds(ns, i);
        ghost var prefix := CodeAll(ns[..i], root.numGroups).value;
        r := CompileNode(ns[i]);
        CodeAllStep(ns, i, root.numGroups);
        if r.Fail? {
          CodeAllPrefixFailure(ns, i + 1, root.numGroups);
          return;
        }
        Append2(w0, prefix, Code(ns[i], root.numGroups).value);
        i := i + 1;
      }
      assert ns[..i] == ns;
      r := Pass;
    }

    /** `writeByte(op)` */
    method WriteOp(op: byte)
      requires Valid() && op <= BYTE_MAX
      modifies buffer, buffer.buffer
      ensures Valid() && (buffer.buffer == old(buffer.buffer) || fresh(buffer.buffer))
      ensures buffer.Written() == old(buffer.Written()) + [op]
    {
      buffer.WriteByte(op);
    }

    /** A node that is just its opcode. */
    method CompileOp(op: byte) returns (r: Outcome<Crash>)
      requires Valid() && op <= BYTE_MAX
      modifies buffer, buffer.buffer
      ensures Valid() && (buffer.buffer == old(buffer.buffer) || fresh(buffer.buffer))
      ensures r.Pass? && buffer.Written() == old(buffer.Written()) + [op]
    {
      WriteOp(op);
      r := Pass;
    }

    /** `writeJumpRef`: a placed label's offset (checked to fit a `Short`), else a recorded placeholder. */
    method WriteJumpRef(target: Label) returns (r: Outcome<Crash>)
      requires Valid()
      modifies target, buffer, buffer.buffer
      ensures Valid() && (buffer.buffer == old(buffer.buffer) || fresh(buffer.buffer))
      ensures target.position == old(target.position)
      ensures old(target.position).None? ==>
                r.Pass? && buffer.Written() == old(buffer.Written()) + [0, 0]
                && target.offsetsToWritePositionTo == old(target.offsetsToWritePositionTo) + [old(buffer.position)]
      ensures old(target.position).Some? ==>
                var offset := old(target.position).value - old(buffer.position);
                target.offsetsToWritePositionTo == old(target.offsetsToWritePositionTo)
                && (r.Pass? <==> IsShort(offset))
                && (r.Pass? ==> buffer.Written() == old(buffer.Written()) + ShortBytes(offset))
                && (r.Fail? ==> r.error == ExpectationError)
    {
      if target.position.Some? {
        var offset := target.position.value - buffer.position;
        :- Expect(IsShort(offset));
        buffer.WriteShort(offset);
      } else {
        target.offsetsToWritePositionTo := target.offsetsToWritePositionTo + [buffer.position];
        buffer.WriteShort(0);
      }
      r := Pass;
    }

    /** `writeJump`: the op, then the reference to the label. */
    method WriteJump(op: byte, target: Label) returns (r: Outcome<Crash>)
      requires Valid() && op <= BYTE_MAX
      modifies target, buffer, buffer.buffer
      ensures Valid() && (buffer.buffer == old(buffer.buffer) || fresh(buffer.buffer))
      ensures target.position == old(target.position)
      ensures old(target.position).None? ==>
                r.Pass? && buffer.Written() == old(buffer.Written()) + [op] + [0, 0]
                && target.offsetsToWritePositionTo == old(target.offsetsToWritePositionTo) + [old(buffer.position) + 1]
      ensures old(target.position).Some? ==>
                var offset := old(target.position).value - (old(buffer.position) + 1);
                target.offsetsToWritePositionTo == old(target.offsetsToWritePositionTo)
                && (r.Pass? <==> IsShort(offset))
                && (r.Pass? ==> buffer.Written() == old(buffer.Written()) + [op] + ShortBytes(offset))
                && (r.Fail? ==> r.error == ExpectationError)
    {
      WriteOp(op);
      r := WriteJumpRef(target);
    }

    /**
     * `placeLabel`: the label takes the current position, and every slot
     * recorded so far receives the distance from itself to here.
     */
    method PlaceLabel(target: Label) returns (r: Outcome<Crash>)
      requires Valid()
      modifies target, buffer.buffer
      ensures Valid()
      ensures target.position == Some(buffer.position)
      ensures target.offsetsToWritePositionTo == old(target.offsetsToWritePositionTo)
      ensures PatchAll(old(buffer.State()), target.offsetsToWritePositionTo, buffer.position).Some? ==>
                r.Pass? && buffer.State() == PatchAll(old(buffer.State()), target.offsetsToWritePositionTo, buffer.position).value
      ensures PatchAll(old(buffer.State()), target.offsetsToWritePositionTo, buffer.position).None? ==>
                r == Fail(IndexOutOfBounds)
      ensures target.offsetsToWritePositionTo == [] ==> r.Pass? && buffer.Written() == old(buffer.Written())
    {
      target.position := Some(buffer.position);
      r := PatchSlots(target.offsetsToWritePositionTo);
    }

    /** The loop of `placeLabel`: each slot receives the distance from itself to `position`. */
    method PatchSlots(offsets: seq<int>) returns (r: Outcome<Crash>)
      requires Valid()
      modifies buffer.buffer
      ensures Valid() && buffer.position == old(buffer.position)
      ensures PatchAll(old(buffer.State()), offsets, buffer.position).Some? ==>
                r.Pass? && buffer.State() == PatchAll(old(buffer.State()), offsets, buffer.position).value
      ensures PatchAll(old(buffer.State()), offsets, buffer.position).None? ==> r == Fail(IndexOutOfBounds)
    {
      var i := 0;
      assert offsets[..0] == [];
      while i < |offsets|
        invariant 0 <= i <= |offsets| && Valid() && buffer.position == old(buffer.position)
        invariant PatchAll(old(buffer.State()), offsets[..i], buffer.position) == Some(buffer.State())
      {
        var o := offsets[i];
        PatchAllStep(old(buffer.State()), offsets, i, buffer.position, buffer.State());
        r := buffer.PutShortAt(o, ToShort(buffer.position - o));
        if r.Fail? {
          PatchAllPrefixNone(old(buffer.State()), offsets, i + 1, buffer.position);
          return;
        }
        i := i + 1;
      }
      assert offsets[..i] == offsets;
      r := Pass;
    }

    /** `START_GROUP idx` or `START_NON_CAPTURING_GROUP`, the children, `END_GROUP`. */
    method CompileGroup(index: Option<int16>, ns: seq<ASTNode>) returns (r: Outcome<Crash>)
      requires Valid()
      modifies buffer, buffer.buffer
      decreases SizeAll(ns) + 1, 2
      ensures Valid() && (buffer.buffer == old(buffer.buffer) || fresh(buffer.buffer))
      ensures Emitted(old(buffer.Written()), GroupResult(index, CodeAll(ns, root.numGroups)), r, buffer.Written())
    {
      ghost var w0 := buffer.Written();
      ghost var head: seq<byte>;
      if index.Some? {
        WriteOp(START_GROUP_OP);
        buffer.WriteShort(index.value);
        Append2(w0, [START_GROUP_OP], ShortBytes(index.value));
        head := [START_GROUP_OP] + ShortBytes(index.value);
      } else {
        WriteOp(START_NON_CAPTURING_GROUP_OP);
        head := [START_NON_CAPTURING_GROUP_OP];
      }
      r := CompileAll(ns);
      if r.Pass? {
        WriteOp(END_GROUP_OP);
        Append3(w0, head, CodeAll(ns, root.numGroups).value, [END_GROUP_OP]);
      }
    }

    /** The three code point tiers. */
    method CompileCodePoint(cp: int32) returns (r: Outcome<Crash>)
      requires Valid()
      modifies buffer, buffer.buffer
      ensures Valid() && (buffer.buffer == old(buffer.buffer) || fresh(buffer.buffer))
      ensures r.Pass? && buffer.Written() == old(buffer.Written()) + CodePointCode(cp)
    {
      ghost var w0 := buffer.Written();
      if cp <= BYTE_MAX {
        WriteOp(CODEPOINT1_OP);
        Unsigned8OfToByte(cp);
        buffer.WriteByte(ToByte(cp));
        Append2(w0, [CODEPOINT1_OP], [Unsigned8(cp)]);
      } else if cp <= SHORT_MAX {
        WriteOp(CODEPOINT2_OP);
        buffer.WriteShort(ToShort(cp));
        Append2(w0, [CODEPOINT2_OP], ShortBytes(cp));
      } else {
        WriteOp(CODEPOINT4_OP);
        buffer.WriteInt(cp);
        Append2(w0, [CODEPOINT4_OP], IntBytes(cp));
      }
      r := Pass;
    }

    /** `CODEPOINT1_LIST`, the count as a byte, then each byte. */
    method CompileCodePointList(bs: seq<int8>) returns (r: Outcome<Crash>)
      requires Valid()
      modifies buffer, buffer.buffer
      ensures Valid() && (buffer.buffer == old(buffer.buffer) || fresh(buffer.buffer))
      ensures r.Pass? && buffer.Written() == old(buffer.Written()) + ListCode(bs)
    {
      ghost var w0 := buffer.Written();
      WriteOp(CODEPOINT1_LIST_OP);
      Unsigned8OfToByte(|bs|);
      buffer.WriteByte(ToByte(|bs|));
      WriteListBytes(bs);
      Append3(w0, [CODEPOINT1_LIST_OP], [Unsigned8(|bs|)], ListBytes(bs));
      r := Pass;
    }

    /** `writeBytes(node.codePoints)` */
    method WriteListBytes(bs: seq<int8>)
      requires Valid()
      modifies buffer, buffer.buffer
      ensures Valid() && (buffer.buffer == old(buffer.buffer) || fresh(buffer.buffer))
      ensures buffer.Written() == old(buffer.Written()) + ListBytes(bs)
    {
      ghost var w1 := buffer.Written();
      var i := 0;
      while i < |bs|
        invariant 0 <= i <= |bs| && Valid()
        invariant buffer.buffer == old(buffer.buffer) || fresh(buffer.buffer)
        invariant buffer.Written() == w1 + ListBytes(bs)[..i]
      {
        buffer.WriteByte(bs[i]);
        assert ListBytes(bs)[..i + 1] == ListBytes(bs)[..i] + [Unsigned8(bs[i])];
        Append2(w1, ListBytes(bs)[..i], [Unsigned8(bs[i])]);
        i := i + 1;
      }
      assert ListBytes(bs)[..i] == ListBytes(bs);
    }

    /** `NEGATE_NEXT`, then the negated node. */
    method CompileNegate(m: ASTNode) returns (r: Outcome<Crash>)
      requires Valid()
      modifies buffer, buffer.buffer
      decreases Size(m) + 1, 2
      ensures Valid() && (buffer.buffer == old(buffer.buffer) || fresh(buffer.buffer))
      ensures Emitted(old(buffer.Written()), NegateResult(Code(m, root.numGroups)), r, buffer.Written())
    {
      ghost var w0 := buffer.Written();
      WriteOp(NEGATE_NEXT_OP);
      r := CompileNode(m);
      NegateEmitted(w0, Code(m, root.numGroups), r, buffer.Written());
    }

    /** `UNICODE_CLASS`, the name length, then the name in ASCII; each byte is `expect`ed to fit. */
    method CompileUnicodeClass(name: string) returns (r: Outcome<Crash>)
      requires Valid()
      modifies buffer, buffer.buffer
      ensures Valid() && (buffer.buffer == old(buffer.buffer) || fresh(buffer.buffer))
      ensures Emitted(old(buffer.Written()), UnicodeClassResult(name), r, buffer.Written())
    {
      ghost var w0 := buffer.Written();
      WriteOp(UNICODE_CLASS_OP);
      :- Expect(|name| <= BYTE_MAX);
      buffer.WriteByte(|name|);
      r := WriteAsciiName(name);
      if r.Pass? {
        Append3(w0, [UNICODE_CLASS_OP], [|name|], AsciiBytes(name));
      }
    }

    /** `for (ch in name) { expect(ch.code <= Byte.MAX_VALUE); writeByte(ch.code.toByte()) }` */
    method WriteAsciiName(name: string) returns (r: Outcome<Crash>)
      requires Valid()
      modifies buffer, buffer.buffer
      ensures Valid() && (buffer.buffer == old(buffer.buffer) || fresh(buffer.buffer))
      ensures r.Pass? <==> IsAscii(name)
      ensures r.Pass? ==> buffer.Written() == old(buffer.Written()) + AsciiBytes(name)
      ensures r.Fail? ==> r.error == ExpectationError
    {
      ghost var w1 := buffer.Written();
      var i := 0;
      assert name[..0] == [];
      while i < |name|
        invariant 0 <= i <= |name| && Valid()
        invariant buffer.buffer == old(buffer.buffer) || fresh(buffer.buffer)
        invariant IsAscii(name[..i])
        invariant buffer.Written() == w1 + AsciiBytes(name[..i])
      {
        if name[i] as int > BYTE_MAX {
          assert !IsAscii(name);
          return Fail(ExpectationError);
        }
        buffer.WriteByte(name[i] as int);
        assert name[..i + 1] == name[..i] + [name[i]];
        assert AsciiBytes(name[..i + 1]) == AsciiBytes(name[..i]) + [name[i] as int];
        Append2(w1, AsciiBytes(name[..i]), [name[i] as int]);
        i := i + 1;
      }
      assert name[..i] == name;
      r := Pass;
    }

    /** A known group as `BACK_REFERENCE idx`; any other index as a code point. */
    method CompileBackReference(index: int16) returns (r: Outcome<Crash>)
      requires Valid()
      modifies buffer, buffer.buffer
      ensures Valid() && (buffer.buffer == old(buffer.buffer) || fresh(buffer.buffer))
      ensures r.Pass? && buffer.Written() == old(buffer.Written()) + BackReferenceCode(index, root.numGroups)
    {
      ghost var w0 := buffer.Written();
      if index < root.numGroups {
        WriteOp(BACK_REFERENCE_OP);
        buffer.WriteShort(index);
        Append2(w0, [BACK_REFERENCE_OP], ShortBytes(index));
      } else if index <= BYTE_MAX {
        WriteOp(CODEPOINT1_OP);
        Unsigned8OfToByte(index);
        buffer.WriteByte(ToByte(index));
        Append2(w0, [CODEPOINT1_OP], [Unsigned8(index)]);
      } else {
        WriteOp(CODEPOINT2_OP);
        buffer.WriteShort(index);
        Append2(w0, [CODEPOINT2_OP], ShortBytes(index));
      }
      r := Pass;
    }

    /** `CHAR_CLASS`, the entry count, the block length, then the separately compiled block. */
    method CompileCharacterClass(ns: seq<ASTNode>) returns (r: Outcome<Crash>)
      requires Valid()
      modifies buffer, buffer.buffer
      decreases SizeAll(ns) + 2, 2
      ensures Valid() && (buffer.buffer == old(buffer.buffer) || fresh(buffer.buffer))
      ensures Emitted(old(buffer.Written()), ClassResult(|ns|, CodeAll(ns, root.numGroups)), r, buffer.Written())
    {
      ghost var w0 := buffer.Written();
      WriteOp(CHAR_CLASS_OP);
      ShortBytesOfToShort(|ns|);
      buffer.WriteShort(ToShort(|ns|));
      var res := CompileNested(ns);
      if res.Failure? {
        CodeAllFailsOnlyByExpect(ns, root.numGroups);
        return Fail(res.error);
      }
      var opcodes := res.value;
      ShortBytesOfToShort(|opcodes|);
      buffer.WriteShort(ToShort(|opcodes|));
      buffer.WriteBytes(opcodes);
      Append4(w0, [CHAR_CLASS_OP], ShortBytes(|ns|), ShortBytes(|opcodes|), opcodes);
      r := Pass;
    }

    /** `INVERTED_CHAR_CLASS`, then the separately compiled block with no header. */
    method CompileInvertedCharacterClass(ns: seq<ASTNode>) returns (r: Outcome<Crash>)
      requires Valid()
      modifies buffer, buffer.buffer
      decreases SizeAll(ns) + 2, 2
      ensures Valid() && (buffer.buffer == old(buffer.buffer) || fresh(buffer.buffer))
      ensures Emitted(old(buffer.Written()), InvertedClassResult(CodeAll(ns, root.numGroups)), r, buffer.Written())
    {
      WriteOp(INVERTED_CHAR_CLASS_OP);
      var res := CompileNested(ns);
      if res.Failure? {
        CodeAllFailsOnlyByExpect(ns, root.numGroups);
        return Fail(res.error);
      }
      buffer.WriteBytes(res.value);
      r := Pass;
    }

    /** The three range tiers, chosen by both endpoints. */
    method CompileRange(lo: int32, hi: int32) returns (r: Outcome<Crash>)
      requires Valid()
      modifies buffer, buffer.buffer
      ensures Valid() && (buffer.buffer == old(buffer.buffer) || fresh(buffer.buffer))
      ensures r.Pass? && buffer.Written() == old(buffer.Written()) + RangeCode(lo, hi)
    {
      ghost var w0 := buffer.Written();
      if lo <= BYTE_MAX && hi <= BYTE_MAX {
        WriteOp(RANGE1_OP);
        Unsigned8OfToByte(lo);
        Unsigned8OfToByte(hi);
        buffer.WriteByte(ToByte(lo));
        buffer.WriteByte(ToByte(hi));
        Append3(w0, [RANGE1_OP], [Unsigned8(lo)], [Unsigned8(hi)]);
      } else if lo <= SHORT_MAX && hi <= SHORT_MAX {
        WriteOp(RANGE2_OP);
        ShortBytesOfToShort(lo);
        ShortBytesOfToShort(hi);
        buffer.WriteShort(ToShort(lo));
        buffer.WriteShort(ToShort(hi));
        Append3(w0, [RANGE2_OP], ShortBytes(lo), ShortBytes(hi));
      } else {
        WriteOp(RANGE4_OP);
        buffer.WriteInt(lo);
        buffer.WriteInt(hi);
        Append3(w0, [RANGE4_OP], IntBytes(lo), IntBytes(hi));
      }
      r := Pass;
    }

    /** `?`: a fork past the body, then the body. */
    method CompileZeroOrOne(m: ASTNode, lz: bool) returns (r: Outcome<Crash>)
      requires Valid()
      modifies buffer, buffer.buffer
      decreases Size(m) + 1, 2
      ensures Valid() && (buffer.buffer == old(buffer.buffer) || fresh(buffer.buffer))
      ensures Emitted(old(buffer.Written()), ZeroOrOneResult(Code(m, root.numGroups), lz), r, buffer.Written())
    {
      ghost var w0 := buffer.Written();
      var end := new Label();
      r := WriteJump(ForkInto(lz), end);
      r := CompileNode(m);
      r := FinishZeroOrOne(end, w0, Code(m, root.numGroups), r, lz);
    }

    /** `placeLabel(end)` behind the body of a `?`, once the body compiled. */
    method FinishZeroOrOne(end: Label, ghost w0: seq<byte>, ghost cm: Result<seq<byte>, Crash>, r0: Outcome<Crash>, lz: bool)
      returns (r: Outcome<Crash>)
      requires Valid() && end.position.None? && end.offsetsToWritePositionTo == [|w0| + 1]
      requires Emitted(w0 + [ForkInto(lz)] + [0, 0], cm, r0, buffer.Written())
      modifies end, buffer.buffer
      ensures Valid() && Emitted(w0, ZeroOrOneResult(cm, lz), r, buffer.Written())
    {
      if r0.Fail? {
        return r0;
      }
      ZeroOrOneAssembly(buffer.State(), w0, cm.value, lz);
      r := PlaceLabel(end);
    }

    /** `*`: a fork past the loop, then the body and the fork back. */
    method CompileZeroOrMore(m: ASTNode, lz: bool) returns (r: Outcome<Crash>)
      requires Valid()
      modifies buffer, buffer.buffer
      decreases Size(m) + 1, 2
      ensures Valid() && (buffer.buffer == old(buffer.buffer) || fresh(buffer.buffer))
      ensures Emitted(old(buffer.Written()), ZeroOrMoreResult(Code(m, root.numGroups), lz), r, buffer.Written())
    {
      ghost var w0 := buffer.Written();
      var bytesLabel := new Label();
      var endLabel := new Label();
      WriteForkHead(ForkInto(lz), bytesLabel, endLabel);
      r := CompileNode(m);
      r := FinishZeroOrMore(bytesLabel, endLabel, w0, Code(m, root.numGroups), r, lz);
    }

    /** `writeJump(firstOp, endLabel); placeLabel(bytesLabel)` for fresh labels. */
    method WriteForkHead(op: byte, bytesLabel: Label, endLabel: Label)
      requires Valid() && op <= BYTE_MAX && bytesLabel != endLabel
      requires bytesLabel.position.None? && bytesLabel.offsetsToWritePositionTo == []
      requires endLabel.position.None? && endLabel.offsetsToWritePositionTo == []
      modifies bytesLabel, endLabel, buffer, buffer.buffer
      ensures Valid() && (buffer.buffer == old(buffer.buffer) || fresh(buffer.buffer))
      ensures buffer.Written() == old(buffer.Written()) + [op] + [0, 0]
      ensures bytesLabel.position == Some(|old(buffer.Written())| + 3)
      ensures endLabel.position.None? && endLabel.offsetsToWritePositionTo == [|old(buffer.Written())| + 1]
    {
      var r := WriteJump(op, endLabel);
      r := PlaceLabel(bytesLabel);
    }

    /** `writeJump(secondOp, bytesLabel); placeLabel(endLabel)` behind the body of a `*`, once the body compiled. */
    method FinishZeroOrMore(bytesLabel: Label, endLabel: Label, ghost w0: seq<byte>, ghost cm: Result<seq<byte>, Crash>,
                            r0: Outcome<Crash>, lz: bool)
      returns (r: Outcome<Crash>)
      requires Valid() && bytesLabel != endLabel
      requires bytesLabel.position == Some(|w0| + 3)
      requires endLabel.position.None? && endLabel.offsetsToWritePositionTo == [|w0| + 1]
      requires Emitted(w0 + [ForkInto(lz)] + [0, 0], cm, r0, buffer.Written())
      modifies bytesLabel, endLabel, buffer, buffer.buffer
      ensures Valid() && (buffer.buffer == old(buffer.buffer) || fresh(buffer.buffer))
      ensures Emitted(w0, ZeroOrMoreResult(cm, lz), r, buffer.Written())
    {
      if r0.Fail? {
        return r0;
      }
      ghost var c := cm.value;
      assert buffer.position == |w0| + 3 + |c|;
      r := WriteJump(ForkBack(lz), bytesLabel);
      if r.Fail? {
        return;
      }
      ZeroOrMoreAssembly(buffer.State(), w0, c, lz);
      r := PlaceLabel(endLabel);
    }

    /** `+`: the body, then a fork back to it. */
    method CompileOneOrMore(m: ASTNode, lz: bool) returns (r: Outcome<Crash>)
      requires Valid()
      modifies buffer, buffer.buffer
      decreases Size(m) + 1, 2
      ensures Valid() && (buffer.buffer == old(buffer.buffer) || fresh(buffer.buffer))
      ensures Emitted(old(buffer.Written()), OneOrMoreResult(Code(m, root.numGroups), lz), r, buffer.Written())
    {
      ghost var w0 := buffer.Written();
      var start := new Label();
      r := PlaceLabel(start);
      r := CompileNode(m);
      r := FinishOneOrMore(start, w0, Code(m, root.numGroups), r, lz);
    }

    /** `writeJump(FORK/FORK_NOW, label)` behind the body of a `+`, once the body compiled. */
    method FinishOneOrMore(start: Label, ghost w0: seq<byte>, ghost cm: Result<seq<byte>, Crash>, r0: Outcome<Crash>, lz: bool)
      returns (r: Outcome<Crash>)
      requires Valid() && start.position == Some(|w0|)
      requires Emitted(w0, cm, r0, buffer.Written())
      modifies start, buffer, buffer.buffer
      ensures Valid() && (buffer.buffer == old(buffer.buffer) || fresh(buffer.buffer))
      ensures Emitted(w0, OneOrMoreResult(cm, lz), r, buffer.Written())
    {
      if r0.Fail? {
        return r0;
      }
      ghost var c := cm.value;
      assert buffer.position == |w0| + |c|;
      r := WriteJump(ForkBack(lz), start);
      if r.Pass? {
        assert ToShort(-(|c| + 1)) == -(|c| + 1);
        Append3(w0, c, [ForkBack(lz)], JumpBytes(0, |c| + 1));
      }
    }

    /** `{min,max}`: nothing for `{0,0}`, the body for `{1,1}`, otherwise the counted loop. */
    method CompileRepetition(m: ASTNode, lo: int16, hi: Option<int16>, lz: bool) returns (r: Outcome<Crash>)
      requires Valid()
      modifies buffer, buffer.buffer
      decreases Size(m) + 1, 2
      ensures Valid() && (buffer.buffer == old(buffer.buffer) || fresh(buffer.buffer))
      ensures Emitted(old(buffer.Written()), RepetitionResult(Code(m, root.numGroups), lo, hi, lz), r, buffer.Written())
    {
      if lo == 0 && hi == Some(0) {
        return Pass;
      }
      if lo == 1 && hi == Some(1) {
        r := CompileNode(m);
        return;
      }
      r := CompileCountedLoop(m, lo, MaxOperand(hi), ForkInto(lz));
    }

    /** `RANGE_JUMP min max →body →end`, a fork past the loop, the body, a jump back to the start. */
    method CompileCountedLoop(m: ASTNode, lo: int16, mx: int16, op: byte) returns (r: Outcome<Crash>)
      requires Valid() && op <= BYTE_MAX
      modifies buffer, buffer.buffer
      decreases Size(m) + 1, 1
      ensures Valid() && (buffer.buffer == old(buffer.buffer) || fresh(buffer.buffer))
      ensures Emitted(old(buffer.Written()), CountedLoopResult(Code(m, root.numGroups), lo, mx, op), r, buffer.Written())
    {
      ghost var w0 := buffer.Written();
      var startLabel := new Label();
      var bytesLabel := new Label();
      var endLabel := new Label();
      r := PlaceLabel(startLabel);
      WriteCountedLoopHead(lo, mx, op, bytesLabel, endLabel);
      r := CompileNode(m);
      r := FinishCountedLoop(startLabel, endLabel, w0, Code(m, root.numGroups), r, lo, mx, op);
    }

    /**
     * `writeByte(RANGE_JUMP_OP); writeShort(min); writeShort(max); writeJumpRef(bytesLabel);
     * writeJumpRef(endLabel); writeJump(op, endLabel); placeLabel(bytesLabel)` for fresh labels.
     */
    method WriteCountedLoopHead(lo: int16, mx: int16, op: byte, bytesLabel: Label, endLabel: Label)
      requires Valid() && op <= BYTE_MAX && bytesLabel != endLabel
      requires bytesLabel.position.None? && bytesLabel.offsetsToWritePositionTo == []
      requires endLabel.position.None? && endLabel.offsetsToWritePositionTo == []
      modifies bytesLabel, endLabel, buffer, buffer.buffer
      ensures Valid() && (buffer.buffer == old(buffer.buffer) || fresh(buffer.buffer))
      ensures buffer.Written() == RepetitionHeadBytes(old(buffer.Written()), lo, mx) + [0, 0] + [op] + [0, 0]
      ensures endLabel.position.None?
      ensures endLabel.offsetsToWritePositionTo == [|old(buffer.Written())| + 7, |old(buffer.Written())| + 10]
    {
      ghost var w0 := buffer.Written();
      WriteRangeJump(lo, mx, bytesLabel, endLabel);
      assert buffer.position == |w0| + 9;
      var r := WriteJump(op, endLabel);
      assert endLabel.offsetsToWritePositionTo == [|w0| + 7, |w0| + 10];
      RepetitionBytesPlaced(buffer.State(), w0, lo, mx, op);
      r := PlaceLabel(bytesLabel);
    }

    /** `RANGE_JUMP min max`, then the references to both labels, for fresh labels. */
    method WriteRangeJump(lo: int16, mx: int16, bytesLabel: Label, endLabel: Label)
      requires Valid() && bytesLabel != endLabel
      requires bytesLabel.position.None? && bytesLabel.offsetsToWritePositionTo == []
      requires endLabel.position.None? && endLabel.offsetsToWritePositionTo == []
      modifies bytesLabel, endLabel, buffer, buffer.buffer
      ensures Valid() && (buffer.buffer == old(buffer.buffer) || fresh(buffer.buffer))
      ensures buffer.Written() == old(buffer.Written()) + [RANGE_JUMP_OP] + ShortBytes(lo) + ShortBytes(mx) + [0, 0] + [0, 0]
      ensures bytesLabel.position.None? && bytesLabel.offsetsToWritePositionTo == [|old(buffer.Written())| + 5]
      ensures endLabel.position.None? && endLabel.offsetsToWritePositionTo == [|old(buffer.Written())| + 7]
    {
      ghost var w0 := buffer.Written();
      WriteOp(RANGE_JUMP_OP);
      buffer.WriteShort(lo);
      buffer.WriteShort(mx);
      assert buffer.position == |w0| + 5;
      var r := WriteJumpRef(bytesLabel);
      assert buffer.position == |w0| + 7;
      r := WriteJumpRef(endLabel);
    }

    /** `writeJump(JUMP_OP, startLabel); placeLabel(endLabel)` behind the body of a counted loop, once it compiled. */
    method FinishCountedLoop(startLabel: Label, endLabel: Label, ghost w0: seq<byte>, ghost cm: Result<seq<byte>, Crash>,
                             r0: Outcome<Crash>, lo: int16, mx: int16, op: byte)
      returns (r: Outcome<Crash>)
      requires Valid() && startLabel != endLabel
      requires startLabel.position == Some(|w0|)
      requires endLabel.position.None? && endLabel.offsetsToWritePositionTo == [|w0| + 7, |w0| + 10]
      requires Emitted(RepetitionHeadBytes(w0, lo, mx) + [0, 0] + [op] + [0, 0], cm, r0, buffer.Written())
      modifies startLabel, endLabel, buffer, buffer.buffer
      ensures Valid() && (buffer.buffer == old(buffer.buffer) || fresh(buffer.buffer))
      ensures Emitted(w0, CountedLoopResult(cm, lo, mx, op), r, buffer.Written())
    {
      if r0.Fail? {
        return r0;
      }
      ghost var c := cm.value;
      assert buffer.position == |w0| + 12 + |c|;
      r := WriteJump(JUMP_OP, startLabel);
      if r.Fail? {
        return;
      }
      RepetitionEndPlaced(buffer.State(), w0, c, lo, mx, op);
      r := PlaceLabel(endLabel);
    }

    /** Alternation: a fork to the right side, the left side, a jump past the right side, the right side. */
    method CompileAlternation(lhs: ASTNode, rhs: ASTNode) returns (r: Outcome<Crash>)
      requires Valid()
      modifies buffer, buffer.buffer
      decreases Size(lhs) + Size(rhs) + 1, 2
      ensures Valid() && (buffer.buffer == old(buffer.buffer) || fresh(buffer.buffer))
      ensures Emitted(old(buffer.Written()), AlternationResult(Code(lhs, root.numGroups), Code(rhs, root.numGroups)), r, buffer.Written())
    {
      ghost var w0 := buffer.Written();
      var lhsLabel := new Label();
      var rhsLabel := new Label();
      var endLabel := new Label();
      r := WriteJump(FORK_OP, rhsLabel);
      r := PlaceLabel(lhsLabel);
      r := CompileNode(lhs);
      r := CompileAlternationRhs(rhs, rhsLabel, endLabel, w0, Code(lhs, root.numGroups), r);
    }

    /** The jump past the right side, then the right side, once the left side compiled. */
    method CompileAlternationRhs(rhs: ASTNode, rhsLabel: Label, endLabel: Label, ghost w0: seq<byte>,
                                 ghost cl: Result<seq<byte>, Crash>, r0: Outcome<Crash>)
      returns (r: Outcome<Crash>)
      requires Valid() && rhsLabel != endLabel
      requires rhsLabel.position.None? && rhsLabel.offsetsToWritePositionTo == [|w0| + 1]
      requires endLabel.position.None? && endLabel.offsetsToWritePositionTo == []
      requires Emitted(w0 + [FORK_OP] + [0, 0], cl, r0, buffer.Written())
      modifies rhsLabel, endLabel, buffer, buffer.buffer
      decreases Size(rhs) + 1, 0
      ensures Valid() && (buffer.buffer == old(buffer.buffer) || fresh(buffer.buffer))
      ensures Emitted(w0, AlternationResult(cl, Code(rhs, root.numGroups)), r, buffer.Written())
    {
      if r0.Fail? {
        return r0;
      }
      PlaceAlternationRhs(rhsLabel, endLabel, w0, cl.value);
      r := CompileNode(rhs);
      r := FinishAlternation(endLabel, w0, cl, Code(rhs, root.numGroups), r);
    }

    /** `writeJump(JUMP_OP, endLabel); placeLabel(rhsLabel)` behind the left side `cl`. */
    method PlaceAlternationRhs(rhsLabel: Label, endLabel: Label, ghost w0: seq<byte>, ghost cl: seq<byte>)
      requires Valid() && rhsLabel != endLabel
      requires rhsLabel.position.None? && rhsLabel.offsetsToWritePositionTo == [|w0| + 1]
      requires endLabel.position.None? && endLabel.offsetsToWritePositionTo == []
      requires buffer.Written() == w0 + [FORK_OP] + [0, 0] + cl
      modifies rhsLabel, endLabel, buffer, buffer.buffer
      ensures Valid() && (buffer.buffer == old(buffer.buffer) || fresh(buffer.buffer))
      ensures endLabel.position.None? && endLabel.offsetsToWritePositionTo == [|w0| + 4 + |cl|]
      ensures buffer.Written() == w0 + [FORK_OP] + JumpBytes(|cl| + 6, 1) + cl + [JUMP_OP] + [0, 0]
    {
      assert buffer.position == |w0| + 3 + |cl|;
      var r := WriteJump(JUMP_OP, endLabel);
      AlternationRhsPlaced(buffer.State(), w0, cl);
      r := PlaceLabel(rhsLabel);
    }

    /** `placeLabel(endLabel)` behind the right side, once it compiled. */
    method FinishAlternation(endLabel: Label, ghost w0: seq<byte>, ghost cl: Result<seq<byte>, Crash>,
                             ghost cr: Result<seq<byte>, Crash>, r0: Outcome<Crash>)
      returns (r: Outcome<Crash>)
      requires Valid() && cl.Success?
      requires endLabel.position.None? && endLabel.offsetsToWritePositionTo == [|w0| + 4 + |cl.value|]
      requires Emitted(w0 + [FORK_OP] + JumpBytes(|cl.value| + 6, 1) + cl.value + [JUMP_OP] + [0, 0], cr, r0, buffer.Written())
      modifies endLabel, buffer.buffer
      ensures Valid() && Emitted(w0, AlternationResult(cl, cr), r, buffer.Written())
    {
      if r0.Fail? {
        return r0;
      }
      AlternationEndPlaced(buffer.State(), w0, cl.value, cr.value);
      r := PlaceLabel(endLabel);
    }

    /** A lookaround op, the block length (`expect`ed below `Short.MAX_VALUE`), then the block. */
    method CompileLook(kind: LookKind, ns: seq<ASTNode>) returns (r: Outcome<Crash>)
      requires Valid()
      modifies buffer, buffer.buffer
      decreases SizeAll(ns) + 2, 2
      ensures Valid() && (buffer.buffer == old(buffer.buffer) || fresh(buffer.buffer))
      ensures Emitted(old(buffer.Written()), LookResult(kind, CodeAll(ns, root.numGroups)), r, buffer.Written())
    {
      ghost var w0 := buffer.Written();
      WriteOp(LookOp(kind));
      var res := CompileNested(ns);
      if res.Failure? {
        CodeAllFailsOnlyByExpect(ns, root.numGroups);
        return Fail(res.error);
      }
      var opcodes := res.value;
      :- Expect(|opcodes| < SHORT_MAX);
      buffer.WriteShort(|opcodes|);
      buffer.WriteBytes(opcodes);
      Append3(w0, [LookOp(kind)], ShortBytes(|opcodes|), opcodes);
      r := Pass;
    }
  }

  /** `Compiler.compile(rootNode)`: the program and the root's group names. */
  method CompileOpcodes(rootNode: Root) returns (r: Result<Opcodes, Crash>)
    ensures CodeAll(rootNode.nodes, rootNode.numGroups).Success? ==>
              r == Success(Opcodes(CodeAll(rootNode.nodes, rootNode.numGroups).value, rootNode.groupNames))
    ensures CodeAll(rootNode.nodes, rootNode.numGroups).Failure? ==> r == Failure(ExpectationError)
  {
    CodeAllFailsOnlyByExpect(rootNode.nodes, rootNode.numGroups);
    var compiler := new Compiler(rootNode);
    var bytes :- compiler.Compile();
    r := Success(Opcodes(bytes, rootNode.groupNames));
  }
}
