// compiler/Opcode.kt: the opcode numbering shared by the compiler and the
// matcher, the documented operand layouts, and the `Opcodes` holder.

module Opcode {
  import opened Utils
  import opened Numeric

  const START_GROUP_OP: byte := 1
  const START_NON_CAPTURING_GROUP_OP: byte := 2
  const END_GROUP_OP: byte := 3
  const CODEPOINT1_OP: byte := 4
  const CODEPOINT2_OP: byte := 5
  const CODEPOINT4_OP: byte := 6
  const CODEPOINT1_LIST_OP: byte := 7
  const START_OP: byte := 8
  const END_OP: byte := 9
  const ANY_OP: byte := 10
  const NEGATE_NEXT_OP: byte := 11
  const WORD_OP: byte := 12
  const WORD_BOUNDARY_OP: byte := 13
  const DIGIT_OP: byte := 14
  const WHITESPACE_OP: byte := 15
  const MATCH_OP: byte := 16
  const UNICODE_CLASS_OP: byte := 17
  const BACK_REFERENCE_OP: byte := 18
  const CHAR_CLASS_OP: byte := 19
  const INVERTED_CHAR_CLASS_OP: byte := 20
  const RANGE1_OP: byte := 21
  const RANGE2_OP: byte := 22
  const RANGE4_OP: byte := 23
  const FORK_OP: byte := 24
  const FORK_NOW_OP: byte := 25
  const JUMP_OP: byte := 26
  const SAVE_POS_OP: byte := 27
  const REPEAT_FORK_OP: byte := 28
  const REPEAT_FORK_NOW_OP: byte := 29
  const REPEAT_JUMP_OP: byte := 30
  const RANGE_JUMP_OP: byte := 31
  const POSITIVE_LOOKAHEAD_OP: byte := 32
  const POSITIVE_LOOKBEHIND_OP: byte := 33
  const NEGATIVE_LOOKAHEAD_OP: byte := 34
  const NEGATIVE_LOOKBEHIND_OP: byte := 35

  /** The compiled program and the group names it carries. */
  datatype Opcodes = Opcodes(bytes: seq<byte>, groupNames: seq<(int16, string)>)

  /** Every declared opcode, in declaration order. */
  const DECLARED: seq<byte> := [
      START_GROUP_OP,
      START_NON_CAPTURING_GROUP_OP,
      END_GROUP_OP,
      CODEPOINT1_OP,
      CODEPOINT2_OP,
      CODEPOINT4_OP,
      CODEPOINT1_LIST_OP,
      START_OP,
      END_OP,
      ANY_OP,
      NEGATE_NEXT_OP,
      WORD_OP,
      WORD_BOUNDARY_OP,
      DIGIT_OP,
      WHITESPACE_OP,
      MATCH_OP,
      UNICODE_CLASS_OP,
      BACK_REFERENCE_OP,
      CHAR_CLASS_OP,
      INVERTED_CHAR_CLASS_OP,
      RANGE1_OP,
      RANGE2_OP,
      RANGE4_OP,
      FORK_OP,
      FORK_NOW_OP,
      JUMP_OP,
      SAVE_POS_OP,
      REPEAT_FORK_OP,
      REPEAT_FORK_NOW_OP,
      REPEAT_JUMP_OP,
      RANGE_JUMP_OP,
      POSITIVE_LOOKAHEAD_OP,
      POSITIVE_LOOKBEHIND_OP,
      NEGATIVE_LOOKAHEAD_OP,
      NEGATIVE_LOOKBEHIND_OP
  ]

  /** The constants are the 35 distinct Kotlin bytes 1 to 35. */
  lemma DeclaredAreDistinctBytes()
    ensures |DECLARED| == 35
    ensures forall i | 0 <= i < |DECLARED| :: DECLARED[i] == i + 1 && IsByte(DECLARED[i])
    ensures forall i, j | 0 <= i < j < |DECLARED| :: DECLARED[i] != DECLARED[j]
  {
  }

  /** The ops the compiler never emits and the matcher never decodes. */
  predicate IsUnusedOp(op: int)
  {
    op == SAVE_POS_OP as int || op == REPEAT_FORK_OP as int || op == REPEAT_FORK_NOW_OP as int
    || op == REPEAT_JUMP_OP as int
  }

  /**
   * The length of the instruction at `i` according to the layout documented
   * for its opcode (op byte included), or None if its operands run past the
   * end or the byte is no declared opcode.
   */
  function DocumentedLength(bs: seq<byte>, i: nat): (r: Option<nat>)
    requires i < |bs|
    ensures r.Some? ==> i + r.value <= |bs|
  {
    var op := bs[i];
    var n: nat :=
      if op == START_GROUP_OP || op == BACK_REFERENCE_OP || op == CODEPOINT2_OP
         || op == FORK_OP || op == FORK_NOW_OP || op == JUMP_OP || op == SAVE_POS_OP
         || op == RANGE1_OP then 3
      else if op == CODEPOINT1_OP then 2
      else if op == CODEPOINT4_OP || op == RANGE2_OP || op == REPEAT_FORK_OP
              || op == REPEAT_FORK_NOW_OP || op == REPEAT_JUMP_OP then 5
      else if op == RANGE4_OP || op == RANGE_JUMP_OP then 9
      else if START_NON_CAPTURING_GROUP_OP <= op <= END_GROUP_OP || START_OP <= op <= MATCH_OP then 1
      else if op == CODEPOINT1_LIST_OP || op == UNICODE_CLASS_OP then
        (if i + 2 <= |bs| then 2 + bs[i + 1] else |bs| + 1)
      else if op == CHAR_CLASS_OP || op == INVERTED_CHAR_CLASS_OP then
        (if i + 5 <= |bs| then 5 + bs[i + 3] * 0x100 + bs[i + 4] else |bs| + 1)
      else if POSITIVE_LOOKAHEAD_OP <= op <= NEGATIVE_LOOKBEHIND_OP then
        (if i + 3 <= |bs| then 3 + bs[i + 1] * 0x100 + bs[i + 2] else |bs| + 1)
      else 0;
    if n == 0 || i + n > |bs| then None else Some(n)
  }
}
