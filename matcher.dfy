// Matcher.kt: the backtracking virtual machine that runs compiled opcodes
// over a sequence of code points, one thread (a MatchState) at a time.

module Matcher {
  import opened Utils
  import opened Numeric
  import opened Opcode
  import opened Unicode
  import opened Results
  import Compiler

  /** An open group: its index (none when non-capturing), where it began, what it consumed. */
  datatype GroupState = GroupState(index: Option<int16>, rangeStart: int, content: seq<int>)

  /**
   * One thread of the search. The Kotlin class is mutable and `copy()` makes a
   * deep copy of its groups and captures; as a value, every copy here is deep.
   */
  datatype MatchState = MatchState(sourceCursor: int, opcodeCursor: int,
                                   groups: seq<GroupState>, groupContents: map<int16, MatchGroup>)

  datatype ExecResult = Match | Continue | Fail

  /** What one `execOp` returns: its verdict and the thread as the op left it. */
  datatype Step = Step(result: ExecResult, state: MatchState)

  /** A run that ends without an answer: a JVM exception, or the model's step budget spent. */
  datatype Stop = Threw(crash: Crash) | OutOfFuel

  /** `reversedArray()`. */
  function Reversed(s: seq<int>): (r: seq<int>)
    ensures |r| == |s|
    ensures forall i | 0 <= i < |s| :: r[i] == s[|s| - 1 - i]
  {
    seq(|s|, i requires 0 <= i < |s| => s[|s| - 1 - i])
  }

  // ---------------------------------------------------------------------------
  // What a thread knows about the source

  /** `g` holds exactly the code points of `src` that its range names. */
  predicate IsCapture(src: seq<int>, g: MatchGroup)
  {
    0 <= g.range.first <= g.range.last + 1 <= |src|
    && g.codePoints == src[g.range.first..g.range.last + 1]
  }

  /** An open group has consumed exactly the code points from its start up to the cursor. */
  predicate Tracks(src: seq<int>, g: GroupState, cursor: int, floor: int)
  {
    0 <= floor <= g.rangeStart <= cursor <= |src| && g.content == src[g.rangeStart..cursor]
  }

  /**
   * The invariant of every thread of a match attempt begun at `floor`: the
   * cursor has not moved back past the start, every open group tracks the
   * source, and every stored capture is a slice of the source.
   */
  predicate StateOK(src: seq<int>, s: MatchState, floor: int)
  {
    0 <= floor <= s.sourceCursor
    && (forall i | 0 <= i < |s.groups| :: Tracks(src, s.groups[i], s.sourceCursor, floor))
    && (forall k | k in s.groupContents :: IsCapture(src, s.groupContents[k]))
  }

  predicate AllOK(src: seq<int>, ps: seq<MatchState>, floor: int)
  {
    forall i | 0 <= i < |ps| :: StateOK(src, ps[i], floor)
  }

  /** The thread an op returns keeps the invariant of the thread it was given. */
  predicate Keeps(src: seq<int>, s: MatchState, r: Result<Step, Stop>, floor: int)
  {
    StateOK(src, s, floor) && r.Success? ==> StateOK(src, r.value.state, floor)
  }

  /** What every result of `exec` is: a sorted Short-keyed map that holds group 0. */
  predicate WellFormed(m: MatchResult)
  {
    SortedKeys(m.groups)
    && (forall i | 0 <= i < |m.groups| :: IsShort(m.groups[i].0))
    && Get(m.groups, 0).Some?
  }

  function Group0(m: MatchResult): MatchGroup
    requires WellFormed(m)
  {
    Get(m.groups, 0).value
  }

  /** Every group of `m` is a slice of `src`, and the whole match starts no earlier than `floor`. */
  predicate Captured(src: seq<int>, m: MatchResult, floor: int)
  {
    WellFormed(m)
    && (forall i | 0 <= i < |m.groups| :: IsCapture(src, m.groups[i].1))
    && floor <= Group0(m).range.first
  }

  lemma StateOKMovesWithCursor(src: seq<int>, s: MatchState, floor: int, oc: int)
    requires StateOK(src, s, floor)
    ensures StateOK(src, s.(opcodeCursor := oc), floor)
  {
  }

  // ---------------------------------------------------------------------------
  // advanceSource

  /** Every open group with `cps` appended to its content. */
  function ExtendAll(gs: seq<GroupState>, cps: seq<int>): (r: seq<GroupState>)
    ensures |r| == |gs|
    ensures forall i | 0 <= i < |gs| :: r[i] == gs[i].(content := gs[i].content + cps)
  {
    seq(|gs|, i requires 0 <= i < |gs| => gs[i].(content := gs[i].content + cps))
  }

  lemma ExtendAllNothing(gs: seq<GroupState>)
    ensures ExtendAll(gs, []) == gs
  {
    assert forall i | 0 <= i < |gs| :: gs[i].content + [] == gs[i].content;
  }

  lemma ExtendAllTwice(gs: seq<GroupState>, a: seq<int>, b: seq<int>)
    ensures ExtendAll(ExtendAll(gs, a), b) == ExtendAll(gs, a + b)
  {
    assert forall i | 0 <= i < |gs| :: gs[i].content + a + b == gs[i].content + (a + b);
  }

  /**
   * What `advanceSource(n)` leaves: `n` code points consumed and appended to
   * every open group. With no group open nothing reads the source, so the
   * cursor just moves; otherwise reading past either end throws.
   */
  function Advanced(src: seq<int>, s: MatchState, n: int): Result<MatchState, Stop>
  {
    if n <= 0 then Success(s)
    else if s.groups == [] then Success(s.(sourceCursor := s.sourceCursor + n))
    else if 0 <= s.sourceCursor && s.sourceCursor + n <= |src| then
      Success(s.(sourceCursor := s.sourceCursor + n,
                 groups := ExtendAll(s.groups, src[s.sourceCursor..s.sourceCursor + n])))
    else Failure(Threw(IndexOutOfBounds))
  }

  /** Advancing keeps every open group in step with the source. */
  lemma AdvancedKeeps(src: seq<int>, s: MatchState, n: int, floor: int)
    requires StateOK(src, s, floor) && Advanced(src, s, n).Success?
    ensures StateOK(src, Advanced(src, s, n).value, floor)
    ensures n > 0 ==> Advanced(src, s, n).value.sourceCursor == s.sourceCursor + n
  {
    if n > 0 && s.groups != [] {
      var c := s.sourceCursor;
      var t := Advanced(src, s, n).value;
      forall i | 0 <= i < |t.groups|
        ensures Tracks(src, t.groups[i], t.sourceCursor, floor)
      {
        var g := s.groups[i];
        assert Tracks(src, g, c, floor);
        assert src[g.rangeStart..c] + src[c..c + n] == src[g.rangeStart..c + n];
      }
    }
  }

  /** `groups.forEach { it.content.add(cp) }`. */
  method AppendToAll(gs: seq<GroupState>, cp: int) returns (r: seq<GroupState>)
    ensures r == ExtendAll(gs, [cp])
  {
    r := gs;
    var i := 0;
    while i < |gs|
      invariant 0 <= i <= |gs| && |r| == |gs|
      invariant forall j | 0 <= j < i :: r[j] == gs[j].(content := gs[j].content + [cp])
      invariant forall j | i <= j < |gs| :: r[j] == gs[j]
    {
      r := r[i := r[i].(content := r[i].content + [cp])];
      i := i + 1;
    }
  }

  // ---------------------------------------------------------------------------
  // Lookaround captures

  /**
   * A group captured by a lookbehind, which ran over the reversed source,
   * mapped back: its code points reversed and its range mirrored.
   */
  function Mirrored(g: MatchGroup, ahead: bool, n: int): MatchGroup
  {
    if ahead then g
    else MatchGroup(Reversed(g.codePoints), IntRange((n - 1) - g.range.last, (n - 1) - g.range.first))
  }

  /** A slice of the reversed source, mirrored, is the matching slice of the source. */
  lemma MirroredCapture(src: seq<int>, g: MatchGroup)
    requires IsCapture(Reversed(src), g)
    ensures IsCapture(src, Mirrored(g, false, |src|))
  {
    var n := |src|;
    var a, b := g.range.first, g.range.last + 1;
    var m := Mirrored(g, false, n);
    assert m.range.first == n - b && m.range.last + 1 == n - a;
    forall i | 0 <= i < b - a
      ensures m.codePoints[i] == src[n - b..n - a][i]
    {
      assert m.codePoints[i] == g.codePoints[(b - a) - 1 - i];
      assert g.codePoints[(b - a) - 1 - i] == Reversed(src)[b - 1 - i];
    }
  }

  /**
   * Captures `merged` saved from a nested match's `entries` into `contents`:
   * every group already held is kept, every other group the nested match
   * found, except group 0, is added (mirrored back for a lookbehind), and
   * nothing else.
   */
  predicate MergedFrom(merged: map<int16, MatchGroup>, contents: map<int16, MatchGroup>,
                       entries: seq<(int, MatchGroup)>, ahead: bool, n: int)
    requires forall i | 0 <= i < |entries| :: IsShort(entries[i].0)
  {
    && (forall k | k in contents :: k in merged && merged[k] == contents[k])
    && (forall i | 0 <= i < |entries| && entries[i].0 != 0 && entries[i].0 as int16 !in contents ::
          entries[i].0 as int16 in merged && merged[entries[i].0 as int16] == Mirrored(entries[i].1, ahead, n))
    && (forall k | k in merged ::
          k in contents || exists i | 0 <= i < |entries| :: entries[i].0 == k as int && k != 0)
  }

  /**
   * The capture-saving loop of a lookaround: every group the nested match
   * found, except group 0, is stored unless the thread already holds that
   * index; lookbehind groups are mirrored back onto the source.
   */
  method MergeCaptures(contents: map<int16, MatchGroup>, entries: seq<(int, MatchGroup)>, ahead: bool, n: int)
    returns (merged: map<int16, MatchGroup>)
    requires SortedKeys(entries)
    requires forall i | 0 <= i < |entries| :: IsShort(entries[i].0)
    ensures MergedFrom(merged, contents, entries, ahead, n)
  {
    merged := contents;
    var i := 0;
    while i < |entries|
      invariant 0 <= i <= |entries|
      invariant forall k | k in contents :: k in merged && merged[k] == contents[k]
      invariant forall j | 0 <= j < i && entries[j].0 != 0 && entries[j].0 as int16 !in contents ::
                  entries[j].0 as int16 in merged && merged[entries[j].0 as int16] == Mirrored(entries[j].1, ahead, n)
      invariant forall k | k in merged ::
                  k in contents || exists j | 0 <= j < i :: entries[j].0 == k as int && k != 0
    {
      // `key.toShort()` is the key itself: the nested match keyed its groups by Shorts.
      var key := entries[i].0 as int16;
      if key != 0 && key !in merged {
        merged := merged[key := Mirrored(entries[i].1, ahead, n)];
      }
      i := i + 1;
    }
  }

  /** Merged lookaround captures are slices of the source when the nested match's were. */
  lemma MergeKeeps(src: seq<int>, contents: map<int16, MatchGroup>, entries: seq<(int, MatchGroup)>,
                   ahead: bool, merged: map<int16, MatchGroup>)
    requires forall k | k in contents :: IsCapture(src, contents[k])
    requires forall i | 0 <= i < |entries| :: IsCapture(if ahead then src else Reversed(src), entries[i].1)
    requires SortedKeys(entries) && forall i | 0 <= i < |entries| :: IsShort(entries[i].0)
    requires MergedFrom(merged, contents, entries, ahead, |src|)
    ensures forall k | k in merged :: IsCapture(src, merged[k])
  {
    forall k | k in merged
      ensures IsCapture(src, merged[k])
    {
      if k !in contents {
        var i :| 0 <= i < |entries| && entries[i].0 == k as int && k != 0;
        if !ahead {
          MirroredCapture(src, entries[i].1);
        }
      }
    }
  }

  // ---------------------------------------------------------------------------
  // Building the result

  /**
   * `TreeMap(groupContents.mapKeys { it.toInt() })`: the entries whose keys
   * are at least `from`, in ascending key order.
   */
  function SortedEntries(contents: map<int16, MatchGroup>, from: int): (r: seq<(int, MatchGroup)>)
    ensures SortedKeys(r)
    ensures forall i | 0 <= i < |r| :: from <= r[i].0 && IsShort(r[i].0)
                                      && r[i].0 as int16 in contents && r[i].1 == contents[r[i].0 as int16]
    ensures forall k | k in contents && from <= k :: (k as int, contents[k]) in r
    decreases SHORT_MAX + 1 - from
  {
    if from > SHORT_MAX then []
    else
      var rest := SortedEntries(contents, from + 1);
      if IsShort(from) && from as int16 in contents then [(from, contents[from as int16])] + rest else rest
  }

  /** The key of an entry finds that entry's group. */
  lemma GetEntry(entries: seq<(int, MatchGroup)>, i: int)
    requires SortedKeys(entries) && 0 <= i < |entries|
    ensures Get(entries, entries[i].0) == Some(entries[i].1)
  {
    if i > 0 {
      assert entries[1..][i - 1] == entries[i];
      GetEntry(entries[1..], i - 1);
    }
  }

  /** Any entry's key finds that entry's group. */
  lemma GetIn(entries: seq<(int, MatchGroup)>, key: int, g: MatchGroup)
    requires SortedKeys(entries) && (key, g) in entries
    ensures Get(entries, key) == Some(g)
  {
    var i :| 0 <= i < |entries| && entries[i] == (key, g);
    GetEntry(entries, i);
  }

  /**
   * The sorted entries of captures that hold group 0 form a well-formed
   * result whose group 0 is that capture; when every capture is a slice of
   * `src` and group 0 starts at or after `floor`, so is every group of the result.
   */
  lemma Sorted(src: seq<int>, contents: map<int16, MatchGroup>, from: int, m: MatchResult, floor: int)
    requires from <= 0 && 0 in contents && m.groups == SortedEntries(contents, from)
    ensures WellFormed(m) && Group0(m) == contents[0]
    ensures (forall k | k in contents :: IsCapture(src, contents[k])) && floor <= contents[0].range.first
            ==> Captured(src, m, floor)
  {
    assert (0 as int16 as int, contents[0]) in m.groups;
    GetIn(m.groups, 0, contents[0]);
  }

  /** Matches captured from `src` at or after `floor`, each ending before the next one begins. */
  predicate Successive(src: seq<int>, ms: seq<MatchResult>, floor: int)
  {
    (forall i | 0 <= i < |ms| :: Captured(src, ms[i], floor))
    && (forall i | 0 <= i < |ms| - 1 :: Group0(ms[i]).range.last < Group0(ms[i + 1]).range.first)
  }

  /** A match found at or after `index`, which lies past the previous match, extends the sequence. */
  lemma AppendSuccessive(src: seq<int>, ms: seq<MatchResult>, m: MatchResult, floor: int, index: int)
    requires Successive(src, ms, floor)
    requires ms != [] ==> Group0(ms[|ms| - 1]).range.last < index
    requires floor <= index && Captured(src, m, index)
    ensures Successive(src, ms + [m], floor)
  {
    var ms' := ms + [m];
    forall i | 0 <= i < |ms'|
      ensures Captured(src, ms'[i], floor)
    {
      if i < |ms| {
        assert ms'[i] == ms[i];
      } else {
        assert ms'[i] == m;
      }
    }
    forall i | 0 <= i < |ms'| - 1
      ensures Group0(ms'[i]).range.last < Group0(ms'[i + 1]).range.first
    {
      var a, b := ms'[i], ms'[i + 1];
      assert a == ms[i];
      if i + 1 < |ms| {
        assert b == ms[i + 1];
        assert Group0(a).range.last < Group0(b).range.first;
      } else {
        assert b == m;
        assert Group0(a).range.last < index <= Group0(b).range.first;
      }
    }
  }

  /** Closing the last open group of a thread that keeps the invariant yields a result captured from the source. */
  lemma ClosedCaptured(src: seq<int>, state: MatchState, g: MatchGroup, from: int, m: MatchResult, floor: int)
    requires |state.groups| == 1 && g == MatchGroup(state.groups[0].content, Until(state.groups[0].rangeStart, state.sourceCursor))
    requires from <= 0 && m.groups == SortedEntries(state.groupContents[0 := g], from)
    ensures WellFormed(m) && Group0(m) == g
    ensures StateOK(src, state, floor) ==> Captured(src, m, floor)
  {
    var contents := state.groupContents[0 := g];
    if StateOK(src, state, floor) {
      assert Tracks(src, state.groups[0], state.sourceCursor, floor);
      assert IsCapture(src, g) && floor <= g.range.first;
      assert forall k | k in contents :: IsCapture(src, contents[k]);
    }
    Sorted(src, contents, from, m, floor);
  }

  /** `groupNames.mapKeys { it.toInt() }`. */
  function IntKeyed(names: seq<(int16, string)>): (r: seq<(int, string)>)
    ensures |r| == |names| && forall i | 0 <= i < |names| :: r[i] == (names[i].0 as int, names[i].1)
  {
    seq(|names|, i requires 0 <= i < |names| => (names[i].0 as int, names[i].1))
  }

  // ---------------------------------------------------------------------------
  // Decoding what the compiler encodes

  /** `readByte().toInt().toChar()`: the low 16 bits of the signed byte. */
  function CharOf(b: byte): char
  {
    var v := Signed8(b) % 0x1_0000;
    assert v < 0x80 || 0xff80 <= v;
    v as char
  }

  function NameOf(bs: seq<byte>): (r: string)
    ensures |r| == |bs|
  {
    seq(|bs|, i requires 0 <= i < |bs| => CharOf(bs[i]))
  }

  /** A `\p{...}` name the compiler wrote as ASCII bytes reads back unchanged. */
  lemma ClassNameReadsBack(name: string)
    requires Compiler.IsAscii(name)
    ensures NameOf(Compiler.AsciiBytes(name)) == name
  {
    var bs := Compiler.AsciiBytes(name);
    forall i | 0 <= i < |name|
      ensures NameOf(bs)[i] == name[i]
    {
      assert bs[i] == name[i] as int && bs[i] < 0x80;
    }
  }

  /** The Kotlin values of the bytes of a code point list. */
  function SignedBytes(bs: seq<byte>): (r: seq<int>)
    ensures |r| == |bs|
  {
    seq(|bs|, i requires 0 <= i < |bs| => Signed8(bs[i]))
  }

  /** A code point list the compiler wrote reads back as the same code points. */
  lemma ListReadsBack(cps: seq<int8>)
    ensures SignedBytes(Compiler.ListBytes(cps)) == cps
  {
    var bs := Compiler.ListBytes(cps);
    forall i | 0 <= i < |cps|
      ensures SignedBytes(bs)[i] == cps[i]
    {
      Signed8OfUnsigned8(cps[i]);
    }
  }

  // ---------------------------------------------------------------------------

  class Matcher {
    const source: seq<int>
    const bytes: seq<byte>
    const groupNames: seq<(int16, string)>
    const dotMatchesNewlines: bool
    const unicode: bool
    const sets: UnicodeSets

    var pendingStates: seq<MatchState>
    var negateNext: bool
    var rangeCounts: map<int, int>

    /** The `DotMatchesNewlines` and `Unicode` flags arrive as the two booleans. */
    constructor (source: seq<int>, opcodes: Opcodes, dotMatchesNewlines: bool, unicode: bool, sets: UnicodeSets)
      ensures this.source == source && bytes == opcodes.bytes && groupNames == opcodes.groupNames
      ensures this.dotMatchesNewlines == dotMatchesNewlines && this.unicode == unicode && this.sets == sets
      ensures pendingStates == [] && !negateNext && rangeCounts == map[]
    {
      this.source := source;
      bytes := opcodes.bytes;
      groupNames := opcodes.groupNames;
      this.dotMatchesNewlines := dotMatchesNewlines;
      this.unicode := unicode;
      this.sets := sets;
      pendingStates := [];
      negateNext := false;
      rangeCounts := map[];
    }

    // -------------------------------------------------------------------------
    // Reading operands (`buffer.get`, `getShort`, `getInt` at the opcode cursor)

    /** `readByte`: the signed byte at the cursor; the cursor moves past it. */
    function ReadByte(s: MatchState): (r: Result<(int, MatchState), Stop>)
      ensures r.Success? <==> 0 <= s.opcodeCursor < |bytes|
      ensures r.Failure? ==> r.error == Threw(IndexOutOfBounds)
      ensures r.Success? ==> IsByte(r.value.0) && r.value.1 == s.(opcodeCursor := s.opcodeCursor + 1)
    {
      if 0 <= s.opcodeCursor < |bytes| then
        Success((Signed8(bytes[s.opcodeCursor]), s.(opcodeCursor := s.opcodeCursor + 1)))
      else Failure(Threw(IndexOutOfBounds))
    }

    /** `readShort`: the big-endian Short at the cursor; the cursor moves past it. */
    function ReadShort(s: MatchState): (r: Result<(int, MatchState), Stop>)
      ensures r.Success? <==> 0 <= s.opcodeCursor && s.opcodeCursor + 2 <= |bytes|
      ensures r.Failure? ==> r.error == Threw(IndexOutOfBounds)
      ensures r.Success? ==> IsShort(r.value.0) && r.value.1 == s.(opcodeCursor := s.opcodeCursor + 2)
    {
      if 0 <= s.opcodeCursor && s.opcodeCursor + 2 <= |bytes| then
        Success((GetShort(bytes, s.opcodeCursor), s.(opcodeCursor := s.opcodeCursor + 2)))
      else Failure(Threw(IndexOutOfBounds))
    }

    /** `readInt`: the big-endian Int at the cursor; the cursor moves past it. */
    function ReadInt(s: MatchState): (r: Result<(int, MatchState), Stop>)
      ensures r.Success? <==> 0 <= s.opcodeCursor && s.opcodeCursor + 4 <= |bytes|
      ensures r.Failure? ==> r.error == Threw(IndexOutOfBounds)
      ensures r.Success? ==> IsInt(r.value.0) && r.value.1 == s.(opcodeCursor := s.opcodeCursor + 4)
    {
      if 0 <= s.opcodeCursor && s.opcodeCursor + 4 <= |bytes| then
        Success((GetInt(bytes, s.opcodeCursor), s.(opcodeCursor := s.opcodeCursor + 4)))
      else Failure(Threw(IndexOutOfBounds))
    }

    /**
     * `readBytes(count)`: a negative count fails to allocate, a cursor outside
     * the buffer is refused by `position`, and too few remaining bytes underflow.
     */
    function ReadBytes(s: MatchState, count: int): (r: Result<(seq<byte>, MatchState), Stop>)
      ensures r.Success? <==> 0 <= count && 0 <= s.opcodeCursor && s.opcodeCursor + count <= |bytes|
      ensures count < 0 ==> r == Failure(Threw(NegativeArraySize))
      ensures r.Success? ==> r.value.0 == bytes[s.opcodeCursor..s.opcodeCursor + count]
                             && r.value.1 == s.(opcodeCursor := s.opcodeCursor + count)
    {
      if count < 0 then Failure(Threw(NegativeArraySize))
      else if !(0 <= s.opcodeCursor <= |bytes|) then Failure(Threw(IllegalArgument))
      else if count > |bytes| - s.opcodeCursor then Failure(Threw(BufferUnderflow))
      else Success((bytes[s.opcodeCursor..s.opcodeCursor + count], s.(opcodeCursor := s.opcodeCursor + count)))
    }

    /** An operand of 1, 2 or 4 bytes. */
    function ReadOperand(s: MatchState, width: int): Result<(int, MatchState), Stop>
    {
      if width == 1 then ReadByte(s) else if width == 2 then ReadShort(s) else ReadInt(s)
    }

    /** A Short the compiler emitted at the cursor reads back as its value. */
    lemma ReadShortOfEmitted(s: MatchState, v: int)
      requires 0 <= s.opcodeCursor && s.opcodeCursor + 2 <= |bytes|
      requires bytes[s.opcodeCursor..s.opcodeCursor + 2] == ShortBytes(v)
      ensures ReadShort(s) == Success((ToShort(v), s.(opcodeCursor := s.opcodeCursor + 2)))
    {
      var oc := s.opcodeCursor;
      assert bytes == bytes[..oc] + ShortBytes(v) + bytes[oc + 2..];
      ShortRoundTrip(v, bytes[..oc], bytes[oc + 2..]);
    }

    /** The name of a UNICODE_CLASS op: `length` bytes read one at a time. */
    function ClassName(s: MatchState, length: int): Result<(string, MatchState), Stop>
    {
      if length <= 0 then Success(("", s))
      else if 0 <= s.opcodeCursor && s.opcodeCursor + length <= |bytes| then
        Success((NameOf(bytes[s.opcodeCursor..s.opcodeCursor + length]), s.(opcodeCursor := s.opcodeCursor + length)))
      else Failure(Threw(IndexOutOfBounds))
    }

    /** `buildString { repeat(length) { append(readByte().toInt().toChar()) } }`. */
    method ReadClassName(s: MatchState, length: int) returns (r: Result<(string, MatchState), Stop>)
      ensures r == ClassName(s, length)
    {
      var name := "";
      var t := s;
      var i := 0;
      while i < length
        invariant 0 <= i && (if length > 0 then i <= length else i == 0)
        invariant t == s.(opcodeCursor := s.opcodeCursor + i)
        invariant i == 0 ==> name == ""
        invariant i > 0 ==> 0 <= s.opcodeCursor && s.opcodeCursor + i <= |bytes|
                            && name == NameOf(bytes[s.opcodeCursor..s.opcodeCursor + i])
      {
        if !(0 <= t.opcodeCursor < |bytes|) {
          return Failure(Threw(IndexOutOfBounds));
        }
        var b := bytes[t.opcodeCursor];
        assert bytes[s.opcodeCursor..s.opcodeCursor + i + 1] == bytes[s.opcodeCursor..s.opcodeCursor + i] + [b];
        assert NameOf(bytes[s.opcodeCursor..s.opcodeCursor + i] + [b]) == name + [CharOf(b)];
        name := name + [CharOf(b)];
        t := t.(opcodeCursor := t.opcodeCursor + 1);
        i := i + 1;
      }
      r := Success((name, t));
    }

    // -------------------------------------------------------------------------
    // The source side

    /** `done`: the cursor is not an index of the source. */
    predicate Done(s: MatchState)
    {
      !(0 <= s.sourceCursor < |source|)
    }

    /** `codePoint`: the code point under the cursor. */
    function At(s: MatchState): int
      requires !Done(s)
    {
      source[s.sourceCursor]
    }

    /** `advanceSource(n)`: one loop round per code point, each appended to every open group. */
    method AdvanceSource(s: MatchState, n: int) returns (r: Result<MatchState, Stop>)
      ensures r == Advanced(source, s, n)
    {
      var state := s;
      var k := 0;
      ExtendAllNothing(s.groups);
      while k < n
        invariant 0 <= k && (if n > 0 then k <= n else k == 0)
        invariant s.groups == [] ==> state == s.(sourceCursor := s.sourceCursor + k)
        invariant s.groups != [] && k == 0 ==> state == s
        invariant s.groups != [] && k > 0 ==>
                    0 <= s.sourceCursor && s.sourceCursor + k <= |source|
                    && state == s.(sourceCursor := s.sourceCursor + k,
                                   groups := ExtendAll(s.groups, source[s.sourceCursor..s.sourceCursor + k]))
      {
        if state.groups != [] {
          if !(0 <= state.sourceCursor < |source|) {
            return Failure(Threw(IndexOutOfBounds));
          }
          var c := s.sourceCursor;
          var groups := AppendToAll(state.groups, source[state.sourceCursor]);
          ExtendAllTwice(s.groups, source[c..c + k], [source[c + k]]);
          assert source[c..c + k] + [source[c + k]] == source[c..c + k + 1];
          state := state.(groups := groups);
        }
        state := state.(sourceCursor := state.sourceCursor + 1);
        k := k + 1;
      }
      r := Success(state);
    }

    /** The tail every consuming test shares: advance by `n` and continue when it passes, else fail. */
    function Consumed(t: MatchState, n: int, passes: bool): Result<Step, Stop>
    {
      if !passes then Success(Step(ExecResult.Fail, t))
      else match Advanced(source, t, n)
        case Success(u) => Success(Step(Continue, u))
        case Failure(e) => Failure(e)
    }

    method Consume(t: MatchState, n: int, passes: bool) returns (r: Result<Step, Stop>)
      ensures r == Consumed(t, n, passes)
    {
      if !passes {
        return Success(Step(ExecResult.Fail, t));
      }
      var u :- AdvanceSource(t, n);
      r := Success(Step(Continue, u));
    }

    /** A consuming test keeps the invariant, and a passing one moves exactly `n` code points on. */
    lemma ConsumedKeeps(s: MatchState, t: MatchState, n: int, passes: bool, floor: int)
      requires t == s.(opcodeCursor := t.opcodeCursor)
      ensures Keeps(source, s, Consumed(t, n, passes), floor)
      ensures n > 0 && Consumed(t, n, passes).Success? && Consumed(t, n, passes).value.result == Continue
              ==> Consumed(t, n, passes).value.state.sourceCursor == s.sourceCursor + n
    {
      if StateOK(source, s, floor) {
        StateOKMovesWithCursor(source, s, floor, t.opcodeCursor);
        if passes && Advanced(source, t, n).Success? {
          AdvancedKeeps(source, t, n, floor);
        }
      } else if passes && Advanced(source, t, n).Success? && n > 0 {
        if t.groups != [] {
          assert Advanced(source, t, n).value.sourceCursor == t.sourceCursor + n;
        }
      }
    }

    /** Whether `source[c..c + |expected|]` is `expected`, compared from the left. */
    method SourceMatches(c: int, expected: seq<int>) returns (r: Result<bool, Stop>)
      requires c + |expected| <= |source|
      ensures 0 <= c ==> r == Success(source[c..c + |expected|] == expected)
      ensures c < 0 && |expected| > 0 ==> r == Failure(Threw(IndexOutOfBounds))
    {
      var i := 0;
      while i < |expected|
        invariant 0 <= i <= |expected|
        invariant c < 0 ==> i == 0
        invariant 0 <= c ==> forall j | 0 <= j < i :: source[c + j] == expected[j]
      {
        if !(0 <= c + i < |source|) {
          return Failure(Threw(IndexOutOfBounds));
        }
        if expected[i] != source[c + i] {
          assert source[c..c + |expected|][i] != expected[i];
          return Success(false);
        }
        i := i + 1;
      }
      assert 0 <= c ==> source[c..c + |expected|] == expected;
      r := Success(true);
    }

    // -------------------------------------------------------------------------
    // The ops. Each receives the thread with its opcode cursor already past the op byte.

    /** START_GROUP opens a capturing group at the cursor, START_NON_CAPTURING_GROUP an anonymous one; END_GROUP closes the innermost and stores its capture. */
    method ExecGroupOp(op: byte, s: MatchState, ghost floor: int) returns (r: Result<Step, Stop>)
      requires op == START_GROUP_OP || op == START_NON_CAPTURING_GROUP_OP || op == END_GROUP_OP
      requires s.sourceCursor <= |source|
      ensures op == START_GROUP_OP ==>
                r == if ReadShort(s).Failure? then Failure(ReadShort(s).error)
                     else Success(Step(Continue, ReadShort(s).value.1.(groups := s.groups
                            + [GroupState(Some(ReadShort(s).value.0 as int16), s.sourceCursor, [])])))
      ensures op == START_NON_CAPTURING_GROUP_OP ==>
                r == Success(Step(Continue, s.(groups := s.groups + [GroupState(None, s.sourceCursor, [])])))
      ensures op == END_GROUP_OP && s.groups == [] ==> r == Failure(Threw(NoSuchElement))
      ensures op == END_GROUP_OP && s.groups != [] ==>
                var g := s.groups[|s.groups| - 1];
                r == Success(Step(Continue, s.(groups := s.groups[..|s.groups| - 1],
                                               groupContents := if g.index.None? then s.groupContents
                                                 else s.groupContents[g.index.value := MatchGroup(g.content, Until(g.rangeStart, s.sourceCursor))])))
      ensures Keeps(source, s, r, floor)
    {
      if op == START_GROUP_OP {
        var a :- ReadShort(s);
        var t := a.1.(groups := s.groups + [GroupState(Some(a.0 as int16), s.sourceCursor, [])]);
        r := Success(Step(Continue, t));
        assert StateOK(source, s, floor) ==> Tracks(source, t.groups[|s.groups|], t.sourceCursor, floor);
      } else if op == START_NON_CAPTURING_GROUP_OP {
        var t := s.(groups := s.groups + [GroupState(None, s.sourceCursor, [])]);
        r := Success(Step(Continue, t));
        assert StateOK(source, s, floor) ==> Tracks(source, t.groups[|s.groups|], t.sourceCursor, floor);
      } else {
        if s.groups == [] {
          return Failure(Threw(NoSuchElement));
        }
        var g := s.groups[|s.groups| - 1];
        var contents := s.groupContents;
        if g.index.Some? {
          contents := contents[g.index.value := MatchGroup(g.content, Until(g.rangeStart, s.sourceCursor))];
        }
        r := Success(Step(Continue, s.(groups := s.groups[..|s.groups| - 1], groupContents := contents)));
        if StateOK(source, s, floor) {
          assert Tracks(source, g, s.sourceCursor, floor);
        }
      }
    }

    /** The byte width of the operands of CODEPOINT and RANGE ops. */
    function Width(op: byte): int
    {
      if op == CODEPOINT1_OP || op == RANGE1_OP then 1
      else if op == CODEPOINT2_OP || op == RANGE2_OP then 2
      else 4
    }

    /**
     * CODEPOINTn passes on the code point equal to its operand, RANGEn on one
     * within its two operands; NEGATE_NEXT flips the test but never lets a
     * thread at the end of the source consume.
     */
    method ExecCodePointOp(op: byte, s: MatchState, ghost floor: int) returns (r: Result<Step, Stop>)
      requires op == CODEPOINT1_OP || op == CODEPOINT2_OP || op == CODEPOINT4_OP
               || op == RANGE1_OP || op == RANGE2_OP || op == RANGE4_OP
      ensures op == CODEPOINT1_OP || op == CODEPOINT2_OP || op == CODEPOINT4_OP ==>
                var a := ReadOperand(s, Width(op));
                r == if a.Failure? then Failure(a.error)
                     else var t := a.value.1;
                          Consumed(t, 1, !Done(t) && ((At(t) == a.value.0) != negateNext))
      ensures op == RANGE1_OP || op == RANGE2_OP || op == RANGE4_OP ==>
                var a := ReadOperand(s, Width(op));
                r == if a.Failure? then Failure(a.error)
                     else var b := ReadOperand(a.value.1, Width(op));
                          if b.Failure? then Failure(b.error)
                          else var t := b.value.1;
                               Consumed(t, 1, !Done(t) && ((a.value.0 <= At(t) <= b.value.0) != negateNext))
      ensures Keeps(source, s, r, floor)
    {
      var w := Width(op);
      var a :- ReadOperand(s, w);
      var t := a.1;
      var passes: bool;
      if op == CODEPOINT1_OP || op == CODEPOINT2_OP || op == CODEPOINT4_OP {
        passes := !Done(t) && ((At(t) == a.0) != negateNext);
      } else {
        var b :- ReadOperand(t, w);
        t := b.1;
        passes := !Done(t) && ((a.0 <= At(t) <= b.0) != negateNext);
      }
      r := Consume(t, 1, passes);
      ConsumedKeeps(s, t, 1, passes, floor);
    }

    /** ANY: any code point but a line separator (unless dotAll) or, without the unicode flag, one above 0xFFFF. */
    predicate AnyAccepts(cp: int)
    {
      (dotMatchesNewlines || !IsLineSeparator(cp)) && (unicode || cp <= 0xFFFF)
    }

    /** `isWordCodepoint` of the code point before the cursor; false at the start. */
    predicate LastIsWord(s: MatchState)
      requires 0 <= s.sourceCursor <= |source|
    {
      s.sourceCursor != 0 && IsWordCodepoint(source[s.sourceCursor - 1])
    }

    predicate NextIsWord(s: MatchState)
    {
      !Done(s) && IsWordCodepoint(At(s))
    }

    /**
     * The operand-free tests: START and END and WORD_BOUNDARY look without
     * consuming, ANY, WORD, DIGIT and WHITESPACE consume one code point. A
     * negated ANY is the one test that may consume at the end of the source.
     */
    method ExecTestOp(op: byte, s: MatchState, ghost floor: int) returns (r: Result<Step, Stop>)
      requires op == START_OP || op == END_OP || op == WORD_BOUNDARY_OP || op == ANY_OP
               || op == WORD_OP || op == DIGIT_OP || op == WHITESPACE_OP
      requires s.sourceCursor <= |source|
      ensures op == START_OP ==> r == Success(Step(if (s.sourceCursor == 0) != negateNext then Continue else ExecResult.Fail, s))
      ensures op == END_OP ==> r == Success(Step(if (s.sourceCursor == |source|) != negateNext then Continue else ExecResult.Fail, s))
      ensures op == WORD_BOUNDARY_OP && s.sourceCursor < 0 ==> r == Failure(Threw(IndexOutOfBounds))
      ensures op == WORD_BOUNDARY_OP && 0 <= s.sourceCursor ==>
                r == Success(Step(if (LastIsWord(s) != NextIsWord(s)) != negateNext then Continue else ExecResult.Fail, s))
      ensures op == ANY_OP ==> r == Consumed(s, 1, (!Done(s) && AnyAccepts(At(s))) != negateNext)
      ensures op == WORD_OP ==> r == Consumed(s, 1, !Done(s) && (IsWordCodepoint(At(s)) != negateNext))
      ensures op == DIGIT_OP ==> r == Consumed(s, 1, !Done(s) && (('0' as int <= At(s) <= '9' as int) != negateNext))
      ensures op == WHITESPACE_OP ==> r == Consumed(s, 1, !Done(s) && (IsWhitespace(At(s), sets) != negateNext))
      ensures Keeps(source, s, r, floor)
    {
      var passes: bool;
      if op == START_OP {
        return Success(Step(if (s.sourceCursor == 0) != negateNext then Continue else ExecResult.Fail, s));
      } else if op == END_OP {
        return Success(Step(if (s.sourceCursor == |source|) != negateNext then Continue else ExecResult.Fail, s));
      } else if op == WORD_BOUNDARY_OP {
        if s.sourceCursor < 0 {
          return Failure(Threw(IndexOutOfBounds));
        }
        return Success(Step(if (LastIsWord(s) != NextIsWord(s)) != negateNext then Continue else ExecResult.Fail, s));
      } else if op == ANY_OP {
        passes := (!Done(s) && AnyAccepts(At(s))) != negateNext;
      } else if op == WORD_OP {
        passes := !Done(s) && (IsWordCodepoint(At(s)) != negateNext);
      } else if op == DIGIT_OP {
        passes := !Done(s) && (('0' as int <= At(s) <= '9' as int) != negateNext);
      } else {
        passes := !Done(s) && (IsWhitespace(At(s), sets) != negateNext);
      }
      r := Consume(s, 1, passes);
      ConsumedKeeps(s, s, 1, passes, floor);
    }

    /** UNICODE_CLASS: a length byte and that many name bytes; passes on a member of the named set. */
    method ExecUnicodeClass(s: MatchState, ghost floor: int) returns (r: Result<Step, Stop>)
      ensures ReadByte(s).Failure? ==> r == Failure(ReadByte(s).error)
      ensures ReadByte(s).Success? ==>
                var c := ClassName(ReadByte(s).value.1, ReadByte(s).value.0);
                r == if c.Failure? then Failure(c.error)
                     else var t := c.value.1;
                          Consumed(t, 1, !Done(t) && (sets(c.value.0, At(t)) != negateNext))
      ensures Keeps(source, s, r, floor)
    {
      var a :- ReadByte(s);
      var c :- ReadClassName(a.1, a.0);
      var t := c.1;
      var passes := !Done(t) && (sets(c.0, At(t)) != negateNext);
      r := Consume(t, 1, passes);
      ConsumedKeeps(s, t, 1, passes, floor);
    }

    /**
     * CODEPOINT1_LIST: a signed length byte and that many code points; fails
     * outright when the source is too short, else consumes the run when it
     * matches (or, negated, when it does not).
     */
    method ExecList(s: MatchState, ghost floor: int) returns (r: Result<Step, Stop>)
      requires s.sourceCursor <= |source|
      ensures ReadByte(s).Failure? ==> r == Failure(ReadByte(s).error)
      ensures ReadByte(s).Success? ==>
                var (len, t) := ReadByte(s).value;
                (s.sourceCursor + len > |source| ==> r == Success(Step(ExecResult.Fail, t)))
                && (s.sourceCursor + len <= |source| && ReadBytes(t, len).Failure? ==> r == Failure(ReadBytes(t, len).error))
                && (s.sourceCursor + len <= |source| && ReadBytes(t, len).Success? && 0 <= s.sourceCursor ==>
                      var (bs, u) := ReadBytes(t, len).value;
                      r == Consumed(u, len, (source[s.sourceCursor..s.sourceCursor + len] == SignedBytes(bs)) != negateNext))
      ensures Keeps(source, s, r, floor)
    {
      var a :- ReadByte(s);
      var len, t := a.0, a.1;
      if s.sourceCursor + len > |source| {
        return Success(Step(ExecResult.Fail, t));
      }
      var b :- ReadBytes(t, len);
      var matched :- SourceMatches(s.sourceCursor, SignedBytes(b.0));
      var passes := matched != negateNext;
      r := Consume(b.1, len, passes);
      ConsumedKeeps(s, b.1, len, passes, floor);
    }

    /**
     * BACK_REFERENCE: a group never captured matches the empty string (a
     * negated one fails); a captured one must recur at the cursor, and is consumed.
     */
    method ExecBackReference(s: MatchState, ghost floor: int) returns (r: Result<Step, Stop>)
      requires s.sourceCursor <= |source|
      ensures ReadShort(s).Failure? ==> r == Failure(ReadShort(s).error)
      ensures ReadShort(s).Success? ==>
                var (key, t) := ReadShort(s).value;
                (key as int16 !in s.groupContents ==> r == Success(Step(if negateNext then ExecResult.Fail else Continue, t)))
                && (key as int16 in s.groupContents && 0 <= s.sourceCursor ==>
                      var content := s.groupContents[key as int16].codePoints;
                      r == Consumed(t, |content|, (s.sourceCursor + |content| <= |source|
                                                   && source[s.sourceCursor..s.sourceCursor + |content|] == content) != negateNext))
      ensures Keeps(source, s, r, floor)
    {
      var a :- ReadShort(s);
      var key, t := a.0 as int16, a.1;
      if key !in s.groupContents {
        StateOKMovesWithCursorIf(s, t, floor);
        return Success(Step(if negateNext then ExecResult.Fail else Continue, t));
      }
      var content := s.groupContents[key].codePoints;
      var matched := false;
      if s.sourceCursor + |content| <= |source| {
        matched :- SourceMatches(s.sourceCursor, content);
      }
      var passes := matched != negateNext;
      r := Consume(t, |content|, passes);
      ConsumedKeeps(s, t, |content|, passes, floor);
    }

    lemma StateOKMovesWithCursorIf(s: MatchState, t: MatchState, floor: int)
      requires t == s.(opcodeCursor := t.opcodeCursor)
      ensures StateOK(source, s, floor) ==> StateOK(source, t, floor)
    {
      if StateOK(source, s, floor) {
        StateOKMovesWithCursor(source, s, floor, t.opcodeCursor);
      }
    }

    /** FORK: the pending thread resumes at the operand's slot plus the operand; this one goes on past it. */
    method ExecFork(s: MatchState, ghost floor: int) returns (r: Result<Step, Stop>)
      modifies this`pendingStates
      ensures ReadShort(s).Failure? ==> r == Failure(ReadShort(s).error) && pendingStates == old(pendingStates)
      ensures ReadShort(s).Success? ==>
                r == Success(Step(Continue, s.(opcodeCursor := s.opcodeCursor + 2)))
                && pendingStates == old(pendingStates) + [s.(opcodeCursor := s.opcodeCursor + ReadShort(s).value.0)]
      ensures Keeps(source, s, r, floor)
      ensures StateOK(source, s, floor) && AllOK(source, old(pendingStates), floor) ==> AllOK(source, pendingStates, floor)
    {
      var a :- ReadShort(s);
      var pending := s.(opcodeCursor := s.opcodeCursor + a.0);
      pendingStates := pendingStates + [pending];
      r := Success(Step(Continue, a.1));
      if StateOK(source, s, floor) {
        StateOKMovesWithCursor(source, s, floor, pending.opcodeCursor);
        StateOKMovesWithCursor(source, s, floor, a.1.opcodeCursor);
      }
    }

    /** FORK_NOW: the pending thread goes on past the operand; this one jumps to the slot plus the operand. */
    method ExecForkNow(s: MatchState, ghost floor: int) returns (r: Result<Step, Stop>)
      modifies this`pendingStates
      ensures ReadShort(s).Failure? ==> r == Failure(ReadShort(s).error) && pendingStates == old(pendingStates)
      ensures ReadShort(s).Success? ==>
                r == Success(Step(Continue, s.(opcodeCursor := s.opcodeCursor + ReadShort(s).value.0)))
                && pendingStates == old(pendingStates) + [s.(opcodeCursor := s.opcodeCursor + 2)]
      ensures Keeps(source, s, r, floor)
      ensures StateOK(source, s, floor) && AllOK(source, old(pendingStates), floor) ==> AllOK(source, pendingStates, floor)
    {
      var a :- ReadShort(s);
      var offset := a.0 - 2;
      var t := a.1;
      pendingStates := pendingStates + [t];
      t := t.(opcodeCursor := t.opcodeCursor + offset);
      r := Success(Step(Continue, t));
      if StateOK(source, s, floor) {
        StateOKMovesWithCursor(source, s, floor, a.1.opcodeCursor);
        StateOKMovesWithCursor(source, s, floor, t.opcodeCursor);
      }
    }

    /** JUMP: to the operand's slot plus the operand. */
    method ExecJump(s: MatchState, ghost floor: int) returns (r: Result<Step, Stop>)
      ensures ReadShort(s).Failure? ==> r == Failure(ReadShort(s).error)
      ensures ReadShort(s).Success? ==> r == Success(Step(Continue, s.(opcodeCursor := s.opcodeCursor + ReadShort(s).value.0)))
      ensures Keeps(source, s, r, floor)
    {
      // `opcodeCursor += readShort()` reads the cursor before the operand moves it.
      var slot := s.opcodeCursor;
      var a :- ReadShort(s);
      var t := a.1.(opcodeCursor := slot + a.0);
      r := Success(Step(Continue, t));
      StateOKMovesWithCursorIf(s, t, floor);
    }

    /**
     * RANGE_JUMP counts its own executions under its offset: below `min` it
     * jumps to the first target, at or above a non-zero `max` to the second,
     * otherwise it falls through; every execution adds one to the count.
     */
    method ExecRangeJump(s: MatchState, ghost floor: int) returns (r: Result<Step, Stop>)
      modifies this`rangeCounts
      ensures !(0 <= s.opcodeCursor && s.opcodeCursor + 8 <= |bytes|) ==>
                r == Failure(Threw(IndexOutOfBounds)) && rangeCounts == old(rangeCounts)
      ensures 0 <= s.opcodeCursor && s.opcodeCursor + 8 <= |bytes| ==>
                var oc := s.opcodeCursor;
                var count := if oc - 1 in old(rangeCounts) then old(rangeCounts)[oc - 1] else 0;
                var min, max := GetShort(bytes, oc), GetShort(bytes, oc + 2);
                rangeCounts == old(rangeCounts)[oc - 1 := ToInt(count + 1)]
                && r == Success(Step(Continue, s.(opcodeCursor :=
                          if count < min then oc + 4 + GetShort(bytes, oc + 4)
                          else if max != 0 && count >= max then oc + 6 + GetShort(bytes, oc + 6)
                          else oc + 8)))
      ensures Keeps(source, s, r, floor)
    {
      var opOffset := s.opcodeCursor - 1;
      var a :- ReadShort(s);
      var b :- ReadShort(a.1);
      var max: Option<int> := if b.0 != 0 then Some(b.0) else None;
      var c :- ReadShort(b.1);
      var below := b.1.opcodeCursor + c.0;
      var d :- ReadShort(c.1);
      var above := c.1.opcodeCursor + d.0;
      var t := d.1;
      var current := if opOffset in rangeCounts then rangeCounts[opOffset] else 0;
      rangeCounts := rangeCounts[opOffset := current];
      if current < a.0 {
        t := t.(opcodeCursor := below);
      } else if max.Some? && current >= max.value {
        t := t.(opcodeCursor := above);
      }
      rangeCounts := rangeCounts[opOffset := ToInt(current + 1)];
      r := Success(Step(Continue, t));
      StateOKMovesWithCursorIf(s, t, floor);
    }

    /** NEGATE_NEXT runs the next op with the flag set, and clears it when that op returns. */
    method ExecNegateNext(s: MatchState, fuel: nat, ghost floor: int) returns (r: Result<Step, Stop>)
      modifies this
      decreases fuel, 0
      ensures fuel == 0 ==> r == Failure(OutOfFuel)
      ensures r.Success? ==> !negateNext
      ensures Keeps(source, s, r, floor)
      ensures StateOK(source, s, floor) && AllOK(source, old(pendingStates), floor) ==> AllOK(source, pendingStates, floor)
    {
      if fuel == 0 {
        return Failure(OutOfFuel);
      }
      negateNext := true;
      r := ExecOp(s, s.opcodeCursor, fuel - 1, floor);
      if r.Success? {
        negateNext := false;
      }
    }

    /**
     * CHAR_CLASS: the member count, the byte size of the members, then the
     * members, tried one after another on the same thread until one
     * continues; the thread then skips to the end of the class. `tried`
     * lists the thread each member ran on and `steps` what it returned:
     * the first runs on the thread past the header and each later one on
     * the thread its predecessor left.
     */
    method ExecCharClass(s: MatchState, fuel: nat, ghost floor: int)
      returns (r: Result<Step, Stop>, ghost tried: seq<MatchState>, ghost steps: seq<Step>)
      modifies this
      decreases fuel, 0
      ensures !(0 <= s.opcodeCursor && s.opcodeCursor + 4 <= |bytes|) ==> r == Failure(Threw(IndexOutOfBounds))
      ensures 0 <= s.opcodeCursor && s.opcodeCursor + 4 <= |bytes| && GetShort(bytes, s.opcodeCursor) <= 0 ==>
                r == Success(Step(ExecResult.Fail, s.(opcodeCursor := s.opcodeCursor + 4)))
      ensures |tried| == |steps|
      ensures 0 < |tried| ==> tried[0] == s.(opcodeCursor := s.opcodeCursor + 4)
      ensures forall j | 0 < j < |tried| :: tried[j] == steps[j - 1].state
      ensures forall j | 0 <= j < |steps| - 1 :: steps[j].result != Continue
      ensures r.Success? ==> 0 <= s.opcodeCursor && s.opcodeCursor + 4 <= |bytes|
      ensures r.Success? ==> (r.value.result == Continue <==> steps != [] && steps[|steps| - 1].result == Continue)
      ensures r.Success? && r.value.result == Continue ==>
                r.value.state == steps[|steps| - 1].state.(opcodeCursor := s.opcodeCursor + 4 + GetShort(bytes, s.opcodeCursor + 2))
      ensures r.Success? && r.value.result != Continue ==>
                r.value.result == ExecResult.Fail
                && |steps| == (if GetShort(bytes, s.opcodeCursor) <= 0 then 0 else GetShort(bytes, s.opcodeCursor))
                && r.value.state == (if steps == [] then s.(opcodeCursor := s.opcodeCursor + 4) else steps[|steps| - 1].state)
      ensures Keeps(source, s, r, floor)
      ensures StateOK(source, s, floor) && AllOK(source, old(pendingStates), floor) ==> AllOK(source, pendingStates, floor)
    {
      tried, steps := [], [];
      var a :- ReadShort(s);
      var b :- ReadShort(a.1);
      var numEntries, numBytes := a.0, b.0;
      var state := b.1;
      var start := state.opcodeCursor;
      StateOKMovesWithCursorIf(s, state, floor);
      var i := 0;
      while i < numEntries
        invariant 0 <= i && (i <= numEntries || i == 0)
        invariant |tried| == |steps| == i
        invariant 0 < i ==> tried[0] == s.(opcodeCursor := s.opcodeCursor + 4)
        invariant forall j | 0 < j < i :: tried[j] == steps[j - 1].state
        invariant forall j | 0 <= j < i :: steps[j].result != Continue
        invariant state == (if i == 0 then s.(opcodeCursor := s.opcodeCursor + 4) else steps[i - 1].state)
        invariant StateOK(source, s, floor) ==> StateOK(source, state, floor)
        invariant StateOK(source, s, floor) && AllOK(source, old(pendingStates), floor) ==> AllOK(source, pendingStates, floor)
        decreases numEntries - i
      {
        if fuel == 0 {
          return Failure(OutOfFuel), tried, steps;
        }
        var step :- ExecOp(state, state.opcodeCursor + i, fuel - 1, floor);
        tried, steps := tried + [state], steps + [step];
        state := step.state;
        if step.result == Continue {
          r := Success(Step(Continue, state.(opcodeCursor := start + numBytes)));
          StateOKMovesWithCursorIf(state, r.value.state, floor);
          return;
        }
        i := i + 1;
      }
      r := Success(Step(ExecResult.Fail, state));
    }

    /**
     * INVERTED_CHAR_CLASS: fails at the end of the source and refuses to be
     * negated; reads two Shorts, then runs the op at the thread's cursor,
     * which is the first member, on a copy of the unchanged thread as many
     * times as the first Short says. It fails as soon as one run continues,
     * and otherwise skips by the second Short and consumes one code point.
     * `tried` lists the thread each run started from and `steps` what it
     * returned.
     */
    method ExecInvertedCharClass(s: MatchState, fuel: nat, ghost floor: int)
      returns (r: Result<Step, Stop>, ghost tried: seq<MatchState>, ghost steps: seq<Step>)
      modifies this
      decreases fuel, 0
      ensures Done(s) ==> r == Success(Step(ExecResult.Fail, s))
      ensures !Done(s) && old(negateNext) ==> r == Failure(Threw(ExpectationError))
      ensures !Done(s) && !old(negateNext) && !(0 <= s.opcodeCursor && s.opcodeCursor + 4 <= |bytes|) ==>
                r == Failure(Threw(IndexOutOfBounds))
      ensures !Done(s) && !old(negateNext) && 0 <= s.opcodeCursor && s.opcodeCursor + 4 <= |bytes|
              && GetShort(bytes, s.opcodeCursor) <= 0 ==>
                r == Consumed(s.(opcodeCursor := s.opcodeCursor + 4 + GetShort(bytes, s.opcodeCursor + 2)), 1, true)
      ensures |tried| == |steps|
      ensures forall j | 0 <= j < |tried| :: tried[j] == s.(opcodeCursor := s.opcodeCursor + 4)
      ensures forall j | 0 <= j < |steps| - 1 :: steps[j].result != Continue
      ensures r.Success? && !Done(s) ==> 0 <= s.opcodeCursor && s.opcodeCursor + 4 <= |bytes|
      ensures r.Success? && !Done(s) && r.value.result == ExecResult.Fail ==>
                steps != [] && steps[|steps| - 1].result == Continue
                && r.value.state == s.(opcodeCursor := s.opcodeCursor + 4)
      ensures r.Success? && r.value.result == Continue ==>
                !Done(s) && 0 <= s.opcodeCursor && s.opcodeCursor + 4 <= |bytes|
                && |steps| == (if GetShort(bytes, s.opcodeCursor) <= 0 then 0 else GetShort(bytes, s.opcodeCursor))
                && (forall j | 0 <= j < |steps| :: steps[j].result != Continue)
                && r == Consumed(s.(opcodeCursor := s.opcodeCursor + 4 + GetShort(bytes, s.opcodeCursor + 2)), 1, true)
      ensures r.Success? ==> r.value.result != ExecResult.Match
      ensures Keeps(source, s, r, floor)
      ensures StateOK(source, s, floor) && AllOK(source, old(pendingStates), floor) ==> AllOK(source, pendingStates, floor)
    {
      tried, steps := [], [];
      if Done(s) {
        return Success(Step(ExecResult.Fail, s)), tried, steps;
      }
      if negateNext {
        return Failure(Threw(ExpectationError)), tried, steps;
      }
      var a :- ReadShort(s);
      var b :- ReadShort(a.1);
      var numEntries, offset := a.0, b.0;
      var state := b.1;
      StateOKMovesWithCursorIf(s, state, floor);
      var i := 0;
      while i < numEntries
        invariant 0 <= i && (i <= numEntries || i == 0)
        invariant |tried| == |steps| == i
        invariant forall j | 0 <= j < i :: tried[j] == s.(opcodeCursor := s.opcodeCursor + 4)
        invariant forall j | 0 <= j < i :: steps[j].result != Continue
        invariant StateOK(source, s, floor) && AllOK(source, old(pendingStates), floor) ==> AllOK(source, pendingStates, floor)
        decreases numEntries - i
      {
        if fuel == 0 {
          return Failure(OutOfFuel), tried, steps;
        }
        var step :- ExecOp(state, state.opcodeCursor + i, fuel - 1, floor);
        tried, steps := tried + [state], steps + [step];
        if step.result == Continue {
          return Success(Step(ExecResult.Fail, state)), tried, steps;
        }
        i := i + 1;
      }
      var t := state.(opcodeCursor := state.opcodeCursor + offset);
      r := Consume(t, 1, true);
      ConsumedKeeps(s, t, 1, true, floor);
    }

    predicate IsLookaround(op: byte)
    {
      op == POSITIVE_LOOKAHEAD_OP || op == POSITIVE_LOOKBEHIND_OP
      || op == NEGATIVE_LOOKAHEAD_OP || op == NEGATIVE_LOOKBEHIND_OP
    }

    /**
     * The lookarounds: a Short length and that many bytes of opcodes, run by a
     * new matcher from the cursor (lookbehind: over the reversed source, from
     * the mirrored cursor). Continues, without consuming, exactly when a match
     * was found for a positive lookaround or none for a negative one, keeping
     * the groups it captured that the thread does not hold yet.
     */
    method ExecLookaround(op: byte, s: MatchState, fuel: nat, ghost floor: int)
      returns (r: Result<Step, Stop>, found: Option<MatchResult>)
      requires IsLookaround(op)
      requires s.sourceCursor <= |source|
      decreases fuel, 0
      ensures negateNext ==> r == Failure(Threw(ExpectationError))
      ensures r.Success? ==>
                0 <= s.opcodeCursor && s.opcodeCursor + 2 <= |bytes|
                && r.value.state.opcodeCursor == s.opcodeCursor + 2 + GetShort(bytes, s.opcodeCursor)
                && r.value.state.sourceCursor == s.sourceCursor && r.value.state.groups == s.groups
      ensures r.Success? ==>
                (r.value.result == Continue
                 <==> ((op == POSITIVE_LOOKAHEAD_OP || op == POSITIVE_LOOKBEHIND_OP) == found.Some?))
      ensures r.Success? ==> r.value.result != ExecResult.Match
      ensures r.Success? && r.value.result == Continue ==>
                forall k | k in s.groupContents :: k in r.value.state.groupContents
                                                  && r.value.state.groupContents[k] == s.groupContents[k]
      ensures r.Success? && found.None? ==> r.value.state.groupContents == s.groupContents
      ensures found.Some? ==> WellFormed(found.value)
      ensures r.Success? && r.value.result == Continue && found.Some? ==>
                MergedFrom(r.value.state.groupContents, s.groupContents, found.value.groups,
                           op == POSITIVE_LOOKAHEAD_OP || op == NEGATIVE_LOOKAHEAD_OP, |source|)
      ensures StateOK(source, s, floor) && found.Some? ==>
                if op == POSITIVE_LOOKAHEAD_OP || op == NEGATIVE_LOOKAHEAD_OP
                then Captured(source, found.value, s.sourceCursor)
                else Captured(Reversed(source), found.value, |source| - s.sourceCursor)
      ensures Keeps(source, s, r, floor)
    {
      found := None;
      if negateNext {
        return Failure(Threw(ExpectationError)), None;
      }
      var a := ReadShort(s);
      if a.Failure? {
        return Failure(a.error), None;
      }
      var b := ReadBytes(a.value.1, a.value.0);
      if b.Failure? {
        return Failure(b.error), None;
      }
      var t := b.value.1;
      var isAhead := op == POSITIVE_LOOKAHEAD_OP || op == NEGATIVE_LOOKAHEAD_OP;
      var isPositive := op == POSITIVE_LOOKAHEAD_OP || op == POSITIVE_LOOKBEHIND_OP;
      if fuel == 0 {
        return Failure(OutOfFuel), None;
      }
      var sub := new Matcher(if isAhead then source else Reversed(source), Opcodes(b.value.0, groupNames),
                             dotMatchesNewlines, unicode, sets);
      var m := sub.Match(if isAhead then s.sourceCursor else |source| - s.sourceCursor, fuel - 1);
      if m.Failure? {
        return Failure(m.error), None;
      }
      found := m.value;
      StateOKMovesWithCursorIf(s, t, floor);
      if isPositive != found.Some? {
        return Success(Step(ExecResult.Fail, t)), found;
      }
      if found.None? {
        return Success(Step(Continue, t)), found;
      }
      var merged := MergeCaptures(t.groupContents, found.value.groups, isAhead, |source|);
      r := Success(Step(Continue, t.(groupContents := merged)));
      if StateOK(source, s, floor) {
        MergeKeeps(source, t.groupContents, found.value.groups, isAhead, merged);
      }
    }

    /**
     * `execOp`: one op of one thread. A thread past the end of the source
     * fails; a position outside the buffer is refused by `position`; the op
     * byte is read at the thread's own cursor, and undeclared or unused op
     * bytes are unreachable.
     */
    method ExecOp(s: MatchState, position: int, fuel: nat, ghost floor: int) returns (r: Result<Step, Stop>)
      modifies this
      decreases fuel, 1
      ensures s.sourceCursor > |source| ==> r == Success(Step(ExecResult.Fail, s)) && pendingStates == old(pendingStates)
      ensures s.sourceCursor <= |source| && !(0 <= position <= |bytes|) ==> r == Failure(Threw(IllegalArgument))
      ensures s.sourceCursor <= |source| && 0 <= position <= |bytes| && !(0 <= s.opcodeCursor < |bytes|) ==>
                r == Failure(Threw(IndexOutOfBounds))
      ensures s.sourceCursor <= |source| && 0 <= position <= |bytes| && 0 <= s.opcodeCursor < |bytes| ==>
                var op := bytes[s.opcodeCursor];
                (op == MATCH_OP ==> r == Success(Step(ExecResult.Match, s.(opcodeCursor := s.opcodeCursor + 1))))
                && (op == 0 || op > NEGATIVE_LOOKBEHIND_OP || IsUnusedOp(op) ==> r == Failure(Threw(IllegalState)))
      ensures Keeps(source, s, r, floor)
      ensures StateOK(source, s, floor) && AllOK(source, old(pendingStates), floor) ==> AllOK(source, pendingStates, floor)
    {
      if s.sourceCursor > |source| {
        return Success(Step(ExecResult.Fail, s));
      }
      if !(0 <= position <= |bytes|) {
        return Failure(Threw(IllegalArgument));
      }
      if !(0 <= s.opcodeCursor < |bytes|) {
        return Failure(Threw(IndexOutOfBounds));
      }
      var op := bytes[s.opcodeCursor];
      var t := s.(opcodeCursor := s.opcodeCursor + 1);
      StateOKMovesWithCursorIf(s, t, floor);
      if op == START_GROUP_OP || op == START_NON_CAPTURING_GROUP_OP || op == END_GROUP_OP {
        r := ExecGroupOp(op, t, floor);
      } else if op == CODEPOINT1_OP || op == CODEPOINT2_OP || op == CODEPOINT4_OP
             || op == RANGE1_OP || op == RANGE2_OP || op == RANGE4_OP {
        r := ExecCodePointOp(op, t, floor);
      } else if op == CODEPOINT1_LIST_OP {
        r := ExecList(t, floor);
      } else if op == START_OP || op == END_OP || op == WORD_BOUNDARY_OP || op == ANY_OP
             || op == WORD_OP || op == DIGIT_OP || op == WHITESPACE_OP {
        r := ExecTestOp(op, t, floor);
      } else if op == NEGATE_NEXT_OP {
        r := ExecNegateNext(t, fuel, floor);
      } else if op == MATCH_OP {
        r := Success(Step(ExecResult.Match, t));
      } else if op == UNICODE_CLASS_OP {
        r := ExecUnicodeClass(t, floor);
      } else if op == BACK_REFERENCE_OP {
        r := ExecBackReference(t, floor);
      } else if op == CHAR_CLASS_OP {
        ghost var tried, steps;
        r, tried, steps := ExecCharClass(t, fuel, floor);
      } else if op == INVERTED_CHAR_CLASS_OP {
        ghost var tried, steps;
        r, tried, steps := ExecInvertedCharClass(t, fuel, floor);
      } else if op == FORK_OP {
        r := ExecFork(t, floor);
      } else if op == FORK_NOW_OP {
        r := ExecForkNow(t, floor);
      } else if op == JUMP_OP {
        r := ExecJump(t, floor);
      } else if op == RANGE_JUMP_OP {
        r := ExecRangeJump(t, floor);
      } else if IsLookaround(op) {
        var found;
        r, found := ExecLookaround(op, t, fuel, floor);
      } else {
        r := Failure(Threw(IllegalState));
      }
    }

    /**
     * The MATCH branch of `exec`: group 0 must be the only open group; it is
     * closed into the captures, which become the sorted result.
     */
    method Finish(state: MatchState, ghost floor: int) returns (r: Result<MatchResult, Stop>)
      ensures state.groups == [] ==> r == Failure(Threw(NoSuchElement))
      ensures state.groups != [] && (state.groups[|state.groups| - 1].index != Some(0) || |state.groups| > 1) ==>
                r == Failure(Threw(ExpectationError))
      ensures r.Success? ==>
                |state.groups| == 1 && WellFormed(r.value) && r.value.groupNames == IntKeyed(groupNames)
                && Group0(r.value) == MatchGroup(state.groups[0].content, Until(state.groups[0].rangeStart, state.sourceCursor))
      ensures StateOK(source, state, floor) && r.Success? ==> Captured(source, r.value, floor)
    {
      if state.groups == [] {
        return Failure(Threw(NoSuchElement));
      }
      var group0 := state.groups[|state.groups| - 1];
      if group0.index != Some(0) || |state.groups| > 1 {
        return Failure(Threw(ExpectationError));
      }
      var g := MatchGroup(group0.content, Until(group0.rangeStart, state.sourceCursor));
      var contents := state.groupContents[0 := g];
      var lowest := SHORT_MIN;
      var m := MatchResult(SortedEntries(contents, lowest), IntKeyed(groupNames));
      ClosedCaptured(source, state, g, lowest, m, floor);
      r := Success(m);
    }

    /**
     * `exec`: group 0 opens at the start; ops run until one matches, and a
     * failing thread is replaced by the most recently forked one, the match
     * failing when none is left. Each op costs one unit of `fuel`.
     */
    method Exec(initial: MatchState, fuel: nat) returns (r: Result<Option<MatchResult>, Stop>)
      modifies this
      decreases fuel, 2
      ensures r.Success? && r.value.Some? ==> WellFormed(r.value.value) && r.value.value.groupNames == IntKeyed(groupNames)
      ensures r.Success? && r.value.None? ==> pendingStates == []
      ensures (StateOK(source, initial, initial.sourceCursor) && AllOK(source, old(pendingStates), initial.sourceCursor)
               && r.Success? && r.value.Some?) ==> Captured(source, r.value.value, initial.sourceCursor)
      ensures initial.sourceCursor > |source| && fuel > 0 && old(pendingStates) == [] ==> r == Success(None)
    {
      ghost var floor := initial.sourceCursor;
      ghost var ok := StateOK(source, initial, floor) && AllOK(source, pendingStates, floor);
      var state := initial.(groups := initial.groups + [GroupState(Some(0), initial.sourceCursor, [])]);
      if ok && state.sourceCursor <= |source| {
        assert Tracks(source, state.groups[|initial.groups|], state.sourceCursor, floor);
      }
      var f: nat := fuel;
      while true
        invariant f <= fuel
        invariant ok ==> AllOK(source, pendingStates, floor) && (state.sourceCursor <= |source| ==> StateOK(source, state, floor))
        invariant f == fuel ==> state.sourceCursor == initial.sourceCursor && pendingStates == old(pendingStates)
        invariant initial.sourceCursor > |source| && old(pendingStates) == [] ==> f == fuel
        decreases f
      {
        if f == 0 {
          return Failure(OutOfFuel);
        }
        f := f - 1;
        var step :- ExecOp(state, state.opcodeCursor, f, floor);
        if step.result.Match? {
          var m :- Finish(step.state, floor);
          return Success(Some(m));
        } else if step.result.Continue? {
          state := step.state;
        } else {
          if pendingStates == [] {
            return Success(None);
          }
          state := pendingStates[|pendingStates| - 1];
          pendingStates := pendingStates[..|pendingStates| - 1];
        }
      }
    }

    /** `match(startIndex)`: forget every pending thread and count, and run from `startIndex`. */
    method Match(startIndex: int, fuel: nat) returns (r: Result<Option<MatchResult>, Stop>)
      modifies this
      decreases fuel, 3
      ensures r.Success? && r.value.Some? ==> WellFormed(r.value.value) && r.value.value.groupNames == IntKeyed(groupNames)
      ensures 0 <= startIndex && r.Success? && r.value.Some? ==> Captured(source, r.value.value, startIndex)
      ensures startIndex > |source| && fuel > 0 ==> r == Success(None)
    {
      pendingStates := [];
      rangeCounts := map[];
      r := Exec(MatchState(startIndex, 0, [], map[]), fuel);
    }

    /**
     * `matchSequence`: matches tried from every index up to the end of the
     * source; after a match the next try starts past its end, and at least
     * one index further on. The Kotlin sequence is lazy; here it is computed in full.
     */
    method MatchSequence(startIndex: int, fuel: nat) returns (r: Result<seq<MatchResult>, Stop>)
      modifies this
      ensures r.Success? ==> forall i | 0 <= i < |r.value| :: WellFormed(r.value[i])
      ensures 0 <= startIndex && r.Success? ==> forall i | 0 <= i < |r.value| :: Captured(source, r.value[i], startIndex)
      ensures 0 <= startIndex && r.Success? ==>
                forall i | 0 <= i < |r.value| - 1 :: Group0(r.value[i]).range.last < Group0(r.value[i + 1]).range.first
      ensures startIndex > |source| ==> r == Success([])
    {
      var index := startIndex;
      var results: seq<MatchResult> := [];
      while index <= |source|
        invariant startIndex <= index
        invariant forall i | 0 <= i < |results| :: WellFormed(results[i])
        invariant 0 <= startIndex ==> Successive(source, results, startIndex)
        invariant 0 <= startIndex && results != [] ==> Group0(results[|results| - 1]).range.last < index
        invariant startIndex > |source| ==> results == []
        decreases |source| + 1 - index
      {
        var m :- Match(index, fuel);
        if m.Some? {
          if 0 <= startIndex {
            AppendSuccessive(source, results, m.value, startIndex, index);
          }
          results := results + [m.value];
          index := Max(index + 1, Group0(m.value).range.last + 1);
        } else {
          index := index + 1;
        }
      }
      r := Success(results);
    }

    /** `matchAll`: every match of the sequence, or none at all rather than an empty list. */
    method MatchAll(startIndex: int, fuel: nat) returns (r: Result<Option<seq<MatchResult>>, Stop>)
      modifies this
      ensures r.Success? && r.value.Some? ==> |r.value.value| > 0 && forall i | 0 <= i < |r.value.value| :: WellFormed(r.value.value[i])
      ensures 0 <= startIndex && r.Success? && r.value.Some? ==>
                (forall i | 0 <= i < |r.value.value| :: Captured(source, r.value.value[i], startIndex))
                && forall i | 0 <= i < |r.value.value| - 1 ::
                     Group0(r.value.value[i]).range.last < Group0(r.value.value[i + 1]).range.first
      ensures startIndex > |source| ==> r == Success(None)
    {
      var all :- MatchSequence(startIndex, fuel);
      r := Success(if all == [] then None else Some(all));
    }
  }
}
