// compiler/GrowableByteBuffer.kt: the compiler's output buffer over a
// java.nio.ByteBuffer (big-endian, position = limit-relative cursor).

module ByteBuffer {
  import opened Utils
  import opened Numeric

  /** `ByteBuffer.allocate(512)`: the initial capacity, frozen in `size`. */
  const INITIAL_SIZE: nat := 512

  /** The observable state of the underlying `ByteBuffer`: its array and position. */
  datatype BufferState = BufferState(contents: seq<byte>, position: nat)
  {
    ghost predicate Valid()
    {
      position <= |contents|
    }

    /** The bytes of `[0, position)`. */
    function Written(): seq<byte>
      requires position <= |contents|
    {
      contents[..position]
    }
  }

  function Zeros(n: nat): (r: seq<byte>)
    ensures |r| == n
  {
    seq(n, _ => 0)
  }

  /**
   * `newBuffer.put(buffer)` into `allocate(size * 2)`: the old buffer's bytes
   * from `position` to its limit land at the start of the new one, and the new
   * position is their count.
   */
  function Grown(s: BufferState): (r: BufferState)
    requires s.Valid() && |s.contents| <= 2 * INITIAL_SIZE
    ensures r.Valid() && |r.contents| == 2 * INITIAL_SIZE
  {
    var rest := s.contents[s.position..];
    BufferState(rest + Zeros(2 * INITIAL_SIZE - |rest|), |rest|)
  }

  /** `ensureCapacity(n)`; `size` is always 512, whatever the current capacity. */
  function EnsureCapacityState(s: BufferState, n: nat): (r: BufferState)
    requires s.Valid() && |s.contents| <= 2 * INITIAL_SIZE
    ensures r.Valid() && |r.contents| <= 2 * INITIAL_SIZE
  {
    if s.position + n >= INITIAL_SIZE then Grown(s) else s
  }

  /** A relative bulk `put`: BufferOverflowException when fewer than |bs| bytes remain. */
  function PutState(s: BufferState, bs: seq<byte>): (r: Option<BufferState>)
    requires s.Valid()
    ensures r.Some? ==> r.value.Valid() && |r.value.contents| == |s.contents|
  {
    if s.position + |bs| <= |s.contents| then
      Some(BufferState(s.contents[..s.position] + bs + s.contents[s.position + |bs|..],
                       s.position + |bs|))
    else None
  }

  /** `writeByte`, `writeShort`, `writeInt`, `writeLong` and `writeBytes`. */
  function WriteState(s: BufferState, bs: seq<byte>): (r: Option<BufferState>)
    requires s.Valid() && |s.contents| <= 2 * INITIAL_SIZE
    ensures r.Some? ==> r.value.Valid() && |r.value.contents| <= 2 * INITIAL_SIZE
  {
    PutState(EnsureCapacityState(s, |bs|), bs)
  }

  /** The bytes of a run of writes, one after another. */
  function Concat(chunks: seq<seq<byte>>): seq<byte>
  {
    if chunks == [] then [] else Concat(chunks[..|chunks| - 1]) + chunks[|chunks| - 1]
  }

  /** A run of writes on the as-written buffer, as the compiler issues them; None once one overflows. */
  function WriteAll(s: BufferState, chunks: seq<seq<byte>>): (r: Option<BufferState>)
    requires s.Valid() && |s.contents| <= 2 * INITIAL_SIZE
    ensures r.Some? ==> r.value.Valid() && |r.value.contents| <= 2 * INITIAL_SIZE
  {
    if chunks == [] then Some(s)
    else
      var before := WriteAll(s, chunks[..|chunks| - 1]);
      if before.None? then None else WriteState(before.value, chunks[|chunks| - 1])
  }

  /** An absolute `putShort(index, v)`: IndexOutOfBoundsException unless both bytes fit. */
  function PutShortAtState(s: BufferState, index: int, v: int): (r: Option<BufferState>)
    requires s.Valid()
    ensures r.Some? ==> r.value.Valid() && r.value.position == s.position
  {
    if 0 <= index && index + 2 <= |s.contents| then
      Some(BufferState(s.contents[..index] + ShortBytes(v) + s.contents[index + 2..], s.position))
    else None
  }

  /** While `position + n < 512`, a write stores its bytes at `position` and advances past them. */
  lemma WriteAppends(s: BufferState, bs: seq<byte>)
    requires s.Valid() && INITIAL_SIZE <= |s.contents| <= 2 * INITIAL_SIZE && s.position + |bs| < INITIAL_SIZE
    ensures WriteState(s, bs).Some?
    ensures WriteState(s, bs).value.position == s.position + |bs|
    ensures WriteState(s, bs).value.Written() == s.Written() + bs
    ensures WriteState(s, bs).value.contents[s.position + |bs|..] == s.contents[s.position + |bs|..]
    ensures |WriteState(s, bs).value.contents| == |s.contents|
  {
    var t := WriteState(s, bs).value;
    assert t.contents[..t.position] == s.contents[..s.position] + bs;
  }

  /**
   * A run of writes on the as-written buffer appends its bytes as long as the
   * whole run stays below 512 bytes: only then does it agree with the
   * corrected buffer the compiler is stated on.
   */
  lemma {:induction false} WriteAllAppends(s: BufferState, chunks: seq<seq<byte>>)
    requires s.Valid() && INITIAL_SIZE <= |s.contents| <= 2 * INITIAL_SIZE
    requires s.position + |Concat(chunks)| < INITIAL_SIZE
    ensures WriteAll(s, chunks).Some?
    ensures WriteAll(s, chunks).value.position == s.position + |Concat(chunks)|
    ensures WriteAll(s, chunks).value.Written() == s.Written() + Concat(chunks)
    ensures WriteAll(s, chunks).value.contents[s.position + |Concat(chunks)|..] == s.contents[s.position + |Concat(chunks)|..]
    ensures |WriteAll(s, chunks).value.contents| == |s.contents|
  {
    if chunks != [] {
      var prior := chunks[..|chunks| - 1];
      var last := chunks[|chunks| - 1];
      WriteAllAppends(s, prior);
      var t := WriteAll(s, prior).value;
      WriteAppends(t, last);
      var n := s.position + |Concat(prior)|;
      assert t.contents[n + |last|..] == t.contents[n..][|last|..] == s.contents[n..][|last|..];
    }
  }

  /** One byte per chunk, one byte per chunk's worth of output. */
  lemma {:induction false} ConcatOfSingles(chunks: seq<seq<byte>>)
    requires forall i | 0 <= i < |chunks| :: |chunks[i]| == 1
    ensures |Concat(chunks)| == |chunks|
  {
    if chunks != [] {
      ConcatOfSingles(chunks[..|chunks| - 1]);
    }
  }

  /**
   * Growth triggers whenever `position + n >= 512`, also on a buffer that has
   * already grown to 1024 bytes, and then the bytes written so far are lost:
   * the new written prefix is the old buffer's tail from `position` on.
   */
  lemma GrowthDropsPrefix(s: BufferState, n: nat)
    requires s.Valid() && |s.contents| <= 2 * INITIAL_SIZE && s.position + n >= INITIAL_SIZE
    ensures EnsureCapacityState(s, n).Written() == s.contents[s.position..]
    ensures |EnsureCapacityState(s, n).contents| == 2 * INITIAL_SIZE
  {
  }

  /**
   * 511 one-byte writes of 1 into a fresh buffer, then a 512th of 2: growth
   * keeps only the tail from `position` on, which is the never-written zero,
   * so none of the 511 bytes survive.
   */
  lemma WriteAfterGrowthLosesOutput()
    ensures var t := WriteAll(BufferState(Zeros(INITIAL_SIZE), 0), seq(INITIAL_SIZE - 1, _ => [1]) + [[2]]);
            t.Some? && t.value.Written() == [0, 2]
  {
    var s := BufferState(Zeros(INITIAL_SIZE), 0);
    var ones: seq<seq<byte>> := seq(INITIAL_SIZE - 1, _ => [1]);
    assert (ones + [[2]])[..|ones|] == ones;
    ConcatOfSingles(ones);
    WriteAllAppends(s, ones);
    var t := WriteAll(s, ones).value;
    assert t.position == INITIAL_SIZE - 1;
    assert t.contents[t.position..] == s.contents[INITIAL_SIZE - 1..] == [0];
  }

  /** A short stored by an absolute put reads back as the `Short` value written. */
  lemma PutShortAtReadBack(s: BufferState, index: int, v: int)
    requires s.Valid()
    requires PutShortAtState(s, index, v).Some?
    ensures GetShort(PutShortAtState(s, index, v).value.contents, index) == ToShort(v)
  {
    ShortRoundTrip(v, s.contents[..index], s.contents[index + 2..]);
  }

  /** Bytes outside the two patched ones are untouched by an absolute put. */
  lemma PutShortAtFrame(s: BufferState, index: int, v: int, j: int)
    requires s.Valid()
    requires PutShortAtState(s, index, v).Some?
    requires 0 <= j < |s.contents| && (j < index || index + 2 <= j)
    ensures PutShortAtState(s, index, v).value.contents[j] == s.contents[j]
  {
    var c := PutShortAtState(s, index, v).value.contents;
    if j < index {
      assert c[j] == (s.contents[..index])[j];
    } else {
      assert c[j] == s.contents[index + 2..][j - index - 2];
    }
  }

  /**
   * The buffer with `ensureCapacity` as evidently intended: on growth the bytes
   * written so far move to the new array and the position stays, so every write
   * appends. The new capacity is twice the current one, or more when one write
   * needs it.
   */
  class GrowableByteBuffer {
    var buffer: array<byte>
    /** `buffer.position()` */
    var position: nat

    ghost predicate Valid()
      reads this, buffer
    {
      position <= buffer.Length
    }

    ghost function State(): BufferState
      reads this, buffer
    {
      BufferState(buffer[..], position)
    }

    /** The bytes written so far, `[0, position)`. */
    ghost function Written(): seq<byte>
      reads this, buffer
      requires Valid()
    {
      State().Written()
    }

    constructor()
      ensures Valid() && fresh(buffer) && buffer.Length == INITIAL_SIZE
      ensures State() == BufferState(Zeros(INITIAL_SIZE), 0)
    {
      buffer := new byte[INITIAL_SIZE](_ => 0);
      position := 0;
      new;
      assert buffer[..] == Zeros(INITIAL_SIZE);
    }

    /** The `position` setter: IllegalArgumentException unless `0 <= p <= limit`. */
    method SetPosition(p: int) returns (r: Outcome<Crash>)
      requires Valid()
      modifies this
      ensures Valid() && buffer == old(buffer)
      ensures r.Pass? <==> 0 <= p <= buffer.Length
      ensures r.Pass? ==> position == p
      ensures r.Fail? ==> r.error == IllegalArgument && position == old(position)
    {
      if 0 <= p <= buffer.Length {
        position := p;
        r := Pass;
      } else {
        r := Fail(IllegalArgument);
      }
    }

    /**
     * `ensureCapacity(n)`: afterwards `n` more bytes fit strictly below the
     * capacity, and what was written is unchanged.
     */
    method EnsureCapacity(n: nat)
      requires Valid()
      modifies this
      ensures Valid() && position == old(position) && Written() == old(Written())
      ensures position + n < buffer.Length
      ensures buffer == old(buffer) || fresh(buffer)
      ensures old(position) + n < old(buffer.Length) ==> buffer == old(buffer)
    {
      if position + n >= buffer.Length {
        var newSize := if position + n + 1 > buffer.Length * 2 then position + n + 1 else buffer.Length * 2;
        var newBuffer := new byte[newSize](_ => 0);
        forall j | 0 <= j < position {
          newBuffer[j] := buffer[j];
        }
        assert newBuffer[..position] == buffer[..position];
        buffer := newBuffer;
      }
    }

    /** A relative put of `bs` at `position` into an array with room for it. */
    method Put(bs: seq<byte>)
      requires Valid() && position + |bs| <= buffer.Length
      modifies this, buffer
      ensures Valid() && buffer == old(buffer) && Written() == old(Written()) + bs
    {
      var j := 0;
      while j < |bs|
        modifies buffer
        invariant 0 <= j <= |bs|
        invariant buffer[..] == old(buffer[..])[..position] + bs[..j] + old(buffer[..])[position + j..]
      {
        buffer[position + j] := bs[j];
        assert bs[..j + 1] == bs[..j] + [bs[j]];
        j := j + 1;
      }
      assert bs[..j] == bs;
      assert buffer[..position + |bs|] == old(buffer[..])[..position] + bs;
      position := position + |bs|;
    }

    /** `writeBytes`, and the shared body of the fixed-width writes. */
    method WriteBytes(bs: seq<byte>)
      requires Valid()
      modifies this, buffer
      ensures Valid() && Written() == old(Written()) + bs
      ensures buffer == old(buffer) || fresh(buffer)
    {
      EnsureCapacity(|bs|);
      Put(bs);
    }

    method WriteByte(v: int)
      requires Valid() && IsByte(v)
      modifies this, buffer
      ensures Valid() && Written() == old(Written()) + [Unsigned8(v)]
      ensures buffer == old(buffer) || fresh(buffer)
    {
      WriteBytes([Unsigned8(v)]);
    }

    method WriteShort(v: int)
      requires Valid() && IsShort(v)
      modifies this, buffer
      ensures Valid() && Written() == old(Written()) + ShortBytes(v)
      ensures buffer == old(buffer) || fresh(buffer)
    {
      WriteBytes(ShortBytes(v));
    }

    method WriteInt(v: int)
      requires Valid() && IsInt(v)
      modifies this, buffer
      ensures Valid() && Written() == old(Written()) + IntBytes(v)
      ensures buffer == old(buffer) || fresh(buffer)
    {
      WriteBytes(IntBytes(v));
    }

    method WriteLong(v: int)
      requires Valid() && IsLong(v)
      modifies this, buffer
      ensures Valid() && Written() == old(Written()) + LongBytes(v)
      ensures buffer == old(buffer) || fresh(buffer)
    {
      WriteBytes(LongBytes(v));
    }

    /** `buffer.buffer.putShort(index, v)`, the absolute put used to patch labels. */
    method PutShortAt(index: int, v: int) returns (r: Outcome<Crash>)
      requires Valid()
      modifies buffer
      ensures Valid()
      ensures PutShortAtState(old(State()), index, v).Some? ==>
                r.Pass? && State() == PutShortAtState(old(State()), index, v).value
      ensures PutShortAtState(old(State()), index, v).None? ==>
                r == Fail(IndexOutOfBounds) && State() == old(State())
    {
      if index < 0 || index + 2 > buffer.Length {
        return Fail(IndexOutOfBounds);
      }
      var bs := ShortBytes(v);
      buffer[index] := bs[0];
      buffer[index + 1] := bs[1];
      assert buffer[..] == old(buffer[..])[..index] + bs + old(buffer[..])[index + 2..];
      r := Pass;
    }

    /** `finalize`: the bytes of `[0, position)`, then the position is reset. */
    method Finalize() returns (bytes: seq<byte>)
      requires Valid()
      modifies this
      ensures Valid() && buffer == old(buffer) && buffer[..] == old(buffer[..])
      ensures bytes == old(Written()) && position == 0
    {
      bytes := buffer[..position];
      position := 0;
    }
  }
}
