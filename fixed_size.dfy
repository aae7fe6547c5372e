/**
 * FixedSizeChunkingStrategy: slices of exactly `chunkSize` characters, with
 * character offsets counted across the stream, and a trimmed final remainder.
 */
module FixedSize {
  import opened Wrappers
  import opened TextUtil
  import opened Chunks

  const Name: string := "fixed_size"
  const DefaultChunkSize: int := 1000

  /** strategy, chunk_size, char_start and char_end. */
  function OffsetMeta(size: int, start: int, end: int): Metadata {
    map["strategy" := StrValue(Name), "chunk_size" := IntValue(size),
        "char_start" := IntValue(start), "char_end" := IntValue(end)]
  }

  /** The three mutable fields: buffer, position and charOffset. */
  datatype State = State(buffer: string, position: nat, charOffset: nat)

  const Initial: State := State("", 0, 0)

  /** The constructor's argument check (lines 19-21). */
  function CheckChunkSize(chunkSize: int): (r: Option<Error>)
    ensures r.None? <==> chunkSize > 0
  {
    if chunkSize <= 0 then Some(InvalidArgument("Chunk size must be > 0")) else None
  }

  /**
   * The while loop of lines 35-54: cut `size` characters at a time off the
   * front of the buffer while enough are left.
   */
  function Carve(buf: string, size: nat, pos: nat, off: nat): (seq<Chunk>, State)
    requires size > 0
    decreases |buf|
  {
    if |buf| < size then ([], State(buf, pos, off))
    else
      var (cs, t) := Carve(buf[size..], size, pos + 1, off + size);
      ([Chunk(buf[..size], pos, OffsetMeta(size, off, off + size))] + cs, t)
  }

  /** The end-of-stream flush of lines 56-72: the trimmed remainder, if any. */
  function Flush(t: State, size: nat, isEnd: bool): seq<Chunk> {
    var trimmed := Trim(t.buffer);
    if isEnd && t.buffer != [] && trimmed != [] then
      [Chunk(trimmed, t.position, OffsetMeta(size, t.charOffset, t.charOffset + |trimmed|))]
    else []
  }

  /** process(data, isEnd) */
  function Step(s: State, size: nat, data: string, isEnd: bool): (seq<Chunk>, State)
    requires size > 0
  {
    var (cs, t) := Carve(s.buffer + data, size, s.position, s.charOffset);
    (cs + Flush(t, size, isEnd), t)
  }

  /**
   * Every loop chunk has exactly `size` characters and spans `size` offsets,
   * numbered consecutively; what is left is shorter than `size`.
   */
  lemma {:induction false} CarveSizes(buf: string, size: nat, pos: nat, off: nat)
    requires size > 0
    ensures forall c <- Carve(buf, size, pos, off).0 :: |c.text| == size
    ensures Consecutive(Carve(buf, size, pos, off).0, pos)
    ensures |Carve(buf, size, pos, off).1.buffer| < size
    ensures Carve(buf, size, pos, off).1.position == pos + |Carve(buf, size, pos, off).0|
    decreases |buf|
  {
    if |buf| >= size {
      var (cs, t) := Carve(buf[size..], size, pos + 1, off + size);
      CarveSizes(buf[size..], size, pos + 1, off + size);
      var c := Chunk(buf[..size], pos, OffsetMeta(size, off, off + size));
      assert Carve(buf, size, pos, off).0 == [c] + cs;
      assert forall i | 1 <= i < |cs| + 1 :: ([c] + cs)[i] == cs[i - 1];
    }
  }

  /**
   * The offsets tile the stream: chunk i spans [off + size * i, off + size * (i + 1)),
   * so each starts where the previous one ended, and the new offset is the
   * old one plus `size` per chunk.
   */
  lemma {:induction false} CarveOffsets(buf: string, size: nat, pos: nat, off: nat)
    requires size > 0
    ensures forall i | 0 <= i < |Carve(buf, size, pos, off).0| ::
      Carve(buf, size, pos, off).0[i].metadata == OffsetMeta(size, off + size * i, off + size * (i + 1))
    ensures Carve(buf, size, pos, off).1.charOffset == off + size * |Carve(buf, size, pos, off).0|
    decreases |buf|
  {
    if |buf| >= size {
      var cs := Carve(buf[size..], size, pos + 1, off + size).0;
      CarveOffsets(buf[size..], size, pos + 1, off + size);
      var c := Chunk(buf[..size], pos, OffsetMeta(size, off, off + size));
      var all := [c] + cs;
      assert Carve(buf, size, pos, off).0 == all;
      forall i | 1 <= i < |all|
        ensures all[i].metadata == OffsetMeta(size, off + size * i, off + size * (i + 1))
      {
        assert all[i] == cs[i - 1];
        assert off + size + size * (i - 1) == off + size * i;
        assert off + size + size * i == off + size * (i + 1);
      }
      assert off + size + size * |cs| == off + size * |all|;
    }
  }

  /** No character is lost or added: the loop chunks followed by the new buffer are the old buffer. */
  lemma {:induction false} CarveConserves(buf: string, size: nat, pos: nat, off: nat)
    requires size > 0
    ensures Concat(Texts(Carve(buf, size, pos, off).0)) + Carve(buf, size, pos, off).1.buffer == buf
    decreases |buf|
  {
    if |buf| >= size {
      var (cs, t) := Carve(buf[size..], size, pos + 1, off + size);
      CarveConserves(buf[size..], size, pos + 1, off + size);
      var c := Chunk(buf[..size], pos, OffsetMeta(size, off, off + size));
      assert Carve(buf, size, pos, off).0 == [c] + cs;
      var ts := Texts([c] + cs);
      TextsCons(c, cs);
      assert ts[0] == c.text && ts[1..] == Texts(cs);
      assert Concat(ts) == c.text + Concat(Texts(cs));
      AppendAssoc(c.text, Concat(Texts(cs)), t.buffer);
      assert buf == buf[..size] + buf[size..];
    }
  }

  /**
   * The end flush emits the trimmed remainder only when it is non-empty, with
   * char_end = char_start + its length, and it neither clears the buffer nor
   * advances the position.
   */
  lemma FlushShape(s: State, size: nat, data: string, isEnd: bool)
    requires size > 0
    ensures var (cs, t) := Step(s, size, data, isEnd);
      var loop := Carve(s.buffer + data, size, s.position, s.charOffset);
      && t == loop.1
      && cs[..|loop.0|] == loop.0
      && (|cs| == |loop.0| + 1 <==> isEnd && Trim(t.buffer) != [])
      && (|cs| == |loop.0| + 1 ==>
            var c := cs[|loop.0|];
            && c.text == Trim(t.buffer)
            && c.position == t.position
            && c.metadata == OffsetMeta(size, t.charOffset, t.charOffset + |c.text|))
      && |cs| <= |loop.0| + 1
  {
  }

  /** Twenty-five 'A's in slices of ten: lengths 10, 10 and 5, spanning 0-10, 10-20 and 20-25. */
  lemma TwentyFiveAs()
    ensures var cs := Step(Initial, 10, seq(25, _ => 'A'), true).0;
      && |cs| == 3
      && |cs[0].text| == 10 && |cs[1].text| == 10 && |cs[2].text| == 5
      && cs[0].metadata == OffsetMeta(10, 0, 10)
      && cs[1].metadata == OffsetMeta(10, 10, 20)
      && cs[2].metadata == OffsetMeta(10, 20, 25)
  {
    var b := seq(25, _ => 'A');
    assert Initial.buffer + b == b;
    var rest := b[10..][10..];
    assert |rest| == 5 && rest[0] == 'A' && rest[4] == 'A';
    TrimmedIsFixed(rest);
    var c0 := Chunk(b[..10], 0, OffsetMeta(10, 0, 10));
    var c1 := Chunk(b[10..][..10], 1, OffsetMeta(10, 10, 20));
    assert Carve(rest, 10, 2, 20) == ([], State(rest, 2, 20));
    assert |b[10..]| == 15;
    assert Carve(b[10..], 10, 1, 10).0 == [c1] + [];
    assert Carve(b[10..], 10, 1, 10).1 == State(rest, 2, 20);
    assert Carve(b, 10, 0, 0).0 == [c0] + [c1];
    assert Carve(b, 10, 0, 0).1 == State(rest, 2, 20);
    assert Flush(State(rest, 2, 20), 10, true) == [Chunk(rest, 2, OffsetMeta(10, 20, 25))];
  }

  /** Twenty 'A's: exactly two chunks, spanning 0-10 and 10-20, and nothing to flush. */
  lemma TwentyAs()
    ensures var cs := Step(Initial, 10, seq(20, _ => 'A'), true).0;
      && |cs| == 2
      && cs[0].metadata == OffsetMeta(10, 0, 10)
      && cs[1].metadata == OffsetMeta(10, 10, 20)
  {
    var b := seq(20, _ => 'A');
    assert Initial.buffer + b == b;
    var rest := b[10..][10..];
    assert rest == [];
    var c0 := Chunk(b[..10], 0, OffsetMeta(10, 0, 10));
    var c1 := Chunk(b[10..][..10], 1, OffsetMeta(10, 10, 20));
    assert Carve(rest, 10, 2, 20) == ([], State(rest, 2, 20));
    assert |b[10..]| == 10;
    assert Carve(b[10..], 10, 1, 10).0 == [c1] + [];
    assert Carve(b[10..], 10, 1, 10).1 == State(rest, 2, 20);
    assert Carve(b, 10, 0, 0).0 == [c0] + [c1];
    assert Carve(b, 10, 0, 0).1 == State(rest, 2, 20);
  }

  class FixedSizeStrategy {
    const chunkSize: nat
    var buffer: string
    var position: nat
    var charOffset: nat

    function Current(): State
      reads this
    {
      State(buffer, position, charOffset)
    }

    /** The constructor for an argument that passed the check. */
    constructor (size: nat)
      requires size > 0
      ensures chunkSize == size && Current() == Initial
    {
      chunkSize := size;
      buffer := "";
      position := 0;
      charOffset := 0;
    }

    /** new FixedSizeChunkingStrategy(chunkSize): fails for a size below 1. */
    static method Create(chunkSize: int) returns (r: Result<FixedSizeStrategy>)
      ensures r.Err? <==> chunkSize <= 0
      ensures r.Err? ==> Some(r.error) == CheckChunkSize(chunkSize)
      ensures r.Ok? ==> fresh(r.value) && r.value.chunkSize == chunkSize && r.value.Current() == Initial
    {
      var check := CheckChunkSize(chunkSize);
      if check.Some? {
        return Err(check.value);
      }
      var strategy := new FixedSizeStrategy(chunkSize);
      return Ok(strategy);
    }

    method Reset()
      modifies this
      ensures Current() == Initial
    {
      buffer := "";
      position := 0;
      charOffset := 0;
    }

    method Process(data: string, isEnd: bool) returns (chunks: seq<Chunk>)
      requires chunkSize > 0
      modifies this
      ensures (chunks, Current()) == Step(old(Current()), chunkSize, data, isEnd)
    {
      ghost var s0 := Current();
      buffer := buffer + data;
      var rest, pos, off;
      chunks, rest, pos, off := CarveLoop(buffer, chunkSize, position, charOffset);
      buffer, position, charOffset := rest, pos, off;
      if isEnd && buffer != [] {
        var trimmed := Trim(buffer);
        if trimmed != [] {
          var start := charOffset;
          chunks := chunks + [Chunk(trimmed, position, OffsetMeta(chunkSize, start, start + |trimmed|))];
        }
      }
      ghost var r := Step(s0, chunkSize, data, isEnd);
      assert r.1 == State(buffer, position, charOffset);
      assert r.0 == chunks;
    }
  }

  /** The loop of lines 35-54 on local copies of the fields. */
  method CarveLoop(buf0: string, size: nat, pos0: nat, off0: nat)
    returns (chunks: seq<Chunk>, buf: string, pos: nat, off: nat)
    requires size > 0
    ensures (chunks, State(buf, pos, off)) == Carve(buf0, size, pos0, off0)
  {
    chunks, buf, pos, off := [], buf0, pos0, off0;
    assert chunks + Carve(buf, size, pos, off).0 == Carve(buf, size, pos, off).0;
    while |buf| >= size
      invariant Carve(buf0, size, pos0, off0).0 == chunks + Carve(buf, size, pos, off).0
      invariant Carve(buf0, size, pos0, off0).1 == Carve(buf, size, pos, off).1
      decreases |buf|
    {
      ghost var next := Carve(buf[size..], size, pos + 1, off + size);
      assert Carve(buf, size, pos, off).0 == [Chunk(buf[..size], pos, OffsetMeta(size, off, off + size))] + next.0;
      var text := buf[..size];
      buf := buf[size..];
      var start := off;
      off := off + size;
      chunks := chunks + [Chunk(text, pos, OffsetMeta(size, start, off))];
      pos := pos + 1;
    }
    assert Carve(buf, size, pos, off) == ([], State(buf, pos, off));
    assert chunks + [] == chunks;
  }
}
