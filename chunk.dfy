/**
 * The Chunk value object (src/ValueObject/Chunk.php) and the bookkeeping every
 * strategy shares: consecutive positions and the `strategy`/`length` metadata.
 */
module Chunks {
  import opened TextUtil

  /** The values PHP metadata arrays hold in this library. */
  datatype MetaValue = IntValue(i: int) | StrValue(s: string) | BoolValue(b: bool) | NullValue

  /** A PHP array with string keys; key order is not modelled. */
  type Metadata = map<string, MetaValue>

  /** An immutable piece of text with its index in the stream and free-form metadata. */
  datatype Chunk = Chunk(text: string, position: int := 0, metadata: Metadata := map[])
  {
    /** getLength: the length in characters. */
    function Length(): (n: nat)
      ensures n == |text|
    {
      |text|
    }

    /** withMetadata: array_merge, so a key of m wins over the same key already present. */
    function WithMetadata(m: Metadata): (c: Chunk)
      ensures c.text == text && c.position == position
      ensures c.metadata.Keys == metadata.Keys + m.Keys
      ensures forall k <- m.Keys :: c.metadata[k] == m[k]
      ensures forall k <- metadata.Keys | k !in m.Keys :: c.metadata[k] == metadata[k]
    {
      Chunk(text, position, metadata + m)
    }
  }

  /** The defaults of the constructor: position 0 and no metadata. */
  lemma ChunkDefaults(t: string)
    ensures Chunk(t) == Chunk(t, 0, map[])
    ensures Chunk(t).Length() == |t|
  {
  }

  /** Merging twice is merging once with the union, the second map winning. */
  lemma WithMetadataTwice(c: Chunk, m1: Metadata, m2: Metadata)
    ensures c.WithMetadata(m1).WithMetadata(m2) == c.WithMetadata(m1 + m2)
  {
    assert c.metadata + m1 + m2 == c.metadata + (m1 + m2);
  }

  function Texts(cs: seq<Chunk>): (ts: seq<string>)
    ensures |ts| == |cs| && forall i | 0 <= i < |cs| :: ts[i] == cs[i].text
  {
    seq(|cs|, i requires 0 <= i < |cs| => cs[i].text)
  }

  lemma TextsSnoc(cs: seq<Chunk>, c: Chunk)
    ensures Texts(cs + [c]) == Texts(cs) + [c.text]
  {
  }

  /** Concatenation is associative. */
  lemma AppendAssoc<T>(a: seq<T>, b: seq<T>, c: seq<T>)
    ensures a + (b + c) == (a + b) + c
  {
  }

  /** The groups end to end. */
  function Flatten<T>(gs: seq<seq<T>>): seq<T>
    decreases |gs|
  {
    if gs == [] then [] else gs[0] + Flatten(gs[1..])
  }

  lemma {:induction false} FlattenSnoc<T>(gs: seq<seq<T>>, g: seq<T>)
    ensures Flatten(gs + [g]) == Flatten(gs) + g
    decreases |gs|
  {
    if gs == [] {
      assert gs + [g] == [g];
      assert Flatten([g]) == g + Flatten<T>([]);
    } else {
      assert (gs + [g])[1..] == gs[1..] + [g];
      FlattenSnoc(gs[1..], g);
    }
  }

  lemma TextsAppend(a: seq<Chunk>, b: seq<Chunk>)
    ensures Texts(a + b) == Texts(a) + Texts(b)
  {
  }

  lemma TextsCons(c: Chunk, cs: seq<Chunk>)
    ensures Texts([c] + cs) == [c.text] + Texts(cs)
  {
  }

  /** Positions start at `start` and go up by one. */
  predicate Consecutive(cs: seq<Chunk>, start: int) {
    forall i | 0 <= i < |cs| :: cs[i].position == start + i
  }

  lemma ConsecutiveAppend(a: seq<Chunk>, b: seq<Chunk>, start: int)
    requires Consecutive(a, start) && Consecutive(b, start + |a|)
    ensures Consecutive(a + b, start)
  {
    forall i | 0 <= i < |a + b|
      ensures (a + b)[i].position == start + i
    {
      if i >= |a| {
        assert (a + b)[i] == b[i - |a|];
      }
    }
  }

  /** The `strategy` and `length` metadata of the paragraph, sentence and regex strategies. */
  function LengthMeta(name: string, t: string): Metadata {
    map["strategy" := StrValue(name), "length" := IntValue(|t|)]
  }

  /** The trimmed parts, in order, with the blank ones left out. */
  function NonBlank(parts: seq<string>): seq<string>
    decreases |parts|
  {
    if parts == [] then []
    else
      var t := Trim(Last(parts));
      NonBlank(Init(parts)) + (if t == [] then [] else [t])
  }

  /** No more texts than parts, each non-empty and trimmed. */
  lemma {:induction false} NonBlankShape(parts: seq<string>)
    ensures |NonBlank(parts)| <= |parts|
    ensures forall t <- NonBlank(parts) :: t != [] && IsTrimmed(t)
    decreases |parts|
  {
    if parts != [] {
      NonBlankShape(Init(parts));
      TrimShape(Last(parts));
    }
  }

  lemma {:induction false} NonBlankAppend(a: seq<string>, b: seq<string>)
    ensures NonBlank(a + b) == NonBlank(a) + NonBlank(b)
    decreases |b|
  {
    if b == [] {
      assert a + b == a;
    } else {
      assert Init(a + b) == a + Init(b);
      assert Last(a + b) == Last(b);
      NonBlankAppend(a, Init(b));
    }
  }

  /** One step of a foreach loop over the parts. */
  lemma NonBlankSnoc(prefix: seq<string>, p: string)
    ensures NonBlank(prefix + [p]) == NonBlank(prefix) + if Trim(p) == [] then [] else [Trim(p)]
  {
    assert Init(prefix + [p]) == prefix && Last(prefix + [p]) == p;
  }

  /** A property every trimmed part has is a property of every surviving text. */
  lemma {:induction false} NonBlankKeeps(parts: seq<string>, P: string -> bool)
    requires forall p <- parts :: P(Trim(p))
    ensures forall t <- NonBlank(parts) :: P(t)
    decreases |parts|
  {
    if parts != [] {
      assert forall p <- Init(parts) :: p in parts;
      assert Last(parts) in parts;
      NonBlankKeeps(Init(parts), P);
    }
  }

  /** Parts that are already trimmed and non-empty all survive, unchanged. */
  lemma {:induction false} NonBlankOfTrimmed(parts: seq<string>)
    requires forall i | 0 <= i < |parts| :: parts[i] != [] && IsTrimmed(parts[i])
    ensures NonBlank(parts) == parts
    decreases |parts|
  {
    if parts != [] {
      InitLast(parts);
      var p := Last(parts);
      NonBlankOfTrimmed(Init(parts));
      TrimmedIsFixed(p);
      assert NonBlank(parts) == Init(parts) + [p];
    }
  }

  /** A part survives exactly when its trim is non-empty. */
  lemma NonBlankSingle(p: string)
    ensures NonBlank([p]) == if Trim(p) == [] then [] else [Trim(p)]
  {
    assert Init([p]) == [];
  }

  /**
   * The foreach loop of the paragraph, sentence and regex strategies: one chunk
   * per part whose trim is non-empty, numbered from `start`.
   */
  function TrimmedChunks(parts: seq<string>, start: int, name: string): seq<Chunk>
    decreases |parts|
  {
    if parts == [] then []
    else
      var cs := TrimmedChunks(Init(parts), start, name);
      var t := Trim(Last(parts));
      if t == [] then cs else cs + [Chunk(t, start + |cs|, LengthMeta(name, t))]
  }

  /** One more part adds at most one chunk, numbered after the others. */
  lemma TrimmedChunksSnoc(prefix: seq<string>, p: string, start: int, name: string)
    ensures TrimmedChunks(prefix + [p], start, name) ==
      var cs := TrimmedChunks(prefix, start, name);
      var t := Trim(p);
      if t == [] then cs else cs + [Chunk(t, start + |cs|, LengthMeta(name, t))]
  {
    assert Init(prefix + [p]) == prefix && Last(prefix + [p]) == p;
  }

  /**
   * Those chunks are the non-blank trimmed parts in order, numbered from `start`,
   * each tagged with the strategy name and its own length.
   */
  lemma {:induction false} TrimmedChunksShape(parts: seq<string>, start: int, name: string)
    ensures var cs := TrimmedChunks(parts, start, name);
      && Texts(cs) == NonBlank(parts)
      && Consecutive(cs, start)
      && forall c <- cs :: c.text != [] && IsTrimmed(c.text) && c.metadata == LengthMeta(name, c.text)
    decreases |parts|
  {
    if parts != [] {
      TrimmedChunksShape(Init(parts), start, name);
      var cs := TrimmedChunks(Init(parts), start, name);
      var t := Trim(Last(parts));
      TrimShape(Last(parts));
      if t != [] {
        TextsSnoc(cs, Chunk(t, start + |cs|, LengthMeta(name, t)));
      }
    }
  }

  /** A property of every trimmed part is a property of every emitted text. */
  lemma {:induction false} TrimmedChunksKeep(parts: seq<string>, start: int, name: string, P: string -> bool)
    requires forall p <- parts :: P(Trim(p))
    ensures forall c <- TrimmedChunks(parts, start, name) :: P(c.text)
    decreases |parts|
  {
    if parts != [] {
      assert forall p <- Init(parts) :: p in parts;
      assert Last(parts) in parts;
      TrimmedChunksKeep(Init(parts), start, name, P);
    }
  }

  /** The yield loop itself: trim each part, skip the blank ones, count positions up from `start`. */
  method EmitTrimmedParts(parts: seq<string>, start: int, name: string) returns (chunks: seq<Chunk>)
    ensures chunks == TrimmedChunks(parts, start, name)
  {
    chunks := [];
    var position := start;
    for i := 0 to |parts|
      invariant chunks == TrimmedChunks(parts[..i], start, name)
      invariant position == start + |chunks|
    {
      var trimmed := Trim(parts[i]);
      assert parts[..i + 1] == parts[..i] + [parts[i]];
      TrimmedChunksSnoc(parts[..i], parts[i], start, name);
      if trimmed == [] {
        continue;
      }
      chunks := chunks + [Chunk(trimmed, position, LengthMeta(name, trimmed))];
      position := position + 1;
    }
    assert parts[..|parts|] == parts;
  }
}
