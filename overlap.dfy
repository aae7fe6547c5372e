/**
 * OverlappingChunkPostProcessor: every chunk after the first is prefixed with
 * the last overlapSize characters of the chunk emitted just before it (the
 * emitted chunk, which already carries its own overlap).
 */
module Overlap {
  import opened Wrappers
  import opened Chunks

  datatype Config = Config(overlapSize: nat)

  /** The constructor: a negative overlap is refused. */
  function Create(overlapSize: int): (r: Result<Config>)
    ensures r.Ok? <==> overlapSize >= 0
    ensures r.Ok? ==> r.value.overlapSize == overlapSize
    ensures r.Err? ==> r.error == InvalidArgument("Overlap size must be >= 0")
  {
    if overlapSize < 0 then Err(InvalidArgument("Overlap size must be >= 0"))
    else Ok(Config(overlapSize))
  }

  /** mb_substr(s, -k) for k > 0: the last k characters, or all of s when it is shorter. */
  function Tail(s: string, k: nat): (t: string)
    ensures |t| == if k < |s| then k else |s|
    ensures t == s[|s| - |t|..]
  {
    if k >= |s| then s else s[|s| - k..]
  }

  /** The overlap_size and has_overlap entries. */
  function OverlapMeta(k: nat): Metadata {
    map["overlap_size" := IntValue(k), "has_overlap" := BoolValue(true)]
  }

  /** One iteration of the loop: the chunk as yielded, given the chunk yielded before it. */
  function Next(k: nat, previous: Option<Chunk>, c: Chunk): Chunk {
    if previous.Some? && k > 0 then
      Chunk(Tail(previous.value.text, k) + c.text, c.position, c.metadata + OverlapMeta(k))
    else c
  }

  /** The rest of the loop, from a given previous chunk. */
  function From(k: nat, cs: seq<Chunk>, previous: Option<Chunk>): seq<Chunk>
    decreases |cs|
  {
    if cs == [] then []
    else
      var c := Next(k, previous, cs[0]);
      [c] + From(k, cs[1..], Some(c))
  }

  /** process: the loop from no previous chunk. */
  function Apply(cfg: Config, cs: seq<Chunk>): seq<Chunk> {
    From(cfg.overlapSize, cs, None)
  }

  /** The foreach loop with its previousChunk carry. */
  method Process(cfg: Config, cs: seq<Chunk>) returns (out: seq<Chunk>)
    ensures out == Apply(cfg, cs)
  {
    var k := cfg.overlapSize;
    var previous: Option<Chunk> := None;
    out := [];
    for i := 0 to |cs|
      invariant Apply(cfg, cs) == out + From(k, cs[i..], previous)
    {
      ghost var rest := cs[i..];
      assert rest[0] == cs[i] && rest[1..] == cs[i + 1..];
      var chunk := cs[i];
      if previous.Some? && k > 0 {
        var overlapText := Tail(previous.value.text, k);
        chunk := Chunk(overlapText + chunk.text, chunk.position, chunk.metadata + OverlapMeta(k));
      }
      AppendAssoc(out, [chunk], From(k, cs[i + 1..], Some(chunk)));
      out := out + [chunk];
      previous := Some(chunk);
    }
    assert cs[|cs|..] == [];
    assert out + [] == out;
  }

  // ---------------------------------------------------------------- properties

  /**
   * As many chunks out as in; chunk i keeps its position, and for i > 0 with a
   * positive overlap its text is the tail of output i - 1 followed by its own
   * text, and its metadata gains overlap_size and has_overlap.
   */
  lemma {:induction false} FromSpec(k: nat, cs: seq<Chunk>, previous: Option<Chunk>)
    ensures |From(k, cs, previous)| == |cs|
    ensures forall i | 0 <= i < |cs| ::
      From(k, cs, previous)[i] == Next(k, if i == 0 then previous else Some(From(k, cs, previous)[i - 1]), cs[i])
    decreases |cs|
  {
    if cs != [] {
      var c := Next(k, previous, cs[0]);
      var tail := From(k, cs[1..], Some(c));
      FromSpec(k, cs[1..], Some(c));
      var out := [c] + tail;
      forall i | 0 <= i < |cs|
        ensures out[i] == Next(k, if i == 0 then previous else Some(out[i - 1]), cs[i])
      {
        if i > 1 {
          assert out[i] == tail[i - 1] && out[i - 1] == tail[i - 2];
          assert cs[i] == cs[1..][i - 1];
        } else if i == 1 {
          assert out[1] == tail[0] && cs[1] == cs[1..][0];
        }
      }
    }
  }

  /** The yielded chunks, one per input chunk, as the loop builds them. */
  lemma ApplySpec(cfg: Config, cs: seq<Chunk>)
    ensures var out, k := Apply(cfg, cs), cfg.overlapSize;
      && |out| == |cs|
      && (cs != [] ==> out[0] == cs[0])
      && forall i | 0 < i < |cs| ::
        && out[i].position == cs[i].position
        && (k > 0 ==> out[i].text == Tail(out[i - 1].text, k) + cs[i].text)
        && (k > 0 ==> out[i].metadata == cs[i].metadata + OverlapMeta(k))
        && (k == 0 ==> out[i] == cs[i])
  {
    var k := cfg.overlapSize;
    FromSpec(k, cs, None);
    var out := Apply(cfg, cs);
    forall i | 0 < i < |cs|
      ensures out[i].position == cs[i].position
      ensures k > 0 ==> out[i].text == Tail(out[i - 1].text, k) + cs[i].text
      ensures k > 0 ==> out[i].metadata == cs[i].metadata + OverlapMeta(k)
      ensures k == 0 ==> out[i] == cs[i]
    {
      assert out[i] == Next(k, Some(out[i - 1]), cs[i]);
    }
  }

  /** Overlap 0 is the identity. */
  lemma ZeroIsIdentity(cs: seq<Chunk>)
    ensures Apply(Config(0), cs) == cs
  {
    ApplySpec(Config(0), cs);
  }

  /** The prefix taken from the previous output is min(overlapSize, its length) characters long. */
  lemma OverlapLength(cfg: Config, cs: seq<Chunk>, i: nat)
    requires 0 < i < |cs| && cfg.overlapSize > 0
    ensures var out := Apply(cfg, cs);
      |out| == |cs| &&
      var n := if cfg.overlapSize < |out[i - 1].text| then cfg.overlapSize else |out[i - 1].text|;
      && |out[i].text| == n + |cs[i].text|
      && out[i].text[..n] == out[i - 1].text[|out[i - 1].text| - n..]
      && out[i].text[n..] == cs[i].text
  {
    ApplySpec(cfg, cs);
  }

  /** 'Hello World' then 'Foo Bar' with overlap 5: the second text starts with 'World'. */
  lemma SecondStartsWithTail()
    ensures var out := Apply(Config(5), [Chunk("Hello World", 0), Chunk("Foo Bar", 1)]);
      |out| == 2 && out[1].text == "WorldFoo Bar" && out[1].text[..5] == "World"
      && out[1].metadata["has_overlap"] == BoolValue(true) && out[1].metadata["overlap_size"] == IntValue(5)
      && "has_overlap" !in out[0].metadata
  {
    var cs := [Chunk("Hello World", 0), Chunk("Foo Bar", 1)];
    var out := Apply(Config(5), cs);
    FromSpec(5, cs, None);
    assert out[0] == cs[0] && out[1] == Next(5, Some(out[0]), cs[1]);
    assert Tail("Hello World", 5) == "World" by {
      assert "Hello World"[6..] == "World";
    }
    assert out[1].text == "World" + "Foo Bar";
    assert "World" + "Foo Bar" == "WorldFoo Bar";
  }
}
