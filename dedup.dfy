/**
 * DeduplicationPostProcessor: within one call to process, only the first chunk
 * with a given content hash passes; it is re-created with the hash added to its
 * metadata as `content_hash`. The hash function (md5 in the library) is a
 * parameter of the model.
 */
module Dedup {
  import opened TextUtil
  import opened Chunks

  /** The content hash of a text. */
  type Hash = string -> string

  /** The chunk that is yielded: same text and position, metadata plus the hash. */
  function Tag(c: Chunk, h: string): Chunk {
    Chunk(c.text, c.position, c.metadata + map["content_hash" := StrValue(h)])
  }

  /** The hashes of the chunks in cs: the `seen` set after them. */
  function Hashes(hash: Hash, cs: seq<Chunk>): set<string> {
    set i | 0 <= i < |cs| :: hash(cs[i].text)
  }

  /** process: the foreach loop, one chunk at a time, with `seen` the hashes of the chunks before. */
  function Apply(hash: Hash, cs: seq<Chunk>): seq<Chunk>
    decreases |cs|
  {
    if cs == [] then []
    else
      var p, c := Init(cs), Last(cs);
      Apply(hash, p) + if hash(c.text) in Hashes(hash, p) then [] else [Tag(c, hash(c.text))]
  }

  /** The indices of the chunks that pass, in increasing order. */
  function KeptIndices(hash: Hash, cs: seq<Chunk>): seq<nat>
    decreases |cs|
  {
    if cs == [] then []
    else
      var p, c := Init(cs), Last(cs);
      KeptIndices(hash, p) + if hash(c.text) in Hashes(hash, p) then [] else [|cs| - 1]
  }

  /** No chunk before index i has the hash of chunk i. */
  predicate FirstWithHash(hash: Hash, cs: seq<Chunk>, i: nat)
    requires i < |cs|
  {
    forall j | 0 <= j < i :: hash(cs[j].text) != hash(cs[i].text)
  }

  // ---------------------------------------------------------------- the class

  class DeduplicationPostProcessor {
    const hash: Hash
    /** Hashes of the chunks let through by the last call. */
    var seen: set<string>

    constructor(hash: Hash)
      ensures this.hash == hash && seen == {}
    {
      this.hash := hash;
      seen := {};
    }

    /**
     * seen is cleared first, so the output depends on the input alone; afterwards
     * seen holds the hash of every input chunk.
     */
    method Process(cs: seq<Chunk>) returns (out: seq<Chunk>)
      modifies this
      ensures out == Apply(hash, cs)
      ensures seen == Hashes(hash, cs)
    {
      var s: set<string> := {};
      out := [];
      for i := 0 to |cs|
        invariant s == Hashes(hash, cs[..i])
        invariant out == Apply(hash, cs[..i])
      {
        var chunk := cs[i];
        var h := hash(chunk.text);
        assert cs[..i + 1] == cs[..i] + [chunk];
        ApplySnoc(hash, cs[..i], chunk);
        HashesSnoc(hash, cs[..i], chunk);
        if h in s {
          continue;
        }
        s := s + {h};
        out := out + [Tag(chunk, h)];
      }
      assert cs[..|cs|] == cs;
      seen := s;
    }
  }

  /** One more chunk passes, tagged, exactly when its hash is new. */
  lemma ApplySnoc(hash: Hash, cs: seq<Chunk>, c: Chunk)
    ensures Apply(hash, cs + [c]) == Apply(hash, cs) + if hash(c.text) in Hashes(hash, cs) then [] else [Tag(c, hash(c.text))]
  {
    assert Init(cs + [c]) == cs && Last(cs + [c]) == c;
  }

  lemma HashesSnoc(hash: Hash, cs: seq<Chunk>, c: Chunk)
    ensures Hashes(hash, cs + [c]) == Hashes(hash, cs) + {hash(c.text)}
  {
    var a := cs + [c];
    assert forall i | 0 <= i < |cs| :: a[i] == cs[i];
    assert a[|cs|] == c;
  }

  // ---------------------------------------------------------------- properties

  /**
   * The output is the subsequence of first occurrences: chunk i passes exactly
   * when no earlier chunk has its hash, and it comes out tagged with its hash.
   */
  lemma ApplySpec(hash: Hash, cs: seq<Chunk>)
    ensures var out, idx := Apply(hash, cs), KeptIndices(hash, cs);
      && |idx| == |out|
      && (forall k | 0 <= k < |idx| :: idx[k] < |cs| && out[k] == Tag(cs[idx[k]], hash(cs[idx[k]].text)))
      && (forall k, l | 0 <= k < l < |idx| :: idx[k] < idx[l])
    ensures forall i | 0 <= i < |cs| :: i in KeptIndices(hash, cs) <==> FirstWithHash(hash, cs, i)
  {
    ApplyPicks(hash, cs);
    KeptIffFirst(hash, cs);
  }

  lemma {:induction false} ApplyPicks(hash: Hash, cs: seq<Chunk>)
    ensures var out, idx := Apply(hash, cs), KeptIndices(hash, cs);
      && |idx| == |out|
      && (forall k | 0 <= k < |idx| :: idx[k] < |cs| && out[k] == Tag(cs[idx[k]], hash(cs[idx[k]].text)))
      && (forall k, l | 0 <= k < l < |idx| :: idx[k] < idx[l])
    decreases |cs|
  {
    if cs != [] {
      var p := Init(cs);
      InitLast(cs);
      ApplyPicks(hash, p);
    }
  }

  lemma {:induction false} KeptBound(hash: Hash, cs: seq<Chunk>)
    ensures forall k | k in KeptIndices(hash, cs) :: k < |cs|
    decreases |cs|
  {
    if cs != [] {
      KeptBound(hash, Init(cs));
    }
  }

  lemma {:induction false} KeptIffFirst(hash: Hash, cs: seq<Chunk>)
    ensures forall i | 0 <= i < |cs| :: i in KeptIndices(hash, cs) <==> FirstWithHash(hash, cs, i)
    decreases |cs|
  {
    if cs != [] {
      var p, c := Init(cs), Last(cs);
      KeptIffFirst(hash, p);
      InitLast(cs);
      KeptBound(hash, p);
      forall i | 0 <= i < |cs|
        ensures i in KeptIndices(hash, cs) <==> FirstWithHash(hash, cs, i)
      {
        if i < |p| {
          assert FirstWithHash(hash, cs, i) == FirstWithHash(hash, p, i);
        } else {
          assert i == |cs| - 1;
          if FirstWithHash(hash, cs, i) {
            assert hash(c.text) !in Hashes(hash, p);
          } else {
            var j :| 0 <= j < i && hash(cs[j].text) == hash(cs[i].text);
            assert hash(p[j].text) in Hashes(hash, p);
          }
        }
      }
    }
  }

  /** Text and position are kept, and the hash is recorded under content_hash. */
  lemma TagSpec(c: Chunk, h: string)
    ensures Tag(c, h).text == c.text && Tag(c, h).position == c.position
    ensures Tag(c, h).metadata.Keys == c.metadata.Keys + {"content_hash"}
    ensures Tag(c, h).metadata["content_hash"] == StrValue(h)
    ensures forall k <- c.metadata.Keys | k != "content_hash" :: Tag(c, h).metadata[k] == c.metadata[k]
  {
  }

  /** Every output chunk carries the hash of its own text. */
  lemma {:induction false} Tagged(hash: Hash, cs: seq<Chunk>)
    ensures forall c <- Apply(hash, cs) :: "content_hash" in c.metadata && c.metadata["content_hash"] == StrValue(hash(c.text))
    decreases |cs|
  {
    if cs != [] {
      Tagged(hash, Init(cs));
    }
  }

  /** No two output chunks share a hash. */
  lemma {:induction false} DistinctHashes(hash: Hash, cs: seq<Chunk>)
    ensures forall k, l | 0 <= k < l < |Apply(hash, cs)| :: hash(Apply(hash, cs)[k].text) != hash(Apply(hash, cs)[l].text)
    ensures Hashes(hash, Apply(hash, cs)) == Hashes(hash, cs)
    decreases |cs|
  {
    if cs != [] {
      var p, c := Init(cs), Last(cs);
      DistinctHashes(hash, p);
      var a := Apply(hash, p);
      assert cs == p + [c];
      HashesSnoc(hash, p, c);
      if hash(c.text) !in Hashes(hash, p) {
        var t := Tag(c, hash(c.text));
        HashesSnoc(hash, a, t);
        var out := a + [t];
        assert Apply(hash, cs) == out;
        assert Hashes(hash, out) == Hashes(hash, a) + {hash(c.text)};
        forall k, l | 0 <= k < l < |out| ensures hash(out[k].text) != hash(out[l].text) {
          if l == |a| {
            assert out[k] == a[k];
            assert hash(a[k].text) in Hashes(hash, a);
          } else {
            assert out[k] == a[k] && out[l] == a[l];
          }
        }
      } else {
        assert Apply(hash, cs) == a + [];
        assert a + [] == a;
      }
    }
  }

  /** With pairwise distinct hashes, every chunk passes and is tagged. */
  lemma {:induction false} DistinctAllPass(hash: Hash, cs: seq<Chunk>)
    requires forall k, l | 0 <= k < l < |cs| :: hash(cs[k].text) != hash(cs[l].text)
    ensures |Apply(hash, cs)| == |cs|
    ensures forall i | 0 <= i < |cs| :: Apply(hash, cs)[i] == Tag(cs[i], hash(cs[i].text))
    decreases |cs|
  {
    if cs != [] {
      var p, c := Init(cs), Last(cs);
      assert forall i | 0 <= i < |p| :: cs[i] == p[i];
      DistinctAllPass(hash, p);
      assert hash(c.text) !in Hashes(hash, p);
    }
  }

  /** Deduplicating the output again keeps every chunk and changes nothing. */
  lemma Idempotent(hash: Hash, cs: seq<Chunk>)
    ensures Apply(hash, Apply(hash, cs)) == Apply(hash, cs)
  {
    var out := Apply(hash, cs);
    assert forall k, l | 0 <= k < l < |out| :: hash(out[k].text) != hash(out[l].text) by {
      DistinctHashes(hash, cs);
    }
    DistinctAllPass(hash, out);
    Tagged(hash, cs);
    forall i | 0 <= i < |out| ensures Apply(hash, out)[i] == out[i] {
      assert out[i] in out;
      TagTwice(out[i], hash(out[i].text));
    }
  }

  /** Tagging a chunk again with the hash it already carries changes nothing. */
  lemma TagTwice(c: Chunk, h: string)
    requires "content_hash" in c.metadata && c.metadata["content_hash"] == StrValue(h)
    ensures Tag(c, h) == c
  {
    assert c.metadata + map["content_hash" := StrValue(h)] == c.metadata;
  }
}
