/**
 * MetadataEnricherPostProcessor: all chunks are buffered first, so that each
 * can then be tagged with its index, the total count, its character count and
 * the base name of the source.
 */
module Enricher {
  import opened Wrappers
  import opened TextUtil
  import opened Chunks

  /** The source with its trailing slashes removed. */
  function StripTrailingSlashes(s: string): (r: string)
    ensures |r| <= |s| && r == s[..|r|]
    ensures r == [] || r[|r| - 1] != '/'
    decreases |s|
  {
    if s != [] && s[|s| - 1] == '/' then StripTrailingSlashes(s[..|s| - 1]) else s
  }

  /** basename: the last '/'-separated component, ignoring trailing slashes. */
  function Basename(s: string): string {
    var t := StripTrailingSlashes(s);
    match LastIndexOfChar(t, '/')
    case None => t
    case Some(i) => t[i + 1..]
  }

  /** The `source` entry: the base name of a non-empty source, else ''. */
  function SourceLabel(source: string): string {
    if source != "" then Basename(source) else ""
  }

  /** The entries added to chunk `index` of `total` (position_percentage and word_count are not modelled). */
  function EnrichMeta(index: nat, total: nat, text: string, source: string): Metadata {
    map[
      "chunk_index" := IntValue(index),
      "total_chunks" := IntValue(total),
      "char_count" := IntValue(|text|),
      "source" := StrValue(SourceLabel(source))
    ]
  }

  /** process: every chunk, in order, merged with its entries. */
  function Apply(cs: seq<Chunk>, source: string): seq<Chunk> {
    seq(|cs|, i requires 0 <= i < |cs| => cs[i].WithMetadata(EnrichMeta(i, |cs|, cs[i].text, source)))
  }

  /** The two loops of process: buffer the whole input, then tag each chunk. */
  method Process(chunks: seq<Chunk>, source: string) returns (out: seq<Chunk>)
    ensures out == Apply(chunks, source)
  {
    var bufferedChunks: seq<Chunk> := [];
    for i := 0 to |chunks|
      invariant bufferedChunks == chunks[..i]
    {
      bufferedChunks := bufferedChunks + [chunks[i]];
    }
    assert chunks[..|chunks|] == chunks;
    var totalChunks := |bufferedChunks|;
    out := [];
    for index := 0 to totalChunks
      invariant |out| == index
      invariant forall k | 0 <= k < index ::
        out[k] == bufferedChunks[k].WithMetadata(EnrichMeta(k, totalChunks, bufferedChunks[k].text, source))
    {
      var chunk := bufferedChunks[index];
      out := out + [chunk.WithMetadata(EnrichMeta(index, totalChunks, chunk.text, source))];
    }
  }

  // ---------------------------------------------------------------- properties

  /**
   * Same count and order; text and position unchanged; chunk_index is the
   * 0-based index, total_chunks the count, char_count the text length and
   * source the label; every other key keeps its value.
   */
  lemma ApplySpec(cs: seq<Chunk>, source: string)
    ensures |Apply(cs, source)| == |cs|
    ensures forall i | 0 <= i < |cs| ::
      var c := Apply(cs, source)[i];
      && c.text == cs[i].text && c.position == cs[i].position
      && c.metadata.Keys == cs[i].metadata.Keys + {"chunk_index", "total_chunks", "char_count", "source"}
      && c.metadata["chunk_index"] == IntValue(i)
      && c.metadata["total_chunks"] == IntValue(|cs|)
      && c.metadata["char_count"] == IntValue(|cs[i].text|)
      && c.metadata["source"] == StrValue(SourceLabel(source))
      && forall k <- cs[i].metadata.Keys | k !in {"chunk_index", "total_chunks", "char_count", "source"} ::
        c.metadata[k] == cs[i].metadata[k]
  {
  }

  /** A base name holds no '/', and is a piece of the source. */
  lemma BasenameSpec(s: string)
    ensures '/' !in Basename(s)
    ensures exists i | 0 <= i <= |StripTrailingSlashes(s)| :: Basename(s) == StripTrailingSlashes(s)[i..]
  {
    var t := StripTrailingSlashes(s);
    match LastIndexOfChar(t, '/')
    case None =>
      assert Basename(s) == t[0..];
    case Some(i) =>
      assert Basename(s) == t[i + 1..];
  }

  /** '/path/to/file.txt' is labelled 'file.txt'. */
  lemma PathBasename()
    ensures SourceLabel("/path/to/file.txt") == "file.txt"
  {
    var s := "/path/to/file.txt";
    assert s[9..] == "file.txt";
    assert '/' !in "file.txt";
    BasenameAfterSlash(s, 8);
  }

  /** When the last '/' is at k and the source does not end in '/', the base name is what follows k. */
  lemma BasenameAfterSlash(s: string, k: nat)
    requires k < |s| - 1 && s[k] == '/' && '/' !in s[k + 1..]
    ensures Basename(s) == s[k + 1..]
  {
    assert s[|s| - 1] == s[k + 1..][|s| - k - 2];
    assert StripTrailingSlashes(s) == s;
    var r := LastIndexOfChar(s, '/');
    assert r.Some? by { assert s[k] in s; }
    forall j | k < j < |s| ensures s[j] != '/' {
      assert s[j] == s[k + 1..][j - k - 1];
    }
    assert r.value == k;
  }
}
