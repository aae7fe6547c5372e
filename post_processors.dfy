/**
 * ChunkPostProcessorInterface as a sum of the seven post-processors, each with
 * its configuration: process(chunks, source) dispatches to the processor's
 * own model. Only the metadata enricher reads the source.
 */
module PostProcessors {
  import opened Chunks
  import Filter
  import Merger
  import Dedup
  import Overlap
  import TokenLimit
  import Normalization
  import Enricher

  datatype PostProcessor =
    | ByFilter(filter: Filter.Config)
    | ByMerger(merger: Merger.Config)
    | ByDedup(hash: Dedup.Hash)
    | ByOverlap(overlap: Overlap.Config)
    | ByTokenLimit(tokenLimit: TokenLimit.Config)
    | ByNormalization(normalization: Normalization.Config)
    | ByEnricher

  /** What each constructor accepts. */
  predicate Valid(pp: PostProcessor) {
    match pp
    case ByMerger(cfg) => cfg.minChunkSize > 0
    case ByTokenLimit(cfg) => TokenLimit.Valid(cfg)
    case _ => true
  }

  predicate AllValid(pps: seq<PostProcessor>) {
    forall i | 0 <= i < |pps| :: Valid(pps[i])
  }

  /** process(chunks, source) of one post-processor. */
  function Apply(pp: PostProcessor, cs: seq<Chunk>, source: string): seq<Chunk>
    requires Valid(pp)
  {
    match pp
    case ByFilter(cfg) => Filter.Apply(cfg, cs)
    case ByMerger(cfg) => Merger.Apply(cfg, cs)
    case ByDedup(hash) => Dedup.Apply(hash, cs)
    case ByOverlap(cfg) => Overlap.Apply(cfg, cs)
    case ByTokenLimit(cfg) => TokenLimit.Apply(cfg, cs)
    case ByNormalization(cfg) => Normalization.Apply(cfg, cs)
    case ByEnricher => Enricher.Apply(cs, source)
  }

  /** The post-processors one after the other, each on the output of the one before. */
  function ApplyAll(pps: seq<PostProcessor>, cs: seq<Chunk>, source: string): seq<Chunk>
    requires AllValid(pps)
    decreases |pps|
  {
    if pps == [] then cs else ApplyAll(pps[1..], Apply(pps[0], cs, source), source)
  }

  /** One post-processor, run through the method that models its loop (the Dedup object is a fresh one). */
  method Run(pp: PostProcessor, cs: seq<Chunk>, source: string) returns (out: seq<Chunk>)
    requires Valid(pp)
    ensures out == Apply(pp, cs, source)
  {
    match pp
    case ByFilter(cfg) =>
      out := Filter.Apply(cfg, cs);
    case ByMerger(cfg) =>
      out := Merger.Process(cfg, cs);
    case ByDedup(hash) =>
      var dedup := new Dedup.DeduplicationPostProcessor(hash);
      out := dedup.Process(cs);
    case ByOverlap(cfg) =>
      out := Overlap.Process(cfg, cs);
    case ByTokenLimit(cfg) =>
      out := TokenLimit.Process(cfg, cs);
    case ByNormalization(cfg) =>
      out := Normalization.Apply(cfg, cs);
    case ByEnricher =>
      out := Enricher.Process(cs, source);
  }

  // ---------------------------------------------------------------- properties

  /** Running a list that is two lists end to end is running the first, then the second. */
  lemma {:induction false} ApplyAllAppend(a: seq<PostProcessor>, b: seq<PostProcessor>, cs: seq<Chunk>, source: string)
    requires AllValid(a) && AllValid(b)
    ensures AllValid(a + b)
    ensures ApplyAll(a + b, cs, source) == ApplyAll(b, ApplyAll(a, cs, source), source)
    decreases |a|
  {
    assert forall i | 0 <= i < |a + b| :: (a + b)[i] == if i < |a| then a[i] else b[i - |a|];
    if a != [] {
      assert (a + b)[1..] == a[1..] + b;
      ApplyAllAppend(a[1..], b, Apply(a[0], cs, source), source);
    } else {
      assert a + b == b;
    }
  }

  /** The post-processors other than the enricher give the same output whatever the source. */
  lemma SourceOnlyForEnricher(pp: PostProcessor, cs: seq<Chunk>, s1: string, s2: string)
    requires Valid(pp) && pp != ByEnricher
    ensures Apply(pp, cs, s1) == Apply(pp, cs, s2)
  {
  }

  /** With no enricher in the list, the source does not matter. */
  lemma {:induction false} ApplyAllSourceFree(pps: seq<PostProcessor>, cs: seq<Chunk>, s1: string, s2: string)
    requires AllValid(pps)
    requires forall i | 0 <= i < |pps| :: pps[i] != ByEnricher
    ensures ApplyAll(pps, cs, s1) == ApplyAll(pps, cs, s2)
    decreases |pps|
  {
    if pps != [] {
      SourceOnlyForEnricher(pps[0], cs, s1, s2);
      var next := Apply(pps[0], cs, s1);
      assert forall i | 0 <= i < |pps[1..]| :: pps[1..][i] == pps[i + 1];
      ApplyAllSourceFree(pps[1..], next, s1, s2);
    }
  }

  /** A single post-processor in the list is that post-processor. */
  lemma ApplyAllOne(pp: PostProcessor, cs: seq<Chunk>, source: string)
    requires Valid(pp)
    ensures AllValid([pp])
    ensures ApplyAll([pp], cs, source) == Apply(pp, cs, source)
  {
    assert [pp][1..] == [];
  }
}
