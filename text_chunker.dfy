/**
 * TextChunker: the entry point. It holds a source (a file path or a text),
 * global metadata and an ordered list of post-processors; chunk(strategy)
 * resets the strategy, streams the source through it, merges the global
 * metadata into every chunk and runs the post-processors in order.
 *
 * The file system is a parameter: setFile is told whether the path exists
 * and is readable, and chunk is given the file's contents (None when fopen
 * fails).
 */
module TextChunking {
  import opened Wrappers
  import opened Chunks
  import Strategies
  import Recursive
  import PostProcessors
  import TextUtil

  /** READ_BUFFER_SIZE: the length of one fread. */
  const ReadBufferSize: nat := 8192

  const NoSourceMessage: string := "No source set. Call setFile() or setText() first."

  // ------------------------------------------------------------ the strategy

  /** ChunkingStrategyInterface: one of the eight streaming strategies, or the recursive one. */
  datatype AnyStrategy =
    | ByStrategy(strategy: Strategies.Strategy)
    | ByRecursive(maxChunkSize: nat, recursive: Recursive.State)

  predicate Valid(a: AnyStrategy) {
    match a
    case ByStrategy(st) => Strategies.Valid(st)
    case ByRecursive(_, s) => s.strategies != [] && Recursive.AllValid(s.strategies)
  }

  function Reset(a: AnyStrategy): AnyStrategy {
    match a
    case ByStrategy(st) => ByStrategy(Strategies.Reset(st))
    case ByRecursive(max, s) => ByRecursive(max, Recursive.ResetState(s))
  }

  function Process(a: AnyStrategy, data: string, isEnd: bool): (seq<Chunk>, AnyStrategy)
    requires Valid(a)
  {
    match a
    case ByStrategy(st) =>
      var r := Strategies.Process(st, data, isEnd);
      (r.0, ByStrategy(r.1))
    case ByRecursive(max, s) =>
      var r := Recursive.Step(s, max, data, isEnd);
      (r.0, ByRecursive(max, r.1))
  }

  /** Processing changes only the state: validity and the reset strategy stay. */
  lemma ProcessKeepsConfig(a: AnyStrategy, data: string, isEnd: bool)
    requires Valid(a)
    ensures Valid(Process(a, data, isEnd).1)
    ensures Reset(Process(a, data, isEnd).1) == Reset(a)
  {
    match a
    case ByStrategy(st) =>
      Strategies.ProcessKeepsConfig(st, data, isEnd);
    case ByRecursive(max, s) =>
      Recursive.StepBounded(s, max, data, isEnd);
  }

  /** A reset strategy stays valid, and resetting twice is resetting once. */
  lemma ResetKeepsConfig(a: AnyStrategy)
    requires Valid(a)
    ensures Valid(Reset(a))
    ensures Reset(Reset(a)) == Reset(a)
  {
    match a
    case ByStrategy(st) =>
      Strategies.ResetKeepsConfig(st);
    case ByRecursive(max, s) =>
      Recursive.ConfigsValid(s.strategies);
      Recursive.ResetStateSpec(s);
  }

  // ------------------------------------------------------------ the pipeline

  /** applyGlobalMetadata: merge the global metadata in when there is any. */
  function WithGlobal(global: Metadata, c: Chunk): Chunk {
    if global != map[] then c.WithMetadata(global) else c
  }

  function WithGlobalAll(global: Metadata, cs: seq<Chunk>): seq<Chunk> {
    seq(|cs|, i requires 0 <= i < |cs| => WithGlobal(global, cs[i]))
  }

  /**
   * The successive freads of a file: full buffers, which leave feof false,
   * then the remainder (possibly empty), after which feof is true.
   */
  function Blocks(content: string): seq<(string, bool)>
    decreases |content|
  {
    if |content| < ReadBufferSize then [(content, true)]
    else [(content[..ReadBufferSize], false)] + Blocks(content[ReadBufferSize..])
  }

  /** generateChunksFromFile from a given block on: each block processed in turn, its chunks with the global metadata. */
  function FromBlocks(a: AnyStrategy, blocks: seq<(string, bool)>, global: Metadata): (seq<Chunk>, AnyStrategy)
    requires Valid(a)
    decreases |blocks|
  {
    if blocks == [] then ([], a)
    else
      var r := Process(a, blocks[0].0, blocks[0].1);
      ProcessKeepsConfig(a, blocks[0].0, blocks[0].1);
      var rest := FromBlocks(r.1, blocks[1..], global);
      (WithGlobalAll(global, r.0) + rest.0, rest.1)
  }

  /**
   * chunk(strategy): the chunks (or the exception) and the strategy afterwards,
   * for a chunker with the given fields; `file` is the file's contents.
   */
  function Chunked(filePath: Option<string>, text: Option<string>, global: Metadata,
                   pps: seq<PostProcessors.PostProcessor>, a: AnyStrategy, file: Option<string>)
    : (seq<Chunk>, AnyStrategy, Option<Error>)
    requires Valid(a) && PostProcessors.AllValid(pps)
  {
    if filePath.None? && text.None? then ([], a, Some(Runtime(NoSourceMessage)))
    else
      var a0 := Reset(a);
      ResetKeepsConfig(a);
      if filePath.Some? then
        if file.None? then ([], a0, Some(Runtime("Failed to open file: " + filePath.value)))
        else
          var r := FromBlocks(a0, Blocks(file.value), global);
          (PostProcessors.ApplyAll(pps, r.0, filePath.value), r.1, None)
      else
        var r := Process(a0, text.value, true);
        (PostProcessors.ApplyAll(pps, WithGlobalAll(global, r.0), ""), r.1, None)
  }

  // ------------------------------------------------------------ the class

  class TextChunker {
    var filePath: Option<string>
    var text: Option<string>
    var globalMetadata: Metadata
    var postProcessors: seq<PostProcessors.PostProcessor>

    predicate Ready()
      reads this
    {
      PostProcessors.AllValid(postProcessors)
    }

    constructor ()
      ensures filePath == None && text == None && globalMetadata == map[] && postProcessors == []
      ensures Ready()
    {
      filePath := None;
      text := None;
      globalMetadata := map[];
      postProcessors := [];
    }

    /** setFile: the path must exist and be readable; it replaces any text. */
    method SetFile(path: string, found: bool, readable: bool) returns (err: Option<Error>)
      modifies this
      ensures err.None? <==> found && readable
      ensures !found ==> err == Some(InvalidArgument("File not found: " + path))
      ensures found && !readable ==> err == Some(InvalidArgument("File not readable: " + path))
      ensures err.Some? ==> filePath == old(filePath) && text == old(text)
      ensures err.None? ==> filePath == Some(path) && text == None
      ensures globalMetadata == old(globalMetadata) && postProcessors == old(postProcessors)
    {
      if !found {
        return Some(InvalidArgument("File not found: " + path));
      }
      if !readable {
        return Some(InvalidArgument("File not readable: " + path));
      }
      filePath := Some(path);
      text := None;
      return None;
    }

    /** setText: the text replaces any file. */
    method SetText(t: string)
      modifies this
      ensures text == Some(t) && filePath == None
      ensures globalMetadata == old(globalMetadata) && postProcessors == old(postProcessors)
    {
      text := Some(t);
      filePath := None;
    }

    /** withMetadata: array_merge, so a later value wins for a key already set. */
    method WithMetadata(m: Metadata)
      modifies this
      ensures globalMetadata == old(globalMetadata) + m
      ensures filePath == old(filePath) && text == old(text) && postProcessors == old(postProcessors)
    {
      globalMetadata := globalMetadata + m;
    }

    method WithPostProcessor(pp: PostProcessors.PostProcessor)
      requires PostProcessors.Valid(pp)
      modifies this
      ensures postProcessors == old(postProcessors) + [pp]
      ensures filePath == old(filePath) && text == old(text) && globalMetadata == old(globalMetadata)
      ensures Ready() <==> old(Ready())
    {
      ghost var before := postProcessors;
      postProcessors := postProcessors + [pp];
      assert forall i | 0 <= i < |before| :: postProcessors[i] == before[i];
      assert postProcessors[|before|] == pp;
    }

    /** withPostProcessors: withPostProcessor for each, in order. */
    method WithPostProcessors(pps: seq<PostProcessors.PostProcessor>)
      requires PostProcessors.AllValid(pps)
      modifies this
      ensures postProcessors == old(postProcessors) + pps
      ensures filePath == old(filePath) && text == old(text) && globalMetadata == old(globalMetadata)
      ensures Ready() <==> old(Ready())
    {
      for i := 0 to |pps|
        invariant postProcessors == old(postProcessors) + pps[..i]
        invariant filePath == old(filePath) && text == old(text) && globalMetadata == old(globalMetadata)
        invariant Ready() <==> old(Ready())
      {
        assert pps[..i + 1] == pps[..i] + [pps[i]];
        WithPostProcessor(pps[i]);
      }
      assert pps[..|pps|] == pps;
    }

    /** chunk(strategy): the chunks or the exception, and the strategy afterwards. */
    method Chunk(a: AnyStrategy, file: Option<string>) returns (chunks: seq<Chunk>, after: AnyStrategy, err: Option<Error>)
      requires Valid(a) && Ready()
      ensures (chunks, after, err) == Chunked(filePath, text, globalMetadata, postProcessors, a, file)
    {
      if filePath.None? && text.None? {
        return [], a, Some(Runtime(NoSourceMessage));
      }
      ResetKeepsConfig(a);
      after := Reset(a);
      var base: seq<Chunk>;
      if filePath.Some? {
        if file.None? {
          return [], after, Some(Runtime("Failed to open file: " + filePath.value));
        }
        base, after := ChunksFromFile(after, file.value, globalMetadata);
      } else {
        var r := Process(after, text.value, true);
        base := ApplyGlobalMetadata(globalMetadata, r.0);
        after := r.1;
      }
      var source := if filePath.Some? then filePath.value else "";
      chunks := ApplyPostProcessors(postProcessors, base, source);
      err := None;
    }
  }

  /** The foreach over one batch of chunks with applyGlobalMetadata. */
  method ApplyGlobalMetadata(global: Metadata, cs: seq<Chunk>) returns (out: seq<Chunk>)
    ensures out == WithGlobalAll(global, cs)
  {
    out := [];
    for i := 0 to |cs|
      invariant |out| == i
      invariant forall k | 0 <= k < i :: out[k] == WithGlobal(global, cs[k])
    {
      var chunk := cs[i];
      if global != map[] {
        chunk := chunk.WithMetadata(global);
      }
      out := out + [chunk];
    }
  }

  /** generateChunksFromFile: fread until feof, each block processed with isEnd = feof. */
  method ChunksFromFile(a0: AnyStrategy, content: string, global: Metadata) returns (out: seq<Chunk>, after: AnyStrategy)
    requires Valid(a0)
    ensures (out, after) == FromBlocks(a0, Blocks(content), global)
  {
    var offset := 0;
    var eof := false;
    out := [];
    after := a0;
    ghost var rest := Blocks(content);
    while !eof
      invariant 0 <= offset <= |content| && Valid(after)
      invariant rest == if eof then [] else Blocks(content[offset..])
      invariant FromBlocks(a0, Blocks(content), global).0 == out + FromBlocks(after, rest, global).0
      invariant FromBlocks(a0, Blocks(content), global).1 == FromBlocks(after, rest, global).1
      decreases !eof, |content| - offset
    {
      var remaining := content[offset..];
      var data := if |remaining| >= ReadBufferSize then remaining[..ReadBufferSize] else remaining;
      offset := offset + |data|;
      eof := |data| < ReadBufferSize;
      assert rest[0] == (data, eof);
      assert eof ==> rest[1..] == [];
      assert !eof ==> rest[1..] == Blocks(content[offset..]) by {
        if !eof {
          assert remaining[ReadBufferSize..] == content[offset..];
        }
      }
      var r := Process(after, data, eof);
      ProcessKeepsConfig(after, data, eof);
      var tagged := ApplyGlobalMetadata(global, r.0);
      AppendAssoc(out, tagged, FromBlocks(r.1, rest[1..], global).0);
      out := out + tagged;
      after := r.1;
      rest := rest[1..];
    }
    assert out + [] == out;
  }

  /** applyPostProcessors: each post-processor on the output of the one before. */
  method ApplyPostProcessors(pps: seq<PostProcessors.PostProcessor>, cs: seq<Chunk>, source: string) returns (out: seq<Chunk>)
    requires PostProcessors.AllValid(pps)
    ensures out == PostProcessors.ApplyAll(pps, cs, source)
  {
    out := cs;
    for i := 0 to |pps|
      invariant PostProcessors.AllValid(pps[i..])
      invariant PostProcessors.ApplyAll(pps, cs, source) == PostProcessors.ApplyAll(pps[i..], out, source)
    {
      ghost var rest := pps[i..];
      assert rest[0] == pps[i] && rest[1..] == pps[i + 1..];
      out := PostProcessors.Run(pps[i], out, source);
    }
  }

  // ------------------------------------------------------------ properties

  /** Every entry of the global metadata is in the chunk's metadata, with the global value. */
  predicate Carries(c: Chunk, global: Metadata) {
    forall k <- global.Keys :: k in c.metadata && c.metadata[k] == global[k]
  }

  /** The texts read, block by block. */
  function BlockTexts(blocks: seq<(string, bool)>): seq<string> {
    seq(|blocks|, i requires 0 <= i < |blocks| => blocks[i].0)
  }

  /**
   * chunk fails exactly when no source is set (the strategy is then not even
   * reset) or the file cannot be opened, with the library's messages.
   */
  lemma ChunkedErrors(filePath: Option<string>, text: Option<string>, global: Metadata,
                      pps: seq<PostProcessors.PostProcessor>, a: AnyStrategy, file: Option<string>)
    requires Valid(a) && PostProcessors.AllValid(pps)
    ensures var (cs, after, err) := Chunked(filePath, text, global, pps, a, file);
      && (err.Some? <==> (filePath.None? && text.None?) || (filePath.Some? && file.None?))
      && (filePath.None? && text.None? ==> err == Some(Runtime(NoSourceMessage)) && after == a)
      && (filePath.Some? && file.None? ==> err == Some(Runtime("Failed to open file: " + filePath.value)) && after == Reset(a))
      && (err.Some? ==> cs == [])
  {
  }

  /** applyGlobalMetadata on each chunk: text and position kept, global entries override the chunk's own. */
  lemma WithGlobalAllSpec(global: Metadata, cs: seq<Chunk>)
    ensures |WithGlobalAll(global, cs)| == |cs|
    ensures forall i | 0 <= i < |cs| ::
      && WithGlobalAll(global, cs)[i].text == cs[i].text
      && WithGlobalAll(global, cs)[i].position == cs[i].position
      && WithGlobalAll(global, cs)[i].metadata == cs[i].metadata + global
      && Carries(WithGlobalAll(global, cs)[i], global)
  {
    forall i | 0 <= i < |cs| ensures WithGlobalAll(global, cs)[i].metadata == cs[i].metadata + global {
      if global == map[] {
        assert cs[i].metadata + global == cs[i].metadata;
      }
    }
  }

  /**
   * The file read block by block: every chunk carries the global metadata,
   * and the strategy keeps its configuration.
   */
  lemma {:induction false} FromBlocksSpec(a: AnyStrategy, blocks: seq<(string, bool)>, global: Metadata)
    requires Valid(a)
    ensures Valid(FromBlocks(a, blocks, global).1)
    ensures Reset(FromBlocks(a, blocks, global).1) == Reset(a)
    ensures forall i | 0 <= i < |FromBlocks(a, blocks, global).0| :: Carries(FromBlocks(a, blocks, global).0[i], global)
    decreases |blocks|
  {
    if blocks != [] {
      var r := Process(a, blocks[0].0, blocks[0].1);
      ProcessKeepsConfig(a, blocks[0].0, blocks[0].1);
      FromBlocksSpec(r.1, blocks[1..], global);
      WithGlobalAllSpec(global, r.0);
      var first := WithGlobalAll(global, r.0);
      var rest := FromBlocks(r.1, blocks[1..], global).0;
      assert FromBlocks(a, blocks, global).0 == first + rest;
      forall i | 0 <= i < |first + rest| ensures Carries((first + rest)[i], global) {
        if i >= |first| {
          assert (first + rest)[i] == rest[i - |first|];
        }
      }
    }
  }

  /**
   * The freads of a file: at least one; together they are the file; every
   * block but the last is a full buffer read with feof false; the last is
   * shorter than a buffer and read with feof true.
   */
  lemma {:induction false} BlocksSpec(content: string)
    ensures |Blocks(content)| >= 1
    ensures TextUtil.Concat(BlockTexts(Blocks(content))) == content
    ensures Blocks(content)[|Blocks(content)| - 1].1
    ensures |Blocks(content)[|Blocks(content)| - 1].0| < ReadBufferSize
    ensures forall i | 0 <= i < |Blocks(content)| - 1 :: !Blocks(content)[i].1 && |Blocks(content)[i].0| == ReadBufferSize
    decreases |content|
  {
    if |content| < ReadBufferSize {
      assert BlockTexts(Blocks(content)) == [content];
      assert [content][1..] == [];
    } else {
      var head := content[..ReadBufferSize];
      var tail := Blocks(content[ReadBufferSize..]);
      BlocksSpec(content[ReadBufferSize..]);
      var bs := Blocks(content);
      assert bs == [(head, false)] + tail;
      assert forall i | 1 <= i < |bs| :: bs[i] == tail[i - 1];
      var texts := BlockTexts(bs);
      assert texts[1..] == BlockTexts(tail);
      assert TextUtil.Concat(texts) == head + TextUtil.Concat(BlockTexts(tail));
      assert head + content[ReadBufferSize..] == content;
    }
  }

  /**
   * chunk resets the strategy first, so chunking again with the strategy a
   * previous call left behind gives the same chunks and the same outcome.
   */
  lemma ChunkedTwice(filePath: Option<string>, text: Option<string>, global: Metadata,
                     pps: seq<PostProcessors.PostProcessor>, a: AnyStrategy, file: Option<string>)
    requires Valid(a) && PostProcessors.AllValid(pps)
    ensures Valid(Chunked(filePath, text, global, pps, a, file).1)
    ensures Reset(Chunked(filePath, text, global, pps, a, file).1) == Reset(a)
    ensures Chunked(filePath, text, global, pps, Chunked(filePath, text, global, pps, a, file).1, file).0
      == Chunked(filePath, text, global, pps, a, file).0
    ensures Chunked(filePath, text, global, pps, Chunked(filePath, text, global, pps, a, file).1, file).2
      == Chunked(filePath, text, global, pps, a, file).2
  {
    ResetKeepsConfig(a);
    var a0 := Reset(a);
    if filePath.Some? && file.Some? {
      FromBlocksSpec(a0, Blocks(file.value), global);
    } else if filePath.None? && text.Some? {
      ProcessKeepsConfig(a0, text.value, true);
    }
  }

  /**
   * A file shorter than one buffer is read in a single block, so with no
   * enricher (the only post-processor that reads the source) it chunks
   * exactly as the same text given to setText.
   */
  lemma ShortFileAsText(path: string, text: Option<string>, global: Metadata,
                        pps: seq<PostProcessors.PostProcessor>, a: AnyStrategy, content: string)
    requires Valid(a) && PostProcessors.AllValid(pps)
    requires forall i | 0 <= i < |pps| :: pps[i] != PostProcessors.ByEnricher
    requires |content| < ReadBufferSize
    ensures Chunked(Some(path), text, global, pps, a, Some(content))
      == Chunked(None, Some(content), global, pps, a, None)
  {
    ResetKeepsConfig(a);
    var a0 := Reset(a);
    var r := Process(a0, content, true);
    ProcessKeepsConfig(a0, content, true);
    var blocks := Blocks(content);
    assert blocks == [(content, true)];
    assert blocks[1..] == [];
    var base := WithGlobalAll(global, r.0);
    assert FromBlocks(a0, blocks, global) == (base + [], r.1);
    assert base + [] == base;
    PostProcessors.ApplyAllSourceFree(pps, base, path, "");
  }

  /** With no post-processors, every chunk carries the global metadata, from a text or from a file. */
  lemma GlobalMetadataEverywhere(filePath: Option<string>, text: Option<string>, global: Metadata,
                                 a: AnyStrategy, file: Option<string>)
    requires Valid(a)
    ensures forall i | 0 <= i < |Chunked(filePath, text, global, [], a, file).0| ::
      Carries(Chunked(filePath, text, global, [], a, file).0[i], global)
  {
    ResetKeepsConfig(a);
    var a0 := Reset(a);
    if filePath.Some? && file.Some? {
      FromBlocksSpec(a0, Blocks(file.value), global);
    } else if filePath.None? && text.Some? {
      WithGlobalAllSpec(global, Process(a0, text.value, true).0);
    }
  }
}
