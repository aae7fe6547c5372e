/**
 * ChunkMergerPostProcessor: buffer incoming chunks until their summed text
 * length reaches minChunkSize, then emit the buffer as one chunk whose text is
 * the buffered texts joined by the separator; whatever is left at the end is
 * emitted as a last, possibly short, chunk.
 */
module Merger {
  import opened Wrappers
  import opened TextUtil
  import opened Chunks

  datatype Config = Config(minChunkSize: nat, separator: string)

  /** The constructor's defaults. */
  const Default := Config(200, "\n\n")

  /** The constructor: minChunkSize must be positive. */
  function Create(minChunkSize: int, separator: string): (r: Result<Config>)
    ensures r.Ok? <==> minChunkSize > 0
    ensures r.Ok? ==> r.value.minChunkSize == minChunkSize && r.value.separator == separator
    ensures r.Err? ==> r.error == InvalidArgument("minChunkSize must be > 0")
  {
    if minChunkSize <= 0 then Err(InvalidArgument("minChunkSize must be > 0"))
    else Ok(Config(minChunkSize, separator))
  }

  /** Summed text length of a run of chunks. */
  function SumLen(cs: seq<Chunk>): nat
    decreases |cs|
  {
    if cs == [] then 0 else |cs[0].text| + SumLen(cs[1..])
  }

  /**
   * The buffering of the foreach loop from a given buffer: each chunk is added,
   * and the buffer is closed as soon as its length reaches the minimum; the
   * final non-empty buffer is the last group.
   */
  function GroupsFrom(cs: seq<Chunk>, min: nat, buffer: seq<Chunk>, bufferLength: int): (gs: seq<seq<Chunk>>)
    ensures NonEmptyGroups(gs)
    decreases |cs|
  {
    if cs == [] then (if buffer == [] then [] else [buffer])
    else
      var b := buffer + [cs[0]];
      var l := bufferLength + |cs[0].text|;
      if l >= min then [b] + GroupsFrom(cs[1..], min, [], 0)
      else GroupsFrom(cs[1..], min, b, l)
  }

  predicate NonEmptyGroups(gs: seq<seq<Chunk>>) {
    forall i | 0 <= i < |gs| :: gs[i] != []
  }

  function Groups(cs: seq<Chunk>, min: nat): seq<seq<Chunk>> {
    GroupsFrom(cs, min, [], 0)
  }

  /** mergeBuffer: the texts joined, the first chunk's position and metadata, plus the merge counters. */
  function Merge(g: seq<Chunk>, separator: string): Chunk
    requires g != []
  {
    var merged := Join(Texts(g), separator);
    Chunk(merged, g[0].position,
      g[0].metadata + map["merged_count" := IntValue(|g|), "length" := IntValue(|merged|)])
  }

  function MergeAll(gs: seq<seq<Chunk>>, separator: string): (cs: seq<Chunk>)
    requires NonEmptyGroups(gs)
  {
    seq(|gs|, i requires 0 <= i < |gs| => Merge(gs[i], separator))
  }

  /** process: one merged chunk per group. */
  function Apply(cfg: Config, cs: seq<Chunk>): seq<Chunk> {
    MergeAll(Groups(cs, cfg.minChunkSize), cfg.separator)
  }

  // ---------------------------------------------------------------- the loop

  /** The foreach loop of process with its buffer and running length. */
  method Process(cfg: Config, cs: seq<Chunk>) returns (out: seq<Chunk>)
    ensures out == Apply(cfg, cs)
  {
    var min := cfg.minChunkSize;
    out := [];
    var buffer: seq<Chunk> := [];
    var bufferLength := 0;
    ghost var gs: seq<seq<Chunk>> := [];
    for i := 0 to |cs|
      invariant NonEmptyGroups(gs)
      invariant Groups(cs, min) == gs + GroupsFrom(cs[i..], min, buffer, bufferLength)
      invariant out == MergeAll(gs, cfg.separator)
    {
      ghost var rest := cs[i..];
      assert rest[0] == cs[i] && rest[1..] == cs[i + 1..];
      buffer := buffer + [cs[i]];
      bufferLength := bufferLength + |cs[i].text|;
      if bufferLength >= min {
        MergeAllSnoc(gs, buffer, cfg.separator);
        AppendAssoc(gs, [buffer], GroupsFrom(cs[i + 1..], min, [], 0));
        out := out + [Merge(buffer, cfg.separator)];
        gs := gs + [buffer];
        buffer := [];
        bufferLength := 0;
      }
    }
    assert cs[|cs|..] == [];
    if buffer != [] {
      MergeAllSnoc(gs, buffer, cfg.separator);
      out := out + [Merge(buffer, cfg.separator)];
      gs := gs + [buffer];
    } else {
      assert gs + [] == gs;
    }
  }

  lemma MergeAllSnoc(gs: seq<seq<Chunk>>, g: seq<Chunk>, separator: string)
    requires NonEmptyGroups(gs) && g != []
    ensures NonEmptyGroups(gs + [g])
    ensures MergeAll(gs + [g], separator) == MergeAll(gs, separator) + [Merge(g, separator)]
  {
  }

  // ---------------------------------------------------------------- properties

  lemma {:induction false} SumLenSnoc(cs: seq<Chunk>, c: Chunk)
    ensures SumLen(cs + [c]) == SumLen(cs) + |c.text|
    decreases |cs|
  {
    if cs != [] {
      assert (cs + [c])[1..] == cs[1..] + [c];
      SumLenSnoc(cs[1..], c);
    }
  }

  /** A group closes at the first chunk that brings it to the minimum, so without its last chunk it is short. */
  predicate Minimal(g: seq<Chunk>, min: nat) {
    g != [] && SumLen(Init(g)) < min
  }

  /** The groups partition buffer + cs, in order. */
  lemma {:induction false} GroupsFromFlatten(cs: seq<Chunk>, min: nat, buffer: seq<Chunk>, bufferLength: int)
    ensures Flatten(GroupsFrom(cs, min, buffer, bufferLength)) == buffer + cs
    decreases |cs|
  {
    var gs := GroupsFrom(cs, min, buffer, bufferLength);
    if cs == [] {
      if buffer != [] {
        assert gs == [buffer];
        assert Flatten(gs) == buffer + Flatten([]);
      }
      assert buffer + cs == buffer;
    } else {
      var b := buffer + [cs[0]];
      var l := bufferLength + |cs[0].text|;
      assert cs == [cs[0]] + cs[1..];
      if l >= min {
        var tail := GroupsFrom(cs[1..], min, [], 0);
        GroupsFromFlatten(cs[1..], min, [], 0);
        assert gs == [b] + tail;
        assert gs[1..] == tail;
        assert Flatten(gs) == b + Flatten(tail);
        assert [] + cs[1..] == cs[1..];
        AppendAssoc(buffer, [cs[0]], cs[1..]);
      } else {
        GroupsFromFlatten(cs[1..], min, b, l);
        AppendAssoc(buffer, [cs[0]], cs[1..]);
      }
    }
  }

  /** Each group closes at the first chunk that reaches the minimum. */
  lemma {:induction false} GroupsFromMinimal(cs: seq<Chunk>, min: nat, buffer: seq<Chunk>, bufferLength: int)
    requires min > 0
    requires bufferLength == SumLen(buffer) && SumLen(buffer) < min
    ensures forall g <- GroupsFrom(cs, min, buffer, bufferLength) :: Minimal(g, min)
    decreases |cs|
  {
    if cs == [] {
      if buffer != [] {
        SumLenSnoc(Init(buffer), Last(buffer));
        assert Init(buffer) + [Last(buffer)] == buffer;
      }
    } else {
      var b := buffer + [cs[0]];
      var l := bufferLength + |cs[0].text|;
      SumLenSnoc(buffer, cs[0]);
      assert Init(b) == buffer;
      if l >= min {
        GroupsFromMinimal(cs[1..], min, [], 0);
      } else {
        GroupsFromMinimal(cs[1..], min, b, l);
      }
    }
  }

  /** Every group but the last reaches the minimum. */
  lemma {:induction false} GroupsFromReach(cs: seq<Chunk>, min: nat, buffer: seq<Chunk>, bufferLength: int)
    requires bufferLength == SumLen(buffer)
    ensures forall k | 0 <= k < |GroupsFrom(cs, min, buffer, bufferLength)| - 1 ::
      SumLen(GroupsFrom(cs, min, buffer, bufferLength)[k]) >= min
    decreases |cs|
  {
    var gs := GroupsFrom(cs, min, buffer, bufferLength);
    if cs != [] {
      var b := buffer + [cs[0]];
      var l := bufferLength + |cs[0].text|;
      SumLenSnoc(buffer, cs[0]);
      if l >= min {
        var tail := GroupsFrom(cs[1..], min, [], 0);
        GroupsFromReach(cs[1..], min, [], 0);
        assert gs == [b] + tail;
        forall k | 0 <= k < |gs| - 1 ensures SumLen(gs[k]) >= min {
          if k > 0 { assert gs[k] == tail[k - 1]; } else { assert gs[0] == b; }
        }
      } else {
        GroupsFromReach(cs[1..], min, b, l);
      }
    }
  }

  /** The partition of the whole input, from an empty buffer. */
  lemma GroupsSpec(cs: seq<Chunk>, min: nat)
    requires min > 0
    ensures Flatten(Groups(cs, min)) == cs
    ensures forall g <- Groups(cs, min) :: Minimal(g, min)
    ensures forall k | 0 <= k < |Groups(cs, min)| - 1 :: SumLen(Groups(cs, min)[k]) >= min
  {
    GroupsFromFlatten(cs, min, [], 0);
    GroupsFromMinimal(cs, min, [], 0);
    GroupsFromReach(cs, min, [], 0);
    assert [] + cs == cs;
  }

  /**
   * Each output is the merge of its group: the texts joined by the separator,
   * the first chunk's position, its metadata plus merged_count and length.
   */
  lemma ApplySpec(cfg: Config, cs: seq<Chunk>)
    requires cfg.minChunkSize > 0
    ensures var gs := Groups(cs, cfg.minChunkSize);
      && |Apply(cfg, cs)| == |gs|
      && Flatten(gs) == cs
      && forall k | 0 <= k < |gs| ::
        var c := Apply(cfg, cs)[k];
        && gs[k] != []
        && c.text == Join(Texts(gs[k]), cfg.separator)
        && c.position == gs[k][0].position
        && c.metadata == gs[k][0].metadata + map["merged_count" := IntValue(|gs[k]|), "length" := IntValue(|c.text|)]
  {
    GroupsSpec(cs, cfg.minChunkSize);
  }

  lemma {:induction false} JoinEmptySeparator(ts: seq<string>)
    ensures Join(ts, "") == Concat(ts)
    decreases |ts|
  {
    if |ts| == 1 {
      assert Concat(ts[1..]) == [];
    } else if |ts| > 1 {
      JoinEmptySeparator(ts[1..]);
    }
  }

  lemma {:induction false} MergedTextsConcat(gs: seq<seq<Chunk>>)
    requires NonEmptyGroups(gs)
    ensures Concat(Texts(MergeAll(gs, ""))) == Concat(Texts(Flatten(gs)))
    decreases |gs|
  {
    if gs != [] {
      MergedTextsConcat(gs[1..]);
      var m := MergeAll(gs, "");
      assert m == [m[0]] + MergeAll(gs[1..], "");
      TextsCons(m[0], MergeAll(gs[1..], ""));
      JoinEmptySeparator(Texts(gs[0]));
      TextsAppend(gs[0], Flatten(gs[1..]));
      ConcatAppend(Texts(gs[0]), Texts(Flatten(gs[1..])));
    }
  }

  /** With the separators left out, merging keeps the characters: the outputs concatenate to the inputs. */
  lemma Conserves(min: nat, cs: seq<Chunk>)
    requires min > 0
    ensures Concat(Texts(Apply(Config(min, ""), cs))) == Concat(Texts(cs))
  {
    GroupsSpec(cs, min);
    MergedTextsConcat(Groups(cs, min));
  }

  /** No input, no output. */
  lemma EmptyInput(cfg: Config)
    ensures Apply(cfg, []) == []
  {
  }

  /** With minimum 5, 'Hello' and 'World' each reach it alone and are emitted separately. */
  lemma EachChunkReachesMinimum()
    ensures var out := Apply(Config(5, "\n\n"), [Chunk("Hello", 0), Chunk("World", 1)]);
      |out| == 2 && out[0].text == "Hello" && out[1].text == "World"
  {
    var cs := [Chunk("Hello", 0), Chunk("World", 1)];
    assert cs[1..] == [Chunk("World", 1)];
    assert cs[1..][1..] == [];
    assert [] + [cs[0]] == [Chunk("Hello", 0)];
    assert [] + [cs[1]] == [Chunk("World", 1)];
    assert GroupsFrom([Chunk("World", 1)], 5, [], 0) == [[Chunk("World", 1)]];
    assert Groups(cs, 5) == [[Chunk("Hello", 0)], [Chunk("World", 1)]];
    assert Texts([Chunk("Hello", 0)]) == ["Hello"];
    assert Texts([Chunk("World", 1)]) == ["World"];
  }
}
