/**
 * RecursiveChunkingStrategy: the first strategy cuts the stream; a chunk
 * longer than the maximum is cut again, from scratch, by the next strategy
 * in the list, and so on down the list.
 */
module Recursive {
  import opened Wrappers
  import opened Chunks
  import opened Strategies
  import Paragraph

  const Name: string := "recursive"

  /** The constructor's checks (lines 21-26); the instanceof loop of lines 27-31 cannot fail on typed values. */
  function CheckArguments(strategies: seq<Strategy>, maxChunkSize: int): (r: Option<Error>)
    ensures r.None? <==> strategies != [] && maxChunkSize > 0
    ensures strategies == [] ==> r == Some(InvalidArgument("At least one strategy must be provided"))
  {
    if strategies == [] then Some(InvalidArgument("At least one strategy must be provided"))
    else if maxChunkSize <= 0 then Some(InvalidArgument("maxChunkSize must be > 0"))
    else None
  }

  predicate AllValid(sts: seq<Strategy>) {
    forall i | 0 <= i < |sts| :: Valid(sts[i])
  }

  /** Each strategy reset: what reset() leaves, and what processing never changes. */
  function Configs(sts: seq<Strategy>): (r: seq<Strategy>)
    ensures |r| == |sts|
  {
    seq(|sts|, i requires 0 <= i < |sts| => Reset(sts[i]))
  }

  /** createChunk's metadata (lines 81-85): the sub-strategy's own metadata is not kept. */
  function RecursiveMeta(text: string, depth: nat): Metadata {
    map["strategy" := StrValue(Name), "length" := IntValue(|text|), "depth" := IntValue(depth)]
  }

  function Create(text: string, depth: nat, pos: nat): Chunk {
    Chunk(text, pos, RecursiveMeta(text, depth))
  }

  /** The strategy at `k` replaced by one with the same configuration keeps the list's configuration. */
  lemma UpdateKeepsConfigs(sts: seq<Strategy>, k: nat, st: Strategy)
    requires k < |sts| && AllValid(sts) && Valid(st) && Reset(st) == Reset(sts[k])
    ensures AllValid(sts[k := st]) && Configs(sts[k := st]) == Configs(sts)
  {
  }

  /**
   * splitChunk(text, depth) (lines 52-74): the chunks, numbered from `pos`,
   * and the strategies with the new state of the one that ran.
   */
  function SplitChunk(sts: seq<Strategy>, max: nat, text: string, depth: nat, pos: nat): (r: (seq<Chunk>, seq<Strategy>))
    requires depth < |sts| && AllValid(sts)
    ensures AllValid(r.1) && Configs(r.1) == Configs(sts)
    decreases |sts| - depth, 0
  {
    if |text| <= max || depth + 1 >= |sts| then ([Create(text, depth, pos)], sts)
    else
      var next := Reset(sts[depth + 1]);
      ResetKeepsConfig(sts[depth + 1]);
      var sub := Process(next, text, true);
      ProcessKeepsConfig(next, text, true);
      UpdateKeepsConfigs(sts, depth + 1, sub.1);
      var sts1 := sts[depth + 1 := sub.1];
      if sub.0 == [] then ([Create(text, depth, pos)], sts1)
      else SplitAll(sts1, max, Texts(sub.0), depth + 1, pos)
  }

  /** The foreach loops of lines 46-48 and 71-73: each text split in turn, numbered on. */
  function SplitAll(sts: seq<Strategy>, max: nat, texts: seq<string>, depth: nat, pos: nat): (r: (seq<Chunk>, seq<Strategy>))
    requires depth < |sts| && AllValid(sts)
    ensures AllValid(r.1) && Configs(r.1) == Configs(sts)
    decreases |sts| - depth, |texts|
  {
    if texts == [] then ([], sts)
    else
      var first := SplitChunk(sts, max, texts[0], depth, pos);
      var rest := SplitAll(first.1, max, texts[1..], depth, pos + |first.0|);
      (first.0 + rest.0, rest.1)
  }

  datatype State = State(position: nat, strategies: seq<Strategy>)

  /** process(data, isEnd): only the first strategy sees the stream. */
  function Step(s: State, max: nat, data: string, isEnd: bool): (seq<Chunk>, State)
    requires s.strategies != [] && AllValid(s.strategies)
  {
    var primary := Process(s.strategies[0], data, isEnd);
    ProcessKeepsConfig(s.strategies[0], data, isEnd);
    UpdateKeepsConfigs(s.strategies, 0, primary.1);
    var r := SplitAll(s.strategies[0 := primary.1], max, Texts(primary.0), 0, s.position);
    (r.0, State(s.position + |r.0|, r.1))
  }

  /** reset() (lines 34-40). */
  function ResetState(s: State): State {
    State(0, Configs(s.strategies))
  }

  // ----------------------------------------------------------- properties

  /** The depth a chunk was emitted at, as its metadata says. */
  function DepthOf(c: Chunk): int {
    if "depth" in c.metadata && c.metadata["depth"].IntValue? then c.metadata["depth"].i else -1
  }

  /** The strategy after `d`, reset and run to the end on t, yields nothing (lines 65-69). */
  predicate Fallback(cfgs: seq<Strategy>, t: string, d: nat)
    requires AllValid(cfgs)
  {
    d + 1 < |cfgs| && Process(Reset(cfgs[d + 1]), t, true).0 == []
  }

  /**
   * What every emitted chunk satisfies: the recursive metadata, a depth
   * from `lo` to the last index, and a length within the maximum unless
   * there was no further strategy or the next one yielded nothing.
   */
  predicate Bounded(c: Chunk, cfgs: seq<Strategy>, max: nat, lo: nat)
    requires AllValid(cfgs)
  {
    var d := DepthOf(c);
    && lo <= d < |cfgs|
    && c.metadata == RecursiveMeta(c.text, d)
    && (|c.text| <= max || d == |cfgs| - 1 || Fallback(cfgs, c.text, d))
  }

  lemma ConfigsValid(sts: seq<Strategy>)
    requires AllValid(sts)
    ensures AllValid(Configs(sts))
  {
    forall i | 0 <= i < |sts| ensures Valid(Configs(sts)[i]) {
      ResetKeepsConfig(sts[i]);
    }
  }

  /** The chunks of a split are numbered on from `pos`, one per chunk. */
  lemma {:induction false} SplitChunkConsecutive(sts: seq<Strategy>, max: nat, text: string, depth: nat, pos: nat)
    requires depth < |sts| && AllValid(sts)
    ensures Consecutive(SplitChunk(sts, max, text, depth, pos).0, pos)
    decreases |sts| - depth, 0
  {
    if |text| > max && depth + 1 < |sts| {
      var next := Reset(sts[depth + 1]);
      ResetKeepsConfig(sts[depth + 1]);
      var sub := Process(next, text, true);
      ProcessKeepsConfig(next, text, true);
      UpdateKeepsConfigs(sts, depth + 1, sub.1);
      if sub.0 != [] {
        SplitAllConsecutive(sts[depth + 1 := sub.1], max, Texts(sub.0), depth + 1, pos);
      }
    }
  }

  lemma {:induction false} SplitAllConsecutive(sts: seq<Strategy>, max: nat, texts: seq<string>, depth: nat, pos: nat)
    requires depth < |sts| && AllValid(sts)
    ensures Consecutive(SplitAll(sts, max, texts, depth, pos).0, pos)
    decreases |sts| - depth, |texts|
  {
    if texts != [] {
      var first := SplitChunk(sts, max, texts[0], depth, pos);
      SplitChunkConsecutive(sts, max, texts[0], depth, pos);
      SplitAllConsecutive(first.1, max, texts[1..], depth, pos + |first.0|);
      ConsecutiveAppend(first.0, SplitAll(first.1, max, texts[1..], depth, pos + |first.0|).0, pos);
    }
  }

  /** Every chunk of a split is Bounded, at `depth` or deeper. */
  lemma {:induction false} SplitChunkBounded(sts: seq<Strategy>, max: nat, text: string, depth: nat, pos: nat)
    requires depth < |sts| && AllValid(sts)
    ensures AllValid(Configs(sts))
    ensures forall c <- SplitChunk(sts, max, text, depth, pos).0 :: Bounded(c, Configs(sts), max, depth)
    decreases |sts| - depth, 0
  {
    ConfigsValid(sts);
    if |text| <= max || depth + 1 >= |sts| {
    } else {
      var next := Reset(sts[depth + 1]);
      ResetKeepsConfig(sts[depth + 1]);
      var sub := Process(next, text, true);
      ProcessKeepsConfig(next, text, true);
      UpdateKeepsConfigs(sts, depth + 1, sub.1);
      var sts1 := sts[depth + 1 := sub.1];
      if sub.0 == [] {
        assert Reset(Configs(sts)[depth + 1]) == next;
      } else {
        SplitAllBounded(sts1, max, Texts(sub.0), depth + 1, pos);
        forall c <- SplitAll(sts1, max, Texts(sub.0), depth + 1, pos).0
          ensures Bounded(c, Configs(sts), max, depth)
        {
          assert Bounded(c, Configs(sts1), max, depth + 1);
        }
      }
    }
  }

  lemma {:induction false} SplitAllBounded(sts: seq<Strategy>, max: nat, texts: seq<string>, depth: nat, pos: nat)
    requires depth < |sts| && AllValid(sts)
    ensures AllValid(Configs(sts))
    ensures forall c <- SplitAll(sts, max, texts, depth, pos).0 :: Bounded(c, Configs(sts), max, depth)
    decreases |sts| - depth, |texts|
  {
    ConfigsValid(sts);
    if texts != [] {
      var first := SplitChunk(sts, max, texts[0], depth, pos);
      SplitChunkBounded(sts, max, texts[0], depth, pos);
      SplitAllBounded(first.1, max, texts[1..], depth, pos + |first.0|);
    }
  }

  /**
   * Every chunk of process is within the maximum, or at the last depth, or
   * kept whole because the next strategy yielded nothing; positions go on
   * from the old position, one per chunk.
   */
  lemma StepBounded(s: State, max: nat, data: string, isEnd: bool)
    requires s.strategies != [] && AllValid(s.strategies)
    ensures AllValid(Configs(s.strategies))
    ensures var (cs, t) := Step(s, max, data, isEnd);
      && Consecutive(cs, s.position)
      && t.position == s.position + |cs|
      && Configs(t.strategies) == Configs(s.strategies)
      && forall c <- cs :: Bounded(c, Configs(s.strategies), max, 0)
  {
    var primary := Process(s.strategies[0], data, isEnd);
    ProcessKeepsConfig(s.strategies[0], data, isEnd);
    UpdateKeepsConfigs(s.strategies, 0, primary.1);
    SplitAllBounded(s.strategies[0 := primary.1], max, Texts(primary.0), 0, s.position);
    SplitAllConsecutive(s.strategies[0 := primary.1], max, Texts(primary.0), 0, s.position);
  }

  /** A text within the maximum, or with no strategy after its depth, is emitted unchanged at that depth. */
  lemma ShortTextUnchanged(sts: seq<Strategy>, max: nat, text: string, depth: nat, pos: nat)
    requires depth < |sts| && AllValid(sts)
    requires |text| <= max || depth == |sts| - 1
    ensures SplitChunk(sts, max, text, depth, pos) == ([Chunk(text, pos, RecursiveMeta(text, depth))], sts)
  {
  }

  /**
   * With a single strategy every chunk it yields is passed on unchanged in
   * text, at depth 0, whatever its length.
   */
  lemma {:induction false} SingleStrategyPassesThrough(sts: seq<Strategy>, max: nat, texts: seq<string>, pos: nat)
    requires |sts| == 1 && AllValid(sts)
    ensures Texts(SplitAll(sts, max, texts, 0, pos).0) == texts
    ensures SplitAll(sts, max, texts, 0, pos).1 == sts
    decreases |texts|
  {
    if texts != [] {
      assert SplitChunk(sts, max, texts[0], 0, pos) == ([Create(texts[0], 0, pos)], sts) by {
        ShortTextUnchanged(sts, max, texts[0], 0, pos);
      }
      SingleStrategyPassesThrough(sts, max, texts[1..], pos + 1);
      var rest := SplitAll(sts, max, texts[1..], 0, pos + 1);
      TextsCons(Create(texts[0], 0, pos), rest.0);
      assert [texts[0]] + texts[1..] == texts;
    }
  }

  /** reset() sets the position to 0 and resets every strategy; it is idempotent. */
  lemma ResetStateSpec(s: State)
    ensures ResetState(s).position == 0
    ensures forall i | 0 <= i < |s.strategies| :: ResetState(s).strategies[i] == Reset(s.strategies[i])
    ensures ResetState(ResetState(s)) == ResetState(s)
  {
    forall i | 0 <= i < |s.strategies|
      ensures Configs(Configs(s.strategies))[i] == Configs(s.strategies)[i]
    {
      ResetKeepsConfig(s.strategies[i]);
    }
  }

  /** Two hundred 'x' with only the paragraph strategy and a maximum of 10: one chunk, unchanged. */
  lemma OversizedKeptWithoutFallback()
    ensures var x := seq(200, _ => 'x');
      var cs := Step(State(0, [ByParagraph(Paragraph.Initial)]), 10, x, true).0;
      |cs| == 1 && cs[0].text == x
  {
    var x := seq(200, _ => 'x');
    assert Paragraph.PlainParagraph(x) by {
      assert x[0] == 'x' && x[199] == 'x';
      assert forall i | 0 <= i < |x| :: x[i] != '\n';
    }
    Paragraph.OneParagraph(x);
    var s := State(0, [ByParagraph(Paragraph.Initial)]);
    var primary := Process(s.strategies[0], x, true);
    assert Texts(primary.0) == [x];
    ProcessKeepsConfig(s.strategies[0], x, true);
    SingleStrategyPassesThrough(s.strategies[0 := primary.1], 10, [x], 0);
  }

  // ----------------------------------------------------------- the class

  class RecursiveStrategy {
    const maxChunkSize: nat
    var strategies: seq<Strategy>
    var position: nat

    function Current(): State
      reads this
    {
      State(position, strategies)
    }

    predicate Ready()
      reads this
    {
      strategies != [] && AllValid(strategies)
    }

    /** The constructor for arguments that passed the checks. */
    constructor (sts: seq<Strategy>, max: nat)
      requires sts != [] && AllValid(sts) && max > 0
      ensures maxChunkSize == max && Current() == State(0, sts) && Ready()
    {
      maxChunkSize := max;
      strategies := sts;
      position := 0;
    }

    /** new RecursiveChunkingStrategy(strategies, maxChunkSize). */
    static method Create(sts: seq<Strategy>, maxChunkSize: int) returns (r: Result<RecursiveStrategy>)
      requires AllValid(sts)
      ensures r.Err? <==> sts == [] || maxChunkSize <= 0
      ensures r.Err? ==> Some(r.error) == CheckArguments(sts, maxChunkSize)
      ensures r.Ok? ==> fresh(r.value) && r.value.maxChunkSize == maxChunkSize && r.value.Current() == State(0, sts)
    {
      var check := CheckArguments(sts, maxChunkSize);
      if check.Some? {
        return Err(check.value);
      }
      var strategy := new RecursiveStrategy(sts, maxChunkSize);
      return Ok(strategy);
    }

    method Reset()
      requires Ready()
      modifies this
      ensures Current() == ResetState(old(Current())) && Ready()
    {
      position := 0;
      var sts := ResetEach(strategies);
      ConfigsValid(strategies);
      strategies := sts;
    }

    method Process(data: string, isEnd: bool) returns (chunks: seq<Chunk>)
      requires Ready()
      modifies this
      ensures (chunks, Current()) == Step(old(Current()), maxChunkSize, data, isEnd)
      ensures Ready()
    {
      var next;
      chunks, next := StepState(Current(), maxChunkSize, data, isEnd);
      strategies, position := next.strategies, next.position;
    }
  }

  /** The body of process on a copy of the state: the first strategy, then each of its chunks split. */
  method StepState(s: State, max: nat, data: string, isEnd: bool) returns (chunks: seq<Chunk>, next: State)
    requires s.strategies != [] && AllValid(s.strategies)
    ensures (chunks, next) == Step(s, max, data, isEnd)
    ensures next.strategies != [] && AllValid(next.strategies)
  {
    var primary := Strategies.Process(s.strategies[0], data, isEnd);
    ProcessKeepsConfig(s.strategies[0], data, isEnd);
    UpdateKeepsConfigs(s.strategies, 0, primary.1);
    var sts, pos;
    chunks, sts, pos := SplitEach(s.strategies[0 := primary.1], max, Texts(primary.0), 0, s.position);
    next := State(pos, sts);
  }

  /** The foreach loop of reset (lines 37-39) on a local copy of the list. */
  method ResetEach(sts0: seq<Strategy>) returns (sts: seq<Strategy>)
    ensures sts == Configs(sts0)
  {
    sts := sts0;
    for i := 0 to |sts0|
      invariant |sts| == |sts0|
      invariant forall k | 0 <= k < i :: sts[k] == Reset(sts0[k])
      invariant forall k | i <= k < |sts0| :: sts[k] == sts0[k]
    {
      sts := sts[i := Reset(sts[i])];
    }
  }

  /** splitChunk (lines 52-74) on local copies of the list and the position; createChunk advances it. */
  method SplitOne(sts0: seq<Strategy>, max: nat, text: string, depth: nat, pos0: nat)
    returns (chunks: seq<Chunk>, sts: seq<Strategy>, pos: nat)
    requires depth < |sts0| && AllValid(sts0)
    ensures (chunks, sts) == SplitChunk(sts0, max, text, depth, pos0) && pos == pos0 + |chunks|
    decreases |sts0| - depth, 0
  {
    if |text| <= max || depth + 1 >= |sts0| {
      return [Create(text, depth, pos0)], sts0, pos0 + 1;
    }
    var nextStrategy := Strategies.Reset(sts0[depth + 1]);
    ResetKeepsConfig(sts0[depth + 1]);
    var sub := Strategies.Process(nextStrategy, text, true);
    ProcessKeepsConfig(nextStrategy, text, true);
    UpdateKeepsConfigs(sts0, depth + 1, sub.1);
    sts := sts0[depth + 1 := sub.1];
    if sub.0 == [] {
      return [Create(text, depth, pos0)], sts, pos0 + 1;
    }
    chunks, sts, pos := SplitEach(sts, max, Texts(sub.0), depth + 1, pos0);
  }

  /** Splitting the texts from `i` on is splitting text `i`, then the texts after it. */
  lemma SplitAllStep(sts: seq<Strategy>, max: nat, texts: seq<string>, i: nat, depth: nat, pos: nat)
    requires i < |texts| && depth < |sts| && AllValid(sts)
    ensures var first := SplitChunk(sts, max, texts[i], depth, pos);
      var all := SplitAll(sts, max, texts[i..], depth, pos);
      var rest := SplitAll(first.1, max, texts[i + 1..], depth, pos + |first.0|);
      all == (first.0 + rest.0, rest.1)
  {
    var ts := texts[i..];
    assert ts[0] == texts[i] && ts[1..] == texts[i + 1..];
  }

  /** One pass of that loop: text `i` split, the texts after it left to do. */
  method SplitNext(sts0: seq<Strategy>, max: nat, texts: seq<string>, i: nat, depth: nat, pos0: nat)
    returns (more: seq<Chunk>, sts: seq<Strategy>, pos: nat)
    requires i < |texts| && depth < |sts0| && AllValid(sts0)
    ensures AllValid(sts) && |sts| == |sts0| && pos == pos0 + |more|
    ensures var rest := SplitAll(sts, max, texts[i + 1..], depth, pos);
      SplitAll(sts0, max, texts[i..], depth, pos0) == (more + rest.0, rest.1)
    decreases |sts0| - depth, 1
  {
    SplitAllStep(sts0, max, texts, i, depth, pos0);
    more, sts, pos := SplitOne(sts0, max, texts[i], depth, pos0);
  }

  /** `yield from splitChunk(...)` for each text in turn. */
  method SplitEach(sts0: seq<Strategy>, max: nat, texts: seq<string>, depth: nat, pos0: nat)
    returns (chunks: seq<Chunk>, sts: seq<Strategy>, pos: nat)
    requires depth < |sts0| && AllValid(sts0)
    ensures (chunks, sts) == SplitAll(sts0, max, texts, depth, pos0) && pos == pos0 + |chunks|
    decreases |sts0| - depth, 2
  {
    chunks, sts, pos := [], sts0, pos0;
    for i := 0 to |texts|
      invariant AllValid(sts) && |sts| == |sts0|
      invariant SplitAll(sts0, max, texts, depth, pos0).0 == chunks + SplitAll(sts, max, texts[i..], depth, pos).0
      invariant SplitAll(sts0, max, texts, depth, pos0).1 == SplitAll(sts, max, texts[i..], depth, pos).1
      invariant pos == pos0 + |chunks|
    {
      var more, sts1, next := SplitNext(sts, max, texts, i, depth, pos);
      AppendAssoc(chunks, more, SplitAll(sts1, max, texts[i + 1..], depth, next).0);
      chunks, sts, pos := chunks + more, sts1, next;
    }
    assert texts[|texts|..] == [];
    assert chunks + [] == chunks;
  }
}
