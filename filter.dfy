/**
 * ChunkFilterPostProcessor: drop the chunks whose trimmed text is blank (when
 * removeEmpty is set) or shorter than minLength, and pass every other chunk on
 * untouched.
 */
module Filter {
  import opened Wrappers
  import opened TextUtil
  import opened Chunks

  datatype Config = Config(minLength: nat, removeEmpty: bool)

  /** The constructor's defaults. */
  const Default := Config(50, true)

  /** The constructor: a negative minimum length is refused. */
  function Create(minLength: int, removeEmpty: bool): (r: Result<Config>)
    ensures r.Ok? <==> minLength >= 0
    ensures r.Ok? ==> r.value.minLength == minLength && r.value.removeEmpty == removeEmpty
    ensures r.Err? ==> r.error == InvalidArgument("Min length must be >= 0")
  {
    if minLength < 0 then Err(InvalidArgument("Min length must be >= 0"))
    else Ok(Config(minLength, removeEmpty))
  }

  /** The two `continue` guards, negated. */
  predicate Keep(cfg: Config, c: Chunk) {
    var t := Trim(c.text);
    !(cfg.removeEmpty && t == []) && |t| >= cfg.minLength
  }

  /** process: the foreach loop, one chunk at a time. */
  function Apply(cfg: Config, cs: seq<Chunk>): seq<Chunk>
    decreases |cs|
  {
    if cs == [] then []
    else Apply(cfg, Init(cs)) + if Keep(cfg, Last(cs)) then [Last(cs)] else []
  }

  /** The indices of the chunks that pass, in increasing order. */
  function KeptIndices(cfg: Config, cs: seq<Chunk>): seq<nat>
    decreases |cs|
  {
    if cs == [] then []
    else KeptIndices(cfg, Init(cs)) + if Keep(cfg, Last(cs)) then [|cs| - 1] else []
  }

  /** `idx` lists, in increasing order, the positions of `cs` whose chunks make up `out`. */
  predicate Picks(out: seq<Chunk>, cs: seq<Chunk>, idx: seq<nat>) {
    && |idx| == |out|
    && (forall k | 0 <= k < |idx| :: idx[k] < |cs| && out[k] == cs[idx[k]])
    && (forall k, l | 0 <= k < l < |idx| :: idx[k] < idx[l])
  }

  /**
   * The output is the subsequence of the input made of exactly the chunks that
   * pass both guards, in their original order and unchanged.
   */
  lemma {:induction false} ApplySpec(cfg: Config, cs: seq<Chunk>)
    ensures Picks(Apply(cfg, cs), cs, KeptIndices(cfg, cs))
    ensures forall i | 0 <= i < |cs| :: i in KeptIndices(cfg, cs) <==> Keep(cfg, cs[i])
    ensures forall k | k in KeptIndices(cfg, cs) :: k < |cs|
    decreases |cs|
  {
    if cs != [] {
      var p := Init(cs);
      ApplySpec(cfg, p);
      assert forall i | 0 <= i < |p| :: cs[i] == p[i];
    }
  }

  /** Every chunk that comes out passes the guards: its trimmed text is long enough, and non-blank when removeEmpty. */
  lemma {:induction false} ApplyKeeps(cfg: Config, cs: seq<Chunk>)
    ensures forall c <- Apply(cfg, cs) :: Keep(cfg, c)
    ensures forall c <- Apply(cfg, cs) :: |Trim(c.text)| >= cfg.minLength && (cfg.removeEmpty ==> Trim(c.text) != [])
    decreases |cs|
  {
    if cs != [] {
      ApplyKeeps(cfg, Init(cs));
    }
  }

  /** A sequence whose chunks all pass comes through unchanged. */
  lemma {:induction false} ApplyAllKept(cfg: Config, cs: seq<Chunk>)
    requires forall i | 0 <= i < |cs| :: Keep(cfg, cs[i])
    ensures Apply(cfg, cs) == cs
    decreases |cs|
  {
    if cs != [] {
      var p, c := Init(cs), Last(cs);
      InitLast(cs);
      ApplyAllKept(cfg, p);
      assert Keep(cfg, c);
      assert Apply(cfg, cs) == p + [c];
    }
  }

  /** Filtering twice is filtering once. */
  lemma Idempotent(cfg: Config, cs: seq<Chunk>)
    ensures Apply(cfg, Apply(cfg, cs)) == Apply(cfg, cs)
  {
    ApplyKeeps(cfg, cs);
    var out := Apply(cfg, cs);
    assert forall i | 0 <= i < |out| :: out[i] in out;
    ApplyAllKept(cfg, out);
  }

  /** With minLength 0, '' and '   ' go and 'Hello' stays. */
  lemma BlankChunksRemoved()
    ensures var cs := [Chunk("", 0), Chunk("   ", 1), Chunk("Hello", 2)];
      Apply(Config(0, true), cs) == [Chunk("Hello", 2)]
  {
    var cs := [Chunk("", 0), Chunk("   ", 1), Chunk("Hello", 2)];
    var cfg := Config(0, true);
    assert Trim("   ") == [] by {
      TrimShape("   ");
      assert AllSpace("   ");
    }
    assert Trim("Hello") == "Hello" by {
      TrimmedIsFixed("Hello");
    }
    assert Init(cs) == [Chunk("", 0), Chunk("   ", 1)];
    assert Init(Init(cs)) == [Chunk("", 0)];
    assert Init(Init(Init(cs))) == [];
    assert Apply(cfg, [Chunk("", 0)]) == [];
    assert Apply(cfg, Init(cs)) == [];
  }
}
