/**
 * TokenLimitPostProcessor: estimate a chunk's tokens as ceil(length / cpt); a
 * chunk within maxTokens passes tagged with the estimate, a larger one is cut
 * into consecutive slices of maxTokens * cpt characters.
 */
module TokenLimit {
  import opened Wrappers
  import opened TextUtil
  import opened Chunks

  /** The default number of characters per token. */
  const CharactersPerToken: nat := 4

  datatype Config = Config(maxTokens: nat, charactersPerToken: nat)

  /** What the constructor accepts. */
  predicate Valid(cfg: Config) {
    cfg.maxTokens > 0 && cfg.charactersPerToken > 0
  }

  /** The constructor: both numbers must be positive, maxTokens checked first. */
  function Create(maxTokens: int, charactersPerToken: int := CharactersPerToken): (r: Result<Config>)
    ensures r.Ok? <==> maxTokens > 0 && charactersPerToken > 0
    ensures r.Ok? ==> Valid(r.value) && r.value == Config(maxTokens, charactersPerToken)
    ensures maxTokens <= 0 ==> r == Err(InvalidArgument("Max tokens must be > 0"))
    ensures maxTokens > 0 && charactersPerToken <= 0 ==> r == Err(InvalidArgument("Characters per token must be > 0"))
  {
    if maxTokens <= 0 then Err(InvalidArgument("Max tokens must be > 0"))
    else if charactersPerToken <= 0 then Err(InvalidArgument("Characters per token must be > 0"))
    else Ok(Config(maxTokens, charactersPerToken))
  }

  /** estimateTokens: ceil(|t| / cpt), the fewest tokens of cpt characters that cover t. */
  function Estimate(t: string, cpt: nat): (e: nat)
    requires cpt > 0
    ensures e * cpt >= |t| && (e - 1) * cpt < |t|
  {
    var n := |t| + cpt - 1;
    assert n == (n / cpt) * cpt + n % cpt;
    n / cpt
  }

  /** The metadata of a chunk that passes whole. */
  function PassMeta(e: nat, maxTokens: nat): Metadata {
    map["estimated_tokens" := IntValue(e), "token_limit" := IntValue(maxTokens)]
  }

  /** The metadata of slice j of an oversized chunk. */
  function SliceMeta(cfg: Config, slice: string, j: nat): Metadata
    requires Valid(cfg)
  {
    map["estimated_tokens" := IntValue(Estimate(slice, cfg.charactersPerToken)),
        "token_limit" := IntValue(cfg.maxTokens),
        "split_from_original" := BoolValue(true),
        "sub_position" := IntValue(j)]
  }

  /** mb_substr(text, offset, m) for offset = 0, m, 2m, … while offset < |text|. */
  function Slices(t: string, m: nat): seq<string>
    requires m > 0
    decreases |t|
  {
    if t == [] then []
    else if |t| <= m then [t]
    else [t[..m]] + Slices(t[m..], m)
  }

  /** splitChunk: one chunk per slice, all at the original position, numbered by sub_position. */
  function Split(cfg: Config, c: Chunk): seq<Chunk>
    requires Valid(cfg)
  {
    var ss := Slices(c.text, cfg.maxTokens * cfg.charactersPerToken);
    seq(|ss|, j requires 0 <= j < |ss| => Chunk(ss[j], c.position, c.metadata + SliceMeta(cfg, ss[j], j)))
  }

  /** One iteration of process. */
  function One(cfg: Config, c: Chunk): seq<Chunk>
    requires Valid(cfg)
  {
    var e := Estimate(c.text, cfg.charactersPerToken);
    if e <= cfg.maxTokens then [c.WithMetadata(PassMeta(e, cfg.maxTokens))]
    else Split(cfg, c)
  }

  /** process: the chunks of every input chunk, in order. */
  function Apply(cfg: Config, cs: seq<Chunk>): seq<Chunk>
    requires Valid(cfg)
    decreases |cs|
  {
    if cs == [] then [] else One(cfg, cs[0]) + Apply(cfg, cs[1..])
  }

  // ---------------------------------------------------------------- the loops

  /** The while loop of splitChunk over offset and subPosition. */
  method SplitChunk(cfg: Config, c: Chunk) returns (out: seq<Chunk>)
    requires Valid(cfg)
    ensures out == Split(cfg, c)
  {
    var text := c.text;
    var maxChars := cfg.maxTokens * cfg.charactersPerToken;
    var offset := 0;
    var subPosition := 0;
    out := [];
    ghost var ss := Slices(text, maxChars);
    while offset < |text|
      invariant subPosition <= |ss|
      invariant offset < |text| ==> ss[subPosition..] == Slices(text[offset..], maxChars)
      invariant offset >= |text| ==> subPosition == |ss|
      invariant |out| == subPosition
      invariant forall j | 0 <= j < subPosition :: out[j] == Chunk(ss[j], c.position, c.metadata + SliceMeta(cfg, ss[j], j))
      decreases |text| - offset
    {
      var rest := text[offset..];
      var subText := if |rest| <= maxChars then rest else rest[..maxChars];
      SlicesHead(rest, maxChars);
      DropHead(ss, subPosition);
      out := out + [Chunk(subText, c.position, c.metadata + SliceMeta(cfg, subText, subPosition))];
      if |rest| > maxChars {
        DropDrop(text, offset, maxChars);
      }
      offset := offset + maxChars;
      subPosition := subPosition + 1;
    }
  }

  /** The first slice, and the slices after it. */
  lemma SlicesHead(t: string, m: nat)
    requires m > 0 && t != []
    ensures Slices(t, m) != []
    ensures Slices(t, m)[0] == if |t| <= m then t else t[..m]
    ensures |t| <= m ==> Slices(t, m)[1..] == []
    ensures |t| > m ==> Slices(t, m)[1..] == Slices(t[m..], m)
  {
  }

  lemma DropHead<T>(s: seq<T>, k: nat)
    requires k < |s|
    ensures s[k..] != [] && s[k..][0] == s[k] && s[k..][1..] == s[k + 1..]
  {
  }

  lemma DropDrop(t: string, a: nat, b: nat)
    requires a + b <= |t|
    ensures t[a..][b..] == t[a + b..]
  {
  }

  /** The foreach loop of process. */
  method Process(cfg: Config, cs: seq<Chunk>) returns (out: seq<Chunk>)
    requires Valid(cfg)
    ensures out == Apply(cfg, cs)
  {
    out := [];
    for i := 0 to |cs|
      invariant Apply(cfg, cs) == out + Apply(cfg, cs[i..])
    {
      ghost var rest := cs[i..];
      assert rest[0] == cs[i] && rest[1..] == cs[i + 1..];
      var chunk := cs[i];
      var estimatedTokens := Estimate(chunk.text, cfg.charactersPerToken);
      var produced: seq<Chunk>;
      if estimatedTokens <= cfg.maxTokens {
        produced := [chunk.WithMetadata(PassMeta(estimatedTokens, cfg.maxTokens))];
      } else {
        produced := SplitChunk(cfg, chunk);
      }
      AppendAssoc(out, produced, Apply(cfg, cs[i + 1..]));
      out := out + produced;
    }
    assert cs[|cs|..] == [];
    assert out + [] == out;
  }

  // ---------------------------------------------------------------- properties

  /**
   * The slices concatenate to the text; each is non-empty and at most m long,
   * and every slice but the last is exactly m long.
   */
  lemma SlicesSpec(t: string, m: nat)
    requires m > 0
    ensures Concat(Slices(t, m)) == t
    ensures forall s <- Slices(t, m) :: 0 < |s| <= m
    ensures forall j | 0 <= j < |Slices(t, m)| - 1 :: |Slices(t, m)[j]| == m
  {
    SlicesConcat(t, m);
    SlicesBounded(t, m);
    SlicesFull(t, m);
  }

  lemma {:induction false} SlicesConcat(t: string, m: nat)
    requires m > 0
    ensures Concat(Slices(t, m)) == t
    decreases |t|
  {
    if t != [] && |t| > m {
      SlicesConcat(t[m..], m);
      assert Concat(Slices(t, m)) == t[..m] + Concat(Slices(t[m..], m));
      assert t[..m] + t[m..] == t;
    } else if t != [] {
      assert Concat([t]) == t + Concat([]);
    }
  }

  lemma {:induction false} SlicesBounded(t: string, m: nat)
    requires m > 0
    ensures forall s <- Slices(t, m) :: 0 < |s| <= m
    decreases |t|
  {
    if t != [] && |t| > m {
      SlicesBounded(t[m..], m);
      assert Slices(t, m) == [t[..m]] + Slices(t[m..], m);
    }
  }

  lemma {:induction false} SlicesFull(t: string, m: nat)
    requires m > 0
    ensures forall j | 0 <= j < |Slices(t, m)| - 1 :: |Slices(t, m)[j]| == m
    decreases |t|
  {
    if t != [] && |t| > m {
      SlicesFull(t[m..], m);
      var ss := Slices(t, m);
      var later := Slices(t[m..], m);
      assert ss == [t[..m]] + later;
      forall j | 0 <= j < |ss| - 1 ensures |ss[j]| == m {
        if j > 0 { assert ss[j] == later[j - 1]; }
      }
    }
  }

  /** A text of at most maxTokens * cpt characters is estimated at at most maxTokens. */
  lemma EstimateBound(t: string, maxTokens: nat, cpt: nat)
    requires cpt > 0 && |t| <= maxTokens * cpt
    ensures Estimate(t, cpt) <= maxTokens
  {
    var e := Estimate(t, cpt);
    if e > maxTokens {
      MulMono(e - 1, maxTokens, cpt);
    }
  }

  lemma MulMono(a: int, b: int, c: nat)
    requires a >= b
    ensures a * c >= b * c
  {
  }

  /**
   * Every slice keeps the original position and metadata, adds
   * split_from_original and its sub_position, and is estimated within the limit;
   * the slice texts concatenate to the original text.
   */
  lemma SplitSpec(cfg: Config, c: Chunk)
    requires Valid(cfg)
    ensures Concat(Texts(Split(cfg, c))) == c.text
    ensures forall j | 0 <= j < |Split(cfg, c)| ::
      var s := Split(cfg, c)[j];
      && s.position == c.position
      && s.metadata == c.metadata + SliceMeta(cfg, s.text, j)
      && 0 < |s.text| <= cfg.maxTokens * cfg.charactersPerToken
      && Estimate(s.text, cfg.charactersPerToken) <= cfg.maxTokens
  {
    var m := cfg.maxTokens * cfg.charactersPerToken;
    SlicesSpec(c.text, m);
    var ss := Slices(c.text, m);
    assert Texts(Split(cfg, c)) == ss;
    forall j | 0 <= j < |ss| ensures Estimate(ss[j], cfg.charactersPerToken) <= cfg.maxTokens {
      assert ss[j] in ss;
      EstimateBound(ss[j], cfg.maxTokens, cfg.charactersPerToken);
    }
  }

  /** A chunk within the limit passes with its text and position, tagged with the estimate and the limit. */
  lemma PassThrough(cfg: Config, c: Chunk)
    requires Valid(cfg) && Estimate(c.text, cfg.charactersPerToken) <= cfg.maxTokens
    ensures One(cfg, c) == [Chunk(c.text, c.position, c.metadata + PassMeta(Estimate(c.text, cfg.charactersPerToken), cfg.maxTokens))]
  {
  }

  /** No characters are lost or added: the output texts concatenate to the input texts. */
  lemma {:induction false} Conserves(cfg: Config, cs: seq<Chunk>)
    requires Valid(cfg)
    ensures Concat(Texts(Apply(cfg, cs))) == Concat(Texts(cs))
    decreases |cs|
  {
    if cs != [] {
      Conserves(cfg, cs[1..]);
      OneConserves(cfg, cs[0]);
      ConcatTextsAppend(One(cfg, cs[0]), Apply(cfg, cs[1..]));
      ConcatTextsAppend([cs[0]], cs[1..]);
      assert [cs[0]] + cs[1..] == cs;
      assert Concat(Texts([cs[0]])) == cs[0].text by {
        assert Texts([cs[0]]) == [cs[0].text];
        assert Concat([cs[0].text]) == cs[0].text + Concat([]);
      }
    }
  }

  lemma ConcatTextsAppend(a: seq<Chunk>, b: seq<Chunk>)
    ensures Concat(Texts(a + b)) == Concat(Texts(a)) + Concat(Texts(b))
  {
    assert Texts(a + b) == Texts(a) + Texts(b);
    ConcatAppend(Texts(a), Texts(b));
  }

  lemma OneConserves(cfg: Config, c: Chunk)
    requires Valid(cfg)
    ensures Concat(Texts(One(cfg, c))) == c.text
  {
    if Estimate(c.text, cfg.charactersPerToken) <= cfg.maxTokens {
      var o := One(cfg, c);
      assert Texts(o) == [c.text];
      assert Concat([c.text]) == c.text + Concat([]);
    } else {
      SplitSpec(cfg, c);
    }
  }

  /** Every output chunk is estimated within the limit. */
  lemma {:induction false} WithinLimit(cfg: Config, cs: seq<Chunk>)
    requires Valid(cfg)
    ensures forall c <- Apply(cfg, cs) :: Estimate(c.text, cfg.charactersPerToken) <= cfg.maxTokens
    decreases |cs|
  {
    if cs != [] {
      WithinLimit(cfg, cs[1..]);
      var o := One(cfg, cs[0]);
      if Estimate(cs[0].text, cfg.charactersPerToken) > cfg.maxTokens {
        SplitSpec(cfg, cs[0]);
        forall c <- o ensures Estimate(c.text, cfg.charactersPerToken) <= cfg.maxTokens {
          var j :| 0 <= j < |o| && o[j] == c;
        }
      }
    }
  }

  /** 50 'A' with 5 tokens of 4 characters: three slices of 20, 20 and 10, all marked as split. */
  lemma FiftyCharactersSplit()
    ensures var out := Apply(Config(5, 4), [Chunk(seq(50, _ => 'A'), 0)]);
      && |out| == 3 > 1
      && (forall c <- out :: "split_from_original" in c.metadata && c.metadata["split_from_original"] == BoolValue(true))
      && |out[0].text| == 20 && |out[1].text| == 20 && |out[2].text| == 10
  {
    var cfg := Config(5, 4);
    var t := seq(50, _ => 'A');
    var c := Chunk(t, 0);
    assert Estimate(t, 4) == 13;
    assert Slices(t, 20) == [t[..20]] + Slices(t[20..], 20);
    assert Slices(t[20..], 20) == [t[20..][..20]] + Slices(t[20..][20..], 20);
    assert Slices(t[20..][20..], 20) == [t[20..][20..]];
    var out := Split(cfg, c);
    assert |out| == 3;
    assert One(cfg, c) == out;
    assert Apply(cfg, [c]) == out + Apply(cfg, []);
    assert out + [] == out;
    forall x <- out ensures "split_from_original" in x.metadata && x.metadata["split_from_original"] == BoolValue(true) {
      var j :| 0 <= j < 3 && out[j] == x;
    }
  }
}
