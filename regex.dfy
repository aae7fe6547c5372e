/**
 * RegexChunkingStrategy: the buffer is cut by a regular expression, and the
 * delimiters it captures are dropped, appended to the text before them, or
 * prepended to the text after them. The regular expression engine itself is
 * not modelled: a pattern carries its validity and its preg_split as values.
 */
module Regex {
  import opened Wrappers
  import opened TextUtil
  import opened Chunks

  const Name: string := "regex"

  /** RegexDelimiterPosition; `NoDelimiter` is the enum's `None`. */
  datatype DelimiterPosition = NoDelimiter | Prefix | Suffix

  /** The preg_split flag each mode uses (lines 34-36). */
  datatype SplitFlag = NoEmpty | DelimCapture

  function FlagFor(mode: DelimiterPosition): SplitFlag {
    if mode == NoDelimiter then NoEmpty else DelimCapture
  }

  /**
   * A pattern: its source text, whether preg_match accepts it, and what
   * preg_split returns for a subject and a flag (None for false).
   */
  datatype Pattern = Pattern(source: string, valid: bool, split: (string, SplitFlag) -> Option<seq<string>>)

  datatype State = State(buffer: string, position: nat)

  const Initial: State := State("", 0)

  /** The constructor's pattern check (lines 19-21). */
  function CheckPattern(p: Pattern): (r: Option<Error>)
    ensures r.None? <==> p.valid
    ensures r.Some? ==> r.value == InvalidArgument("Invalid regex pattern: " + p.source)
  {
    if !p.valid then Some(InvalidArgument("Invalid regex pattern: " + p.source)) else None
  }

  /** createChunk's metadata (lines 113-117). */
  function RegexMeta(source: string, t: string): Metadata {
    map["strategy" := StrValue(Name), "length" := IntValue(|t|), "pattern" := StrValue(source)]
  }

  /** createChunk applied to each text in turn: positions count up from `pos`. */
  function Numbered(texts: seq<string>, pos: nat, source: string): (cs: seq<Chunk>)
    ensures |cs| == |texts|
  {
    seq(|texts|, i requires 0 <= i < |texts| => Chunk(texts[i], pos + i, RegexMeta(source, texts[i])))
  }

  /** Suffix mode (lines 79-84): each text with the delimiter after it, when there is one. */
  function SuffixPieces(ps: seq<string>): seq<string>
    decreases |ps|
  {
    if ps == [] then []
    else if |ps| == 1 then [ps[0]]
    else [ps[0] + ps[1]] + SuffixPieces(ps[2..])
  }

  /**
   * Prefix mode (lines 85-101): each text, where the delimiter before it has
   * been written into the array in front of it; a delimiter with no text
   * after it is kept only at the end of the stream.
   */
  function PrefixPieces(ps: seq<string>, isEnd: bool): seq<string>
    decreases |ps|
  {
    if ps == [] then []
    else if |ps| == 1 then [ps[0]]
    else if |ps| == 2 then [ps[0]] + (if isEnd then [ps[1]] else [])
    else [ps[0]] + PrefixPieces([ps[1] + ps[2]] + ps[3..], isEnd)
  }

  /** The pieces yieldParts trims and emits in each mode. */
  function Pieces(mode: DelimiterPosition, ps: seq<string>, isEnd: bool): seq<string> {
    match mode
    case NoDelimiter => ps
    case Suffix => SuffixPieces(ps)
    case Prefix => PrefixPieces(ps, isEnd)
  }

  /** yieldParts (lines 59-106): the non-blank trimmed pieces, numbered on from `pos`. */
  function Emit(mode: DelimiterPosition, ps: seq<string>, isEnd: bool, pos: nat, source: string): seq<Chunk> {
    Numbered(NonBlank(Pieces(mode, ps, isEnd)), pos, source)
  }

  /**
   * process(data, isEnd): when preg_split fails nothing is yielded and the
   * grown buffer is kept (lines 40-42); otherwise the last part is held back
   * unless at the end, '' when there are no parts (lines 44-49).
   */
  function Step(s: State, p: Pattern, mode: DelimiterPosition, data: string, isEnd: bool): (seq<Chunk>, State) {
    var buf := s.buffer + data;
    match p.split(buf, FlagFor(mode))
    case None => ([], State(buf, s.position))
    case Some(ps) =>
      var parts := if isEnd || ps == [] then ps else Init(ps);
      var buffer := if isEnd || ps == [] then [] else Last(ps);
      var cs := Emit(mode, parts, isEnd, s.position, p.source);
      (cs, State(buffer, s.position + |cs|))
  }

  // ----------------------------------------------------------- properties

  lemma NumberedSnoc(texts: seq<string>, t: string, pos: nat, source: string)
    ensures Numbered(texts + [t], pos, source) == Numbered(texts, pos, source) + [Chunk(t, pos + |texts|, RegexMeta(source, t))]
  {
  }

  /** The numbered chunks carry the texts, in order, with consecutive positions and the regex metadata. */
  lemma NumberedShape(texts: seq<string>, pos: nat, source: string)
    ensures var cs := Numbered(texts, pos, source);
      && Texts(cs) == texts
      && Consecutive(cs, pos)
      && forall c <- cs :: c.metadata == RegexMeta(source, c.text)
  {
  }

  /**
   * Each emitted chunk is a non-blank trimmed piece of the mode, in order;
   * positions continue from the old position, and the metadata names the
   * strategy, the length and the pattern.
   */
  lemma StepShape(s: State, p: Pattern, mode: DelimiterPosition, data: string, isEnd: bool)
    ensures var (cs, t) := Step(s, p, mode, data, isEnd);
      && Consecutive(cs, s.position)
      && t.position == s.position + |cs|
      && forall c <- cs :: c.text != [] && IsTrimmed(c.text) && c.metadata == RegexMeta(p.source, c.text)
  {
    var buf := s.buffer + data;
    match p.split(buf, FlagFor(mode))
    case None =>
    case Some(ps) =>
      var parts := if isEnd || ps == [] then ps else Init(ps);
      var texts := NonBlank(Pieces(mode, parts, isEnd));
      NonBlankShape(Pieces(mode, parts, isEnd));
      NumberedShape(texts, s.position, p.source);
      assert forall c <- Numbered(texts, s.position, p.source) :: c.text in texts;
  }

  /** The buffer after a call: the grown buffer when the split fails, else the last part or '' (lines 40-49). */
  lemma StepBuffer(s: State, p: Pattern, mode: DelimiterPosition, data: string, isEnd: bool)
    ensures var t := Step(s, p, mode, data, isEnd).1;
      match p.split(s.buffer + data, FlagFor(mode))
      case None => t.buffer == s.buffer + data && Step(s, p, mode, data, isEnd).0 == [] && t.position == s.position
      case Some(ps) => t.buffer == (if isEnd || ps == [] then [] else Last(ps))
  {
  }

  /** With no delimiter kept, the chunks are the trimmed non-blank parts (lines 61-68). */
  lemma NoDelimiterTexts(s: State, p: Pattern, data: string, ps: seq<string>, isEnd: bool)
    requires p.split(s.buffer + data, NoEmpty) == Some(ps)
    ensures Texts(Step(s, p, NoDelimiter, data, isEnd).0) == NonBlank(if isEnd || ps == [] then ps else Init(ps))
  {
    var parts := if isEnd || ps == [] then ps else Init(ps);
    NumberedShape(NonBlank(parts), s.position, p.source);
  }

  /** Suffix mode keeps every character: joined back, the pieces are the parts. */
  lemma {:induction false} SuffixPiecesConcat(ps: seq<string>)
    ensures Concat(SuffixPieces(ps)) == Concat(ps)
    decreases |ps|
  {
    if |ps| >= 2 {
      SuffixPiecesConcat(ps[2..]);
      assert ps[1..][1..] == ps[2..];
    }
  }

  /** Piece k of Suffix mode is text 2k followed by delimiter 2k + 1, when there is one. */
  lemma {:induction false} SuffixPiecesAt(ps: seq<string>)
    ensures |SuffixPieces(ps)| * 2 == |ps| || |SuffixPieces(ps)| * 2 == |ps| + 1
    ensures forall k | 0 <= k < |SuffixPieces(ps)| ::
      SuffixPieces(ps)[k] == ps[2 * k] + (if 2 * k + 1 < |ps| then ps[2 * k + 1] else [])
    decreases |ps|
  {
    if |ps| >= 2 {
      SuffixPiecesAt(ps[2..]);
      var r := SuffixPieces(ps[2..]);
      forall k | 1 <= k < |r| + 1
        ensures ([ps[0] + ps[1]] + r)[k] == ps[2 * k] + (if 2 * k + 1 < |ps| then ps[2 * k + 1] else [])
      {
        assert ([ps[0] + ps[1]] + r)[k] == r[k - 1];
        assert ps[2..][2 * (k - 1)] == ps[2 * k];
        if 2 * k + 1 < |ps| {
          assert ps[2..][2 * (k - 1) + 1] == ps[2 * k + 1];
        }
      }
    } else if |ps| == 1 {
      assert ps[0] + [] == ps[0];
    }
  }

  /** Joining the second and third parts first does not change the concatenation. */
  lemma ConcatThree(ps: seq<string>)
    requires |ps| >= 3
    ensures Concat(ps) == ps[0] + Concat([ps[1] + ps[2]] + ps[3..])
  {
    var c3 := Concat(ps[3..]);
    ConcatUnfold(ps);
    ConcatUnfold(ps[1..]);
    assert ps[1..][0] == ps[1] && ps[1..][1..] == ps[2..];
    ConcatUnfold(ps[2..]);
    assert ps[2..][0] == ps[2] && ps[2..][1..] == ps[3..];
    var q := [ps[1] + ps[2]] + ps[3..];
    ConcatUnfold(q);
    assert q[0] == ps[1] + ps[2] && q[1..] == ps[3..];
    AppendAssoc(ps[1], ps[2], c3);
  }

  lemma ConcatUnfold(ps: seq<string>)
    requires ps != []
    ensures Concat(ps) == ps[0] + Concat(ps[1..])
  {
  }

  /** At the end of the stream Prefix mode keeps every character. */
  lemma {:induction false} PrefixPiecesConcat(ps: seq<string>)
    ensures Concat(PrefixPieces(ps, true)) == Concat(ps)
    decreases |ps|
  {
    if |ps| == 2 {
      assert PrefixPieces(ps, true) == ps;
    } else if |ps| >= 3 {
      var q := [ps[1] + ps[2]] + ps[3..];
      PrefixPiecesConcat(q);
      ConcatThree(ps);
      ConcatAppend([ps[0]], PrefixPieces(q, true));
      assert Concat([ps[0]]) == ps[0];
    }
  }

  /**
   * Before the end of the stream an even number of parts ends with a
   * delimiter that has no text after it; Prefix mode neither emits it nor
   * keeps it, so it is missing from the output.
   */
  lemma {:induction false} PrefixDropsTrailingDelimiter(ps: seq<string>)
    requires |ps| >= 2 && |ps| % 2 == 0
    ensures Concat(PrefixPieces(ps, false)) + Last(ps) == Concat(ps)
    decreases |ps|
  {
    if |ps| == 2 {
      assert PrefixPieces(ps, false) == [ps[0]];
      assert Concat([ps[0]]) == ps[0];
      assert ps[1..][1..] == [];
      assert Concat(ps) == ps[0] + (ps[1] + []);
    } else {
      var q := [ps[1] + ps[2]] + ps[3..];
      PrefixDropsTrailingDelimiter(q);
      assert Last(q) == Last(ps);
      ConcatThree(ps);
      ConcatAppend([ps[0]], PrefixPieces(q, false));
      assert Concat([ps[0]]) == ps[0];
    }
  }

  /**
   * So when the split returns text, delimiter, ..., delimiter, fragment and
   * the stream goes on, the delimiter in front of the held-back fragment is
   * lost: the emitted pieces, that delimiter and the new buffer spell out
   * the grown buffer's parts.
   */
  lemma PrefixLosesDelimiterBeforeBuffer(s: State, p: Pattern, data: string, ps: seq<string>)
    requires p.split(s.buffer + data, DelimCapture) == Some(ps)
    requires |ps| >= 3 && |ps| % 2 == 1
    ensures var t := Step(s, p, Prefix, data, false).1;
      && t.buffer == Last(ps)
      && Concat(PrefixPieces(Init(ps), false)) + ps[|ps| - 2] + t.buffer == Concat(ps)
  {
    StepBuffer(s, p, Prefix, data, false);
    LastPartsSpelled(ps);
  }

  lemma LastPartsSpelled(ps: seq<string>)
    requires |ps| >= 3 && |ps| % 2 == 1
    ensures Concat(PrefixPieces(Init(ps), false)) + ps[|ps| - 2] + Last(ps) == Concat(ps)
  {
    var init := Init(ps);
    InitLast(ps);
    EvenBeforeOdd(|ps|, |init|);
    PrefixDropsTrailingDelimiter(init);
    assert Last(init) == ps[|ps| - 2];
    ConcatSnoc(init, Last(ps));
  }

  lemma EvenBeforeOdd(n: nat, m: nat)
    requires n % 2 == 1 && m + 1 == n
    ensures m % 2 == 0
  {
  }

  lemma {:induction false} ConcatSnoc(ps: seq<string>, q: string)
    ensures Concat(ps + [q]) == Concat(ps) + q
    decreases |ps|
  {
    if ps == [] {
      assert [] + [q] == [q];
      assert Concat([q]) == q + Concat([]);
    } else {
      assert (ps + [q])[1..] == ps[1..] + [q];
      ConcatSnoc(ps[1..], q);
    }
  }

  /**
   * A split into parts that are already trimmed and non-empty, such as
   * 'part1|part2|part3' by /\|/ or 'a,,b,,,c' by /,+/, yields one chunk per
   * part at the end of the stream.
   */
  lemma TrimmedPartsAtEnd(p: Pattern, text: string, ps: seq<string>)
    requires p.split(text, NoEmpty) == Some(ps)
    requires forall q <- ps :: q != [] && IsTrimmed(q)
    ensures Texts(Step(Initial, p, NoDelimiter, text, true).0) == ps
  {
    assert Initial.buffer + text == text;
    NoDelimiterTexts(Initial, p, text, ps, true);
    NonBlankOfTrimmed(ps);
  }

  lemma ThreeParts(p: Pattern)
    requires p.split("part1|part2|part3", NoEmpty) == Some(["part1", "part2", "part3"])
    ensures |Step(Initial, p, NoDelimiter, "part1|part2|part3", true).0| == 3
  {
    TrimmedPartsAtEnd(p, "part1|part2|part3", ["part1", "part2", "part3"]);
  }

  // ----------------------------------------------------------- the class

  class RegexStrategy {
    const pattern: Pattern
    const delimiterPosition: DelimiterPosition
    var buffer: string
    var position: nat

    function Current(): State
      reads this
    {
      State(buffer, position)
    }

    /** The constructor for a pattern that passed the check. */
    constructor (p: Pattern, mode: DelimiterPosition)
      requires p.valid
      ensures pattern == p && delimiterPosition == mode && Current() == Initial
    {
      pattern := p;
      delimiterPosition := mode;
      buffer := "";
      position := 0;
    }

    /** new RegexChunkingStrategy(pattern, delimiterPosition): fails for an invalid pattern. */
    static method Create(p: Pattern, mode: DelimiterPosition) returns (r: Result<RegexStrategy>)
      ensures r.Err? <==> !p.valid
      ensures r.Err? ==> Some(r.error) == CheckPattern(p)
      ensures r.Ok? ==> fresh(r.value) && r.value.pattern == p && r.value.delimiterPosition == mode
      ensures r.Ok? ==> r.value.Current() == Initial
    {
      var check := CheckPattern(p);
      if check.Some? {
        return Err(check.value);
      }
      var strategy := new RegexStrategy(p, mode);
      return Ok(strategy);
    }

    method Reset()
      modifies this
      ensures Current() == Initial
    {
      buffer := "";
      position := 0;
    }

    method Process(data: string, isEnd: bool) returns (chunks: seq<Chunk>)
      modifies this
      ensures (chunks, Current()) == Step(old(Current()), pattern, delimiterPosition, data, isEnd)
    {
      ghost var s0 := Current();
      buffer := buffer + data;
      var flag := if delimiterPosition == NoDelimiter then NoEmpty else DelimCapture;
      var split := pattern.split(buffer, flag);
      if split.None? {
        return [];
      }
      var parts := split.value;
      if !isEnd {
        if parts == [] {
          buffer := "";
        } else {
          buffer := Last(parts);
          parts := Init(parts);
        }
      } else {
        buffer := "";
      }
      var pos;
      chunks, pos := YieldParts(parts, delimiterPosition, isEnd, position, pattern.source);
      position := pos;
      ghost var r := Step(s0, pattern, delimiterPosition, data, isEnd);
      assert r.0 == chunks;
      assert r.1 == State(buffer, position);
    }
  }

  /** yieldParts (lines 59-106) on a local copy of the position. */
  method YieldParts(parts: seq<string>, mode: DelimiterPosition, isEnd: bool, pos0: nat, source: string)
    returns (chunks: seq<Chunk>, pos: nat)
    ensures chunks == Emit(mode, parts, isEnd, pos0, source)
    ensures pos == pos0 + |chunks|
  {
    if mode == NoDelimiter {
      chunks, pos := EachPart(parts, pos0, source);
    } else {
      chunks, pos := PairedParts(parts, mode, isEnd, pos0, source);
    }
  }

  /** The foreach loop of lines 62-68. */
  method EachPart(parts: seq<string>, pos0: nat, source: string) returns (chunks: seq<Chunk>, pos: nat)
    ensures chunks == Numbered(NonBlank(parts), pos0, source)
    ensures pos == pos0 + |chunks|
  {
    chunks, pos := [], pos0;
    for i := 0 to |parts|
      invariant chunks == Numbered(NonBlank(parts[..i]), pos0, source)
      invariant pos == pos0 + |chunks|
    {
      assert parts[..i + 1] == parts[..i] + [parts[i]];
      chunks, pos := EmitOne(chunks, pos, parts[..i], parts[i], pos0, source);
    }
    assert parts[..|parts|] == parts;
  }

  /**
   * The while loop of lines 75-105 over text/delimiter pairs; in Prefix mode
   * it writes each delimiter into the array in front of the next text.
   */
  method PairedParts(parts0: seq<string>, mode: DelimiterPosition, isEnd: bool, pos0: nat, source: string)
    returns (chunks: seq<Chunk>, pos: nat)
    requires mode != NoDelimiter
    ensures chunks == Numbered(NonBlank(Pieces(mode, parts0, isEnd)), pos0, source)
    ensures pos == pos0 + |chunks|
  {
    chunks, pos := [], pos0;
    var parts := parts0;
    ghost var done: seq<string> := [];
    var i := 0;
    while i < |parts|
      invariant |parts| == |parts0|
      invariant Pieces(mode, parts0, isEnd) == done + Pieces(mode, Rest(parts, i), isEnd)
      invariant chunks == Numbered(NonBlank(done), pos0, source)
      invariant pos == pos0 + |chunks|
      decreases |parts| - i
    {
      parts, chunks, pos, done := PairStep(parts, i, mode, isEnd, chunks, pos, done, pos0, source);
      i := i + 2;
    }
    assert Rest(parts, i) == [];
    assert done + [] == done;
  }

  /** One pass of that loop: the pair at i and i + 1. */
  method PairStep(parts0: seq<string>, i: nat, mode: DelimiterPosition, isEnd: bool,
                  chunks0: seq<Chunk>, pos0: nat, ghost done0: seq<string>, ghost start: nat, source: string)
    returns (parts: seq<string>, chunks: seq<Chunk>, pos: nat, ghost done: seq<string>)
    requires mode != NoDelimiter && i < |parts0|
    requires chunks0 == Numbered(NonBlank(done0), start, source) && pos0 == start + |chunks0|
    ensures |parts| == |parts0|
    ensures done0 + Pieces(mode, Rest(parts0, i), isEnd) == done + Pieces(mode, Rest(parts, i + 2), isEnd)
    ensures chunks == Numbered(NonBlank(done), start, source) && pos == start + |chunks|
  {
    if mode == Suffix {
      parts := parts0;
      chunks, pos, done := SuffixPair(parts, i, chunks0, pos0, done0, start, source);
    } else {
      parts, chunks, pos, done := PrefixPair(parts0, i, isEnd, chunks0, pos0, done0, start, source);
    }
  }

  /** The Suffix branch (lines 79-84). */
  method SuffixPair(parts: seq<string>, i: nat,
                    chunks0: seq<Chunk>, pos0: nat, ghost done0: seq<string>, ghost start: nat, source: string)
    returns (chunks: seq<Chunk>, pos: nat, ghost done: seq<string>)
    requires i < |parts|
    requires chunks0 == Numbered(NonBlank(done0), start, source) && pos0 == start + |chunks0|
    ensures done0 + SuffixPieces(Rest(parts, i)) == done + SuffixPieces(Rest(parts, i + 2))
    ensures chunks == Numbered(NonBlank(done), start, source) && pos == start + |chunks|
  {
    var text := parts[i];
    var delimiter := if i + 1 < |parts| then Some(parts[i + 1]) else None;
    var combined := if delimiter.Some? then text + delimiter.value else text;
    assert combined == parts[i] + (if i + 1 < |parts| then parts[i + 1] else []) by {
      if delimiter.None? {
        assert text + [] == text;
      }
    }
    SuffixStep(parts, i);
    chunks, pos := EmitOne(chunks0, pos0, done0, combined, start, source);
    done := done0 + [combined];
    AppendAssoc(done0, [combined], SuffixPieces(Rest(parts, i + 2)));
  }

  /** The Prefix branch (lines 85-101), which writes the delimiter in front of the next text. */
  method PrefixPair(parts0: seq<string>, i: nat, isEnd: bool,
                    chunks0: seq<Chunk>, pos0: nat, ghost done0: seq<string>, ghost start: nat, source: string)
    returns (parts: seq<string>, chunks: seq<Chunk>, pos: nat, ghost done: seq<string>)
    requires i < |parts0|
    requires chunks0 == Numbered(NonBlank(done0), start, source) && pos0 == start + |chunks0|
    ensures |parts| == |parts0|
    ensures done0 + PrefixPieces(Rest(parts0, i), isEnd) == done + PrefixPieces(Rest(parts, i + 2), isEnd)
    ensures chunks == Numbered(NonBlank(done), start, source) && pos == start + |chunks|
  {
    parts := parts0;
    var text := parts[i];
    var delimiter := if i + 1 < |parts| then Some(parts[i + 1]) else None;
    PrefixStep(parts, i, isEnd);
    chunks, pos := EmitOne(chunks0, pos0, done0, text, start, source);
    done := done0 + [text];
    if delimiter.Some? && i + 2 < |parts| {
      parts := parts[i + 2 := delimiter.value + parts[i + 2]];
      RestAfterWrite(parts0, i, parts);
      AppendAssoc(done0, [text], PrefixPieces(Rest(parts, i + 2), isEnd));
    } else if delimiter.Some? && i + 2 >= |parts| {
      if isEnd {
        chunks, pos := EmitOne(chunks, pos, done, delimiter.value, start, source);
        done := done + [delimiter.value];
      }
      assert Rest(parts, i + 2) == [];
      assert done0 + [text] + (if isEnd then [parts[i + 1]] else []) + [] == done;
    } else {
      assert Rest(parts, i + 2) == [];
      assert done0 + [text] + [] == done;
    }
  }

  /** What is left of the parts from index i on. */
  function Rest(parts: seq<string>, i: nat): seq<string> {
    if i < |parts| then parts[i..] else []
  }

  /** Trim one piece and emit it unless it is blank. */
  method EmitOne(chunks0: seq<Chunk>, pos0: nat, ghost done: seq<string>, piece: string, ghost start: nat, source: string)
    returns (chunks: seq<Chunk>, pos: nat)
    requires chunks0 == Numbered(NonBlank(done), start, source) && pos0 == start + |chunks0|
    ensures chunks == Numbered(NonBlank(done + [piece]), start, source) && pos == start + |chunks|
  {
    var trimmed := Trim(piece);
    NonBlankSnoc(done, piece);
    if trimmed == [] {
      return chunks0, pos0;
    }
    NumberedSnoc(NonBlank(done), trimmed, start, source);
    chunks := chunks0 + [Chunk(trimmed, pos0, RegexMeta(source, trimmed))];
    pos := pos0 + 1;
  }

  /** One pass of the Suffix branch: the text with its delimiter, then the pairs after them. */
  lemma SuffixStep(parts: seq<string>, i: nat)
    requires i < |parts|
    ensures SuffixPieces(Rest(parts, i)) ==
      [parts[i] + (if i + 1 < |parts| then parts[i + 1] else [])] + SuffixPieces(Rest(parts, i + 2))
  {
    var rest := parts[i..];
    if |rest| == 1 {
      assert parts[i] + [] == parts[i];
    } else {
      assert rest[2..] == Rest(parts, i + 2);
    }
  }

  /** One pass of the Prefix branch, by how many parts are left. */
  lemma PrefixStep(parts: seq<string>, i: nat, isEnd: bool)
    requires i < |parts|
    ensures i + 2 < |parts| ==>
      PrefixPieces(Rest(parts, i), isEnd) == [parts[i]] + PrefixPieces([parts[i + 1] + parts[i + 2]] + parts[i + 3..], isEnd)
    ensures i + 2 == |parts| ==> PrefixPieces(Rest(parts, i), isEnd) == [parts[i]] + (if isEnd then [parts[i + 1]] else [])
    ensures i + 1 == |parts| ==> PrefixPieces(Rest(parts, i), isEnd) == [parts[i]]
  {
    var rest := parts[i..];
    if i + 2 < |parts| {
      assert rest[3..] == parts[i + 3..];
    }
  }

  /** Writing the combined part at i + 2 leaves the remaining parts PrefixPieces recurses on. */
  lemma RestAfterWrite(before: seq<string>, i: nat, after: seq<string>)
    requires i + 2 < |before|
    requires after == before[i + 2 := before[i + 1] + before[i + 2]]
    ensures Rest(after, i + 2) == [before[i + 1] + before[i + 2]] + before[i + 3..]
  {
    assert after[i + 3..] == before[i + 3..];
  }
}
