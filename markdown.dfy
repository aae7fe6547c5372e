/**
 * MarkdownChunkingStrategy: complete lines are cut at headings of a chosen
 * range of levels; the text before the first heading becomes one chunk and
 * each heading with the text after it another. The regular expression split
 * itself is not modelled: preg_split is a parameter, and the layout of the
 * parts it returns for headings is stated as a reference definition.
 */
module Markdown {
  import opened Wrappers
  import opened TextUtil
  import opened Chunks

  const Name: string := "markdown"

  /**
   * preg_split(pattern, subject, -1, PREG_SPLIT_DELIM_CAPTURE |
   * PREG_SPLIT_NO_EMPTY): the parts, or None for false.
   */
  type Splitter = (string, string) -> Option<seq<string>>

  datatype State = State(buffer: string, position: nat)

  const Initial: State := State("", 0)

  predicate ValidLevels(minLevel: int, maxLevel: int) {
    1 <= minLevel <= maxLevel <= 6
  }

  /** The constructor's range checks (lines 19-27), in their order. */
  function CheckLevels(minLevel: int, maxLevel: int): (r: Option<Error>)
    ensures r.None? <==> ValidLevels(minLevel, maxLevel)
    ensures (minLevel < 1 || minLevel > 6) ==> r == Some(InvalidArgument("minHeadingLevel must be between 1 and 6"))
    ensures 1 <= minLevel <= 6 && (maxLevel < 1 || maxLevel > 6) ==> r == Some(InvalidArgument("maxHeadingLevel must be between 1 and 6"))
  {
    if minLevel < 1 || minLevel > 6 then Some(InvalidArgument("minHeadingLevel must be between 1 and 6"))
    else if maxLevel < 1 || maxLevel > 6 then Some(InvalidArgument("maxHeadingLevel must be between 1 and 6"))
    else if minLevel > maxLevel then Some(InvalidArgument("minHeadingLevel must be <= maxHeadingLevel"))
    else None
  }

  function Digit(n: int): string
    requires 0 <= n <= 9
  {
    ["0123456789"[n]]
  }

  /** The heading pattern of line 53, with the two levels written in. */
  function HeadingPattern(minLevel: int, maxLevel: int): string
    requires ValidLevels(minLevel, maxLevel)
  {
    "/^(#{" + Digit(minLevel) + "," + Digit(maxLevel) + "})\\s+(.+)$/m"
  }

  // ----------------------------------------------------------- complete lines

  /**
   * Lines 38-51: the text this call processes and the buffer it keeps, or
   * None when, before the end, the buffer holds no newline yet.
   */
  function ToProcess(buf: string, isEnd: bool): Option<(string, string)> {
    if isEnd then Some((buf, ""))
    else
      match LastIndexOfChar(buf, '\n')
      case None => None
      case Some(k) => Some((buf[..k + 1], buf[k + 1..]))
  }

  /**
   * Before the end, nothing is processed iff there is no newline; otherwise
   * exactly the text up to and including the last newline is, and the rest
   * is kept. At the end everything is processed.
   */
  lemma ToProcessSpec(buf: string, isEnd: bool)
    ensures !isEnd ==> (ToProcess(buf, isEnd).None? <==> '\n' !in buf)
    ensures ToProcess(buf, isEnd).Some? ==>
      var (text, rest) := ToProcess(buf, isEnd).value;
      && text + rest == buf
      && '\n' !in rest
      && (!isEnd ==> text != [] && text[|text| - 1] == '\n')
    ensures isEnd ==> ToProcess(buf, isEnd) == Some((buf, ""))
  {
    if !isEnd && LastIndexOfChar(buf, '\n').Some? {
      var k := LastIndexOfChar(buf, '\n').value;
      assert buf[..k + 1] + buf[k + 1..] == buf;
    }
  }

  // ----------------------------------------------------------- the parts

  predicate AllHashes(h: string) {
    forall i | 0 <= i < |h| :: h[i] == '#'
  }

  /** preg_match('/^#{1,6}$/', s): one to six '#', optionally followed by one final newline. */
  predicate IsHashRun(s: string) {
    var h := if s != [] && s[|s| - 1] == '\n' then s[..|s| - 1] else s;
    1 <= |h| <= 6 && AllHashes(h)
  }

  /** The text of a section (line 96): the heading line, then the trimmed content if any. */
  function SectionText(hashes: string, heading: string, content: string): string {
    var t := Trim(content);
    if t != [] then hashes + " " + heading + "\n" + t else hashes + " " + heading
  }

  /** The metadata of a section (lines 101-106). */
  function SectionMeta(text: string, hashes: string, heading: string): Metadata {
    map["strategy" := StrValue(Name), "length" := IntValue(|text|),
        "heading_level" := IntValue(|hashes|), "heading_text" := StrValue(Trim(heading))]
  }

  function SectionChunk(hashes: string, heading: string, content: string, pos: nat): Chunk {
    var text := SectionText(hashes, heading, content);
    Chunk(text, pos, SectionMeta(text, hashes, heading))
  }

  /** The metadata of the text before the first heading (lines 73-78). */
  function PreMeta(text: string): Metadata {
    map["strategy" := StrValue(Name), "length" := IntValue(|text|),
        "heading_level" := NullValue, "heading_text" := NullValue]
  }

  /** The parts from index i on, or none when i is past the end. */
  function From(ps: seq<string>, i: nat): seq<string> {
    if i >= |ps| then [] else ps[i..]
  }

  /**
   * The while loop of lines 85-111 on the parts still to walk: three parts
   * (hashes, heading, content) per chunk, the content '' when it is
   * missing; it stops when fewer than two parts are left.
   */
  function Sections(ps: seq<string>, pos: nat): seq<Chunk>
    decreases |ps|
  {
    if |ps| < 2 then []
    else [SectionChunk(ps[0], ps[1], if |ps| > 2 then ps[2] else "", pos)] + Sections(From(ps, 3), pos + 1)
  }

  /** The chunk for the text before the first heading, if its trim is non-empty (lines 67-83). */
  function PreChunk(pre: string, pos: nat): seq<Chunk> {
    var t := Trim(pre);
    if t != [] then [Chunk(t, pos, PreMeta(t))] else []
  }

  /** The chunks of the parts (lines 64-111): the first part is taken as text unless it looks like hashes. */
  function PartsChunks(parts: seq<string>, pos: nat): seq<Chunk> {
    if |parts| > 0 && !IsHashRun(parts[0]) then
      var head := PreChunk(parts[0], pos);
      head + Sections(parts[1..], pos + |head|)
    else Sections(parts, pos)
  }

  /** process(data, isEnd); the position goes up by one per chunk. */
  function Step(s: State, minLevel: int, maxLevel: int, split: Splitter, data: string, isEnd: bool): (seq<Chunk>, State)
    requires ValidLevels(minLevel, maxLevel)
  {
    var buf := s.buffer + data;
    match ToProcess(buf, isEnd)
    case None => ([], State(buf, s.position))
    case Some(cut) => StepCut(s.position, minLevel, maxLevel, split, cut.0, cut.1)
  }

  /** The part of process after the cut: split `text` at the headings, keep `rest` as the buffer. */
  function StepCut(pos: nat, minLevel: int, maxLevel: int, split: Splitter, text: string, rest: string): (seq<Chunk>, State)
    requires ValidLevels(minLevel, maxLevel)
  {
    match split(HeadingPattern(minLevel, maxLevel), text)
    case None => ([], State(rest, pos))
    case Some(parts) =>
      var cs := PartsChunks(parts, pos);
      (cs, State(rest, pos + |cs|))
  }

  // ----------------------------------------------------------- properties of process

  /** Without a newline, before the end, nothing is emitted and the data is kept. */
  lemma NoNewlineKeepsAll(s: State, minLevel: int, maxLevel: int, split: Splitter, data: string)
    requires ValidLevels(minLevel, maxLevel)
    requires '\n' !in s.buffer + data
    ensures Step(s, minLevel, maxLevel, split, data, false) == ([], State(s.buffer + data, s.position))
  {
    ToProcessSpec(s.buffer + data, false);
  }

  /**
   * The kept buffer is what follows the last newline (everything is
   * processed at the end), and positions continue, one per chunk.
   */
  lemma StepShape(s: State, minLevel: int, maxLevel: int, split: Splitter, data: string, isEnd: bool)
    requires ValidLevels(minLevel, maxLevel)
    ensures var (cs, t) := Step(s, minLevel, maxLevel, split, data, isEnd);
      && '\n' !in t.buffer
      && (isEnd ==> t.buffer == [])
      && Consecutive(cs, s.position)
      && t.position == s.position + |cs|
  {
    var buf := s.buffer + data;
    ToProcessSpec(buf, isEnd);
    if ToProcess(buf, isEnd).Some? {
      var (text, rest) := ToProcess(buf, isEnd).value;
      if split(HeadingPattern(minLevel, maxLevel), text).Some? {
        PartsChunksConsecutive(split(HeadingPattern(minLevel, maxLevel), text).value, s.position);
      }
    }
  }

  lemma {:induction false} SectionsConsecutive(ps: seq<string>, pos: nat)
    ensures Consecutive(Sections(ps, pos), pos)
    decreases |ps|
  {
    if |ps| >= 2 {
      SectionsConsecutive(From(ps, 3), pos + 1);
      ConsecutiveAppend([SectionChunk(ps[0], ps[1], if |ps| > 2 then ps[2] else "", pos)], Sections(From(ps, 3), pos + 1), pos);
    }
  }

  /** Positions are consecutive across the chunk before the first heading and the sections. */
  lemma PartsChunksConsecutive(parts: seq<string>, pos: nat)
    ensures Consecutive(PartsChunks(parts, pos), pos)
  {
    if |parts| > 0 && !IsHashRun(parts[0]) {
      var head := PreChunk(parts[0], pos);
      HeadConsecutive(parts[0], pos);
      SectionsConsecutive(parts[1..], pos + |head|);
      ConsecutiveAppend(head, Sections(parts[1..], pos + |head|), pos);
    } else {
      SectionsConsecutive(parts, pos);
    }
  }

  lemma HeadConsecutive(pre: string, pos: nat)
    ensures Consecutive(PreChunk(pre, pos), pos)
  {
  }

  // ----------------------------------------------------------- the layout of heading splits

  /** A heading with the text after it, up to the next heading. */
  datatype Section = Section(hashes: string, heading: string, content: string)

  /** The parts preg_split returns for the sections: PREG_SPLIT_NO_EMPTY drops an empty content. */
  function SectionParts(ss: seq<Section>): seq<string>
    decreases |ss|
  {
    if ss == [] then []
    else [ss[0].hashes, ss[0].heading] + (if ss[0].content == "" then [] else [ss[0].content]) + SectionParts(ss[1..])
  }

  /** The parts for a text `pre` followed by the sections. */
  function Layout(pre: string, ss: seq<Section>): seq<string> {
    (if pre == "" then [] else [pre]) + SectionParts(ss)
  }

  /**
   * What the heading pattern captures: between `minLevel` and `maxLevel`
   * hashes and a non-empty heading; only the last content can be empty,
   * since a heading runs to the end of its line.
   */
  predicate WellFormed(ss: seq<Section>, minLevel: int, maxLevel: int) {
    forall i | 0 <= i < |ss| ::
      && AllHashes(ss[i].hashes) && minLevel <= |ss[i].hashes| <= maxLevel
      && ss[i].heading != ""
      && (i < |ss| - 1 ==> ss[i].content != "")
  }

  /** The reference result: one chunk per section, numbered from `pos`. */
  function SectionChunks(ss: seq<Section>, pos: nat): (cs: seq<Chunk>)
    ensures |cs| == |ss|
  {
    seq(|ss|, i requires 0 <= i < |ss| => SectionChunk(ss[i].hashes, ss[i].heading, ss[i].content, pos + i))
  }

  lemma WellFormedTail(ss: seq<Section>, minLevel: int, maxLevel: int)
    requires ss != [] && WellFormed(ss, minLevel, maxLevel)
    ensures WellFormed(ss[1..], minLevel, maxLevel)
  {
    forall i | 0 <= i < |ss[1..]|
      ensures ss[1..][i] == ss[i + 1]
    {
    }
  }

  /** The while loop turns the parts of well-formed sections into exactly one chunk per section. */
  lemma {:induction false} SectionsOfLayout(ss: seq<Section>, minLevel: int, maxLevel: int, pos: nat)
    requires WellFormed(ss, minLevel, maxLevel)
    ensures Sections(SectionParts(ss), pos) == SectionChunks(ss, pos)
    decreases |ss|
  {
    if ss != [] {
      var s := ss[0];
      var ps := SectionParts(ss);
      var restParts := SectionParts(ss[1..]);
      WellFormedTail(ss, minLevel, maxLevel);
      SectionsOfLayout(ss[1..], minLevel, maxLevel, pos + 1);
      if s.content == "" {
        assert ss[1..] == [] by {
          assert |ss| == 1;
        }
        assert ps == [s.hashes, s.heading];
        assert From(ps, 3) == [];
      } else {
        assert ps == [s.hashes, s.heading, s.content] + restParts;
        assert From(ps, 3) == restParts;
      }
      SectionChunksCons(ss, pos);
    }
  }

  lemma SectionChunksCons(ss: seq<Section>, pos: nat)
    requires ss != []
    ensures SectionChunks(ss, pos) == [SectionChunk(ss[0].hashes, ss[0].heading, ss[0].content, pos)] + SectionChunks(ss[1..], pos + 1)
  {
    var a := SectionChunks(ss, pos);
    var b := [SectionChunk(ss[0].hashes, ss[0].heading, ss[0].content, pos)] + SectionChunks(ss[1..], pos + 1);
    forall i | 0 <= i < |a|
      ensures a[i] == b[i]
    {
      if i > 0 {
        assert ss[1..][i - 1] == ss[i];
      }
    }
  }

  /** One round of the loop. */
  lemma SectionsUnfold(ps: seq<string>, pos: nat)
    requires |ps| >= 2
    ensures Sections(ps, pos) == [SectionChunk(ps[0], ps[1], if |ps| > 2 then ps[2] else "", pos)] + Sections(From(ps, 3), pos + 1)
  {
  }

  lemma HashesAreHashRun(h: string)
    requires AllHashes(h) && 1 <= |h| <= 6
    ensures IsHashRun(h)
  {
  }

  /**
   * For well-formed sections after a text that does not itself look like
   * hashes: the text gives its own chunk iff its trim is non-empty, and
   * then each section gives exactly one chunk, in order.
   */
  lemma LayoutChunks(pre: string, ss: seq<Section>, minLevel: int, maxLevel: int, pos: nat)
    requires ValidLevels(minLevel, maxLevel) && WellFormed(ss, minLevel, maxLevel)
    requires !IsHashRun(pre)
    ensures PartsChunks(Layout(pre, ss), pos) == PreChunk(pre, pos) + SectionChunks(ss, pos + |PreChunk(pre, pos)|)
  {
    SectionsOfLayout(ss, minLevel, maxLevel, pos + |PreChunk(pre, pos)|);
    if pre == "" {
      LayoutWithoutText(ss, minLevel, maxLevel, pos);
    } else {
      LayoutWithText(pre, ss, pos);
    }
  }

  /** With no text before the first heading, the parts start with hashes and give no text chunk. */
  lemma LayoutWithoutText(ss: seq<Section>, minLevel: int, maxLevel: int, pos: nat)
    requires ValidLevels(minLevel, maxLevel) && WellFormed(ss, minLevel, maxLevel)
    ensures PreChunk("", pos) == []
    ensures PartsChunks(Layout("", ss), pos) == [] + Sections(SectionParts(ss), pos)
  {
    var parts := Layout("", ss);
    assert parts == SectionParts(ss);
    if ss != [] {
      assert parts[0] == ss[0].hashes;
      HashesAreHashRun(ss[0].hashes);
    }
    assert [] + Sections(parts, pos) == Sections(parts, pos);
    TrimShape("");
  }

  /** A text before the first heading is the first part, taken as text. */
  lemma LayoutWithText(pre: string, ss: seq<Section>, pos: nat)
    requires pre != "" && !IsHashRun(pre)
    ensures PartsChunks(Layout(pre, ss), pos) == PreChunk(pre, pos) + Sections(SectionParts(ss), pos + |PreChunk(pre, pos)|)
  {
    var rest := SectionParts(ss);
    assert Layout(pre, ss) == [pre] + rest;
    ConsParts(pre, rest);
    assert PartsChunks([pre] + rest, pos) == PreChunk(pre, pos) + Sections(rest, pos + |PreChunk(pre, pos)|);
  }

  lemma ConsParts(x: string, xs: seq<string>)
    ensures ([x] + xs)[0] == x && ([x] + xs)[1..] == xs && |[x] + xs| > 0
  {
  }

  /**
   * Each section chunk is the heading line followed by the trimmed content,
   * if any; heading_level, the number of hashes, lies in the configured
   * range; and heading_text is the trimmed heading.
   */
  lemma SectionChunksShape(ss: seq<Section>, minLevel: int, maxLevel: int, pos: nat)
    requires WellFormed(ss, minLevel, maxLevel)
    ensures forall i | 0 <= i < |ss| ::
      var c := SectionChunks(ss, pos)[i];
      && c.position == pos + i
      && (Trim(ss[i].content) == [] ==> c.text == ss[i].hashes + " " + ss[i].heading)
      && (Trim(ss[i].content) != [] ==> c.text == ss[i].hashes + " " + ss[i].heading + "\n" + Trim(ss[i].content))
      && c.metadata["heading_level"].IntValue? && minLevel <= c.metadata["heading_level"].i <= maxLevel
      && c.metadata["heading_text"] == StrValue(Trim(ss[i].heading))
  {
  }

  /** The text before the first heading is emitted iff its trim is non-empty, with null heading data. */
  lemma PreChunkSpec(pre: string, pos: nat)
    ensures |PreChunk(pre, pos)| == (if Trim(pre) == [] then 0 else 1)
    ensures PreChunk(pre, pos) != [] ==>
      && PreChunk(pre, pos)[0].text == Trim(pre)
      && PreChunk(pre, pos)[0].metadata["heading_level"] == NullValue
      && PreChunk(pre, pos)[0].metadata["heading_text"] == NullValue
  {
  }

  /** Two well-formed headings with nothing before them give two chunks. */
  lemma TwoHeadingsTwoChunks(a: Section, b: Section, minLevel: int, maxLevel: int)
    requires ValidLevels(minLevel, maxLevel) && WellFormed([a, b], minLevel, maxLevel)
    ensures |PartsChunks(Layout("", [a, b]), 0)| == 2
    ensures PartsChunks(Layout("", [a, b]), 0)[0].metadata["heading_level"] == IntValue(|a.hashes|)
  {
    assert !IsHashRun("");
    LayoutChunks("", [a, b], minLevel, maxLevel, 0);
    PreChunkSpec("", 0);
  }

  /** Text before the first heading is a chunk of its own, ahead of the section chunks. */
  lemma PreambleSeparate(pre: string, ss: seq<Section>, minLevel: int, maxLevel: int)
    requires ValidLevels(minLevel, maxLevel) && WellFormed(ss, minLevel, maxLevel)
    requires !IsHashRun(pre) && Trim(pre) != []
    ensures |PartsChunks(Layout(pre, ss), 0)| == |ss| + 1
    ensures PartsChunks(Layout(pre, ss), 0)[0] == Chunk(Trim(pre), 0, PreMeta(Trim(pre)))
  {
    LayoutChunks(pre, ss, minLevel, maxLevel, 0);
  }

  // ----------------------------------------------------------- parts[0] taken as hashes

  /**
   * A first part that looks like hashes is read as one, whatever it was:
   * the parts after it are taken three at a time from there on.
   */
  lemma HashLikeTextIsReadAsHashes(pre: string, ss: seq<Section>, pos: nat)
    requires pre != "" && IsHashRun(pre)
    ensures PartsChunks(Layout(pre, ss), pos) == Sections([pre] + SectionParts(ss), pos)
  {
  }

  /**
   * A lone '#' line, which the heading pattern does not match, gives no
   * chunk at all: its text is lost.
   */
  lemma LoneHashLost(pos: nat)
    ensures IsHashRun("#")
    ensures PartsChunks(["#"], pos) == []
  {
  }

  /**
   * Text that is only a few '#' on the line before a heading becomes the
   * hashes of a section whose heading text is the real heading's hashes.
   */
  lemma HashLineBeforeHeading(hashes: string, heading: string, pos: nat)
    ensures PartsChunks(["##\n", hashes, heading], pos) ==
      [SectionChunk("##\n", hashes, heading, pos)]
    ensures SectionChunk("##\n", hashes, heading, pos).metadata["heading_level"] == IntValue(3)
    ensures SectionChunk("##\n", hashes, heading, pos).metadata["heading_text"] == StrValue(Trim(hashes))
  {
    var ps := ["##\n", hashes, heading];
    assert ps[0][..2] == "##";
    assert IsHashRun(ps[0]);
    assert From(ps, 3) == [];
    assert Sections([], pos + 1) == [];
    assert Sections(ps, pos) == [SectionChunk("##\n", hashes, heading, pos)] + [];
  }

  // ----------------------------------------------------------- the class

  class MarkdownStrategy {
    const minHeadingLevel: int
    const maxHeadingLevel: int
    const split: Splitter
    var buffer: string
    var position: nat

    function Current(): State
      reads this
    {
      State(buffer, position)
    }

    /** The constructor for levels that passed the checks. */
    constructor (minLevel: int, maxLevel: int, splitter: Splitter)
      requires ValidLevels(minLevel, maxLevel)
      ensures minHeadingLevel == minLevel && maxHeadingLevel == maxLevel && split == splitter
      ensures Current() == Initial
    {
      minHeadingLevel := minLevel;
      maxHeadingLevel := maxLevel;
      split := splitter;
      buffer := "";
      position := 0;
    }

    /** new MarkdownChunkingStrategy(min, max): fails unless 1 <= min <= max <= 6. */
    static method Create(minLevel: int, maxLevel: int, splitter: Splitter) returns (r: Result<MarkdownStrategy>)
      ensures r.Err? <==> !ValidLevels(minLevel, maxLevel)
      ensures r.Err? ==> Some(r.error) == CheckLevels(minLevel, maxLevel)
      ensures r.Ok? ==> fresh(r.value) && r.value.minHeadingLevel == minLevel && r.value.maxHeadingLevel == maxLevel
      ensures r.Ok? ==> r.value.split == splitter && r.value.Current() == Initial
    {
      var check := CheckLevels(minLevel, maxLevel);
      if check.Some? {
        return Err(check.value);
      }
      var strategy := new MarkdownStrategy(minLevel, maxLevel, splitter);
      return Ok(strategy);
    }

    method Reset()
      modifies this
      ensures Current() == Initial
    {
      buffer := "";
      position := 0;
    }

    method Process(data: string, isEnd: bool) returns (chunks: seq<Chunk>)
      requires ValidLevels(minHeadingLevel, maxHeadingLevel)
      modifies this
      ensures (chunks, Current()) == Step(old(Current()), minHeadingLevel, maxHeadingLevel, split, data, isEnd)
    {
      var next;
      chunks, next := StepState(Current(), minHeadingLevel, maxHeadingLevel, split, data, isEnd);
      buffer, position := next.buffer, next.position;
    }
  }

  /** process (lines 36-112) on a copy of the buffer and the position. */
  method StepState(s: State, minLevel: int, maxLevel: int, split: Splitter, data: string, isEnd: bool)
    returns (chunks: seq<Chunk>, next: State)
    requires ValidLevels(minLevel, maxLevel)
    ensures (chunks, next) == Step(s, minLevel, maxLevel, split, data, isEnd)
  {
    var buf := s.buffer + data;
    var cut := Cut(buf, isEnd);
    if cut.None? {
      return [], State(buf, s.position);
    }
    chunks, next := StepCutState(s.position, minLevel, maxLevel, split, cut.value.0, cut.value.1);
  }

  /** Lines 53-111: split the text to process and emit its chunks. */
  method StepCutState(pos0: nat, minLevel: int, maxLevel: int, split: Splitter, text: string, rest: string)
    returns (chunks: seq<Chunk>, next: State)
    requires ValidLevels(minLevel, maxLevel)
    ensures (chunks, next) == StepCut(pos0, minLevel, maxLevel, split, text, rest)
  {
    var parts := split(HeadingPattern(minLevel, maxLevel), text);
    if parts.None? {
      return [], State(rest, pos0);
    }
    var pos;
    chunks, pos := EmitParts(parts.value, pos0);
    next := State(rest, pos);
  }

  /** Lines 38-51: the text to process and the buffer kept, or nothing before a newline arrives. */
  method Cut(buf: string, isEnd: bool) returns (r: Option<(string, string)>)
    ensures r == ToProcess(buf, isEnd)
  {
    if isEnd {
      return Some((buf, ""));
    }
    var lastNewline := LastIndexOfChar(buf, '\n');
    if lastNewline.None? {
      return None;
    }
    return Some((buf[..lastNewline.value + 1], buf[lastNewline.value + 1..]));
  }

  /** Lines 64-111 on a local copy of the position. */
  method EmitParts(parts: seq<string>, pos0: nat) returns (chunks: seq<Chunk>, pos: nat)
    ensures chunks == PartsChunks(parts, pos0) && pos == pos0 + |chunks|
  {
    chunks, pos := [], pos0;
    var i := 0;
    if |parts| > 0 && !IsHashRun(parts[0]) {
      var pre := Trim(parts[0]);
      if pre != [] {
        chunks := [Chunk(pre, pos, PreMeta(pre))];
        pos := pos + 1;
      }
      i := 1;
      assert From(parts, 1) == parts[1..];
    } else {
      assert From(parts, 0) == parts;
    }
    var more;
    more, pos := SectionLoop(parts, i, pos);
    chunks := chunks + more;
  }

  /** The while loop of lines 85-111, from index i0. */
  method SectionLoop(parts: seq<string>, i0: nat, pos0: nat) returns (chunks: seq<Chunk>, pos: nat)
    ensures chunks == Sections(From(parts, i0), pos0) && pos == pos0 + |chunks|
  {
    chunks, pos := [], pos0;
    var i := i0;
    while i < |parts|
      invariant Sections(From(parts, i0), pos0) == chunks + Sections(From(parts, i), pos)
      invariant pos == pos0 + |chunks|
      decreases |parts| - i
    {
      ghost var rest := From(parts, i);
      if i + 1 >= |parts| {
        break;
      }
      var hashes := parts[i];
      var headingText := parts[i + 1];
      var content := if i + 2 < |parts| then parts[i + 2] else "";
      assert rest[0] == hashes && rest[1] == headingText;
      assert (if |rest| > 2 then rest[2] else "") == content;
      assert From(rest, 3) == From(parts, i + 3);
      SectionsUnfold(rest, pos);
      var sectionText := SectionText(hashes, headingText, content);
      AppendAssoc(chunks, [SectionChunk(hashes, headingText, content, pos)], Sections(From(parts, i + 3), pos + 1));
      chunks := chunks + [Chunk(sectionText, pos, SectionMeta(sectionText, hashes, headingText))];
      pos := pos + 1;
      i := i + 3;
    }
    assert Sections(From(parts, i), pos) == [];
    assert chunks + [] == chunks;
  }
}
