/**
 * WordCountChunkingStrategy: windows of `wordCount` words re-joined with
 * single spaces; the buffer is advanced by the length of that join.
 */
module WordCount {
  import opened Wrappers
  import opened TextUtil
  import opened Chunks

  const Name: string := "word_count"
  const DefaultWordCount: int := 200

  /** strategy, length and word_count. */
  function WordMeta(text: string, count: nat): Metadata {
    map["strategy" := StrValue(Name), "length" := IntValue(|text|), "word_count" := IntValue(count)]
  }

  datatype State = State(buffer: string, position: nat)

  const Initial: State := State("", 0)

  /** The constructor's argument check (lines 18-20). */
  function CheckWordCount(wordCount: int): (r: Option<Error>)
    ensures r.None? <==> wordCount > 0
  {
    if wordCount <= 0 then Some(InvalidArgument("Word count must be > 0")) else None
  }

  /**
   * One pass of the while (true) loop of lines 33-66: when the trimmed buffer
   * has at least `wc` words, the first `wc` joined by single spaces, and the
   * buffer cut after the first occurrence of the first word plus that join's
   * length, then trimmed; None where the loop breaks.
   */
  function Next(buf: string, wc: nat): Option<(string, string)>
    requires wc > 0
  {
    var words := Words(Trim(buf));
    if |words| < wc then None
    else
      var chunkWords := words[..wc];
      var text := Join(chunkWords, " ");
      match IndexOf(buf, chunkWords[0])
      case None => None
      case Some(offset) => Some((text, Trim(Drop(buf, offset + |text|))))
  }

  /** Each pass consumes at least one character, so the loop terminates. */
  lemma NextShrinks(buf: string, wc: nat)
    requires wc > 0
    ensures Next(buf, wc).Some? ==> |Next(buf, wc).value.1| < |buf|
  {
    if Next(buf, wc).Some? {
      var chunkWords := Words(Trim(buf))[..wc];
      var text := Join(chunkWords, " ");
      WindowNonEmpty(buf, wc);
      var offset := IndexOf(buf, chunkWords[0]).value;
      FoundFits(buf, chunkWords[0]);
      TrimLength(Drop(buf, offset + |text|));
    }
  }

  /** The window's first word and its join are not empty. */
  lemma WindowNonEmpty(buf: string, wc: nat)
    requires wc > 0 && |Words(Trim(buf))| >= wc
    ensures Words(Trim(buf))[..wc][0] != []
    ensures |Join(Words(Trim(buf))[..wc], " ")| > 0
  {
    var words := Words(Trim(buf));
    WordsAreWords(Trim(buf));
    assert words[..wc][0] == words[0] && words[0] in words;
    JoinLastPiece(words[..wc], " ");
  }

  /** A string that is found fits inside the text it is found in. */
  lemma FoundFits(buf: string, w: string)
    requires IndexOf(buf, w).Some?
    ensures IndexOf(buf, w).value + |w| <= |buf|
  {
    IndexOfSpec(buf, w);
  }

  /** The whole loop: the chunks it yields, the buffer and the position it leaves. */
  function Cut(buf: string, wc: nat, pos: nat): (seq<Chunk>, string, nat)
    requires wc > 0
    decreases |buf|
  {
    match Next(buf, wc)
    case None => ([], buf, pos)
    case Some((text, rest)) =>
      NextShrinks(buf, wc);
      var (cs, b, p) := Cut(rest, wc, pos + 1);
      ([Chunk(text, pos, WordMeta(text, wc))] + cs, b, p)
  }

  /** Cut, one pass unrolled. */
  lemma CutUnfold(buf: string, wc: nat, pos: nat, text: string, rest: string)
    requires wc > 0 && Next(buf, wc) == Some((text, rest))
    ensures |rest| < |buf|
    ensures Cut(buf, wc, pos).0 == [Chunk(text, pos, WordMeta(text, wc))] + Cut(rest, wc, pos + 1).0
    ensures Cut(buf, wc, pos).1 == Cut(rest, wc, pos + 1).1
    ensures Cut(buf, wc, pos).2 == Cut(rest, wc, pos + 1).2
  {
    NextShrinks(buf, wc);
  }

  /** process(data, isEnd): the loop, then the flush of lines 68-85. */
  function Step(s: State, wc: nat, data: string, isEnd: bool): (seq<Chunk>, State)
    requires wc > 0
  {
    var (cs, b, p) := Cut(s.buffer + data, wc, s.position);
    var trimmed := Trim(b);
    if isEnd && b != [] && trimmed != [] then
      (cs + [Chunk(trimmed, p, WordMeta(trimmed, |Words(trimmed)|))], State([], p))
    else (cs, State(b, p))
  }

  /** mb_strpos always finds the first word, so the `false` exit of lines 50-52 is never taken. */
  lemma FirstWordFound(buf: string)
    requires Words(Trim(buf)) != []
    ensures IndexOf(buf, Words(Trim(buf))[0]).Some?
  {
    var w := Words(Trim(buf))[0];
    FirstWordAt(Trim(buf));
    IndexOfSpec(buf, w);
    if !Contains(buf, w) {
      TrimAvoids(buf, w);
    }
  }

  /** A chunk of the loop: `wc` words joined by single spaces, tagged with its length and `word_count = wc`. */
  predicate IsWindow(c: Chunk, wc: nat) {
    |Words(c.text)| == wc && Join(Words(c.text), " ") == c.text && c.metadata == WordMeta(c.text, wc)
  }

  /**
   * Every loop chunk is exactly `wc` words joined by single spaces, tagged
   * with its length and `word_count = wc`; positions run on from `pos`; and
   * the loop ends with fewer than `wc` words left in the trimmed buffer.
   */
  lemma {:induction false} CutShape(buf: string, wc: nat, pos: nat)
    requires wc > 0
    ensures forall c <- Cut(buf, wc, pos).0 :: IsWindow(c, wc)
    ensures Consecutive(Cut(buf, wc, pos).0, pos)
    ensures Cut(buf, wc, pos).2 == pos + |Cut(buf, wc, pos).0|
    ensures |Words(Trim(Cut(buf, wc, pos).1))| < wc
    decreases |buf|
  {
    match Next(buf, wc)
    case None =>
      NextSome(buf, wc);
      assert Cut(buf, wc, pos) == ([], buf, pos);
    case Some((text, rest)) =>
      CutUnfold(buf, wc, pos, text, rest);
      CutShape(rest, wc, pos + 1);
      NextText(buf, wc);
      CutShapeCons(Chunk(text, pos, WordMeta(text, wc)), Cut(rest, wc, pos + 1).0, wc, pos);
  }

  /** One window of `wc` words in front of chunks of the same shape numbered from pos + 1. */
  lemma CutShapeCons(c: Chunk, cs: seq<Chunk>, wc: nat, pos: nat)
    requires IsWindow(c, wc) && c.position == pos
    requires forall d <- cs :: IsWindow(d, wc)
    requires Consecutive(cs, pos + 1)
    ensures forall d <- [c] + cs :: IsWindow(d, wc)
    ensures Consecutive([c] + cs, pos)
  {
    assert forall i | 1 <= i < |cs| + 1 :: ([c] + cs)[i] == cs[i - 1];
  }

  /** The loop goes on exactly while at least `wc` words are left. */
  lemma NextSome(buf: string, wc: nat)
    requires wc > 0
    ensures Next(buf, wc).Some? <==> |Words(Trim(buf))| >= wc
  {
    var words := Words(Trim(buf));
    if |words| >= wc {
      FirstWordFound(buf);
      assert words[..wc][0] == words[0];
    }
  }

  /** What one pass emits is `wc` words joined by single spaces. */
  lemma NextText(buf: string, wc: nat)
    requires wc > 0 && Next(buf, wc).Some?
    ensures var text := Next(buf, wc).value.0;
      |Words(text)| == wc && Join(Words(text), " ") == text
  {
    var words := Words(Trim(buf));
    var chunkWords := words[..wc];
    WordsAreWords(Trim(buf));
    assert forall w <- chunkWords :: w in words;
    WordsOfJoin(chunkWords);
  }

  /**
   * The flush of lines 68-85: at the end a non-blank remainder is emitted once,
   * trimmed, with the position the loop stopped at, and the buffer is cleared;
   * the position is not advanced past it.
   */
  lemma FlushShape(s: State, wc: nat, data: string, isEnd: bool)
    requires wc > 0
    ensures var (cs, t) := Step(s, wc, data, isEnd);
      var (loop, b, p) := Cut(s.buffer + data, wc, s.position);
      && cs[..|loop|] == loop
      && t.position == p
      && (|cs| == |loop| + 1 <==> isEnd && Trim(b) != [])
      && (|cs| == |loop| + 1 ==> cs[|loop|] == Chunk(Trim(b), p, WordMeta(Trim(b), |Words(Trim(b))|)) && t.buffer == [])
      && (|cs| == |loop| ==> t.buffer == b)
      && |cs| <= |loop| + 1
  {
  }

  // ----------------------------------------------------------- single-spaced input

  /** Consecutive groups of `wc` words, as long as a whole group is left. */
  function Groups(ws: seq<string>, wc: nat): seq<string>
    requires wc > 0
    decreases |ws|
  {
    if |ws| < wc then [] else [Join(ws[..wc], " ")] + Groups(ws[wc..], wc)
  }

  /** The words left over after the last whole group. */
  function Leftover(ws: seq<string>, wc: nat): (r: seq<string>)
    requires wc > 0
    ensures |r| <= |ws|
    decreases |ws|
  {
    if |ws| < wc then ws else Leftover(ws[wc..], wc)
  }

  lemma {:induction false} GroupsCount(ws: seq<string>, wc: nat)
    requires wc > 0
    ensures |Groups(ws, wc)| * wc + |Leftover(ws, wc)| == |ws|
    ensures |Leftover(ws, wc)| < wc
    decreases |ws|
  {
    if |ws| >= wc {
      GroupsCount(ws[wc..], wc);
      var n := |Groups(ws[wc..], wc)|;
      assert Leftover(ws, wc) == Leftover(ws[wc..], wc);
      assert |Groups(ws, wc)| == n + 1;
      assert (n + 1) * wc == n * wc + wc;
    }
  }

  /** Word i of the leftover is word i of the last |leftover| words. */
  lemma {:induction false} LeftoverAt(ws: seq<string>, wc: nat, i: nat)
    requires wc > 0 && i < |Leftover(ws, wc)|
    ensures Leftover(ws, wc)[i] == ws[|ws| - |Leftover(ws, wc)| + i]
    decreases |ws|
  {
    if |ws| >= wc {
      var rest := ws[wc..];
      assert Leftover(ws, wc) == Leftover(rest, wc);
      LeftoverAt(rest, wc, i);
      assert rest[|rest| - |Leftover(rest, wc)| + i] == ws[wc + |rest| - |Leftover(rest, wc)| + i];
    }
  }

  /**
   * On text whose words are separated by single spaces the advance is exact:
   * the loop emits the consecutive groups of `wc` words and keeps the rest.
   */
  lemma {:induction false} SingleSpacedCut(ws: seq<string>, wc: nat, pos: nat)
    requires wc > 0
    requires forall w <- ws :: IsWord(w)
    ensures Texts(Cut(Join(ws, " "), wc, pos).0) == Groups(ws, wc)
    ensures Cut(Join(ws, " "), wc, pos).1 == Join(Leftover(ws, wc), " ")
    decreases |ws|
  {
    var buf := Join(ws, " ");
    if |ws| >= wc {
      SingleSpacedNext(ws, wc);
      var text := Join(ws[..wc], " ");
      var later := ws[wc..];
      assert forall w <- later :: w in ws;
      CutUnfold(buf, wc, pos, text, Join(later, " "));
      SingleSpacedCut(later, wc, pos + 1);
      TextsCons(Chunk(text, pos, WordMeta(text, wc)), Cut(Join(later, " "), wc, pos + 1).0);
    } else {
      JoinOfWordsIsTrimmed(ws);
      TrimmedIsFixed(buf);
      WordsOfJoin(ws);
    }
  }

  /** One pass over single-spaced words takes the first `wc` and leaves the join of the rest. */
  lemma SingleSpacedNext(ws: seq<string>, wc: nat)
    requires wc > 0 && |ws| >= wc
    requires forall w <- ws :: IsWord(w)
    ensures Next(Join(ws, " "), wc) == Some((Join(ws[..wc], " "), Join(ws[wc..], " ")))
  {
    var buf := Join(ws, " ");
    JoinOfWordsIsTrimmed(ws);
    TrimmedIsFixed(buf);
    WordsOfJoin(ws);
    FirstWordAtStart(ws);
    DropFirstGroup(ws, wc);
    assert ws[..wc][0] == ws[0];
  }

  /** The first word of a single-spaced join is found at offset 0. */
  lemma FirstWordAtStart(ws: seq<string>)
    requires ws != []
    ensures IndexOf(Join(ws, " "), ws[0]) == Some(0)
  {
    var buf := Join(ws, " ");
    JoinLastPiece(ws, " ");
    assert OccursAt(buf, ws[0], 0);
    IndexOfSpec(buf, ws[0]);
  }

  /** Cutting the first group and trimming leaves the join of the later words. */
  lemma DropFirstGroup(ws: seq<string>, wc: nat)
    requires wc > 0 && |ws| >= wc
    requires forall w <- ws :: IsWord(w)
    ensures Trim(Drop(Join(ws, " "), |Join(ws[..wc], " ")|)) == Join(ws[wc..], " ")
  {
    var buf := Join(ws, " ");
    var text := Join(ws[..wc], " ");
    var later := ws[wc..];
    if |ws| == wc {
      assert ws[..wc] == ws;
      assert later == [];
    } else {
      assert forall w <- later :: w in ws;
      JoinSplitAt(ws, wc, " ");
      var j := Join(later, " ");
      assert buf == text + " " + j;
      assert Drop(buf, |text|) == " " + j;
      JoinOfWordsIsTrimmed(later);
      TrimLeadingSpace(j);
    }
  }

  lemma TrimLeadingSpace(j: string)
    requires IsTrimmed(j)
    ensures Trim(" " + j) == j
  {
    assert (" " + j)[1..] == j;
    TrimmedIsFixed(j);
  }

  /**
   * For a whole single-spaced stream after reset: one chunk per group of `wc`
   * words, then the leftover words as one final chunk when there are any.
   */
  lemma SingleSpacedStream(ws: seq<string>, wc: nat)
    requires wc > 0
    requires forall w <- ws :: IsWord(w)
    ensures Texts(Step(Initial, wc, Join(ws, " "), true).0) ==
      Groups(ws, wc) + (if Leftover(ws, wc) == [] then [] else [Join(Leftover(ws, wc), " ")])
    ensures |Step(Initial, wc, Join(ws, " "), true).0| == |Groups(ws, wc)| + (if Leftover(ws, wc) == [] then 0 else 1)
  {
    var buf := Join(ws, " ");
    assert Initial.buffer + buf == buf;
    SingleSpacedCut(ws, wc, 0);
    GroupsCount(ws, wc);
    var left := Leftover(ws, wc);
    forall i | 0 <= i < |left| ensures IsWord(left[i]) {
      LeftoverAt(ws, wc, i);
      assert ws[|ws| - |left| + i] in ws;
    }
    JoinOfWordsIsTrimmed(left);
    TrimmedIsFixed(Join(left, " "));
    JoinOfWordsEmpty(left);
    var (cs, b, p) := Cut(buf, wc, 0);
    if Join(left, " ") != [] {
      TextsSnoc(cs, Chunk(Join(left, " "), p, WordMeta(Join(left, " "), |Words(Join(left, " "))|)));
    }
  }

  /** Six words in windows of three: two chunks, nothing left over. */
  lemma SixWordsByThree(ws: seq<string>)
    requires |ws| == 6 && forall w <- ws :: IsWord(w)
    ensures |Step(Initial, 3, Join(ws, " "), true).0| == 2
  {
    SingleSpacedStream(ws, 3);
    GroupsCount(ws, 3);
  }

  /** Five words in windows of three: the last chunk is the fourth and fifth words. */
  lemma FiveWordsByThree(ws: seq<string>)
    requires |ws| == 5 && forall w <- ws :: IsWord(w)
    ensures var ts := Texts(Step(Initial, 3, Join(ws, " "), true).0);
      ts != [] && Last(ts) == ws[3] + " " + ws[4]
  {
    SingleSpacedStream(ws, 3);
    assert Leftover(ws, 3) == Leftover(ws[3..], 3) == ws[3..];
    assert ws[3..] == [ws[3], ws[4]];
    assert [ws[3], ws[4]][1..] == [ws[4]];
  }

  // ----------------------------------------------------------- longer whitespace runs

  /**
   * The advance is the length of the single-spaced join, so a run of two
   * spaces leaves the last character of the window in the buffer: on
   * "a  x c" in windows of two, x is emitted in both chunks.
   */
  lemma DoubleSpaceRepeatsWord(a: string, x: char, c: string)
    requires IsWord(a) && IsWord(c) && !IsSpace(x)
    ensures Texts(Cut(a + "  " + [x] + " " + c, 2, 0).0) == [a + " " + [x], [x] + " " + c]
  {
    var buf := a + "  " + [x] + " " + c;
    var tail := [x] + " " + c;
    DoubleSpaceFirstPass(a, x, c);
    CutUnfold(buf, 2, 0, a + " " + [x], tail);
    TwoWordPass(x, c);
    TextsCons(Chunk(a + " " + [x], 0, WordMeta(a + " " + [x], 2)), Cut(tail, 2, 1).0);
  }

  /** "x c" in windows of two: one chunk, nothing left. */
  lemma TwoWordPass(x: char, c: string)
    requires IsWord(c) && !IsSpace(x)
    ensures Texts(Cut([x] + " " + c, 2, 1).0) == [[x] + " " + c]
  {
    var tail := [x] + " " + c;
    TailWords(x, c);
    assert Next(tail, 2) == Some((tail, "")) by {
      SingleSpacedNext([[x], c], 2);
      assert [[x], c][..2] == [[x], c] && [[x], c][2..] == [];
    }
    CutUnfold(tail, 2, 1, tail, "");
    assert Next("", 2).None?;
  }

  /** "x c" is the single-spaced join of its two words, and is trimmed. */
  lemma TailWords(x: char, c: string)
    requires IsWord(c) && !IsSpace(x)
    ensures forall w <- [[x], c] :: IsWord(w)
    ensures Join([[x], c], " ") == [x] + " " + c
    ensures Words([x] + " " + c) == [[x], c]
    ensures IsTrimmed([x] + " " + c)
  {
    assert IsWord([x]);
    assert Join([[x], c], " ") == [x] + " " + Join([c], " ");
    WordsOfJoin([[x], c]);
    JoinOfWordsIsTrimmed([[x], c]);
  }

  /** The first pass on "a  x c": window "a x", advance |a| + 2, so "x c" is left. */
  lemma DoubleSpaceFirstPass(a: string, x: char, c: string)
    requires IsWord(a) && IsWord(c) && !IsSpace(x)
    ensures Next(a + "  " + [x] + " " + c, 2) == Some((a + " " + [x], [x] + " " + c))
  {
    var buf := a + "  " + [x] + " " + c;
    var tail := [x] + " " + c;
    DoubleSpaceTrimmed(a, x, c);
    assert Words(Trim(buf))[..2] == [a, [x]];
    assert Join([a, [x]], " ") == a + " " + [x] by {
      assert Join([a, [x]], " ") == a + " " + Join([[x]], " ");
    }
    assert IndexOf(buf, a) == Some(0) by {
      assert buf == a + ("  " + tail);
      FirstWordAtStartOf(a, "  " + tail);
    }
    assert Trim(Drop(buf, |a| + 2)) == tail by {
      assert buf == (a + "  ") + tail;
      assert Drop(buf, |a| + 2) == tail;
      TailWords(x, c);
      TrimmedIsFixed(tail);
    }
  }

  /** "a  x c" is already trimmed and its words are a, x and c. */
  lemma DoubleSpaceTrimmed(a: string, x: char, c: string)
    requires IsWord(a) && IsWord(c) && !IsSpace(x)
    ensures Trim(a + "  " + [x] + " " + c) == a + "  " + [x] + " " + c
    ensures Words(a + "  " + [x] + " " + c) == [a, [x], c]
  {
    var buf := a + "  " + [x] + " " + c;
    var tail := [x] + " " + c;
    assert buf == a + "  " + tail;
    assert Words(buf) == [a, [x], c] by {
      TailWords(x, c);
      DoubleSpaceWords(a, tail);
    }
    assert IsTrimmed(buf) by {
      assert buf[0] == a[0] && buf[|buf| - 1] == c[|c| - 1];
    }
    TrimmedIsFixed(buf);
  }

  /** Two spaces between words count as one separator. */
  lemma DoubleSpaceWords(a: string, t: string)
    requires IsWord(a)
    ensures Words(a + "  " + t) == [a] + Words(t)
  {
    var s := a + "  " + t;
    var u := "  " + t;
    WordEndPrefix(a, u);
    assert s == a + u;
    assert s[0] == a[0] && !IsSpace(s[0]);
    assert s[..|a|] == a && s[|a|..] == u;
    assert Words(s) == [a] + Words(u);
    assert u[1..] == " " + t && IsSpace(u[0]);
    assert Words(u) == Words(" " + t);
    assert (" " + t)[1..] == t && IsSpace((" " + t)[0]);
    assert Words(" " + t) == Words(t);
  }

  /** A word at the very start is found at offset 0. */
  lemma FirstWordAtStartOf(a: string, t: string)
    requires a != []
    ensures IndexOf(a + t, a) == Some(0)
  {
    assert (a + t)[0..|a|] == a;
    assert OccursAt(a + t, a, 0);
    IndexOfSpec(a + t, a);
  }

  class WordCountStrategy {
    const wordCount: nat
    var buffer: string
    var position: nat

    function Current(): State
      reads this
    {
      State(buffer, position)
    }

    /** The constructor for an argument that passed the check. */
    constructor (count: nat)
      requires count > 0
      ensures wordCount == count && Current() == Initial
    {
      wordCount := count;
      buffer := "";
      position := 0;
    }

    /** new WordCountChunkingStrategy(wordCount): fails for a count below 1. */
    static method Create(wordCount: int) returns (r: Result<WordCountStrategy>)
      ensures r.Err? <==> wordCount <= 0
      ensures r.Err? ==> Some(r.error) == CheckWordCount(wordCount)
      ensures r.Ok? ==> fresh(r.value) && r.value.wordCount == wordCount && r.value.Current() == Initial
    {
      var check := CheckWordCount(wordCount);
      if check.Some? {
        return Err(check.value);
      }
      var strategy := new WordCountStrategy(wordCount);
      return Ok(strategy);
    }

    method Reset()
      modifies this
      ensures Current() == Initial
    {
      buffer := "";
      position := 0;
    }

    method Process(data: string, isEnd: bool) returns (chunks: seq<Chunk>)
      requires wordCount > 0
      modifies this
      ensures (chunks, Current()) == Step(old(Current()), wordCount, data, isEnd)
    {
      ghost var s0 := Current();
      buffer := buffer + data;
      var rest, pos;
      chunks, rest, pos := CutLoop(buffer, wordCount, position);
      buffer, position := rest, pos;
      if isEnd && buffer != [] {
        var trimmed := Trim(buffer);
        if trimmed != [] {
          var words := Words(trimmed);
          chunks := chunks + [Chunk(trimmed, position, WordMeta(trimmed, |words|))];
          buffer := "";
        }
      }
      ghost var r := Step(s0, wordCount, data, isEnd);
      assert r.1 == State(buffer, position);
      assert r.0 == chunks;
    }
  }

  /** The loop of lines 33-66 on local copies of the fields. */
  method CutLoop(buf0: string, wc: nat, pos0: nat) returns (chunks: seq<Chunk>, buf: string, pos: nat)
    requires wc > 0
    ensures (chunks, buf, pos) == Cut(buf0, wc, pos0)
  {
    chunks, buf, pos := [], buf0, pos0;
    while true
      invariant Cut(buf0, wc, pos0).0 == chunks + Cut(buf, wc, pos).0
      invariant Cut(buf0, wc, pos0).1 == Cut(buf, wc, pos).1
      invariant Cut(buf0, wc, pos0).2 == Cut(buf, wc, pos).2
      decreases |buf|
    {
      var next := NextPass(buf, wc);
      if next.None? {
        break;
      }
      var chunkText, rest := next.value.0, next.value.1;
      CutUnfold(buf, wc, pos, chunkText, rest);
      var c := Chunk(chunkText, pos, WordMeta(chunkText, wc));
      AppendAssoc(chunks, [c], Cut(rest, wc, pos + 1).0);
      chunks := chunks + [c];
      buf := rest;
      pos := pos + 1;
    }
    assert chunks + [] == chunks;
  }

  /** One pass of the loop body (lines 34-65): the window's text and the trimmed buffer after it. */
  method NextPass(buf: string, wc: nat) returns (r: Option<(string, string)>)
    requires wc > 0
    ensures r == Next(buf, wc)
  {
    var words := Words(Trim(buf));
    if |words| < wc {
      return None;
    }
    var chunkWords := words[..wc];
    var chunkText := Join(chunkWords, " ");
    var consumed := |chunkText|;
    var offset := IndexOf(buf, chunkWords[0]);
    if offset.None? {
      return None;
    }
    return Some((chunkText, Trim(Drop(buf, offset.value + consumed))));
  }
}
