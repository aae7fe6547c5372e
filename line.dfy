/**
 * LineChunkingStrategy: complete lines are collected in `pendingLines`, and
 * every `linesPerChunk` of them are joined with "\n", trimmed and emitted;
 * the incomplete last line waits in the buffer until the end of the stream.
 */
module Line {
  import opened Wrappers
  import opened TextUtil
  import opened Chunks

  const Name: string := "line"
  const DefaultLinesPerChunk: int := 10
  const Newline: string := "\n"

  /** The strategy's mutable fields as a value. */
  datatype State = State(buffer: string, position: nat, pending: seq<string>)

  const Initial: State := State("", 0, [])

  /** The constructor's argument check (lines 20-22). */
  function CheckLinesPerChunk(linesPerChunk: int): (r: Option<Error>)
    ensures r.None? <==> linesPerChunk > 0
  {
    if linesPerChunk <= 0 then Some(InvalidArgument("Lines per chunk must be > 0")) else None
  }

  /** strategy, length and line_count, the number of lines of the emitted text. */
  function LineMeta(t: string): Metadata {
    map["strategy" := StrValue(Name), "length" := IntValue(|t|), "line_count" := IntValue(|Split(t, Newline)|)]
  }

  /**
   * buildChunk (lines 63-86): the pending lines joined and trimmed; no chunk
   * when that is blank. Its caller always empties `pendingLines` afterwards;
   * the second component is the new position.
   */
  function Build(pending: seq<string>, pos: nat): (Option<Chunk>, nat) {
    var trimmed := Trim(Join(pending, Newline));
    if trimmed == [] then (None, pos) else (Some(Chunk(trimmed, pos, LineMeta(trimmed))), pos + 1)
  }

  /** What a yield of a nullable chunk contributes to the stream. */
  function Yielded(o: Option<Chunk>): seq<Chunk> {
    if o.Some? then [o.value] else []
  }

  /**
   * The foreach loop of lines 44-53: each line is appended to the pending
   * lines, and once there are `n` of them a chunk is built from them.
   */
  function Feed(lines: seq<string>, n: nat, pending: seq<string>, pos: nat): (seq<Chunk>, seq<string>, nat)
    decreases |lines|
  {
    if lines == [] then ([], pending, pos)
    else
      var p := pending + [lines[0]];
      if |p| >= n then
        var (o, pos1) := Build(p, pos);
        var (cs, q, r) := Feed(lines[1..], n, [], pos1);
        (Yielded(o) + cs, q, r)
      else Feed(lines[1..], n, p, pos)
  }

  /** explode("\n", ...) of the grown buffer (line 36). */
  function Pieces(s: State, data: string): seq<string> {
    Split(s.buffer + data, Newline)
  }

  /** The lines that are fed: all pieces at the end, all but the last otherwise (lines 38-42). */
  function Complete(s: State, data: string, isEnd: bool): seq<string> {
    CompleteLines(s.buffer + data, isEnd)
  }

  function CompleteLines(text: string, isEnd: bool): seq<string> {
    var ps := Split(text, Newline);
    if isEnd then ps else Init(ps)
  }

  /** process(data, isEnd): the loop, then the final buildChunk of lines 55-60. */
  function Step(s: State, n: nat, data: string, isEnd: bool): (seq<Chunk>, State) {
    var buffer := if isEnd then [] else Last(Pieces(s, data));
    Finish(Feed(Complete(s, data, isEnd), n, s.pending, s.position), buffer, isEnd)
  }

  /** After the loop: at the end, lines still pending are built into a last chunk (lines 55-60). */
  function Finish(fed: (seq<Chunk>, seq<string>, nat), buffer: string, isEnd: bool): (seq<Chunk>, State) {
    var (cs, p, pos) := fed;
    if isEnd && |p| > 0 then
      var (o, pos1) := Build(p, pos);
      (cs + Yielded(o), State(buffer, pos1, []))
    else (cs, State(buffer, pos, p))
  }

  // ----------------------------------------------------------- reference definition

  /** The lines in consecutive groups of `n`, each joined with "\n", as long as a whole group is left. */
  function LineGroups(ls: seq<string>, n: nat): seq<string>
    requires n > 0
    decreases |ls|
  {
    if |ls| < n then [] else [Join(ls[..n], Newline)] + LineGroups(ls[n..], n)
  }

  /** The lines after the last whole group. */
  function LineLeftover(ls: seq<string>, n: nat): (r: seq<string>)
    requires n > 0
    ensures |r| <= |ls|
    decreases |ls|
  {
    if |ls| < n then ls else LineLeftover(ls[n..], n)
  }

  /** Fewer than `n` lines are left over, after all the whole groups. */
  lemma LineLeftoverShape(ls: seq<string>, n: nat)
    requires n > 0
    ensures |LineLeftover(ls, n)| < n
    ensures |LineGroups(ls, n)| * n + |LineLeftover(ls, n)| == |ls|
  {
    LineLeftoverShort(ls, n);
    LineGroupsCount(ls, n);
  }

  lemma {:induction false} LineLeftoverShort(ls: seq<string>, n: nat)
    requires n > 0
    ensures |LineLeftover(ls, n)| < n
    decreases |ls|
  {
    if |ls| >= n {
      LineLeftoverShort(ls[n..], n);
    }
  }

  /** Line i of the leftover is line i of the last |leftover| lines. */
  lemma {:induction false} LineLeftoverAt(ls: seq<string>, n: nat, i: nat)
    requires n > 0 && i < |LineLeftover(ls, n)|
    ensures LineLeftover(ls, n)[i] == ls[|ls| - |LineLeftover(ls, n)| + i]
    decreases |ls|
  {
    if |ls| >= n {
      var rest := ls[n..];
      assert LineLeftover(ls, n) == LineLeftover(rest, n);
      LineLeftoverShort(rest, n);
      LineLeftoverAt(rest, n, i);
      assert rest[|rest| - |LineLeftover(rest, n)| + i] == ls[n + |rest| - |LineLeftover(rest, n)| + i];
    }
  }

  lemma {:induction false} LineGroupsCount(ls: seq<string>, n: nat)
    requires n > 0
    ensures |LineGroups(ls, n)| * n + |LineLeftover(ls, n)| == |ls|
    decreases |ls|
  {
    if |ls| >= n {
      LineGroupsCount(ls[n..], n);
      var g := |LineGroups(ls[n..], n)|;
      assert LineLeftover(ls, n) == LineLeftover(ls[n..], n);
      assert |LineGroups(ls, n)| == g + 1;
      MulSucc(g, n);
    }
  }

  lemma MulSucc(g: nat, n: nat)
    ensures (g + 1) * n == g * n + n
  {
  }

  /** buildChunk emits the trimmed join exactly when it is not blank, and then advances the position. */
  lemma BuildShape(pending: seq<string>, pos: nat)
    ensures var (o, p) := Build(pending, pos);
      && (o.Some? <==> Trim(Join(pending, Newline)) != [])
      && (o.Some? ==> o.value == Chunk(Trim(Join(pending, Newline)), pos, LineMeta(o.value.text)) && p == pos + 1)
      && (o.None? ==> p == pos)
      && Texts(Yielded(o)) == NonBlank([Join(pending, Newline)])
  {
    NonBlankSingle(Join(pending, Newline));
  }

  /**
   * With fewer than `n` lines pending, the loop emits the non-blank trimmed
   * groups of `n` lines of pending + lines, and keeps the lines after the
   * last whole group pending.
   */
  lemma {:induction false} FeedGroups(lines: seq<string>, n: nat, pending: seq<string>, pos: nat)
    requires n > 0 && |pending| < n
    ensures Texts(Feed(lines, n, pending, pos).0) == NonBlank(LineGroups(pending + lines, n))
    ensures Feed(lines, n, pending, pos).1 == LineLeftover(pending + lines, n)
    decreases |lines|
  {
    if lines == [] {
      assert pending + lines == pending;
    } else {
      var p := pending + [lines[0]];
      assert pending + lines == p + lines[1..];
      if |p| >= n {
        FeedGroupsFull(lines, n, pending, pos);
      } else {
        FeedGroups(lines[1..], n, p, pos);
      }
    }
  }

  /** The step of FeedGroups where the pending lines fill a group. */
  lemma {:induction false} FeedGroupsFull(lines: seq<string>, n: nat, pending: seq<string>, pos: nat)
    requires n > 0 && |pending| < n && lines != [] && |pending| + 1 >= n
    ensures Texts(Feed(lines, n, pending, pos).0) == NonBlank(LineGroups(pending + lines, n))
    ensures Feed(lines, n, pending, pos).1 == LineLeftover(pending + lines, n)
    decreases |lines|, 0
  {
    var p := pending + [lines[0]];
    var all := pending + lines;
    assert all[..n] == p && all[n..] == lines[1..];
    assert LineGroups(all, n) == [Join(p, Newline)] + LineGroups(lines[1..], n);
    assert LineLeftover(all, n) == LineLeftover(lines[1..], n);
    var (o, pos1) := Build(p, pos);
    var f := Feed(lines[1..], n, [], pos1);
    assert Feed(lines, n, pending, pos) == (Yielded(o) + f.0, f.1, f.2);
    BuildShape(p, pos);
    FeedGroups(lines[1..], n, [], pos1);
    assert [] + lines[1..] == lines[1..];
    TextsAppend(Yielded(o), f.0);
    NonBlankAppend([Join(p, Newline)], LineGroups(lines[1..], n));
  }

  /** Chunks of the loop are trimmed, non-empty, tagged, and numbered on from `pos`. */
  lemma {:induction false} FeedShape(lines: seq<string>, n: nat, pending: seq<string>, pos: nat)
    ensures var (cs, q, r) := Feed(lines, n, pending, pos);
      && Consecutive(cs, pos)
      && r == pos + |cs|
      && forall c <- cs :: c.text != [] && IsTrimmed(c.text) && c.metadata == LineMeta(c.text)
    decreases |lines|
  {
    if lines != [] {
      var p := pending + [lines[0]];
      if |p| >= n {
        var (o, pos1) := Build(p, pos);
        TrimShape(Join(p, Newline));
        FeedShape(lines[1..], n, [], pos1);
        var cs := Feed(lines[1..], n, [], pos1).0;
        ConsecutiveAppend(Yielded(o), cs, pos);
      } else {
        FeedShape(lines[1..], n, p, pos);
      }
    }
  }

  /** The loop run on two lists of lines is the loop run on their concatenation. */
  lemma {:induction false} FeedAppend(l1: seq<string>, l2: seq<string>, n: nat, pending: seq<string>, pos: nat)
    ensures var (c1, p1, r1) := Feed(l1, n, pending, pos);
      var (c2, p2, r2) := Feed(l2, n, p1, r1);
      Feed(l1 + l2, n, pending, pos) == (c1 + c2, p2, r2)
    decreases |l1|
  {
    if l1 == [] {
      assert l1 + l2 == l2;
      assert [] + Feed(l2, n, pending, pos).0 == Feed(l2, n, pending, pos).0;
    } else {
      assert (l1 + l2)[0] == l1[0] && (l1 + l2)[1..] == l1[1..] + l2;
      var p := pending + [l1[0]];
      if |p| >= n {
        var (o, pos1) := Build(p, pos);
        FeedAppend(l1[1..], l2, n, [], pos1);
        var (c1, p1, r1) := Feed(l1[1..], n, [], pos1);
        assert Yielded(o) + (c1 + Feed(l2, n, p1, r1).0) == (Yielded(o) + c1) + Feed(l2, n, p1, r1).0;
      } else {
        FeedAppend(l1[1..], l2, n, p, pos);
      }
    }
  }

  // ----------------------------------------------------------- properties of process

  /** Between calls fewer than `n` lines are pending; after the last call nothing is buffered or pending. */
  lemma PendingBound(s: State, n: nat, data: string, isEnd: bool)
    requires n > 0 && |s.pending| < n
    ensures |Step(s, n, data, isEnd).1.pending| < n
    ensures isEnd ==> Step(s, n, data, isEnd).1.buffer == [] && Step(s, n, data, isEnd).1.pending == []
    ensures !isEnd ==> Step(s, n, data, isEnd).1.buffer == Last(Pieces(s, data))
  {
    var ls := s.pending + Complete(s, data, isEnd);
    FeedGroups(Complete(s, data, isEnd), n, s.pending, s.position);
    LineLeftoverShape(ls, n);
  }

  /** The buffer kept back never contains a newline, and with the fed lines it spells out the input. */
  lemma BufferIsIncompleteLine(s: State, n: nat, data: string)
    ensures '\n' !in Step(s, n, data, false).1.buffer
    ensures Join(Complete(s, data, false) + [Step(s, n, data, false).1.buffer], Newline) == s.buffer + data
  {
    var ps := Pieces(s, data);
    SplitCharPieces(s.buffer + data, '\n');
    assert Last(ps) in ps;
    JoinSplit(s.buffer + data, Newline);
    assert Init(ps) + [Last(ps)] == ps;
  }

  /** All emitted chunks are trimmed, non-empty, tagged, and numbered on from the old position. */
  lemma StepShape(s: State, n: nat, data: string, isEnd: bool)
    ensures var (cs, t) := Step(s, n, data, isEnd);
      && Consecutive(cs, s.position)
      && t.position == s.position + |cs|
      && forall c <- cs :: c.text != [] && IsTrimmed(c.text) && c.metadata == LineMeta(c.text)
  {
    var (cs, p, pos) := Feed(Complete(s, data, isEnd), n, s.pending, s.position);
    FeedShape(Complete(s, data, isEnd), n, s.pending, s.position);
    if isEnd && |p| > 0 {
      var (o, pos1) := Build(p, pos);
      TrimShape(Join(p, Newline));
      ConsecutiveAppend(cs, Yielded(o), s.position);
    }
  }

  /**
   * For a whole stream given in one call after reset: the non-blank trimmed
   * groups of `n` lines, then the trimmed leftover lines if not blank.
   */
  lemma WholeStream(text: string, n: nat)
    requires n > 0
    ensures var ls := Split(text, Newline);
      Texts(Step(Initial, n, text, true).0) ==
        NonBlank(LineGroups(ls, n)) + (if LineLeftover(ls, n) == [] then [] else NonBlank([Join(LineLeftover(ls, n), Newline)]))
  {
    var ls := Split(text, Newline);
    assert Initial.buffer + text == text;
    assert [] + ls == ls;
    FeedGroups(ls, n, [], 0);
    var (cs, p, pos) := Feed(ls, n, [], 0);
    if |p| > 0 {
      var (o, pos1) := Build(p, pos);
      BuildShape(p, pos);
      if o.Some? {
        TextsSnoc(cs, o.value);
      } else {
        assert cs + Yielded(o) == cs;
      }
    }
  }

  /**
   * Feeding the stream in two pieces yields the same chunks and leaves the
   * same state as feeding it at once: only the line splitting depends on the
   * buffer, and it commutes with appending.
   */
  lemma SplitStream(s: State, n: nat, a: string, b: string, isEnd: bool)
    ensures var (c1, t1) := Step(s, n, a, false);
      var (c2, t2) := Step(t1, n, b, isEnd);
      Step(s, n, a + b, isEnd) == (c1 + c2, t2)
  {
    var x := s.buffer + a;
    var px := Split(x, Newline);
    var f1 := Feed(Init(px), n, s.pending, s.position);
    var t1 := State(Last(px), f1.2, f1.1);
    assert Step(s, n, a, false) == (f1.0, t1);
    var lb := Complete(t1, b, isEnd);
    var f2 := Feed(lb, n, f1.1, f1.2);
    var buffer := if isEnd then [] else Last(Pieces(t1, b));
    assert Step(t1, n, b, isEnd) == Finish(f2, buffer, isEnd);
    assert Complete(s, a + b, isEnd) == Init(px) + lb && (!isEnd ==> Last(Pieces(s, a + b)) == buffer) by {
      assert s.buffer + (a + b) == x + b;
      SplitPieces(x, b, isEnd);
    }
    FeedAppend(Init(px), lb, n, s.pending, s.position);
    assert Step(s, n, a + b, isEnd) == Finish((f1.0 + f2.0, f2.1, f2.2), buffer, isEnd);
    FinishPrefix(f1.0, f2, buffer, isEnd);
  }

  /** Chunks emitted before the loop's own come before those of the final build. */
  lemma FinishPrefix(c1: seq<Chunk>, fed: (seq<Chunk>, seq<string>, nat), buffer: string, isEnd: bool)
    ensures Finish((c1 + fed.0, fed.1, fed.2), buffer, isEnd) ==
      (c1 + Finish(fed, buffer, isEnd).0, Finish(fed, buffer, isEnd).1)
  {
    if isEnd && |fed.1| > 0 {
      var (o, pos1) := Build(fed.1, fed.2);
      assert (c1 + fed.0) + Yielded(o) == c1 + (fed.0 + Yielded(o));
    }
  }

  /** The lines of x + b are the complete lines of x followed by the lines of x's last line + b. */
  lemma SplitPieces(x: string, b: string, isEnd: bool)
    ensures CompleteLines(x + b, isEnd) == Init(Split(x, Newline)) + CompleteLines(Last(Split(x, Newline)) + b, isEnd)
    ensures Last(Split(x + b, Newline)) == Last(Split(Last(Split(x, Newline)) + b, Newline))
  {
    SplitCharAppend(x, b, '\n');
    var px := Split(x, Newline);
    var py := Split(Last(px) + b, Newline);
    assert Newline == ['\n'];
    assert Split(x + b, Newline) == Init(px) + py;
    assert Last(Init(px) + py) == Last(py);
    if !isEnd {
      assert Init(Init(px) + py) == Init(px) + Init(py);
    }
  }

  // ----------------------------------------------------------- examples

  /** A line the examples use: non-empty, trimmed, no newline inside. */
  predicate PlainLine(l: string) {
    l != [] && IsTrimmed(l) && '\n' !in l
  }

  /** Lines without a newline split back out of their join. */
  lemma {:induction false} SplitJoinOfLines(ls: seq<string>)
    requires ls != [] && forall l <- ls :: '\n' !in l
    ensures Split(Join(ls, Newline), Newline) == ls
    decreases |ls|
  {
    if |ls| == 1 {
      assert ls[0] in ls;
      SplitFreePiece(ls[0], Newline);
    } else {
      assert ls[0] in ls;
      assert forall l <- ls[1..] :: l in ls;
      SplitJoinOfLines(ls[1..]);
      SplitAfterFreePiece(ls[0], Join(ls[1..], Newline), Newline);
    }
  }

  /** Four lines in chunks of two: the first two and the last two, joined with "\n". */
  lemma FourLinesByTwo(l1: string, l2: string, l3: string, l4: string)
    requires PlainLine(l1) && PlainLine(l2) && PlainLine(l3) && PlainLine(l4)
    ensures Texts(Step(Initial, 2, l1 + "\n" + l2 + "\n" + l3 + "\n" + l4, true).0) ==
      [l1 + "\n" + l2, l3 + "\n" + l4]
  {
    var ls := [l1, l2, l3, l4];
    var text := l1 + "\n" + l2 + "\n" + l3 + "\n" + l4;
    assert Join(ls, Newline) == text by {
      assert ls[1..] == [l2, l3, l4] && ls[1..][1..] == [l3, l4] && ls[1..][1..][1..] == [l4];
      assert Join([l3, l4], Newline) == l3 + "\n" + l4;
      assert Join([l2, l3, l4], Newline) == l2 + "\n" + (l3 + "\n" + l4);
    }
    SplitJoinOfLines(ls);
    WholeStream(text, 2);
    FourLinesGroups(l1, l2, l3, l4);
    TwoLineGroupsKept(l1, l2, l3, l4);
  }

  /** Two groups of two plain lines are trimmed and survive. */
  lemma TwoLineGroupsKept(l1: string, l2: string, l3: string, l4: string)
    requires PlainLine(l1) && PlainLine(l2) && PlainLine(l3) && PlainLine(l4)
    ensures NonBlank([l1 + "\n" + l2, l3 + "\n" + l4]) == [l1 + "\n" + l2, l3 + "\n" + l4]
  {
    var g1, g2 := l1 + "\n" + l2, l3 + "\n" + l4;
    assert IsTrimmed(g1) && IsTrimmed(g2);
    NonBlankOfTrimmed([g1, g2]);
  }

  lemma FourLinesGroups(l1: string, l2: string, l3: string, l4: string)
    ensures LineGroups([l1, l2, l3, l4], 2) == [l1 + "\n" + l2, l3 + "\n" + l4]
    ensures LineLeftover([l1, l2, l3, l4], 2) == []
  {
    var ls := [l1, l2, l3, l4];
    assert ls[..2] == [l1, l2] && ls[2..] == [l3, l4];
    assert ls[2..][..2] == [l3, l4] && ls[2..][2..] == [];
    assert Join([l1, l2], Newline) == l1 + "\n" + l2;
    assert Join([l3, l4], Newline) == l3 + "\n" + l4;
    assert LineGroups([l3, l4], 2) == [l3 + "\n" + l4] + LineGroups([], 2);
    assert LineLeftover([l3, l4], 2) == LineLeftover([], 2);
  }

  /** Every piece of a blank string is blank. */
  lemma {:induction false} SplitBlank(s: string, sep: string)
    requires sep != [] && AllSpace(s)
    ensures forall p <- Split(s, sep) :: AllSpace(p)
    decreases |s|
  {
    if |s| < |sep| {
    } else if s[..|sep|] == sep {
      assert forall i | 0 <= i < |s[|sep|..]| :: s[|sep|..][i] == s[|sep| + i];
      SplitBlank(s[|sep|..], sep);
    } else {
      assert forall i | 0 <= i < |s[1..]| :: s[1..][i] == s[1 + i];
      SplitBlank(s[1..], sep);
      var rest := Split(s[1..], sep);
      assert rest[0] in rest;
      assert AllSpace([s[0]] + rest[0]) by {
        forall i | 0 <= i < |[s[0]] + rest[0]| ensures IsSpace(([s[0]] + rest[0])[i]) {
          if i > 0 { assert ([s[0]] + rest[0])[i] == rest[0][i - 1]; }
        }
      }
      assert forall q <- rest[1..] :: q in rest;
    }
  }

  /** Blank lines joined with "\n" are blank. */
  lemma {:induction false} JoinBlank(ls: seq<string>)
    requires forall l <- ls :: AllSpace(l)
    ensures AllSpace(Join(ls, Newline))
    decreases |ls|
  {
    if |ls| > 1 {
      assert ls[0] in ls;
      assert forall l <- ls[1..] :: l in ls;
      JoinBlank(ls[1..]);
      var j := Join(ls[1..], Newline);
      assert Join(ls, Newline) == ls[0] + Newline + j;
      forall i | 0 <= i < |ls[0] + Newline + j| ensures IsSpace((ls[0] + Newline + j)[i]) {
        if i >= |ls[0]| + 1 { assert (ls[0] + Newline + j)[i] == j[i - |ls[0]| - 1]; }
      }
    } else if |ls| == 1 {
      assert ls[0] in ls;
    }
  }

  /** Groups of blank lines are all skipped. */
  lemma {:induction false} BlankGroupsSkipped(ls: seq<string>, n: nat)
    requires n > 0 && forall l <- ls :: AllSpace(l)
    ensures NonBlank(LineGroups(ls, n)) == []
    decreases |ls|
  {
    if |ls| >= n {
      assert forall l <- ls[..n] :: l in ls;
      assert forall l <- ls[n..] :: l in ls;
      JoinBlank(ls[..n]);
      TrimShape(Join(ls[..n], Newline));
      BlankGroupsSkipped(ls[n..], n);
      NonBlankAppend([Join(ls[..n], Newline)], LineGroups(ls[n..], n));
      NonBlankSingle(Join(ls[..n], Newline));
    }
  }

  /** Blank input, such as "\n\n\n\n", yields no chunks. */
  lemma BlankInputYieldsNothing(text: string, n: nat)
    requires n > 0 && AllSpace(text)
    ensures Step(Initial, n, text, true).0 == []
  {
    var ls := Split(text, Newline);
    SplitBlank(text, Newline);
    WholeStream(text, n);
    BlankGroupsSkipped(ls, n);
    BlankLeftoverSkipped(ls, n);
  }

  /** The leftover of blank lines is skipped too. */
  lemma BlankLeftoverSkipped(ls: seq<string>, n: nat)
    requires n > 0 && forall l <- ls :: AllSpace(l)
    ensures NonBlank([Join(LineLeftover(ls, n), Newline)]) == []
  {
    var left := LineLeftover(ls, n);
    LineLeftoverShort(ls, n);
    forall i | 0 <= i < |left| ensures AllSpace(left[i]) {
      LineLeftoverAt(ls, n, i);
      assert ls[|ls| - |left| + i] in ls;
    }
    JoinBlank(left);
    TrimShape(Join(left, Newline));
    NonBlankSingle(Join(left, Newline));
  }

  lemma FourNewlinesYieldNothing(n: nat)
    requires n > 0
    ensures Step(Initial, n, "\n\n\n\n", true).0 == []
  {
    BlankInputYieldsNothing("\n\n\n\n", n);
  }

  // ----------------------------------------------------------- the class

  class LineStrategy {
    const linesPerChunk: nat
    var buffer: string
    var position: nat
    var pendingLines: seq<string>

    function Current(): State
      reads this
    {
      State(buffer, position, pendingLines)
    }

    /** The constructor for an argument that passed the check. */
    constructor (n: nat)
      requires n > 0
      ensures linesPerChunk == n && Current() == Initial
    {
      linesPerChunk := n;
      buffer := "";
      position := 0;
      pendingLines := [];
    }

    /** new LineChunkingStrategy(linesPerChunk): fails for a count below 1. */
    static method Create(linesPerChunk: int) returns (r: Result<LineStrategy>)
      ensures r.Err? <==> linesPerChunk <= 0
      ensures r.Err? ==> Some(r.error) == CheckLinesPerChunk(linesPerChunk)
      ensures r.Ok? ==> fresh(r.value) && r.value.linesPerChunk == linesPerChunk && r.value.Current() == Initial
    {
      var check := CheckLinesPerChunk(linesPerChunk);
      if check.Some? {
        return Err(check.value);
      }
      var strategy := new LineStrategy(linesPerChunk);
      return Ok(strategy);
    }

    method Reset()
      modifies this
      ensures Current() == Initial
    {
      buffer := "";
      position := 0;
      pendingLines := [];
    }

    method Process(data: string, isEnd: bool) returns (chunks: seq<Chunk>)
      modifies this
      ensures (chunks, Current()) == Step(old(Current()), linesPerChunk, data, isEnd)
    {
      ghost var s0 := Current();
      buffer := buffer + data;
      var lines := Split(buffer, Newline);
      if !isEnd {
        buffer := Last(lines);
        lines := Init(lines);
      } else {
        buffer := "";
      }
      assert lines == Complete(s0, data, isEnd);
      var pending, pos;
      chunks, pending, pos := FeedLoop(lines, linesPerChunk, pendingLines, position);
      pendingLines, position := pending, pos;
      if isEnd && |pendingLines| > 0 {
        var b := Build(pendingLines, position);
        var built, next := b.0, b.1;
        pendingLines := [];
        position := next;
        if built.Some? {
          chunks := chunks + [built.value];
        }
      }
      ghost var r := Step(s0, linesPerChunk, data, isEnd);
      assert r.0 == chunks;
      assert r.1 == State(buffer, position, pendingLines);
    }
  }

  /** The foreach loop of lines 44-53 on local copies of the fields. */
  method FeedLoop(lines: seq<string>, n: nat, pending0: seq<string>, pos0: nat)
    returns (chunks: seq<Chunk>, pending: seq<string>, pos: nat)
    ensures (chunks, pending, pos) == Feed(lines, n, pending0, pos0)
  {
    chunks, pending, pos := [], pending0, pos0;
    for i := 0 to |lines|
      invariant Feed(lines, n, pending0, pos0).0 == chunks + Feed(lines[i..], n, pending, pos).0
      invariant Feed(lines, n, pending0, pos0).1 == Feed(lines[i..], n, pending, pos).1
      invariant Feed(lines, n, pending0, pos0).2 == Feed(lines[i..], n, pending, pos).2
    {
      ghost var rest := lines[i..];
      ghost var p0 := pending;
      assert rest[0] == lines[i] && rest[1..] == lines[i + 1..];
      pending := pending + [lines[i]];
      if |pending| >= n {
        var b := Build(pending, pos);
        var built, next := b.0, b.1;
        assert Feed(rest, n, p0, pos).0 == Yielded(built) + Feed(lines[i + 1..], n, [], next).0;
        pending := [];
        pos := next;
        if built.Some? {
          chunks := chunks + [built.value];
        } else {
          assert chunks + [] == chunks;
        }
      }
    }
    assert lines[|lines|..] == [];
    assert chunks + [] == chunks;
  }
}
