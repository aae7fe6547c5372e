/**
 * DialogueChunkingStrategy: trimmed lines are collected with '' markers for
 * blank lines; once their size reaches the target they are cut into chunks,
 * at a blank line once the minimum size is reached, or after a line that
 * ends a sentence once the target is reached.
 */
module Dialogue {
  import opened Wrappers
  import opened TextUtil
  import opened Chunks

  const Name: string := "dialogue"
  const Newline: string := "\n"

  /** The constructor's two sizes; neither is validated (lines 17-21). */
  datatype Config = Config(targetChunkSize: int, minChunkSize: int)

  const DefaultConfig: Config := Config(500, 100)

  datatype State = State(buffer: string, position: nat, pending: seq<string>)

  const Initial: State := State("", 0, [])

  // ----------------------------------------------------------- break points

  predicate IsMark(c: char) {
    c == '.' || c == '!' || c == '?'
  }

  /** What may follow the mark in `[.!?]"?\s*$`: an optional quote, then whitespace to the end. */
  predicate TailAfterMark(u: string) {
    AllSpace(u) || (u != [] && u[0] == '"' && AllSpace(u[1..]))
  }

  /** The string matches `/[.!?]"?\s*$/`. */
  ghost predicate MatchesBreakPattern(s: string) {
    exists k | 0 <= k < |s| :: IsMark(s[k]) && TailAfterMark(s[k + 1..])
  }

  /** The last character is a mark, or a quote right after a mark. */
  predicate EndsWithMark(t: string) {
    t != [] && (IsMark(t[|t| - 1]) || (|t| >= 2 && t[|t| - 1] == '"' && IsMark(t[|t| - 2])))
  }

  /** isGoodBreakPoint (lines 155-172). */
  predicate IsGoodBreakPoint(line: string) {
    var t := Trim(line);
    if t == [] then false
    else if EndsWithMark(t) then true
    else |t| > 100
  }

  /** On a trimmed string the pattern matches exactly when it ends with a mark, or a mark and a quote. */
  lemma MarkAtEnd(t: string)
    requires t != [] && IsTrimmed(t)
    ensures MatchesBreakPattern(t) <==> EndsWithMark(t)
  {
    var n := |t|;
    if EndsWithMark(t) {
      if IsMark(t[n - 1]) {
        assert t[n..] == [] && TailAfterMark(t[n..]);
      } else {
        assert t[n - 1..] == "\"" && t[n - 1..][1..] == [];
        assert TailAfterMark(t[n - 1..]);
      }
    }
    if MatchesBreakPattern(t) {
      var k :| 0 <= k < n && IsMark(t[k]) && TailAfterMark(t[k + 1..]);
      var u := t[k + 1..];
      if u == [] {
        assert k == n - 1;
      } else if AllSpace(u) {
        // the last character of t would be whitespace
        assert false;
      } else if |u| == 1 {
        assert k == n - 2 && t[n - 1] == u[0];
      } else {
        // the last character of t would be whitespace
        assert false;
      }
    }
  }

  /** isGoodBreakPoint holds iff the trimmed line is non-empty and matches the pattern or is over 100 characters. */
  lemma GoodBreakPointSpec(line: string)
    ensures IsGoodBreakPoint(line) <==>
      Trim(line) != [] && (MatchesBreakPattern(Trim(line)) || |Trim(line)| > 100)
  {
    TrimShape(line);
    if Trim(line) != [] {
      MarkAtEnd(Trim(line));
    }
  }

  // ----------------------------------------------------------- joinLines and createChunk

  /** array_filter on strings: '' and '0' are dropped. */
  function Filtered(ls: seq<string>): seq<string>
    decreases |ls|
  {
    if ls == [] then [] else Filtered(Init(ls)) + (if Truthy(Last(ls)) then [Last(ls)] else [])
  }

  lemma FilteredSnoc(ls: seq<string>, l: string)
    ensures Filtered(ls + [l]) == Filtered(ls) + (if Truthy(l) then [l] else [])
  {
    assert Init(ls + [l]) == ls && Last(ls + [l]) == l;
  }

  /** The loop of joinLines (lines 140-150): a run of '' markers becomes one. */
  function Collapse(ls: seq<string>, previousWasEmpty: bool): seq<string>
    decreases |ls|
  {
    if ls == [] then []
    else if ls[0] == "" then (if previousWasEmpty then [] else [""]) + Collapse(ls[1..], true)
    else [ls[0]] + Collapse(ls[1..], false)
  }

  /** joinLines (lines 135-153). */
  function JoinedLines(ls: seq<string>): string {
    Join(Collapse(ls, false), Newline)
  }

  /** No two '' markers next to each other. */
  predicate NoAdjacentEmpty(r: seq<string>) {
    forall i | 0 <= i < |r| - 1 :: !(r[i] == "" && r[i + 1] == "")
  }

  lemma NoAdjacentEmptyCons(x: string, rest: seq<string>)
    requires NoAdjacentEmpty(rest) && (x == "" && rest != [] ==> rest[0] != "")
    ensures NoAdjacentEmpty([x] + rest)
  {
    var r := [x] + rest;
    forall i | 0 <= i < |r| - 1 ensures !(r[i] == "" && r[i + 1] == "") {
      assert r[i + 1] == rest[i];
      if i > 0 {
        assert r[i] == rest[i - 1];
      }
    }
  }

  /** No two '' in a row are left, and no leading '' after one. */
  lemma {:induction false} CollapseNoDoubleEmpty(ls: seq<string>, prev: bool)
    ensures NoAdjacentEmpty(Collapse(ls, prev))
    ensures prev && Collapse(ls, prev) != [] ==> Collapse(ls, prev)[0] != ""
    decreases |ls|
  {
    if ls != [] {
      CollapseNoDoubleEmpty(ls[1..], ls[0] == "");
      var rest := Collapse(ls[1..], ls[0] == "");
      if ls[0] == "" && prev {
        assert Collapse(ls, prev) == [] + rest;
        assert [] + rest == rest;
      } else if ls[0] == "" {
        assert Collapse(ls, prev) == [""] + rest;
        NoAdjacentEmptyCons("", rest);
      } else {
        assert Collapse(ls, prev) == [ls[0]] + rest;
        NoAdjacentEmptyCons(ls[0], rest);
      }
    }
  }

  /** Only '' markers are dropped: the other lines are all kept, in order. */
  lemma {:induction false} CollapseKeepsLines(ls: seq<string>, prev: bool)
    ensures NonEmptyLines(Collapse(ls, prev)) == NonEmptyLines(ls)
    decreases |ls|
  {
    if ls != [] {
      CollapseKeepsLines(ls[1..], ls[0] == "");
      if ls[0] == "" {
        NonEmptyLinesCons("", ls[1..]);
        assert [] + Collapse(ls[1..], true) == Collapse(ls[1..], true);
        assert [] + NonEmptyLines(ls[1..]) == NonEmptyLines(ls[1..]);
        if !prev {
          NonEmptyLinesCons("", Collapse(ls[1..], true));
        }
      } else {
        NonEmptyLinesCons(ls[0], ls[1..]);
        NonEmptyLinesCons(ls[0], Collapse(ls[1..], false));
      }
    }
  }

  /** The lines other than ''. */
  function NonEmptyLines(ls: seq<string>): seq<string>
    decreases |ls|
  {
    if ls == [] then [] else (if ls[0] == "" then [] else [ls[0]]) + NonEmptyLines(ls[1..])
  }

  lemma NonEmptyLinesCons(l: string, ls: seq<string>)
    ensures NonEmptyLines([l] + ls) == (if l == "" then [] else [l]) + NonEmptyLines(ls)
  {
    assert ([l] + ls)[1..] == ls;
  }

  /** The metadata of createChunk (lines 122-126): line_count counts the truthy lines. */
  function DialogueMeta(text: string, lineCount: nat): Metadata {
    map["strategy" := StrValue(Name), "length" := IntValue(|text|), "line_count" := IntValue(lineCount)]
  }

  /** createChunk (lines 115-132). */
  function Create(ls: seq<string>, pos: nat): Chunk {
    var text := JoinedLines(ls);
    Chunk(text, pos, DialogueMeta(text, |Filtered(ls)|))
  }

  /** createChunk applied to each group in turn: positions count up from `pos`. */
  function Created(gs: seq<seq<string>>, pos: nat): (cs: seq<Chunk>)
    ensures |cs| == |gs|
  {
    seq(|gs|, i requires 0 <= i < |gs| => Create(gs[i], pos + i))
  }

  lemma CreatedSnoc(gs: seq<seq<string>>, g: seq<string>, pos: nat)
    ensures Created(gs + [g], pos) == Created(gs, pos) + [Create(g, pos + |gs|)]
  {
  }

  lemma CreatedAppend(a: seq<seq<string>>, b: seq<seq<string>>, pos: nat)
    ensures Created(a + b, pos) == Created(a, pos) + Created(b, pos + |a|)
  {
  }

  // ----------------------------------------------------------- emitChunk

  /**
   * One line of the foreach loop of emitChunk (lines 86-104), with the
   * current chunk lines `cur` of size `size`: the chunk it closes, if any,
   * then the new current lines and size.
   */
  function Take(line: string, cfg: Config, cur: seq<string>, size: int): (Option<seq<string>>, seq<string>, int) {
    if line == "" then
      if size >= cfg.minChunkSize && |cur| > 0 then (Some(cur), [], 0)
      else (None, cur + [""], size)
    else
      var cur1 := cur + [line];
      var size1 := size + |line|;
      if size1 >= cfg.targetChunkSize && IsGoodBreakPoint(line) then (Some(cur1), [], 0)
      else (None, cur1, size1)
  }

  function Closed(g: Option<seq<string>>): seq<seq<string>> {
    if g.Some? then [g.value] else []
  }

  /** The whole loop from the lines `ls` on: the groups it closes, then the open group and its size. */
  function Groups(ls: seq<string>, cfg: Config, cur: seq<string>, size: int): (seq<seq<string>>, seq<string>, int)
    decreases |ls|
  {
    if ls == [] then ([], cur, size)
    else
      var t := Take(ls[0], cfg, cur, size);
      var r := Groups(ls[1..], cfg, t.1, t.2);
      (Closed(t.0) + r.0, r.1, r.2)
  }

  /** One step of the loop. */
  lemma GroupsCons(l: string, ls: seq<string>, cfg: Config, cur: seq<string>, size: int)
    ensures var t := Take(l, cfg, cur, size);
      var r := Groups(ls, cfg, t.1, t.2);
      Groups([l] + ls, cfg, cur, size) == (Closed(t.0) + r.0, r.1, r.2)
  {
    assert ([l] + ls)[0] == l && ([l] + ls)[1..] == ls;
  }

  /** A line either closes a non-empty chunk and starts afresh, or joins the current one; no line but a cut '' is lost. */
  lemma TakeKeeps(line: string, cfg: Config, cur: seq<string>, size: int)
    ensures var t := Take(line, cfg, cur, size);
      && NonEmptyLines(Flatten(Closed(t.0)) + t.1) == NonEmptyLines(cur + [line])
      && (t.0.Some? ==> t.0.value != [] && t.1 == [])
  {
    var t := Take(line, cfg, cur, size);
    var g, c := t.0, t.1;
    NonEmptyLinesAppend(cur, [line]);
    assert NonEmptyLines([line]) == (if line == "" then [] else [line]) + NonEmptyLines([]) by {
      NonEmptyLinesCons(line, []);
      assert [line] + [] == [line];
    }
    if g.Some? {
      assert Flatten([g.value]) == g.value + Flatten([]);
      assert g.value + [] == g.value;
      NonEmptyLinesAppend(g.value, []);
      if line != "" {
        NonEmptyLinesAppend(cur, [line]);
      }
    } else {
      assert Flatten([]) + c == c;
    }
  }

  /** The groups emitChunk makes of the pending lines: the closed ones, then the open one if any. */
  function EmitGroups(pending: seq<string>, cfg: Config): seq<seq<string>> {
    if pending == [] then []
    else
      var r := Groups(pending, cfg, [], 0);
      r.0 + (if |r.1| > 0 then [r.1] else [])
  }

  /** emitChunk (lines 76-112): the chunks; pendingLines is left empty. */
  function Emit(pending: seq<string>, cfg: Config, pos: nat): seq<Chunk> {
    Created(EmitGroups(pending, cfg), pos)
  }

  lemma {:induction false} NonEmptyLinesAppend(a: seq<string>, b: seq<string>)
    ensures NonEmptyLines(a + b) == NonEmptyLines(a) + NonEmptyLines(b)
    decreases |a|
  {
    if a == [] {
      assert a + b == b;
    } else {
      assert (a + b)[1..] == a[1..] + b;
      NonEmptyLinesAppend(a[1..], b);
    }
  }

  lemma FlattenAppend3(o: seq<seq<string>>, gs: seq<seq<string>>, c: seq<string>)
    requires |o| <= 1
    ensures Flatten(o + gs) + c == Flatten(o) + (Flatten(gs) + c)
  {
    if o != [] {
      assert (o + gs)[1..] == gs;
      assert Flatten(o) == o[0] + Flatten([]);
    } else {
      assert o + gs == gs;
    }
  }

  /**
   * The loop loses no line but the '' markers it cuts at: the lines of the
   * groups and the open group agree on their non-empty lines with cur + ls,
   * and every closed group has a line.
   */
  lemma {:induction false} GroupsKeepLines(ls: seq<string>, cfg: Config, cur: seq<string>, size: int)
    ensures NonEmptyLines(Flatten(Groups(ls, cfg, cur, size).0) + Groups(ls, cfg, cur, size).1) == NonEmptyLines(cur + ls)
    decreases |ls|
  {
    if ls == [] {
      assert cur + ls == cur;
      assert Flatten([]) + cur == cur;
    } else {
      var t := Take(ls[0], cfg, cur, size);
      var r := Groups(ls[1..], cfg, t.1, t.2);
      GroupsKeepLines(ls[1..], cfg, t.1, t.2);
      TakeKeeps(ls[0], cfg, cur, size);
      GroupsKeepStep(Flatten(Closed(t.0)), t.1, Flatten(r.0) + r.1, cur + [ls[0]], ls[1..]);
      FlattenAppend3(Closed(t.0), r.0, r.1);
      assert Groups(ls, cfg, cur, size) == (Closed(t.0) + r.0, r.1, r.2);
      HeadAssoc(cur, ls);
    }
  }

  /** The bookkeeping of one step of GroupsKeepLines. */
  lemma GroupsKeepStep(f: seq<string>, c: seq<string>, tail: seq<string>, head: seq<string>, ls: seq<string>)
    requires NonEmptyLines(f + c) == NonEmptyLines(head)
    requires NonEmptyLines(tail) == NonEmptyLines(c + ls)
    ensures NonEmptyLines(f + tail) == NonEmptyLines(head + ls)
  {
    var a, b, d := NonEmptyLines(f), NonEmptyLines(c), NonEmptyLines(ls);
    calc {
      NonEmptyLines(f + tail);
      { NonEmptyLinesAppend(f, tail); }
      a + NonEmptyLines(c + ls);
      { NonEmptyLinesAppend(c, ls); }
      a + (b + d);
      { AppendAssoc(a, b, d); }
      (a + b) + d;
      { NonEmptyLinesAppend(f, c); }
      NonEmptyLines(head) + d;
      { NonEmptyLinesAppend(head, ls); }
      NonEmptyLines(head + ls);
    }
  }

  lemma HeadAssoc(cur: seq<string>, ls: seq<string>)
    requires ls != []
    ensures cur + ls == (cur + [ls[0]]) + ls[1..]
  {
    assert ls == [ls[0]] + ls[1..];
  }

  lemma {:induction false} GroupsNonEmpty(ls: seq<string>, cfg: Config, cur: seq<string>, size: int)
    ensures forall g <- Groups(ls, cfg, cur, size).0 :: g != []
    decreases |ls|
  {
    if ls != [] {
      var t := Take(ls[0], cfg, cur, size);
      GroupsNonEmpty(ls[1..], cfg, t.1, t.2);
      TakeKeeps(ls[0], cfg, cur, size);
    }
  }

  /**
   * emitChunk puts every pending line other than the '' markers into exactly
   * one chunk, in order, and every chunk has at least one line.
   */
  lemma EmitKeepsLines(pending: seq<string>, cfg: Config)
    ensures NonEmptyLines(Flatten(EmitGroups(pending, cfg))) == NonEmptyLines(pending)
    ensures forall g <- EmitGroups(pending, cfg) :: g != []
  {
    if pending != [] {
      GroupsKeepLines(pending, cfg, [], 0);
      GroupsNonEmpty(pending, cfg, [], 0);
      assert [] + pending == pending;
      var gs, c := Groups(pending, cfg, [], 0).0, Groups(pending, cfg, [], 0).1;
      if |c| > 0 {
        FlattenSnoc(gs, c);
      } else {
        assert gs + [] == gs;
        assert Flatten(gs) + c == Flatten(gs);
      }
    }
  }

  /** Each emitted chunk advances the position by one. */
  lemma EmitShape(pending: seq<string>, cfg: Config, pos: nat)
    ensures Consecutive(Emit(pending, cfg, pos), pos)
    ensures forall c <- Emit(pending, cfg, pos) ::
      c.metadata["strategy"] == StrValue(Name) && c.metadata["length"] == IntValue(|c.text|)
  {
  }

  // ----------------------------------------------------------- process

  /** The size test of line 56: the space-joined truthy pending lines. */
  function PendingSize(p: seq<string>): nat {
    |Join(Filtered(p), " ")|
  }

  /**
   * The foreach loop of process (lines 44-61): a blank line adds a '' marker
   * unless nothing is pending; any other line is added trimmed, and
   * emitChunk runs once the pending size reaches the target.
   */
  function Feed(lines: seq<string>, cfg: Config, pending: seq<string>, pos: nat): (seq<Chunk>, seq<string>, nat)
    decreases |lines|
  {
    if lines == [] then ([], pending, pos)
    else
      var t := Trim(lines[0]);
      if t == [] then Feed(lines[1..], cfg, if |pending| > 0 then pending + [""] else pending, pos)
      else
        var p := pending + [t];
        if PendingSize(p) >= cfg.targetChunkSize then
          var cs := Emit(p, cfg, pos);
          var (cs2, q, r) := Feed(lines[1..], cfg, [], pos + |cs|);
          (cs + cs2, q, r)
        else Feed(lines[1..], cfg, p, pos)
  }

  /** The lines of the grown buffer after newline runs are collapsed (lines 34-36). */
  function Lines(s: State, data: string): seq<string> {
    Split(CollapseNewlines(s.buffer + data), Newline)
  }

  /**
   * process(data, isEnd). At the end the buffer was just emptied, so the
   * block of lines 64-69 never fires, and emitChunk runs on what is pending.
   */
  function Step(s: State, cfg: Config, data: string, isEnd: bool): (seq<Chunk>, State) {
    var ls := Lines(s, data);
    var (cs, p, pos) := Feed(if isEnd then ls else Init(ls), cfg, s.pending, s.position);
    if isEnd then
      var cs2 := Emit(p, cfg, pos);
      (cs + cs2, State([], pos + |cs2|, []))
    else (cs, State(Last(ls), pos, p))
  }

  // ----------------------------------------------------------- invariants of process

  /** Pending lines are '' markers or trimmed non-empty lines, and never start with ''. */
  predicate PendingShape(p: seq<string>) {
    (p != [] ==> p[0] != "") && forall l <- p :: l == "" || (l != [] && IsTrimmed(l))
  }

  /** Between calls, what is pending is below the target (or nothing is). */
  predicate Between(s: State, cfg: Config) {
    PendingShape(s.pending) && (s.pending == [] || PendingSize(s.pending) < cfg.targetChunkSize)
  }

  lemma PendingSizeMarker(p: seq<string>)
    ensures PendingSize(p + [""]) == PendingSize(p)
  {
    FilteredSnoc(p, "");
    assert Filtered(p) + [] == Filtered(p);
  }

  /** Adding a '' marker behind a line, or a trimmed non-empty line, keeps the shape. */
  lemma ShapeSnoc(p: seq<string>, t: string)
    requires PendingShape(p)
    requires if t == "" then p != [] else IsTrimmed(t)
    ensures PendingShape(p + [t])
  {
    var q := p + [t];
    assert q[0] == if p == [] then t else p[0];
    forall l <- q ensures l == "" || (l != [] && IsTrimmed(l)) {
      if l != t {
        assert l in p;
      }
    }
  }

  /** What is pending after the loop has taken one more line. */
  function PendingAfter(line: string, cfg: Config, pending: seq<string>): seq<string> {
    var t := Trim(line);
    if t == [] then (if |pending| > 0 then pending + [""] else pending)
    else if PendingSize(pending + [t]) >= cfg.targetChunkSize then []
    else pending + [t]
  }

  /** The chunks emitted when the loop takes one more line. */
  function ChunksAfter(line: string, cfg: Config, pending: seq<string>, pos: nat): seq<Chunk> {
    var t := Trim(line);
    if t != [] && PendingSize(pending + [t]) >= cfg.targetChunkSize then Emit(pending + [t], cfg, pos)
    else []
  }

  /** The position after the loop has taken one more line. */
  function PositionAfter(line: string, cfg: Config, pending: seq<string>, pos: nat): nat {
    pos + |ChunksAfter(line, cfg, pending, pos)|
  }

  /** The loop is its first iteration followed by the rest. */
  lemma FeedUnfold(lines: seq<string>, cfg: Config, pending: seq<string>, pos: nat)
    requires lines != []
    ensures var r := Feed(lines[1..], cfg, PendingAfter(lines[0], cfg, pending), PositionAfter(lines[0], cfg, pending, pos));
      Feed(lines, cfg, pending, pos) == (ChunksAfter(lines[0], cfg, pending, pos) + r.0, r.1, r.2)
  {
    var t := Trim(lines[0]);
    if t != [] && PendingSize(pending + [t]) >= cfg.targetChunkSize {
      var cs := Emit(pending + [t], cfg, pos);
      assert ChunksAfter(lines[0], cfg, pending, pos) == cs;
      assert PendingAfter(lines[0], cfg, pending) == [];
      assert PositionAfter(lines[0], cfg, pending, pos) == pos + |cs|;
      FeedUnfoldEmit(lines, cfg, pending, pos);
    } else {
      assert ChunksAfter(lines[0], cfg, pending, pos) == [];
      assert PositionAfter(lines[0], cfg, pending, pos) == pos;
      FeedUnfoldHold(lines, cfg, pending, pos);
      var r := Feed(lines[1..], cfg, PendingAfter(lines[0], cfg, pending), pos);
      assert [] + r.0 == r.0;
    }
  }

  /** The first line completes a chunk: it is emitted and the loop goes on from nothing pending. */
  lemma FeedUnfoldEmit(lines: seq<string>, cfg: Config, pending: seq<string>, pos: nat)
    requires lines != []
    requires var t := Trim(lines[0]); t != [] && PendingSize(pending + [t]) >= cfg.targetChunkSize
    ensures var cs := Emit(pending + [Trim(lines[0])], cfg, pos);
      var r := Feed(lines[1..], cfg, [], pos + |cs|);
      Feed(lines, cfg, pending, pos) == (cs + r.0, r.1, r.2)
  {
  }

  /** The first line completes nothing: no chunk, and the loop goes on with the line held. */
  lemma FeedUnfoldHold(lines: seq<string>, cfg: Config, pending: seq<string>, pos: nat)
    requires lines != []
    requires var t := Trim(lines[0]); !(t != [] && PendingSize(pending + [t]) >= cfg.targetChunkSize)
    ensures Feed(lines, cfg, pending, pos) == Feed(lines[1..], cfg, PendingAfter(lines[0], cfg, pending), pos)
  {
  }

  lemma PendingAfterKeeps(line: string, cfg: Config, pending: seq<string>)
    requires PendingShape(pending) && (pending == [] || PendingSize(pending) < cfg.targetChunkSize)
    ensures var q := PendingAfter(line, cfg, pending);
      PendingShape(q) && (q == [] || PendingSize(q) < cfg.targetChunkSize)
  {
    var t := Trim(line);
    if t == [] {
      if |pending| > 0 {
        PendingSizeMarker(pending);
        ShapeSnoc(pending, "");
      }
    } else if PendingSize(pending + [t]) < cfg.targetChunkSize {
      TrimShape(line);
      ShapeSnoc(pending, t);
    }
  }

  lemma {:induction false} FeedKeeps(lines: seq<string>, cfg: Config, pending: seq<string>, pos: nat)
    requires PendingShape(pending) && (pending == [] || PendingSize(pending) < cfg.targetChunkSize)
    ensures var q := Feed(lines, cfg, pending, pos).1;
      PendingShape(q) && (q == [] || PendingSize(q) < cfg.targetChunkSize)
    decreases |lines|
  {
    if lines != [] {
      FeedUnfold(lines, cfg, pending, pos);
      PendingAfterKeeps(lines[0], cfg, pending);
      FeedKeeps(lines[1..], cfg, PendingAfter(lines[0], cfg, pending), PositionAfter(lines[0], cfg, pending, pos));
    }
  }

  /**
   * Between calls the pending lines keep their shape and stay below the
   * target; after the last call nothing is buffered or pending.
   */
  lemma StepKeeps(s: State, cfg: Config, data: string, isEnd: bool)
    requires Between(s, cfg)
    ensures Between(Step(s, cfg, data, isEnd).1, cfg)
    ensures isEnd ==> Step(s, cfg, data, isEnd).1.buffer == [] && Step(s, cfg, data, isEnd).1.pending == []
  {
    var ls := Lines(s, data);
    FeedKeeps(if isEnd then ls else Init(ls), cfg, s.pending, s.position);
  }

  lemma InitialBetween(cfg: Config)
    ensures Between(Initial, cfg)
  {
  }

  /** The chunks of the loop are numbered on from `pos`. */
  lemma {:induction false} FeedPositions(lines: seq<string>, cfg: Config, pending: seq<string>, pos: nat)
    ensures var (cs, q, r) := Feed(lines, cfg, pending, pos);
      Consecutive(cs, pos) && r == pos + |cs|
    decreases |lines|
  {
    if lines != [] {
      var cs := ChunksAfter(lines[0], cfg, pending, pos);
      var next := PositionAfter(lines[0], cfg, pending, pos);
      FeedUnfold(lines, cfg, pending, pos);
      if cs != [] {
        EmitShape(pending + [Trim(lines[0])], cfg, pos);
      }
      FeedPositions(lines[1..], cfg, PendingAfter(lines[0], cfg, pending), next);
      ConsecutiveAppend(cs, Feed(lines[1..], cfg, PendingAfter(lines[0], cfg, pending), next).0, pos);
    }
  }

  /** Positions continue from the old position, one per chunk. */
  lemma StepPositions(s: State, cfg: Config, data: string, isEnd: bool)
    ensures var (cs, t) := Step(s, cfg, data, isEnd);
      Consecutive(cs, s.position) && t.position == s.position + |cs|
  {
    var ls := Lines(s, data);
    var (cs, p, pos) := Feed(if isEnd then ls else Init(ls), cfg, s.pending, s.position);
    FeedPositions(if isEnd then ls else Init(ls), cfg, s.pending, s.position);
    if isEnd {
      EmitShape(p, cfg, pos);
      ConsecutiveAppend(cs, Emit(p, cfg, pos), s.position);
    }
  }

  /**
   * Before the end only the trailing incomplete line is kept back: it holds
   * no newline, and the lines fed plus it spell the collapsed input.
   */
  lemma BufferIsIncompleteLine(s: State, cfg: Config, data: string)
    ensures '\n' !in Step(s, cfg, data, false).1.buffer
    ensures Join(Init(Lines(s, data)) + [Step(s, cfg, data, false).1.buffer], Newline) == CollapseNewlines(s.buffer + data)
  {
    var ls := Lines(s, data);
    SplitCharPieces(CollapseNewlines(s.buffer + data), '\n');
    assert Last(ls) in ls;
    JoinSplit(CollapseNewlines(s.buffer + data), Newline);
    assert Init(ls) + [Last(ls)] == ls;
  }

  /** The lines never hold a run of three newlines: those were collapsed first. */
  lemma NoTripleNewlineBeforeSplit(s: State, data: string)
    ensures NoTripleNewline(Join(Lines(s, data), Newline))
  {
    JoinSplit(CollapseNewlines(s.buffer + data), Newline);
    CollapseNewlinesNoTriple(s.buffer + data);
  }

  // ----------------------------------------------------------- texts are not always trimmed

  /**
   * A '' marker that does not close a chunk stays in it: a short line
   * followed by a blank line at the end of the stream gives a chunk that
   * ends in "\n".
   */
  lemma TrailingMarkerKept(x: string, cfg: Config)
    requires x != [] && !IsGoodBreakPoint(x) && |x| < cfg.minChunkSize
    ensures Emit([x, ""], cfg, 0) == [Create([x, ""], 0)]
    ensures Create([x, ""], 0).text == x + "\n"
  {
    var ls := [x, ""];
    assert ls[0] == x && ls[1..] == [""] && ls[1..][1..] == [];
    assert [] + [x] == [x] && [x] + [""] == [x, ""];
    assert Take(x, cfg, [], 0) == (None, [x], |x|);
    assert Take("", cfg, [x], |x|) == (None, [x, ""], |x|);
    GroupsCons("", [], cfg, [x], |x|);
    assert [""] + [] == [""] && [x] + [""] == ls;
    assert Closed(None) + [] == [];
    assert Groups([], cfg, [x, ""], |x|) == ([], [x, ""], |x|);
    assert Groups([""], cfg, [x], |x|) == ([], [x, ""], |x|);
    GroupsCons(x, [""], cfg, [], 0);
    assert Groups(ls, cfg, [], 0) == ([], [x, ""], |x|);
    assert EmitGroups(ls, cfg) == [[x, ""]];
    assert Collapse([""], true) == [];
    assert Collapse([""], false) == [""];
    assert Collapse([x, ""], false) == [x, ""];
    assert Join([x, ""], Newline) == x + "\n" + "";
  }

  /**
   * Two blank lines after a chunk that is closed at the first of them leave
   * a chunk holding only a '' marker: its text is empty.
   */
  lemma EmptyChunkAfterCut(x: string, cfg: Config)
    requires x != [] && !IsGoodBreakPoint(x) && |x| < cfg.targetChunkSize && |x| >= cfg.minChunkSize
    requires cfg.minChunkSize > 0
    ensures |Emit([x, "", ""], cfg, 0)| == 2
    ensures Emit([x, "", ""], cfg, 0)[1].text == ""
  {
    var ls := [x, "", ""];
    assert ls[0] == x && ls[1..] == ["", ""] && ls[1..][1..] == [""] && ls[1..][1..][1..] == [];
    assert [] + [x] == [x] && [] + [""] == [""];
    assert Take(x, cfg, [], 0) == (None, [x], |x|);
    assert Take("", cfg, [x], |x|) == (Some([x]), [], 0);
    assert Take("", cfg, [], 0) == (None, [""], 0);
    assert [""] + [] == [""] && [""] + [""] == ["", ""] && [x] + ["", ""] == ls;
    assert Closed(None) + [] == [] && Closed(Some([x])) + [] == [[x]];
    GroupsCons("", [], cfg, [], 0);
    assert Groups([], cfg, [""], 0) == ([], [""], 0);
    assert Groups([""], cfg, [], 0) == ([], [""], 0);
    GroupsCons("", [""], cfg, [x], |x|);
    assert Groups(["", ""], cfg, [x], |x|) == ([[x]], [""], 0);
    GroupsCons(x, ["", ""], cfg, [], 0);
    assert Closed(None) + [[x]] == [[x]];
    assert Groups(ls, cfg, [], 0) == ([[x]], [""], 0);
    assert EmitGroups(ls, cfg) == [[x], [""]];
    assert Collapse([""], true) == [];
    assert Collapse([""], false) == [""];
    assert Join([""], Newline) == "";
  }

  // ----------------------------------------------------------- the class

  class DialogueStrategy {
    const config: Config
    var buffer: string
    var position: nat
    var pendingLines: seq<string>

    function Current(): State
      reads this
    {
      State(buffer, position, pendingLines)
    }

    /** new DialogueChunkingStrategy(targetChunkSize, minChunkSize): any sizes are accepted. */
    constructor (targetChunkSize: int, minChunkSize: int)
      ensures config == Config(targetChunkSize, minChunkSize) && Current() == Initial
    {
      config := Config(targetChunkSize, minChunkSize);
      buffer := "";
      position := 0;
      pendingLines := [];
    }

    method Reset()
      modifies this
      ensures Current() == Initial
    {
      buffer := "";
      position := 0;
      pendingLines := [];
    }

    method Process(data: string, isEnd: bool) returns (chunks: seq<Chunk>)
      modifies this
      ensures (chunks, Current()) == Step(old(Current()), config, data, isEnd)
    {
      ghost var s0 := Current();
      buffer := buffer + data;
      var normalized := CollapseNewlines(buffer);
      var lines := Split(normalized, Newline);
      if !isEnd {
        buffer := Last(lines);
        lines := Init(lines);
      } else {
        buffer := "";
      }
      var pending, pos;
      chunks, pending, pos := FeedLines(lines, config, pendingLines, position);
      pendingLines, position := pending, pos;
      if isEnd {
        // The block of lines 64-69 cannot fire: the buffer was just emptied.
        assert buffer == "";
        var more;
        more, pos := EmitChunk(pendingLines, config, position);
        chunks := chunks + more;
        pendingLines, position := [], pos;
      }
      ghost var r := Step(s0, config, data, isEnd);
      assert r.0 == chunks;
      assert r.1 == State(buffer, position, pendingLines);
    }
  }

  /** The foreach loop of process (lines 44-61) on local copies of the fields. */
  method FeedLines(lines: seq<string>, cfg: Config, pending0: seq<string>, pos0: nat)
    returns (chunks: seq<Chunk>, pending: seq<string>, pos: nat)
    ensures (chunks, pending, pos) == Feed(lines, cfg, pending0, pos0)
  {
    chunks, pending, pos := [], pending0, pos0;
    for i := 0 to |lines|
      invariant Feed(lines, cfg, pending0, pos0).0 == chunks + Feed(lines[i..], cfg, pending, pos).0
      invariant Feed(lines, cfg, pending0, pos0).1 == Feed(lines[i..], cfg, pending, pos).1
      invariant Feed(lines, cfg, pending0, pos0).2 == Feed(lines[i..], cfg, pending, pos).2
    {
      ghost var rest := lines[i..];
      assert rest[0] == lines[i] && rest[1..] == lines[i + 1..];
      FeedUnfold(rest, cfg, pending, pos);
      var more;
      more, pending, pos := FeedLine(lines[i], cfg, pending, pos);
      AppendAssoc(chunks, more, Feed(lines[i + 1..], cfg, pending, pos).0);
      chunks := chunks + more;
    }
    assert lines[|lines|..] == [];
    assert chunks + [] == chunks;
  }

  /** One iteration of the foreach loop of process (lines 45-60). */
  method FeedLine(line: string, cfg: Config, pending0: seq<string>, pos0: nat)
    returns (chunks: seq<Chunk>, pending: seq<string>, pos: nat)
    ensures chunks == ChunksAfter(line, cfg, pending0, pos0)
    ensures pending == PendingAfter(line, cfg, pending0)
    ensures pos == PositionAfter(line, cfg, pending0, pos0)
  {
    chunks, pending, pos := [], pending0, pos0;
    var trimmed := Trim(line);
    if trimmed == [] {
      if |pending| > 0 {
        pending := pending + [""];
      }
      return;
    }
    pending := pending + [trimmed];
    var currentSize := |Join(Filtered(pending), " ")|;
    if currentSize >= cfg.targetChunkSize {
      chunks, pos := EmitChunk(pending, cfg, pos);
      pending := [];
    }
  }

  /** emitChunk (lines 76-112) on a local copy of the position; the caller empties pendingLines. */
  method EmitChunk(pending: seq<string>, cfg: Config, pos0: nat) returns (chunks: seq<Chunk>, pos: nat)
    ensures chunks == Emit(pending, cfg, pos0) && pos == pos0 + |chunks|
  {
    if |pending| == 0 {
      return [], pos0;
    }
    var chunkLines;
    chunks, chunkLines, pos := GroupLoop(pending, cfg, pos0);
    ghost var closed := Groups(pending, cfg, [], 0).0;
    if |chunkLines| > 0 {
      assert EmitGroups(pending, cfg) == closed + [chunkLines];
      var c := CreateChunk(chunkLines, pos);
      CreatedSnoc(closed, chunkLines, pos0);
      chunks := chunks + [c];
      pos := pos + 1;
    } else {
      assert EmitGroups(pending, cfg) == closed + [];
      assert closed + [] == closed;
    }
  }

  /** The foreach loop of emitChunk (lines 86-104): the chunks it yields and the lines left open. */
  method GroupLoop(pending: seq<string>, cfg: Config, pos0: nat) returns (chunks: seq<Chunk>, chunkLines: seq<string>, pos: nat)
    ensures var r := Groups(pending, cfg, [], 0);
      chunks == Created(r.0, pos0) && chunkLines == r.1 && pos == pos0 + |r.0|
  {
    chunks, pos := [], pos0;
    chunkLines := [];
    var chunkSize := 0;
    ghost var closed: seq<seq<string>> := [];
    for i := 0 to |pending|
      invariant Groups(pending, cfg, [], 0).0 == closed + Groups(pending[i..], cfg, chunkLines, chunkSize).0
      invariant Groups(pending, cfg, [], 0).1 == Groups(pending[i..], cfg, chunkLines, chunkSize).1
      invariant chunks == Created(closed, pos0) && pos == pos0 + |closed|
    {
      ghost var t := Take(pending[i], cfg, chunkLines, chunkSize);
      GroupsAt(pending, i, cfg, chunkLines, chunkSize);
      var c;
      c, chunkLines, chunkSize := TakeLine(pending[i], cfg, chunkLines, chunkSize, pos);
      AppendAssoc(closed, Closed(t.0), Groups(pending[i + 1..], cfg, chunkLines, chunkSize).0);
      if c.Some? {
        CreatedSnoc(closed, t.0.value, pos0);
        chunks := chunks + [c.value];
        pos := pos + 1;
      } else {
        assert closed + [] == closed;
      }
      closed := closed + Closed(t.0);
    }
    assert pending[|pending|..] == [];
    assert closed + [] == closed;
  }

  /** The loop from line `i` on is line `i` taken, then the loop from line `i + 1`. */
  lemma GroupsAt(ls: seq<string>, i: nat, cfg: Config, cur: seq<string>, size: int)
    requires i < |ls|
    ensures var t := Take(ls[i], cfg, cur, size);
      var r := Groups(ls[i + 1..], cfg, t.1, t.2);
      Groups(ls[i..], cfg, cur, size) == (Closed(t.0) + r.0, r.1, r.2)
  {
    var rest := ls[i..];
    assert rest[0] == ls[i] && rest[1..] == ls[i + 1..];
  }

  /** The body of the foreach loop of emitChunk (lines 86-104): the chunk it yields, if any, and the new current lines. */
  method TakeLine(line: string, cfg: Config, cur: seq<string>, size: int, pos: nat)
    returns (c: Option<Chunk>, chunkLines: seq<string>, chunkSize: int)
    ensures var t := Take(line, cfg, cur, size);
      && chunkLines == t.1 && chunkSize == t.2
      && c == (if t.0.Some? then Some(Create(t.0.value, pos)) else None)
  {
    chunkLines, chunkSize := cur, size;
    if line == "" {
      if chunkSize >= cfg.minChunkSize && |chunkLines| > 0 {
        var chunk := CreateChunk(chunkLines, pos);
        return Some(chunk), [], 0;
      }
      chunkLines := chunkLines + [""];
      return None, chunkLines, chunkSize;
    }
    chunkLines := chunkLines + [line];
    chunkSize := chunkSize + |line|;
    if chunkSize >= cfg.targetChunkSize && IsGoodBreakPoint(line) {
      var chunk := CreateChunk(chunkLines, pos);
      return Some(chunk), [], 0;
    }
    c := None;
  }

  /** createChunk (lines 115-132) for a given position; the caller advances it. */
  method CreateChunk(lines: seq<string>, pos: nat) returns (c: Chunk)
    ensures c == Create(lines, pos)
  {
    var text := JoinLinesLoop(lines);
    c := Chunk(text, pos, DialogueMeta(text, |Filtered(lines)|));
  }

  /** joinLines (lines 135-153). */
  method JoinLinesLoop(lines: seq<string>) returns (text: string)
    ensures text == JoinedLines(lines)
  {
    var result: seq<string> := [];
    var previousWasEmpty := false;
    for i := 0 to |lines|
      invariant Collapse(lines, false) == result + Collapse(lines[i..], previousWasEmpty)
    {
      ghost var rest := lines[i..];
      assert rest[0] == lines[i] && rest[1..] == lines[i + 1..];
      if lines[i] == "" {
        if !previousWasEmpty {
          result := result + [""];
        }
        previousWasEmpty := true;
      } else {
        result := result + [lines[i]];
        previousWasEmpty := false;
      }
    }
    assert lines[|lines|..] == [];
    assert result + [] == result;
    text := Join(result, Newline);
  }
}
