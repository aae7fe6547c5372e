/**
 * ParagraphChunkingStrategy: paragraphs are the pieces between "\n\n"
 * separators; the last piece is held back until the end of the stream.
 */
module Paragraph {
  import opened TextUtil
  import opened Chunks

  const Name: string := "paragraph"
  const Separator: string := "\n\n"

  /** The strategy's mutable fields as a value. */
  datatype State = State(buffer: string, position: nat)

  /** The state after construction and after reset. */
  const Initial: State := State("", 0)

  /** The pieces process cuts the grown buffer into. */
  function Pieces(s: State, data: string): seq<string> {
    Split(s.buffer + data, Separator)
  }

  /** The pieces that are emitted: all of them at the end, all but the last otherwise. */
  function Emitted(s: State, data: string, isEnd: bool): seq<string> {
    var ps := Pieces(s, data);
    if isEnd then ps else Init(ps)
  }

  /** process(data, isEnd): the chunks it yields and the state it leaves. */
  function Step(s: State, data: string, isEnd: bool): (seq<Chunk>, State) {
    var cs := TrimmedChunks(Emitted(s, data, isEnd), s.position, Name);
    (cs, State(if isEnd then [] else OrEmpty(Last(Pieces(s, data))), s.position + |cs|))
  }

  /**
   * Every emitted text is a trimmed, non-empty paragraph, the pieces are taken
   * in order with the blank ones skipped, positions continue from the old
   * position, and the metadata is the strategy name and the text length.
   */
  lemma EmitsTrimmedPieces(s: State, data: string, isEnd: bool)
    ensures var (cs, t) := Step(s, data, isEnd);
      && Texts(cs) == NonBlank(Emitted(s, data, isEnd))
      && (forall c <- cs :: c.text != [] && IsTrimmed(c.text) && c.metadata == LengthMeta(Name, c.text))
      && Consecutive(cs, s.position)
      && t.position == s.position + |cs|
  {
    TrimmedChunksShape(Emitted(s, data, isEnd), s.position, Name);
  }

  /** No emitted paragraph contains a blank-line separator. */
  lemma ParagraphsAvoidSeparator(s: State, data: string, isEnd: bool)
    ensures forall c <- Step(s, data, isEnd).0 :: !Contains(c.text, Separator)
  {
    var emitted := Emitted(s, data, isEnd);
    SplitPiecesAvoidSeparator(s.buffer + data, Separator);
    assert forall p <- emitted :: p in Pieces(s, data);
    forall p <- emitted ensures !Contains(Trim(p), Separator) {
      TrimAvoids(p, Separator);
    }
    TrimmedChunksKeep(emitted, s.position, Name, t => !Contains(t, Separator));
  }

  /**
   * At the end the buffer is emptied, so the flush of lines 52-64 never fires.
   * Otherwise the buffer is the text after the last separator, except that a
   * remainder of "0" is falsy and becomes '' (line 28).
   */
  lemma HoldsBackLastPiece(s: State, data: string, isEnd: bool)
    ensures var ps := Pieces(s, data); var t := Step(s, data, isEnd).1;
      && (isEnd ==> t.buffer == [])
      && (!isEnd ==> !Contains(t.buffer, Separator))
      && (!isEnd && Last(ps) != "0" ==> s.buffer + data == Join(Emitted(s, data, isEnd) + [t.buffer], Separator))
      && (!isEnd && Last(ps) == "0" ==> t.buffer == [])
  {
    if !isEnd {
      var ps := Pieces(s, data);
      var t := Step(s, data, isEnd).1;
      assert Emitted(s, data, isEnd) == Init(ps);
      assert t.buffer == OrEmpty(Last(ps));
      LastPieceAvoidsSeparator(s.buffer + data);
      if Last(ps) != "0" {
        LastPieceRejoins(s.buffer + data);
      } else {
        EmptyAvoidsSeparator();
      }
    }
  }

  /** The piece after the last separator holds no separator. */
  lemma LastPieceAvoidsSeparator(buf: string)
    ensures !Contains(Last(Split(buf, Separator)), Separator)
  {
    SplitPiecesAvoidSeparator(buf, Separator);
    assert Last(Split(buf, Separator)) in Split(buf, Separator);
  }

  /** The pieces before the last one, then the last one, joined back, are the buffer. */
  lemma LastPieceRejoins(buf: string)
    ensures var ps := Split(buf, Separator); buf == Join(Init(ps) + [Last(ps)], Separator)
  {
    var ps := Split(buf, Separator);
    JoinSplit(buf, Separator);
    assert Init(ps) + [Last(ps)] == ps;
  }

  lemma EmptyAvoidsSeparator()
    ensures !Contains([], Separator)
  {
    forall j: nat ensures !OccursAt([], Separator, j) { }
  }

  /** The quirk of line 28: "A\n\n0" fed without end loses the trailing "0". */
  lemma ZeroRemainderIsLost()
    ensures Step(Initial, "A\n\n0", false).1.buffer == []
  {
    var s := "A\n\n0";
    assert "" + s == s;
    assert s[..2][0] == 'A';
    assert s[1..] == "\n\n0" && s[1..][..2] == Separator && s[1..][2..] == "0";
    assert Split("0", Separator) == ["0"];
    assert Split(s[1..], Separator) == [[], "0"];
    assert Split(s, Separator) == [[s[0]] + []] + ["0"];
    assert [s[0]] + [] == "A";
    assert Initial.buffer + s == s;
    assert Pieces(Initial, s) == ["A", "0"];
  }

  /** A paragraph as the tests write them: non-empty, trimmed, on one line. */
  predicate PlainParagraph(p: string) {
    p != [] && IsTrimmed(p) && '\n' !in p
  }

  /** A single one-line paragraph, fed at once, is one chunk with the same text. */
  lemma OneParagraph(p: string)
    requires PlainParagraph(p)
    ensures Texts(Step(Initial, p, true).0) == [p]
  {
    assert Initial.buffer + p == p;
    SplitFreePiece(p, Separator);
    assert Pieces(Initial, p) == [p];
    TrimmedChunksShape([p], 0, Name);
    NonBlankOfTrimmed([p]);
  }

  /** Fed at once from the start, the chunk texts are the non-blank trimmed pieces. */
  lemma EndTexts(data: string)
    ensures Texts(Step(Initial, data, true).0) == NonBlank(Split(data, Separator))
  {
    assert Initial.buffer + data == data;
    TrimmedChunksShape(Pieces(Initial, data), 0, Name);
  }

  /** A paragraph as the tests write them has no newline, so it is a single piece. */
  lemma PlainPiece(p: string)
    requires PlainParagraph(p)
    ensures Split(p, Separator) == [p]
  {
    SplitFreePiece(p, Separator);
  }

  /** A paragraph followed by a blank line starts the pieces. */
  lemma PlainHead(p: string, rest: string)
    requires p == [] || PlainParagraph(p)
    ensures Split(p + "\n\n" + rest, Separator) == [p] + Split(rest, Separator)
  {
    SplitAfterFreePiece(p, rest, Separator);
  }

  /**
   * Three one-line paragraphs separated by blank lines, fed at once, give
   * three chunks (the input "First.\n\nSecond.\n\nThird." is one instance).
   */
  lemma ThreeParagraphs(a: string, b: string, c: string)
    requires PlainParagraph(a) && PlainParagraph(b) && PlainParagraph(c)
    ensures Texts(Step(Initial, a + "\n\n" + b + "\n\n" + c, true).0) == [a, b, c]
  {
    ThreePieces(a, b, c);
    EndTexts(a + "\n\n" + b + "\n\n" + c);
    NonBlankThree(a, b, c);
  }

  /** Those three paragraphs split into exactly three pieces. */
  lemma ThreePieces(a: string, b: string, c: string)
    requires PlainParagraph(a) && PlainParagraph(b) && PlainParagraph(c)
    ensures Split(a + "\n\n" + b + "\n\n" + c, Separator) == [a, b, c]
  {
    var bc := b + "\n\n" + c;
    assert a + "\n\n" + b + "\n\n" + c == a + "\n\n" + bc;
    PlainPiece(c);
    PlainHead(b, c);
    PlainHead(a, bc);
  }

  /** Plain paragraphs all survive the trim-and-skip pass. */
  lemma NonBlankThree(a: string, b: string, c: string)
    requires PlainParagraph(a) && PlainParagraph(b) && PlainParagraph(c)
    ensures NonBlank([a, b, c]) == [a, b, c]
  {
    NonBlankOfTrimmed([a, b, c]);
  }

  /** Three pieces whose middle one is blank lose it. */
  lemma NonBlankSkipsMiddle(a: string, c: string)
    requires PlainParagraph(a) && PlainParagraph(c)
    ensures NonBlank([a, [], c]) == [a, c]
  {
    assert [a, [], c] == [a, []] + [c] && [a, []] == [a] + [[]];
    NonBlankSnoc([a, []], c);
    NonBlankSnoc([a], []);
    NonBlankOfTrimmed([a]);
    TrimmedIsFixed(c);
  }

  /**
   * Two paragraphs with four newlines between them make an empty paragraph
   * in the middle, which is skipped (the input "Hello.\n\n\n\nWorld." is one instance).
   */
  lemma EmptyParagraphSkipped(a: string, c: string)
    requires PlainParagraph(a) && PlainParagraph(c)
    ensures Texts(Step(Initial, a + "\n\n\n\n" + c, true).0) == [a, c]
  {
    var rest := [] + "\n\n" + c;
    assert a + "\n\n\n\n" + c == a + "\n\n" + rest;
    assert Split(a + "\n\n" + rest, Separator) == [a, [], c] by {
      PlainPiece(c);
      PlainHead([], c);
      PlainHead(a, rest);
    }
    EndTexts(a + "\n\n" + rest);
    NonBlankSkipsMiddle(a, c);
  }

  class ParagraphStrategy {
    var buffer: string
    var position: nat

    function Current(): State
      reads this
    {
      State(buffer, position)
    }

    constructor ()
      ensures Current() == Initial
    {
      buffer := "";
      position := 0;
    }

    method Reset()
      modifies this
      ensures Current() == Initial
    {
      buffer := "";
      position := 0;
    }

    method Process(data: string, isEnd: bool) returns (chunks: seq<Chunk>)
      modifies this
      ensures (chunks, Current()) == Step(old(Current()), data, isEnd)
    {
      ghost var s0 := Current();
      buffer := buffer + data;
      var parts := Split(buffer, Separator);
      if !isEnd {
        buffer := OrEmpty(Last(parts));
        parts := Init(parts);
      } else {
        buffer := "";
      }
      assert parts == Emitted(s0, data, isEnd);
      chunks := EmitTrimmedParts(parts, position, Name);
      position := position + |chunks|;
      // The end-of-stream flush of lines 52-64 cannot fire: the buffer was just emptied.
      assert !(isEnd && buffer != []);
      ghost var r := Step(s0, data, isEnd);
      assert r.0 == chunks;
      assert r.1 == State(buffer, position);
    }
  }
}
