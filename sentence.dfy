/**
 * SentenceChunkingStrategy: sentences end at '.', '!' or '?' followed by
 * whitespace; the last sentence is held back only when there are several.
 */
module Sentence {
  import opened Wrappers
  import opened TextUtil
  import opened Chunks

  const Name: string := "sentence"

  predicate IsTerminator(c: char) {
    c == '.' || c == '!' || c == '?'
  }

  /** A non-empty text whose last character is a terminator. */
  predicate EndsSentence(s: string) {
    s != [] && IsTerminator(s[|s| - 1])
  }

  /** The lookbehind `(?<=[.!?])\s`: a terminator at j - 1 and whitespace at j. */
  predicate BreakAt(s: string, j: nat) {
    1 <= j < |s| && IsTerminator(s[j - 1]) && IsSpace(s[j])
  }

  /** No sentence boundary inside s. */
  predicate NoBreak(s: string) {
    forall j: nat | j < |s| :: !BreakAt(s, j)
  }

  /** The first boundary at or after i. */
  function FirstBreak(s: string, i: nat): (r: Option<nat>)
    requires i <= |s|
    ensures r.Some? ==> i <= r.value < |s| && BreakAt(s, r.value)
    ensures forall j: nat | i <= j < |s| && (r.None? || j < r.value) :: !BreakAt(s, j)
    decreases |s| - i
  {
    if i == |s| then None
    else if BreakAt(s, i) then Some(i)
    else FirstBreak(s, i + 1)
  }

  /**
   * preg_split('/(?<=[.!?])\s+/', s, -1, PREG_SPLIT_NO_EMPTY): each match is
   * the whole whitespace run after a terminator; the empty pieces are dropped.
   */
  function Sentences(s: string): seq<string>
    decreases |s|
  {
    if s == [] then [] else
    match FirstBreak(s, 0)
    case None => [s]
    case Some(i) =>
      var e := i + SpaceEnd(s[i..]);
      [s[..i]] + Sentences(s[e..])
  }

  /**
   * The pieces are non-empty, none contains a boundary, and each but the
   * last ends with a terminator.
   */
  lemma {:induction false} SentencesShape(s: string)
    ensures forall p <- Sentences(s) :: p != [] && NoBreak(p)
    ensures forall k | 0 <= k < |Sentences(s)| - 1 :: EndsSentence(Sentences(s)[k])
    decreases |s|
  {
    if s != [] {
      match FirstBreak(s, 0)
      case None =>
        assert NoBreak(s);
      case Some(i) =>
        var e := i + SpaceEnd(s[i..]);
        var rest := Sentences(s[e..]);
        SentencesShape(s[e..]);
        FirstSentenceShape(s, i);
        ConsShape(s[..i], rest);
    }
  }

  /** The text before the first boundary has none and ends with its terminator. */
  lemma FirstSentenceShape(s: string, i: nat)
    requires FirstBreak(s, 0) == Some(i)
    ensures s[..i] != [] && NoBreak(s[..i]) && EndsSentence(s[..i])
  {
    var p := s[..i];
    forall j: nat | j < |p| ensures !BreakAt(p, j) {
      if BreakAt(p, j) {
        assert BreakAt(s, j);
      }
    }
  }

  lemma ConsShape(p: string, rest: seq<string>)
    requires p != [] && NoBreak(p) && EndsSentence(p)
    requires forall q <- rest :: q != [] && NoBreak(q)
    requires forall k | 0 <= k < |rest| - 1 :: EndsSentence(rest[k])
    ensures var ps := [p] + rest;
      && (forall q <- ps :: q != [] && NoBreak(q))
      && (forall k | 0 <= k < |ps| - 1 :: EndsSentence(ps[k]))
  {
    var ps := [p] + rest;
    forall k | 0 <= k < |ps| - 1 ensures EndsSentence(ps[k]) {
      if k > 0 {
        assert ps[k] == rest[k - 1];
      }
    }
  }

  /** Whitespace alone is no sentence at all. */
  lemma BlankHasNoSentence(s: string)
    requires s != [] && AllSpace(s)
    ensures Sentences(s) == [s]
  {
    forall j: nat | j < |s| ensures !BreakAt(s, j) {
      if 1 <= j {
        assert IsSpace(s[j - 1]);
      }
    }
  }

  datatype State = State(buffer: string, position: nat)

  const Initial: State := State("", 0)

  function Parts(s: State, data: string): seq<string> {
    Sentences(s.buffer + data)
  }

  /** The last part is held back only when the stream goes on and there are several parts. */
  predicate HoldsBack(s: State, data: string, isEnd: bool) {
    !isEnd && |Parts(s, data)| > 1
  }

  function Emitted(s: State, data: string, isEnd: bool): seq<string> {
    var ps := Parts(s, data);
    if HoldsBack(s, data, isEnd) then Init(ps) else ps
  }

  /** process(data, isEnd): the chunks it yields and the state it leaves. */
  function Step(s: State, data: string, isEnd: bool): (seq<Chunk>, State) {
    var cs := TrimmedChunks(Emitted(s, data, isEnd), s.position, Name);
    var ps := Parts(s, data);
    (cs, State(if HoldsBack(s, data, isEnd) then OrEmpty(Last(ps)) else [], s.position + |cs|))
  }

  /**
   * Every text is trimmed and non-empty, positions continue from the old
   * position, and each chunk carries the strategy name and its length.
   */
  lemma EmitsTrimmedSentences(s: State, data: string, isEnd: bool)
    ensures var (cs, t) := Step(s, data, isEnd);
      && Texts(cs) == NonBlank(Emitted(s, data, isEnd))
      && (forall c <- cs :: c.text != [] && IsTrimmed(c.text) && c.metadata == LengthMeta(Name, c.text))
      && Consecutive(cs, s.position)
      && t.position == s.position + |cs|
  {
    TrimmedChunksShape(Emitted(s, data, isEnd), s.position, Name);
  }

  /** A whole stream fed in one call starts numbering at 0 after reset. */
  lemma StartsAtZero(data: string, isEnd: bool)
    ensures Consecutive(Step(Initial, data, isEnd).0, 0)
  {
    TrimmedChunksShape(Emitted(Initial, data, isEnd), 0, Name);
  }

  /**
   * Lines 31-35: with several parts and more to come the last part is kept
   * (a part of exactly "0" becomes ''), otherwise the buffer is cleared and
   * every part is emitted at once, even a single unfinished sentence.
   */
  lemma HoldsBackLastOfSeveral(s: State, data: string, isEnd: bool)
    ensures var ps := Parts(s, data); var t := Step(s, data, isEnd).1;
      && (!isEnd && |ps| > 1 ==>
            && Emitted(s, data, isEnd) == Init(ps)
            && OrEmpty(Last(ps)) == t.buffer
            && (t.buffer == [] <==> Last(ps) == "0"))
      && (isEnd || |ps| <= 1 ==> Emitted(s, data, isEnd) == ps && t.buffer == [])
  {
    var ps := Parts(s, data);
    SentencesShape(s.buffer + data);
    if |ps| > 1 {
      assert Last(ps) in ps;
      assert Last(ps) != [];
    }
  }

  /**
   * Lines 56-68 never fire: after a final call the buffer is empty. Each
   * held-back sentence is free of boundaries.
   */
  lemma FinalCallEmptiesBuffer(s: State, data: string, isEnd: bool)
    ensures isEnd ==> Step(s, data, isEnd).1.buffer == []
    ensures NoBreak(Step(s, data, isEnd).1.buffer)
  {
    var ps := Parts(s, data);
    SentencesShape(s.buffer + data);
    if HoldsBack(s, data, isEnd) {
      assert Last(ps) in ps;
    }
  }

  class SentenceStrategy {
    var buffer: string
    var position: nat

    function Current(): State
      reads this
    {
      State(buffer, position)
    }

    constructor ()
      ensures Current() == Initial
    {
      buffer := "";
      position := 0;
    }

    method Reset()
      modifies this
      ensures Current() == Initial
    {
      buffer := "";
      position := 0;
    }

    method Process(data: string, isEnd: bool) returns (chunks: seq<Chunk>)
      modifies this
      ensures (chunks, Current()) == Step(old(Current()), data, isEnd)
    {
      ghost var s0 := Current();
      buffer := buffer + data;
      var parts := Sentences(buffer);
      if !isEnd && |parts| > 1 {
        buffer := OrEmpty(Last(parts));
        parts := Init(parts);
      } else {
        buffer := "";
      }
      assert parts == Emitted(s0, data, isEnd);
      chunks := EmitTrimmedParts(parts, position, Name);
      position := position + |chunks|;
      // The flush of lines 56-68 cannot fire: a final call has just emptied the buffer.
      assert !(isEnd && buffer != []);
      ghost var r := Step(s0, data, isEnd);
      assert r.0 == chunks;
      assert r.1 == State(buffer, position);
    }
  }
}
