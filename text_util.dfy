/**
 * The string primitives the chunkers are built from, modelled on characters
 * (seq<char>): mb_trim, explode, implode, preg_split('/\s+/'), mb_strpos,
 * mb_strrpos, the `?:` falsiness of PHP strings, and the replacement of
 * newline runs with preg_replace('/\n{3,}/', "\n\n", ...).
 */
module TextUtil {
  import opened Wrappers

  const VerticalTab: char := '\U{000B}'
  const FormFeed: char := '\U{000C}'

  /** The one whitespace class used for mb_trim and for PCRE `\s`. */
  predicate IsSpace(c: char) {
    c == ' ' || c == '\t' || c == '\n' || c == '\r' || c == VerticalTab || c == FormFeed
  }

  predicate AllSpace(s: string) {
    forall i | 0 <= i < |s| :: IsSpace(s[i])
  }

  predicate NoSpace(s: string) {
    forall i | 0 <= i < |s| :: !IsSpace(s[i])
  }

  /** A string mb_trim leaves unchanged. */
  predicate IsTrimmed(s: string) {
    s == [] || (!IsSpace(s[0]) && !IsSpace(s[|s| - 1]))
  }

  /** PHP truthiness of a string: '' and '0' are falsy. */
  predicate Truthy(s: string) {
    s != "" && s != "0"
  }

  /** `$s ?: ''` */
  function OrEmpty(s: string): (r: string)
    ensures r == s || (s == "0" && r == "")
  {
    if Truthy(s) then s else ""
  }

  /** mb_trim: strip whitespace from either end until neither end is whitespace. */
  function Trim(s: string): string
    decreases |s|
  {
    if s != [] && IsSpace(s[0]) then Trim(s[1..])
    else if s != [] && IsSpace(s[|s| - 1]) then Trim(s[..|s| - 1])
    else s
  }

  lemma TrimLength(s: string)
    ensures |Trim(s)| <= |s|
  {
    TrimShape(s);
  }

  /** The result of mb_trim has no whitespace at either end, and is empty only for blank input. */
  lemma {:induction false} TrimShape(s: string)
    ensures IsTrimmed(Trim(s))
    ensures |Trim(s)| <= |s|
    ensures Trim(s) == [] <==> AllSpace(s)
    decreases |s|
  {
    if s != [] && IsSpace(s[0]) {
      TrimShape(s[1..]);
      assert AllSpace(s[1..]) ==> AllSpace(s) by {
        if AllSpace(s[1..]) {
          forall i | 0 <= i < |s| ensures IsSpace(s[i]) {
            if i > 0 { assert s[i] == s[1..][i - 1]; }
          }
        }
      }
    } else if s != [] && IsSpace(s[|s| - 1]) {
      TrimShape(s[..|s| - 1]);
      assert AllSpace(s[..|s| - 1]) ==> AllSpace(s) by {
        if AllSpace(s[..|s| - 1]) {
          forall i | 0 <= i < |s| ensures IsSpace(s[i]) {
            if i < |s| - 1 { assert s[i] == s[..|s| - 1][i]; }
          }
        }
      }
    } else if s != [] {
      assert !IsSpace(s[0]);
    }
  }

  lemma TrimmedIsFixed(s: string)
    requires IsTrimmed(s)
    ensures Trim(s) == s
  {
  }

  lemma TrimIdempotent(s: string)
    ensures Trim(Trim(s)) == Trim(s)
  {
    TrimShape(s);
    TrimmedIsFixed(Trim(s));
  }

  // ---------------------------------------------------------------- explode / implode

  /** explode(sep, s): the pieces between non-overlapping occurrences of `sep`, left to right. */
  function Split(s: string, sep: string): (parts: seq<string>)
    requires sep != []
    ensures |parts| >= 1
    decreases |s|
  {
    if |s| < |sep| then [s]
    else if s[..|sep|] == sep then [[]] + Split(s[|sep|..], sep)
    else ConsHead(s[0], Split(s[1..], sep))
  }

  /** Put a character in front of the first of a non-empty list of pieces. */
  function ConsHead(a: char, ps: seq<string>): seq<string>
    requires |ps| >= 1
  {
    [[a] + ps[0]] + ps[1..]
  }

  /** implode(sep, parts) */
  function Join(parts: seq<string>, sep: string): string
  {
    if |parts| == 0 then []
    else if |parts| == 1 then parts[0]
    else parts[0] + sep + Join(parts[1..], sep)
  }

  /** implode('', parts) */
  function Concat(parts: seq<string>): string
  {
    if parts == [] then [] else parts[0] + Concat(parts[1..])
  }

  /** implode('') of two lists end to end is the two implodes end to end. */
  lemma {:induction false} ConcatAppend(a: seq<string>, b: seq<string>)
    ensures Concat(a + b) == Concat(a) + Concat(b)
    decreases |a|
  {
    if a == [] {
      assert a + b == b;
    } else {
      assert (a + b)[1..] == a[1..] + b;
      ConcatAppend(a[1..], b);
    }
  }

  function Last<T>(s: seq<T>): T
    requires |s| > 0
  {
    s[|s| - 1]
  }

  function Init<T>(s: seq<T>): seq<T>
    requires |s| > 0
  {
    s[..|s| - 1]
  }

  /** A non-empty sequence is its initial part followed by its last element. */
  lemma InitLast<T>(s: seq<T>)
    requires |s| > 0
    ensures |Init(s)| == |s| - 1 && Init(s) + [Last(s)] == s
    ensures forall i | 0 <= i < |Init(s)| :: Init(s)[i] == s[i]
  {
  }

  /** A string without the separator's first character is a single piece. */
  lemma {:induction false} SplitFreePiece(a: string, sep: string)
    requires sep != [] && sep[0] !in a
    ensures Split(a, sep) == [a]
    decreases |a|
  {
    if |a| >= |sep| {
      assert a[..|sep|][0] == a[0];
      assert a[1..] == a[1..] && forall k | 0 <= k < |a[1..]| :: a[1..][k] in a;
      SplitFreePiece(a[1..], sep);
      assert [a[0]] + a[1..] == a;
    }
  }

  /** Such a string followed by the separator is the first piece. */
  lemma {:induction false} SplitAfterFreePiece(a: string, b: string, sep: string)
    requires sep != [] && sep[0] !in a
    ensures Split(a + sep + b, sep) == [a] + Split(b, sep)
    decreases |a|
  {
    var s := a + sep + b;
    if a == [] {
      assert s == sep + b && s[..|sep|] == sep && s[|sep|..] == b;
    } else {
      assert s[..|sep|][0] == a[0];
      assert s[1..] == a[1..] + sep + b;
      assert forall k | 0 <= k < |a[1..]| :: a[1..][k] in a;
      SplitAfterFreePiece(a[1..], b, sep);
      assert [a[0]] + a[1..] == a;
    }
  }

  /** implode undoes explode: no character is lost or added. */
  lemma {:induction false} JoinSplit(s: string, sep: string)
    requires sep != []
    ensures Join(Split(s, sep), sep) == s
    decreases |s|
  {
    if |s| < |sep| {
    } else if s[..|sep|] == sep {
      var rest := s[|sep|..];
      assert Split(s, sep) == [[]] + Split(rest, sep);
      JoinSplit(rest, sep);
      JoinConsEmpty(Split(rest, sep), sep);
      assert s == sep + rest;
    } else {
      var rest := s[1..];
      assert Split(s, sep) == ConsHead(s[0], Split(rest, sep));
      JoinSplit(rest, sep);
      JoinConsHead(s[0], Split(rest, sep), sep);
      assert s == [s[0]] + rest;
    }
  }

  /** An empty first piece leaves just the separator in front of the join. */
  lemma JoinConsEmpty(ps: seq<string>, sep: string)
    requires |ps| >= 1
    ensures Join([[]] + ps, sep) == sep + Join(ps, sep)
  {
    assert ([[]] + ps)[1..] == ps;
  }

  /** Putting a character in front of the first piece puts it in front of the join. */
  lemma JoinConsHead(a: char, ps: seq<string>, sep: string)
    requires |ps| >= 1
    ensures Join(ConsHead(a, ps), sep) == [a] + Join(ps, sep)
  {
    var r := ConsHead(a, ps);
    if |ps| >= 2 {
      assert r[1..] == ps[1..];
      assert Join(r, sep) == r[0] + sep + Join(ps[1..], sep);
    }
  }

  lemma {:induction false} JoinAppend(parts: seq<string>, p: string, sep: string)
    requires |parts| > 0
    ensures Join(parts + [p], sep) == Join(parts, sep) + sep + p
    decreases |parts|
  {
    if |parts| == 1 {
      assert parts + [p] == [parts[0], p];
      assert [parts[0], p][1..] == [p];
    } else {
      assert (parts + [p])[1..] == parts[1..] + [p];
      JoinAppend(parts[1..], p, sep);
    }
  }

  /** No piece of a split on one character contains that character. */
  lemma {:induction false} SplitCharPieces(s: string, c: char)
    ensures forall p <- Split(s, [c]) :: c !in p
    decreases |s|
  {
    if |s| < 1 {
    } else if s[..1] == [c] {
      SplitCharPieces(s[1..], c);
    } else {
      SplitCharPieces(s[1..], c);
      var rest := Split(s[1..], [c]);
      assert s[0] != c by { assert s[..1] == [s[0]]; }
      assert c !in [s[0]] + rest[0];
    }
  }

  /**
   * Splitting on one character commutes with appending: the pieces of x + y
   * are the complete pieces of x followed by the pieces of x's last piece + y.
   * This is what lets a line splitter be fed in arbitrary blocks.
   */
  lemma {:induction false} SplitCharAppend(x: string, y: string, c: char)
    ensures Split(x + y, [c]) == Init(Split(x, [c])) + Split(Last(Split(x, [c])) + y, [c])
    decreases |x|, 1
  {
    if x == [] {
      assert x + y == y;
    } else if x[..1] == [c] {
      SplitCharAppendAtSeparator(x, y, c);
    } else {
      SplitCharAppendAtOther(x, y, c);
    }
  }

  /** SplitCharAppend when x starts with the separator. */
  lemma {:induction false} SplitCharAppendAtSeparator(x: string, y: string, c: char)
    requires x != [] && x[..1] == [c]
    ensures Split(x + y, [c]) == Init(Split(x, [c])) + Split(Last(Split(x, [c])) + y, [c])
    decreases |x|, 0
  {
    var sep := [c];
    var rx := Split(x[1..], sep);
    var t := Last(rx) + y;
    SplitCharAppend(x[1..], y, c);
    assert (x + y)[..1] == sep && (x + y)[1..] == x[1..] + y;
    assert Split(x + y, sep) == [[]] + (Init(rx) + Split(t, sep));
    assert Split(x, sep) == [[]] + rx;
    ConsEmptyInit(rx, Split(t, sep));
  }

  lemma ConsEmptyInit(ps: seq<string>, q: seq<string>)
    requires |ps| >= 1
    ensures [[]] + (Init(ps) + q) == Init([[]] + ps) + q
    ensures Last([[]] + ps) == Last(ps)
  {
    assert Init([[]] + ps) == [[]] + Init(ps);
  }

  /** SplitCharAppend when x starts with another character. */
  lemma {:induction false} SplitCharAppendAtOther(x: string, y: string, c: char)
    requires x != [] && x[..1] != [c]
    ensures Split(x + y, [c]) == Init(Split(x, [c])) + Split(Last(Split(x, [c])) + y, [c])
    decreases |x|, 0
  {
    var sep := [c];
    var rx := Split(x[1..], sep);
    var t := Last(rx) + y;
    SplitCharAppend(x[1..], y, c);
    assert (x + y)[..1] == x[..1] && (x + y)[1..] == x[1..] + y;
    assert Split(x + y, sep) == ConsHead(x[0], Init(rx) + Split(t, sep));
    assert Split(x, sep) == ConsHead(x[0], rx);
    if |rx| >= 2 {
      ConsHeadInit(x[0], rx, Split(t, sep));
    } else {
      var u := [x[0]] + t;
      assert u[..1] == x[..1] && u[1..] == t;
      assert Split(u, sep) == ConsHead(x[0], Split(t, sep));
      ConsHeadSingle(x[0], rx, y, Split(t, sep));
    }
  }

  lemma ConsHeadInit(a: char, ps: seq<string>, q: seq<string>)
    requires |ps| >= 2
    ensures ConsHead(a, Init(ps) + q) == Init(ConsHead(a, ps)) + q
    ensures Last(ConsHead(a, ps)) == Last(ps)
  {
    assert (Init(ps) + q)[1..] == ps[1..|ps| - 1] + q;
  }

  lemma ConsHeadSingle(a: char, ps: seq<string>, y: string, q: seq<string>)
    requires |ps| == 1
    ensures Init(ps) + q == q && Init(ConsHead(a, ps)) == []
    ensures Last(ConsHead(a, ps)) + y == [a] + (Last(ps) + y)
  {
    assert Init(ps) + q == q;
  }

  // ---------------------------------------------------------------- words

  /** Length of the leading run of non-whitespace characters. */
  function WordEnd(s: string): (k: nat)
    ensures k <= |s|
    ensures s != [] && !IsSpace(s[0]) ==> k >= 1
    decreases |s|
  {
    if s == [] || IsSpace(s[0]) then 0 else 1 + WordEnd(s[1..])
  }

  /** The run really is non-whitespace, and ends at whitespace or at the end. */
  lemma {:induction false} WordEndShape(s: string)
    ensures NoSpace(s[..WordEnd(s)]) && (WordEnd(s) < |s| ==> IsSpace(s[WordEnd(s)]))
    decreases |s|
  {
    if s != [] && !IsSpace(s[0]) {
      WordEndShape(s[1..]);
      var k := WordEnd(s);
      forall i | 0 <= i < k ensures !IsSpace(s[..k][i]) {
        if i > 0 {
          assert s[..k][i] == s[1..][..k - 1][i - 1];
        }
      }
    }
  }

  /** Length of the leading run of whitespace characters. */
  function SpaceEnd(s: string): (k: nat)
    ensures k <= |s| && (k < |s| ==> !IsSpace(s[k]))
    ensures s != [] && IsSpace(s[0]) ==> k >= 1
    decreases |s|
  {
    if s == [] || !IsSpace(s[0]) then 0 else 1 + SpaceEnd(s[1..])
  }

  /** preg_split('/\s+/', s, -1, PREG_SPLIT_NO_EMPTY): the maximal runs of non-whitespace. */
  function Words(s: string): seq<string>
    decreases |s|
  {
    if s == [] then []
    else if IsSpace(s[0]) then Words(s[1..])
    else
      var k := WordEnd(s);
      [s[..k]] + Words(s[k..])
  }

  predicate IsWord(w: string) {
    w != [] && NoSpace(w)
  }

  /** Every word is a non-empty run without whitespace. */
  lemma {:induction false} WordsAreWords(s: string)
    ensures forall w <- Words(s) :: IsWord(w)
    decreases |s|
  {
    if s != [] {
      if IsSpace(s[0]) {
        WordsAreWords(s[1..]);
      } else {
        WordEndShape(s);
        WordsAreWords(s[WordEnd(s)..]);
      }
    }
  }

  lemma {:induction false} WordEndPrefix(w: string, t: string)
    requires NoSpace(w)
    requires t == [] || IsSpace(t[0])
    ensures WordEnd(w + t) == |w|
    decreases |w|
  {
    if w == [] {
      assert w + t == t;
    } else {
      assert (w + t)[1..] == w[1..] + t;
      WordEndPrefix(w[1..], t);
    }
  }

  /** Words joined by single spaces split back into the same words. */
  lemma {:induction false} WordsOfJoin(ws: seq<string>)
    requires forall w <- ws :: IsWord(w)
    ensures Words(Join(ws, " ")) == ws
    decreases |ws|
  {
    if |ws| == 0 {
    } else if |ws| == 1 {
      var w := ws[0];
      assert w in ws && IsWord(w);
      WordEndPrefix(w, []);
      assert w + [] == w && w[..|w|] == w && w[|w|..] == [];
    } else {
      var w := ws[0];
      assert w in ws && IsWord(w);
      assert forall v <- ws[1..] :: v in ws;
      var rest := Join(ws[1..], " ");
      var s := w + " " + rest;
      assert Join(ws, " ") == s;
      WordEndPrefix(w, " " + rest);
      assert s == w + (" " + rest);
      assert s[..|w|] == w;
      assert s[|w|..] == " " + rest;
      assert (" " + rest)[1..] == rest;
      WordsOfJoin(ws[1..]);
    }
  }

  /** The first word of s starts where the leading whitespace ends. */
  lemma {:induction false} FirstWordAt(s: string)
    requires Words(s) != []
    ensures OccursAt(s, Words(s)[0], SpaceEnd(s))
    decreases |s|
  {
    if IsSpace(s[0]) {
      FirstWordAt(s[1..]);
      var w := Words(s[1..])[0];
      var j := SpaceEnd(s[1..]);
      assert s[1 + j..1 + j + |w|] == s[1..][j..j + |w|];
    }
  }

  /** Words joined by single spaces are trimmed. */
  lemma JoinOfWordsIsTrimmed(ws: seq<string>)
    requires forall w <- ws :: IsWord(w)
    ensures IsTrimmed(Join(ws, " "))
  {
    WordsOfJoin(ws);
    if ws != [] {
      assert ws[0] in ws && Last(ws) in ws;
      JoinLastPiece(ws, " ");
      var j := Join(ws, " ");
      assert j[0] == ws[0][0];
      assert j[|j| - 1] == Last(ws)[|Last(ws)| - 1];
    }
  }

  /** The join starts with the first piece and ends with the last. */
  lemma {:induction false} JoinLastPiece(ps: seq<string>, sep: string)
    requires ps != []
    ensures |Join(ps, sep)| >= |ps[0]| && Join(ps, sep)[..|ps[0]|] == ps[0]
    ensures |Join(ps, sep)| >= |Last(ps)| && Join(ps, sep)[|Join(ps, sep)| - |Last(ps)|..] == Last(ps)
    decreases |ps|
  {
    if |ps| > 1 {
      JoinLastPiece(ps[1..], sep);
      assert Last(ps[1..]) == Last(ps);
      var j := Join(ps[1..], sep);
      assert (ps[0] + sep + j)[|ps[0] + sep + j| - |Last(ps)|..] == j[|j| - |Last(ps)|..];
    }
  }

  /** Words joined by spaces are empty only when there are no words. */
  lemma JoinOfWordsEmpty(ws: seq<string>)
    requires forall w <- ws :: IsWord(w)
    ensures Join(ws, " ") == [] <==> ws == []
  {
    if ws != [] {
      assert ws[0] in ws;
      JoinLastPiece(ws, " ");
    }
  }

  /** A join of more than k pieces is the join of the first k, the separator, and the join of the rest. */
  lemma {:induction false} JoinSplitAt(ps: seq<string>, k: nat, sep: string)
    requires 0 < k < |ps|
    ensures Join(ps, sep) == Join(ps[..k], sep) + sep + Join(ps[k..], sep)
    decreases k
  {
    if k > 1 {
      JoinSplitAt(ps[1..], k - 1, sep);
      assert ps[1..][..k - 1] == ps[..k][1..];
      assert ps[1..][k - 1..] == ps[k..];
    } else {
      assert ps[..1] == [ps[0]];
    }
  }

  // ---------------------------------------------------------------- searching

  predicate OccursAt(s: string, w: string, j: nat) {
    j + |w| <= |s| && s[j..j + |w|] == w
  }

  function IndexOfFrom(s: string, w: string, i: nat): (r: Option<nat>)
    requires i <= |s|
    decreases |s| - i
  {
    if i + |w| > |s| then None
    else if s[i..i + |w|] == w then Some(i)
    else IndexOfFrom(s, w, i + 1)
  }

  /** The search from i finds the first occurrence at or after i. */
  lemma {:induction false} IndexOfFromSpec(s: string, w: string, i: nat)
    requires i <= |s|
    ensures var r := IndexOfFrom(s, w, i);
      && (r.Some? ==> i <= r.value && OccursAt(s, w, r.value))
      && (forall j: nat | i <= j && (r.None? || j < r.value) :: !OccursAt(s, w, j))
    decreases |s| - i
  {
    if i + |w| <= |s| && s[i..i + |w|] != w {
      IndexOfFromSpec(s, w, i + 1);
    }
  }

  /** w is a substring of s. */
  ghost predicate Contains(s: string, w: string) {
    exists j: nat :: OccursAt(s, w, j)
  }

  /** mb_strpos(s, w): the first occurrence of w in s. */
  function IndexOf(s: string, w: string): Option<nat> {
    IndexOfFrom(s, w, 0)
  }

  /** mb_strpos finds the first occurrence, and fails exactly when there is none. */
  lemma IndexOfSpec(s: string, w: string)
    ensures var r := IndexOf(s, w);
      && (r.Some? ==> OccursAt(s, w, r.value))
      && (forall j: nat | r.None? || j < r.value :: !OccursAt(s, w, j))
      && (r.None? <==> !Contains(s, w))
  {
    IndexOfFromSpec(s, w, 0);
  }

  /** The first piece of a split is a prefix of the input. */
  lemma {:induction false} SplitFirstIsPrefix(s: string, sep: string)
    requires sep != []
    ensures |Split(s, sep)[0]| <= |s| && s[..|Split(s, sep)[0]|] == Split(s, sep)[0]
    decreases |s|
  {
    if |s| < |sep| {
    } else if s[..|sep|] == sep {
    } else {
      SplitFirstIsPrefix(s[1..], sep);
      var p := Split(s[1..], sep)[0];
      assert s[..1 + |p|] == [s[0]] + s[1..][..|p|];
    }
  }

  /** No piece of explode(sep, s) contains sep. */
  lemma {:induction false} SplitPiecesAvoidSeparator(s: string, sep: string)
    requires sep != []
    ensures forall p <- Split(s, sep) :: !Contains(p, sep)
    decreases |s|
  {
    if |s| < |sep| {
      forall j: nat ensures !OccursAt(s, sep, j) { }
    } else if s[..|sep|] == sep {
      SplitPiecesAvoidSeparator(s[|sep|..], sep);
      forall j: nat ensures !OccursAt([], sep, j) { }
    } else {
      var rest := Split(s[1..], sep);
      SplitPiecesAvoidSeparator(s[1..], sep);
      SplitFirstIsPrefix(s, sep);
      var p := [s[0]] + rest[0];
      assert p == Split(s, sep)[0];
      assert rest[0] in rest;
      forall j: nat ensures !OccursAt(p, sep, j) {
        if j > 0 && j + |sep| <= |p| {
          var a, b := p[j..j + |sep|], rest[0][j - 1..j - 1 + |sep|];
          forall i | 0 <= i < |sep| ensures a[i] == b[i] {
            assert a[i] == p[j + i] && b[i] == rest[0][j - 1 + i];
          }
          assert a == b;
          assert !OccursAt(rest[0], sep, j - 1);
        }
      }
      assert forall q <- rest[1..] :: q in rest;
    }
  }

  /** A contiguous piece of a string avoids whatever the string avoids. */
  lemma InfixAvoids(s: string, k: nat, n: nat, w: string)
    requires k + n <= |s|
    requires !Contains(s, w)
    ensures !Contains(s[k..k + n], w)
  {
    var t := s[k..k + n];
    forall j: nat ensures !OccursAt(t, w, j) {
      if j + |w| <= |t| {
        var a, b := s[k + j..k + j + |w|], t[j..j + |w|];
        forall i | 0 <= i < |w| ensures a[i] == b[i] {
          assert a[i] == s[k + j + i] && b[i] == t[j + i];
        }
        assert a == b;
        assert !OccursAt(s, w, k + j);
      }
    }
  }

  lemma {:induction false} TrimAvoids(s: string, w: string)
    requires !Contains(s, w)
    ensures !Contains(Trim(s), w)
    decreases |s|
  {
    if s != [] && IsSpace(s[0]) {
      InfixAvoids(s, 1, |s| - 1, w);
      assert s[1..|s|] == s[1..];
      TrimAvoids(s[1..], w);
    } else if s != [] && IsSpace(s[|s| - 1]) {
      InfixAvoids(s, 0, |s| - 1, w);
      assert s[0..|s| - 1] == s[..|s| - 1];
      TrimAvoids(s[..|s| - 1], w);
    }
  }

  /** mb_substr(s, n): the text from index n on, '' past the end. */
  function Drop(s: string, n: nat): string {
    if n >= |s| then [] else s[n..]
  }

  /** mb_strrpos(s, c) for a one-character needle: the last occurrence. */
  function LastIndexOfChar(s: string, c: char): (r: Option<nat>)
    ensures r.Some? ==> r.value < |s| && s[r.value] == c && c !in s[r.value + 1..]
    ensures r.None? <==> c !in s
    decreases |s|
  {
    if s == [] then None
    else if s[|s| - 1] == c then Some(|s| - 1)
    else
      assert s == s[..|s| - 1] + [s[|s| - 1]];
      LastIndexOfChar(s[..|s| - 1], c)
  }

  // ---------------------------------------------------------------- newline runs

  /** Length of the leading run of '\n'. */
  function NewlineRun(s: string): (k: nat)
    ensures k <= |s| && (forall i | 0 <= i < k :: s[i] == '\n') && (k < |s| ==> s[k] != '\n')
    ensures s != [] && s[0] == '\n' ==> k >= 1
    decreases |s|
  {
    if s == [] || s[0] != '\n' then 0 else 1 + NewlineRun(s[1..])
  }

  /** True when s never has three newlines in a row. */
  predicate NoTripleNewline(s: string) {
    forall i | 0 <= i && i + 2 < |s| :: !(s[i] == '\n' && s[i + 1] == '\n' && s[i + 2] == '\n')
  }

  /** preg_replace('/\n{3,}/', "\n\n", s) */
  function CollapseNewlines(s: string): (r: string)
    ensures s == [] <==> r == []
    ensures s != [] ==> (r[0] == '\n' <==> s[0] == '\n')
    decreases |s|
  {
    if s == [] then []
    else if s[0] != '\n' then [s[0]] + CollapseNewlines(s[1..])
    else
      var k := NewlineRun(s);
      (if k >= 3 then "\n\n" else s[..k]) + CollapseNewlines(s[k..])
  }

  /** After the replacement no run of three or more newlines is left. */
  lemma {:induction false} CollapseNewlinesNoTriple(s: string)
    ensures NoTripleNewline(CollapseNewlines(s))
    decreases |s|
  {
    if s == [] {
    } else if s[0] != '\n' {
      CollapseNewlinesNoTriple(s[1..]);
      var r := [s[0]] + CollapseNewlines(s[1..]);
      forall i | 0 <= i && i + 2 < |r|
        ensures !(r[i] == '\n' && r[i + 1] == '\n' && r[i + 2] == '\n')
      {
        if i > 0 {
          assert r[i] == CollapseNewlines(s[1..])[i - 1];
          assert r[i + 1] == CollapseNewlines(s[1..])[i];
          assert r[i + 2] == CollapseNewlines(s[1..])[i + 1];
        }
      }
    } else {
      var k := NewlineRun(s);
      var a: string := if k >= 3 then "\n\n" else s[..k];
      var b := CollapseNewlines(s[k..]);
      CollapseNewlinesNoTriple(s[k..]);
      assert |a| <= 2;
      assert b != [] ==> b[0] != '\n';
      var r := a + b;
      forall i | 0 <= i && i + 2 < |r|
        ensures !(r[i] == '\n' && r[i + 1] == '\n' && r[i + 2] == '\n')
      {
        if i >= |a| {
          assert r[i] == b[i - |a|] && r[i + 1] == b[i - |a| + 1] && r[i + 2] == b[i - |a| + 2];
        } else if i + 1 == |a| {
          assert r[i + 1] == b[0];
        } else {
          assert r[i + 2] == b[0];
        }
      }
    }
  }
}
