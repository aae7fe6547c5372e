/**
 * TextNormalizationPostProcessor: each chunk's text is cleaned in four optional
 * stages (strip control characters, trim every line, collapse newline runs
 * and space/tab runs) and then trimmed; position and metadata are kept.
 */
module Normalization {
  import opened TextUtil
  import opened Chunks

  datatype Config = Config(collapseWhitespace: bool, trimLines: bool, stripControlChars: bool)

  /** The constructor's defaults: every stage on. */
  const Default := Config(true, true, true)

  // ---------------------------------------------------------------- control characters

  /** The class [\x00-\x08\x0B\x0C\x0E-\x1F\x7F]: C0 controls except \t, \n, \r, and DEL. */
  predicate IsControl(c: char) {
    (c as int <= 0x08) || c as int == 0x0B || c as int == 0x0C || (0x0E <= c as int <= 0x1F) || c as int == 0x7F
  }

  predicate NoControl(s: string) {
    forall i | 0 <= i < |s| :: !IsControl(s[i])
  }

  /** preg_replace of that class by '' */
  function StripControl(s: string): string
    decreases |s|
  {
    if s == [] then [] else (if IsControl(s[0]) then [] else [s[0]]) + StripControl(s[1..])
  }

  // ---------------------------------------------------------------- per-line trim

  function TrimEach(lines: seq<string>): (r: seq<string>)
    ensures |r| == |lines| && forall i | 0 <= i < |lines| :: r[i] == Trim(lines[i])
  {
    seq(|lines|, i requires 0 <= i < |lines| => Trim(lines[i]))
  }

  /** implode("\n", array_map(mb_trim(...), explode("\n", s))) */
  function TrimLines(s: string): string {
    Join(TrimEach(Split(s, "\n")), "\n")
  }

  // ---------------------------------------------------------------- space and tab runs

  predicate IsBlank(c: char) {
    c == ' ' || c == '\t'
  }

  /** Length of the leading run of spaces and tabs. */
  function BlankRun(s: string): (k: nat)
    ensures 0 < k <= |s| || (k == 0 && (s == [] || !IsBlank(s[0])))
    ensures forall i | 0 <= i < k :: IsBlank(s[i])
    ensures k < |s| ==> !IsBlank(s[k])
    decreases |s|
  {
    if s == [] || !IsBlank(s[0]) then 0 else 1 + BlankRun(s[1..])
  }

  /** preg_replace('/[ \t]+/', ' ', s) */
  function CollapseBlanks(s: string): string
    decreases |s|
  {
    if s == [] then []
    else if IsBlank(s[0]) then " " + CollapseBlanks(s[BlankRun(s)..])
    else [s[0]] + CollapseBlanks(s[1..])
  }

  /** No two spaces or tabs in a row. */
  predicate NoBlankRun(s: string) {
    forall i | 0 <= i < |s| - 1 :: !(IsBlank(s[i]) && IsBlank(s[i + 1]))
  }

  // ---------------------------------------------------------------- normalize

  function Normalize(cfg: Config, text: string): string {
    var a := if cfg.stripControlChars then StripControl(text) else text;
    var b := if cfg.trimLines then TrimLines(a) else a;
    var c := if cfg.collapseWhitespace then CollapseBlanks(CollapseNewlines(b)) else b;
    Trim(c)
  }

  /** process: one chunk per chunk, the text normalized, position and metadata kept. */
  function Apply(cfg: Config, cs: seq<Chunk>): seq<Chunk> {
    seq(|cs|, i requires 0 <= i < |cs| => Chunk(Normalize(cfg, cs[i].text), cs[i].position, cs[i].metadata))
  }

  // ---------------------------------------------------------------- stage lemmas

  /** The strip removes exactly the control characters: none is left, ... */
  lemma {:induction false} StripControlClean(s: string)
    ensures NoControl(StripControl(s))
    decreases |s|
  {
    if s != [] {
      StripControlClean(s[1..]);
      var h: string := if IsControl(s[0]) then [] else [s[0]];
      var r := h + StripControl(s[1..]);
      forall i | 0 <= i < |r| ensures !IsControl(r[i]) {
        if i >= |h| { assert r[i] == StripControl(s[1..])[i - |h|]; }
      }
    }
  }

  /** ... every other character stays, in order, ... */
  lemma {:induction false} StripControlAppend(x: string, y: string)
    ensures StripControl(x + y) == StripControl(x) + StripControl(y)
    decreases |x|
  {
    if x == [] {
      assert x + y == y;
    } else {
      assert (x + y)[0] == x[0] && (x + y)[1..] == x[1..] + y;
      StripControlAppend(x[1..], y);
    }
  }

  /** ... so a text without control characters is left as it is. */
  lemma {:induction false} StripControlKeeps(s: string)
    requires NoControl(s)
    ensures StripControl(s) == s
    decreases |s|
  {
    if s != [] {
      assert !IsControl(s[0]);
      StripControlKeeps(s[1..]);
      assert [s[0]] + s[1..] == s;
    }
  }

  /** \t, \n and \r are not in the class. */
  lemma KeptWhitespace()
    ensures !IsControl('\t') && !IsControl('\n') && !IsControl('\r')
  {
  }

  /** explode undone by implode: pieces free of the separator come back. */
  lemma {:induction false} SplitJoin(ps: seq<string>, c: char)
    requires |ps| >= 1 && forall p <- ps :: c !in p
    ensures Split(Join(ps, [c]), [c]) == ps
    decreases |ps|
  {
    if |ps| == 1 {
      SplitFreePiece(ps[0], [c]);
    } else {
      assert forall p <- ps[1..] :: p in ps;
      SplitJoin(ps[1..], c);
      assert ps[0] in ps;
      SplitAfterFreePiece(ps[0], Join(ps[1..], [c]), [c]);
      assert [ps[0]] + ps[1..] == ps;
    }
  }

  lemma {:induction false} TrimSub(s: string)
    ensures forall i | 0 <= i < |Trim(s)| :: Trim(s)[i] in s
    decreases |s|
  {
    if s != [] && IsSpace(s[0]) {
      TrimSub(s[1..]);
      assert forall c <- s[1..] :: c in s;
    } else if s != [] && IsSpace(s[|s| - 1]) {
      TrimSub(s[..|s| - 1]);
      assert forall c <- s[..|s| - 1] :: c in s;
    }
  }

  /** With trimLines, the lines of the result are the input's lines, each trimmed. */
  lemma TrimLinesSpec(s: string)
    ensures Split(TrimLines(s), "\n") == TrimEach(Split(s, "\n"))
    ensures forall l <- Split(TrimLines(s), "\n") :: IsTrimmed(l)
  {
    var ps := Split(s, "\n");
    SplitCharPieces(s, '\n');
    var ts := TrimEach(ps);
    forall t <- ts ensures '\n' !in t && IsTrimmed(t) {
      var i :| 0 <= i < |ts| && ts[i] == t;
      assert ps[i] in ps;
      TrimSub(ps[i]);
      TrimShape(ps[i]);
    }
    SplitJoin(ts, '\n');
  }

  /** mb_trim returns a contiguous piece of its argument. */
  lemma {:induction false} TrimInfix(s: string) returns (i: nat, j: nat)
    ensures i <= j <= |s| && Trim(s) == s[i..j]
    decreases |s|
  {
    if s != [] && IsSpace(s[0]) {
      var a, b := TrimInfix(s[1..]);
      i, j := a + 1, b + 1;
      assert s[1..][a..b] == s[i..j];
    } else if s != [] && IsSpace(s[|s| - 1]) {
      i, j := TrimInfix(s[..|s| - 1]);
      assert s[..|s| - 1][i..j] == s[i..j];
    } else {
      i, j := 0, |s|;
      assert s[0..|s|] == s;
    }
  }

  /** The final trim keeps the run properties the collapse established. */
  lemma TrimKeeps(s: string)
    ensures NoTripleNewline(s) ==> NoTripleNewline(Trim(s))
    ensures NoBlankRun(s) ==> NoBlankRun(Trim(s))
    ensures NoControl(s) ==> NoControl(Trim(s))
  {
    var i, j := TrimInfix(s);
    var t := s[i..j];
    assert forall k | 0 <= k < |t| :: t[k] == s[i + k];
  }

  /** Collapsing space/tab runs leaves no such run of two or more. */
  lemma {:induction false} CollapseBlanksNoRun(s: string)
    ensures NoBlankRun(CollapseBlanks(s))
    ensures s != [] ==> CollapseBlanks(s) != [] && (IsBlank(CollapseBlanks(s)[0]) <==> IsBlank(s[0]))
    ensures s != [] ==> (CollapseBlanks(s)[0] == '\n' <==> s[0] == '\n')
    decreases |s|
  {
    if s != [] {
      var k := if IsBlank(s[0]) then BlankRun(s) else 1;
      var t := s[k..];
      CollapseBlanksNoRun(t);
      var h: string := if IsBlank(s[0]) then " " else [s[0]];
      var r := h + CollapseBlanks(t);
      assert CollapseBlanks(s) == r;
      assert IsBlank(s[0]) ==> t == [] || !IsBlank(t[0]);
      forall i | 0 <= i < |r| - 1 ensures !(IsBlank(r[i]) && IsBlank(r[i + 1])) {
        if i >= 1 {
          assert r[i] == CollapseBlanks(t)[i - 1] && r[i + 1] == CollapseBlanks(t)[i];
        } else if IsBlank(s[0]) {
          assert r[1] == CollapseBlanks(t)[0];
        }
      }
    }
  }

  lemma NoTripleSuffix(s: string, k: nat)
    requires k <= |s| && NoTripleNewline(s)
    ensures NoTripleNewline(s[k..])
  {
    var t := s[k..];
    forall i | 0 <= i && i + 2 < |t| ensures !(t[i] == '\n' && t[i + 1] == '\n' && t[i + 2] == '\n') {
      assert t[i] == s[k + i] && t[i + 1] == s[k + i + 1] && t[i + 2] == s[k + i + 2];
    }
  }

  /** Collapsing space/tab runs does not create a run of three newlines. */
  lemma {:induction false} CollapseBlanksKeepsNewlines(s: string)
    requires NoTripleNewline(s)
    ensures NoTripleNewline(CollapseBlanks(s))
    decreases |s|
  {
    if s != [] {
      var k := if IsBlank(s[0]) then BlankRun(s) else 1;
      var t := s[k..];
      NoTripleSuffix(s, k);
      CollapseBlanksKeepsNewlines(t);
      var h: string := if IsBlank(s[0]) then " " else [s[0]];
      var u := CollapseBlanks(t);
      var r := h + u;
      assert CollapseBlanks(s) == r;
      forall i | 0 <= i && i + 2 < |r| ensures !(r[i] == '\n' && r[i + 1] == '\n' && r[i + 2] == '\n') {
        if i >= 1 {
          assert r[i] == u[i - 1] && r[i + 1] == u[i] && r[i + 2] == u[i + 1];
        } else if s[0] == '\n' {
          assert r[1] == u[0] && r[2] == u[1];
          CollapseBlanksTwoNewlines(t);
          if |t| >= 2 {
            assert t[0] == s[1] && t[1] == s[2];
          }
        }
      }
    }
  }

  /** Two newlines at the front of the collapse come from two newlines at the front of the text. */
  lemma CollapseBlanksTwoNewlines(t: string)
    ensures var u := CollapseBlanks(t);
      |u| >= 2 && u[0] == '\n' && u[1] == '\n' ==> |t| >= 2 && t[0] == '\n' && t[1] == '\n'
  {
    var u := CollapseBlanks(t);
    CollapseBlanksNoRun(t);
    if |u| >= 2 && u[0] == '\n' && u[1] == '\n' {
      var t2 := t[1..];
      assert u == "\n" + CollapseBlanks(t2);
      CollapseBlanksNoRun(t2);
      assert CollapseBlanks(t2)[0] == '\n';
    }
  }

  /** The control-free characters of a text, in a slice of it. */
  lemma NoControlSlice(s: string, i: nat, j: nat)
    requires NoControl(s) && i <= j <= |s|
    ensures NoControl(s[i..j])
  {
    forall k | 0 <= k < j - i ensures !IsControl(s[i..j][k]) {
      assert s[i..j][k] == s[i + k];
    }
  }

  lemma NoControlAppend(a: string, b: string)
    requires NoControl(a) && NoControl(b)
    ensures NoControl(a + b)
  {
    forall k | 0 <= k < |a + b| ensures !IsControl((a + b)[k]) {
      if k < |a| {
        assert (a + b)[k] == a[k];
      } else {
        assert (a + b)[k] == b[k - |a|];
      }
    }
  }

  lemma {:induction false} CollapseNewlinesNoControl(s: string)
    requires NoControl(s)
    ensures NoControl(CollapseNewlines(s))
    decreases |s|
  {
    if s != [] {
      var k := if s[0] != '\n' then 1 else NewlineRun(s);
      var t := s[k..];
      var h: string;
      if s[0] != '\n' {
        h := [s[0]];
        assert h == s[0..1];
        NoControlSlice(s, 0, 1);
      } else if k >= 3 {
        h := "\n\n";
        assert h[0] == '\n' && h[1] == '\n';
      } else {
        h := s[..k];
        assert h == s[0..k];
        NoControlSlice(s, 0, k);
      }
      assert CollapseNewlines(s) == h + CollapseNewlines(t);
      assert t == s[k..|s|];
      NoControlSlice(s, k, |s|);
      CollapseNewlinesNoControl(t);
      NoControlAppend(h, CollapseNewlines(t));
    }
  }

  lemma {:induction false} CollapseBlanksNoControl(s: string)
    requires NoControl(s)
    ensures NoControl(CollapseBlanks(s))
    decreases |s|
  {
    if s != [] {
      var k := if IsBlank(s[0]) then BlankRun(s) else 1;
      var h: string := if IsBlank(s[0]) then " " else [s[0]];
      var t := s[k..];
      assert CollapseBlanks(s) == h + CollapseBlanks(t);
      assert t == s[k..|s|];
      NoControlSlice(s, k, |s|);
      CollapseBlanksNoControl(t);
      if !IsBlank(s[0]) {
        assert h == s[0..1];
        NoControlSlice(s, 0, 1);
      }
      NoControlAppend(h, CollapseBlanks(t));
    }
  }

  lemma {:induction false} SplitNoControl(s: string, sep: string)
    requires sep != [] && NoControl(s)
    ensures forall p <- Split(s, sep) :: NoControl(p)
    decreases |s|
  {
    if |s| >= |sep| {
      if s[..|sep|] == sep {
        assert forall i | 0 <= i < |s[|sep|..]| :: s[|sep|..][i] == s[|sep| + i];
        SplitNoControl(s[|sep|..], sep);
      } else {
        assert forall i | 0 <= i < |s[1..]| :: s[1..][i] == s[1 + i];
        SplitNoControl(s[1..], sep);
        var rest := Split(s[1..], sep);
        assert rest[0] in rest;
        var p := [s[0]] + rest[0];
        assert forall i | 1 <= i < |p| :: p[i] == rest[0][i - 1];
        assert forall q <- rest[1..] :: q in rest;
      }
    }
  }

  lemma {:induction false} JoinNoControl(ps: seq<string>, sep: string)
    requires NoControl(sep) && forall p <- ps :: NoControl(p)
    ensures NoControl(Join(ps, sep))
    decreases |ps|
  {
    if |ps| > 1 {
      assert forall p <- ps[1..] :: p in ps;
      JoinNoControl(ps[1..], sep);
      assert ps[0] in ps;
      var r := ps[0] + sep + Join(ps[1..], sep);
      forall i | 0 <= i < |r| ensures !IsControl(r[i]) {
        if i < |ps[0]| {
          assert r[i] == ps[0][i];
        } else if i < |ps[0]| + |sep| {
          assert r[i] == sep[i - |ps[0]|];
        } else {
          assert r[i] == Join(ps[1..], sep)[i - |ps[0]| - |sep|];
        }
      }
    } else if |ps| == 1 {
      assert ps[0] in ps;
    }
  }

  lemma TrimLinesNoControl(s: string)
    requires NoControl(s)
    ensures NoControl(TrimLines(s))
  {
    var ps := Split(s, "\n");
    SplitNoControl(s, "\n");
    var ts := TrimEach(ps);
    forall t <- ts ensures NoControl(t) {
      var i :| 0 <= i < |ts| && ts[i] == t;
      assert ps[i] in ps;
      TrimKeeps(ps[i]);
    }
    JoinNoControl(ts, "\n");
  }

  // ---------------------------------------------------------------- normalize

  /**
   * The result is always trimmed; with stripControlChars it holds no control
   * character; with collapseWhitespace it has no run of three newlines and no
   * run of two spaces or tabs.
   */
  lemma NormalizeSpec(cfg: Config, text: string)
    ensures IsTrimmed(Normalize(cfg, text))
    ensures cfg.stripControlChars ==> NoControl(Normalize(cfg, text))
    ensures cfg.collapseWhitespace ==> NoTripleNewline(Normalize(cfg, text)) && NoBlankRun(Normalize(cfg, text))
  {
    var a := if cfg.stripControlChars then StripControl(text) else text;
    var b := if cfg.trimLines then TrimLines(a) else a;
    var c := if cfg.collapseWhitespace then CollapseBlanks(CollapseNewlines(b)) else b;
    TrimShape(c);
    TrimKeeps(c);
    if cfg.stripControlChars {
      StripControlClean(text);
      if cfg.trimLines { TrimLinesNoControl(a); }
      if cfg.collapseWhitespace {
        CollapseNewlinesNoControl(b);
        CollapseBlanksNoControl(CollapseNewlines(b));
      }
    }
    if cfg.collapseWhitespace {
      CollapseNewlinesNoTriple(b);
      CollapseBlanksKeepsNewlines(CollapseNewlines(b));
      CollapseBlanksNoRun(CollapseNewlines(b));
    }
  }

  /** One chunk out per chunk in, each with its position and metadata. */
  lemma ApplySpec(cfg: Config, cs: seq<Chunk>)
    ensures |Apply(cfg, cs)| == |cs|
    ensures forall i | 0 <= i < |cs| ::
      && Apply(cfg, cs)[i].position == cs[i].position
      && Apply(cfg, cs)[i].metadata == cs[i].metadata
      && IsTrimmed(Apply(cfg, cs)[i].text)
  {
    forall i | 0 <= i < |cs| ensures IsTrimmed(Apply(cfg, cs)[i].text) {
      NormalizeSpec(cfg, cs[i].text);
    }
  }

  lemma {:induction false} CollapseNewlinesFree(s: string)
    requires '\n' !in s
    ensures CollapseNewlines(s) == s
    decreases |s|
  {
    if s != [] {
      assert s[0] in s;
      assert forall c <- s[1..] :: c in s;
      CollapseNewlinesFree(s[1..]);
      assert [s[0]] + s[1..] == s;
    }
  }

  lemma {:induction false} CollapseBlanksFree(s: string)
    requires ' ' !in s && '\t' !in s
    ensures CollapseBlanks(s) == s
    decreases |s|
  {
    if s != [] {
      assert s[0] in s;
      assert forall c <- s[1..] :: c in s;
      CollapseBlanksFree(s[1..]);
      assert [s[0]] + s[1..] == s;
    }
  }

  /** "Hello\x01\x02World" loses its two control characters. */
  lemma ControlCharactersStripped()
    ensures Normalize(Default, "Hello\U{0001}\U{0002}World") == "HelloWorld"
  {
    HelloWorldStripped();
    HelloWorldUnchanged();
  }

  lemma HelloWorldStripped()
    ensures StripControl("Hello\U{0001}\U{0002}World") == "HelloWorld"
  {
    var a, b := "Hello", "World";
    assert NoControl(a) && NoControl(b);
    StripBetween(a, '\U{0001}', '\U{0002}', b);
    assert a + b == "HelloWorld";
    assert a + ['\U{0001}', '\U{0002}'] + b == "Hello\U{0001}\U{0002}World";
  }

  /** Two control characters between control-free texts disappear. */
  lemma StripBetween(a: string, x: char, y: char, b: string)
    requires NoControl(a) && NoControl(b) && IsControl(x) && IsControl(y)
    ensures StripControl(a + [x, y] + b) == a + b
  {
    var p := [x, y];
    assert StripControl([y]) == [] by {
      assert [y][1..] == [];
      assert StripControl([y]) == [] + StripControl([]);
    }
    assert StripControl(p) == [] by {
      assert p[1..] == [y];
      assert StripControl(p) == [] + StripControl([y]);
    }
    assert StripControl(a + p + b) == StripControl(a + p) + StripControl(b) by {
      StripControlAppend(a + p, b);
    }
    assert StripControl(a + p) == StripControl(a) by {
      StripControlAppend(a, p);
      assert StripControl(a) + [] == StripControl(a);
    }
    StripControlKeeps(a);
    StripControlKeeps(b);
  }

  lemma HelloWorldUnchanged()
    ensures var h := "HelloWorld";
      TrimLines(h) == h && CollapseNewlines(h) == h && CollapseBlanks(h) == h && Trim(h) == h
  {
    var h := "HelloWorld";
    assert NoSpace(h);
    WordUnchanged(h);
  }

  /** A text without whitespace goes through every stage after the strip unchanged. */
  lemma WordUnchanged(h: string)
    requires NoSpace(h)
    ensures TrimLines(h) == h && CollapseNewlines(h) == h && CollapseBlanks(h) == h && Trim(h) == h
  {
    assert forall c <- h :: IsSpace(c) ==> false;
    SplitFreePiece(h, "\n");
    TrimmedIsFixed(h);
    assert TrimEach([h]) == [h];
    CollapseNewlinesFree(h);
    CollapseBlanksFree(h);
  }

  /** "Line 1\n\n\n\nLine 2" keeps one blank line. */
  lemma BlankLinesCollapsed()
    ensures Normalize(Default, "Line 1\n\n\n\nLine 2") == "Line 1\n\nLine 2"
  {
    var l1, l2 := "Line 1", "Line 2";
    assert "Line 1\n\n\n\nLine 2" == l1 + "\n\n\n\n" + l2;
    assert "Line 1\n\nLine 2" == l1 + "\n\n" + l2;
    assert NoControl(l1) && NoControl(l2);
    assert IsTrimmed(l1) && IsTrimmed(l2);
    assert '\n' !in l1 && '\n' !in l2;
    var t := l1 + "\n\n" + l2;
    assert '\t' !in t;
    assert NoBlankRun(t);
    GapCollapsed(l1, l2);
    CollapseBlanksFixed(t);
  }

  /**
   * Two trimmed lines with three blank lines between them: the strip, the line
   * trim and the space collapse change nothing, the newline collapse keeps two.
   */
  lemma GapCollapsed(l1: string, l2: string)
    requires l1 != [] && l2 != [] && IsTrimmed(l1) && IsTrimmed(l2)
    requires '\n' !in l1 && '\n' !in l2 && NoControl(l1) && NoControl(l2)
    ensures var s := l1 + "\n\n\n\n" + l2;
      && StripControl(s) == s
      && TrimLines(s) == s
      && CollapseNewlines(s) == l1 + "\n\n" + l2
      && IsTrimmed(l1 + "\n\n" + l2)
  {
    var s := l1 + "\n\n\n\n" + l2;
    assert StripControl(s) == s by {
      GapNoControl(l1, l2);
      StripControlKeeps(s);
    }
    assert TrimLines(s) == s by {
      GapTrimLines(l1, l2);
    }
    assert CollapseNewlines(s) == l1 + "\n\n" + l2 by {
      var run := "\n\n\n\n";
      assert forall i | 0 <= i < |run| :: run[i] == '\n';
      CollapseNewlinesPieces(l1, run, l2);
    }
    TrimmedAround(l1, "\n\n", l2);
  }

  /** Two trimmed, non-empty ends around anything make a trimmed text. */
  lemma TrimmedAround(l1: string, m: string, l2: string)
    requires l1 != [] && l2 != [] && IsTrimmed(l1) && IsTrimmed(l2)
    ensures IsTrimmed(l1 + m + l2)
  {
    var t := l1 + m + l2;
    assert t[0] == l1[0] && t[|t| - 1] == l2[|l2| - 1];
  }

  lemma GapNoControl(l1: string, l2: string)
    requires NoControl(l1) && NoControl(l2)
    ensures NoControl(l1 + "\n\n\n\n" + l2)
  {
    assert NoControl("\n\n\n\n");
    NoControlAppend(l1, "\n\n\n\n");
    NoControlAppend(l1 + "\n\n\n\n", l2);
  }

  /** The lines of the gap text are l1, three empty lines and l2. */
  lemma GapLines(l1: string, l2: string)
    requires '\n' !in l1 && '\n' !in l2
    ensures Split(l1 + "\n\n\n\n" + l2, "\n") == [l1, "", "", "", l2]
  {
    var s := l1 + "\n\n\n\n" + l2;
    assert s == l1 + "\n" + ("" + "\n" + ("" + "\n" + ("" + "\n" + l2)));
    SplitFreePiece(l2, "\n");
    SplitAfterFreePiece("", l2, "\n");
    SplitAfterFreePiece("", "" + "\n" + l2, "\n");
    SplitAfterFreePiece("", "" + "\n" + ("" + "\n" + l2), "\n");
    SplitAfterFreePiece(l1, "" + "\n" + ("" + "\n" + ("" + "\n" + l2)), "\n");
  }

  /** Trimming each line of the gap text changes nothing. */
  lemma GapTrimLines(l1: string, l2: string)
    requires IsTrimmed(l1) && IsTrimmed(l2) && '\n' !in l1 && '\n' !in l2
    ensures TrimLines(l1 + "\n\n\n\n" + l2) == l1 + "\n\n\n\n" + l2
  {
    var s := l1 + "\n\n\n\n" + l2;
    var ps := [l1, "", "", "", l2];
    GapLines(l1, l2);
    TrimmedIsFixed(l1);
    TrimmedIsFixed(l2);
    assert TrimEach(ps) == ps;
    JoinSplit(s, "\n");
  }

  /** A text with no tab and no two blanks in a row is left alone by the space collapse. */
  lemma {:induction false} CollapseBlanksFixed(t: string)
    requires '\t' !in t && NoBlankRun(t)
    ensures CollapseBlanks(t) == t
    decreases |t|
  {
    if t != [] {
      NoBlankRunTail(t);
      assert '\t' !in t[1..] by { assert forall c <- t[1..] :: c in t; }
      CollapseBlanksFixed(t[1..]);
      if IsBlank(t[0]) {
        LoneBlank(t);
      }
      assert [t[0]] + t[1..] == t;
    }
  }

  /** In a text with no tab and no two blanks in a row, a leading blank is one space. */
  lemma LoneBlank(t: string)
    requires t != [] && IsBlank(t[0]) && '\t' !in t && NoBlankRun(t)
    ensures t[0] == ' ' && BlankRun(t) == 1
  {
    assert t[0] in t;
    if |t| > 1 {
      assert !IsBlank(t[1]);
      assert t[1..][0] == t[1];
    } else {
      assert t[1..] == [];
    }
  }

  lemma NoBlankRunTail(t: string)
    requires t != [] && NoBlankRun(t)
    ensures NoBlankRun(t[1..])
  {
    forall i | 0 <= i < |t[1..]| - 1 ensures !(IsBlank(t[1..][i]) && IsBlank(t[1..][i + 1])) {
      assert t[1..][i] == t[i + 1] && t[1..][i + 1] == t[i + 2];
    }
  }

  /** A newline-free text, a run of newlines and a newline-free text. */
  lemma {:induction false} CollapseNewlinesPieces(a: string, run: string, b: string)
    requires '\n' !in a && '\n' !in b && b != [] && |run| >= 1 && forall i | 0 <= i < |run| :: run[i] == '\n'
    ensures CollapseNewlines(a + run + b) == a + (if |run| >= 3 then "\n\n" else run) + b
    decreases |a|
  {
    if a == [] {
      assert a + run + b == run + b;
      CollapseRunThen(run, b);
    } else {
      var m := if |run| >= 3 then "\n\n" else run;
      assert a[0] in a;
      assert '\n' !in a[1..] by { assert forall c <- a[1..] :: c in a; }
      assert a + run + b == [a[0]] + (a[1..] + run + b);
      CollapseNewlinesCons(a[0], a[1..] + run + b);
      CollapseNewlinesPieces(a[1..], run, b);
      assert [a[0]] + (a[1..] + m + b) == a + m + b;
    }
  }

  /** A character other than a newline is kept and the rest collapsed. */
  lemma CollapseNewlinesCons(c: char, rest: string)
    requires c != '\n'
    ensures CollapseNewlines([c] + rest) == [c] + CollapseNewlines(rest)
  {
    assert ([c] + rest)[1..] == rest;
  }

  /** A run of newlines, then a newline-free text. */
  lemma CollapseRunThen(run: string, b: string)
    requires '\n' !in b && b != [] && |run| >= 1 && forall i | 0 <= i < |run| :: run[i] == '\n'
    ensures CollapseNewlines(run + b) == (if |run| >= 3 then "\n\n" else run) + b
  {
    var s := run + b;
    assert forall i | 0 <= i < |run| :: s[i] == '\n';
    assert s[|run|] == b[0] && b[0] in b;
    NewlineRunOf(s, |run|);
    assert s[..|run|] == run && s[|run|..] == b;
    CollapseNewlinesFree(b);
  }

  lemma {:induction false} NewlineRunOf(s: string, k: nat)
    requires k < |s| && s[k] != '\n' && forall i | 0 <= i < k :: s[i] == '\n'
    ensures NewlineRun(s) == k
    decreases k
  {
    if k > 0 {
      NewlineRunOf(s[1..], k - 1);
    }
  }
}
