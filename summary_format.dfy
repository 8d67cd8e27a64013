/**
 * `format_summary_text` in scripts/pipeline.py: a generated summary is laid
 * out one sentence per line. Input lines are split with `str.splitlines`,
 * stripped, blank ones dropped, and each remaining line is cut with
 * `re.split(r"(?<=[.!?])\s+", line)`; the stripped non-empty pieces are joined
 * with "\n".
 */
module SummaryFormat {
  import opened Sequences

  // ---------------------------------------------------------------------------
  // Character classes

  /** `str.isspace`, which is also what `\s` matches in a `str` pattern. */
  predicate IsSpace(c: char) {
    ('\t' <= c <= '\r') || ('\U{1C}' <= c <= ' ') || c == '\U{85}' || c == '\U{A0}'
    || c == '\U{1680}' || ('\U{2000}' <= c <= '\U{200A}') || c == '\U{2028}' || c == '\U{2029}'
    || c == '\U{202F}' || c == '\U{205F}' || c == '\U{3000}'
  }

  /** The line boundaries of `str.splitlines` ("\r\n" counts as one). */
  predicate IsLineBreak(c: char) {
    ('\n' <= c <= '\r') || ('\U{1C}' <= c <= '\U{1E}') || c == '\U{85}'
    || c == '\U{2028}' || c == '\U{2029}'
  }

  /** The characters the look-behind `(?<=[.!?])` accepts. */
  predicate IsTerminal(c: char) {
    c == '.' || c == '!' || c == '?'
  }

  lemma LineBreakIsSpace(c: char)
    requires IsLineBreak(c)
    ensures IsSpace(c)
  {
  }

  predicate NoBreak(s: string) {
    forall k :: 0 <= k < |s| ==> !IsLineBreak(s[k])
  }

  // ---------------------------------------------------------------------------
  // str.splitlines

  /** The first line boundary at or after `i`, or `|s|`. */
  function LineEnd(s: string, i: nat): (e: nat)
    requires i <= |s|
    ensures i <= e <= |s|
    ensures forall k :: i <= k < e ==> !IsLineBreak(s[k])
    ensures e < |s| ==> IsLineBreak(s[e])
    decreases |s| - i
  {
    if i == |s| || IsLineBreak(s[i]) then i else LineEnd(s, i + 1)
  }

  /** `s.splitlines()`: no boundary characters kept, no empty last line after
      a final boundary, and no lines at all for "". */
  function SplitLines(s: string): (lines: seq<string>)
    ensures forall l :: l in lines ==> NoBreak(l)
    decreases |s|
  {
    if s == [] then []
    else
      var e := LineEnd(s, 0);
      if e == |s| then [s]
      else [s[..e]] + SplitLines(s[NextStart(s, e)..])
  }

  /** Where the line after the boundary at `e` starts: "\r\n" is one boundary. */
  function NextStart(s: string, e: nat): (next: nat)
    requires e < |s| && IsLineBreak(s[e])
    ensures e < next <= |s| && forall k :: e <= k < next ==> IsLineBreak(s[k]) || s[k] == '\n'
  {
    if s[e] == '\r' && e + 1 < |s| && s[e + 1] == '\n' then e + 2 else e + 1
  }

  // ---------------------------------------------------------------------------
  // str.strip

  function TrimStart(s: string): (r: string)
    ensures |r| <= |s| && r == s[|s| - |r|..]
    ensures r == [] || !IsSpace(r[0])
    ensures forall k :: 0 <= k < |s| - |r| ==> IsSpace(s[k])
  {
    if s != [] && IsSpace(s[0]) then TrimStart(s[1..]) else s
  }

  function TrimEnd(s: string): (r: string)
    ensures |r| <= |s| && r == s[..|r|]
    ensures r == [] || !IsSpace(r[|r| - 1])
    ensures forall k :: |r| <= k < |s| ==> IsSpace(s[k])
  {
    if s != [] && IsSpace(s[|s| - 1]) then TrimEnd(s[..|s| - 1]) else s
  }

  /** `s.strip()`. */
  function Strip(s: string): string {
    TrimEnd(TrimStart(s))
  }

  // ---------------------------------------------------------------------------
  // re.split(r"(?<=[.!?])\s+", line)

  /** The pattern can start matching at `k`: a terminal before, whitespace at. */
  predicate MatchAt(s: string, k: nat)
    requires 1 <= k < |s|
  {
    IsTerminal(s[k - 1]) && IsSpace(s[k])
  }

  /** No sentence boundary inside `s`. */
  predicate NoMatch(s: string) {
    forall k :: 1 <= k < |s| ==> !MatchAt(s, k)
  }

  /** The leftmost match position at or after `i`, or `|s|`. */
  function FirstMatch(s: string, i: nat): (p: nat)
    requires 1 <= i <= |s|
    ensures i <= p <= |s|
    ensures forall k :: i <= k < p ==> !MatchAt(s, k)
    ensures p < |s| ==> MatchAt(s, p)
    decreases |s| - i
  {
    if i == |s| then |s| else if MatchAt(s, i) then i else FirstMatch(s, i + 1)
  }

  /** The end of the whitespace run `\s+` greedily consumes from `q`. */
  function RunEnd(s: string, q: nat): (r: nat)
    requires q <= |s|
    ensures q <= r <= |s|
    ensures forall k :: q <= k < r ==> IsSpace(s[k])
    ensures r < |s| ==> !IsSpace(s[r])
    decreases |s| - q
  {
    if q == |s| || !IsSpace(s[q]) then q else RunEnd(s, q + 1)
  }

  /** The pieces `re.split` returns, left to right. */
  function Sentences(s: string): (pieces: seq<string>)
    ensures |pieces| >= 1
    decreases |s|
  {
    if |s| <= 1 then [s]
    else
      var p := FirstMatch(s, 1);
      if p == |s| then [s]
      else [s[..p]] + Sentences(s[RunEnd(s, p)..])
  }

  // ---------------------------------------------------------------------------
  // The layout

  /** `[x.strip() for x in pieces if x.strip()]`. */
  function Keep(pieces: seq<string>): seq<string> {
    if pieces == [] then []
    else (if Strip(pieces[0]) != "" then [Strip(pieces[0])] else []) + Keep(pieces[1..])
  }

  /** The output lines one input line contributes. */
  function PerLine(raw: string): seq<string> {
    var line := Strip(raw);
    if line == "" then [] else Keep(Sentences(line))
  }

  /** The output lines of a run of input lines, in input order. */
  function Pieces(raws: seq<string>): seq<string> {
    if raws == [] then [] else Pieces(raws[..|raws| - 1]) + PerLine(raws[|raws| - 1])
  }

  function FormattedLines(summary: string): seq<string> {
    Pieces(SplitLines(summary))
  }

  /** `"\n".join(lines)`. */
  function Join(lines: seq<string>): string {
    if lines == [] then ""
    else if |lines| == 1 then lines[0]
    else lines[0] + "\n" + Join(lines[1..])
  }

  /** What `format_summary_text(summary)` returns. */
  function Formatted(summary: string): string {
    Join(FormattedLines(summary))
  }

  lemma PiecesStep(raws: seq<string>, i: nat)
    requires i < |raws|
    ensures Pieces(raws[..i + 1]) == Pieces(raws[..i]) + PerLine(raws[i])
  {
    assert raws[..i + 1][..i] == raws[..i];
  }

  /** `format_summary_text`: the loop over the input lines builds `lines`. */
  method FormatSummaryText(summary: string) returns (r: string)
    ensures r == Formatted(summary)
  {
    var raws := SplitLines(summary);
    var lines: seq<string> := [];
    var i := 0;
    while i < |raws|
      invariant 0 <= i <= |raws|
      invariant lines == Pieces(raws[..i])
    {
      PiecesStep(raws, i);
      var line := Strip(raws[i]);
      if line != "" {
        var sentences := Sentences(line);
        lines := lines + Keep(sentences);
      } else {
        assert PerLine(raws[i]) == [];
      }
      i := i + 1;
    }
    assert raws[..i] == raws;
    assert lines == FormattedLines(summary);
    r := Join(lines);
  }

  // ---------------------------------------------------------------------------
  // Every output line is one stripped sentence

  /** A line of the output: non-empty, stripped, holding no line boundary and
      no sentence boundary. */
  predicate OneSentence(l: string) {
    l != "" && !IsSpace(l[0]) && !IsSpace(l[|l| - 1]) && NoBreak(l) && NoMatch(l)
  }

  lemma SliceKeeps(s: string, a: nat, b: nat)
    requires a <= b <= |s|
    ensures NoBreak(s) ==> NoBreak(s[a..b])
    ensures NoMatch(s) ==> NoMatch(s[a..b])
  {
    if NoMatch(s) {
      forall k | 1 <= k < b - a
        ensures !MatchAt(s[a..b], k)
      {
        assert s[a..b][k - 1] == s[a + k - 1] && s[a..b][k] == s[a + k];
        assert !MatchAt(s, a + k);
      }
    }
  }

  /** `strip` keeps a run of the text without its outer whitespace. */
  lemma StripKeeps(s: string)
    ensures NoBreak(s) ==> NoBreak(Strip(s))
    ensures NoMatch(s) ==> NoMatch(Strip(s))
  {
    var t := TrimStart(s);
    var u := TrimEnd(t);
    SliceKeeps(s, |s| - |t|, |s|);
    assert t == s[|s| - |t|..|s|];
    SliceKeeps(t, 0, |u|);
    assert u == t[0..|u|];
  }

  lemma StripShape(s: string)
    ensures Strip(s) != "" ==> !IsSpace(Strip(s)[0]) && !IsSpace(Strip(s)[|Strip(s)| - 1])
  {
    var t := TrimStart(s);
    var u := TrimEnd(t);
    if u != "" {
      assert u[0] == t[0];
    }
  }

  /** What `re.split` cuts off has no boundary left inside it. */
  lemma {:induction false} SentencesKeep(s: string)
    ensures forall x :: x in Sentences(s) ==> NoMatch(x) && (NoBreak(s) ==> NoBreak(x))
    decreases |s|
  {
    if |s| > 1 {
      var p := FirstMatch(s, 1);
      if p < |s| {
        var q := RunEnd(s, p);
        SentencesKeep(s[q..]);
        SliceKeeps(s, q, |s|);
        SliceKeeps(s, 0, p);
        forall k | 1 <= k < p
          ensures !MatchAt(s[..p], k)
        {
          assert s[..p][k - 1] == s[k - 1] && s[..p][k] == s[k];
          assert !MatchAt(s, k);
        }
      }
    }
  }

  lemma {:induction false} KeepFrom(pieces: seq<string>)
    ensures forall x :: x in Keep(pieces) ==> x != "" && exists k :: 0 <= k < |pieces| && x == Strip(pieces[k])
  {
    if pieces != [] {
      var tail := pieces[1..];
      KeepFrom(tail);
      forall x | x in Keep(pieces)
        ensures x != "" && exists k :: 0 <= k < |pieces| && x == Strip(pieces[k])
      {
        if x in Keep(tail) {
          var k :| 0 <= k < |tail| && x == Strip(tail[k]);
          assert tail[k] == pieces[k + 1];
        } else {
          assert x == Strip(pieces[0]);
        }
      }
    }
  }

  lemma StrippedSentence(y: string)
    requires NoMatch(y) && NoBreak(y) && Strip(y) != ""
    ensures OneSentence(Strip(y))
  {
    StripKeeps(y);
    StripShape(y);
  }

  /**
   * Every line the layout emits is a non-empty, stripped sentence with no line
   * boundary and no `.`, `!` or `?` followed by whitespace inside it.
   */
  lemma {:induction false} PerLineSentences(raw: string)
    requires NoBreak(raw)
    ensures forall l :: l in PerLine(raw) ==> OneSentence(l)
  {
    var line := Strip(raw);
    StripKeeps(raw);
    if line != "" {
      var pieces := Sentences(line);
      SentencesKeep(line);
      KeepFrom(pieces);
      forall l | l in PerLine(raw)
        ensures OneSentence(l)
      {
        var k :| 0 <= k < |pieces| && l == Strip(pieces[k]);
        assert pieces[k] in pieces;
        StrippedSentence(pieces[k]);
      }
    }
  }

  lemma {:induction false} PiecesSentences(raws: seq<string>)
    requires forall l :: l in raws ==> NoBreak(l)
    ensures forall l :: l in Pieces(raws) ==> OneSentence(l)
  {
    if raws != [] {
      PerLineSentences(raws[|raws| - 1]);
      PiecesSentences(raws[..|raws| - 1]);
    }
  }

  /** Joining lines that hold no boundary and are non-empty, then splitting, gives
      them back. */
  lemma {:induction false} SplitJoin(lines: seq<string>)
    requires forall l :: l in lines ==> l != "" && NoBreak(l)
    ensures SplitLines(Join(lines)) == lines
  {
    if |lines| == 1 {
      assert lines[0] in lines;
      LineEndAt(lines[0], |lines[0]|);
    } else if |lines| > 1 {
      var h := lines[0];
      var t := Join(lines[1..]);
      var s := h + "\n" + t;
      assert Join(lines) == s;
      assert lines[0] in lines;
      assert forall l :: l in lines[1..] ==> l in lines;
      assert s[|h|] == '\n';
      assert forall k :: 0 <= k < |h| ==> s[k] == h[k];
      LineEndAt(s, |h|);
      assert s[..|h|] == h;
      assert s[|h| + 1..] == t;
      SplitJoin(lines[1..]);
    }
  }

  lemma LineEndAt(s: string, n: nat)
    requires n <= |s| && (forall k :: 0 <= k < n ==> !IsLineBreak(s[k]))
    requires n == |s| || IsLineBreak(s[n])
    ensures LineEnd(s, 0) == n
  {
  }

  /**
   * The output's own lines are exactly the emitted sentences: none is empty,
   * each is stripped, and none runs two sentences together.
   */
  lemma FormattedLinesShape(summary: string)
    ensures SplitLines(Formatted(summary)) == FormattedLines(summary)
    ensures forall l :: l in SplitLines(Formatted(summary)) ==> OneSentence(l) && Strip(l) == l
  {
    PiecesSentences(SplitLines(summary));
    SplitJoin(FormattedLines(summary));
    forall l | l in FormattedLines(summary)
      ensures Strip(l) == l
    {
      StrippedFixed(l);
    }
  }

  lemma StrippedFixed(l: string)
    requires l != "" && !IsSpace(l[0]) && !IsSpace(l[|l| - 1])
    ensures Strip(l) == l
  {
  }

  /**
   * Within one input line, every emitted sentence except the last ends in `.`,
   * `!` or `?`: the text is cut only after a terminal.
   */
  lemma {:induction false} CutsAfterTerminals(raw: string)
    ensures forall k :: 0 <= k < |PerLine(raw)| - 1 ==> PerLine(raw)[k] != "" && IsTerminal(PerLine(raw)[k][|PerLine(raw)[k]| - 1])
  {
    var line := Strip(raw);
    if line != "" {
      SentencesEnd(line);
      KeepEnds(Sentences(line));
    }
  }

  lemma {:induction false} SentencesEnd(s: string)
    ensures forall k :: 0 <= k < |Sentences(s)| - 1 ==> Sentences(s)[k] != "" && IsTerminal(Sentences(s)[k][|Sentences(s)[k]| - 1])
    decreases |s|
  {
    if |s| > 1 {
      var p := FirstMatch(s, 1);
      if p < |s| {
        var q := RunEnd(s, p);
        SentencesEnd(s[q..]);
        assert Sentences(s) == [s[..p]] + Sentences(s[q..]);
      }
    }
  }

  /** Stripping a piece that ends in a terminal keeps that terminal last. */
  lemma StripEnd(y: string)
    requires y != "" && IsTerminal(y[|y| - 1])
    ensures Strip(y) != "" && Strip(y)[|Strip(y)| - 1] == y[|y| - 1]
  {
    var t := TrimStart(y);
    assert t != [] && t[|t| - 1] == y[|y| - 1];
    assert TrimEnd(t) == t;
  }

  lemma {:induction false} KeepEnds(pieces: seq<string>)
    requires forall k :: 0 <= k < |pieces| - 1 ==> pieces[k] != "" && IsTerminal(pieces[k][|pieces[k]| - 1])
    ensures forall k :: 0 <= k < |Keep(pieces)| - 1 ==> Keep(pieces)[k] != "" && IsTerminal(Keep(pieces)[k][|Keep(pieces)[k]| - 1])
  {
    if |pieces| > 1 {
      KeepEnds(pieces[1..]);
      StripEnd(pieces[0]);
      var rest := Keep(pieces[1..]);
      assert Keep(pieces) == [Strip(pieces[0])] + rest;
    }
  }

  // ---------------------------------------------------------------------------
  // Nothing but whitespace changes

  /** The text without any whitespace. */
  function DeleteWs(s: string): string {
    if s == [] then [] else (if IsSpace(s[0]) then [] else [s[0]]) + DeleteWs(s[1..])
  }

  function Concat(ls: seq<string>): string {
    if ls == [] then [] else ls[0] + Concat(ls[1..])
  }

  lemma ConcatOne(s: string)
    ensures Concat([s]) == s
  {
    assert [s][1..] == [];
  }

  lemma {:induction false} DeleteWsAppend(a: string, b: string)
    ensures DeleteWs(a + b) == DeleteWs(a) + DeleteWs(b)
  {
    if a == [] {
      assert a + b == b;
    } else {
      assert (a + b)[0] == a[0] && (a + b)[1..] == a[1..] + b;
      DeleteWsAppend(a[1..], b);
    }
  }

  lemma {:induction false} DeleteWsSpaces(s: string)
    requires forall k :: 0 <= k < |s| ==> IsSpace(s[k])
    ensures DeleteWs(s) == []
  {
    if s != [] {
      DeleteWsSpaces(s[1..]);
    }
  }

  lemma {:induction false} ConcatAppend(a: seq<string>, b: seq<string>)
    ensures Concat(a + b) == Concat(a) + Concat(b)
  {
    if a == [] {
      assert a + b == b;
    } else {
      assert (a + b)[0] == a[0] && (a + b)[1..] == a[1..] + b;
      ConcatAppend(a[1..], b);
    }
  }

  lemma {:induction false} JoinWs(lines: seq<string>)
    ensures DeleteWs(Join(lines)) == DeleteWs(Concat(lines))
  {
    if |lines| == 1 {
      assert lines == [lines[0]];
      ConcatOne(lines[0]);
    } else if |lines| > 1 {
      JoinWs(lines[1..]);
      DeleteWsAppend(lines[0] + "\n", Join(lines[1..]));
      DeleteWsAppend(lines[0], "\n");
      DeleteWsAppend(lines[0], Concat(lines[1..]));
      assert DeleteWs("\n") == [];
    }
  }

  lemma {:induction false} SplitLinesWs(s: string)
    ensures DeleteWs(Concat(SplitLines(s))) == DeleteWs(s)
    decreases |s|
  {
    if s != [] {
      var e := LineEnd(s, 0);
      if e == |s| {
        ConcatOne(s);
      } else {
        var next := NextStart(s, e);
        SplitLinesWs(s[next..]);
        forall k | e <= k < next ensures IsSpace(s[k]) {
          if IsLineBreak(s[k]) {
            LineBreakIsSpace(s[k]);
          }
        }
        ConsWs(s, e, next, SplitLines(s[next..]));
      }
    }
  }

  /** Whitespace between two parts is invisible to `DeleteWs`. */
  lemma DropSpaces(s: string, a: nat, b: nat)
    requires a <= b <= |s| && forall k :: a <= k < b ==> IsSpace(s[k])
    ensures DeleteWs(s) == DeleteWs(s[..a]) + DeleteWs(s[b..])
  {
    var run := s[a..b];
    forall k | 0 <= k < |run| ensures IsSpace(run[k]) {
      assert run[k] == s[a + k];
    }
    Split3(s, a, b);
    DropRun(s[..a], run, s[b..]);
  }

  lemma DropRun(p: string, run: string, q: string)
    requires forall k :: 0 <= k < |run| ==> IsSpace(run[k])
    ensures DeleteWs(p + run + q) == DeleteWs(p) + DeleteWs(q)
  {
    var pr := p + run;
    DeleteWsAppend(pr, q);
    DeleteWsAppend(p, run);
    DeleteWsSpaces(run);
    assert DeleteWs(pr) == DeleteWs(p);
  }

  /** One line, a run of whitespace, then lines that stand for the rest. */
  lemma ConsWs(s: string, a: nat, b: nat, rest: seq<string>)
    requires a <= b <= |s| && forall k :: a <= k < b ==> IsSpace(s[k])
    requires DeleteWs(Concat(rest)) == DeleteWs(s[b..])
    ensures DeleteWs(Concat([s[..a]] + rest)) == DeleteWs(s)
  {
    assert Concat([s[..a]] + rest) == s[..a] + Concat(rest) by {
      assert ([s[..a]] + rest)[1..] == rest;
    }
    DropSpaces(s, a, b);
    DeleteWsAppend(s[..a], Concat(rest));
  }

  lemma {:induction false} TrimStartWs(s: string)
    ensures DeleteWs(TrimStart(s)) == DeleteWs(s)
  {
    if s != [] && IsSpace(s[0]) {
      TrimStartWs(s[1..]);
    }
  }

  lemma {:induction false} TrimEndWs(s: string)
    ensures DeleteWs(TrimEnd(s)) == DeleteWs(s)
  {
    if s != [] && IsSpace(s[|s| - 1]) {
      var init := s[..|s| - 1];
      TrimEndWs(init);
      assert s == init + [s[|s| - 1]];
      DeleteWsAppend(init, [s[|s| - 1]]);
      DeleteWsSpaces([s[|s| - 1]]);
    }
  }

  lemma StripWs(s: string)
    ensures DeleteWs(Strip(s)) == DeleteWs(s)
  {
    TrimStartWs(s);
    TrimEndWs(TrimStart(s));
  }

  lemma {:induction false} SentencesWs(s: string)
    ensures DeleteWs(Concat(Sentences(s))) == DeleteWs(s)
    decreases |s|
  {
    if |s| <= 1 || FirstMatch(s, 1) == |s| {
      ConcatOne(s);
    } else {
      var p := FirstMatch(s, 1);
      var q := RunEnd(s, p);
      SentencesWs(s[q..]);
      ConsWs(s, p, q, Sentences(s[q..]));
    }
  }

  lemma {:induction false} KeepWs(pieces: seq<string>)
    ensures DeleteWs(Concat(Keep(pieces))) == DeleteWs(Concat(pieces))
  {
    if pieces != [] {
      var y := pieces[0];
      var head := if Strip(y) != "" then [Strip(y)] else [];
      KeepWs(pieces[1..]);
      StripWs(y);
      ConcatAppend(head, Keep(pieces[1..]));
      assert Concat(head) == (if Strip(y) != "" then Strip(y) else "") by {
        if Strip(y) != "" {
          assert Concat(head) == Strip(y) + Concat([]);
        }
      }
      DeleteWsAppend(Concat(head), Concat(Keep(pieces[1..])));
      DeleteWsAppend(y, Concat(pieces[1..]));
    }
  }

  lemma PerLineWs(raw: string)
    ensures DeleteWs(Concat(PerLine(raw))) == DeleteWs(raw)
  {
    StripWs(raw);
    if Strip(raw) != "" {
      KeepWs(Sentences(Strip(raw)));
      SentencesWs(Strip(raw));
    }
  }

  lemma {:induction false} PiecesWs(raws: seq<string>)
    ensures DeleteWs(Concat(Pieces(raws))) == DeleteWs(Concat(raws))
  {
    if raws != [] {
      var init := raws[..|raws| - 1];
      var last := raws[|raws| - 1];
      assert Pieces(raws) == Pieces(init) + PerLine(last);
      PiecesWs(init);
      PerLineWs(last);
      ConcatAppend(Pieces(init), PerLine(last));
      DeleteWsAppend(Concat(Pieces(init)), Concat(PerLine(last)));
      InitLast(raws);
      ConcatAppend(init, [last]);
      ConcatOne(last);
      DeleteWsAppend(Concat(init), last);
    }
  }

  /**
   * Deleting all whitespace from the output gives the same text as deleting
   * all whitespace from the summary: the layout only moves, drops or adds
   * whitespace.
   */
  lemma FormattedWs(summary: string)
    ensures DeleteWs(Formatted(summary)) == DeleteWs(summary)
  {
    JoinWs(FormattedLines(summary));
    PiecesWs(SplitLines(summary));
    SplitLinesWs(summary);
  }

  // ---------------------------------------------------------------------------
  // Idempotence

  lemma OneSentenceFixed(l: string)
    requires OneSentence(l)
    ensures PerLine(l) == [l]
  {
    StrippedFixed(l);
    if |l| > 1 {
      assert FirstMatch(l, 1) == |l|;
    }
    assert Keep([l]) == [l] + Keep([]);
  }

  lemma {:induction false} PiecesFixed(lines: seq<string>)
    requires forall l :: l in lines ==> OneSentence(l)
    ensures Pieces(lines) == lines
  {
    if lines != [] {
      var init := lines[..|lines| - 1];
      var last := lines[|lines| - 1];
      assert last in lines;
      assert forall l :: l in init ==> l in lines;
      OneSentenceFixed(last);
      PiecesFixed(init);
      InitLast(lines);
    }
  }

  /** Laying out an already laid-out summary changes nothing. */
  lemma FormattedIdempotent(summary: string)
    ensures Formatted(Formatted(summary)) == Formatted(summary)
  {
    FormattedLinesShape(summary);
    PiecesFixed(FormattedLines(summary));
  }
}
