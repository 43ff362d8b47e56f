/** The pattern matcher of `grep`. */
module Grep {

  // ----- what a pattern means -----

  /** One character, or any number of them; the character `.` stands for all. */
  datatype Item = One(c: char) | Star(c: char)

  /** A pattern after its leading `^`: the items, and whether a `$` ends it. */
  datatype Pattern = Pattern(items: seq<Item>, end: bool)

  /** A character before `*` is repeated; `$` counts only at the very end; every other character, `*`
      and `^` included, stands for itself. */
  function Meaning(re: string): Pattern
    decreases |re|
  {
    if re == "" then Pattern([], false)
    else if |re| >= 2 && re[1] == '*' then
      var p := Meaning(re[2..]);
      p.(items := [Star(re[0])] + p.items)
    else if re == "$" then Pattern([], true)
    else
      var p := Meaning(re[1..]);
      p.(items := [One(re[0])] + p.items)
  }

  predicate Fits(c: char, x: char) {
    c == '.' || c == x
  }

  predicate AllFit(c: char, w: string) {
    forall k | 0 <= k < |w| :: Fits(c, w[k])
  }

  /** The whole of `w` is a sentence of the items. */
  ghost predicate Accepts(items: seq<Item>, w: string)
    decreases |items|
  {
    if items == [] then w == ""
    else match items[0]
         case One(c) => w != "" && Fits(c, w[0]) && Accepts(items[1..], w[1..])
         case Star(c) => exists k: nat :: k <= |w| && AllFit(c, w[..k]) && Accepts(items[1..], w[k..])
  }

  ghost predicate MatchesTo(p: Pattern, text: string, n: nat) {
    n <= |text| && Accepts(p.items, text[..n]) && (p.end ==> n == |text|)
  }

  /** Some beginning of `text` matches; all of it, if the pattern ends in `$`. */
  ghost predicate Matches(p: Pattern, text: string) {
    exists n: nat :: MatchesTo(p, text, n)
  }

  /** Some part of `text` matches, at its beginning if the pattern starts with `^`. */
  ghost predicate Found(re: string, text: string) {
    if re != "" && re[0] == '^' then Matches(Meaning(re[1..]), text)
    else exists i: nat :: i <= |text| && Matches(Meaning(re), text[i..])
  }

  // ----- one step at a time -----

  lemma MatchesEmpty(text: string)
    ensures Matches(Pattern([], false), text)
  {
    assert MatchesTo(Pattern([], false), text, 0);
  }

  lemma MatchesEnd(text: string)
    ensures Matches(Pattern([], true), text) <==> text == ""
  {
    if text == "" {
      assert MatchesTo(Pattern([], true), text, 0);
    }
  }

  lemma MatchesOne(p: Pattern, c: char, text: string)
    ensures Matches(p.(items := [One(c)] + p.items), text) <==> text != "" && Fits(c, text[0]) && Matches(p, text[1..])
  {
    var q := p.(items := [One(c)] + p.items);
    assert q.items[1..] == p.items;
    if n: nat :| MatchesTo(q, text, n) {
      assert text[..n][1..] == text[1..][..n - 1];
      assert MatchesTo(p, text[1..], n - 1);
    }
    if text != "" && Fits(c, text[0]) && Matches(p, text[1..]) {
      var n: nat :| MatchesTo(p, text[1..], n);
      assert text[..n + 1][1..] == text[1..][..n];
      assert MatchesTo(q, text, n + 1);
    }
  }

  /** `k` characters taken by the star, the rest matched by `p`. */
  ghost predicate StarSplit(p: Pattern, c: char, text: string, k: nat) {
    k <= |text| && AllFit(c, text[..k]) && Matches(p, text[k..])
  }

  ghost predicate SomeSplit(p: Pattern, c: char, text: string) {
    exists k: nat :: StarSplit(p, c, text, k)
  }

  lemma Slices(text: string, k: nat, n: nat)
    requires k + n <= |text|
    ensures text[..k + n][..k] == text[..k] && text[..k + n][k..] == text[k..][..n]
  {
  }

  lemma MatchesStar(p: Pattern, c: char, text: string)
    ensures Matches(p.(items := [Star(c)] + p.items), text) <==> SomeSplit(p, c, text)
  {
    var q := p.(items := [Star(c)] + p.items);
    assert q.items[1..] == p.items;
    if n: nat :| MatchesTo(q, text, n) {
      var w := text[..n];
      var k: nat :| k <= |w| && AllFit(c, w[..k]) && Accepts(q.items[1..], w[k..]);
      Slices(text, k, n - k);
      assert MatchesTo(p, text[k..], n - k);
      assert StarSplit(p, c, text, k);
    }
    if k: nat :| StarSplit(p, c, text, k) {
      var n: nat :| MatchesTo(p, text[k..], n);
      var w := text[..k + n];
      Slices(text, k, n);
      assert MatchesTo(q, text, k + n);
    }
  }

  // ----- the matcher -----

  /** `matchhere`. */
  method MatchHere(re: string, text: string) returns (yes: bool)
    ensures yes <==> Matches(Meaning(re), text)
    decreases |re|, 1
  {
    if re == "" {
      MatchesEmpty(text);
      return true;
    }
    if |re| >= 2 && re[1] == '*' {
      MatchesStar(Meaning(re[2..]), re[0], text);
      assert Meaning(re) == Meaning(re[2..]).(items := [Star(re[0])] + Meaning(re[2..]).items);
      yes := MatchStar(re[0], re[2..], text);
      return;
    }
    if re == "$" {
      MatchesEnd(text);
      return text == "";
    }
    MatchesOne(Meaning(re[1..]), re[0], text);
    if text != "" && (re[0] == '.' || re[0] == text[0]) {
      yes := MatchHere(re[1..], text[1..]);
      return;
    }
    return false;
  }

  /** `matchstar`: try the rest of the pattern after ever more characters. */
  method MatchStar(c: char, re: string, text: string) returns (yes: bool)
    ensures yes <==> SomeSplit(Meaning(re), c, text)
    decreases |re|, 2
  {
    ghost var p := Meaning(re);
    var i := 0;
    while true
      invariant 0 <= i <= |text| && AllFit(c, text[..i])
      invariant forall k: nat | k < i :: !StarSplit(p, c, text, k)
      decreases |text| - i
    {
      var here := MatchHere(re, text[i..]);
      if here {
        assert StarSplit(p, c, text, i);
        return true;
      }
      if i == |text| || !(text[i] == c || c == '.') {
        break;
      }
      assert text[..i + 1] == text[..i] + [text[i]];
      i := i + 1;
    }
    forall k: nat
      ensures !StarSplit(p, c, text, k)
    {
      if i < k <= |text| {
        assert text[..k][i] == text[i];
      }
    }
    return false;
  }

  /** `match`. */
  method Match(re: string, text: string) returns (yes: bool)
    ensures yes <==> Found(re, text)
  {
    if re != "" && re[0] == '^' {
      yes := MatchHere(re[1..], text);
      return;
    }
    var i := 0;
    while true
      invariant 0 <= i <= |text| && forall k: nat | k < i :: !Matches(Meaning(re), text[k..])
      decreases |text| - i
    {
      yes := MatchHere(re, text[i..]);
      if yes || i == |text| {
        return;
      }
      i := i + 1;
    }
  }

  // ----- the line loop -----

  const BUFSIZE: nat := 1024

  predicate Ends(c: char) {
    c == '\n' || c == '\0'
  }

  /** The position of the first newline or NUL, or the length. */
  function LineEnd(s: string): (j: nat)
    ensures j <= |s| && (j < |s| ==> Ends(s[j])) && forall k | 0 <= k < j :: !Ends(s[k])
  {
    if s == "" || Ends(s[0]) then 0 else 1 + LineEnd(s[1..])
  }

  /** No newline comes before the first NUL. */
  predicate NoLine(s: string) {
    LineEnd(s) < |s| ==> s[LineEnd(s)] == '\0'
  }

  /** What `grep` writes: the lines that match, each with its newline, up to a line that does not fit
      the buffer or has a NUL in it; a last line without newline is not looked at. */
  ghost function Output(re: string, s: string): string
    decreases |s|
  {
    var j := LineEnd(s);
    if NoLine(s) || j + 1 >= BUFSIZE then ""
    else (if Found(re, s[..j]) then s[..j + 1] else "") + Output(re, s[j + 1..])
  }

  lemma LineEndIs(s: string, j: nat)
    requires j <= |s| && (j < |s| ==> Ends(s[j])) && forall k | 0 <= k < j :: !Ends(s[k])
    ensures LineEnd(s) == j
  {
  }

  /** The rest of a text after its first line. */
  lemma OutputLine(re: string, s: string, j: nat)
    requires j < |s| && s[j] == '\n' && j + 1 < BUFSIZE && forall k | 0 <= k < j :: !Ends(s[k])
    ensures Output(re, s) == (if Found(re, s[..j]) then s[..j + 1] else "") + Output(re, s[j + 1..])
  {
    LineEndIs(s, j);
  }

  lemma OutputNone(re: string, s: string, m: nat)
    requires m <= |s| && NoLine(s[..m]) && (m == |s| || m + 1 >= BUFSIZE)
    ensures Output(re, s) == ""
  {
    var j := LineEnd(s[..m]);
    assert forall k | 0 <= k < m :: s[..m][k] == s[k];
    if j < m {
      LineEndIs(s, j);
    } else if LineEnd(s) < m {
      LineEndIs(s[..m], LineEnd(s));
    }
  }

  /** `strchr(p, '\n')` in a buffer with a NUL after its first `m` characters. */
  method FindNewline(buf: array<char>, p: nat, m: nat) returns (found: bool, q: nat)
    requires p <= m <= buf.Length
    ensures p <= q <= m && forall k | p <= k < q :: !Ends(buf[k])
    ensures if found then q < m && buf[q] == '\n' else NoLine(buf[p..m])
  {
    q := p;
    while q < m && !Ends(buf[q])
      invariant p <= q <= m && forall k | p <= k < q :: !Ends(buf[k])
    {
      q := q + 1;
    }
    LineEndIs(buf[p..m], q - p);
    found := q < m && buf[q] == '\n';
  }

  /** One round: look at the complete lines in the first `m` characters and move the rest, which has no
      newline before a NUL, to the front. `rest` is the input not read yet. */
  method Round(re: string, buf: array<char>, m: nat, ghost rest: string) returns (out: string, left: nat)
    requires buf.Length == BUFSIZE && m < BUFSIZE
    modifies buf
    ensures left <= m && NoLine(buf[..left])
    ensures Output(re, old(buf[..m]) + rest) == out + Output(re, buf[..left] + rest)
  {
    hide Output, Found, NoLine;
    ghost var all := buf[..m] + rest;
    var p := 0;
    out := "";
    var found, q := FindNewline(buf, p, m);
    while found
      invariant p <= q <= m && buf[..] == old(buf[..]) && forall k | p <= k < q :: !Ends(buf[k])
      invariant if found then q < m && buf[q] == '\n' else NoLine(buf[p..m])
      invariant Output(re, all) == out + Output(re, all[p..])
      decreases m - p, found
    {
      ghost var s := all[p..];
      OutputLine(re, s, q - p);
      assert buf[p..q] == s[..q - p] && buf[p..q + 1] == s[..q - p + 1] && s[q - p + 1..] == all[q + 1..];
      var yes := Match(re, buf[p..q]);
      if yes {
        out := out + buf[p..q + 1];
      }
      p := q + 1;
      found, q := FindNewline(buf, p, m);
    }
    left := m - p;
    ghost var kept := buf[p..m];
    forall k | 0 <= k < left {
      buf[k] := buf[p + k];
    }
    assert buf[..left] == kept;
    assert buf[..left] + rest == all[p..];
  }

  /** `read` puts a piece of the input into the buffer from position `m` on. */
  method Fill(buf: array<char>, m: nat, piece: string)
    requires m + |piece| <= buf.Length
    modifies buf
    ensures buf[..m + |piece|] == old(buf[..m]) + piece
  {
    forall k | 0 <= k < |piece| {
      buf[m + k] := piece[k];
    }
  }

  lemma Cut(had: string, input: string, at: nat, n: nat)
    requires at + n <= |input|
    ensures had + input[at..] == (had + input[at..at + n]) + input[at + n..]
  {
  }

  /** `grep`: read the input piece by piece, as many characters at a time as `sizes` and the space in
      the buffer allow. However the reads cut the input up, the output is the same. */
  method Run(re: string, input: string, sizes: seq<nat>) returns (out: string)
    requires forall i | 0 <= i < |sizes| :: sizes[i] > 0
    ensures out == Output(re, input)
  {
    hide Output, NoLine;
    var buf := new char[BUFSIZE](_ => ' ');
    var m: nat, at: nat, i: nat := 0, 0, 0;
    out := "";
    assert buf[..0] + input[0..] == input;
    NoText();
    while true
      invariant m < BUFSIZE && at <= |input|
      invariant NoLine(buf[..m])
      invariant Output(re, input) == out + Output(re, buf[..m] + input[at..])
      decreases |input| - at
    {
      var n := ReadSize(BUFSIZE - m - 1, |input| - at, if i < |sizes| then sizes[i] else BUFSIZE);
      ghost var had := buf[..m];
      if n == 0 {
        assert (had + input[at..])[..m] == had;
        OutputNone(re, had + input[at..], m);
        return;
      }
      Cut(had, input, at, n);
      Fill(buf, m, input[at..at + n]);
      var more;
      more, m := Round(re, buf, m + n, input[at + n..]);
      out := out + more;
      at, i := at + n, i + 1;
    }
  }

  lemma NoText()
    ensures NoLine("")
  {
  }

  /** What `read` returns: as much as asked for, as there is, and as it likes. */
  function ReadSize(space: nat, there: nat, size: nat): nat {
    var a := if space < there then space else there;
    if a < size then a else size
  }
}
