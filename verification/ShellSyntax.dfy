/** The lines the shell accepts, as their words and signs with white space between them, and the command
    each of them means. */
module ShellSyntax {
  import opened Shell

  // ----- the lines -----

  /** A word, or a redirection sign with its file, and the white space after each. */
  datatype Piece = W(word: string, gap: string) | R(kind: Kind, mid: string, file: string, gap: string)

  /** A simple command, or a line in parentheses with the redirections after it. */
  datatype Simple = Plain(pieces: seq<Piece>) | Block(first: string, line: Line, last: string, pieces: seq<Piece>)

  /** Commands joined by `|`. */
  datatype Piped = Last(s: Simple) | Bar(s: Simple, gap: string, rest: Piped)

  /** A pipeline with the `&`s after it, and what follows a `;`. */
  datatype Line = Ends(p: Piped, amps: seq<string>) | Semi(p: Piped, amps: seq<string>, gap: string, rest: Line)

  // ----- their text -----

  function Sign(k: Kind): string {
    match k
    case In => "<"
    case Out => ">"
    case Append => ">>"
  }

  function PieceText(x: Piece): string {
    match x
    case W(word, gap) => word + gap
    case R(kind, mid, file, gap) => Sign(kind) + (mid + (file + gap))
  }

  function PiecesText(xs: seq<Piece>): string {
    if xs == [] then "" else PieceText(xs[0]) + PiecesText(xs[1..])
  }

  function AmpsText(gaps: seq<string>): string {
    if gaps == [] then "" else "&" + (gaps[0] + AmpsText(gaps[1..]))
  }

  function SimpleText(x: Simple): string {
    match x
    case Plain(pieces) => PiecesText(pieces)
    case Block(first, line, last, pieces) => "(" + (first + (LineText(line) + (")" + (last + PiecesText(pieces)))))
  }

  function PipedText(x: Piped): string {
    match x
    case Last(s) => SimpleText(s)
    case Bar(s, gap, rest) => SimpleText(s) + ("|" + (gap + PipedText(rest)))
  }

  function LineText(x: Line): string {
    match x
    case Ends(p, amps) => PipedText(p) + AmpsText(amps)
    case Semi(p, amps, gap, rest) => PipedText(p) + (AmpsText(amps) + (";" + (gap + LineText(rest))))
  }

  // ----- what they mean -----

  function WordsOf(xs: seq<Piece>): seq<string> {
    if xs == [] then [] else (if xs[0].W? then [xs[0].word] else []) + WordsOf(xs[1..])
  }

  /** The command with the redirections around it, the first one innermost. */
  function Around(c: Cmd<string>, xs: seq<Piece>): Cmd<string>
    decreases |xs|
  {
    if xs == [] then c
    else if xs[0].W? then Around(c, xs[1..])
    else Around(Redir(c, xs[0].file, xs[0].kind), xs[1..])
  }

  function SimpleMeans(x: Simple): Cmd<string> {
    match x
    case Plain(pieces) => Around(Exec(WordsOf(pieces)), pieces)
    case Block(first, line, last, pieces) => Around(LineMeans(line), pieces)
  }

  function PipedMeans(x: Piped): Cmd<string> {
    match x
    case Last(s) => SimpleMeans(s)
    case Bar(s, gap, rest) => Pipe(SimpleMeans(s), PipedMeans(rest))
  }

  /** The command in the background once for every `&`. */
  function Backs(c: Cmd<string>, n: nat): Cmd<string> {
    if n == 0 then c else Back(Backs(c, n - 1))
  }

  function LineMeans(x: Line): Cmd<string> {
    match x
    case Ends(p, amps) => Backs(PipedMeans(p), |amps|)
    case Semi(p, amps, gap, rest) => List(Backs(PipedMeans(p), |amps|), LineMeans(rest))
  }

  // ----- which of them are lines -----

  predicate Gap(g: string) {
    forall k | 0 <= k < |g| :: IsSpace(g[k])
  }

  predicate AWord(w: string) {
    w != "" && forall k | 0 <= k < |w| :: IsWordChar(w[k])
  }

  predicate PieceOk(x: Piece) {
    match x
    case W(word, gap) => AWord(word) && Gap(gap)
    case R(kind, mid, file, gap) => AWord(file) && Gap(mid) && Gap(gap)
  }

  /** Words are kept apart. */
  predicate PiecesOk(xs: seq<Piece>) {
    && (forall k | 0 <= k < |xs| :: PieceOk(xs[k]))
    && forall k | 0 < k < |xs| :: xs[k].W? ==> xs[k - 1].gap != ""
  }

  predicate SimpleOk(x: Simple) {
    match x
    case Plain(pieces) => PiecesOk(pieces) && |WordsOf(pieces)| < MAXARGS
    case Block(first, line, last, pieces) =>
      Gap(first) && LineOk(line) && Gap(last) && PiecesOk(pieces) && WordsOf(pieces) == []
  }

  predicate PipedOk(x: Piped) {
    match x
    case Last(s) => SimpleOk(s)
    case Bar(s, gap, rest) => SimpleOk(s) && Gap(gap) && PipedOk(rest)
  }

  predicate GapsOk(gaps: seq<string>) {
    forall k | 0 <= k < |gaps| :: Gap(gaps[k])
  }

  predicate LineOk(x: Line) {
    match x
    case Ends(p, amps) => PipedOk(p) && GapsOk(amps)
    case Semi(p, amps, gap, rest) => PipedOk(p) && GapsOk(amps) && Gap(gap) && LineOk(rest)
  }

  // ----- reading back the words -----

  function Text(s: string, r: Range): string {
    if r.q <= r.eq <= |s| then s[r.q..r.eq] else ""
  }

  function Texts(s: string, rs: seq<Range>): (ws: seq<string>)
    ensures |ws| == |rs|
  {
    seq(|rs|, (k: nat) requires k < |rs| => Text(s, rs[k]))
  }

  function Spoken(s: string, c: Cmd<Range>): Cmd<string> {
    match c
    case Exec(argv) => Exec(Texts(s, argv))
    case Redir(d, file, kind) => Redir(Spoken(s, d), Text(s, file), kind)
    case Pipe(l, r) => Pipe(Spoken(s, l), Spoken(s, r))
    case List(l, r) => List(Spoken(s, l), Spoken(s, r))
    case Back(d) => Back(Spoken(s, d))
  }

  // ----- positions -----

  /** The text `t` stands at position `i`. */
  predicate At(s: string, i: nat, t: string) {
    i + |t| <= |s| && s[i..i + |t|] == t
  }

  lemma AtSplit(s: string, i: nat, t: string, u: string)
    requires At(s, i, t + u)
    ensures At(s, i, t) && At(s, i + |t|, u)
  {
    var x := s[i..i + |t + u|];
    assert x[..|t|] == t && x[|t|..] == u;
    assert s[i..i + |t|] == x[..|t|];
    assert s[i + |t|..i + |t| + |u|] == x[|t|..];
  }

  lemma AtChar(s: string, i: nat, t: string, k: nat)
    requires At(s, i, t) && k < |t|
    ensures s[i + k] == t[k]
  {
    assert s[i..i + |t|][k] == s[i + k];
  }

  /** The end of the line, or a closing parenthesis. */
  predicate Closed(s: string, e: nat) {
    e == |s| || (e < |s| && s[e] == ')')
  }

  /** Nothing to skip at a position that holds no white space. */
  lemma NoSkip(s: string, i: nat)
    requires i <= |s| && (i < |s| ==> !IsSpace(s[i]))
    ensures Skip(s, i) == i
  {
  }

  lemma {:induction false} WordEndAt(s: string, i: nat, w: string)
    requires At(s, i, w) && (forall k | 0 <= k < |w| :: IsWordChar(w[k])) && (i + |w| < |s| ==> !IsWordChar(s[i + |w|]))
    ensures WordEnd(s, i) == i + |w|
    decreases |w|
  {
    if w != "" {
      AtChar(s, i, w, 0);
      assert w == w[..1] + w[1..];
      AtSplit(s, i, w[..1], w[1..]);
      WordEndAt(s, i + 1, w[1..]);
    }
  }

  lemma AtBound(s: string, i: nat, t: string)
    requires At(s, i, t)
    ensures i + |t| <= |s|
  {
  }

  // ----- white space and tokens -----

  /** White space is skipped up to what follows it. */
  lemma {:induction false} SkipGap(s: string, i: nat, g: string)
    requires Gap(g) && At(s, i, g) && (i + |g| < |s| ==> !IsSpace(s[i + |g|]))
    ensures Skip(s, i) == i + |g|
    decreases |g|
  {
    if g != "" {
      AtChar(s, i, g, 0);
      assert g == g[..1] + g[1..];
      AtSplit(s, i, g[..1], g[1..]);
      SkipGap(s, i + 1, g[1..]);
    }
  }

  /** A word with white space after it is one token, if what follows does not go on with the word. */
  lemma WordAt(s: string, i: nat, w: string, g: string)
    requires AWord(w) && Gap(g) && At(s, i, w + g)
    requires i + |w + g| < |s| ==> !IsSpace(s[i + |w + g|]) && (g == "" ==> !IsWordChar(s[i + |w + g|]))
    ensures NextToken(s, i) == Got(Word, Range(i, i + |w|), i + |w + g|) && Text(s, Range(i, i + |w|)) == w
    ensures i < |s| && IsWordChar(s[i]) && Skip(s, i) == i
  {
    AtSplit(s, i, w, g);
    AtChar(s, i, w, 0);
    if g != "" {
      AtChar(s, i + |w|, g, 0);
    }
    hide At;
    WordEndAt(s, i, w);
    hide WordEnd;
    SkipGap(s, i + |w|, g);
    NoSkip(s, i);
    hide Skip, Gap;
    TextAt(s, i, w);
  }

  lemma TextAt(s: string, i: nat, w: string)
    requires At(s, i, w)
    ensures i + |w| <= |s| && Text(s, Range(i, i + |w|)) == w
  {
  }

  /** A sign is one token. */
  lemma SignAt(s: string, i: nat, k: Kind, g: string)
    requires Gap(g) && At(s, i, Sign(k) + g)
    requires i + |Sign(k) + g| < |s| ==> !IsSpace(s[i + |Sign(k) + g|]) && s[i + |Sign(k) + g|] != '>'
    ensures var t := NextToken(s, i); t.tok != End && t.next == i + |Sign(k) + g| && KindOf(t.tok) == k
    ensures i < |s| && Skip(s, i) == i && (Sees(s, i, '<') || Sees(s, i, '>'))
  {
    AtSplit(s, i, Sign(k), g);
    AtChar(s, i, Sign(k), 0);
    if k == Append {
      AtChar(s, i, Sign(k), 1);
    }
    if g != "" {
      AtChar(s, i + |Sign(k)|, g, 0);
    }
    hide At;
    NoSkip(s, i);
    SkipGap(s, i + |Sign(k)|, g);
    hide Skip, WordEnd;
  }

  // ----- words and redirections -----

  lemma NoRedirs(s: string, i: nat, wraps: seq<Wrap>)
    requires i <= |s| && !Sees(s, i, '<') && !Sees(s, i, '>')
    ensures Redirs(s, i, wraps) == Ok(wraps, Skip(s, i))
  {
  }

  /** The redirections at `i`, and then the words and redirections that follow. */
  function Rest(s: string, i: nat, argv: seq<Range>, wraps: seq<Wrap>): Result<Cmd<Range>>
    requires i <= |s|
  {
    var w := Redirs(s, i, wraps);
    if w.Fail? then Fail(w.panic) else Args(s, w.pos, argv, w.value)
  }

  /** Where a simple command ends. */
  predicate Stop(s: string, e: nat) {
    e == |s| || (e < |s| && (s[e] == '|' || s[e] == ')' || s[e] == '&' || s[e] == ';'))
  }

  lemma RestStops(s: string, e: nat, argv: seq<Range>, wraps: seq<Wrap>)
    requires Stop(s, e)
    ensures Rest(s, e, argv, wraps) == Ok(Wrapped(Exec(argv), wraps), e) && Redirs(s, e, wraps) == Ok(wraps, e)
  {
    NoSkip(s, e);
  }

  /** What follows a piece does not go on with it. */
  predicate Apart(s: string, x: Piece, e: nat) {
    e < |s| ==> !IsSpace(s[e]) && (x.gap == "" ==> !IsWordChar(s[e]))
  }

  lemma RestWord(s: string, i: nat, x: Piece, argv: seq<Range>, wraps: seq<Wrap>)
    requires x.W? && PieceOk(x) && At(s, i, PieceText(x)) && Apart(s, x, i + |PieceText(x)|) && |argv| + 1 < MAXARGS
    ensures var r := Range(i, i + |x.word|);
            Text(s, r) == x.word && Rest(s, i, argv, wraps) == Rest(s, i + |PieceText(x)|, argv + [r], wraps)
  {
    hide Redirs, Args, NextToken, Skip, At, IsWordChar, IsSpace, Gap;
    WordAt(s, i, x.word, x.gap);
    NotSeenWord(s, i);
    NoRedirs(s, i, wraps);
    ArgsUnfold(s, i, NextToken(s, i), argv, wraps);
  }

  /** A word is neither a redirection nor the end of a command. */
  lemma NotSeenWord(s: string, i: nat)
    requires i < |s| && IsWordChar(s[i])
    ensures Skip(s, i) == i && !Sees(s, i, '<') && !Sees(s, i, '>') && !Stops(s, i)
  {
  }

  lemma ArgsUnfold(s: string, i: nat, g: Got, argv: seq<Range>, wraps: seq<Wrap>)
    requires i <= |s| && Skip(s, i) == i && !Stops(s, i) && g == NextToken(s, i) && g.tok == Word
    requires |argv| + 1 < MAXARGS
    ensures Args(s, i, argv, wraps) == Rest(s, g.next, argv + [g.at], wraps)
  {
    hide Redirs, NextToken, Skip, Stops;
  }

  lemma RedirsUnfold(s: string, i: nat, t: Got, f: Got, wraps: seq<Wrap>)
    requires i <= |s| && Skip(s, i) == i && (Sees(s, i, '<') || Sees(s, i, '>')) && t == NextToken(s, i)
    requires f == NextToken(s, t.next) && f.tok == Word
    ensures Redirs(s, i, wraps) == Redirs(s, f.next, wraps + [Wrap(f.at, KindOf(t.tok))])
  {
    hide NextToken, Skip, Sees;
  }

  lemma RedirsMore(s: string, i: nat, x: Piece, wraps: seq<Wrap>) returns (f: Range)
    requires x.R? && PieceOk(x) && At(s, i, PieceText(x)) && Apart(s, x, i + |PieceText(x)|)
    ensures Text(s, f) == x.file && Redirs(s, i, wraps) == Redirs(s, i + |PieceText(x)|, wraps + [Wrap(f, x.kind)])
  {
    hide Redirs, NextToken, Skip, Sees, Text, Gap, AWord, IsWordChar, IsSpace, PieceText, Sign, At;
    var sign, tail := Sign(x.kind) + x.mid, x.file + x.gap;
    SignThenFile(x);
    AtSplit(s, i, sign, tail);
    FileFirst(s, i + |sign|, x.file, tail);
    SignAt(s, i, x.kind, x.mid);
    WordAt(s, i + |sign|, x.file, x.gap);
    f := Range(i + |sign|, i + |sign| + |x.file|);
    RedirsUnfold(s, i, NextToken(s, i), NextToken(s, i + |sign|), wraps);
  }

  lemma SignThenFile(x: Piece)
    requires x.R?
    ensures PieceText(x) == (Sign(x.kind) + x.mid) + (x.file + x.gap)
  {
    hide Sign;
  }

  lemma FileFirst(s: string, i: nat, w: string, t: string)
    requires AWord(w) && w <= t && At(s, i, t)
    ensures i < |s| && !IsSpace(s[i]) && s[i] != '>'
  {
    AtChar(s, i, t, 0);
  }

  /** What stands after the first piece does not go on with it. */
  lemma FirstApart(s: string, i: nat, xs: seq<Piece>)
    requires xs != [] && PiecesOk(xs) && At(s, i, PiecesText(xs)) && Stop(s, i + |PiecesText(xs)|)
    ensures var j := i + |PieceText(xs[0])|;
            && At(s, i, PieceText(xs[0])) && Apart(s, xs[0], j) && At(s, j, PiecesText(xs[1..])) && PiecesOk(xs[1..])
            && j + |PiecesText(xs[1..])| == i + |PiecesText(xs)|
  {
    hide PiecesText, PieceText, PiecesOk, PieceOk, IsWordChar, IsSpace, At, Stop;
    var j := i + |PieceText(xs[0])|;
    var tail := PiecesText(xs[1..]);
    TextUnfold(xs);
    AtSplit(s, i, PieceText(xs[0]), tail);
    TailOk(xs);
    if |xs| == 1 {
      StopChar(s, j);
    } else {
      FirstChars(xs[1]);
      TextUnfold(xs[1..]);
      AtChar(s, j, tail, 0);
    }
  }

  lemma TextUnfold(xs: seq<Piece>)
    requires xs != []
    ensures PiecesText(xs) == PieceText(xs[0]) + PiecesText(xs[1..]) && (|xs| == 1 ==> PiecesText(xs[1..]) == "")
  {
    hide PieceText;
  }

  lemma TailOk(xs: seq<Piece>)
    requires xs != [] && PiecesOk(xs)
    ensures PieceOk(xs[0]) && PiecesOk(xs[1..]) && (|xs| > 1 ==> PieceOk(xs[1]) && (xs[1].W? ==> xs[0].gap != ""))
  {
    hide PieceOk;
    assert |xs| > 1 && xs[1].W? ==> xs[1 - 1].gap != "";
  }

  lemma StopChar(s: string, e: nat)
    requires Stop(s, e)
    ensures e < |s| ==> !IsSpace(s[e]) && !IsWordChar(s[e])
  {
  }

  lemma FirstChars(x: Piece)
    requires PieceOk(x)
    ensures PieceText(x) != "" && !IsSpace(PieceText(x)[0]) && (x.R? ==> !IsWordChar(PieceText(x)[0]))
  {
    if x.W? {
      assert PieceText(x)[0] == x.word[0];
    } else {
      assert PieceText(x)[0] == Sign(x.kind)[0];
    }
  }

  lemma Unfold(xs: seq<Piece>, c: Cmd<string>)
    ensures xs == [] ==> WordsOf(xs) == [] && Around(c, xs) == c && PiecesText(xs) == ""
    ensures xs != [] && xs[0].W? ==>
              WordsOf(xs) == [xs[0].word] + WordsOf(xs[1..]) && Around(c, xs) == Around(c, xs[1..])
    ensures xs != [] && xs[0].R? ==>
              WordsOf(xs) == WordsOf(xs[1..]) && Around(c, xs) == Around(Redir(c, xs[0].file, xs[0].kind), xs[1..])
  {
  }

  /** A command with the redirections around it, as strings. */
  function Clad(s: string, c: Cmd<string>, wraps: seq<Wrap>): Cmd<string>
    decreases |wraps|
  {
    if wraps == [] then c
    else
      var n := |wraps| - 1;
      Redir(Clad(s, c, wraps[..n]), Text(s, wraps[n].file), wraps[n].kind)
  }

  lemma CladMore(s: string, c: Cmd<string>, wraps: seq<Wrap>, w: Wrap)
    ensures Clad(s, c, wraps + [w]) == Redir(Clad(s, c, wraps), Text(s, w.file), w.kind)
  {
    assert (wraps + [w])[..|wraps|] == wraps;
  }

  lemma {:induction false} SpokenClad(s: string, c: Cmd<Range>, wraps: seq<Wrap>)
    ensures Spoken(s, Wrapped(c, wraps)) == Clad(s, Spoken(s, c), wraps)
    decreases |wraps|
  {
    if wraps != [] {
      SpokenClad(s, c, wraps[..|wraps| - 1]);
    }
  }

  lemma TextsMore(s: string, rs: seq<Range>, r: Range)
    ensures Texts(s, rs + [r]) == Texts(s, rs) + [Text(s, r)]
  {
  }

  /** Words and redirections, however they are mixed, are read in order. */
  lemma {:induction false} PiecesRound(s: string, i: nat, xs: seq<Piece>, argv: seq<Range>, wraps: seq<Wrap>,
                                       c: Cmd<string>)
    returns (argv': seq<Range>, wraps': seq<Wrap>)
    requires PiecesOk(xs) && At(s, i, PiecesText(xs)) && Stop(s, i + |PiecesText(xs)|)
    requires |argv| + |WordsOf(xs)| < MAXARGS
    ensures Rest(s, i, argv, wraps) == Ok(Wrapped(Exec(argv'), wraps'), i + |PiecesText(xs)|)
    ensures Texts(s, argv') == Texts(s, argv) + WordsOf(xs) && Clad(s, c, wraps') == Around(Clad(s, c, wraps), xs)
    decreases |xs|
  {
    hide Rest, Texts, Clad, At, Stop, PiecesOk, Text, Apart, WordsOf, Around, PiecesText, PieceText, PieceOk;
    Unfold(xs, Clad(s, c, wraps));
    if xs == [] {
      RestStops(s, i, argv, wraps);
      argv', wraps' := argv, wraps;
    } else {
      var j := i + |PieceText(xs[0])|;
      FirstApart(s, i, xs);
      TailOk(xs);
      if xs[0].W? {
        RestWord(s, i, xs[0], argv, wraps);
        TextsMore(s, argv, Range(i, i + |xs[0].word|));
        argv', wraps' := PiecesRound(s, j, xs[1..], argv + [Range(i, i + |xs[0].word|)], wraps, c);
      } else {
        var f := RestSign(s, i, xs[0], argv, wraps);
        CladMore(s, c, wraps, Wrap(f, xs[0].kind));
        argv', wraps' := PiecesRound(s, j, xs[1..], argv, wraps + [Wrap(f, xs[0].kind)], c);
      }
    }
  }

  lemma RestSign(s: string, i: nat, x: Piece, argv: seq<Range>, wraps: seq<Wrap>) returns (f: Range)
    requires x.R? && PieceOk(x) && At(s, i, PieceText(x)) && Apart(s, x, i + |PieceText(x)|)
    ensures Text(s, f) == x.file && i + |PieceText(x)| <= |s|
    ensures Rest(s, i, argv, wraps) == Rest(s, i + |PieceText(x)|, argv, wraps + [Wrap(f, x.kind)])
  {
    f := RedirsMore(s, i, x, wraps);
  }

  /** Redirections alone. */
  lemma {:induction false} SignsRound(s: string, i: nat, xs: seq<Piece>, wraps: seq<Wrap>, c: Cmd<string>)
    returns (wraps': seq<Wrap>)
    requires PiecesOk(xs) && WordsOf(xs) == [] && At(s, i, PiecesText(xs)) && Stop(s, i + |PiecesText(xs)|)
    ensures Redirs(s, i, wraps) == Ok(wraps', i + |PiecesText(xs)|)
    ensures Clad(s, c, wraps') == Around(Clad(s, c, wraps), xs)
    decreases |xs|
  {
    hide Redirs, Clad, At, Stop, PiecesOk, Text, Apart, WordsOf, Around, PiecesText, PieceText, PieceOk;
    Unfold(xs, Clad(s, c, wraps));
    if xs == [] {
      RestStops(s, i, [], wraps);
      wraps' := wraps;
    } else {
      var j := i + |PieceText(xs[0])|;
      FirstApart(s, i, xs);
      TailOk(xs);
      var f := RedirsMore(s, i, xs[0], wraps);
      CladMore(s, c, wraps, Wrap(f, xs[0].kind));
      wraps' := SignsRound(s, j, xs[1..], wraps + [Wrap(f, xs[0].kind)], c);
    }
  }

  // ----- one step of each parsing function -----

  lemma BlockIs(s: string, i: nat, v: Cmd<Range>, p: nat, ws: seq<Wrap>, q: nat)
    requires i < |s| && s[i] == '(' && ParseLine(s, Skip(s, i + 1)) == Ok(v, p) && p < |s| && s[p] == ')'
    requires Redirs(s, Skip(s, p + 1), []) == Ok(ws, q)
    ensures ParseExec(s, i) == Ok(Wrapped(v, ws), q)
  {
    hide ParseLine, Redirs, Wrapped;
    NoSkip(s, i);
    NoSkip(s, p);
    assert ParseBlock(s, i) == Ok(Wrapped(v, ws), q);
  }

  lemma PipeOne(s: string, i: nat, v: Cmd<Range>, p: nat)
    requires i <= |s| && p <= |s| && ParseExec(s, i) == Ok(v, p) && !Sees(s, p, '|')
    ensures ParsePipe(s, i) == Ok(v, Skip(s, p))
  {
    hide ParseExec, Sees;
  }

  lemma PipeTwo(s: string, i: nat, v: Cmd<Range>, p: nat, w: Cmd<Range>, q: nat)
    requires i <= |s| && p < |s| && ParseExec(s, i) == Ok(v, p) && s[p] == '|'
    requires ParsePipe(s, Skip(s, p + 1)) == Ok(w, q)
    ensures ParsePipe(s, i) == Ok(Pipe(v, w), q)
  {
    hide ParseExec;
    NoSkip(s, p);
  }

  lemma LineIs(s: string, i: nat, v: Cmd<Range>, p: nat)
    requires i <= |s| && p <= |s| && ParsePipe(s, i) == Ok(v, p)
    ensures ParseLine(s, i) == LineTail(s, p, v)
  {
    hide ParsePipe, LineTail;
  }

  lemma ClosedEnd(s: string, e: nat)
    requires Closed(s, e)
    ensures Skip(s, e) == e && (e < |s| ==> !IsWordChar(s[e]))
    ensures !Sees(s, e, '<') && !Sees(s, e, '>') && !Sees(s, e, '|') && !Sees(s, e, '&')
    ensures !Sees(s, e, ';') && !Sees(s, e, '(')
  {
  }

  lemma TailEnd(s: string, e: nat, v: Cmd<Range>)
    requires Closed(s, e)
    ensures LineTail(s, e, v) == Ok(v, e)
  {
    ClosedEnd(s, e);
  }

  lemma TailAmp(s: string, p: nat, v: Cmd<Range>)
    requires p < |s| && s[p] == '&'
    ensures LineTail(s, p, v) == LineTail(s, Skip(s, p + 1), Back(v))
  {
    NoSkip(s, p);
  }

  lemma TailSemi(s: string, p: nat, v: Cmd<Range>, w: Cmd<Range>, q: nat)
    requires p < |s| && s[p] == ';' && ParseLine(s, Skip(s, p + 1)) == Ok(w, q)
    ensures LineTail(s, p, v) == Ok(List(v, w), q)
  {
    hide ParseLine;
    NoSkip(s, p);
  }

  // ----- where the parts are -----

  /** The parts of a text, one after the other. */
  lemma AtThree(s: string, i: nat, t: string, c: string, u: string)
    requires At(s, i, t + (c + u)) && |c| == 1
    ensures var j := i + |t|;
            At(s, i, t) && j < |s| && s[j] == c[0] && At(s, j + 1, u) && j + 1 + |u| == i + |t + (c + u)|
  {
    AtSplit(s, i, t, c + u);
    AtSplit(s, i + |t|, c, u);
    AtChar(s, i + |t|, c, 0);
  }

  lemma BarParts(s: string, i: nat, x: Piped)
    requires x.Bar? && At(s, i, PipedText(x))
    ensures var j := i + |SimpleText(x.s)|;
            && At(s, i, SimpleText(x.s)) && j < |s| && s[j] == '|' && At(s, j + 1, x.gap)
            && At(s, j + 1 + |x.gap|, PipedText(x.rest))
            && j + 1 + |x.gap| + |PipedText(x.rest)| == i + |PipedText(x)|
  {
    hide SimpleText, At;
    SignParts(s, i, SimpleText(x.s), "|", x.gap, PipedText(x.rest));
  }

  /** A text, a sign, white space and another text. */
  lemma SignParts(s: string, i: nat, a: string, c: string, g: string, b: string)
    requires At(s, i, a + (c + (g + b))) && |c| == 1
    ensures var j := i + |a|;
            && At(s, i, a) && j < |s| && s[j] == c[0] && At(s, j + 1, g) && At(s, j + 1 + |g|, b)
            && j + 1 + |g| + |b| == i + |a + (c + (g + b))|
  {
    hide At;
    AtThree(s, i, a, c, g + b);
    AtSplit(s, i + |a| + 1, g, b);
  }

  lemma BlockParts(s: string, i: nat, x: Simple)
    requires x.Block? && At(s, i, SimpleText(x))
    ensures var j := i + 1 + |x.first|;
            var k := j + |LineText(x.line)|;
            && i < |s| && s[i] == '(' && At(s, i + 1, x.first) && At(s, j, LineText(x.line)) && k < |s| && s[k] == ')'
            && At(s, k + 1, x.last) && At(s, k + 1 + |x.last|, PiecesText(x.pieces))
            && k + 1 + |x.last| + |PiecesText(x.pieces)| == i + |SimpleText(x)|
  {
    hide LineText, PiecesText, At;
    BracketParts(s, i, x.first, LineText(x.line), x.last, PiecesText(x.pieces));
  }

  lemma BracketParts(s: string, i: nat, first: string, a: string, last: string, b: string)
    requires At(s, i, "(" + (first + (a + (")" + (last + b)))))
    ensures var j := i + 1 + |first|;
            var k := j + |a|;
            && i < |s| && s[i] == '(' && At(s, i + 1, first) && At(s, j, a) && k < |s| && s[k] == ')'
            && At(s, k + 1, last) && At(s, k + 1 + |last|, b)
  {
    hide At;
    var u := last + b;
    var w := a + (")" + u);
    AtChar(s, i, "(" + (first + w), 0);
    AtSplit(s, i, "(", first + w);
    AtSplit(s, i + 1, first, w);
    AtThree(s, i + 1 + |first|, a, ")", u);
    AtSplit(s, i + 1 + |first| + |a| + 1, last, b);
  }

  /** What follows the pipeline of a line. */
  function TailText(x: Line): string {
    match x
    case Ends(p, amps) => AmpsText(amps)
    case Semi(p, amps, gap, rest) => AmpsText(amps) + (";" + (gap + LineText(rest)))
  }

  lemma LineParts(s: string, i: nat, x: Line)
    requires At(s, i, LineText(x))
    ensures var j := i + |PipedText(x.p)|;
            && At(s, i, PipedText(x.p)) && At(s, j, TailText(x)) && j + |TailText(x)| == i + |LineText(x)|
  {
    assert LineText(x) == PipedText(x.p) + TailText(x);
    hide LineText, PipedText, TailText, At;
    AtSplit(s, i, PipedText(x.p), TailText(x));
  }

  lemma SemiParts(s: string, j: nat, x: Line)
    requires x.Semi? && At(s, j, TailText(x))
    ensures var k := j + |AmpsText(x.amps)|;
            && At(s, j, AmpsText(x.amps)) && k < |s| && s[k] == ';' && At(s, k + 1, x.gap)
            && At(s, k + 1 + |x.gap|, LineText(x.rest)) && k + 1 + |x.gap| + |LineText(x.rest)| == j + |TailText(x)|
  {
    hide LineText, AmpsText, At;
    SignParts(s, j, AmpsText(x.amps), ";", x.gap, LineText(x.rest));
  }

  // ----- no part starts with white space -----

  predicate Solid(s: string, i: nat) {
    i < |s| ==> !IsSpace(s[i])
  }

  lemma SimpleStart(s: string, i: nat, x: Simple)
    requires SimpleOk(x) && At(s, i, SimpleText(x)) && Stop(s, i + |SimpleText(x)|)
    ensures i <= |s| && Solid(s, i) && (x.Plain? ==> !Sees(s, i, '('))
  {
    match x
    case Plain(xs) =>
      if xs != [] {
        hide At, PieceText, PieceOk, IsWordChar, IsSpace;
        TextUnfold(xs);
        TailOk(xs);
        FirstChars(xs[0]);
        NotParen(xs[0]);
        AtChar(s, i, PiecesText(xs), 0);
        NoSkip(s, i);
      }
    case Block(first, line, last, xs) => BlockParts(s, i, x);
  }

  lemma NotParen(x: Piece)
    requires PieceOk(x)
    ensures PieceText(x) != "" && PieceText(x)[0] != '('
  {
    if x.W? {
      assert PieceText(x)[0] == x.word[0];
    } else {
      assert PieceText(x)[0] == Sign(x.kind)[0];
    }
  }

  lemma PipedStart(s: string, i: nat, x: Piped)
    requires PipedOk(x) && At(s, i, PipedText(x)) && Stop(s, i + |PipedText(x)|)
    ensures i <= |s| && Solid(s, i)
  {
    hide SimpleText, SimpleOk, At;
    if x.Bar? {
      BarParts(s, i, x);
    }
    SimpleStart(s, i, x.s);
  }

  lemma TailStart(s: string, j: nat, x: Line)
    requires At(s, j, TailText(x)) && Closed(s, j + |TailText(x)|)
    ensures j <= |s| && Stop(s, j) && (j < |s| ==> s[j] != '|')
  {
    if TailText(x) != "" {
      AtChar(s, j, TailText(x), 0);
      if x.amps != [] {
        assert TailText(x)[0] == AmpsText(x.amps)[0] == '&';
      } else {
        assert TailText(x)[0] == ';';
      }
    }
  }

  lemma LineStart(s: string, i: nat, x: Line)
    requires LineOk(x) && At(s, i, LineText(x)) && Closed(s, i + |LineText(x)|)
    ensures i <= |s| && Solid(s, i)
  {
    hide PipedText, PipedOk, TailText, At, LineText;
    LineParts(s, i, x);
    TailStart(s, i + |PipedText(x.p)|, x);
    PipedStart(s, i, x.p);
  }

  // ----- reading a line -----

  predicate Parsed(s: string, r: Result<Cmd<Range>>, c: Cmd<string>, pos: nat) {
    r.Ok? && r.pos == pos && Spoken(s, r.value) == c
  }

  lemma {:induction false} SimpleRound(s: string, i: nat, x: Simple)
    requires SimpleOk(x) && At(s, i, SimpleText(x)) && Stop(s, i + |SimpleText(x)|)
    ensures i + |SimpleText(x)| <= |s| && Parsed(s, ParseExec(s, i), SimpleMeans(x), i + |SimpleText(x)|)
    decreases x
  {
    hide Redirs, Args, ParseLine, Skip, Sees, Spoken, At, Gap, Rest, Wrapped, Clad, LineText, PiecesText, Stop, Around;
    SimpleStart(s, i, x);
    NoSkip(s, i);
    match x
    case Plain(xs) =>
      var argv, wraps := PiecesRound(s, i, xs, [], [], Exec(WordsOf(xs)));
      PlainIs(s, i, argv, wraps, i + |PiecesText(xs)|);
      SpokenClad(s, Exec(argv), wraps);
      SpokenExec(s, argv, WordsOf(xs));
      CladNone(s, Exec(WordsOf(xs)));
    case Block(first, line, last, xs) =>
      BlockParts(s, i, x);
      var j := i + 1 + |first|;
      var k := j + |LineText(line)|;
      LineStart(s, j, line);
      SkipGap(s, i + 1, first);
      LineRead(s, j, line);
      var v := ParseLine(s, j).value;
      var wraps := SignsRound(s, k + 1 + |last|, xs, [], Spoken(s, v));
      SignsStart(s, k + 1 + |last|, xs);
      SkipGap(s, k + 1, last);
      BlockIs(s, i, v, k, wraps, i + |SimpleText(x)|);
      SpokenClad(s, v, wraps);
      CladNone(s, Spoken(s, v));
  }

  lemma PlainIs(s: string, i: nat, argv: seq<Range>, wraps: seq<Wrap>, e: nat)
    requires i <= |s| && Skip(s, i) == i && !Sees(s, i, '(') && Rest(s, i, [], []) == Ok(Wrapped(Exec(argv), wraps), e)
    ensures ParseExec(s, i) == Ok(Wrapped(Exec(argv), wraps), e)
  {
    hide Redirs, Args, Skip, Sees;
  }

  lemma SpokenExec(s: string, argv: seq<Range>, ws: seq<string>)
    requires Texts(s, argv) == Texts(s, []) + ws
    ensures Spoken(s, Exec(argv)) == Exec(ws)
  {
    assert Texts(s, []) + ws == ws;
  }

  lemma CladNone(s: string, c: Cmd<string>)
    ensures Clad(s, c, []) == c
  {
  }

  lemma SignsStart(s: string, i: nat, xs: seq<Piece>)
    requires PiecesOk(xs) && At(s, i, PiecesText(xs)) && Stop(s, i + |PiecesText(xs)|) && |WordsOf(xs)| < MAXARGS
    ensures Solid(s, i)
  {
    SimpleStart(s, i, Plain(xs));
  }

  lemma {:induction false} PipedRead(s: string, i: nat, x: Piped)
    requires PipedOk(x) && At(s, i, PipedText(x)) && Stop(s, i + |PipedText(x)|)
    requires i + |PipedText(x)| < |s| ==> s[i + |PipedText(x)|] != '|'
    ensures i + |PipedText(x)| <= |s| && Parsed(s, ParsePipe(s, i), PipedMeans(x), i + |PipedText(x)|)
    decreases x
  {
    hide ParseExec, ParsePipe, Skip, Sees, At, Gap, SimpleText, SimpleOk, SimpleMeans;
    var e := i + |PipedText(x)|;
    match x
    case Last(y) =>
      SimpleRound(s, i, y);
      StopChar(s, e);
      NoSkip(s, e);
      NotSeen(s, e, '|');
      PipeOne(s, i, ParseExec(s, i).value, e);
    case Bar(y, gap, rest) =>
      BarParts(s, i, x);
      var j := i + |SimpleText(y)|;
      SimpleRound(s, i, y);
      PipedStart(s, j + 1 + |gap|, rest);
      SkipGap(s, j + 1, gap);
      PipedRead(s, j + 1 + |gap|, rest);
      PipeTwo(s, i, ParseExec(s, i).value, j, ParsePipe(s, j + 1 + |gap|).value, e);
  }

  lemma NotSeen(s: string, e: nat, c: char)
    requires e <= |s| && Skip(s, e) == e && (e < |s| ==> s[e] != c)
    ensures !Sees(s, e, c)
  {
  }

  function Behind(v: Cmd<Range>, n: nat): Cmd<Range> {
    if n == 0 then v else Back(Behind(v, n - 1))
  }

  lemma {:induction false} SpokenBehind(s: string, v: Cmd<Range>, n: nat)
    ensures Spoken(s, Behind(v, n)) == Backs(Spoken(s, v), n)
  {
    if n > 0 {
      SpokenBehind(s, v, n - 1);
    }
  }

  lemma {:induction false} BehindBack(v: Cmd<Range>, n: nat)
    ensures Behind(Back(v), n) == Back(Behind(v, n))
  {
    if n > 0 {
      BehindBack(v, n - 1);
    }
  }

  /** Every `&` puts what is before it in the background. */
  lemma {:induction false} AmpsRead(s: string, j: nat, gaps: seq<string>, v: Cmd<Range>)
    requires GapsOk(gaps) && At(s, j, AmpsText(gaps)) && Solid(s, j + |AmpsText(gaps)|)
    ensures j + |AmpsText(gaps)| <= |s| && LineTail(s, j, v) == LineTail(s, j + |AmpsText(gaps)|, Behind(v, |gaps|))
    decreases |gaps|
  {
    hide LineTail, At, Skip, Gap;
    AtBound(s, j, AmpsText(gaps));
    if gaps != [] {
      var tail := AmpsText(gaps[1..]);
      AtChar(s, j, AmpsText(gaps), 0);
      AtSplit(s, j, "&", gaps[0] + tail);
      AtSplit(s, j + 1, gaps[0], tail);
      AmpsStart(s, j + 1 + |gaps[0]|, gaps[1..]);
      SkipGap(s, j + 1, gaps[0]);
      TailAmp(s, j, v);
      AmpsRead(s, j + 1 + |gaps[0]|, gaps[1..], Back(v));
      BehindBack(v, |gaps| - 1);
    }
  }

  lemma AmpsStart(s: string, j: nat, gaps: seq<string>)
    requires At(s, j, AmpsText(gaps)) && Solid(s, j + |AmpsText(gaps)|)
    ensures Solid(s, j)
  {
    if gaps != [] {
      assert AmpsText(gaps)[0] == '&';
      AtChar(s, j, AmpsText(gaps), 0);
    }
  }

  /** What follows the pipeline of a line, whose command is `v`. */
  lemma {:induction false} TailRead(s: string, j: nat, x: Line, v: Cmd<Range>)
    requires LineOk(x) && At(s, j, TailText(x)) && Closed(s, j + |TailText(x)|) && Spoken(s, v) == PipedMeans(x.p)
    ensures j <= |s| && Parsed(s, LineTail(s, j, v), LineMeans(x), j + |TailText(x)|)
    decreases x, 0
  {
    hide LineTail, ParseLine, Spoken, At, Skip, Gap, PipedOk, PipedMeans, LineText, AmpsText, Behind, Backs;
    var w, e := Behind(v, |x.amps|), j + |TailText(x)|;
    SpokenBehind(s, v, |x.amps|);
    match x
    case Ends(p, amps) =>
      AmpsRead(s, j, amps, v);
      TailEnd(s, e, w);
    case Semi(p, amps, gap, rest) =>
      SemiParts(s, j, x);
      var k := j + |AmpsText(amps)|;
      AmpsRead(s, j, amps, v);
      LineStart(s, k + 1 + |gap|, rest);
      SkipGap(s, k + 1, gap);
      LineRead(s, k + 1 + |gap|, rest);
      TailSemi(s, k, w, ParseLine(s, k + 1 + |gap|).value, e);
      SpokenList(s, w, ParseLine(s, k + 1 + |gap|).value);
  }

  lemma SpokenList(s: string, v: Cmd<Range>, w: Cmd<Range>)
    ensures Spoken(s, List(v, w)) == List(Spoken(s, v), Spoken(s, w))
  {
  }

  /** Reading the text of a line, up to the end of the input or a closing parenthesis, gives what it means. */
  lemma {:induction false} LineRead(s: string, i: nat, x: Line)
    requires LineOk(x) && At(s, i, LineText(x)) && Closed(s, i + |LineText(x)|)
    ensures i + |LineText(x)| <= |s| && Parsed(s, ParseLine(s, i), LineMeans(x), i + |LineText(x)|)
    decreases x, 1
  {
    hide LineTail, ParseLine, ParsePipe, Spoken, At, PipedOk, PipedMeans, LineText, TailText, LineMeans, PipedText;
    LineParts(s, i, x);
    var j := i + |PipedText(x.p)|;
    TailStart(s, j, x);
    PipedRead(s, i, x.p);
    var v := ParsePipe(s, i).value;
    TailRead(s, j, x, v);
    LineIs(s, i, v, j);
  }

  // ----- every line that is accepted -----

  lemma AtJoin(s: string, i: nat, t: string, u: string)
    requires At(s, i, t) && At(s, i + |t|, u)
    ensures At(s, i, t + u)
  {
    assert s[i..i + |t + u|] == s[i..i + |t|] + s[i + |t|..i + |t| + |u|];
  }

  lemma AtSlice(s: string, i: nat, j: nat)
    requires i <= j <= |s|
    ensures At(s, i, s[i..j]) && |s[i..j]| == j - i
  {
  }

  lemma {:induction false} Skipped(s: string, i: nat)
    requires i <= |s|
    ensures Gap(s[i..Skip(s, i)]) && Skip(s, Skip(s, i)) == Skip(s, i)
    decreases |s| - i
  {
    if i < |s| && IsSpace(s[i]) {
      Skipped(s, i + 1);
      var g := s[i..Skip(s, i)];
      assert g == [s[i]] + s[i + 1..Skip(s, i)];
    }
  }

  /** A sign or word at `i`, and the white space after it. */
  lemma TokenBack(s: string, i: nat)
    requires i <= |s| && Skip(s, i) == i && NextToken(s, i).tok != End
    ensures var g := NextToken(s, i);
            && g.at.q == i < g.at.eq <= g.next && Gap(s[g.at.eq..g.next]) && Skip(s, g.next) == g.next
            && (g.tok == Word ==> AWord(s[i..g.at.eq]) && (g.at.eq == g.next < |s| ==> !IsWordChar(s[g.next])))
  {
    Skipped(s, NextToken(s, i).at.eq);
  }

  lemma SignBack(s: string, i: nat)
    requires i <= |s| && Skip(s, i) == i && (Sees(s, i, '<') || Sees(s, i, '>'))
    ensures var g := NextToken(s, i);
            g.tok != End && g.at.eq <= |s| && s[i..g.at.eq] == Sign(KindOf(g.tok)) && g.at.q == i
  {
  }

  /** The first word or redirection at `i`, and where the next one starts. */
  lemma PieceBack(s: string, i: nat, argv: seq<Range>, wraps: seq<Wrap>)
    returns (x: Piece, argv': seq<Range>, wraps': seq<Wrap>)
    requires i <= |s| && Skip(s, i) == i && |argv| < MAXARGS && Rest(s, i, argv, wraps).Ok?
    requires Sees(s, i, '<') || Sees(s, i, '>') || (!Stops(s, i) && i < |s|)
    ensures var j := i + |PieceText(x)|;
            && PieceOk(x) && At(s, i, PieceText(x)) && i < j <= |s| && Skip(s, j) == j
            && Rest(s, i, argv, wraps) == Rest(s, j, argv', wraps')
            && (x.W? ==> |argv'| == |argv| + 1 < MAXARGS && IsWordChar(s[i])) && (x.R? ==> argv' == argv)
            && (x.gap == "" && j < |s| ==> !IsWordChar(s[j]))
  {
    hide Rest, At, PieceText, PieceOk, IsWordChar, Skip, Sees, Stops, Redirs;
    if Sees(s, i, '<') || Sees(s, i, '>') {
      RestRedirs(s, i, argv, wraps);
      x, wraps' := RedirBack(s, i, wraps);
      argv' := argv;
      RestSame(s, i, i + |PieceText(x)|, argv, wraps, wraps');
    } else {
      x, argv', wraps' := WordBack(s, i, argv, wraps);
    }
  }

  lemma RestRedirs(s: string, i: nat, argv: seq<Range>, wraps: seq<Wrap>)
    requires i <= |s| && Rest(s, i, argv, wraps).Ok?
    ensures Redirs(s, i, wraps).Ok?
  {
  }

  lemma RestSame(s: string, i: nat, j: nat, argv: seq<Range>, wraps: seq<Wrap>, wraps': seq<Wrap>)
    requires i <= |s| && j <= |s| && Redirs(s, i, wraps) == Redirs(s, j, wraps')
    ensures Rest(s, i, argv, wraps) == Rest(s, j, argv, wraps')
  {
    hide Redirs, Args;
  }

  lemma FileThere(s: string, i: nat, wraps: seq<Wrap>)
    requires i <= |s| && Skip(s, i) == i && Redirs(s, i, wraps).Ok? && (Sees(s, i, '<') || Sees(s, i, '>'))
    ensures NextToken(s, NextToken(s, i).next).tok == Word
  {
    hide NextToken, Skip, Sees;
  }

  lemma RedirBack(s: string, i: nat, wraps: seq<Wrap>) returns (x: Piece, wraps': seq<Wrap>)
    requires i <= |s| && Skip(s, i) == i && Redirs(s, i, wraps).Ok? && (Sees(s, i, '<') || Sees(s, i, '>'))
    ensures var j := i + |PieceText(x)|;
            && x.R? && PieceOk(x) && At(s, i, PieceText(x)) && i < j <= |s| && Skip(s, j) == j
            && Redirs(s, i, wraps) == Redirs(s, j, wraps') && (x.gap == "" && j < |s| ==> !IsWordChar(s[j]))
  {
    hide NextToken, Skip, Sees, Redirs, IsWordChar, Gap, At, PieceText, AWord;
    var g := NextToken(s, i);
    FileThere(s, i, wraps);
    SignBack(s, i);
    TokenBack(s, i);
    var f := NextToken(s, g.next);
    TokenBack(s, g.next);
    RedirsUnfold(s, i, g, f, wraps);
    x := R(KindOf(g.tok), s[g.at.eq..g.next], s[g.next..f.at.eq], s[f.at.eq..f.next]);
    wraps' := wraps + [Wrap(f.at, KindOf(g.tok))];
    RedirText(s, i, g.at.eq, g.next, f.at.eq, f.next, KindOf(g.tok));
  }

  lemma RedirText(s: string, i: nat, a: nat, b: nat, c: nat, d: nat, k: Kind)
    requires i <= a <= b <= c <= d <= |s| && s[i..a] == Sign(k)
    ensures var x := R(k, s[a..b], s[b..c], s[c..d]); At(s, i, PieceText(x)) && i + |PieceText(x)| == d
  {
    AtSlice(s, i, a);
    AtSlice(s, a, b);
    AtSlice(s, b, c);
    AtSlice(s, c, d);
    hide At;
    AtJoin(s, b, s[b..c], s[c..d]);
    AtJoin(s, a, s[a..b], s[b..c] + s[c..d]);
    AtJoin(s, i, s[i..a], s[a..b] + (s[b..c] + s[c..d]));
  }

  lemma WordBack(s: string, i: nat, argv: seq<Range>, wraps: seq<Wrap>)
    returns (x: Piece, argv': seq<Range>, wraps': seq<Wrap>)
    requires i < |s| && Skip(s, i) == i && |argv| < MAXARGS && Rest(s, i, argv, wraps).Ok?
    requires !Sees(s, i, '<') && !Sees(s, i, '>') && !Stops(s, i)
    ensures var j := i + |PieceText(x)|;
            && x.W? && PieceOk(x) && At(s, i, PieceText(x)) && i < j <= |s| && Skip(s, j) == j
            && Rest(s, i, argv, wraps) == Rest(s, j, argv', wraps')
            && |argv'| == |argv| + 1 < MAXARGS && IsWordChar(s[i])
            && (x.gap == "" && j < |s| ==> !IsWordChar(s[j]))
  {
    NoRedirs(s, i, wraps);
    var g := NextToken(s, i);
    assert g.tok == Word && |argv| + 1 < MAXARGS;
    TokenBack(s, i);
    hide NextToken, Skip, Sees, Redirs, Gap;
    x := W(s[i..g.at.eq], s[g.at.eq..g.next]);
    argv', wraps' := argv + [g.at], wraps;
    AtSlice(s, i, g.next);
    assert s[i..g.next] == s[i..g.at.eq] + s[g.at.eq..g.next];
    assert s[i] == s[i..g.at.eq][0];
  }

  /** The words and redirections from `i` on. */
  lemma {:induction false} PiecesBack(s: string, i: nat, argv: seq<Range>, wraps: seq<Wrap>) returns (xs: seq<Piece>)
    requires i <= |s| && Skip(s, i) == i && |argv| < MAXARGS && Rest(s, i, argv, wraps).Ok?
    ensures PiecesOk(xs) && At(s, i, PiecesText(xs)) && Rest(s, i, argv, wraps).pos == i + |PiecesText(xs)|
    ensures |argv| + |WordsOf(xs)| < MAXARGS && (xs != [] && xs[0].W? ==> i < |s| && IsWordChar(s[i]))
    decreases |s| - i
  {
    hide Rest, At, PieceText, PieceOk, PiecesText, PiecesOk, WordsOf, IsWordChar, Skip, Sees, Stops;
    if Sees(s, i, '<') || Sees(s, i, '>') || (!Stops(s, i) && i < |s|) {
      var x, argv', wraps' := PieceBack(s, i, argv, wraps);
      var j := i + |PieceText(x)|;
      var ys := PiecesBack(s, j, argv', wraps');
      xs := [x] + ys;
      assert xs[1..] == ys;
      TextUnfold(xs);
      Unfold(xs, Exec([]));
      AtJoin(s, i, PieceText(x), PiecesText(ys));
      PiecesCons(x, ys);
    } else {
      xs := [];
      RestEnds(s, i, argv, wraps);
      NoPieces();
    }
  }

  lemma NoPieces()
    ensures PiecesOk([]) && PiecesText([]) == "" && WordsOf([]) == []
  {
  }

  lemma RestEnds(s: string, i: nat, argv: seq<Range>, wraps: seq<Wrap>)
    requires i <= |s| && Skip(s, i) == i && !Sees(s, i, '<') && !Sees(s, i, '>') && (Stops(s, i) || i == |s|)
    ensures Rest(s, i, argv, wraps).Ok? ==> Rest(s, i, argv, wraps).pos == i
    ensures At(s, i, "")
  {
    NoRedirs(s, i, wraps);
  }

  lemma PiecesCons(x: Piece, ys: seq<Piece>)
    requires PieceOk(x) && PiecesOk(ys) && (ys != [] && ys[0].W? ==> x.gap != "")
    ensures PiecesOk([x] + ys)
  {
    hide PieceOk;
    var xs := [x] + ys;
    forall k | 0 < k < |xs| && xs[k].W?
      ensures xs[k - 1].gap != ""
    {
      if k > 1 {
        assert ys[k - 1].W? && ys[k - 1 - 1].gap != "";
      }
    }
  }

  /** The redirections from `i` on. */
  lemma {:induction false} SignsBack(s: string, i: nat, wraps: seq<Wrap>) returns (xs: seq<Piece>)
    requires i <= |s| && Skip(s, i) == i && Redirs(s, i, wraps).Ok?
    ensures PiecesOk(xs) && WordsOf(xs) == [] && At(s, i, PiecesText(xs))
    ensures Redirs(s, i, wraps).pos == i + |PiecesText(xs)| && (xs != [] ==> xs[0].R?)
    decreases |s| - i
  {
    hide At, PieceText, PieceOk, PiecesText, PiecesOk, WordsOf, IsWordChar, Skip, Sees, Redirs;
    if Sees(s, i, '<') || Sees(s, i, '>') {
      var x, wraps' := RedirBack(s, i, wraps);
      var j := i + |PieceText(x)|;
      var ys := SignsBack(s, j, wraps');
      xs := [x] + ys;
      assert xs[1..] == ys;
      TextUnfold(xs);
      Unfold(xs, Exec([]));
      AtJoin(s, i, PieceText(x), PiecesText(ys));
      PiecesCons(x, ys);
    } else {
      xs := [];
      NoRedirs(s, i, wraps);
      NoPieces();
      AtSlice(s, i, i);
      assert s[i..i] == "";
    }
  }

  /** What the parts of a block in parentheses are. */
  lemma BlockOk(s: string, i: nat)
    requires i <= |s| && Skip(s, i) == i && Sees(s, i, '(') && ParseExec(s, i).Ok?
    ensures i < |s| && s[i] == '('
    ensures var l := ParseLine(s, Skip(s, i + 1));
            && l.Ok? && Sees(s, l.pos, ')') && Skip(s, l.pos) < |s|
            && Redirs(s, Skip(s, Skip(s, l.pos) + 1), []).Ok?
            && ParseExec(s, i).pos == Redirs(s, Skip(s, Skip(s, l.pos) + 1), []).pos
  {
    hide ParseLine, Redirs, Wrapped;
  }

  lemma {:induction false} SimpleBack(s: string, i: nat) returns (x: Simple)
    requires i <= |s| && Skip(s, i) == i && ParseExec(s, i).Ok?
    ensures SimpleOk(x) && At(s, i, SimpleText(x)) && ParseExec(s, i).pos == i + |SimpleText(x)|
    decreases |s| - i, 1
  {
    hide At, PiecesText, PiecesOk, WordsOf, Skip, Sees, Redirs, ParseExec, ParseLine, Rest, LineText, LineOk, Gap;
    if Sees(s, i, '(') {
      BlockOk(s, i);
      var j := Skip(s, i + 1);
      Skipped(s, i + 1);
      var l := ParseLine(s, j);
      var k := l.pos;
      LineEnds(s, j);
      ParenSeen(s, k);
      var line := LineBack(s, j);
      var m := Skip(s, k + 1);
      Skipped(s, k + 1);
      var xs := SignsBack(s, m, []);
      x := Block(s[i + 1..j], line, s[k + 1..m], xs);
      BracketBack(s, i, j, k, m, LineText(line), PiecesText(xs));
    } else {
      PlainOk(s, i);
      var xs := PiecesBack(s, i, [], []);
      x := Plain(xs);
    }
  }

  lemma PlainOk(s: string, i: nat)
    requires i <= |s| && Skip(s, i) == i && !Sees(s, i, '(') && ParseExec(s, i).Ok?
    ensures Rest(s, i, [], []) == ParseExec(s, i)
  {
    hide Skip, Sees, Redirs, Args;
  }

  lemma ParenSeen(s: string, k: nat)
    requires k <= |s| && Sees(s, k, ')') && Skip(s, k) == k
    ensures k < |s| && s[k] == ')' && Closed(s, k)
  {
  }

  lemma BracketBack(s: string, i: nat, j: nat, k: nat, m: nat, a: string, b: string)
    requires i < j <= k < m <= |s| && s[i] == '(' && s[k] == ')' && At(s, j, a) && j + |a| == k && At(s, m, b)
    ensures var t := "(" + (s[i + 1..j] + (a + (")" + (s[k + 1..m] + b)))); At(s, i, t) && i + |t| == m + |b|
  {
    hide At;
    JoinThree(s, j, a, ")", k, m, b);
    var w := a + (")" + (s[k + 1..m] + b));
    OneChar(s, i, "(");
    AtSlice(s, i + 1, j);
    AtJoin(s, i + 1, s[i + 1..j], w);
    AtJoin(s, i, "(", s[i + 1..j] + w);
  }

  lemma OneChar(s: string, i: nat, c: string)
    requires i < |s| && |c| == 1 && s[i] == c[0]
    ensures At(s, i, c)
  {
    assert s[i..i + 1] == c;
  }

  /** A position that parsing ends at is not white space. */
  lemma LineEnds(s: string, i: nat)
    requires i <= |s| && ParseLine(s, i).Ok?
    ensures Skip(s, ParseLine(s, i).pos) == ParseLine(s, i).pos
    decreases |s| - i, 4
  {
    hide ParsePipe;
    TailEnds(s, ParsePipe(s, i).pos, ParsePipe(s, i).value);
  }

  lemma {:induction false} TailEnds(s: string, j: nat, v: Cmd<Range>)
    requires j <= |s| && LineTail(s, j, v).Ok?
    ensures Skip(s, LineTail(s, j, v).pos) == LineTail(s, j, v).pos
    decreases |s| - j, 3
  {
    hide ParseLine;
    Skipped(s, j);
    if Sees(s, j, '&') {
      TailEnds(s, Skip(s, Skip(s, j) + 1), Back(v));
    } else if Sees(s, j, ';') {
      LineEnds(s, Skip(s, Skip(s, j) + 1));
    }
  }

  lemma {:induction false} PipedBack(s: string, i: nat) returns (x: Piped)
    requires i <= |s| && Skip(s, i) == i && ParsePipe(s, i).Ok? && Stop(s, ParsePipe(s, i).pos)
    ensures PipedOk(x) && At(s, i, PipedText(x)) && ParsePipe(s, i).pos == i + |PipedText(x)|
    decreases |s| - i, 2
  {
    hide At, Skip, Sees, ParseExec, SimpleText, SimpleOk, Gap;
    var l := ParseExec(s, i);
    var y := SimpleBack(s, i);
    ExecEnds(s, i);
    if Sees(s, l.pos, '|') {
      var j := l.pos;
      BarSeen(s, j);
      var k := Skip(s, j + 1);
      Skipped(s, j + 1);
      var rest := PipedBack(s, k);
      x := Bar(y, s[j + 1..k], rest);
      JoinThree(s, i, SimpleText(y), "|", j, k, PipedText(rest));
    } else {
      x := Last(y);
    }
  }

  lemma BarSeen(s: string, j: nat)
    requires j <= |s| && Sees(s, j, '|') && Skip(s, j) == j
    ensures j < |s| && s[j] == '|'
  {
  }

  /** A text, a sign at `j`, white space up to `k`, and another text. */
  lemma JoinThree(s: string, i: nat, t: string, c: string, j: nat, k: nat, u: string)
    requires At(s, i, t) && i + |t| == j < k <= |s| && |c| == 1 && s[j] == c[0] && At(s, k, u)
    ensures var x := t + (c + (s[j + 1..k] + u)); At(s, i, x) && i + |x| == k + |u|
  {
    hide At;
    OneChar(s, j, c);
    AtSlice(s, j + 1, k);
    var w := s[j + 1..k] + u;
    AtJoin(s, j + 1, s[j + 1..k], u);
    AtJoin(s, j, c, w);
    AtJoin(s, i, t, c + w);
  }

  lemma ExecEnds(s: string, i: nat)
    requires i <= |s| && ParseExec(s, i).Ok?
    ensures Skip(s, ParseExec(s, i).pos) == ParseExec(s, i).pos
  {
    hide ParseLine;
    if Sees(s, i, '(') {
      var l := ParseLine(s, Skip(s, Skip(s, i) + 1));
      RedirsEnd(s, Skip(s, Skip(s, l.pos) + 1), []);
    } else {
      var w := Redirs(s, Skip(s, i), []);
      ArgsEnd(s, w.pos, [], w.value);
    }
  }

  lemma {:induction false} RedirsEnd(s: string, i: nat, wraps: seq<Wrap>)
    requires i <= |s| && Redirs(s, i, wraps).Ok?
    ensures Skip(s, Redirs(s, i, wraps).pos) == Redirs(s, i, wraps).pos
    decreases |s| - i
  {
    Skipped(s, i);
    if Sees(s, i, '<') || Sees(s, i, '>') {
      var g := NextToken(s, Skip(s, i));
      var f := NextToken(s, g.next);
      RedirsEnd(s, f.next, wraps + [Wrap(f.at, KindOf(g.tok))]);
    }
  }

  lemma {:induction false} ArgsEnd(s: string, i: nat, argv: seq<Range>, wraps: seq<Wrap>)
    requires i <= |s| && Args(s, i, argv, wraps).Ok?
    ensures Skip(s, Args(s, i, argv, wraps).pos) == Args(s, i, argv, wraps).pos
    decreases |s| - i
  {
    Skipped(s, i);
    if !Stops(s, i) {
      var g := NextToken(s, Skip(s, i));
      if g.tok == Word {
        var w := Redirs(s, g.next, wraps);
        ArgsEnd(s, w.pos, argv + [g.at], w.value);
      }
    }
  }

  /** What follows the pipeline `p`. */
  lemma {:induction false} TailBack(s: string, j: nat, v: Cmd<Range>, p: Piped) returns (x: Line)
    requires j <= |s| && Skip(s, j) == j && LineTail(s, j, v).Ok? && Closed(s, LineTail(s, j, v).pos) && PipedOk(p)
    ensures x.p == p && LineOk(x) && At(s, j, TailText(x)) && LineTail(s, j, v).pos == j + |TailText(x)|
    ensures Stop(s, j) && (j < |s| ==> s[j] != '|')
    decreases |s| - j, 3
  {
    hide At, Skip, ParseLine, Gap, PipedOk, LineText;
    if j < |s| && s[j] == '&' {
      TailAmp(s, j, v);
      var k := Skip(s, j + 1);
      Skipped(s, j + 1);
      var y := TailBack(s, k, Back(v), p);
      x := y.(amps := [s[j + 1..k]] + y.amps);
      AmpBack(s, j, k, y, x);
    } else if j < |s| && s[j] == ';' {
      SemiSeen(s, j, v);
      var k := Skip(s, j + 1);
      Skipped(s, j + 1);
      var rest := LineBack(s, k);
      x := Semi(p, [], s[j + 1..k], rest);
      AtSlice(s, j, j);
      assert s[j..j] == "";
      JoinThree(s, j, "", ";", j, k, LineText(rest));
    } else {
      TailStops(s, j, v);
      x := Ends(p, []);
      AtSlice(s, j, j);
      assert s[j..j] == "";
    }
  }

  lemma AmpBack(s: string, j: nat, k: nat, y: Line, x: Line)
    requires j < k <= |s| && s[j] == '&' && At(s, k, TailText(y)) && LineOk(y) && Gap(s[j + 1..k])
    requires x == y.(amps := [s[j + 1..k]] + y.amps)
    ensures At(s, j, TailText(x)) && j + |TailText(x)| == k + |TailText(y)| && LineOk(x)
  {
    hide LineText, PipedOk, Gap, At;
    var g := s[j + 1..k];
    assert x.amps[1..] == y.amps;
    AmpText(x, y, g);
    AtSlice(s, j, j);
    assert s[j..j] == "";
    JoinThree(s, j, "", "&", j, k, TailText(y));
  }

  lemma AmpText(x: Line, y: Line, g: string)
    requires x == y.(amps := [g] + y.amps)
    ensures TailText(x) == "" + ("&" + (g + TailText(y)))
  {
    hide LineText;
    assert x.amps[1..] == y.amps;
    assert AmpsText(x.amps) == "&" + (g + AmpsText(y.amps));
    if x.Semi? {
      var more := ";" + (x.gap + LineText(x.rest));
      assert TailText(x) == "&" + (g + AmpsText(y.amps)) + more;
      assert "&" + (g + AmpsText(y.amps)) + more == "&" + (g + (AmpsText(y.amps) + more));
    }
  }

  lemma SemiSeen(s: string, j: nat, v: Cmd<Range>)
    requires j < |s| && s[j] == ';' && LineTail(s, j, v).Ok?
    ensures ParseLine(s, Skip(s, j + 1)).Ok? && LineTail(s, j, v).pos == ParseLine(s, Skip(s, j + 1)).pos
  {
    hide ParseLine;
    NoSkip(s, j);
  }

  lemma TailStops(s: string, j: nat, v: Cmd<Range>)
    requires j <= |s| && Skip(s, j) == j && (j < |s| ==> s[j] != '&' && s[j] != ';')
    ensures LineTail(s, j, v) == Ok(v, j)
  {
  }

  lemma {:induction false} LineBack(s: string, i: nat) returns (x: Line)
    requires i <= |s| && Skip(s, i) == i && ParseLine(s, i).Ok? && Closed(s, ParseLine(s, i).pos)
    ensures LineOk(x) && At(s, i, LineText(x)) && ParseLine(s, i).pos == i + |LineText(x)|
    decreases |s| - i, 4
  {
    hide At, Skip, ParsePipe, LineTail, PipedText, PipedOk, TailText;
    var l := ParsePipe(s, i);
    PipeEnds(s, i);
    TailStop(s, l.pos, l.value);
    var p := PipedBack(s, i);
    x := TailBack(s, l.pos, l.value, p);
    AtJoin(s, i, PipedText(p), TailText(x));
    LineIsParts(x);
  }

  lemma LineIsParts(x: Line)
    ensures LineText(x) == PipedText(x.p) + TailText(x)
  {
  }

  lemma PipeEnds(s: string, i: nat)
    requires i <= |s| && ParsePipe(s, i).Ok?
    ensures Skip(s, ParsePipe(s, i).pos) == ParsePipe(s, i).pos
    decreases |s| - i
  {
    hide ParseExec;
    var l := ParseExec(s, i);
    Skipped(s, l.pos);
    if Sees(s, l.pos, '|') {
      PipeEnds(s, Skip(s, Skip(s, l.pos) + 1));
    }
  }

  lemma TailStop(s: string, j: nat, v: Cmd<Range>)
    requires j <= |s| && Skip(s, j) == j && LineTail(s, j, v).Ok? && Closed(s, LineTail(s, j, v).pos)
    ensures Stop(s, j)
  {
    if j < |s| && s[j] != '&' && s[j] != ';' {
      TailStops(s, j, v);
    }
  }

  // ----- the lines and what they mean -----

  /** `s` is the text of line `x`, after white space. */
  predicate Reads(s: string, g: string, x: Line) {
    Gap(g) && LineOk(x) && s == g + LineText(x)
  }

  lemma FromStart(s: string, i: nat)
    requires i <= |s|
    ensures ParseLine(s, i) == ParseLine(s, Skip(s, i))
  {
    Skipped(s, i);
    assert forall c :: Sees(s, i, c) == Sees(s, Skip(s, i), c);
    assert ParseExec(s, i) == ParseExec(s, Skip(s, i));
  }

  /** Every line, however its words and signs are spaced, is parsed to the command it means. */
  lemma Understood(s: string, g: string, x: Line)
    requires Reads(s, g, x)
    ensures Parsed(s, Parse(s), LineMeans(x), |s|)
  {
    hide ParseLine, LineText, LineOk, LineMeans, Spoken, Gap;
    WholeText(s, g, LineText(x));
    LineStart(s, |g|, x);
    SkipGap(s, 0, g);
    FromStart(s, 0);
    LineRead(s, |g|, x);
    NoSkip(s, |s|);
  }

  lemma WholeText(s: string, g: string, t: string)
    requires s == g + t
    ensures At(s, 0, g) && At(s, |g|, t) && Closed(s, |g| + |t|)
  {
  }

  /** And every line that is accepted is one of those. */
  lemma Accepted(s: string) returns (g: string, x: Line)
    requires Parse(s).Ok?
    ensures Reads(s, g, x)
  {
    hide ParseLine, LineText, LineOk, Gap;
    var i := Skip(s, 0);
    Skipped(s, 0);
    FromStart(s, 0);
    LineEnds(s, 0);
    g := s[..i];
    assert s[0..i] == g;
    x := LineBack(s, i);
    assert s == s[..i] + s[i..];
  }

  /** A line is parsed to a command exactly when that is what it means. */
  lemma ParseExact(s: string, c: Cmd<string>)
    ensures Parsed(s, Parse(s), c, |s|) <==> exists g, x :: Reads(s, g, x) && LineMeans(x) == c
  {
    hide Parse, Reads, LineMeans, Spoken;
    if Parsed(s, Parse(s), c, |s|) {
      var g, x := Accepted(s);
      Understood(s, g, x);
    }
    forall g, x | Reads(s, g, x)
      ensures Parsed(s, Parse(s), LineMeans(x), |s|)
    {
      Understood(s, g, x);
    }
  }
}
