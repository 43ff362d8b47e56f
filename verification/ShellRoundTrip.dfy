/** Printing a command tree, fully parenthesised, and parsing it again: the result is the same tree. */
module ShellRoundTrip {
  import opened Shell
  import opened ShellSyntax
  import ShellParser

  // ----- printing -----

  function Words(ws: seq<string>): string {
    if ws == [] then "" else if |ws| == 1 then ws[0] else ws[0] + " " + Words(ws[1..])
  }

  function Print(c: Cmd<string>): string
    decreases c, 0
  {
    match c
    case Exec(argv) => Words(argv)
    case Redir(d, file, kind) => Paren(d) + Sign(kind) + file
    case Pipe(l, r) => Paren(l) + "|" + Paren(r)
    case List(l, r) => Paren(l) + ";" + Paren(r)
    case Back(d) => Paren(d) + "&"
  }

  function Paren(c: Cmd<string>): string
    decreases c, 1
  {
    "(" + Print(c) + ")"
  }

  /** A string the shell takes as one word; a line ends at its first NUL. */
  predicate IsWord(w: string) {
    w != "" && forall k | 0 <= k < |w| :: IsWordChar(w[k]) && w[k] != '\0'
  }

  /** Nine words at most, and all of them words. */
  predicate Sayable(c: Cmd<string>) {
    match c
    case Exec(argv) => |argv| < MAXARGS && forall k | 0 <= k < |argv| :: IsWord(argv[k])
    case Redir(d, file, kind) => Sayable(d) && IsWord(file)
    case Pipe(l, r) => Sayable(l) && Sayable(r)
    case List(l, r) => Sayable(l) && Sayable(r)
    case Back(d) => Sayable(d)
  }

  // ----- the printing as a line -----

  function Pieces(ws: seq<string>): seq<Piece> {
    if ws == [] then [] else [W(ws[0], if |ws| == 1 then "" else " ")] + Pieces(ws[1..])
  }

  function InParens(c: Cmd<string>): Simple
    decreases c, 1
  {
    Block("", Said(c), "", [])
  }

  function Said(c: Cmd<string>): Line
    decreases c, 0
  {
    match c
    case Exec(argv) => Ends(Last(Plain(Pieces(argv))), [])
    case Redir(d, file, kind) => Ends(Last(Block("", Said(d), "", [R(kind, "", file, "")])), [])
    case Pipe(l, r) => Ends(Bar(InParens(l), "", Last(InParens(r))), [])
    case List(l, r) => Semi(Last(InParens(l)), [], "", Ends(Last(InParens(r)), []))
    case Back(d) => Ends(Last(InParens(d)), [""])
  }

  lemma {:induction false} PiecesSaid(ws: seq<string>)
    requires forall k | 0 <= k < |ws| :: IsWord(ws[k])
    ensures PiecesText(Pieces(ws)) == Words(ws) && WordsOf(Pieces(ws)) == ws && PiecesOk(Pieces(ws))
    ensures |Pieces(ws)| == |ws| && forall c :: Around(c, Pieces(ws)) == c
  {
    if ws != [] {
      PiecesSaid(ws[1..]);
      var xs := Pieces(ws);
      assert xs[1..] == Pieces(ws[1..]);
      PiecesCons(xs[0], Pieces(ws[1..]));
    }
  }

  lemma InParensIs(c: Cmd<string>, xs: seq<Piece>)
    ensures SimpleText(Block("", Said(c), "", xs)) == "(" + LineText(Said(c)) + ")" + PiecesText(xs)
    ensures LineOk(Said(c)) && PiecesOk(xs) && WordsOf(xs) == [] ==> SimpleOk(Block("", Said(c), "", xs))
  {
    hide LineText, PiecesText, LineOk, PiecesOk, WordsOf;
    var a, b := LineText(Said(c)), PiecesText(xs);
    assert "" + b == b && "" + (a + (")" + b)) == a + (")" + b);
    assert "(" + (a + (")" + b)) == "(" + a + ")" + b;
  }

  lemma NoneAfter(c: Cmd<string>)
    ensures PiecesText([]) == "" && PiecesOk([]) && WordsOf([]) == [] && Around(c, []) == c
  {
  }

  lemma OneSign(c: Cmd<string>, x: Piece)
    requires x.R? && PieceOk(x)
    ensures PiecesText([x]) == PieceText(x) && PiecesOk([x]) && WordsOf([x]) == []
    ensures Around(c, [x]) == Redir(c, x.file, x.kind)
  {
    assert [x][1..] == [];
  }

  lemma EndsIs(p: Piped)
    ensures LineText(Ends(p, [])) == PipedText(p) && LineMeans(Ends(p, [])) == PipedMeans(p)
    ensures LineOk(Ends(p, [])) <==> PipedOk(p)
  {
    hide PipedText, PipedMeans, PipedOk;
    assert PipedText(p) + "" == PipedText(p);
  }

  lemma ParenIs(c: Cmd<string>)
    requires LineText(Said(c)) == Print(c) && LineOk(Said(c))
    ensures SimpleText(InParens(c)) == Paren(c) && SimpleOk(InParens(c))
    ensures SimpleMeans(InParens(c)) == LineMeans(Said(c))
  {
    NoneAfter(LineMeans(Said(c)));
    InParensIs(c, []);
  }

  lemma ExecSaid(argv: seq<string>)
    requires Sayable(Exec(argv))
    ensures var x := Said(Exec(argv)); LineText(x) == Words(argv) && LineOk(x) && LineMeans(x) == Exec(argv)
  {
    hide Pieces, LineText, LineMeans, LineOk, PiecesText, PiecesOk, WordsOf, Around, Words;
    PiecesSaid(argv);
    EndsIs(Last(Plain(Pieces(argv))));
  }

  lemma RedirSaid(d: Cmd<string>, file: string, kind: Kind)
    requires LineText(Said(d)) == Print(d) && LineOk(Said(d)) && LineMeans(Said(d)) == d && IsWord(file)
    ensures var c := Redir(d, file, kind); LineText(Said(c)) == Print(c) && LineOk(Said(c)) && LineMeans(Said(c)) == c
  {
    var x := R(kind, "", file, "");
    assert PieceText(x) == Sign(kind) + file;
    OneSign(d, x);
    InParensIs(d, [x]);
    EndsIs(Last(Block("", Said(d), "", [x])));
    hide LineText, LineMeans, LineOk, SimpleText, SimpleOk, PiecesText, PieceText, PiecesOk, WordsOf, Around, Sign;
    assert "(" + Print(d) + ")" + (Sign(kind) + file) == Paren(d) + Sign(kind) + file;
  }

  lemma PipeSaid(l: Cmd<string>, r: Cmd<string>)
    requires SimpleText(InParens(l)) == Paren(l) && SimpleOk(InParens(l)) && SimpleMeans(InParens(l)) == l
    requires SimpleText(InParens(r)) == Paren(r) && SimpleOk(InParens(r)) && SimpleMeans(InParens(r)) == r
    ensures var c := Pipe(l, r); LineText(Said(c)) == Print(c) && LineOk(Said(c)) && LineMeans(Said(c)) == c
  {
    hide LineText, LineMeans, LineOk, SimpleText, SimpleOk, SimpleMeans, Paren, InParens;
    EndsIs(Bar(InParens(l), "", Last(InParens(r))));
    assert Paren(l) + ("|" + ("" + Paren(r))) == Paren(l) + "|" + Paren(r);
  }

  lemma ListSaid(l: Cmd<string>, r: Cmd<string>)
    requires SimpleText(InParens(l)) == Paren(l) && SimpleOk(InParens(l)) && SimpleMeans(InParens(l)) == l
    requires SimpleText(InParens(r)) == Paren(r) && SimpleOk(InParens(r)) && SimpleMeans(InParens(r)) == r
    ensures var c := List(l, r); LineText(Said(c)) == Print(c) && LineOk(Said(c)) && LineMeans(Said(c)) == c
  {
    hide SimpleText, SimpleOk, SimpleMeans, Paren, InParens;
    EndsIs(Last(InParens(r)));
    assert "" + (";" + ("" + Paren(r))) == ";" + Paren(r);
    assert Paren(l) + (";" + Paren(r)) == Paren(l) + ";" + Paren(r);
  }

  lemma BackSaid(d: Cmd<string>)
    requires SimpleText(InParens(d)) == Paren(d) && SimpleOk(InParens(d)) && SimpleMeans(InParens(d)) == d
    ensures var c := Back(d); LineText(Said(c)) == Print(c) && LineOk(Said(c)) && LineMeans(Said(c)) == c
  {
    hide SimpleText, SimpleOk, SimpleMeans, Paren, InParens;
    assert [""][1..] == [];
    assert AmpsText([""]) == "&" + ("" + AmpsText([])) == "&";
    assert Backs(d, 1) == Back(Backs(d, 0));
  }

  /** The printing is the text of a line, and the line means the command. */
  lemma {:induction false} SaidIs(c: Cmd<string>)
    requires Sayable(c)
    ensures LineText(Said(c)) == Print(c) && LineOk(Said(c)) && LineMeans(Said(c)) == c
  {
    hide LineText, LineOk, LineMeans, Said, Print, SimpleText, SimpleOk, SimpleMeans, InParens, Paren;
    match c
    case Exec(argv) =>
      ExecSaid(argv);
      PrintExec(argv);
    case Redir(d, file, kind) =>
      SaidIs(d);
      RedirSaid(d, file, kind);
    case Pipe(l, r) =>
      SaidIs(l);
      SaidIs(r);
      ParenIs(l);
      ParenIs(r);
      PipeSaid(l, r);
    case List(l, r) =>
      SaidIs(l);
      SaidIs(r);
      ParenIs(l);
      ParenIs(r);
      ListSaid(l, r);
    case Back(d) =>
      SaidIs(d);
      ParenIs(d);
      BackSaid(d);
  }

  lemma PrintExec(argv: seq<string>)
    ensures Print(Exec(argv)) == Words(argv)
  {
  }

  /** Parsing what `Print` makes of a command, up to the end of the line or a closing parenthesis,
      gives the command back. */
  lemma LineRound(s: string, i: nat, c: Cmd<string>)
    requires Sayable(c) && At(s, i, Print(c)) && Closed(s, i + |Print(c)|)
    ensures i + |Print(c)| <= |s| && Parsed(s, ParseLine(s, i), c, i + |Print(c)|)
  {
    hide Print, ParseLine, Spoken, LineText, LineOk, LineMeans, Said;
    SaidIs(c);
    LineRead(s, i, Said(c));
  }

  /** For every command tree with at most nine words to a simple command: parsing its fully
      parenthesised printing gives back the same tree. */
  lemma RoundTrip(c: Cmd<string>)
    requires Sayable(c)
    ensures var s := Print(c); Parse(s).Ok? && Spoken(s, Parse(s).value) == c
  {
    hide Print, Parse, Spoken, LineText, LineOk, LineMeans, Said;
    SaidIs(c);
    Understood(Print(c), "", Said(c));
  }

  // ----- the other way round -----

  lemma TokenIsWord(s: string, r: Range)
    requires IsToken(s, r) && forall k | 0 <= k < |s| :: s[k] != '\0'
    ensures IsWord(Text(s, r))
  {
    assert forall k | 0 <= k < r.eq - r.q :: Text(s, r)[k] == s[r.q + k];
  }

  lemma {:induction false} Says(s: string, c: Cmd<Range>)
    requires ShellParser.AllTokens(s, c) && forall k | 0 <= k < |s| :: s[k] != '\0'
    ensures Sayable(Spoken(s, c))
  {
    match c
    case Exec(argv) =>
      forall k | 0 <= k < |argv|
        ensures IsWord(Texts(s, argv)[k])
      {
        TokenIsWord(s, argv[k]);
      }
    case Redir(d, file, kind) =>
      Says(s, d);
      TokenIsWord(s, file);
    case Pipe(l, r) => Says(s, l); Says(s, r);
    case List(l, r) => Says(s, l); Says(s, r);
    case Back(d) => Says(s, d);
  }

  /** Every line the parser accepts means a tree that can be printed: the printing parses, and means the
      same tree. */
  lemma Reparses(s: string)
    requires Parse(s).Ok? && forall k | 0 <= k < |s| :: s[k] != '\0'
    ensures var c := Spoken(s, Parse(s).value);
            var s' := Print(c);
            Sayable(c) && Parse(s').Ok? && Spoken(s', Parse(s').value) == c
  {
    hide ParseLine, Print, Spoken, Sayable;
    ShellParser.LineTokens(s, 0);
    Says(s, Parse(s).value);
    RoundTrip(Spoken(s, Parse(s).value));
  }
}
