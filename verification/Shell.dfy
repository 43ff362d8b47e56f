/** The shell's command grammar, as functions from a line and a position to a command tree. */
module Shell {
  const MAXARGS: nat := 10

  /** The characters of a token in the input line: from `q` up to, not including, `eq`. */
  datatype Range = Range(q: nat, eq: nat)

  /** `<`, `>` and `>>`. */
  datatype Kind = In | Out | Append

  /** A command tree; its words are ranges of the line, or strings. */
  datatype Cmd<T> =
    | Exec(argv: seq<T>)
    | Redir(cmd: Cmd<T>, file: T, kind: Kind)
    | Pipe(left: Cmd<T>, right: Cmd<T>)
    | List(left: Cmd<T>, right: Cmd<T>)
    | Back(cmd: Cmd<T>)

  datatype Panic = MissingFile | MissingParen | Syntax | TooManyArgs | Leftovers

  datatype Result<T> = Fail(panic: Panic) | Ok(value: T, pos: nat)

  // ----- characters and tokens -----

  predicate IsSpace(c: char) {
    c == ' ' || c == '\t' || c == '\r' || c == '\n' || c == '\U{0B}'
  }

  predicate IsSymbol(c: char) {
    c == '<' || c == '|' || c == '>' || c == '&' || c == ';' || c == '(' || c == ')'
  }

  predicate IsWordChar(c: char) {
    !IsSpace(c) && !IsSymbol(c)
  }

  /** The first position from `i` on that is not white space. */
  function Skip(s: string, i: nat): (r: nat)
    requires i <= |s|
    ensures i <= r <= |s| && (r < |s| ==> !IsSpace(s[r]))
    decreases |s| - i
  {
    if i < |s| && IsSpace(s[i]) then Skip(s, i + 1) else i
  }

  /** The first position from `i` on that is not part of a word. */
  function WordEnd(s: string, i: nat): (r: nat)
    requires i <= |s|
    ensures i <= r <= |s| && (r < |s| ==> !IsWordChar(s[r])) && (i < |s| && IsWordChar(s[i]) ==> i < r)
    ensures forall k | i <= k < r :: IsWordChar(s[k])
    decreases |s| - i
  {
    if i < |s| && IsWordChar(s[i]) then WordEnd(s, i + 1) else i
  }

  datatype Token = End | Symbol(c: char) | AppendSign | Word

  /** A token, the range it takes, and where the next one starts. */
  datatype Got = Got(tok: Token, at: Range, next: nat)

  function NextToken(s: string, i: nat): (g: Got)
    requires i <= |s|
    ensures i <= g.at.q <= g.at.eq <= g.next <= |s| && (g.tok != End ==> i < g.next)
    ensures g.tok == Word ==> IsToken(s, g.at)
  {
    var q := Skip(s, i);
    if q == |s| then Got(End, Range(q, q), q)
    else if s[q] == '>' && q + 1 < |s| && s[q + 1] == '>' then Got(AppendSign, Range(q, q + 2), Skip(s, q + 2))
    else if IsSymbol(s[q]) then Got(Symbol(s[q]), Range(q, q + 1), Skip(s, q + 1))
    else Got(Word, Range(q, WordEnd(s, q)), Skip(s, WordEnd(s, q)))
  }

  /** A range that is a whole word of the line. */
  predicate IsToken(s: string, r: Range) {
    r.q < r.eq <= |s| && (forall k | r.q <= k < r.eq :: IsWordChar(s[k])) && (r.eq < |s| ==> !IsWordChar(s[r.eq]))
  }

  /** The next thing after white space is the character `c`. */
  predicate Sees(s: string, i: nat, c: char)
    requires i <= |s|
  {
    var j := Skip(s, i);
    j < |s| && s[j] == c
  }

  // ----- the grammar -----

  /** A redirection and its file. */
  datatype Wrap = Wrap(file: Range, kind: Kind)

  function Wrapped(c: Cmd<Range>, wraps: seq<Wrap>): Cmd<Range>
    decreases |wraps|
  {
    if wraps == [] then c else Redir(Wrapped(c, wraps[..|wraps| - 1]), wraps[|wraps| - 1].file, wraps[|wraps| - 1].kind)
  }

  function KindOf(t: Token): Kind {
    if t == Symbol('<') then In else if t == AppendSign then Append else Out
  }

  function Redirs(s: string, i: nat, wraps: seq<Wrap>): (r: Result<seq<Wrap>>)
    requires i <= |s|
    ensures r.Ok? ==> i <= r.pos <= |s|
    decreases |s| - i
  {
    if !Sees(s, i, '<') && !Sees(s, i, '>') then Ok(wraps, Skip(s, i))
    else
      var g := NextToken(s, Skip(s, i));
      var f := NextToken(s, g.next);
      if f.tok != Word then Fail(MissingFile) else Redirs(s, f.next, wraps + [Wrap(f.at, KindOf(g.tok))])
  }

  predicate Stops(s: string, i: nat)
    requires i <= |s|
  {
    Sees(s, i, '|') || Sees(s, i, ')') || Sees(s, i, '&') || Sees(s, i, ';')
  }

  /** The words and redirections of a simple command, however they are interleaved. */
  function Args(s: string, i: nat, argv: seq<Range>, wraps: seq<Wrap>): (r: Result<Cmd<Range>>)
    requires i <= |s|
    ensures r.Ok? ==> i <= r.pos <= |s|
    decreases |s| - i
  {
    if Stops(s, i) then Ok(Wrapped(Exec(argv), wraps), Skip(s, i))
    else
      var g := NextToken(s, Skip(s, i));
      if g.tok == End then Ok(Wrapped(Exec(argv), wraps), g.next)
      else if g.tok != Word then Fail(Syntax)
      else if |argv| + 1 >= MAXARGS then Fail(TooManyArgs)
      else
        var w := Redirs(s, g.next, wraps);
        if w.Fail? then Fail(w.panic) else Args(s, w.pos, argv + [g.at], w.value)
  }

  function ParseExec(s: string, i: nat): (r: Result<Cmd<Range>>)
    requires i <= |s|
    ensures r.Ok? ==> i <= r.pos <= |s|
    decreases |s| - i, 1
  {
    if Sees(s, i, '(') then ParseBlock(s, Skip(s, i))
    else
      var w := Redirs(s, Skip(s, i), []);
      if w.Fail? then Fail(w.panic) else Args(s, w.pos, [], w.value)
  }

  function ParseBlock(s: string, i: nat): (r: Result<Cmd<Range>>)
    requires i < |s| && s[i] == '('
    ensures r.Ok? ==> i < r.pos <= |s|
    decreases |s| - i, 0
  {
    var l := ParseLine(s, Skip(s, i + 1));
    if l.Fail? then l
    else if !Sees(s, l.pos, ')') then Fail(MissingParen)
    else
      var w := Redirs(s, Skip(s, Skip(s, l.pos) + 1), []);
      if w.Fail? then Fail(w.panic) else Ok(Wrapped(l.value, w.value), w.pos)
  }

  function ParsePipe(s: string, i: nat): (r: Result<Cmd<Range>>)
    requires i <= |s|
    ensures r.Ok? ==> i <= r.pos <= |s|
    decreases |s| - i, 2
  {
    var l := ParseExec(s, i);
    if l.Fail? then l
    else if !Sees(s, l.pos, '|') then Ok(l.value, Skip(s, l.pos))
    else
      var r := ParsePipe(s, Skip(s, Skip(s, l.pos) + 1));
      if r.Fail? then r else Ok(Pipe(l.value, r.value), r.pos)
  }

  function ParseLine(s: string, i: nat): (r: Result<Cmd<Range>>)
    requires i <= |s|
    ensures r.Ok? ==> i <= r.pos <= |s|
    decreases |s| - i, 4
  {
    var l := ParsePipe(s, i);
    if l.Fail? then l else LineTail(s, l.pos, l.value)
  }

  /** The `&`s and the `;` after a pipeline. */
  function LineTail(s: string, i: nat, cmd: Cmd<Range>): (r: Result<Cmd<Range>>)
    requires i <= |s|
    ensures r.Ok? ==> i <= r.pos <= |s|
    decreases |s| - i, 3
  {
    if Sees(s, i, '&') then LineTail(s, Skip(s, Skip(s, i) + 1), Back(cmd))
    else if !Sees(s, i, ';') then Ok(cmd, Skip(s, i))
    else
      var r := ParseLine(s, Skip(s, Skip(s, i) + 1));
      if r.Fail? then r else Ok(List(cmd, r.value), r.pos)
  }

  function Parse(s: string): (r: Result<Cmd<Range>>)
    ensures r.Ok? ==> r.pos == |s|
  {
    var l := ParseLine(s, 0);
    if l.Fail? then l else if Skip(s, l.pos) != |s| then Fail(Leftovers) else Ok(l.value, |s|)
  }
}
