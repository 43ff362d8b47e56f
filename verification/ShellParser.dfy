/** The parser as the shell runs it: a cursor moving along the line, and the pass that terminates the
    words in place. */
module ShellParser {
  import opened Shell

  class Parser {
    const line: string
    var pos: nat

    constructor (line: string)
      ensures this.line == line && pos == 0
    {
      this.line, pos := line, 0;
    }

    method SkipSpace()
      requires pos <= |line|
      modifies this
      ensures pos == Skip(line, old(pos))
    {
      while pos < |line| && IsSpace(line[pos])
        invariant pos <= |line| && Skip(line, pos) == Skip(line, old(pos))
      {
        pos := pos + 1;
      }
    }

    /** `gettoken`. */
    method GetToken() returns (tok: Token, at: Range)
      requires pos <= |line|
      modifies this
      ensures var g := NextToken(line, old(pos)); tok == g.tok && at == g.at && pos == g.next
    {
      SkipSpace();
      var q := pos;
      if pos == |line| {
        tok := End;
      } else if line[pos] == '>' {
        pos := pos + 1;
        tok := Symbol('>');
        if pos < |line| && line[pos] == '>' {
          tok := AppendSign;
          pos := pos + 1;
        }
      } else if IsSymbol(line[pos]) {
        tok := Symbol(line[pos]);
        pos := pos + 1;
      } else {
        tok := Word;
        while pos < |line| && IsWordChar(line[pos])
          invariant q <= pos <= |line| && WordEnd(line, pos) == WordEnd(line, q)
        {
          pos := pos + 1;
        }
      }
      at := Range(q, pos);
      SkipSpace();
    }

    /** `peek`. */
    method Peek(toks: string) returns (yes: bool)
      requires pos <= |line|
      modifies this
      ensures pos == Skip(line, old(pos)) && yes == (pos < |line| && line[pos] in toks)
    {
      SkipSpace();
      yes := pos < |line| && line[pos] in toks;
    }

    /** `parseredirs`: the redirections from here on, after those in `wraps`. */
    method ParseRedirs(wraps: seq<Wrap>) returns (r: Result<seq<Wrap>>)
      requires pos <= |line|
      modifies this
      ensures r == Redirs(line, old(pos), wraps) && (r.Ok? ==> pos == r.pos)
    {
      hide Redirs, NextToken, KindOf;
      var all := wraps;
      var more := Peek("<>");
      SkipTwice(line, old(pos));
      RedirsSkip(line, old(pos), wraps);
      while more
        invariant pos <= |line| && Skip(line, pos) == pos && more == (Sees(line, pos, '<') || Sees(line, pos, '>'))
        invariant Redirs(line, pos, all) == Redirs(line, old(pos), wraps)
        decreases |line| - pos
      {
        RedirsStep(line, pos, all);
        var tok, at := GetToken();
        var word, file := GetToken();
        if word != Word {
          return Fail(MissingFile);
        }
        all := all + [Wrap(file, KindOf(tok))];
        SkipTwice(line, pos);
        RedirsSkip(line, pos, all);
        more := Peek("<>");
      }
      RedirsEnd(line, pos, all);
      r := Ok(all, pos);
    }

    /** `parseexec`. The words go to one simple command, whatever redirections wrap it meanwhile. */
    method ParseExec() returns (r: Result<Cmd<Range>>)
      requires pos <= |line|
      modifies this
      ensures r == Shell.ParseExec(line, old(pos)) && (r.Ok? ==> pos == r.pos)
      decreases |line| - pos, 1
    {
      hide Redirs, Args, Shell.ParseBlock, NextToken, Wrapped;
      var block := Peek("(");
      if block {
        r := ParseBlock();
        return;
      }
      var argv: seq<Range> := [];
      var w := ParseRedirs([]);
      if w.Fail? {
        return Fail(w.panic);
      }
      var wraps := w.value;
      var stop := Peek("|)&;");
      ghost var start := w.pos;
      ArgsSkip(line, start, argv, wraps);
      SkipTwice(line, start);
      while !stop
        invariant pos <= |line| && Skip(line, pos) == pos && stop == Stops(line, pos)
        invariant Args(line, pos, argv, wraps) == Args(line, start, [], w.value)
        decreases |line| - pos
      {
        ArgsMore(line, pos, argv, wraps);
        ghost var from := pos;
        var tok, at := GetToken();
        if tok == End {
          break;
        }
        if tok != Word {
          return Fail(Syntax);
        }
        argv := argv + [at];
        if |argv| >= MAXARGS {
          return Fail(TooManyArgs);
        }
        var v := ParseRedirs(wraps);
        if v.Fail? {
          return Fail(v.panic);
        }
        wraps := v.value;
        ArgsSkip(line, pos, argv, wraps);
        SkipTwice(line, pos);
        stop := Peek("|)&;");
      }
      ArgsEnd(line, pos, argv, wraps);
      r := Ok(Wrapped(Exec(argv), wraps), pos);
    }

    /** `parseblock`. */
    method ParseBlock() returns (r: Result<Cmd<Range>>)
      requires pos < |line| && line[pos] == '('
      modifies this
      ensures r == Shell.ParseBlock(line, old(pos)) && (r.Ok? ==> pos == r.pos)
      decreases |line| - pos, 0
    {
      hide Redirs, Shell.ParseLine, Wrapped;
      var tok, at := GetToken();
      r := ParseLine();
      if r.Fail? {
        return;
      }
      var closed := Peek(")");
      if !closed {
        return Fail(MissingParen);
      }
      tok, at := GetToken();
      var w := ParseRedirs([]);
      if w.Fail? {
        return Fail(w.panic);
      }
      r := Ok(Wrapped(r.value, w.value), pos);
    }

    /** `parsepipe`. */
    method ParsePipe() returns (r: Result<Cmd<Range>>)
      requires pos <= |line|
      modifies this
      ensures r == Shell.ParsePipe(line, old(pos)) && (r.Ok? ==> pos == r.pos)
      decreases |line| - pos, 2
    {
      hide Shell.ParseExec;
      r := ParseExec();
      if r.Fail? {
        return;
      }
      var more := Peek("|");
      if more {
        var tok, at := GetToken();
        var right := ParsePipe();
        if right.Fail? {
          return right;
        }
        r := Ok(Pipe(r.value, right.value), pos);
      } else {
        r := Ok(r.value, pos);
      }
    }

    /** `parseline`. */
    method ParseLine() returns (r: Result<Cmd<Range>>)
      requires pos <= |line|
      modifies this
      ensures r == Shell.ParseLine(line, old(pos)) && (r.Ok? ==> pos == r.pos)
      decreases |line| - pos, 4
    {
      hide Shell.ParsePipe, Skip;
      r := ParsePipe();
      if r.Fail? {
        return;
      }
      ghost var first := r;
      var cmd := r.value;
      var back := Peek("&");
      SkipTwice(line, first.pos);
      while back
        invariant old(pos) <= pos <= |line| && Skip(line, pos) == pos && back == Sees(line, pos, '&')
        invariant LineTail(line, pos, cmd) == LineTail(line, first.pos, first.value)
        decreases |line| - pos
      {
        var tok, at := GetToken();
        cmd := Back(cmd);
        SkipTwice(line, pos);
        back := Peek("&");
      }
      var more := Peek(";");
      if more {
        var tok, at := GetToken();
        var right := ParseLine();
        if right.Fail? {
          return right;
        }
        r := Ok(List(cmd, right.value), pos);
      } else {
        r := Ok(cmd, pos);
      }
    }

    /** `parsecmd`, before the words are terminated. */
    method ParseCmd() returns (r: Result<Cmd<Range>>)
      requires pos == 0
      modifies this
      ensures r == Parse(line)
    {
      hide Shell.ParseLine;
      r := ParseLine();
      if r.Fail? {
        return;
      }
      var left := Peek("");
      if pos != |line| {
        return Fail(Leftovers);
      }
      r := Ok(r.value, pos);
    }
  }

  // ----- one step of the loops -----

  lemma RedirsSkip(s: string, i: nat, wraps: seq<Wrap>)
    requires i <= |s|
    ensures Redirs(s, Skip(s, i), wraps) == Redirs(s, i, wraps)
  {
    SkipTwice(s, i);
  }

  lemma RedirsStep(s: string, i: nat, wraps: seq<Wrap>)
    requires i <= |s| && Skip(s, i) == i && (Sees(s, i, '<') || Sees(s, i, '>'))
    ensures var g := NextToken(s, i);
            var f := NextToken(s, g.next);
            && i < g.next
            && Redirs(s, i, wraps) ==
                 if f.tok != Word then Fail(MissingFile) else Redirs(s, f.next, wraps + [Wrap(f.at, KindOf(g.tok))])
  {
  }

  lemma RedirsEnd(s: string, i: nat, wraps: seq<Wrap>)
    requires i <= |s| && Skip(s, i) == i && !Sees(s, i, '<') && !Sees(s, i, '>')
    ensures Redirs(s, i, wraps) == Ok(wraps, i)
  {
  }

  lemma ArgsSkip(s: string, i: nat, argv: seq<Range>, wraps: seq<Wrap>)
    requires i <= |s|
    ensures Args(s, Skip(s, i), argv, wraps) == Args(s, i, argv, wraps)
  {
    SkipTwice(s, i);
  }

  lemma ArgsMore(s: string, i: nat, argv: seq<Range>, wraps: seq<Wrap>)
    requires i <= |s| && Skip(s, i) == i && !Stops(s, i)
    ensures var g := NextToken(s, i);
            && (g.tok != End ==> i < g.next) && (g.tok == End ==> g.next == i)
            && Args(s, i, argv, wraps) ==
               if g.tok == End then Ok(Wrapped(Exec(argv), wraps), g.next)
               else if g.tok != Word then Fail(Syntax)
               else if |argv| + 1 >= MAXARGS then Fail(TooManyArgs)
               else
                 var w := Redirs(s, g.next, wraps);
                 if w.Fail? then Fail(w.panic) else Args(s, w.pos, argv + [g.at], w.value)
  {
  }

  lemma ArgsEnd(s: string, i: nat, argv: seq<Range>, wraps: seq<Wrap>)
    requires i <= |s| && Skip(s, i) == i && (Stops(s, i) || NextToken(s, i).tok == End)
    ensures Args(s, i, argv, wraps) == Ok(Wrapped(Exec(argv), wraps), i)
  {
  }

  lemma {:induction false} SkipTwice(s: string, i: nat)
    requires i <= |s|
    ensures Skip(s, Skip(s, i)) == Skip(s, i)
    decreases |s| - i
  {
    if i < |s| && IsSpace(s[i]) {
      SkipTwice(s, i + 1);
    }
  }

  // ----- terminating the words -----

  /** Every word of the command is a whole word of the line, and no simple command has too many. */
  predicate AllTokens(s: string, c: Cmd<Range>) {
    match c
    case Exec(argv) => |argv| < MAXARGS && forall k | 0 <= k < |argv| :: IsToken(s, argv[k])
    case Redir(d, file, kind) => AllTokens(s, d) && IsToken(s, file)
    case Pipe(l, r) => AllTokens(s, l) && AllTokens(s, r)
    case List(l, r) => AllTokens(s, l) && AllTokens(s, r)
    case Back(d) => AllTokens(s, d)
  }

  predicate WrapsOk(s: string, wraps: seq<Wrap>) {
    forall k | 0 <= k < |wraps| :: IsToken(s, wraps[k].file)
  }

  lemma {:induction false} WrappedTokens(s: string, c: Cmd<Range>, wraps: seq<Wrap>)
    requires AllTokens(s, c) && WrapsOk(s, wraps)
    ensures AllTokens(s, Wrapped(c, wraps))
    decreases |wraps|
  {
    if wraps != [] {
      WrappedTokens(s, c, wraps[..|wraps| - 1]);
    }
  }

  lemma {:induction false} RedirsTokens(s: string, i: nat, wraps: seq<Wrap>)
    requires i <= |s| && WrapsOk(s, wraps)
    ensures var r := Redirs(s, i, wraps); r.Ok? ==> WrapsOk(s, r.value)
    decreases |s| - i
  {
    SkipTwice(s, i);
    RedirsSkip(s, i, wraps);
    var j := Skip(s, i);
    if Sees(s, j, '<') || Sees(s, j, '>') {
      hide Redirs, Sees, Skip;
      RedirsStep(s, j, wraps);
      var g := NextToken(s, j);
      var f := NextToken(s, g.next);
      if f.tok == Word {
        RedirsTokens(s, f.next, wraps + [Wrap(f.at, KindOf(g.tok))]);
      }
    }
  }

  lemma {:induction false} ArgsTokens(s: string, i: nat, argv: seq<Range>, wraps: seq<Wrap>)
    requires i <= |s| && WrapsOk(s, wraps) && AllTokens(s, Exec(argv))
    ensures var r := Args(s, i, argv, wraps); r.Ok? ==> AllTokens(s, r.value)
    decreases |s| - i
  {
    ArgsSkip(s, i, argv, wraps);
    SkipTwice(s, i);
    WrappedTokens(s, Exec(argv), wraps);
    var j := Skip(s, i);
    hide Args, Redirs, Skip, Wrapped, NextToken;
    if Stops(s, j) {
      ArgsEnd(s, j, argv, wraps);
    } else {
      ArgsMore(s, j, argv, wraps);
      var g := NextToken(s, j);
      if g.tok == Word && |argv| + 1 < MAXARGS {
        RedirsTokens(s, g.next, wraps);
        var w := Redirs(s, g.next, wraps);
        if w.Ok? {
          ArgsTokens(s, w.pos, argv + [g.at], w.value);
        }
      }
    }
  }

  lemma {:induction false} LineTokens(s: string, i: nat)
    requires i <= |s|
    ensures var r := Shell.ParseLine(s, i); r.Ok? ==> AllTokens(s, r.value)
    decreases |s| - i, 4
  {
    hide LineTail, Shell.ParsePipe;
    PipeTokens(s, i);
    var l := Shell.ParsePipe(s, i);
    if l.Ok? {
      TailTokens(s, l.pos, l.value);
    }
  }

  lemma {:induction false} TailTokens(s: string, i: nat, c: Cmd<Range>)
    requires i <= |s| && AllTokens(s, c)
    ensures var r := LineTail(s, i, c); r.Ok? ==> AllTokens(s, r.value)
    decreases |s| - i, 3
  {
    hide Shell.ParseLine;
    if Sees(s, i, '&') {
      TailTokens(s, Skip(s, Skip(s, i) + 1), Back(c));
    } else if Sees(s, i, ';') {
      LineTokens(s, Skip(s, Skip(s, i) + 1));
    }
  }

  lemma {:induction false} PipeTokens(s: string, i: nat)
    requires i <= |s|
    ensures var r := Shell.ParsePipe(s, i); r.Ok? ==> AllTokens(s, r.value)
    decreases |s| - i, 2
  {
    hide Shell.ParseExec;
    ExecTokens(s, i);
    var l := Shell.ParseExec(s, i);
    if l.Ok? && Sees(s, l.pos, '|') {
      PipeTokens(s, Skip(s, Skip(s, l.pos) + 1));
    }
  }

  lemma {:induction false} ExecTokens(s: string, i: nat)
    requires i <= |s|
    ensures var r := Shell.ParseExec(s, i); r.Ok? ==> AllTokens(s, r.value)
    decreases |s| - i, 1
  {
    hide Shell.ParseLine, Redirs, Args, AllTokens, Wrapped;
    if Sees(s, i, '(') {
      var j := Skip(s, i);
      LineTokens(s, Skip(s, j + 1));
      var l := Shell.ParseLine(s, Skip(s, j + 1));
      if l.Ok? && Sees(s, l.pos, ')') {
        var k := Skip(s, Skip(s, l.pos) + 1);
        RedirsTokens(s, k, []);
        var w := Redirs(s, k, []);
        if w.Ok? {
          WrappedTokens(s, l.value, w.value);
        }
      }
    } else {
      RedirsTokens(s, Skip(s, i), []);
      var w := Redirs(s, Skip(s, i), []);
      if w.Ok? {
        NoArgs(s);
        ArgsTokens(s, w.pos, [], w.value);
      }
    }
  }

  lemma NoArgs(s: string)
    ensures AllTokens(s, Exec([]))
  {
  }

  /** Position `k` of the buffer is as it was, or a terminator where no word had a character. */
  predicate Kept(s: string, was: seq<char>, now: seq<char>, k: nat)
    requires k < |was| == |now| == |s| + 1
  {
    now[k] == was[k] || (now[k] == '\0' && (k < |s| ==> !IsWordChar(s[k])))
  }

  predicate AllKept(s: string, was: seq<char>, now: seq<char>) {
    |was| == |now| == |s| + 1 && forall k: nat | k <= |s| :: Kept(s, was, now, k)
  }

  /** All words of the command end in a terminator. */
  predicate Ended(c: Cmd<Range>, buf: seq<char>) {
    match c
    case Exec(argv) => forall k | 0 <= k < |argv| :: EndsAt(argv[k], buf)
    case Redir(d, file, kind) => Ended(d, buf) && EndsAt(file, buf)
    case Pipe(l, r) => Ended(l, buf) && Ended(r, buf)
    case List(l, r) => Ended(l, buf) && Ended(r, buf)
    case Back(d) => Ended(d, buf)
  }

  predicate EndsAt(r: Range, buf: seq<char>) {
    r.eq < |buf| && buf[r.eq] == '\0'
  }

  /** A terminator stays a terminator. */
  lemma {:induction false} EndedStill(s: string, c: Cmd<Range>, was: seq<char>, now: seq<char>)
    requires Ended(c, was) && AllKept(s, was, now)
    ensures Ended(c, now)
  {
    match c
    case Exec(argv) =>
      forall k | 0 <= k < |argv|
        ensures EndsAt(argv[k], now)
      {
        assert EndsAt(argv[k], was) && Kept(s, was, now, argv[k].eq);
      }
    case Redir(d, file, kind) =>
      EndedStill(s, d, was, now);
      assert Kept(s, was, now, file.eq);
    case Pipe(l, r) => EndedStill(s, l, was, now); EndedStill(s, r, was, now);
    case List(l, r) => EndedStill(s, l, was, now); EndedStill(s, r, was, now);
    case Back(d) => EndedStill(s, d, was, now);
  }

  lemma KeptTrans(s: string, a: seq<char>, b: seq<char>, c: seq<char>)
    requires AllKept(s, a, b) && AllKept(s, b, c)
    ensures AllKept(s, a, c)
  {
    forall k: nat | k <= |s|
      ensures Kept(s, a, c, k)
    {
      assert Kept(s, a, b, k) && Kept(s, b, c, k);
    }
  }

  /** Terminate one word. */
  method EndWord(s: string, r: Range, buf: array<char>)
    requires buf.Length == |s| + 1 && IsToken(s, r)
    modifies buf
    ensures AllKept(s, old(buf[..]), buf[..]) && EndsAt(r, buf[..])
  {
    buf[r.eq] := '\0';
  }

  /** `nulterminate`: write a terminator after every word of the command, and nowhere inside a word. */
  method NulTerminate(s: string, c: Cmd<Range>, buf: array<char>)
    requires buf.Length == |s| + 1 && AllTokens(s, c)
    modifies buf
    ensures AllKept(s, old(buf[..]), buf[..]) && Ended(c, buf[..])
    decreases c
  {
    hide AllKept;
    SameKept(s, buf[..]);
    match c
    case Exec(argv) =>
      var i := 0;
      while i < |argv|
        invariant 0 <= i <= |argv| && AllKept(s, old(buf[..]), buf[..]) && Ended(Exec(argv[..i]), buf[..])
      {
        ghost var was := buf[..];
        EndWord(s, argv[i], buf);
        KeptTrans(s, old(buf[..]), was, buf[..]);
        EndedStill(s, Exec(argv[..i]), was, buf[..]);
        i := i + 1;
      }
      assert argv[..i] == argv;
    case Redir(d, file, kind) =>
      NulTerminate(s, d, buf);
      ghost var was := buf[..];
      EndWord(s, file, buf);
      KeptTrans(s, old(buf[..]), was, buf[..]);
      EndedStill(s, d, was, buf[..]);
    case Pipe(l, r) =>
      NulTerminate(s, l, buf);
      ghost var was := buf[..];
      NulTerminate(s, r, buf);
      KeptTrans(s, old(buf[..]), was, buf[..]);
      EndedStill(s, l, was, buf[..]);
    case List(l, r) =>
      NulTerminate(s, l, buf);
      ghost var was := buf[..];
      NulTerminate(s, r, buf);
      KeptTrans(s, old(buf[..]), was, buf[..]);
      EndedStill(s, l, was, buf[..]);
    case Back(d) =>
      NulTerminate(s, d, buf);
  }

  lemma SameKept(s: string, buf: seq<char>)
    requires |buf| == |s| + 1
    ensures AllKept(s, buf, buf)
  {
  }

  /** What a C string starting at `i` reads as: up to the first terminator. */
  function CString(buf: seq<char>, i: nat): string
    requires i <= |buf|
    decreases |buf| - i
  {
    if i < |buf| && buf[i] != '\0' then [buf[i]] + CString(buf, i + 1) else ""
  }

  lemma {:induction false} ReadsWord(s: string, r: Range, was: seq<char>, buf: seq<char>, i: nat)
    requires IsToken(s, r) && AllKept(s, was, buf) && was[..|s|] == s && EndsAt(r, buf) && r.q <= i <= r.eq
    requires forall k | 0 <= k < |s| :: s[k] != '\0'
    ensures CString(buf, i) == s[i..r.eq]
    decreases r.eq - i
  {
    if i < r.eq {
      ReadsWord(s, r, was, buf, i + 1);
      assert Kept(s, was, buf, i) && was[i] == was[..|s|][i];
      assert s[i..r.eq] == [s[i]] + s[i + 1..r.eq];
    }
  }

  /** `parsecmd`: parse the line in `buf` and terminate its words there. Every argument and file name
      then reads, as a C string, exactly as the token it was. */
  method ParseInPlace(s: string, buf: array<char>) returns (r: Result<Cmd<Range>>)
    requires buf.Length == |s| + 1 && buf[..|s|] == s && forall k | 0 <= k < |s| :: s[k] != '\0'
    modifies buf
    ensures r == Parse(s)
    ensures r.Ok? ==> AllTokens(s, r.value) && Readable(s, r.value, buf[..])
  {
    hide AllKept, Ended, AllTokens, Readable;
    var parser := new Parser(s);
    r := parser.ParseCmd();
    if r.Ok? {
      LineTokens(s, 0);
      NulTerminate(s, r.value, buf);
      AllReadable(s, r.value, old(buf[..]), buf[..]);
    }
  }

  /** Every word of the command reads back from the buffer. */
  predicate Readable(s: string, c: Cmd<Range>, buf: seq<char>) {
    match c
    case Exec(argv) => forall k | 0 <= k < |argv| :: ReadableAt(s, argv[k], buf)
    case Redir(d, file, kind) => Readable(s, d, buf) && ReadableAt(s, file, buf)
    case Pipe(l, r) => Readable(s, l, buf) && Readable(s, r, buf)
    case List(l, r) => Readable(s, l, buf) && Readable(s, r, buf)
    case Back(d) => Readable(s, d, buf)
  }

  predicate ReadableAt(s: string, r: Range, buf: seq<char>) {
    r.q <= r.eq <= |s| < |buf| && CString(buf, r.q) == s[r.q..r.eq]
  }

  lemma {:induction false} AllReadable(s: string, c: Cmd<Range>, was: seq<char>, buf: seq<char>)
    requires AllTokens(s, c) && AllKept(s, was, buf) && was[..|s|] == s && Ended(c, buf)
    requires forall k | 0 <= k < |s| :: s[k] != '\0'
    ensures Readable(s, c, buf)
  {
    match c
    case Exec(argv) =>
      forall k | 0 <= k < |argv|
        ensures ReadableAt(s, argv[k], buf)
      {
        ReadsWord(s, argv[k], was, buf, argv[k].q);
      }
    case Redir(d, file, kind) =>
      AllReadable(s, d, was, buf);
      ReadsWord(s, file, was, buf, file.q);
    case Pipe(l, r) => AllReadable(s, l, was, buf); AllReadable(s, r, was, buf);
    case List(l, r) => AllReadable(s, l, was, buf); AllReadable(s, r, was, buf);
    case Back(d) => AllReadable(s, d, was, buf);
  }
}
