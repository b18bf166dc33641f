/**
  The parser of `user/sh.c` as it is written: loops over a cursor, and recursive descent.
 */
module ShellParser {
  import opened Shell

  function CharAt(s: string, i: nat): (c: char) { if i < |s| then s[i] else '\0' }

  method SkipSpace(s: string, ps: nat) returns (i: nat)
    requires ps <= |s|
    ensures i == Skip(s, ps)
  {
    i := ps;
    while i < |s| && IsSpace(s[i])
      invariant ps <= i <= |s| && Skip(s, i) == Skip(s, ps)
    {
      i := i + 1;
    }
  }

  method GetToken(s: string, ps: nat) returns (t: Token)
    requires ps <= |s| && NoNul(s)
    ensures t == TokenAt(s, ps)
  {
    var i := SkipSpace(s, ps);
    var q := i;
    var ret := CharAt(s, i);
    match ret {
      case '\0' =>
      case '|' => i := i + 1;
      case '(' => i := i + 1;
      case ')' => i := i + 1;
      case ';' => i := i + 1;
      case '&' => i := i + 1;
      case '<' => i := i + 1;
      case '>' =>
        i := i + 1;
        if CharAt(s, i) == '>' {
          ret := '+';
          i := i + 1;
        }
      case _ =>
        ret := 'a';
        while i < |s| && IsWordChar(s[i])
          invariant q <= i <= |s| && WordEnd(s, i) == WordEnd(s, q)
        {
          i := i + 1;
        }
    }
    var eq := i;
    i := SkipSpace(s, i);
    t := Token(ret, q, eq, i);
  }

  method Peek(s: string, ps: nat, toks: string) returns (i: nat, found: bool)
    requires ps <= |s| && NoNul(s) && NoNul(toks)
    ensures i == Skip(s, ps) && found == Peeks(s, ps, toks)
  {
    i := SkipSpace(s, ps);
    found := CharAt(s, i) != '\0' && CharAt(s, i) in toks;
  }

  lemma SkipTwice(s: string, i: nat)
    requires i <= |s|
    ensures Skip(s, Skip(s, i)) == Skip(s, i)
  {
  }

  /** White space before a token makes no difference. */
  lemma Skipped(s: string, i: nat, toks: string)
    requires i <= |s|
    ensures TokenAt(s, Skip(s, i)) == TokenAt(s, i) && Peeks(s, Skip(s, i), toks) == Peeks(s, i, toks)
  {
    SkipTwice(s, i);
  }

  /** parseredirs: the list of redirections in place of the tree they are wrapped around. */
  method Redirs(s: string, ps: nat, acc: seq<Redirection>) returns (r: Result<seq<Redirection>>)
    requires ps <= |s| && NoNul(s)
    ensures r == ParseRedirs(s, ps, acc)
  {
    var i, redirs := ps, acc;
    var found;
    i, found := Peek(s, i, "<>");
    Skipped(s, ps, "<>");
    RedirsSkip(s, ps, acc);
    while found
      invariant ps <= i <= |s| && found == Peeks(s, i, "<>") && Skip(s, i) == i
      invariant ParseRedirs(s, i, redirs) == ParseRedirs(s, ps, acc)
      decreases |s| - i
    {
      var op := GetToken(s, i);
      var t := GetToken(s, op.next);
      if t.kind != 'a' {
        return Fail(MissingFile);
      }
      redirs := redirs + [Redirection(Span(t.q, t.eq), ModeOf(op.kind))];
      i, found := Peek(s, t.next, "<>");
      Skipped(s, t.next, "<>");
      RedirsSkip(s, t.next, redirs);
    }
    return Ok(redirs, i);
  }

  lemma RedirsSkip(s: string, i: nat, acc: seq<Redirection>)
    requires i <= |s|
    ensures ParseRedirs(s, Skip(s, i), acc) == ParseRedirs(s, i, acc)
  {
    Skipped(s, i, "<>");
    SkipTwice(s, i);
  }

  lemma ArgsSkip(s: string, i: nat, acc: Simple)
    requires i <= |s|
    ensures ParseArgs(s, Skip(s, i), acc) == ParseArgs(s, i, acc)
  {
    Skipped(s, i, "|)&;");
    SkipTwice(s, i);
  }

  /** parseexec, where there is no parenthesis */
  method SimpleCmd(s: string, ps: nat) returns (r: Result<Cmd>)
    requires ps <= |s| && NoNul(s)
    ensures r == ParseSimple(s, ps)
  {
    var argv: seq<Span> := [];
    var first := Redirs(s, ps, []);
    if first.Fail? {
      return Fail(first.error);
    }
    var redirs := first.value;
    var i, found := Peek(s, first.pos, "|)&;");
    Skipped(s, first.pos, "|)&;");
    ArgsSkip(s, first.pos, Simple([], redirs));
    SkipTwice(s, first.pos);
    while !found
      invariant first.pos <= i <= |s| && found == Peeks(s, i, "|)&;") && Skip(s, i) == i
      invariant ParseArgs(s, i, Simple(argv, redirs)) == ParseArgs(s, first.pos, Simple([], first.value))
      decreases |s| - i
    {
      var t := GetToken(s, i);
      if t.kind == '\0' {
        return Ok(Wrap(Exec(argv), redirs), t.next);
      }
      if t.kind != 'a' {
        return Fail(Syntax);
      }
      if |argv| + 1 >= MAXARGS {
        return Fail(TooManyArgs);
      }
      var more := Redirs(s, t.next, redirs);
      if more.Fail? {
        return Fail(more.error);
      }
      argv, redirs := argv + [Span(t.q, t.eq)], more.value;
      i, found := Peek(s, more.pos, "|)&;");
      Skipped(s, more.pos, "|)&;");
      ArgsSkip(s, more.pos, Simple(argv, redirs));
      SkipTwice(s, more.pos);
    }
    return Ok(Wrap(Exec(argv), redirs), i);
  }

  method ExecCmd(s: string, ps: nat) returns (r: Result<Cmd>)
    requires ps <= |s| && NoNul(s)
    ensures r == ParseExec(s, ps)
    decreases |s| - ps, 1
  {
    var i, found := Peek(s, ps, "(");
    if found {
      r := BlockCmd(s, i);
    } else {
      r := SimpleCmd(s, i);
    }
  }

  method BlockCmd(s: string, ps: nat) returns (r: Result<Cmd>)
    requires ps < |s| && s[ps] == '(' && NoNul(s)
    ensures r == ParseBlock(s, ps)
    decreases |s| - ps, 0
  {
    var open := GetToken(s, ps);
    r := LineCmd(s, open.next);
    if r.Fail? {
      return;
    }
    var i, found := Peek(s, r.pos, ")");
    if !found {
      return Fail(MissingParen);
    }
    Skipped(s, r.pos, ")");
    var close := GetToken(s, i);
    var redirs := Redirs(s, close.next, []);
    if redirs.Fail? {
      return Fail(redirs.error);
    }
    return Ok(Wrap(r.value, redirs.value), redirs.pos);
  }

  method PipeCmd(s: string, ps: nat) returns (r: Result<Cmd>)
    requires ps <= |s| && NoNul(s)
    ensures r == ParsePipe(s, ps)
    decreases |s| - ps, 2
  {
    r := ExecCmd(s, ps);
    if r.Fail? {
      return;
    }
    var i, found := Peek(s, r.pos, "|");
    if !found {
      return Ok(r.value, i);
    }
    Skipped(s, r.pos, "|");
    var bar := GetToken(s, i);
    var right := PipeCmd(s, bar.next);
    if right.Fail? {
      return right;
    }
    return Ok(Pipe(r.value, right.value), right.pos);
  }

  method LineCmd(s: string, ps: nat) returns (r: Result<Cmd>)
    requires ps <= |s| && NoNul(s)
    ensures r == ParseLine(s, ps)
    decreases |s| - ps, 3
  {
    var first := PipeCmd(s, ps);
    if first.Fail? {
      return first;
    }
    var cmd := first.value;
    var i, found := Peek(s, first.pos, "&");
    Skipped(s, first.pos, "&");
    SkipTwice(s, first.pos);
    while found
      invariant first.pos <= i <= |s| && found == Peeks(s, i, "&") && Skip(s, i) == i
      invariant ParseBacks(s, i, cmd) == ParseBacks(s, first.pos, first.value)
      decreases |s| - i
    {
      var t := GetToken(s, i);
      cmd := Back(cmd);
      i, found := Peek(s, t.next, "&");
      Skipped(s, t.next, "&");
      SkipTwice(s, t.next);
    }
    i, found := Peek(s, i, ";");
    if !found {
      return Ok(cmd, i);
    }
    var semi := GetToken(s, i);
    var right := LineCmd(s, semi.next);
    if right.Fail? {
      return right;
    }
    return Ok(List(cmd, right.value), right.pos);
  }
}
