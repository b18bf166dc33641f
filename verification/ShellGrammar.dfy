/**
  The language of the shell (`user/sh.c`), as a grammar over the input, and the proof that the parser
  accepts exactly that language, with exactly the commands that the grammar gives it.

  The relations below say that the text between two positions is derived by a nonterminal.  Positions
  are those of tokens: white space is skipped before them.
 */
module ShellGrammar {
  import opened Shell
  import opened ShellParser

  /** A position at which a token starts. */
  predicate AtToken(s: string, i: nat) { i <= |s| && Skip(s, i) == i }

  function Kind(s: string, i: nat): (c: char)
    requires i <= |s|
  {
    TokenAt(s, i).kind
  }

  function Next(s: string, i: nat): (j: nat)
    requires i <= |s|
    ensures i <= j <= |s| && (Kind(s, i) != '\0' ==> i < j)
  {
    TokenAt(s, i).next
  }

  function Word(s: string, i: nat): (w: Span)
    requires i <= |s|
  {
    Span(TokenAt(s, i).q, TokenAt(s, i).eq)
  }

  predicate IsRedirOp(c: char) { c == '<' || c == '>' || c == '+' }

  // ---------------------------------------------------------------------------
  // The grammar
  // ---------------------------------------------------------------------------

  /** What a redirection operator stands for. */
  predicate Means(op: char, m: Mode) {
    (op == '<' && m == Read) || (op == '>' && m == Truncate) || (op == '+' && m == Append)
  }

  /** From `core` to `cmd`, each command of the chain is the one before with one redirection around it. */
  ghost predicate Chained(chain: seq<Cmd>, core: Cmd, redirs: seq<Redirection>, cmd: Cmd) {
    && |chain| == |redirs| + 1 && chain[0] == core && chain[|redirs|] == cmd
    && forall k :: 0 <= k < |redirs| ==> chain[k + 1] == Redir(chain[k], redirs[k].file, redirs[k].mode)
  }

  /** `cmd` is `core` with all the redirections around it, the first innermost. */
  ghost predicate Redirected(cmd: Cmd, core: Cmd, redirs: seq<Redirection>) {
    exists chain :: Chained(chain, core, redirs, cmd)
  }

  /** simple ::= empty | word simple | redirection simple, where redirection ::= ('<' | '>' | '>>') word. */
  ghost predicate SimpleD(s: string, i: nat, j: nat, argv: seq<Span>, redirs: seq<Redirection>)
    requires i <= |s| && j <= |s|
    decreases |s| - i
  {
    || (i == j && argv == [] && redirs == [])
    || (i < j && Kind(s, i) == 'a' && argv != [] && argv[0] == Word(s, i) &&
        SimpleD(s, Next(s, i), j, argv[1..], redirs))
    || (i < j && IsRedirOp(Kind(s, i)) && Kind(s, Next(s, i)) == 'a' && redirs != []
        && redirs[0].file == Word(s, Next(s, i)) && Means(Kind(s, i), redirs[0].mode)
        && SimpleD(s, Next(s, Next(s, i)), j, argv, redirs[1..]))
  }

  /** block ::= '(' line ')' redirection* */
  ghost predicate BlockD(s: string, i: nat, j: nat, cmd: Cmd)
    requires i <= |s| && j <= |s|
    decreases |s| - i, 0
  {
    Kind(s, i) == '(' &&
    exists k: nat, c, redirs :: AtToken(s, k) && LineD(s, Next(s, i), k, c)
      && Kind(s, k) == ')' && SimpleD(s, Next(s, k), j, [], redirs) && Redirected(cmd, c, redirs)
  }

  /** exec ::= block | simple with at most nine words */
  ghost predicate ExecD(s: string, i: nat, j: nat, cmd: Cmd)
    requires i <= |s| && j <= |s|
    decreases |s| - i, 1
  {
    || BlockD(s, i, j, cmd)
    || exists argv, redirs :: SimpleD(s, i, j, argv, redirs) && |argv| < MAXARGS && Redirected(cmd, Exec(argv), redirs)
  }

  /** pipe ::= exec | exec '|' pipe */
  ghost predicate PipeD(s: string, i: nat, j: nat, cmd: Cmd)
    requires i <= |s| && j <= |s|
    decreases |s| - i, 2
  {
    || ExecD(s, i, j, cmd)
    || exists k: nat, l, r :: AtToken(s, k) && i <= k && ExecD(s, i, k, l) && Kind(s, k) == '|' &&
        PipeD(s, Next(s, k), j, r)
         && cmd == Pipe(l, r)
  }

  /** backs ::= pipe | backs '&' */
  ghost predicate BacksD(s: string, i: nat, j: nat, cmd: Cmd)
    requires i <= |s| && j <= |s|
    decreases |s| - i, 3, cmd
  {
    || PipeD(s, i, j, cmd)
    || (cmd.Back? && exists k: nat :: AtToken(s, k) && BacksD(s, i, k, cmd.cmd) && Kind(s, k) == '&' && Next(s, k) == j)
  }

  /** line ::= backs | backs ';' line */
  ghost predicate LineD(s: string, i: nat, j: nat, cmd: Cmd)
    requires i <= |s| && j <= |s|
    decreases |s| - i, 4
  {
    || BacksD(s, i, j, cmd)
    || exists k: nat, l, r :: AtToken(s, k) && i <= k && BacksD(s, i, k, l) && Kind(s, k) == ';' &&
        LineD(s, Next(s, k), j, r)
         && cmd == List(l, r)
  }

  /** The whole input is derived, up to its terminating NUL. */
  ghost predicate Derives(s: string, cmd: Cmd) { LineD(s, Skip(s, 0), |s|, cmd) }

  /** That is what the parser builds. */
  lemma {:induction false} WrapChain(cmd: Cmd, core: Cmd, redirs: seq<Redirection>)
    ensures Redirected(cmd, core, redirs) <==> cmd == Wrap(core, redirs)
    decreases |redirs|
  {
    var n := |redirs|;
    if n == 0 {
      assert Chained([core], core, redirs, core);
    } else {
      var init := redirs[..n - 1];
      if chain :| Chained(chain, core, redirs, cmd) {
        assert Chained(chain[..n], core, init, chain[n - 1]);
        WrapChain(chain[n - 1], core, init);
        assert chain[n - 1 + 1] == Redir(chain[n - 1], redirs[n - 1].file, redirs[n - 1].mode);
      }
      if cmd == Wrap(core, redirs) {
        WrapChain(Wrap(core, init), core, init);
        var chain :| Chained(chain, core, init, Wrap(core, init));
        assert Chained(chain + [cmd], core, redirs, cmd);
      }
    }
  }

  lemma ModeMeant(op: char, m: Mode)
    requires IsRedirOp(op)
    ensures Means(op, m) <==> m == ModeOf(op)
  {
  }

  // ---------------------------------------------------------------------------
  // Tokens
  // ---------------------------------------------------------------------------

  lemma NextAtToken(s: string, i: nat)
    requires i <= |s|
    ensures AtToken(s, Next(s, i)) && AtToken(s, Skip(s, i)) && AtToken(s, |s|)
    ensures Kind(s, Skip(s, i)) == Kind(s, i) && Next(s, Skip(s, i)) == Next(s, i) && Word(s, Skip(s, i)) == Word(s, i)
  {
    SkipTwice(s, i);
    var q := Skip(s, i);
    if q < |s| && s[q] != '\0' {
      if s[q] == '>' && q + 1 < |s| && s[q + 1] == '>' {
        SkipTwice(s, q + 2);
      } else if IsSymbol(s[q]) {
        SkipTwice(s, q + 1);
      } else {
        SkipTwice(s, WordEnd(s, q));
      }
    }
  }

  lemma KindPeeks(s: string, i: nat)
    requires i <= |s| && NoNul(s)
    ensures Peeks(s, i, "<>") <==> IsRedirOp(Kind(s, i))
    ensures Peeks(s, i, "|") <==> Kind(s, i) == '|'
    ensures Peeks(s, i, "&") <==> Kind(s, i) == '&'
    ensures Peeks(s, i, ";") <==> Kind(s, i) == ';'
    ensures Peeks(s, i, "(") <==> Kind(s, i) == '('
    ensures Peeks(s, i, ")") <==> Kind(s, i) == ')'
    ensures Peeks(s, i, "|)&;") <==> Kind(s, i) == '|' || Kind(s, i) == ')' || Kind(s, i) == '&' || Kind(s, i) == ';'
    ensures Kind(s, i) == '\0' <==> Skip(s, i) == |s|
  {
  }

  // ---------------------------------------------------------------------------
  // What the grammar derives, the parser accepts
  // ---------------------------------------------------------------------------

  /** The tokens that may follow an exec. */
  predicate Stops(c: char) { c == '|' || c == ')' || c == '&' || c == ';' || c == '\0' }

  lemma {:induction false} RedirsComplete(s: string, i: nat, j: nat, redirs: seq<Redirection>, acc: seq<Redirection>)
    requires NoNul(s) && AtToken(s, i) && AtToken(s, j) && SimpleD(s, i, j, [], redirs) && !IsRedirOp(Kind(s, j))
    ensures ParseRedirs(s, i, acc) == Ok(acc + redirs, j)
    decreases |s| - i
  {
    hide TokenAt, Skip, WordEnd, Peeks, IsWord;
    KindPeeks(s, i);
    if i < j {
      NextAtToken(s, i);
      NextAtToken(s, Next(s, i));
      RedirsComplete(s, Next(s, Next(s, i)), j, redirs[1..], acc + [redirs[0]]);
      assert acc + [redirs[0]] + redirs[1..] == acc + redirs;
    } else {
      assert acc + redirs == acc;
    }
  }

  /** One round of the loop of parseredirs. */
  lemma RedirsStep(s: string, i: nat, acc: seq<Redirection>)
    requires NoNul(s) && AtToken(s, i)
    ensures ParseRedirs(s, i, acc) ==
      if !IsRedirOp(Kind(s, i)) then Ok(acc, i)
      else if Kind(s, Next(s, i)) != 'a' then Fail(MissingFile)
      else ParseRedirs(s, Next(s, Next(s, i)), acc + [Redirection(Word(s, Next(s, i)), ModeOf(Kind(s, i)))])
  {
    hide TokenAt, Skip, WordEnd, Peeks, IsWord;
    KindPeeks(s, i);
  }

  /** One round of the loop of parseexec. */
  lemma ArgsStep(s: string, i: nat, acc: Simple)
    requires NoNul(s) && AtToken(s, i)
    ensures ParseArgs(s, i, acc) ==
      if Stops(Kind(s, i)) then Ok(acc, i)
      else if Kind(s, i) != 'a' then Fail(Syntax)
      else if |acc.argv| + 1 >= MAXARGS then Fail(TooManyArgs)
      else
        match ParseRedirs(s, Next(s, i), acc.redirs)
        case Fail(e) => Fail(e)
        case Ok(redirs, j) => ParseArgs(s, j, Simple(acc.argv + [Word(s, i)], redirs))
  {
    hide WordEnd, Peeks, IsWord, ParseRedirs;
    KindPeeks(s, i);
  }

  lemma {:induction false} SimpleComplete(s: string, i: nat, j: nat, argv: seq<Span>, redirs: seq<Redirection>,
                                          acc: Simple)
    requires NoNul(s) && AtToken(s, i) && AtToken(s, j) && SimpleD(s, i, j, argv, redirs) && Stops(Kind(s, j))
    requires |acc.argv| + |argv| < MAXARGS
    ensures var r := ParseRedirs(s, i, acc.redirs);
      r.Ok? && ParseArgs(s, r.pos, Simple(acc.argv, r.value)) == Ok(Simple(acc.argv + argv, acc.redirs + redirs), j)
    decreases |s| - i
  {
    hide TokenAt, Skip, WordEnd, Peeks, IsWord, ParseRedirs, ParseArgs, ModeOf;
    RedirsStep(s, i, acc.redirs);
    ArgsStep(s, i, acc);
    NextAtToken(s, i);
    if i == j {
      assert acc.argv + argv == acc.argv && acc.redirs + redirs == acc.redirs;
    } else if Kind(s, i) == 'a' {
      SimpleComplete(s, Next(s, i), j, argv[1..], redirs, Simple(acc.argv + [argv[0]], acc.redirs));
      assert acc.argv + [argv[0]] + argv[1..] == acc.argv + argv;
    } else {
      NextAtToken(s, Next(s, i));
      ModeMeant(Kind(s, i), redirs[0].mode);
      SimpleComplete(s, Next(s, Next(s, i)), j, argv, redirs[1..], Simple(acc.argv, acc.redirs + [redirs[0]]));
      assert acc.redirs + [redirs[0]] + redirs[1..] == acc.redirs + redirs;
    }
  }

  lemma {:induction false} BlockComplete(s: string, i: nat, j: nat, cmd: Cmd)
    requires NoNul(s) && AtToken(s, i) && AtToken(s, j) && BlockD(s, i, j, cmd) && Stops(Kind(s, j))
    ensures ParseExec(s, i) == Ok(cmd, j)
    decreases |s| - i, 0
  {
    hide SimpleD, Wrap, TokenAt, Skip, WordEnd, Peeks, IsWord;
    var k: nat, c, redirs :| AtToken(s, k) && LineD(s, Next(s, i), k, c)
      && Kind(s, k) == ')' && SimpleD(s, Next(s, k), j, [], redirs) && Redirected(cmd, c, redirs);
    WrapChain(cmd, c, redirs);
    hide LineD;
    NextAtToken(s, i);
    NextAtToken(s, k);
    KindPeeks(s, i);
    KindPeeks(s, k);
    LineComplete(s, Next(s, i), k, c);
    RedirsComplete(s, Next(s, k), j, redirs, []);
    assert [] + redirs == redirs;
  }

  lemma {:induction false} ExecComplete(s: string, i: nat, j: nat, cmd: Cmd)
    requires NoNul(s) && AtToken(s, i) && AtToken(s, j) && ExecD(s, i, j, cmd) && Stops(Kind(s, j))
    ensures ParseExec(s, i) == Ok(cmd, j)
    decreases |s| - i, 1
  {
    hide BlockD, TokenAt, Skip, WordEnd, Peeks, IsWord;
    KindPeeks(s, i);
    if BlockD(s, i, j, cmd) {
      BlockComplete(s, i, j, cmd);
    } else {
      var argv, redirs :| SimpleD(s, i, j, argv, redirs) && |argv| < MAXARGS && Redirected(cmd, Exec(argv), redirs);
      WrapChain(cmd, Exec(argv), redirs);
      SimpleComplete(s, i, j, argv, redirs, Simple([], []));
      assert [] + argv == argv && [] + redirs == redirs;
    }
  }

  lemma {:induction false} PipeComplete(s: string, i: nat, j: nat, cmd: Cmd)
    requires NoNul(s) && AtToken(s, i) && AtToken(s, j) && PipeD(s, i, j, cmd) && Stops(Kind(s, j)) && Kind(s, j) != '|'
    ensures ParsePipe(s, i) == Ok(cmd, j)
    decreases |s| - i, 2
  {
    hide ExecD, ParseExec, TokenAt, Skip, WordEnd, Peeks, IsWord;
    KindPeeks(s, j);
    if ExecD(s, i, j, cmd) {
      ExecComplete(s, i, j, cmd);
    } else {
      var k: nat, l, r :| AtToken(s, k) && i <= k && ExecD(s, i, k, l) && Kind(s, k) == '|' &&
          PipeD(s, Next(s, k), j, r) && cmd == Pipe(l, r);
      NextAtToken(s, k);
      KindPeeks(s, k);
      ExecComplete(s, i, k, l);
      PipeComplete(s, Next(s, k), j, r);
    }
  }

  lemma {:induction false} BacksComplete(s: string, i: nat, j: nat, cmd: Cmd) returns (k: nat, c: Cmd)
    requires NoNul(s) && AtToken(s, i) && AtToken(s, j) && BacksD(s, i, j, cmd)
    requires Stops(Kind(s, j)) && Kind(s, j) != '|'
    ensures k <= |s| && ParsePipe(s, i) == Ok(c, k) && ParseBacks(s, k, c) == ParseBacks(s, j, cmd)
    decreases |s| - i, 3, cmd
  {
    hide PipeD, ParsePipe, TokenAt, Skip, WordEnd, Peeks, IsWord;
    if PipeD(s, i, j, cmd) {
      PipeComplete(s, i, j, cmd);
      k, c := j, cmd;
    } else {
      var m: nat :| AtToken(s, m) && BacksD(s, i, m, cmd.cmd) && Kind(s, m) == '&' && Next(s, m) == j;
      NextAtToken(s, m);
      KindPeeks(s, m);
      k, c := BacksComplete(s, i, m, cmd.cmd);
    }
  }

  lemma {:induction false} LineComplete(s: string, i: nat, j: nat, cmd: Cmd)
    requires NoNul(s) && AtToken(s, i) && AtToken(s, j) && LineD(s, i, j, cmd) && (Kind(s, j) == ')' ||
            Kind(s, j) == '\0')
    ensures ParseLine(s, i) == Ok(cmd, j)
    decreases |s| - i, 4
  {
    hide BacksD, ParsePipe, TokenAt, Skip, WordEnd, Peeks, IsWord;
    KindPeeks(s, j);
    if BacksD(s, i, j, cmd) {
      var k, c := BacksComplete(s, i, j, cmd);
    } else {
      var m: nat, l, r :| AtToken(s, m) && i <= m && BacksD(s, i, m, l) && Kind(s, m) == ';' &&
          LineD(s, Next(s, m), j, r) && cmd == List(l, r);
      NextAtToken(s, m);
      KindPeeks(s, m);
      var k, c := BacksComplete(s, i, m, l);
      LineComplete(s, Next(s, m), j, r);
    }
  }

  // ---------------------------------------------------------------------------
  // What the parser accepts, the grammar derives
  // ---------------------------------------------------------------------------

  /** Redirections in front of a simple command. */
  lemma {:induction false} SimpleAppend(s: string, i: nat, j: nat, k: nat, rs: seq<Redirection>, argv: seq<Span>,
                                        redirs: seq<Redirection>)
    requires i <= |s| && j <= |s| && k <= |s| && SimpleD(s, i, j, [], rs) && SimpleD(s, j, k, argv, redirs)
    ensures SimpleD(s, i, k, argv, rs + redirs)
    decreases |s| - i
  {
    hide TokenAt, Skip, WordEnd, Peeks, IsWord;
    if i == j {
      assert rs + redirs == redirs;
    } else {
      SimpleAppend(s, Next(s, Next(s, i)), j, k, rs[1..], argv, redirs);
      assert (rs + redirs)[1..] == rs[1..] + redirs;
    }
  }

  lemma {:induction false} RedirsSound(s: string, i: nat, acc: seq<Redirection>) returns (redirs: seq<Redirection>)
    requires NoNul(s) && AtToken(s, i) && ParseRedirs(s, i, acc).Ok?
    ensures var r := ParseRedirs(s, i, acc);
      r.value == acc + redirs && AtToken(s, r.pos) && SimpleD(s, i, r.pos, [], redirs) && i <= r.pos
    decreases |s| - i
  {
    hide TokenAt, Skip, WordEnd, Peeks, IsWord;
    KindPeeks(s, i);
    if IsRedirOp(Kind(s, i)) {
      NextAtToken(s, i);
      NextAtToken(s, Next(s, i));
      var first := Redirection(Word(s, Next(s, i)), ModeOf(Kind(s, i)));
      var rest := RedirsSound(s, Next(s, Next(s, i)), acc + [first]);
      redirs := [first] + rest;
      assert redirs[1..] == rest && acc + redirs == acc + [first] + rest;
    } else {
      redirs := [];
      assert acc + [] == acc;
    }
  }

  lemma WordThen(s: string, i: nat, j: nat, argv: seq<Span>, redirs: seq<Redirection>)
    requires i < j <= |s| && Kind(s, i) == 'a' && SimpleD(s, Next(s, i), j, argv, redirs)
    ensures SimpleD(s, i, j, [Word(s, i)] + argv, redirs)
  {
    hide TokenAt;
    assert ([Word(s, i)] + argv)[1..] == argv;
  }

  lemma {:induction false} ArgsSound(s: string, i: nat, acc: Simple) returns (argv: seq<Span>, redirs: seq<Redirection>)
    requires NoNul(s) && AtToken(s, i) && |acc.argv| < MAXARGS && ParseArgs(s, i, acc).Ok?
    ensures var r := ParseArgs(s, i, acc);
      && r.value == Simple(acc.argv + argv, acc.redirs + redirs) && |r.value.argv| < MAXARGS
      && AtToken(s, r.pos) && SimpleD(s, i, r.pos, argv, redirs) && i <= r.pos
    decreases |s| - i
  {
    hide TokenAt, Skip, WordEnd, Peeks, IsWord, ParseRedirs, ParseArgs;
    ArgsStep(s, i, acc);
    NextAtToken(s, i);
    if Kind(s, i) == 'a' {
      var w, n := Word(s, i), Next(s, i);
      var rs := RedirsSound(s, n, acc.redirs);
      var more := ParseRedirs(s, n, acc.redirs);
      var rest, last := ArgsSound(s, more.pos, Simple(acc.argv + [w], more.value));
      argv, redirs := [w] + rest, rs + last;
      var end := ParseArgs(s, more.pos, Simple(acc.argv + [w], more.value)).pos;
      SimpleAppend(s, n, more.pos, end, rs, rest, last);
      WordThen(s, i, end, rest, redirs);
      assert acc.argv + argv == acc.argv + [w] + rest;
      assert acc.redirs + redirs == acc.redirs + rs + last;
      hide SimpleD;
    } else {
      argv, redirs := [], [];
      assert acc.argv + [] == acc.argv && acc.redirs + [] == acc.redirs;
    }
  }

  lemma SimpleSound(s: string, i: nat)
    requires NoNul(s) && AtToken(s, i) && ParseSimple(s, i).Ok?
    ensures AtToken(s, ParseSimple(s, i).pos) && ExecD(s, i, ParseSimple(s, i).pos, ParseSimple(s, i).value)
  {
    hide BlockD, TokenAt, Skip, WordEnd, Peeks, IsWord, ParseRedirs, ParseArgs, SimpleD;
    var rs := RedirsSound(s, i, []);
    var first := ParseRedirs(s, i, []);
    var argv, redirs := ArgsSound(s, first.pos, Simple([], first.value));
    var end := ParseArgs(s, first.pos, Simple([], first.value)).pos;
    SimpleAppend(s, i, first.pos, end, rs, argv, redirs);
    assert [] + argv == argv && [] + rs + redirs == rs + redirs;
    assert SimpleD(s, i, end, argv, rs + redirs);
    WrapChain(Wrap(Exec(argv), rs + redirs), Exec(argv), rs + redirs);
  }

  lemma {:induction false} ExecSound(s: string, i: nat)
    requires NoNul(s) && AtToken(s, i) && ParseExec(s, i).Ok?
    ensures AtToken(s, ParseExec(s, i).pos) && ExecD(s, i, ParseExec(s, i).pos, ParseExec(s, i).value)
    decreases |s| - i, 1
  {
    hide SimpleD, LineD, Wrap, ParseLine, ParseSimple, TokenAt, Skip, WordEnd, Peeks, IsWord;
    KindPeeks(s, i);
    if Kind(s, i) == '(' {
      NextAtToken(s, i);
      LineSound(s, Next(s, i));
      var line := ParseLine(s, Next(s, i));
      KindPeeks(s, line.pos);
      NextAtToken(s, line.pos);
      var redirs := RedirsSound(s, Next(s, line.pos), []);
      assert [] + redirs == redirs;
      var end := ParseRedirs(s, Next(s, line.pos), []).pos;
      WrapChain(Wrap(line.value, redirs), line.value, redirs);
      assert BlockD(s, i, end, Wrap(line.value, redirs));
    } else {
      SimpleSound(s, i);
    }
  }

  lemma {:induction false} PipeSound(s: string, i: nat)
    requires NoNul(s) && AtToken(s, i) && ParsePipe(s, i).Ok?
    ensures AtToken(s, ParsePipe(s, i).pos) && PipeD(s, i, ParsePipe(s, i).pos, ParsePipe(s, i).value)
    decreases |s| - i, 2
  {
    hide ExecD, ParseExec, TokenAt, Skip, WordEnd, Peeks, IsWord;
    ExecSound(s, i);
    var left := ParseExec(s, i);
    KindPeeks(s, left.pos);
    if Kind(s, left.pos) == '|' {
      NextAtToken(s, left.pos);
      PipeSound(s, Next(s, left.pos));
    }
  }

  lemma {:induction false} BacksSound(s: string, i: nat, j: nat, cmd: Cmd)
    requires NoNul(s) && i <= j && AtToken(s, j) && BacksD(s, i, j, cmd)
    ensures var r := ParseBacks(s, j, cmd); AtToken(s, r.pos) && BacksD(s, i, r.pos, r.value) && Kind(s, r.pos) != '&'
    decreases |s| - j
  {
    hide PipeD, TokenAt, Skip, WordEnd, Peeks, IsWord;
    KindPeeks(s, j);
    if Kind(s, j) == '&' {
      NextAtToken(s, j);
      assert BacksD(s, i, Next(s, j), Back(cmd));
      BacksSound(s, i, Next(s, j), Back(cmd));
    }
  }

  lemma {:induction false} LineSound(s: string, i: nat)
    requires NoNul(s) && AtToken(s, i) && ParseLine(s, i).Ok?
    ensures AtToken(s, ParseLine(s, i).pos) && LineD(s, i, ParseLine(s, i).pos, ParseLine(s, i).value)
    decreases |s| - i, 3
  {
    hide PipeD, ParsePipe, TokenAt, Skip, WordEnd, Peeks, IsWord;
    PipeSound(s, i);
    var first := ParsePipe(s, i);
    assert BacksD(s, i, first.pos, first.value);
    BacksSound(s, i, first.pos, first.value);
    var b := ParseBacks(s, first.pos, first.value);
    hide BacksD, ParseBacks;
    KindPeeks(s, b.pos);
    if Kind(s, b.pos) == ';' {
      NextAtToken(s, b.pos);
      LineSound(s, Next(s, b.pos));
    }
  }

  // ---------------------------------------------------------------------------
  // The language
  // ---------------------------------------------------------------------------

  lemma LineSkips(s: string, i: nat)
    requires i <= |s|
    ensures ParseLine(s, Skip(s, i)) == ParseLine(s, i)
  {
    Skipped(s, i, "(");
    SkipTwice(s, i);
    assert ParseExec(s, Skip(s, i)) == ParseExec(s, i);
    hide ParseExec;
    assert ParsePipe(s, Skip(s, i)) == ParsePipe(s, i);
    hide ParsePipe;
  }

  /** The parser accepts a line exactly if the grammar derives it, and gives the command it derives. */
  lemma ParsesTheLanguage(s: string, cmd: Cmd)
    requires NoNul(s)
    ensures ParseCmd(s) == Ok(cmd, |s|) <==> Derives(s, cmd)
  {
    hide LineD, ParseLine, TokenAt, Skip, WordEnd, Peeks, IsWord;
    LineSkips(s, 0);
    NextAtToken(s, 0);
    KindPeeks(s, |s|);
    if Derives(s, cmd) {
      LineComplete(s, Skip(s, 0), |s|, cmd);
    }
    if ParseCmd(s) == Ok(cmd, |s|) {
      LineSound(s, Skip(s, 0));
    }
  }

  /** It fails on every other line. */
  lemma AcceptsTheLanguage(s: string)
    requires NoNul(s)
    ensures ParseCmd(s).Ok? <==> exists cmd :: Derives(s, cmd)
  {
    hide Derives, ParseCmd;
    if ParseCmd(s).Ok? {
      ParsesTheLanguage(s, ParseCmd(s).value);
    }
    if cmd :| Derives(s, cmd) {
      ParsesTheLanguage(s, cmd);
    }
  }

  /** The grammar is not ambiguous. */
  lemma DerivesOnce(s: string, a: Cmd, b: Cmd)
    requires NoNul(s) && Derives(s, a) && Derives(s, b)
    ensures a == b
  {
    hide Derives, ParseCmd;
    ParsesTheLanguage(s, a);
    ParsesTheLanguage(s, b);
  }
}
