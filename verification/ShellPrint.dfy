/**
  Printing command trees for the shell (`user/sh.c`) and parsing them back.
 */
module ShellPrint {
  import opened Shell
  import opened ShellParser

  /** A command with its words as text. */
  datatype Tree =
    | Words(args: seq<string>)
    | To(cmd: Tree, file: string, mode: Mode)
    | Piped(left: Tree, right: Tree)
    | Then(left: Tree, right: Tree)
    | Behind(cmd: Tree)

  ghost predicate LegalWord(w: string) { |w| > 0 && forall i :: 0 <= i < |w| ==> IsWordChar(w[i]) && w[i] != '\0' }

  ghost predicate LegalWords(args: seq<string>) { forall i :: 0 <= i < |args| ==> LegalWord(args[i]) }

  /** At most nine arguments, and words that the shell can read as words. */
  ghost predicate Legal(t: Tree) {
    match t
    case Words(args) => |args| < MAXARGS && LegalWords(args)
    case To(c, file, _) => Legal(c) && LegalWord(file)
    case Piped(l, r) => Legal(l) && Legal(r)
    case Then(l, r) => Legal(l) && Legal(r)
    case Behind(c) => Legal(c)
  }

  function Join(args: seq<string>): (r: string) {
    if args == [] then "" else if |args| == 1 then args[0] else args[0] + " " + Join(args[1..])
  }

  function Operator(mode: Mode): (r: string) {
    match mode case Read => "<" case Truncate => ">" case Append => ">>"
  }

  function Paren(p: string): (r: string)
    ensures |r| == |p| + 2 && r[0] == '('
  {
    "(" + p + ")"
  }

  /** Every operand in parentheses. */
  function Print(t: Tree): (r: string) {
    match t
    case Words(args) => Join(args)
    case To(c, file, mode) => Paren(Print(c)) + (Operator(mode) + file)
    case Piped(l, r) => Paren(Print(l)) + ("|" + Paren(Print(r)))
    case Then(l, r) => Paren(Print(l)) + (";" + Paren(Print(r)))
    case Behind(c) => Paren(Print(c)) + "&"
  }

  function SpanText(s: string, w: Span): (r: string) { if w.q <= w.eq <= |s| then s[w.q..w.eq] else "" }

  function Texts(s: string, argv: seq<Span>): (r: seq<string>)
    ensures |r| == |argv| && forall i :: 0 <= i < |argv| ==> r[i] == SpanText(s, argv[i])
  {
    if argv == [] then [] else Texts(s, argv[..|argv| - 1]) + [SpanText(s, argv[|argv| - 1])]
  }

  /** The text of a parsed command. */
  function TreeOf(s: string, cmd: Cmd): (t: Tree) {
    match cmd
    case Exec(argv) => Words(Texts(s, argv))
    case Redir(c, file, mode) => To(TreeOf(s, c), SpanText(s, file), mode)
    case Pipe(l, r) => Piped(TreeOf(s, l), TreeOf(s, r))
    case List(l, r) => Then(TreeOf(s, l), TreeOf(s, r))
    case Back(c) => Behind(TreeOf(s, c))
  }

  // ---------------------------------------------------------------------------
  // A text inside the input
  // ---------------------------------------------------------------------------

  ghost predicate At(s: string, i: nat, p: string) { i + |p| <= |s| && forall k :: 0 <= k < |p| ==> p[k] == s[i + k] }

  lemma AtSplit(s: string, i: nat, p: string, q: string)
    requires At(s, i, p + q)
    ensures At(s, i, p) && At(s, i + |p|, q)
  {
    forall k | 0 <= k < |p| ensures p[k] == s[i + k] { assert (p + q)[k] == p[k]; }
    forall k | 0 <= k < |q| ensures q[k] == s[i + |p| + k] { assert (p + q)[|p| + k] == q[k]; }
  }

  lemma AtChar(s: string, i: nat, p: string, k: nat)
    requires At(s, i, p) && k < |p|
    ensures s[i + k] == p[k]
  {
  }

  /** What follows a line: the end of the input, or the parenthesis that closes its block. */
  ghost predicate Ends(s: string, j: nat) { j == |s| || (j < |s| && s[j] == ')') }

  lemma NoSpace(s: string, i: nat)
    requires i <= |s| && (i < |s| ==> !IsSpace(s[i]))
    ensures Skip(s, i) == i
  {
  }

  // ---------------------------------------------------------------------------
  // Simple commands
  // ---------------------------------------------------------------------------

  lemma {:induction false} WordEndIs(s: string, i: nat, e: nat)
    requires i <= e <= |s| && (forall k :: i <= k < e ==> IsWordChar(s[k])) && (e < |s| ==> !IsWordChar(s[e]))
    ensures WordEnd(s, i) == e
    decreases e - i
  {
    if i < e {
      WordEndIs(s, i + 1, e);
    }
  }

  /** A legal word that a separator or the end follows is one token. */
  lemma WordToken(s: string, i: nat, w: string)
    requires At(s, i, w) && LegalWord(w) && (i + |w| < |s| ==> !IsWordChar(s[i + |w|]))
    ensures var t := TokenAt(s, i);
      t.kind == 'a' && t.q == i && t.eq == i + |w| && t.next == Skip(s, i + |w|) && SpanText(s, Span(t.q, t.eq)) == w
    ensures s[i] == w[0]
  {
    forall k | i <= k < i + |w| ensures IsWordChar(s[k]) && s[k] != '\0' { AtChar(s, i, w, k - i); }
    NoSpace(s, i);
    WordEndIs(s, i, i + |w|);
  }

  lemma NoRedirs(s: string, i: nat, acc: seq<Redirection>)
    requires i <= |s| && (i < |s| ==> !IsSpace(s[i]) && s[i] != '<' && s[i] != '>')
    ensures ParseRedirs(s, i, acc) == Ok(acc, i)
  {
    NoSpace(s, i);
  }

  /** One argument is read. */
  lemma ArgStep(s: string, i: nat, w: string, next: nat, acc: Simple)
    requires At(s, i, w) && LegalWord(w) && (i + |w| < |s| ==> !IsWordChar(s[i + |w|])) && next == Skip(s, i + |w|)
    requires next < |s| ==> s[next] != '<' && s[next] != '>'
    requires |acc.argv| + 1 < MAXARGS
    ensures i < |s| && next <= |s| && SpanText(s, Span(i, i + |w|)) == w
    ensures ParseArgs(s, i, acc) == ParseArgs(s, next, Simple(acc.argv + [Span(i, i + |w|)], acc.redirs))
  {
    WordToken(s, i, w);
    NoSpace(s, i);
    assert !Peeks(s, i, "|)&;");
    NoRedirs(s, next, acc.redirs);
  }

  lemma JoinMore(args: seq<string>)
    requires |args| > 1
    ensures Join(args) == args[0] + (" " + Join(args[1..]))
  {
    assert args[0] + " " + Join(args[1..]) == args[0] + (" " + Join(args[1..]));
  }

  /** Where the next argument starts. */
  lemma NextArg(s: string, i: nat, args: seq<string>)
    requires args != [] && At(s, i, Join(args)) && Ends(s, i + |Join(args)|) && LegalWords(args)
    ensures At(s, i, args[0]) && (i + |args[0]| < |s| ==> !IsWordChar(s[i + |args[0]|]))
    ensures var next := Skip(s, i + |args[0]|);
      next + |Join(args[1..])| == i + |Join(args)| && At(s, next, Join(args[1..])) && (next < |s| ==>
          s[next] != '<' && s[next] != '>')
  {
    var w := args[0];
    if |args| > 1 {
      JoinMore(args);
      hide Join, LegalWord, Ends;
      AtSplit(s, i, w, " " + Join(args[1..]));
      AtSplit(s, i + |w|, " ", Join(args[1..]));
      AtChar(s, i + |w|, " ", 0);
      hide At;
      var next := i + |w| + 1;
      JoinStart(s, next, args[1..]);
      NoSpace(s, next);
      assert Skip(s, i + |w|) == next;
    } else {
      assert args[1..] == [];
      NoSpace(s, i + |w|);
    }
  }

  lemma {:induction false} ArgsParse(s: string, i: nat, args: seq<string>, acc: Simple) returns (argv: seq<Span>)
    requires At(s, i, Join(args)) && Ends(s, i + |Join(args)|) && LegalWords(args) && |acc.argv| + |args| < MAXARGS
    ensures ParseArgs(s, i, acc) == Ok(Simple(acc.argv + argv, acc.redirs), i + |Join(args)|)
    ensures |argv| == |args| && forall k :: 0 <= k < |args| ==> SpanText(s, argv[k]) == args[k]
    decreases |args|
  {
    hide At, Join, LegalWord, Skip, SpanText, ParseArgs, Ends;
    if args == [] {
      argv := [];
      ArgsEnd(s, i, acc);
      assert acc.argv + [] == acc.argv;
    } else {
      NextArg(s, i, args);
      var next := Skip(s, i + |args[0]|);
      ArgStep(s, i, args[0], next, acc);
      var first := Span(i, i + |args[0]|);
      var more := ArgsParse(s, next, args[1..], Simple(acc.argv + [first], acc.redirs));
      argv := [first] + more;
      assert acc.argv + argv == acc.argv + [first] + more;
      forall k | 0 <= k < |args| ensures SpanText(s, argv[k]) == args[k] {
        if k > 0 { assert args[k] == args[1..][k - 1]; }
      }
    }
  }

  /** The arguments end where the line ends. */
  lemma ArgsEnd(s: string, i: nat, acc: Simple)
    requires At(s, i, Join([])) && Ends(s, i + |Join([])|)
    ensures ParseArgs(s, i, acc) == Ok(acc, i) && |Join([])| == 0
  {
    NoSpace(s, i);
  }

  lemma JoinStart(s: string, i: nat, args: seq<string>)
    requires At(s, i, Join(args)) && LegalWords(args) && args != []
    ensures i < |s| && IsWordChar(s[i])
  {
    if |args| > 1 {
      JoinMore(args);
      AtSplit(s, i, args[0], " " + Join(args[1..]));
    }
    AtChar(s, i, args[0], 0);
  }

  /** From a parsed operand that nothing but the end follows to a parsed line. */
  lemma OnlyExec(s: string, i: nat, cmd: Cmd, j: nat)
    requires i <= j <= |s| && ParseExec(s, i) == Ok(cmd, j) && Ends(s, j)
    ensures ParsePipe(s, i) == Ok(cmd, j) && ParseLine(s, i) == Ok(cmd, j)
  {
    NoSpace(s, j);
    assert ParsePipe(s, i) == Ok(cmd, j);
    assert ParseBacks(s, j, cmd) == Ok(cmd, j);
  }

  /** At the start of a printed simple command there is nothing but a word or the end. */
  lemma WordsStart(s: string, i: nat, args: seq<string>)
    requires At(s, i, Join(args)) && Ends(s, i + |Join(args)|) && LegalWords(args)
    ensures i <= |s| && Skip(s, i) == i && !Peeks(s, i, "(") && ParseRedirs(s, i, []) == Ok([], i)
  {
    if args != [] {
      JoinStart(s, i, args);
    }
    NoSpace(s, i);
    hide At, Join, LegalWords;
    NoRedirs(s, i, []);
  }

  lemma WordsParse(s: string, i: nat, args: seq<string>) returns (cmd: Cmd)
    requires At(s, i, Join(args)) && Ends(s, i + |Join(args)|) && Legal(Words(args))
    ensures ParseLine(s, i) == Ok(cmd, i + |Join(args)|) && TreeOf(s, cmd) == Words(args)
  {
    hide At, Join, LegalWords, Ends, Peeks, Skip, ParseRedirs, ParseArgs, ParseLine, ParseExec, SpanText;
    WordsStart(s, i, args);
    var argv := ArgsParse(s, i, args, Simple([], []));
    assert [] + argv == argv;
    cmd := Exec(argv);
    SimpleIs(s, i, argv, i + |Join(args)|);
    OnlyExec(s, i, cmd, i + |Join(args)|);
    assert Texts(s, argv) == args;
  }

  lemma SimpleIs(s: string, i: nat, argv: seq<Span>, j: nat)
    requires i <= |s| && ParseRedirs(s, i, []) == Ok([], i) &&
            ParseArgs(s, i, Simple([], [])) == Ok(Simple(argv, []), j) && Skip(s, i) == i
    requires !Peeks(s, i, "(")
    ensures ParseExec(s, i) == Ok(Exec(argv), j)
  {
    assert Wrap(Exec(argv), []) == Exec(argv);
    assert ParseSimple(s, i) == Ok(Exec(argv), j);
  }

  // ---------------------------------------------------------------------------
  // Blocks
  // ---------------------------------------------------------------------------

  /** A printed command starts with no white space. */
  lemma PrintStart(s: string, i: nat, t: Tree)
    requires At(s, i, Print(t)) && Legal(t) && Ends(s, i + |Print(t)|)
    ensures i < |s| ==> !IsSpace(s[i])
  {
    if t.Words? {
      if t.args != [] { JoinStart(s, i, t.args); }
    } else {
      assert Print(t)[0] == '(';
      AtChar(s, i, Print(t), 0);
    }
  }

  /** "(" t ")" at i, where the inside parses: up to the closing parenthesis. */
  lemma BlockInside(s: string, i: nat, t: Tree, j: nat)
    requires At(s, i, Paren(Print(t))) && j == i + 1 + |Print(t)| && Legal(t)
    ensures i < j < |s| && s[i] == '(' && s[j] == ')' && At(s, i + 1, Print(t)) && Ends(s, j)
    ensures TokenAt(s, i).next == i + 1 && Peeks(s, i, "(") && Skip(s, i) == i
  {
    var p := Print(t);
    assert Paren(p) == ("(" + p) + ")";
    AtSplit(s, i, "(" + p, ")");
    AtSplit(s, i, "(", p);
    AtChar(s, i, "(", 0);
    AtChar(s, j, ")", 0);
    NoSpace(s, i);
    hide Print;
    PrintStart(s, i + 1, t);
    NoSpace(s, i + 1);
  }

  lemma CloseToken(s: string, j: nat)
    requires j < |s| && s[j] == ')' && (j + 1 < |s| ==> !IsSpace(s[j + 1]))
    ensures TokenAt(s, j).next == j + 1 && Peeks(s, j, ")")
  {
    NoSpace(s, j);
    NoSpace(s, j + 1);
  }

  /** A block whose inside has been parsed, and the redirections behind it. */
  lemma BlockIs(s: string, i: nat, j: nat, cmd: Cmd, redirs: seq<Redirection>, k: nat)
    requires i < j < |s| && s[i] == '(' && s[j] == ')' && TokenAt(s, i).next == i + 1 &&
            ParseLine(s, i + 1) == Ok(cmd, j)
    requires Peeks(s, i, "(") && Skip(s, i) == i && (j + 1 < |s| ==> !IsSpace(s[j + 1]))
    requires ParseRedirs(s, j + 1, []) == Ok(redirs, k)
    ensures ParseExec(s, i) == Ok(Wrap(cmd, redirs), k)
  {
    hide ParseLine, ParseRedirs, Wrap;
    CloseToken(s, j);
    hide TokenAt, Peeks, Skip;
    assert ParseBlock(s, i) == Ok(Wrap(cmd, redirs), k);
  }

  /** "(" t ")" alone, followed by something that is no redirection. */
  lemma BlockAlone(s: string, i: nat, t: Tree, cmd: Cmd)
    requires At(s, i, Paren(Print(t))) && Legal(t) && ParseLine(s, i + 1) == Ok(cmd, i + 1 + |Print(t)|)
    requires var k := i + 2 + |Print(t)|; k < |s| ==> !IsSpace(s[k]) && s[k] != '<' && s[k] != '>'
    ensures ParseExec(s, i) == Ok(cmd, i + 2 + |Print(t)|)
  {
    hide At, Print, TokenAt, Peeks, Skip, Legal, ParseLine, ParseExec, ParseRedirs;
    var j := i + 1 + |Print(t)|;
    BlockInside(s, i, t, j);
    NoRedirs(s, j + 1, []);
    BlockIs(s, i, j, cmd, [], j + 1);
    assert Wrap(cmd, []) == cmd;
  }

  /** A redirection operator in front of a word is one token. */
  lemma OperatorToken(s: string, j: nat, mode: Mode)
    requires At(s, j, Operator(mode)) && j + |Operator(mode)| < |s| && IsWordChar(s[j + |Operator(mode)|])
    ensures var op := TokenAt(s, j); op.next == j + |Operator(mode)| && ModeOf(op.kind) == mode
    ensures j < |s| && !IsSpace(s[j]) && Peeks(s, j, "<>")
  {
    AtChar(s, j, Operator(mode), 0);
    if mode.Append? { AtChar(s, j, Operator(mode), 1); }
    NoSpace(s, j);
    NoSpace(s, j + |Operator(mode)|);
  }

  /** The file of a redirection behind which the line ends. */
  lemma FileToken(s: string, f: nat, file: string)
    requires At(s, f, file) && LegalWord(file) && Ends(s, f + |file|)
    ensures f < |s| && IsWordChar(s[f])
    ensures TokenAt(s, f) == Token('a', f, f + |file|, f + |file|) && SpanText(s, Span(f, f + |file|)) == file
  {
    hide TokenAt, SpanText;
    AtChar(s, f, file, 0);
    WordToken(s, f, file);
    NoSpace(s, f + |file|);
  }

  /** One step of parseredirs. */
  lemma RedirStep(s: string, j: nat, f: nat, e: nat, mode: Mode, acc: seq<Redirection>)
    requires j < f < e <= |s| && Peeks(s, j, "<>") && TokenAt(s, j).next == f && ModeOf(TokenAt(s, j).kind) == mode
    requires TokenAt(s, f) == Token('a', f, e, e)
    ensures ParseRedirs(s, j, acc) == ParseRedirs(s, e, acc + [Redirection(Span(f, e), mode)])
  {
    hide TokenAt, Peeks;
  }

  /** One redirection, and then the end. */
  lemma OneRedir(s: string, j: nat, mode: Mode, file: string)
    requires At(s, j, Operator(mode) + file) && LegalWord(file) && Ends(s, j + |Operator(mode)| + |file|)
    ensures j < |s| && !IsSpace(s[j])
    ensures var f := j + |Operator(mode)|; var w := Span(f, f + |file|);
      ParseRedirs(s, j, []) == Ok([Redirection(w, mode)], f + |file|) && SpanText(s, w) == file
  {
    hide At, TokenAt, LegalWord, SpanText, Peeks, ParseRedirs;
    var f := j + |Operator(mode)|;
    AtSplit(s, j, Operator(mode), file);
    FileToken(s, f, file);
    OperatorToken(s, j, mode);
    var one := [Redirection(Span(f, f + |file|), mode)];
    assert [] + one == one;
    RedirStep(s, j, f, f + |file|, mode, []);
    NoRedirs(s, f + |file|, one);
  }

  // ---------------------------------------------------------------------------
  // The round trip
  // ---------------------------------------------------------------------------

  lemma ToParse(s: string, i: nat, t: Tree, c: Cmd) returns (cmd: Cmd)
    requires t.To? && Legal(t) && At(s, i, Print(t)) && Ends(s, i + |Print(t)|)
    requires ParseLine(s, i + 1) == Ok(c, i + 1 + |Print(t.cmd)|) && TreeOf(s, c) == t.cmd
    ensures ParseLine(s, i) == Ok(cmd, i + |Print(t)|) && TreeOf(s, cmd) == t
  {
    hide At, Ends, LegalWord, ParseLine, ParseExec, ParseRedirs, TokenAt, Peeks, Skip, Operator, SpanText, Wrap,
        IsSpace;
    var block, tail := Paren(Print(t.cmd)), Operator(t.mode) + t.file;
    assert Print(t) == block + tail;
    AtSplit(s, i, block, tail);
    var j := i + 1 + |Print(t.cmd)|;
    BlockInside(s, i, t.cmd, j);
    OneRedir(s, j + 1, t.mode, t.file);
    var w := Span(j + 1 + |Operator(t.mode)|, j + 1 + |tail|);
    BlockIs(s, i, j, c, [Redirection(w, t.mode)], j + 1 + |tail|);
    cmd := Redir(c, w, t.mode);
    WrapOne(c, w, t.mode);
    OnlyExec(s, i, cmd, j + 1 + |tail|);
  }

  lemma WrapOne(c: Cmd, w: Span, mode: Mode)
    ensures Wrap(c, [Redirection(w, mode)]) == Redir(c, w, mode) && Wrap(c, []) == c
  {
    assert [Redirection(w, mode)][..0] == [];
    assert Wrap(c, []) == c;
  }

  lemma TokenBetween(s: string, j: nat, mid: char)
    requires j + 1 < |s| && s[j] == mid && s[j + 1] == '(' && (mid == '|' || mid == ';')
    ensures Skip(s, j) == j && TokenAt(s, j) == Token(mid, j, j + 1, j + 1)
  {
    NoSpace(s, j);
    NoSpace(s, j + 1);
  }

  /** Two operands in parentheses with a character between them. */
  lemma TwoBlocks(s: string, i: nat, l: Tree, r: Tree, mid: char)
    requires At(s, i, Paren(Print(l)) + ([mid] + Paren(Print(r)))) && (mid == '|' || mid == ';')
    ensures var j := i + 2 + |Print(l)|;
      && j + 3 + |Print(r)| <= |s| && s[j] == mid && At(s, i, Paren(Print(l))) && At(s, j + 1, Paren(Print(r)))
      && s[j + 1] == '(' && Skip(s, j) == j && TokenAt(s, j) == Token(mid, j, j + 1, j + 1)
  {
    hide Print, At, Skip, TokenAt;
    var a, b := Paren(Print(l)), Paren(Print(r));
    var j := i + |a|;
    AtSplit(s, i, a, [mid] + b);
    AtSplit(s, j, [mid], b);
    InRange(s, j + 1, b);
    AtChar(s, j, [mid], 0);
    AtChar(s, j + 1, b, 0);
    TokenBetween(s, j, mid);
  }

  /** Both operands parse. */
  lemma TwoExecs(s: string, i: nat, l: Tree, r: Tree, mid: char, c: Cmd, d: Cmd, j: nat, e: nat)
    requires At(s, i, Paren(Print(l)) + ([mid] + Paren(Print(r)))) && (mid == '|' || mid == ';') && Legal(l) && Legal(r)
    requires j == i + 2 + |Print(l)| && e == j + 3 + |Print(r)| && Ends(s, e)
    requires i + 1 <= |s| && ParseLine(s, i + 1) == Ok(c, i + 1 + |Print(l)|)
    requires j + 2 <= |s| && ParseLine(s, j + 2) == Ok(d, j + 2 + |Print(r)|)
    ensures i <= j < e <= |s| && s[j] == mid && Skip(s, j) == j && TokenAt(s, j) == Token(mid, j, j + 1, j + 1)
    ensures ParseExec(s, i) == Ok(c, j) && ParsePipe(s, j + 1) == Ok(d, e) && ParseLine(s, j + 1) == Ok(d, e)
  {
    hide At, Ends, ParseLine, ParseExec, ParsePipe, TokenAt, Peeks, Skip, IsSpace, Print, Paren, Legal;
    TwoBlocks(s, i, l, r, mid);
    Separators();
    ParenStart();
    BlockAlone(s, i, l, c);
    EndIsNoRedirection(s, e);
    BlockAlone(s, j + 1, r, d);
    OnlyExec(s, j + 1, d, e);
  }

  lemma ParenStart()
    ensures !IsSpace('(')
  {
  }

  lemma PipedParse(s: string, i: nat, t: Tree, c: Cmd, d: Cmd) returns (cmd: Cmd)
    requires t.Piped? && Legal(t) && At(s, i, Print(t)) && Ends(s, i + |Print(t)|)
    requires i + 1 <= |s| && ParseLine(s, i + 1) == Ok(c, i + 1 + |Print(t.left)|) && TreeOf(s, c) == t.left
    requires var k := i + 4 + |Print(t.left)|;
      k <= |s| && ParseLine(s, k) == Ok(d, k + |Print(t.right)|) && TreeOf(s, d) == t.right
    ensures ParseLine(s, i) == Ok(cmd, i + |Print(t)|) && TreeOf(s, cmd) == t
  {
    hide At, Ends, ParseLine, ParseExec, ParsePipe, TokenAt, Skip, Print;
    PrintIs(t);
    var j := i + 2 + |Print(t.left)|;
    var e := j + 3 + |Print(t.right)|;
    TwoExecs(s, i, t.left, t.right, '|', c, d, j, e);
    cmd := Pipe(c, d);
    PipeIs(s, i, c, j, d, e);
  }

  lemma Separators()
    ensures !IsSpace('|') && !IsSpace(';') && !IsSpace('&')
  {
  }

  lemma EndIsNoRedirection(s: string, e: nat)
    requires Ends(s, e)
    ensures e < |s| ==> !IsSpace(s[e]) && s[e] != '<' && s[e] != '>'
  {
  }

  lemma PipeIs(s: string, i: nat, c: Cmd, j: nat, d: Cmd, e: nat)
    requires i <= j < e <= |s| && ParseExec(s, i) == Ok(c, j) && s[j] == '|' && Skip(s, j) == j &&
            TokenAt(s, j) == Token('|', j, j + 1, j + 1)
    requires ParsePipe(s, j + 1) == Ok(d, e) && Ends(s, e)
    ensures ParseLine(s, i) == Ok(Pipe(c, d), e)
  {
    hide TokenAt, ParseExec;
    NoSpace(s, e);
    assert ParsePipe(s, i) == Ok(Pipe(c, d), e);
    hide ParsePipe;
    assert ParseBacks(s, e, Pipe(c, d)) == Ok(Pipe(c, d), e);
  }

  lemma ThenParse(s: string, i: nat, t: Tree, c: Cmd, d: Cmd) returns (cmd: Cmd)
    requires t.Then? && Legal(t) && At(s, i, Print(t)) && Ends(s, i + |Print(t)|)
    requires i + 1 <= |s| && ParseLine(s, i + 1) == Ok(c, i + 1 + |Print(t.left)|) && TreeOf(s, c) == t.left
    requires var k := i + 4 + |Print(t.left)|;
      k <= |s| && ParseLine(s, k) == Ok(d, k + |Print(t.right)|) && TreeOf(s, d) == t.right
    ensures ParseLine(s, i) == Ok(cmd, i + |Print(t)|) && TreeOf(s, cmd) == t
  {
    hide At, Ends, ParseLine, ParseExec, ParsePipe, TokenAt, Skip, Print;
    PrintIs(t);
    var j := i + 2 + |Print(t.left)|;
    var e := j + 3 + |Print(t.right)|;
    TwoExecs(s, i, t.left, t.right, ';', c, d, j, e);
    cmd := List(c, d);
    ListIs(s, i, c, j, d, e);
  }

  lemma ListIs(s: string, i: nat, c: Cmd, j: nat, d: Cmd, e: nat)
    requires i <= j < e <= |s| && ParseExec(s, i) == Ok(c, j) && s[j] == ';' && Skip(s, j) == j &&
            TokenAt(s, j) == Token(';', j, j + 1, j + 1)
    requires ParseLine(s, j + 1) == Ok(d, e)
    ensures ParseLine(s, i) == Ok(List(c, d), e)
  {
    hide TokenAt, ParseExec;
    assert ParsePipe(s, i) == Ok(c, j);
    hide ParsePipe;
    assert ParseBacks(s, j, c) == Ok(c, j);
  }

  lemma BehindParse(s: string, i: nat, t: Tree, c: Cmd) returns (cmd: Cmd)
    requires t.Behind? && Legal(t) && At(s, i, Print(t)) && Ends(s, i + |Print(t)|)
    requires ParseLine(s, i + 1) == Ok(c, i + 1 + |Print(t.cmd)|) && TreeOf(s, c) == t.cmd
    ensures ParseLine(s, i) == Ok(cmd, i + |Print(t)|) && TreeOf(s, cmd) == t
  {
    hide At, Ends, ParseLine, ParseExec, ParseRedirs, TokenAt, Peeks, Skip, Wrap, IsSpace;
    var a := Paren(Print(t.cmd));
    assert Print(t) == a + "&";
    AtSplit(s, i, a, "&");
    var j := i + |a|;
    AtChar(s, j, "&", 0);
    InRange(s, j, "&");
    Separators();
    BlockAlone(s, i, t.cmd, c);
    cmd := Back(c);
    BackIs(s, i, c, j);
  }

  lemma InRange(s: string, i: nat, p: string)
    requires At(s, i, p)
    ensures i + |p| <= |s|
  {
  }

  lemma BackIs(s: string, i: nat, c: Cmd, j: nat)
    requires i <= j < |s| && ParseExec(s, i) == Ok(c, j) && s[j] == '&' && Ends(s, j + 1)
    ensures ParseLine(s, i) == Ok(Back(c), j + 1)
  {
    hide ParseExec;
    NoSpace(s, j);
    NoSpace(s, j + 1);
    assert ParsePipe(s, i) == Ok(c, j);
    hide ParsePipe;
    assert TokenAt(s, j).next == j + 1;
    assert ParseBacks(s, j + 1, Back(c)) == Ok(Back(c), j + 1);
    assert ParseBacks(s, j, c) == Ok(Back(c), j + 1);
  }

  /** The inside of "(" t ")" is where the recursive call finds it. */
  lemma Inside(s: string, i: nat, t: Tree, rest: string)
    requires At(s, i, Paren(Print(t)) + rest) && Legal(t)
    ensures i + 1 <= |s| && At(s, i + 1, Print(t)) && Ends(s, i + 1 + |Print(t)|)
  {
    hide Print;
    AtSplit(s, i, Paren(Print(t)), rest);
    BlockInside(s, i, t, i + 1 + |Print(t)|);
  }

  /** The printing of a tree, wherever a line may end behind it, parses to that tree and nothing more. */
  lemma {:induction false} LineParses(s: string, i: nat, t: Tree) returns (cmd: Cmd)
    requires i <= |s| && At(s, i, Print(t)) && Legal(t) && Ends(s, i + |Print(t)|)
    ensures ParseLine(s, i) == Ok(cmd, i + |Print(t)|) && TreeOf(s, cmd) == t
    decreases t, 1
  {
    hide At, Ends, ParseLine, LegalWord, LegalWords, Operator, Join, Print, TreeOf;
    match t
    case Words(args) =>
      assert Print(t) == Join(args) by { PrintIs(t); }
      cmd := WordsParse(s, i, args);
    case To(x, file, mode) =>
      PrintIs(t);
      Inside(s, i, x, Operator(mode) + file);
      var c := LineParses(s, i + 1, x);
      cmd := ToParse(s, i, t, c);
    case Piped(l, r) =>
      PrintIs(t);
      var c, d := BothParse(s, i, t, '|');
      cmd := PipedParse(s, i, t, c, d);
    case Then(l, r) =>
      PrintIs(t);
      var c, d := BothParse(s, i, t, ';');
      cmd := ThenParse(s, i, t, c, d);
    case Behind(x) =>
      PrintIs(t);
      Inside(s, i, x, "&");
      var c := LineParses(s, i + 1, x);
      cmd := BehindParse(s, i, t, c);
  }

  /** A printing is its first operand's block and the rest. */
  lemma PrintIs(t: Tree)
    ensures t.Words? ==> Print(t) == Join(t.args)
    ensures t.To? ==> Print(t) == Paren(Print(t.cmd)) + (Operator(t.mode) + t.file)
    ensures t.Piped? ==> Print(t) == Paren(Print(t.left)) + ("|" + Paren(Print(t.right)))
    ensures t.Then? ==> Print(t) == Paren(Print(t.left)) + (";" + Paren(Print(t.right)))
    ensures t.Behind? ==> Print(t) == Paren(Print(t.cmd)) + "&"
  {
  }

  lemma {:induction false} BothParse(s: string, i: nat, t: Tree, mid: char) returns (c: Cmd, d: Cmd)
    requires (t.Piped? || t.Then?) && (mid == '|' || mid == ';') && Legal(t.left) && Legal(t.right)
    requires At(s, i, Paren(Print(t.left)) + ([mid] + Paren(Print(t.right))))
    ensures i + 1 <= |s| && ParseLine(s, i + 1) == Ok(c, i + 1 + |Print(t.left)|) && TreeOf(s, c) == t.left
    ensures var k := i + 4 + |Print(t.left)|;
      k <= |s| && ParseLine(s, k) == Ok(d, k + |Print(t.right)|) && TreeOf(s, d) == t.right
    decreases t, 0
  {
    hide At, Ends, ParseLine, Print, Legal, TokenAt, Skip, TreeOf;
    Inside(s, i, t.left, [mid] + Paren(Print(t.right)));
    TwoBlocks(s, i, t.left, t.right, mid);
    c := LineParses(s, i + 1, t.left);
    var j := i + 2 + |Print(t.left)|;
    assert Paren(Print(t.right)) + "" == Paren(Print(t.right));
    Inside(s, j + 1, t.right, "");
    d := LineParses(s, j + 2, t.right);
  }

  /** Parsing the fully parenthesised printing of a legal command tree gives the tree back. */
  lemma RoundTrip(t: Tree) returns (cmd: Cmd)
    requires Legal(t)
    ensures ParseCmd(Print(t)) == Ok(cmd, |Print(t)|) && TreeOf(Print(t), cmd) == t
  {
    cmd := LineParses(Print(t), 0, t);
  }
}
