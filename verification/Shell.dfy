/**
  The command parser of the shell (`user/sh.c`).

  The input is a C string: positions run from 0 to |s|, where the terminating NUL is.  Words are
  kept as pairs of positions, as the source keeps pairs of pointers.
 */
module Shell {

  // ---------------------------------------------------------------------------
  // Characters and tokens
  // ---------------------------------------------------------------------------

  predicate IsSpace(c: char) { c == ' ' || c == '\t' || c == '\r' || c == '\n' || c == 11 as char }

  predicate IsSymbol(c: char) { c == '<' || c == '|' || c == '>' || c == '&' || c == ';' || c == '(' || c == ')' }

  predicate IsWordChar(c: char) { !IsSpace(c) && !IsSymbol(c) }

  predicate NoNul(s: string) { forall i :: 0 <= i < |s| ==> s[i] != '\0' }

  /** The first position from i on that is not white space. */
  function Skip(s: string, i: nat): (j: nat)
    requires i <= |s|
    ensures i <= j <= |s| && (j < |s| ==> !IsSpace(s[j])) && (forall k :: i <= k < j ==> IsSpace(s[k]))
    decreases |s| - i
  {
    if i < |s| && IsSpace(s[i]) then Skip(s, i + 1) else i
  }

  /** The end of the word at i. */
  function WordEnd(s: string, i: nat): (j: nat)
    requires i <= |s|
    ensures i <= j <= |s| && (j < |s| ==> !IsWordChar(s[j])) && (forall k :: i <= k < j ==> IsWordChar(s[k]))
    decreases |s| - i
  {
    if i < |s| && IsWordChar(s[i]) then WordEnd(s, i + 1) else i
  }

  /**
    What gettoken returns: the kind, the bounds of the token, and the position behind it and the white
    space that follows.
   */
  datatype Token = Token(kind: char, q: nat, eq: nat, next: nat)

  function TokenAt(s: string, i: nat): (t: Token)
    requires i <= |s|
    ensures i <= t.q <= t.eq <= t.next <= |s|
    ensures t.kind == '\0' <==> Skip(s, i) == |s| || s[Skip(s, i)] == '\0'
    ensures t.kind != '\0' ==> t.next > i
    ensures t.kind == 'a' ==> IsWord(s, t.q, t.eq)
  {
    var q := Skip(s, i);
    if q == |s| || s[q] == '\0' then Token('\0', q, q, q)
    else if s[q] == '>' then
      if q + 1 < |s| && s[q + 1] == '>' then Token('+', q, q + 2, Skip(s, q + 2))
          else Token('>', q, q + 1, Skip(s, q + 1))
    else if IsSymbol(s[q]) then Token(s[q], q, q + 1, Skip(s, q + 1))
    else var e := WordEnd(s, q); Token('a', q, e, Skip(s, e))
  }

  /** A whole word of the input: word characters only, and no word character behind it. */
  ghost predicate IsWord(s: string, q: nat, e: nat) {
    q < e <= |s| && (forall k :: q <= k < e ==> IsWordChar(s[k])) && (e < |s| ==> !IsWordChar(s[e]))
  }

  /** peek: the next character that is not white space is one of `toks`. */
  predicate Peeks(s: string, i: nat, toks: string)
    requires i <= |s|
  {
    Skip(s, i) < |s| && s[Skip(s, i)] in toks
  }

  // ---------------------------------------------------------------------------
  // Commands
  // ---------------------------------------------------------------------------

  datatype Span = Span(q: nat, eq: nat)

  /** The three redirections: < opens for reading on 0, > truncates and >> does not, on 1. */
  datatype Mode = Read | Truncate | Append

  datatype Redirection = Redirection(file: Span, mode: Mode)

  datatype Cmd =
    | Exec(argv: seq<Span>)
    | Redir(cmd: Cmd, file: Span, mode: Mode)
    | Pipe(left: Cmd, right: Cmd)
    | List(left: Cmd, right: Cmd)
    | Back(cmd: Cmd)

  datatype Error = MissingFile | MissingParen | Syntax | TooManyArgs | Leftovers

  datatype Result<T> = Ok(value: T, pos: nat) | Fail(error: Error)

  const MAXARGS := 10

  /** redircmd wraps the command once for each redirection, the last outermost. */
  function Wrap(cmd: Cmd, redirs: seq<Redirection>): (r: Cmd) {
    if redirs == [] then cmd
    else Redir(Wrap(cmd, redirs[..|redirs| - 1]), redirs[|redirs| - 1].file, redirs[|redirs| - 1].mode)
  }

  // ---------------------------------------------------------------------------
  // The parser
  // ---------------------------------------------------------------------------

  function ModeOf(kind: char): (m: Mode) {
    if kind == '<' then Read else if kind == '>' then Truncate else Append
  }

  /** parseredirs, from position i, having read `acc`. */
  function ParseRedirs(s: string, i: nat, acc: seq<Redirection>): (r: Result<seq<Redirection>>)
    requires i <= |s|
    ensures r.Ok? ==> i <= r.pos <= |s|
    decreases |s| - i
  {
    if !Peeks(s, i, "<>") then Ok(acc, Skip(s, i))
    else
      var op := TokenAt(s, i);
      var t := TokenAt(s, op.next);
      if t.kind != 'a' then Fail(MissingFile)
      else ParseRedirs(s, t.next, acc + [Redirection(Span(t.q, t.eq), ModeOf(op.kind))])
  }

  /** What parseexec collects: arguments and redirections, in the order they come. */
  datatype Simple = Simple(argv: seq<Span>, redirs: seq<Redirection>)

  /** The loop of parseexec. */
  function ParseArgs(s: string, i: nat, acc: Simple): (r: Result<Simple>)
    requires i <= |s|
    ensures r.Ok? ==> i <= r.pos <= |s|
    decreases |s| - i
  {
    if Peeks(s, i, "|)&;") then Ok(acc, Skip(s, i))
    else
      var t := TokenAt(s, i);
      if t.kind == '\0' then Ok(acc, t.next)
      else if t.kind != 'a' then Fail(Syntax)
      else if |acc.argv| + 1 >= MAXARGS then Fail(TooManyArgs)
      else
        match ParseRedirs(s, t.next, acc.redirs)
        case Fail(e) => Fail(e)
        case Ok(redirs, j) => ParseArgs(s, j, Simple(acc.argv + [Span(t.q, t.eq)], redirs))
  }

  function ParseSimple(s: string, i: nat): (r: Result<Cmd>)
    requires i <= |s|
    ensures r.Ok? ==> i <= r.pos <= |s|
  {
    match ParseRedirs(s, i, [])
    case Fail(e) => Fail(e)
    case Ok(redirs, j) =>
      match ParseArgs(s, j, Simple([], redirs))
      case Fail(e) => Fail(e)
      case Ok(x, k) => Ok(Wrap(Exec(x.argv), x.redirs), k)
  }

  function ParseExec(s: string, i: nat): (r: Result<Cmd>)
    requires i <= |s|
    ensures r.Ok? ==> i <= r.pos <= |s|
    decreases |s| - i, 1
  {
    if Peeks(s, i, "(") then ParseBlock(s, Skip(s, i)) else ParseSimple(s, Skip(s, i))
  }

  /** parseblock, at a parenthesis */
  function ParseBlock(s: string, i: nat): (r: Result<Cmd>)
    requires i < |s| && s[i] == '('
    ensures r.Ok? ==> i < r.pos <= |s|
    decreases |s| - i, 0
  {
    match ParseLine(s, TokenAt(s, i).next)
    case Fail(e) => Fail(e)
    case Ok(cmd, j) =>
      if !Peeks(s, j, ")") then Fail(MissingParen)
      else
        match ParseRedirs(s, TokenAt(s, j).next, [])
        case Fail(e) => Fail(e)
        case Ok(redirs, k) => Ok(Wrap(cmd, redirs), k)
  }

  function ParsePipe(s: string, i: nat): (r: Result<Cmd>)
    requires i <= |s|
    ensures r.Ok? ==> i <= r.pos <= |s|
    decreases |s| - i, 2
  {
    match ParseExec(s, i)
    case Fail(e) => Fail(e)
    case Ok(left, j) =>
      if !Peeks(s, j, "|") then Ok(left, Skip(s, j))
      else
        match ParsePipe(s, TokenAt(s, j).next)
        case Fail(e) => Fail(e)
        case Ok(right, k) => Ok(Pipe(left, right), k)
  }

  /** The loop of parseline: one backcmd for each &. */
  function ParseBacks(s: string, i: nat, cmd: Cmd): (r: Result<Cmd>)
    requires i <= |s|
    ensures r.Ok? && i <= r.pos <= |s|
    decreases |s| - i
  {
    if Peeks(s, i, "&") then ParseBacks(s, TokenAt(s, i).next, Back(cmd)) else Ok(cmd, Skip(s, i))
  }

  function ParseLine(s: string, i: nat): (r: Result<Cmd>)
    requires i <= |s|
    ensures r.Ok? ==> i <= r.pos <= |s|
    decreases |s| - i, 3
  {
    match ParsePipe(s, i)
    case Fail(e) => Fail(e)
    case Ok(cmd, j) =>
      var b := ParseBacks(s, j, cmd);
      if !Peeks(s, b.pos, ";") then Ok(b.value, Skip(s, b.pos))
      else
        match ParseLine(s, TokenAt(s, b.pos).next)
        case Fail(e) => Fail(e)
        case Ok(right, k) => Ok(List(b.value, right), k)
  }

  /** parsecmd, before nulterminate */
  function ParseCmd(s: string): (r: Result<Cmd>)
    ensures r.Ok? ==> r.pos == |s|
  {
    match ParseLine(s, 0)
    case Fail(e) => Fail(e)
    case Ok(cmd, j) => if Skip(s, j) == |s| then Ok(cmd, |s|) else Fail(Leftovers)
  }
}
