/**
  The strings that the shell runs commands with (`user/sh.c`): nulterminate ends every word in
  place, and no NUL it writes falls inside another word.
 */
module ShellStrings {
  import opened Shell
  import opened ShellParser

  // ---------------------------------------------------------------------------
  // Every span of a parsed command is a word
  // ---------------------------------------------------------------------------

  ghost predicate SpanOk(s: string, w: Span) { IsWord(s, w.q, w.eq) }

  ghost predicate WordsOk(s: string, cmd: Cmd) {
    match cmd
    case Exec(argv) => |argv| < MAXARGS && forall i :: 0 <= i < |argv| ==> SpanOk(s, argv[i])
    case Redir(c, file, _) => SpanOk(s, file) && WordsOk(s, c)
    case Pipe(l, r) => WordsOk(s, l) && WordsOk(s, r)
    case List(l, r) => WordsOk(s, l) && WordsOk(s, r)
    case Back(c) => WordsOk(s, c)
  }

  ghost predicate FilesOk(s: string, redirs: seq<Redirection>) {
    forall i :: 0 <= i < |redirs| ==> SpanOk(s, redirs[i].file)
  }

  lemma {:induction false} WrapOk(s: string, cmd: Cmd, redirs: seq<Redirection>)
    requires WordsOk(s, cmd) && FilesOk(s, redirs)
    ensures WordsOk(s, Wrap(cmd, redirs))
  {
    if redirs != [] {
      WrapOk(s, cmd, redirs[..|redirs| - 1]);
    }
  }

  lemma {:induction false} RedirsOk(s: string, i: nat, acc: seq<Redirection>)
    requires i <= |s| && FilesOk(s, acc)
    ensures var r := ParseRedirs(s, i, acc); r.Ok? ==> FilesOk(s, r.value)
    decreases |s| - i
  {
    if Peeks(s, i, "<>") {
      var op := TokenAt(s, i);
      var t := TokenAt(s, op.next);
      if t.kind == 'a' {
        RedirsOk(s, t.next, acc + [Redirection(Span(t.q, t.eq), ModeOf(op.kind))]);
      }
    }
  }

  lemma {:induction false} ArgsOk(s: string, i: nat, acc: Simple)
    requires i <= |s| && WordsOk(s, Exec(acc.argv)) && FilesOk(s, acc.redirs)
    ensures var r := ParseArgs(s, i, acc); r.Ok? ==> WordsOk(s, Exec(r.value.argv)) && FilesOk(s, r.value.redirs)
    decreases |s| - i
  {
    var t := TokenAt(s, i);
    if !Peeks(s, i, "|)&;") && t.kind == 'a' && |acc.argv| + 1 < MAXARGS {
      RedirsOk(s, t.next, acc.redirs);
      var more := ParseRedirs(s, t.next, acc.redirs);
      if more.Ok? {
        ArgsOk(s, more.pos, Simple(acc.argv + [Span(t.q, t.eq)], more.value));
      }
    }
  }

  lemma SimpleOk(s: string, i: nat)
    requires i <= |s|
    ensures var r := ParseSimple(s, i); r.Ok? ==> WordsOk(s, r.value)
  {
    RedirsOk(s, i, []);
    var first := ParseRedirs(s, i, []);
    if first.Ok? {
      ArgsOk(s, first.pos, Simple([], first.value));
      var x := ParseArgs(s, first.pos, Simple([], first.value));
      if x.Ok? {
        WrapOk(s, Exec(x.value.argv), x.value.redirs);
      }
    }
  }

  lemma {:induction false} ExecOk(s: string, i: nat)
    requires i <= |s|
    ensures var r := ParseExec(s, i); r.Ok? ==> WordsOk(s, r.value)
    decreases |s| - i, 1
  {
    if Peeks(s, i, "(") {
      BlockOk(s, Skip(s, i));
    } else {
      SimpleOk(s, Skip(s, i));
    }
  }

  lemma {:induction false} BlockOk(s: string, i: nat)
    requires i < |s| && s[i] == '('
    ensures var r := ParseBlock(s, i); r.Ok? ==> WordsOk(s, r.value)
    decreases |s| - i, 0
  {
    LineOk(s, TokenAt(s, i).next);
    var line := ParseLine(s, TokenAt(s, i).next);
    if line.Ok? && Peeks(s, line.pos, ")") {
      RedirsOk(s, TokenAt(s, line.pos).next, []);
      var redirs := ParseRedirs(s, TokenAt(s, line.pos).next, []);
      if redirs.Ok? {
        WrapOk(s, line.value, redirs.value);
      }
    }
  }

  lemma {:induction false} PipeOk(s: string, i: nat)
    requires i <= |s|
    ensures var r := ParsePipe(s, i); r.Ok? ==> WordsOk(s, r.value)
    decreases |s| - i, 2
  {
    ExecOk(s, i);
    var left := ParseExec(s, i);
    if left.Ok? && Peeks(s, left.pos, "|") {
      PipeOk(s, TokenAt(s, left.pos).next);
    }
  }

  lemma {:induction false} BacksOk(s: string, i: nat, cmd: Cmd)
    requires i <= |s| && WordsOk(s, cmd)
    ensures WordsOk(s, ParseBacks(s, i, cmd).value)
    decreases |s| - i
  {
    if Peeks(s, i, "&") {
      BacksOk(s, TokenAt(s, i).next, Back(cmd));
    }
  }

  /** The parser keeps whole words only, and at most nine arguments. */
  lemma {:induction false} LineOk(s: string, i: nat)
    requires i <= |s|
    ensures var r := ParseLine(s, i); r.Ok? ==> WordsOk(s, r.value)
    decreases |s| - i, 3
  {
    PipeOk(s, i);
    var first := ParsePipe(s, i);
    if first.Ok? {
      BacksOk(s, first.pos, first.value);
      var b := ParseBacks(s, first.pos, first.value);
      if Peeks(s, b.pos, ";") {
        LineOk(s, TokenAt(s, b.pos).next);
      }
    }
  }

  // ---------------------------------------------------------------------------
  // nulterminate
  // ---------------------------------------------------------------------------

  /** The words of a command, and where they end. */
  ghost function Spans(cmd: Cmd): (r: set<Span>) {
    match cmd
    case Exec(argv) => set i | 0 <= i < |argv| :: argv[i]
    case Redir(c, file, _) => Spans(c) + {file}
    case Pipe(l, r) => Spans(l) + Spans(r)
    case List(l, r) => Spans(l) + Spans(r)
    case Back(c) => Spans(c)
  }

  /** Position k is the end of a word of cmd. */
  ghost predicate IsEnd(cmd: Cmd, k: int) { exists w :: w in Spans(cmd) && w.eq == k }

  lemma {:induction false} SpansOk(s: string, cmd: Cmd, w: Span)
    requires WordsOk(s, cmd) && w in Spans(cmd)
    ensures SpanOk(s, w)
  {
    match cmd
    case Exec(argv) =>
    case Redir(c, file, _) => if w != file { SpansOk(s, c, w); }
    case Pipe(l, r) => if w in Spans(l) { SpansOk(s, l, w); } else { SpansOk(s, r, w); }
    case List(l, r) => if w in Spans(l) { SpansOk(s, l, w); } else { SpansOk(s, r, w); }
    case Back(c) => SpansOk(s, c, w);
  }

  /** Every word ends inside the buffer of s with its NUL. */
  ghost predicate EndsIn(cmd: Cmd, n: nat) { forall w :: w in Spans(cmd) ==> w.eq < n }

  /** nulterminate: exactly the ends of the words are overwritten. */
  method NulTerminate(buf: array<char>, cmd: Cmd)
    requires EndsIn(cmd, buf.Length)
    modifies buf
    ensures forall k :: 0 <= k < buf.Length ==> buf[k] == if IsEnd(cmd, k) then '\0' else old(buf[k])
    decreases cmd
  {
    match cmd {
      case Exec(argv) =>
        var i := 0;
        while i < |argv|
          invariant 0 <= i <= |argv|
          invariant forall k :: 0 <= k < buf.Length ==> buf[k] == if Before(argv, i, k) then '\0' else old(buf[k])
        {
          assert argv[i] in Spans(cmd);
          buf[argv[i].eq] := '\0';
          i := i + 1;
        }
        forall k | 0 <= k < buf.Length ensures Before(argv, i, k) <==> IsEnd(cmd, k) { ExecEnds(argv, k); }
      case Redir(c, file, _) =>
        Under(cmd, c, buf.Length);
        NulTerminate(buf, c);
        assert file in Spans(cmd);
        buf[file.eq] := '\0';
        forall k | 0 <= k < buf.Length ensures IsEnd(cmd, k) <==> IsEnd(c, k) || k == file.eq { RedirEnds(cmd, k); }
      case Pipe(l, r) =>
        Under(cmd, l, buf.Length);
        Under(cmd, r, buf.Length);
        NulTerminate(buf, l);
        NulTerminate(buf, r);
        forall k | 0 <= k < buf.Length ensures IsEnd(cmd, k) <==> IsEnd(l, k) || IsEnd(r, k) { }
      case List(l, r) =>
        Under(cmd, l, buf.Length);
        Under(cmd, r, buf.Length);
        NulTerminate(buf, l);
        NulTerminate(buf, r);
        forall k | 0 <= k < buf.Length ensures IsEnd(cmd, k) <==> IsEnd(l, k) || IsEnd(r, k) { }
      case Back(c) => NulTerminate(buf, c);
    }
  }

  ghost predicate Before(argv: seq<Span>, i: nat, k: int)
    requires i <= |argv|
  {
    exists j :: 0 <= j < i && argv[j].eq == k
  }

  lemma ExecEnds(argv: seq<Span>, k: int)
    ensures Before(argv, |argv|, k) <==> IsEnd(Exec(argv), k)
  {
    if j :| 0 <= j < |argv| && argv[j].eq == k {
      assert argv[j] in Spans(Exec(argv));
    }
  }

  lemma RedirEnds(cmd: Cmd, k: int)
    requires cmd.Redir?
    ensures IsEnd(cmd, k) <==> IsEnd(cmd.cmd, k) || k == cmd.file.eq
  {
    assert cmd.file in Spans(cmd);
  }

  lemma Under(cmd: Cmd, c: Cmd, n: nat)
    requires EndsIn(cmd, n) && Spans(c) <= Spans(cmd)
    ensures EndsIn(c, n)
  {
  }

  // ---------------------------------------------------------------------------
  // The strings
  // ---------------------------------------------------------------------------

  /** The C string that starts at q. */
  function CString(b: seq<char>, q: nat): (r: string)
    decreases |b| - q
  {
    if q < |b| && b[q] != '\0' then [b[q]] + CString(b, q + 1) else []
  }

  lemma {:induction false} CStringIs(b: seq<char>, s: string, q: nat, e: nat)
    requires q <= e <= |s| < |b| && b[e] == '\0' && (forall k :: q <= k < e ==> b[k] == s[k] && s[k] != '\0')
    ensures CString(b, q) == s[q..e]
    decreases e - q
  {
    if q < e {
      CStringIs(b, s, q + 1, e);
      assert s[q..e] == [s[q]] + s[q + 1..e];
    }
  }

  /** The end of a word is never inside a word. */
  lemma EndOutside(s: string, cmd: Cmd, w: Span, k: nat)
    requires WordsOk(s, cmd) && w in Spans(cmd) && w.q <= k < w.eq
    ensures !IsEnd(cmd, k)
  {
    SpansOk(s, cmd, w);
    if v :| v in Spans(cmd) && v.eq == k {
      SpansOk(s, cmd, v);
    }
  }

  /** After nulterminate, the string at every word's start is that word. */
  lemma WordsBecomeStrings(s: string, cmd: Cmd, b: seq<char>, w: Span)
    requires NoNul(s) && WordsOk(s, cmd) && w in Spans(cmd)
    requires |b| == |s| + 1 && (forall k :: 0 <= k < |b| ==> b[k] == if IsEnd(cmd, k) then '\0' else (s + ['\0'])[k])
    ensures w.q <= w.eq <= |s| && CString(b, w.q) == s[w.q..w.eq]
  {
    SpansOk(s, cmd, w);
    forall k | w.q <= k < w.eq ensures b[k] == s[k] && s[k] != '\0' {
      EndOutside(s, cmd, w, k);
    }
    assert IsEnd(cmd, w.eq);
    CStringIs(b, s, w.q, w.eq);
  }

  /** parsecmd on a buffer that holds s: the whole input is a command, and its words have become C strings. */
  method ParseCommand(buf: array<char>, s: string) returns (r: Result<Cmd>)
    requires NoNul(s) && buf[..] == s + ['\0']
    modifies buf
    ensures r == ParseCmd(s)
    ensures r.Fail? ==> buf[..] == old(buf[..])
    ensures r.Ok? ==> forall w :: w in Spans(r.value) ==> w.q <= w.eq <= |s| && CString(buf[..], w.q) == s[w.q..w.eq]
  {
    var line := LineCmd(s, 0);
    if line.Fail? {
      return line;
    }
    var i, _ := Peek(s, line.pos, "");
    if i != |s| {
      return Fail(Leftovers);
    }
    LineOk(s, 0);
    var cmd := line.value;
    forall w | w in Spans(cmd) ensures w.eq < buf.Length { SpansOk(s, cmd, w); }
    NulTerminate(buf, cmd);
    forall w | w in Spans(cmd) ensures w.q <= w.eq <= |s| && CString(buf[..], w.q) == s[w.q..w.eq] {
      WordsBecomeStrings(s, cmd, buf[..], w);
    }
    r := Ok(cmd, |s|);
  }
}
