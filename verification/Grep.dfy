/**
  The pattern matcher of `user/grep.c` (`match`, `matchhere`, `matchstar`).

  The specification is declarative: a pattern is read as a list of items, each item
  denotes a set of words, and a pattern matches at a place when some prefix of the
  text splits into one word per item.  The methods follow the C code.
 */
module Grep {

  /** A C string: its characters without the terminating NUL. */
  type CString = s: string | '\0' !in s

  /** The character at `s[i]`, reading the terminator at the end. */
  function At(s: CString, i: nat): (c: char)
    requires i <= |s|
  {
    if i < |s| then s[i] else '\0'
  }

  // ---------------------------------------------------------------------------
  // The declarative language
  // ---------------------------------------------------------------------------

  datatype Item = One(c: char) | Star(c: char)

  datatype Pattern = Pattern(items: seq<Item>, anchored: bool)

  /** How a pattern (without a leading `^`) is read. A `$` is special only as the last character. */
  ghost function Read(re: CString): Pattern {
    if re == "" then Pattern([], false)
    else if |re| > 1 && re[1] == '*' then
      var rest := Read(re[2..]);
      Pattern([Star(re[0])] + rest.items, rest.anchored)
    else if re == "$" then Pattern([], true)
    else
      var rest := Read(re[1..]);
      Pattern([One(re[0])] + rest.items, rest.anchored)
  }

  /** `c` as a pattern character accepts the text character `x`. */
  predicate Accepts(c: char, x: char) {
    c == '.' || c == x
  }

  ghost predicate AllAccepted(c: char, w: string) {
    forall i :: 0 <= i < |w| ==> Accepts(c, w[i])
  }

  /** The words denoted by one item. */
  ghost predicate Denotes(item: Item, w: string) {
    match item
    case One(c) => |w| == 1 && Accepts(c, w[0])
    case Star(c) => AllAccepted(c, w)
  }

  /** The words denoted by a list of items: concatenations, one word for each item. */
  ghost predicate InLanguage(items: seq<Item>, w: string) {
    if items == [] then w == ""
    else exists k :: 0 <= k <= |w| && Denotes(items[0], w[..k]) && InLanguage(items[1..], w[k..])
  }

  /** Some prefix of `t` is in the language of `p`; with a final `$`, all of `t` is. */
  ghost predicate MatchesAt(p: Pattern, t: string) {
    exists n :: 0 <= n <= |t| && InLanguage(p.items, t[..n]) && (p.anchored ==> n == |t|)
  }

  /** What `match` decides: a leading `^` pins the start of the match, otherwise any start will do. */
  ghost predicate Matches(re: CString, text: CString) {
    if re != "" && re[0] == '^' then MatchesAt(Read(re[1..]), text)
    else exists i :: 0 <= i <= |text| && MatchesAt(Read(re), text[i..])
  }

  // ---------------------------------------------------------------------------
  // How the language unfolds along a pattern
  // ---------------------------------------------------------------------------

  lemma MatchesEmpty(t: string)
    ensures MatchesAt(Pattern([], false), t)
  {
    assert InLanguage([], t[..0]);
  }

  lemma MatchesEnd(t: string)
    ensures MatchesAt(Pattern([], true), t) <==> t == ""
  {
    if t == "" {
      assert InLanguage([], t[..0]);
    }
  }

  /** One item in front: it takes some word off the text, the rest of the pattern matches after it. */
  lemma MatchesCons(item: Item, p: Pattern, t: string)
    ensures MatchesAt(Pattern([item] + p.items, p.anchored), t)
            <==> exists k :: 0 <= k <= |t| && Denotes(item, t[..k]) && MatchesAt(p, t[k..])
  {
    var items := [item] + p.items;
    assert items[1..] == p.items;
    if MatchesAt(Pattern(items, p.anchored), t) {
      var n :| 0 <= n <= |t| && InLanguage(items, t[..n]) && (p.anchored ==> n == |t|);
      var k :| 0 <= k <= n && Denotes(item, t[..n][..k]) && InLanguage(p.items, t[..n][k..]);
      assert t[..n][..k] == t[..k];
      assert t[..n][k..] == t[k..][..n - k];
      assert MatchesAt(p, t[k..]);
    }
    if k :| 0 <= k <= |t| && Denotes(item, t[..k]) && MatchesAt(p, t[k..]) {
      var m :| 0 <= m <= |t| - k && InLanguage(p.items, t[k..][..m]) && (p.anchored ==> m == |t| - k);
      var n := k + m;
      assert t[..n][..k] == t[..k];
      assert t[..n][k..] == t[k..][..m];
      assert InLanguage(items, t[..n]);
    }
  }

  // ---------------------------------------------------------------------------
  // The matcher
  // ---------------------------------------------------------------------------

  method Match(re: CString, text: CString) returns (found: bool)
    ensures found <==> Matches(re, text)
  {
    if At(re, 0) == '^' {
      found := MatchHere(re[1..], text);
      return;
    }
    var i := 0;
    while true
      invariant 0 <= i <= |text|
      invariant forall j :: 0 <= j < i ==> !MatchesAt(Read(re), text[j..])
      decreases |text| - i
    {
      var here := MatchHere(re, text[i..]);
      if here {
        return true;
      }
      if At(text, i) == '\0' {
        break;
      }
      i := i + 1;
    }
    return false;
  }

  method MatchHere(re: CString, text: CString) returns (found: bool)
    ensures found <==> MatchesAt(Read(re), text)
    decreases |re|, 0
  {
    if At(re, 0) == '\0' {
      MatchesEmpty(text);
      return true;
    }
    if At(re, 1) == '*' {
      MatchesCons(Star(re[0]), Read(re[2..]), text);
      found := MatchStar(re[0], re[2..], text);
      return;
    }
    if re[0] == '$' && At(re, 1) == '\0' {
      assert re == "$";
      MatchesEnd(text);
      return At(text, 0) == '\0';
    }
    MatchesCons(One(re[0]), Read(re[1..]), text);
    if At(text, 0) != '\0' && (re[0] == '.' || re[0] == text[0]) {
      found := MatchHere(re[1..], text[1..]);
      assert Denotes(One(re[0]), text[..1]);
    } else {
      found := false;
    }
  }

  method MatchStar(c: char, re: CString, text: CString) returns (found: bool)
    ensures found <==> exists k :: 0 <= k <= |text| && Denotes(Star(c), text[..k]) && MatchesAt(Read(re), text[k..])
    decreases |re|, 1
  {
    var i := 0;
    while true
      invariant 0 <= i <= |text|
      invariant AllAccepted(c, text[..i])
      invariant forall k :: 0 <= k < i ==> !MatchesAt(Read(re), text[k..])
      decreases |text| - i
    {
      var here := MatchHere(re, text[i..]);
      if here {
        assert Denotes(Star(c), text[..i]);
        return true;
      }
      if At(text, i) == '\0' || !(text[i] == c || c == '.') {
        break;
      }
      i := i + 1;
    }
    forall k | 0 <= k <= |text| && MatchesAt(Read(re), text[k..])
      ensures !Denotes(Star(c), text[..k])
    {
      assert k > i;
      assert text[..k][i] == text[i];
    }
    return false;
  }
}
