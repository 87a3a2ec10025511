/**
 * The string operations the package and system helpers rely on, with the
 * meaning Rust's `str` methods give them: line splitting, prefix tests and
 * trimming, substring search and whitespace-delimited tokens.
 */
module Text {

  predicate StartsWith(s: string, prefix: string) {
    |prefix| <= |s| && s[..|prefix|] == prefix
  }

  /** Substring search: some position of `s` starts an occurrence of `p` (the empty pattern occurs everywhere). */
  predicate Contains(s: string, p: string)
    decreases |s|
  {
    StartsWith(s, p) || (s != [] && Contains(s[1..], p))
  }

  /** `Contains` holds exactly when `p` occurs at some offset of `s`. */
  lemma {:induction false} ContainsAt(s: string, p: string)
    ensures Contains(s, p) <==> exists i :: 0 <= i <= |s| && StartsWith(s[i..], p)
    decreases |s|
  {
    assert s[0..] == s;
    if s != [] {
      ContainsAt(s[1..], p);
      if Contains(s[1..], p) {
        var i :| 0 <= i <= |s[1..]| && StartsWith(s[1..][i..], p);
        assert s[1..][i..] == s[i + 1..];
      }
      forall i | 1 <= i <= |s| && StartsWith(s[i..], p) ensures Contains(s[1..], p) {
        assert s[1..][i - 1..] == s[i..];
      }
    }
  }

  /** An occurrence of `p` anywhere inside a string is found. */
  lemma ContainsInfix(a: string, p: string, b: string)
    ensures Contains(a + p + b, p)
  {
    var s := a + p + b;
    assert s[|a|..][..|p|] == p;
    ContainsAt(s, p);
  }

  /** The first line break of `s`, or `|s|` when there is none. */
  function NewlineIndex(s: string): (k: nat)
    ensures k <= |s| && (k < |s| ==> s[k] == '\n')
    ensures forall j :: 0 <= j < k ==> s[j] != '\n'
    decreases |s|
  {
    if s == [] || s[0] == '\n' then 0 else 1 + NewlineIndex(s[1..])
  }

  /** A line terminated by "\r\n" loses its carriage return. */
  function StripCarriageReturn(line: string): string {
    if |line| > 0 && line[|line| - 1] == '\r' then line[..|line| - 1] else line
  }

  /**
   * The lines of a text: split at each '\n', a '\r' before a '\n' dropping with
   * it, and no empty line after a final line break.
   */
  function Lines(s: string): (lines: seq<string>)
    ensures forall i :: 0 <= i < |lines| ==> '\n' !in lines[i]
    decreases |s|
  {
    if s == [] then []
    else
      var k := NewlineIndex(s);
      if k == |s| then [s]
      else [StripCarriageReturn(s[..k])] + Lines(s[k + 1..])
  }

  /** A text made of the given lines, each followed by a line break. */
  function JoinLines(lines: seq<string>): string
    decreases |lines|
  {
    if lines == [] then "" else lines[0] + "\n" + JoinLines(lines[1..])
  }

  /** Splitting a text built from lines (none of which holds a line break or ends in '\r') gives those lines back. */
  lemma {:induction false} LinesOfJoined(lines: seq<string>)
    requires forall i :: 0 <= i < |lines| ==> '\n' !in lines[i]
    requires forall i :: 0 <= i < |lines| ==> lines[i] == [] || lines[i][|lines[i]| - 1] != '\r'
    ensures Lines(JoinLines(lines)) == lines
    decreases |lines|
  {
    if lines != [] {
      var l := lines[0];
      var s := JoinLines(lines);
      assert s == l + "\n" + JoinLines(lines[1..]);
      assert forall j :: 0 <= j < |l| ==> s[j] == l[j];
      assert s[|l|] == '\n';
      FirstNewline(s, |l|);
      assert s[..|l|] == l;
      assert s[|l| + 1..] == JoinLines(lines[1..]);
      LinesOfJoined(lines[1..]);
    }
  }

  lemma FirstNewline(s: string, k: nat)
    requires k < |s| && s[k] == '\n' && forall j :: 0 <= j < k ==> s[j] != '\n'
    ensures NewlineIndex(s) == k
  {
  }

  /** `k` copies of `p`, one after another. */
  function Repeat(p: string, k: nat): string
    decreases k
  {
    if k == 0 then "" else p + Repeat(p, k - 1)
  }

  /** `s` with every leading repetition of `prefix` removed. */
  function TrimStartMatches(s: string, prefix: string): (r: string)
    ensures |r| <= |s| && s[|s| - |r|..] == r
    ensures prefix != [] ==> !StartsWith(r, prefix)
    decreases |s|
  {
    if prefix != [] && StartsWith(s, prefix) then
      var r := TrimStartMatches(s[|prefix|..], prefix);
      assert s[|prefix|..][|s[|prefix|..]| - |r|..] == s[|s| - |r|..];
      r
    else s
  }

  /** What trimming removes is a whole number of copies of the prefix. */
  lemma {:induction false} TrimStartMatchesRemovesCopies(s: string, prefix: string) returns (k: nat)
    requires prefix != []
    ensures s == Repeat(prefix, k) + TrimStartMatches(s, prefix)
    decreases |s|
  {
    if StartsWith(s, prefix) {
      var k' := TrimStartMatchesRemovesCopies(s[|prefix|..], prefix);
      k := k' + 1;
      var t := TrimStartMatches(s, prefix);
      assert t == TrimStartMatches(s[|prefix|..], prefix);
      calc {
        Repeat(prefix, k) + t;
        (prefix + Repeat(prefix, k')) + t;
        prefix + (Repeat(prefix, k') + t);
        prefix + s[|prefix|..];
        s;
      }
    } else {
      k := 0;
    }
  }

  /** `s` without its leading `c` characters. */
  function TrimStartChar(s: string, c: char): (r: string)
    ensures |r| <= |s|
    decreases |s|
  {
    if s != [] && s[0] == c then TrimStartChar(s[1..], c) else s
  }

  /** Trimming the start keeps a suffix, removes only `c`s, and leaves no leading `c`. */
  lemma {:induction false} TrimStartCharFacts(s: string, c: char)
    ensures var r := TrimStartChar(s, c);
            && s[|s| - |r|..] == r
            && (forall j :: 0 <= j < |s| - |r| ==> s[j] == c)
            && (r == [] || r[0] != c)
    decreases |s|
  {
    if s != [] && s[0] == c {
      TrimStartCharFacts(s[1..], c);
      var r := TrimStartChar(s, c);
      assert s[1..][|s| - 1 - |r|..] == s[|s| - |r|..];
      forall j | 1 <= j < |s| - |r| ensures s[j] == c {
        assert s[1..][j - 1] == s[j];
      }
    }
  }

  /** `s` without its trailing `c` characters. */
  function TrimEndChar(s: string, c: char): (r: string)
    ensures |r| <= |s|
    decreases |s|
  {
    if s != [] && s[|s| - 1] == c then TrimEndChar(s[..|s| - 1], c) else s
  }

  /** Trimming the end keeps a prefix, removes only `c`s, and leaves no trailing `c`. */
  lemma {:induction false} TrimEndCharFacts(s: string, c: char)
    ensures var r := TrimEndChar(s, c);
            && s[..|r|] == r
            && (forall j :: |r| <= j < |s| ==> s[j] == c)
            && (r == [] || r[|r| - 1] != c)
    decreases |s|
  {
    if s != [] && s[|s| - 1] == c {
      var t := s[..|s| - 1];
      TrimEndCharFacts(t, c);
      var r := TrimEndChar(s, c);
      assert t[..|r|] == s[..|r|];
      forall j | |r| <= j < |s| - 1 ensures s[j] == c {
        assert t[j] == s[j];
      }
    }
  }

  /** `s` without its leading and trailing `c` characters. */
  function TrimMatches(s: string, c: char): string {
    TrimEndChar(TrimStartChar(s, c), c)
  }

  /**
   * Trimming keeps a contiguous middle part of `s` that neither starts nor ends
   * with `c`, and removes only `c` characters before and after it.
   */
  lemma TrimMatchesKeepsMiddle(s: string, c: char) returns (a: nat, r: string)
    ensures a == |s| - |TrimStartChar(s, c)| && r == TrimMatches(s, c)
    ensures r == [] || (r[0] != c && r[|r| - 1] != c)
    ensures a + |r| <= |s| && s[a..a + |r|] == r
    ensures forall j :: 0 <= j < a ==> s[j] == c
    ensures forall j :: a + |r| <= j < |s| ==> s[j] == c
  {
    var t := TrimStartChar(s, c);
    a := |s| - |t|;
    TrimStartCharFacts(s, c);
    r := TrimEndChar(t, c);
    TrimEndCharFacts(t, c);
    if r != [] {
      assert r[0] == t[0];
    }
    assert s[a..a + |r|] == t[..|r|];
    forall j | a + |r| <= j < |s| ensures s[j] == c {
      assert s[j] == t[j - a];
    }
  }

  /** Unicode's White_Space characters, as `char::is_whitespace` decides them. */
  predicate IsWhitespace(c: char) {
    || c == ' ' || ('\t' <= c <= '\r') || c == '\U{85}' || c == '\U{A0}' || c == '\U{1680}'
    || ('\U{2000}' <= c <= '\U{200A}') || c == '\U{2028}' || c == '\U{2029}' || c == '\U{202F}'
    || c == '\U{205F}' || c == '\U{3000}'
  }

  function SkipWhitespace(s: string): (r: string)
    ensures |r| <= |s| && s[|s| - |r|..] == r
    ensures forall j :: 0 <= j < |s| - |r| ==> IsWhitespace(s[j])
    ensures r == [] || !IsWhitespace(r[0])
    decreases |s|
  {
    if s != [] && IsWhitespace(s[0]) then SkipWhitespace(s[1..]) else s
  }

  function TakeToken(s: string): (t: string)
    ensures |t| <= |s| && s[..|t|] == t
    ensures forall j :: 0 <= j < |t| ==> !IsWhitespace(t[j])
    ensures |t| == |s| || IsWhitespace(s[|t|])
    decreases |s|
  {
    if s == [] || IsWhitespace(s[0]) then [] else [s[0]] + TakeToken(s[1..])
  }

  /** The first whitespace-delimited token of a line, or "" when the line is blank. */
  function FirstToken(line: string): string {
    TakeToken(SkipWhitespace(line))
  }

  /** The first token is the maximal run of non-whitespace that follows the line's `w` leading whitespace characters. */
  lemma FirstTokenSplits(line: string) returns (w: nat, t: string)
    ensures w == |line| - |SkipWhitespace(line)| && t == FirstToken(line)
    ensures w + |t| <= |line| && line[w..w + |t|] == t
    ensures forall j :: 0 <= j < w ==> IsWhitespace(line[j])
    ensures forall j :: 0 <= j < |t| ==> !IsWhitespace(t[j])
    ensures w + |t| == |line| || IsWhitespace(line[w + |t|])
  {
    var r := SkipWhitespace(line);
    w := |line| - |r|;
    t := TakeToken(r);
    assert line[w..w + |t|] == line[w..][..|t|];
    if w + |t| < |line| {
      assert line[w + |t|] == r[|t|];
    }
  }

  /** A line has an empty first token exactly when it is all whitespace. */
  lemma BlankLineHasNoToken(line: string)
    ensures FirstToken(line) == [] <==> forall j :: 0 <= j < |line| ==> IsWhitespace(line[j])
  {
    var r := SkipWhitespace(line);
    var w := |line| - |r|;
    if TakeToken(r) == [] {
      assert r == [];
    } else {
      assert line[w] == r[0];
    }
  }
}
