/**
 * The string primitives the game uses from JavaScript: `trim`, `toUpperCase`
 * and `split(/\r?\n/)`.  Strings are sequences of characters.
 */
module Text {

  /** The characters String.prototype.trim removes: WhiteSpace and LineTerminator. */
  predicate IsJsSpace(c: char) {
    c == '\t' || c == '\n' || c == '\U{000B}' || c == '\U{000C}' || c == '\r' || c == ' '
    || c == '\U{00A0}' || c == '\U{1680}' || ('\U{2000}' <= c <= '\U{200A}')
    || c == '\U{2028}' || c == '\U{2029}' || c == '\U{202F}' || c == '\U{205F}'
    || c == '\U{3000}' || c == '\U{FEFF}'
  }

  ghost predicate AllSpace(s: string) {
    forall i :: 0 <= i < |s| ==> IsJsSpace(s[i])
  }

  /** Drops leading white space; TrimStartSuffix says what is dropped. */
  function TrimStart(s: string): (r: string)
    ensures |r| <= |s|
    ensures r == [] || !IsJsSpace(r[0])
  {
    if s != [] && IsJsSpace(s[0]) then TrimStart(s[1..]) else s
  }

  /** What TrimStart keeps is a suffix, and what it drops is all white space. */
  lemma {:induction false} TrimStartSuffix(s: string)
    ensures TrimStart(s) == s[|s| - |TrimStart(s)|..]
    ensures AllSpace(s[..|s| - |TrimStart(s)|])
  {
    if s != [] && IsJsSpace(s[0]) {
      TrimStartSuffix(s[1..]);
      var k := |s| - |TrimStart(s)|;
      assert s[..k] == [s[0]] + s[1..][..k - 1];
    }
  }

  /** Drops trailing white space; TrimEndPrefix says what is dropped. */
  function TrimEnd(s: string): (r: string)
    ensures |r| <= |s|
    ensures r == [] || !IsJsSpace(r[|r| - 1])
  {
    if s != [] && IsJsSpace(s[|s| - 1]) then TrimEnd(s[..|s| - 1]) else s
  }

  /** What TrimEnd keeps is a prefix, and what it drops is all white space. */
  lemma {:induction false} TrimEndPrefix(s: string)
    ensures TrimEnd(s) == s[..|TrimEnd(s)|]
    ensures AllSpace(s[|TrimEnd(s)|..])
  {
    if s != [] && IsJsSpace(s[|s| - 1]) {
      var t := s[..|s| - 1];
      TrimEndPrefix(t);
      var k := |TrimEnd(s)|;
      assert s[k..] == t[k..] + [s[|s| - 1]];
    }
  }

  /** String.prototype.trim: white space removed at both ends. */
  function Trim(s: string): (r: string)
    ensures |r| <= |s|
    ensures r == [] || (!IsJsSpace(r[0]) && !IsJsSpace(r[|r| - 1]))
  {
    var t := TrimStart(s);
    TrimEndPrefix(t);
    TrimEnd(t)
  }

  /** The trimmed string is a slice of the original surrounded only by white space. */
  lemma TrimIsSlice(s: string)
    ensures exists i :: 0 <= i <= |s| - |Trim(s)| && Trim(s) == s[i..i + |Trim(s)|]
                        && AllSpace(s[..i]) && AllSpace(s[i + |Trim(s)|..])
  {
    var t := TrimStart(s);
    TrimStartSuffix(s);
    TrimEndPrefix(t);
    var r := TrimEnd(t);
    var i := |s| - |t|;
    assert r == s[i..i + |r|];
    assert s[i + |r|..] == t[|r|..];
  }

  /** A string that neither starts nor ends with white space is its own trim. */
  lemma TrimUnpadded(s: string)
    requires s == [] || (!IsJsSpace(s[0]) && !IsJsSpace(s[|s| - 1]))
    ensures Trim(s) == s
  {
  }

  /** The ASCII upper-casing of one character. */
  function UpperChar(c: char): char {
    if 'a' <= c <= 'z' then (c as int - 32) as char else c
  }

  /** String.prototype.toUpperCase, restricted to the ASCII letters. */
  function ToUpper(s: string): (r: string)
    ensures |r| == |s|
    ensures forall i :: 0 <= i < |s| ==> r[i] == UpperChar(s[i])
  {
    seq(|s|, i requires 0 <= i < |s| => UpperChar(s[i]))
  }

  /** Upper-casing leaves no lower-case ASCII letter and doing it twice changes nothing more. */
  lemma ToUpperIdempotent(s: string)
    ensures forall i :: 0 <= i < |s| ==> !('a' <= ToUpper(s)[i] <= 'z')
    ensures ToUpper(ToUpper(s)) == ToUpper(s)
  {
  }

  /** Joins pieces with a single line feed between consecutive ones. */
  function JoinLines(ps: seq<string>): string {
    if |ps| == 0 then []
    else if |ps| == 1 then ps[0]
    else ps[0] + "\n" + JoinLines(ps[1..])
  }

  /**
   * Splits at every line feed.  There is one piece more than there are line
   * feeds and no piece contains one; SplitJoin shows that no character is lost.
   */
  function SplitOnNewline(s: string): (r: seq<string>)
    ensures |r| == 1 + multiset(s)['\n']
    ensures forall k :: 0 <= k < |r| ==> '\n' !in r[k]
  {
    if s == [] then [[]]
    else
      var t := SplitOnNewline(s[1..]);
      assert s == [s[0]] + s[1..];
      assert multiset(s) == multiset([s[0]]) + multiset(s[1..]);
      if s[0] == '\n' then [[]] + t
      else [[s[0]] + t[0]] + t[1..]
  }

  /** A piece put in front of the pieces adds itself and a line feed. */
  lemma JoinFront(p: string, t: seq<string>)
    requires |t| >= 1
    ensures JoinLines([p] + t) == p + "\n" + JoinLines(t)
  {
    assert ([p] + t)[1..] == t;
  }

  /** A character put in front of the first piece goes in front of the text. */
  lemma JoinExtend(c: char, t: seq<string>)
    requires |t| >= 1
    ensures JoinLines([[c] + t[0]] + t[1..]) == [c] + JoinLines(t)
  {
    var u := t[1..];
    if u == [] {
      assert [[c] + t[0]] + u == [[c] + t[0]];
      assert t == [t[0]];
    } else {
      JoinExtendFront(c, t[0], u);
      assert [t[0]] + u == t;
    }
  }

  /** JoinExtend when there is more than one piece. */
  lemma JoinExtendFront(c: char, p: string, u: seq<string>)
    requires |u| >= 1
    ensures JoinLines([[c] + p] + u) == [c] + JoinLines([p] + u)
  {
    JoinFront([c] + p, u);
    JoinFront(p, u);
    AppendAssoc([c], p + "\n", JoinLines(u));
    AppendAssoc(p, "\n", JoinLines(u));
    AppendAssoc([c], p, "\n");
  }

  /** Concatenation is associative. */
  lemma AppendAssoc(a: string, b: string, c: string)
    ensures a + b + c == a + (b + c)
  {
  }

  /** Putting one character in front of a text extends its split by one step. */
  lemma JoinStep(c: char, t: seq<string>)
    requires |t| >= 1
    ensures JoinLines(if c == '\n' then [[]] + t else [[c] + t[0]] + t[1..]) == [c] + JoinLines(t)
  {
    if c == '\n' {
      JoinFront([], t);
    } else {
      JoinExtend(c, t);
    }
  }

  /** Joining the pieces of a split with line feeds gives the text back. */
  lemma {:induction false} SplitJoin(s: string)
    ensures JoinLines(SplitOnNewline(s)) == s
  {
    if s != [] {
      SplitJoin(s[1..]);
      JoinStep(s[0], SplitOnNewline(s[1..]));
      assert s == [s[0]] + s[1..];
    }
  }

  /** Removes the carriage return at the end of a piece, if there is one. */
  function DropCR(p: string): (r: string)
    ensures p != [] && p[|p| - 1] == '\r' ==> p == r + "\r"
    ensures !(p != [] && p[|p| - 1] == '\r') ==> p == r
  {
    if p != [] && p[|p| - 1] == '\r' then p[..|p| - 1] else p
  }

  /**
   * text.split(/\r?\n/): split at line feeds and drop the carriage return
   * that precedes a line feed; the last piece is followed by no line feed,
   * so it keeps its carriage return.
   */
  function SplitLines(text: string): (r: seq<string>)
    ensures |r| == 1 + multiset(text)['\n']
    ensures forall k :: 0 <= k < |r| ==> '\n' !in r[k]
    ensures forall k :: 0 <= k < |r| ==>
      var p := SplitOnNewline(text)[k];
      if k < |r| - 1 && p != [] && p[|p| - 1] == '\r' then p == r[k] + "\r" else p == r[k]
  {
    var ps := SplitOnNewline(text);
    seq(|ps|, k requires 0 <= k < |ps| => if k < |ps| - 1 then DropCR(ps[k]) else ps[k])
  }
}
