/** The address check of the waitlist endpoint, the regular expression
    `^[^\s@]+@[^\s@]+\.[^\s@]+$`, given twice: once as the language the
    pattern denotes and once as a direct test of the string, and proved equal. */
module EmailPattern {

  /** The characters of the `\s` class of ECMAScript regular expressions:
      WhiteSpace and LineTerminator (ECMA-262, sections 12.2 and 12.3), with
      the Unicode space separators (category Zs) written out. */
  const Whitespace: set<char> := {
    '\t', '\n', '\U{000B}', '\U{000C}', '\r', ' ', '\U{00A0}', '\U{1680}',
    '\U{2000}', '\U{2001}', '\U{2002}', '\U{2003}', '\U{2004}', '\U{2005}',
    '\U{2006}', '\U{2007}', '\U{2008}', '\U{2009}', '\U{200A}',
    '\U{2028}', '\U{2029}', '\U{202F}', '\U{205F}', '\U{3000}', '\U{FEFF}'
  }

  /** The character class `[^\s@]`. */
  predicate IsAtom(c: char) {
    c !in Whitespace && c != '@'
  }

  /** `[^\s@]+` matches exactly `s[lo..hi]`. */
  ghost predicate AtomsAt(s: string, lo: int, hi: int) {
    0 <= lo < hi <= |s| && forall k :: lo <= k < hi ==> IsAtom(s[k])
  }

  /** `s` is in the language of `^[^\s@]+@[^\s@]+\.[^\s@]+$`: it splits at an
      `@` and, after it, a `.` into three non-empty runs of `[^\s@]`. */
  ghost predicate MatchesPattern(s: string) {
    exists at, dot ::
      0 <= at < dot < |s| && s[at] == '@' && s[dot] == '.' &&
      AtomsAt(s, 0, at) && AtomsAt(s, at + 1, dot) && AtomsAt(s, dot + 1, |s|)
  }

  /** How many times `c` occurs in `s`. */
  function Count(c: char, s: string): (n: nat)
    ensures n <= |s|
    ensures n == 0 <==> c !in s
  {
    if s == [] then 0 else (if s[0] == c then 1 else 0) + Count(c, s[1..])
  }

  /** The index of the first `c` in `s`, or `|s|` when there is none. */
  function IndexOf(c: char, s: string): (i: nat)
    ensures i <= |s|
    ensures i < |s| <==> c in s
    ensures i < |s| ==> s[i] == c
    ensures forall k :: 0 <= k < i ==> s[k] != c
  {
    if s == [] then 0 else if s[0] == c then 0 else 1 + IndexOf(c, s[1..])
  }

  predicate NoWhitespace(s: string) {
    forall k :: 0 <= k < |s| ==> s[k] !in Whitespace
  }

  /** `d` has a `.` that is neither its first nor its last character. */
  predicate HasInnerDot(d: string) {
    exists k :: 0 < k < |d| - 1 && d[k] == '.'
  }

  /** The test the endpoint applies: no whitespace, exactly one `@`, something
      before it, and a domain after it with an inner `.`. */
  predicate IsValidEmail(s: string) {
    NoWhitespace(s) && Count('@', s) == 1 &&
    var at := IndexOf('@', s);
    at > 0 && HasInnerDot(s[at + 1..])
  }

  /** With `c` at index `i`, `c` occurs once exactly when no other index holds it. */
  lemma {:induction false} CountOne(c: char, s: string, i: nat)
    requires i < |s| && s[i] == c
    ensures Count(c, s) == 1 <==> forall k :: 0 <= k < |s| && k != i ==> s[k] != c
  {
    var t := s[1..];
    assert forall k :: 1 <= k < |s| ==> s[k] == t[k - 1];
    if i == 0 {
      assert Count(c, s) == 1 + Count(c, t);
      if Count(c, t) != 0 {
        var j :| 0 <= j < |t| && t[j] == c;
        assert s[j + 1] == c;
      }
    } else if s[0] == c {
      assert t[i - 1] == c;
      assert Count(c, t) != 0;
    } else {
      CountOne(c, t, i - 1);
      assert Count(c, s) == Count(c, t);
    }
  }

  /** Every string in the pattern's language passes the test. */
  lemma MatchImpliesValid(s: string, at: int, dot: int)
    requires 0 <= at < dot < |s| && s[at] == '@' && s[dot] == '.'
    requires AtomsAt(s, 0, at) && AtomsAt(s, at + 1, dot) && AtomsAt(s, dot + 1, |s|)
    ensures IsValidEmail(s)
  {
    assert forall k :: 0 <= k < |s| && k != at && k != dot ==> IsAtom(s[k]);
    CountOne('@', s, at);
    assert IndexOf('@', s) == at;
    var d := s[at + 1..];
    assert d[dot - at - 1] == '.';
  }

  /** Every string that passes the test is in the pattern's language. */
  lemma ValidImpliesMatch(s: string)
    requires IsValidEmail(s)
    ensures MatchesPattern(s)
  {
    var at := IndexOf('@', s);
    CountOne('@', s, at);
    var d := s[at + 1..];
    var k :| 0 < k < |d| - 1 && d[k] == '.';
    var dot := at + 1 + k;
    assert s[dot] == '.';
    assert AtomsAt(s, 0, at) && AtomsAt(s, at + 1, dot) && AtomsAt(s, dot + 1, |s|);
  }

  /** The test accepts exactly the strings the regular expression matches. */
  lemma PatternCharacterisation(s: string)
    ensures MatchesPattern(s) <==> IsValidEmail(s)
  {
    if MatchesPattern(s) {
      var at, dot :| 0 <= at < dot < |s| && s[at] == '@' && s[dot] == '.' &&
        AtomsAt(s, 0, at) && AtomsAt(s, at + 1, dot) && AtomsAt(s, dot + 1, |s|);
      MatchImpliesValid(s, at, dot);
    }
    if IsValidEmail(s) {
      ValidImpliesMatch(s);
    }
  }
}
