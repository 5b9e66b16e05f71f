/**
 * The e-mail pattern `^[^\s@]+@[^\s@]+\.[^\s@]+$` that the back end and both
 * client forms test values against: the language the pattern denotes, and a
 * direct test that decides it.
 */
module Email {
  import opened Text

  /** A character of the class `[^\s@]`. */
  predicate Plain(c: char) {
    !IsSpace(c) && c != '@'
  }

  predicate AllPlain(s: string) {
    forall i :: 0 <= i < |s| ==> Plain(s[i])
  }

  /**
   * The strings the pattern matches: a non-empty plain local part, one `@`, then
   * a plain domain holding a `.` that has plain text on both sides.
   */
  ghost predicate MatchesPattern(s: string) {
    exists at, dot {:trigger s[at], s[dot]} ::
      0 < at && at + 1 < dot < |s| - 1 && s[at] == '@' && s[dot] == '.' &&
      AllPlain(s[..at]) && AllPlain(s[at + 1..])
  }

  /** The index of the first `c` in `s`, or `|s|` when there is none. */
  function IndexOf(s: string, c: char): (i: nat)
    ensures i <= |s|
    ensures i < |s| ==> s[i] == c
    ensures forall j :: 0 <= j < i ==> s[j] != c
  {
    if s == [] then 0 else if s[0] == c then 0 else 1 + IndexOf(s[1..], c)
  }

  /** The domain holds a `.` that is neither its first nor its last character. */
  predicate HasInnerDot(d: string) {
    exists k :: 0 < k < |d| - 1 && d[k] == '.'
  }

  /** `emailRegex.test(s)`, decided by splitting at the first `@`. */
  predicate Test(s: string) {
    var at := IndexOf(s, '@');
    0 < at < |s| && AllPlain(s[..at]) && AllPlain(s[at + 1..]) && HasInnerDot(s[at + 1..])
  }

  /** The direct test accepts exactly the strings of the pattern's language. */
  lemma TestMatchesPattern(s: string)
    ensures Test(s) <==> MatchesPattern(s)
  {
    if Test(s) {
      var at := IndexOf(s, '@');
      var d := s[at + 1..];
      var k :| 0 < k < |d| - 1 && d[k] == '.';
      assert s[at + 1 + k] == d[k];
    }
    if MatchesPattern(s) {
      var at, dot :| 0 < at && at + 1 < dot < |s| - 1 && s[at] == '@' && s[dot] == '.' &&
        AllPlain(s[..at]) && AllPlain(s[at + 1..]);
      forall j | 0 <= j < at ensures s[j] != '@' {
        assert s[..at][j] == s[j];
      }
      assert IndexOf(s, '@') == at;
      var d := s[at + 1..];
      assert d[dot - at - 1] == s[dot];
    }
  }

  /** What the pattern demands, spelled out: no white space and exactly one `@` anywhere. */
  lemma AcceptedShape(s: string)
    requires Test(s)
    ensures forall i :: 0 <= i < |s| ==> !IsSpace(s[i])
    ensures exists at :: 0 < at < |s| && s[at] == '@' && forall j :: 0 <= j < |s| && j != at ==> s[j] != '@'
  {
    var at := IndexOf(s, '@');
    forall i | 0 <= i < |s| ensures !IsSpace(s[i]) && (i != at ==> s[i] != '@') {
      if i < at {
        assert s[..at][i] == s[i];
      } else if i > at {
        assert s[at + 1..][i - at - 1] == s[i];
      }
    }
  }
}
