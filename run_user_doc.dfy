/** The one regular expression of the program, `/run/user/(\d+)/doc`
    (main.py:94), and Python's `search` with it: does the pattern occur
    anywhere in a line? */
module RunUserDoc {

  const Prefix: string := "/run/user/"
  const Suffix: string := "/doc"

  /** `\d`, restricted to the ASCII digits. */
  predicate IsDigit(c: char) {
    '0' <= c <= '9'
  }

  predicate AllDigits(s: string) {
    forall k :: 0 <= k < |s| ==> IsDigit(s[k])
  }

  /** `s[i..j]` is `/run/user/`, one or more digits, then `/doc`. */
  ghost predicate MatchSpan(s: string, i: int, j: int) {
    0 <= i && i + |Prefix| + |Suffix| < j <= |s| &&
    s[i..i + |Prefix|] == Prefix &&
    AllDigits(s[i + |Prefix|..j - |Suffix|]) &&
    s[j - |Suffix|..j] == Suffix
  }

  /** The pattern occurs somewhere in `s`. */
  ghost predicate Matches(s: string) {
    exists i, j :: MatchSpan(s, i, j)
  }

  /** The end of the run of digits that starts at `k`. */
  function DigitsEnd(s: string, k: nat): (e: nat)
    requires k <= |s|
    ensures k <= e <= |s|
    decreases |s| - k
  {
    if k < |s| && IsDigit(s[k]) then DigitsEnd(s, k + 1) else k
  }

  lemma {:induction false} DigitsEndSpec(s: string, k: nat)
    requires k <= |s|
    ensures var e := DigitsEnd(s, k);
      AllDigits(s[k..e]) && (e == |s| || !IsDigit(s[e]))
    decreases |s| - k
  {
    if k < |s| && IsDigit(s[k]) {
      DigitsEndSpec(s, k + 1);
      var e := DigitsEnd(s, k + 1);
      assert DigitsEnd(s, k) == e;
      forall m | 0 <= m < e - k
        ensures IsDigit(s[k..e][m])
      {
        if m > 0 {
          assert s[k..e][m] == s[k + 1..e][m - 1];
        }
      }
    }
  }

  /** The pattern matches starting at index `i`: the digits are the whole
      digit run after the prefix, since `/` is not a digit. */
  function MatchAt(s: string, i: nat): bool
    requires i <= |s|
  {
    var d := i + |Prefix|;
    d <= |s| && s[i..d] == Prefix &&
    var e := DigitsEnd(s, d);
    d < e && e + |Suffix| <= |s| && s[e..e + |Suffix|] == Suffix
  }

  /** `MatchAt` finds a match at `i` exactly when there is one. */
  lemma MatchAtSpec(s: string, i: nat)
    requires i <= |s|
    ensures MatchAt(s, i) <==> exists j :: MatchSpan(s, i, j)
  {
    var d := i + |Prefix|;
    if MatchAt(s, i) {
      var e := DigitsEnd(s, d);
      DigitsEndSpec(s, d);
      assert MatchSpan(s, i, e + |Suffix|);
    }
    if j :| MatchSpan(s, i, j) {
      var e := DigitsEnd(s, d);
      DigitsEndSpec(s, d);
      var m := j - |Suffix|;
      // every character of s[d..m] is a digit and s[m] is '/'
      assert s[m] == s[m..j][0] == '/';
      if e < m {
        assert s[e] == s[d..m][e - d];
      } else if m < e {
        assert s[m] == s[d..e][m - d];
      }
    }
  }

  /** The pattern occurs at or after index `i`. */
  function SearchFrom(s: string, i: nat): bool
    requires i <= |s|
    decreases |s| - i
  {
    MatchAt(s, i) || (i < |s| && SearchFrom(s, i + 1))
  }

  /** `run_user_regex.search(line)` is truthy. */
  function ContainsDocPath(s: string): bool {
    SearchFrom(s, 0)
  }

  lemma {:induction false} SearchFromSpec(s: string, i: nat)
    requires i <= |s|
    ensures SearchFrom(s, i) <==> exists k, j :: i <= k && MatchSpan(s, k, j)
    decreases |s| - i
  {
    MatchAtSpec(s, i);
    if i < |s| {
      SearchFromSpec(s, i + 1);
    }
    if k, j :| i <= k && MatchSpan(s, k, j) {
      if k > i {
        assert i + 1 <= k;
      }
    }
  }

  /** The search answers yes exactly when the pattern occurs in the line. */
  lemma SearchCorrect(s: string)
    ensures ContainsDocPath(s) <==> Matches(s)
  {
    SearchFromSpec(s, 0);
  }

  /** Whatever surrounds it, a path `/run/user/<digits>/doc` in a line is
      found, as in `df: /run/user/1000/doc: Operation not permitted`. */
  lemma PathInLineMatches(before: string, digits: string, after: string)
    requires |digits| > 0 && AllDigits(digits)
    ensures ContainsDocPath(before + Prefix + digits + Suffix + after)
  {
    var s := before + Prefix + digits + Suffix + after;
    var i := |before|;
    var j := i + |Prefix| + |digits| + |Suffix|;
    assert s == before + (Prefix + digits + Suffix) + after;
    assert s[i..j] == Prefix + digits + Suffix;
    assert s[i..i + |Prefix|] == s[i..j][..|Prefix|];
    assert s[i + |Prefix|..j - |Suffix|] == s[i..j][|Prefix|..|Prefix| + |digits|];
    assert s[j - |Suffix|..j] == s[i..j][|Prefix| + |digits|..];
    assert MatchSpan(s, i, j);
    SearchCorrect(s);
  }
}
