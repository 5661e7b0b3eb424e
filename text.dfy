/** Python string operations used by main.py: `str.strip()` with no argument,
    `' '.join(pieces)` and, as its inverse, `str.split(' ')`. */
module Text {

  /** The characters for which Python's `str.isspace` holds: the ones
      `str.strip()` removes when it is called without an argument. */
  const Whitespace: set<char> := {
    '\t', '\n', '\U{b}', '\U{c}', '\r', '\U{1c}', '\U{1d}', '\U{1e}', '\U{1f}', ' ',
    '\U{85}', '\U{a0}', '\U{1680}',
    '\U{2000}', '\U{2001}', '\U{2002}', '\U{2003}', '\U{2004}', '\U{2005}',
    '\U{2006}', '\U{2007}', '\U{2008}', '\U{2009}', '\U{200a}',
    '\U{2028}', '\U{2029}', '\U{202f}', '\U{205f}', '\U{3000}'
  }

  predicate IsSpace(c: char) {
    c in Whitespace
  }

  predicate AllSpace(s: string) {
    forall k :: 0 <= k < |s| ==> IsSpace(s[k])
  }

  /** The index of the first character at or after `i` that is not
      whitespace, or `|s|`. */
  function SkipSpaces(s: string, i: nat): (k: nat)
    requires i <= |s|
    ensures i <= k <= |s|
    decreases |s| - i
  {
    if i < |s| && IsSpace(s[i]) then SkipSpaces(s, i + 1) else i
  }

  /** The index just past the last character before `j`, and at or after
      `lo`, that is not whitespace, or `lo`. */
  function SkipSpacesBack(s: string, lo: nat, j: nat): (k: nat)
    requires lo <= j <= |s|
    ensures lo <= k <= j
    decreases j
  {
    if lo < j && IsSpace(s[j - 1]) then SkipSpacesBack(s, lo, j - 1) else j
  }

  lemma {:induction false} SkipSpacesSpec(s: string, i: nat)
    requires i <= |s|
    ensures var k := SkipSpaces(s, i);
      i <= k <= |s| && AllSpace(s[i..k]) && (k == |s| || !IsSpace(s[k]))
    decreases |s| - i
  {
    if i < |s| && IsSpace(s[i]) {
      SkipSpacesSpec(s, i + 1);
      var k := SkipSpaces(s, i);
      assert s[i..k] == [s[i]] + s[i + 1..k];
    }
  }

  lemma {:induction false} SkipSpacesBackSpec(s: string, lo: nat, j: nat)
    requires lo <= j <= |s|
    ensures var k := SkipSpacesBack(s, lo, j);
      lo <= k <= j && AllSpace(s[k..j]) && (k == lo || !IsSpace(s[k - 1]))
    decreases j
  {
    if lo < j && IsSpace(s[j - 1]) {
      SkipSpacesBackSpec(s, lo, j - 1);
      var k := SkipSpacesBack(s, lo, j);
      assert s[k..j] == s[k..j - 1] + [s[j - 1]];
    }
  }

  /** `r` is what is left of `s` once the whitespace at both ends is gone. */
  ghost predicate IsStripped(s: string, r: string) {
    (r == [] || (!IsSpace(r[0]) && !IsSpace(r[|r| - 1]))) &&
    exists k :: StrippedAt(s, r, k)
  }

  ghost predicate StrippedAt(s: string, r: string, k: int) {
    0 <= k && k + |r| <= |s| && s[k..k + |r|] == r &&
    AllSpace(s[..k]) && AllSpace(s[k + |r|..])
  }

  /** Python's `s.strip()`. */
  function Strip(s: string): string {
    var a := SkipSpaces(s, 0);
    s[a..SkipSpacesBack(s, a, |s|)]
  }

  /** `strip()` removes the whitespace at both ends and nothing else. */
  lemma StripSpec(s: string)
    ensures IsStripped(s, Strip(s))
  {
    var a := SkipSpaces(s, 0);
    SkipSpacesSpec(s, 0);
    var b := SkipSpacesBack(s, a, |s|);
    SkipSpacesBackSpec(s, a, |s|);
    assert s[..a] == s[0..a];
    assert s[b..] == s[b..|s|];
    assert StrippedAt(s, Strip(s), a);
  }

  /** Stripping is idempotent. */
  lemma StripIdempotent(s: string)
    ensures Strip(Strip(s)) == Strip(s)
  {
    var r := Strip(s);
    StripSpec(s);
    SkipSpacesSpec(r, 0);
    SkipSpacesBackSpec(r, 0, |r|);
    assert SkipSpaces(r, 0) == 0;
    assert SkipSpacesBack(r, 0, |r|) == |r|;
    assert r[0..|r|] == r;
  }

  /** A line strips to the empty string exactly when it is all whitespace
      (so a raw "\n" is emitted as ""). */
  lemma StripEmptyIff(s: string)
    ensures Strip(s) == "" <==> AllSpace(s)
  {
    StripSpec(s);
  }

  /** Python's `' '.join(pieces)`: the pieces, separated by single spaces,
      nothing quoted or escaped. */
  function Join(pieces: seq<string>): string {
    if |pieces| == 0 then ""
    else if |pieces| == 1 then pieces[0]
    else pieces[0] + " " + Join(pieces[1..])
  }

  /** Python's `s.split(' ')`: the text between consecutive spaces, empty
      pieces kept. */
  function Split(s: string): (r: seq<string>)
    ensures |r| >= 1
  {
    if s == [] then [""]
    else
      var rest := Split(s[1..]);
      if s[0] == ' ' then [""] + rest else [[s[0]] + rest[0]] + rest[1..]
  }

  predicate NoSpace(p: string) {
    forall k :: 0 <= k < |p| ==> p[k] != ' '
  }

  /** Joining what `split(' ')` returns gives back the original text. */
  lemma {:induction false} JoinSplit(s: string)
    ensures Join(Split(s)) == s
  {
    if s != [] {
      var rest := Split(s[1..]);
      JoinSplit(s[1..]);
      if s[0] == ' ' {
        assert ([""] + rest)[1..] == rest;
      } else if |rest| == 1 {
        assert Join([[s[0]] + rest[0]] + rest[1..]) == [s[0]] + rest[0];
      } else {
        assert ([[s[0]] + rest[0]] + rest[1..])[1..] == rest[1..];
        assert Join(rest) == rest[0] + " " + Join(rest[1..]);
      }
    }
  }

  /** Splitting a text that starts with a space-free piece glues that piece to
      the first field. */
  lemma {:induction false} SplitGlue(p: string, s: string)
    requires NoSpace(p)
    ensures Split(p + s) == [p + Split(s)[0]] + Split(s)[1..]
  {
    if p != [] {
      assert (p + s)[1..] == p[1..] + s;
      SplitGlue(p[1..], s);
      assert [p[0]] + (p[1..] + Split(s)[0]) == p + Split(s)[0];
    } else {
      assert p + s == s;
      assert p + Split(s)[0] == Split(s)[0];
      assert Split(s) == [Split(s)[0]] + Split(s)[1..];
    }
  }

  /** Splitting a join of space-free pieces gives back exactly those pieces. */
  lemma {:induction false} SplitJoin(pieces: seq<string>)
    requires |pieces| >= 1
    requires forall k :: 0 <= k < |pieces| ==> NoSpace(pieces[k])
    ensures Split(Join(pieces)) == pieces
  {
    if |pieces| == 1 {
      SplitGlue(pieces[0], "");
      assert pieces[0] + "" == pieces[0];
    } else {
      var rest := Join(pieces[1..]);
      SplitJoin(pieces[1..]);
      assert pieces[0] + " " + rest == pieces[0] + (" " + rest);
      SplitGlue(pieces[0], " " + rest);
      assert (" " + rest)[1..] == rest;
      assert Split(" " + rest) == [""] + pieces[1..];
      assert pieces[0] + "" == pieces[0];
    }
  }
}
