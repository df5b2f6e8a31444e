/** The string rules the source adapters share: the stability classification
    (a substring test for the literal "pre-release") and the PyPI version
    trimming `re.sub(r'\n.*', '', s)`. */
module Text {

  /** The marker whose presence makes a fetched version a pre-release. */
  const PreReleaseMarker: string := "pre-release"

  /** `m` occurs in `s` starting at index `i`. */
  predicate OccursAt(m: string, s: string, i: int) {
    0 <= i && i + |m| <= |s| && s[i..i + |m|] == m
  }

  /** Reference definition of Python's `m in s` for strings. */
  ghost predicate IsSubstring(m: string, s: string) {
    exists i :: OccursAt(m, s, i)
  }

  lemma OccursAtShift(m: string, s: string, i: int)
    requires |s| > 0 && 0 <= i
    ensures OccursAt(m, s[1..], i) <==> OccursAt(m, s, i + 1)
  {
    if 0 <= i && i + |m| <= |s| - 1 {
      assert s[1..][i..i + |m|] == s[i + 1..i + 1 + |m|];
    }
  }

  /** Python's `m in s`: scans `s` left to right for an occurrence of `m`. */
  function Contains(m: string, s: string): (b: bool)
    ensures b <==> IsSubstring(m, s)
    decreases |s|
  {
    if |s| < |m| then
      assert forall i :: !OccursAt(m, s, i);
      false
    else if s[..|m|] == m then
      assert OccursAt(m, s, 0);
      true
    else
      var rest := Contains(m, s[1..]);
      assert rest ==> IsSubstring(m, s) by {
        if rest {
          var i :| OccursAt(m, s[1..], i);
          OccursAtShift(m, s, i);
        }
      }
      assert IsSubstring(m, s) ==> rest by {
        if IsSubstring(m, s) {
          var i :| OccursAt(m, s, i);
          assert i != 0;
          OccursAtShift(m, s, i - 1);
        }
      }
      rest
  }

  /** The classification every adapter applies (main.py lines 31, 44, 56, 67):
      a version text is stable unless it contains "pre-release". */
  function IsStable(text: string): (stable: bool)
    ensures !stable <==> IsSubstring(PreReleaseMarker, text)
  {
    !Contains(PreReleaseMarker, text)
  }

  /** `r` is the part of `s` before its first newline: a newline-free prefix
      of `s` that ends where `s` ends or at a newline. Determines `r`
      uniquely (see LineHeadUnique). */
  ghost predicate IsLineHead(r: string, s: string) {
    && r <= s
    && '\n' !in r
    && (|r| == |s| || s[|r|] == '\n')
  }

  lemma LineHeadUnique(a: string, b: string, s: string)
    requires IsLineHead(a, s) && IsLineHead(b, s)
    ensures a == b
  {
  }

  /** What the regular expression `.` consumes after a newline: the leading
      run of characters other than newline. Returns what follows it. */
  function SkipLineRest(s: string): (rest: string)
    ensures |rest| <= |s| && rest == s[|s| - |rest|..]
    ensures rest == [] || rest[0] == '\n'
    ensures '\n' !in s[..|s| - |rest|]
    decreases |s|
  {
    if s == [] || s[0] == '\n' then s else SkipLineRest(s[1..])
  }

  /** `re.sub(r'\n.*', '', s)` with Python's default flags, where `.` matches
      any character except a newline: every newline together with the
      non-newline characters that follow it is removed, scanning left to
      right (main.py line 32). */
  function SubNewlineRuns(s: string): (r: string)
    ensures IsLineHead(r, s)
    ensures '\n' !in s ==> r == s
    decreases |s|
  {
    if s == [] then []
    else if s[0] == '\n' then
      var rest := SkipLineRest(s[1..]);
      SubNewlineRuns(rest)
    else
      var r := SubNewlineRuns(s[1..]);
      [s[0]] + r
  }

  /** Classifying before trimming can only see more of the marker: a trimmed
      PyPI version that still contains "pre-release" was classified
      non-stable. The converse fails (see PypiBadgeClassified). */
  lemma MarkerSurvivesOnlyInHead(raw: string)
    ensures IsSubstring(PreReleaseMarker, SubNewlineRuns(raw))
            ==> IsSubstring(PreReleaseMarker, raw)
  {
    var t := SubNewlineRuns(raw);
    if IsSubstring(PreReleaseMarker, t) {
      var i :| OccursAt(PreReleaseMarker, t, i);
      assert raw[i..i + |PreReleaseMarker|] == t[i..i + |PreReleaseMarker|];
      assert OccursAt(PreReleaseMarker, raw, i);
    }
  }

  /** The layout a PyPI release paragraph has when the release is flagged:
      the version, then the badge on the next line. Trimming keeps the
      version alone ... */
  lemma PypiBadgeTrimmed()
    ensures SubNewlineRuns("2.0b1\npre-release") == "2.0b1"
  {
    var s := "2.0b1\npre-release";
    var head := "2.0b1";
    assert IsLineHead(head, s);
    LineHeadUnique(SubNewlineRuns(s), head, s);
  }

  /** ... and only the untrimmed text carries the marker, so the
      classification has to look at it before trimming. */
  lemma PypiBadgeClassified()
    ensures !IsStable("2.0b1\npre-release")
    ensures IsStable("2.0b1")
  {
    var s := "2.0b1\npre-release";
    assert s[6..6 + |PreReleaseMarker|] == PreReleaseMarker;
    assert OccursAt(PreReleaseMarker, s, 6);
  }
}
