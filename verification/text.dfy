/**
 The two string operations the pages rely on, over ECMAScript's notion of
 whitespace: `String.prototype.trim` and the rewrite `replace(/\s+/g, '_')`.
 */
module Text {
  import opened Seqs

  /** ECMAScript WhiteSpace and LineTerminator code points: the set matched by
      `\s` and removed by `trim` (the space separators of Unicode category Zs
      are listed explicitly). Within ASCII these are exactly TAB through CR
      and the space; the run replacement `_` is not one of them. */
  predicate IsWhitespace(c: char): (b: bool)
    ensures c < '\U{0080}' ==> (b <==> ('\t' <= c <= '\r' || c == ' '))
    ensures c == RunReplacement ==> !b
  {
    || c == '\t' || c == '\n' || c == '\U{000B}' || c == '\U{000C}' || c == '\r'
    || c == ' ' || c == '\U{00A0}' || c == '\U{1680}'
    || ('\U{2000}' <= c <= '\U{200A}')
    || c == '\U{2028}' || c == '\U{2029}' || c == '\U{202F}' || c == '\U{205F}'
    || c == '\U{3000}' || c == '\U{FEFF}'
  }

  predicate NotWhitespace(c: char) {
    !IsWhitespace(c)
  }

  /** Every character is whitespace (this includes the empty string). */
  predicate IsBlank(s: string) {
    forall i :: 0 <= i < |s| ==> IsWhitespace(s[i])
  }

  predicate HasNoWhitespace(s: string) {
    forall i :: 0 <= i < |s| ==> !IsWhitespace(s[i])
  }

  /** The characters of `s` that are not whitespace, in order. */
  function NonWhitespace(s: string): string {
    Filter(s, NotWhitespace)
  }

  /** Length of the longest whitespace prefix. */
  function LeadingWhitespace(s: string): (n: nat)
    ensures n <= |s|
    ensures forall i :: 0 <= i < n ==> IsWhitespace(s[i])
    ensures n < |s| ==> !IsWhitespace(s[n])
  {
    if |s| > 0 && IsWhitespace(s[0]) then 1 + LeadingWhitespace(s[1..]) else 0
  }

  /** Length of the longest whitespace suffix. */
  function TrailingWhitespace(s: string): (n: nat)
    ensures n <= |s|
    ensures forall i :: |s| - n <= i < |s| ==> IsWhitespace(s[i])
    ensures n < |s| ==> !IsWhitespace(s[|s| - 1 - n])
  {
    if |s| > 0 && IsWhitespace(s[|s| - 1]) then 1 + TrailingWhitespace(s[..|s| - 1]) else 0
  }

  /** `s` without its leading whitespace run. */
  function SkipWhitespace(s: string): string {
    s[LeadingWhitespace(s)..]
  }

  /** `String.prototype.trim`: the slice of `s` left after removing the
      maximal whitespace runs at both ends. */
  function Trim(s: string): (r: string)
    ensures LeadingWhitespace(s) + |r| <= |s|
    ensures r == s[LeadingWhitespace(s)..LeadingWhitespace(s) + |r|]
    ensures forall i :: LeadingWhitespace(s) + |r| <= i < |s| ==> IsWhitespace(s[i])
    ensures |r| > 0 ==> !IsWhitespace(r[0]) && !IsWhitespace(r[|r| - 1])
    ensures r == [] <==> IsBlank(s)
  {
    var lead := LeadingWhitespace(s);
    var rest := s[lead..];
    var r := rest[..|rest| - TrailingWhitespace(rest)];
    assert r == s[lead..lead + |r|];
    r
  }

  /** Trimming is idempotent. */
  lemma TrimIdempotent(s: string)
    ensures Trim(Trim(s)) == Trim(s)
  {
    var r := Trim(s);
    assert LeadingWhitespace(r) == 0;
    assert TrailingWhitespace(r) == 0;
  }

  /** Trimming removes only whitespace: every other character is kept, in order. */
  lemma TrimKeepsNonWhitespace(s: string)
    ensures NonWhitespace(Trim(s)) == NonWhitespace(s)
  {
    var r := Trim(s);
    var lead := LeadingWhitespace(s);
    var head, tail := s[..lead], s[lead + |r|..];
    assert s == head + r + tail;
    FilterConcat(head + r, tail, NotWhitespace);
    FilterConcat(head, r, NotWhitespace);
    FilterDropsRejectedPrefix(head, NotWhitespace, |head|);
    FilterDropsRejectedPrefix(tail, NotWhitespace, |tail|);
  }

  /** A string that neither starts nor ends with whitespace is its own trim. */
  lemma TrimUnpadded(s: string)
    requires |s| > 0 && !IsWhitespace(s[0]) && !IsWhitespace(s[|s| - 1])
    ensures Trim(s) == s
  {
    assert LeadingWhitespace(s) == 0;
    assert TrailingWhitespace(s) == 0;
  }

  /** The character every whitespace run is replaced by. */
  const RunReplacement: char := '_'

  /** `s.replace(/\s+/g, '_')`: each maximal run of whitespace becomes one `_`. */
  function ReplaceWhitespaceRuns(s: string): (r: string)
    ensures HasNoWhitespace(r)
    decreases |s|
  {
    if |s| == 0 then []
    else if IsWhitespace(s[0]) then [RunReplacement] + ReplaceWhitespaceRuns(SkipWhitespace(s))
    else [s[0]] + ReplaceWhitespaceRuns(s[1..])
  }

  /** A character-at-a-time reading of the same rewrite: a non-whitespace
      character is copied, the first whitespace character of a run emits `_`,
      and the rest of the run emits nothing. `inRun` records whether the
      previous character was whitespace. */
  function ScanRuns(s: string, inRun: bool): string {
    if |s| == 0 then []
    else if !IsWhitespace(s[0]) then [s[0]] + ScanRuns(s[1..], false)
    else if inRun then ScanRuns(s[1..], true)
    else [RunReplacement] + ScanRuns(s[1..], true)
  }

  /** Dropping one leading whitespace character does not change where the run ends. */
  lemma SkipWhitespaceStep(s: string)
    requires |s| > 0 && IsWhitespace(s[0])
    ensures SkipWhitespace(s) == SkipWhitespace(s[1..])
  {
    assert LeadingWhitespace(s) == 1 + LeadingWhitespace(s[1..]);
  }

  /** Inside a run, the scanner emits exactly what it emits after the run ends. */
  lemma {:induction false} ScanInsideRun(s: string)
    ensures ScanRuns(s, true) == ScanRuns(SkipWhitespace(s), false)
    decreases |s|
  {
    if |s| > 0 {
      if IsWhitespace(s[0]) {
        SkipWhitespaceStep(s);
        ScanInsideRun(s[1..]);
      } else {
        assert SkipWhitespace(s) == s;
      }
    }
  }

  /** The run-at-a-time rewrite and the character-at-a-time scanner agree. */
  lemma {:induction false} ReplaceRunsMatchesScan(s: string)
    ensures ReplaceWhitespaceRuns(s) == ScanRuns(s, false)
    decreases |s|
  {
    if |s| > 0 {
      if IsWhitespace(s[0]) {
        SkipWhitespaceStep(s);
        ScanInsideRun(s[1..]);
        ReplaceRunsMatchesScan(SkipWhitespace(s));
      } else {
        ReplaceRunsMatchesScan(s[1..]);
      }
    }
  }

  /** Every non-whitespace character of `s` survives the rewrite, in order. */
  lemma {:induction false} ReplaceRunsKeepsNonWhitespace(s: string)
    ensures IsSubsequence(NonWhitespace(s), ReplaceWhitespaceRuns(s))
    decreases |s|
  {
    if |s| > 0 {
      if IsWhitespace(s[0]) {
        var rest := SkipWhitespace(s);
        FilterDropsRejectedPrefix(s, NotWhitespace, LeadingWhitespace(s));
        ReplaceRunsKeepsNonWhitespace(rest);
        SubsequenceSkip(RunReplacement, NonWhitespace(rest), ReplaceWhitespaceRuns(rest));
      } else {
        assert s == [s[0]] + s[1..];
        assert NonWhitespace(s) == [s[0]] + NonWhitespace(s[1..]);
        ReplaceRunsKeepsNonWhitespace(s[1..]);
        SubsequenceCons(s[0], NonWhitespace(s[1..]), ReplaceWhitespaceRuns(s[1..]));
      }
    }
  }

  /** A string without whitespace is left unchanged by the rewrite. */
  lemma {:induction false} ReplaceRunsIdentity(s: string)
    requires HasNoWhitespace(s)
    ensures ReplaceWhitespaceRuns(s) == s
    decreases |s|
  {
    if |s| > 0 {
      ReplaceRunsIdentity(s[1..]);
    }
  }

  /** A whitespace-free prefix is copied verbatim, and the rest is rewritten on its own. */
  lemma {:induction false} ReplaceRunsPlainPrefix(a: string, t: string)
    requires HasNoWhitespace(a)
    ensures ReplaceWhitespaceRuns(a + t) == a + ReplaceWhitespaceRuns(t)
    decreases |a|
  {
    if |a| > 0 {
      var s := a + t;
      assert s[0] == a[0] && !IsWhitespace(s[0]);
      assert s[1..] == a[1..] + t;
      ReplaceRunsPlainPrefix(a[1..], t);
      calc {
        ReplaceWhitespaceRuns(s);
        [a[0]] + ReplaceWhitespaceRuns(a[1..] + t);
        [a[0]] + (a[1..] + ReplaceWhitespaceRuns(t));
        { assert a == [a[0]] + a[1..]; }
        a + ReplaceWhitespaceRuns(t);
      }
    } else {
      assert a + t == t;
    }
  }

  /** The rewrite is idempotent: its output has no whitespace left to replace. */
  lemma ReplaceRunsIdempotent(s: string)
    ensures ReplaceWhitespaceRuns(ReplaceWhitespaceRuns(s)) == ReplaceWhitespaceRuns(s)
  {
    ReplaceRunsIdentity(ReplaceWhitespaceRuns(s));
  }
}
