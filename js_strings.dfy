/**
 * The JavaScript string operations the library relies on (`indexOf`, `lastIndexOf`,
 * `includes`, `startsWith`, `endsWith`, `replace` with a string pattern, `trim`,
 * `toLowerCase`/`toUpperCase` and `split(/[\r\n]+/)`), stated over `seq<char>`.
 * Case mapping covers ASCII letters only.
 */
module JsStrings {
  import SeqLemmas

  /** `pat` occurs in `s` starting at position `i`. */
  predicate OccursAt(s: string, pat: string, i: int) {
    0 <= i && i + |pat| <= |s| && s[i..i + |pat|] == pat
  }

  /** `s.indexOf(pat, from)`: the first position at or after `from` where `pat` occurs, or -1. */
  function IndexOfFrom(s: string, pat: string, from: nat): (r: int)
    decreases |s| - from
    ensures r == -1 || (from <= r && OccursAt(s, pat, r))
    ensures r == -1 ==> forall i :: from <= i ==> !OccursAt(s, pat, i)
    ensures r != -1 ==> forall i :: from <= i < r ==> !OccursAt(s, pat, i)
  {
    if from + |pat| > |s| then -1
    else if s[from..from + |pat|] == pat then from
    else IndexOfFrom(s, pat, from + 1)
  }

  /** `s.indexOf(pat)`. */
  function IndexOf(s: string, pat: string): (r: int)
    ensures r == -1 <==> forall i :: !OccursAt(s, pat, i)
    ensures r != -1 ==> OccursAt(s, pat, r) && forall i :: 0 <= i < r ==> !OccursAt(s, pat, i)
  {
    IndexOfFrom(s, pat, 0)
  }

  /** `s.includes(pat)`. */
  predicate Includes(s: string, pat: string) {
    IndexOf(s, pat) != -1
  }

  /** The first position of character `c` in `s`, or -1 (`s.indexOf(c)` for a one-character string). */
  function IndexOfChar(s: string, c: char): (r: int)
    ensures -1 <= r < |s|
  {
    IndexOfCharFrom(s, c, 0)
  }

  /** The first position at or after `k` holding `c`, or -1. */
  function IndexOfCharFrom(s: string, c: char, k: nat): (r: int)
    requires k <= |s|
    decreases |s| - k
    ensures r == -1 || k <= r < |s|
  {
    if k == |s| then -1 else if s[k] == c then k else IndexOfCharFrom(s, c, k + 1)
  }

  lemma {:induction false} IndexOfCharFromSpec(s: string, c: char, k: nat)
    requires k <= |s|
    decreases |s| - k
    ensures var r := IndexOfCharFrom(s, c, k);
            && (r == -1 <==> forall i :: k <= i < |s| ==> s[i] != c)
            && (r != -1 ==> s[r] == c && forall i :: k <= i < r ==> s[i] != c)
  {
    if k < |s| && s[k] != c {
      IndexOfCharFromSpec(s, c, k + 1);
    }
  }

  /** -1 exactly when `c` does not occur; otherwise a position holding `c` with no `c` before it. */
  lemma IndexOfCharSpec(s: string, c: char)
    ensures IndexOfChar(s, c) == -1 <==> c !in s
    ensures var r := IndexOfChar(s, c);
            r != -1 ==> s[r] == c && c !in s[..r]
  {
    IndexOfCharFromSpec(s, c, 0);
  }

  /** `s.lastIndexOf(c)` for a one-character string: the last position of `c`, or -1. */
  function LastIndexOfChar(s: string, c: char): (r: int)
    ensures -1 <= r < |s|
  {
    LastIndexBefore(s, c, |s|)
  }

  /** The last position before `k` holding `c`, or -1. */
  function LastIndexBefore(s: string, c: char, k: nat): (r: int)
    requires k <= |s|
    ensures -1 <= r < k
  {
    if k == 0 then -1 else if s[k - 1] == c then k - 1 else LastIndexBefore(s, c, k - 1)
  }

  lemma {:induction false} LastIndexBeforeSpec(s: string, c: char, k: nat)
    requires k <= |s|
    ensures var r := LastIndexBefore(s, c, k);
            && (r == -1 <==> forall i :: 0 <= i < k ==> s[i] != c)
            && (r != -1 ==> s[r] == c && forall i :: r < i < k ==> s[i] != c)
  {
    if k > 0 && s[k - 1] != c {
      LastIndexBeforeSpec(s, c, k - 1);
    }
  }

  /** -1 exactly when `c` does not occur; otherwise a position holding `c` with no `c` after it. */
  lemma LastIndexOfCharSpec(s: string, c: char)
    ensures LastIndexOfChar(s, c) == -1 <==> c !in s
    ensures var r := LastIndexOfChar(s, c);
            r != -1 ==> s[r] == c && c !in s[r + 1..]
  {
    LastIndexBeforeSpec(s, c, |s|);
  }

  /** `s.startsWith(p)`. */
  predicate StartsWith(s: string, p: string) {
    |p| <= |s| && s[..|p|] == p
  }

  /** `s.endsWith(p)`. */
  predicate EndsWith(s: string, p: string) {
    |p| <= |s| && s[|s| - |p|..] == p
  }

  /** `s.replace(pat, rep)` with a string pattern: only the first occurrence is replaced. */
  function ReplaceFirst(s: string, pat: string, rep: string): (r: string)
    ensures !Includes(s, pat) ==> r == s
    ensures Includes(s, pat) ==>
              var i := IndexOf(s, pat);
              r == s[..i] + rep + s[i + |pat|..] && s == s[..i] + pat + s[i + |pat|..]
  {
    var i := IndexOf(s, pat);
    if i == -1 then s
    else
      assert s == s[..i] + s[i..i + |pat|] + s[i + |pat|..];
      s[..i] + rep + s[i + |pat|..]
  }

  /** White space and line terminators as `String.prototype.trim` removes them. */
  predicate IsJsWhiteSpace(c: char) {
    var n := c as int;
    n == 0x09 || n == 0x0A || n == 0x0B || n == 0x0C || n == 0x0D || n == 0x20 ||
    n == 0xA0 || n == 0x1680 || (0x2000 <= n <= 0x200A) || n == 0x2028 || n == 0x2029 ||
    n == 0x202F || n == 0x205F || n == 0x3000 || n == 0xFEFF
  }

  /** `s.trimStart()` */
  function TrimStart(s: string): string {
    if |s| > 0 && IsJsWhiteSpace(s[0]) then TrimStart(s[1..]) else s
  }

  /** `s.trimEnd()` */
  function TrimEnd(s: string): string {
    if |s| > 0 && IsJsWhiteSpace(s[|s| - 1]) then TrimEnd(s[..|s| - 1]) else s
  }

  /** `s.trim()` */
  function Trim(s: string): string {
    TrimEnd(TrimStart(s))
  }

  /** Only leading white space is dropped, and all of it. */
  lemma {:induction false} TrimStartSpec(s: string)
    ensures var r := TrimStart(s);
            && |r| <= |s| && r == s[|s| - |r|..]
            && (r == [] || !IsJsWhiteSpace(r[0]))
            && forall i :: 0 <= i < |s| - |r| ==> IsJsWhiteSpace(s[i])
    decreases |s|
  {
    if |s| > 0 && IsJsWhiteSpace(s[0]) {
      var t := s[1..];
      TrimStartSpec(t);
      var r := TrimStart(t);
      assert t[|t| - |r|..] == s[|s| - |r|..];
      assert forall i :: 1 <= i < |s| - |r| ==> s[i] == t[i - 1];
    }
  }

  /** Only trailing white space is dropped, and all of it. */
  lemma {:induction false} TrimEndSpec(s: string)
    ensures var r := TrimEnd(s);
            && |r| <= |s| && r == s[..|r|]
            && (r == [] || !IsJsWhiteSpace(r[|r| - 1]))
            && forall i :: |r| <= i < |s| ==> IsJsWhiteSpace(s[i])
    decreases |s|
  {
    if |s| > 0 && IsJsWhiteSpace(s[|s| - 1]) {
      var t := s[..|s| - 1];
      TrimEndSpec(t);
      var r := TrimEnd(t);
      assert t[..|r|] == s[..|r|];
      assert forall i :: |r| <= i < |s| - 1 ==> s[i] == t[i];
    }
  }

  /**
   * The trimmed text is the infix of `s` left once the white space at both ends is removed:
   * everything outside it is white space, and it neither starts nor ends with white space.
   */
  lemma TrimSpec(s: string)
    ensures var r := Trim(s);
            && (r == [] || (!IsJsWhiteSpace(r[0]) && !IsJsWhiteSpace(r[|r| - 1])))
            && exists a, b :: 0 <= a <= b <= |s| && r == s[a..b]
                 && (forall i :: 0 <= i < a ==> IsJsWhiteSpace(s[i]))
                 && (forall i :: b <= i < |s| ==> IsJsWhiteSpace(s[i]))
  {
    var t := TrimStart(s);
    TrimStartSpec(s);
    TrimEndSpec(t);
    var r := Trim(s);
    var a := |s| - |t|;
    var b := a + |r|;
    assert r == s[a..b];
    assert forall i :: b <= i < |s| ==> s[i] == t[i - a];
    if r != [] {
      assert r[0] == t[0];
    }
  }

  function LowerChar(c: char): char {
    if 'A' <= c <= 'Z' then (c as int + 32) as char else c
  }

  function UpperChar(c: char): char {
    if 'a' <= c <= 'z' then (c as int - 32) as char else c
  }

  /** `s.toLowerCase()` on ASCII letters. */
  function ToLower(s: string): (r: string)
    ensures |r| == |s| && forall i :: 0 <= i < |s| ==> r[i] == LowerChar(s[i])
  {
    seq(|s|, i requires 0 <= i < |s| => LowerChar(s[i]))
  }

  /** `s.toUpperCase()` on ASCII letters. */
  function ToUpper(s: string): (r: string)
    ensures |r| == |s| && forall i :: 0 <= i < |s| ==> r[i] == UpperChar(s[i])
  {
    seq(|s|, i requires 0 <= i < |s| => UpperChar(s[i]))
  }

  /** No ASCII upper-case letter occurs in `s`. */
  predicate IsLowerCase(s: string) {
    forall i :: 0 <= i < |s| ==> !('A' <= s[i] <= 'Z')
  }

  /** No ASCII lower-case letter occurs in `s`. */
  predicate IsUpperCase(s: string) {
    forall i :: 0 <= i < |s| ==> !('a' <= s[i] <= 'z')
  }

  lemma ToLowerProperties(s: string)
    ensures IsLowerCase(ToLower(s)) && ToLower(ToLower(s)) == ToLower(s)
    ensures IsLowerCase(s) ==> ToLower(s) == s
  {
  }

  lemma ToUpperProperties(s: string)
    ensures IsUpperCase(ToUpper(s)) && ToUpper(ToUpper(s)) == ToUpper(s)
    ensures IsUpperCase(s) ==> ToUpper(s) == s
  {
  }

  /** `\w` of a JavaScript regular expression without the `u` flag. */
  predicate IsWordChar(c: char) {
    ('a' <= c <= 'z') || ('A' <= c <= 'Z') || ('0' <= c <= '9') || c == '_'
  }

  predicate IsLineBreak(c: char) {
    c == '\r' || c == '\n'
  }

  /** The first position at or after `k` holding a line break, or |s|. */
  function NextBreak(s: string, k: nat): (r: nat)
    requires k <= |s|
    decreases |s| - k
    ensures k <= r <= |s| && (r < |s| ==> IsLineBreak(s[r]))
    ensures forall i :: k <= i < r ==> !IsLineBreak(s[i])
  {
    if k == |s| || IsLineBreak(s[k]) then k else NextBreak(s, k + 1)
  }

  /** The end of the run of line breaks starting at `k`. */
  function BreakRunEnd(s: string, k: nat): (r: nat)
    requires k <= |s|
    decreases |s| - k
    ensures k <= r <= |s| && (r < |s| ==> !IsLineBreak(s[r]))
    ensures forall i :: k <= i < r ==> IsLineBreak(s[i])
  {
    if k == |s| || !IsLineBreak(s[k]) then k else BreakRunEnd(s, k + 1)
  }

  /** `s.split(/[\r\n]+/)`: the pieces between maximal runs of CR and LF characters. */
  function SplitLines(s: string): seq<string>
    decreases |s|
  {
    var i := NextBreak(s, 0);
    if i == |s| then [s]
    else
      var j := BreakRunEnd(s, i);
      [s[..i]] + SplitLines(s[j..])
  }

  /** The maximal runs of line breaks `SplitLines` splits at, left to right. */
  function LineBreakRuns(s: string): seq<string>
    decreases |s|
  {
    var i := NextBreak(s, 0);
    if i == |s| then []
    else
      var j := BreakRunEnd(s, i);
      [s[i..j]] + LineBreakRuns(s[j..])
  }

  /** `pieces[0] + runs[0] + pieces[1] + … + runs[n - 1] + pieces[n]`. */
  function Interleave(pieces: seq<string>, runs: seq<string>): string
    requires |pieces| == |runs| + 1
    decreases |runs|
  {
    if runs == [] then pieces[0] else pieces[0] + runs[0] + Interleave(pieces[1..], runs[1..])
  }

  /** The first cut: the piece before the first run of line breaks at `i..j`, then the rest. */
  lemma SplitLinesCut(s: string, i: nat, j: nat)
    requires i == NextBreak(s, 0) < |s| && j == BreakRunEnd(s, i)
    ensures SplitLines(s) == [s[..i]] + SplitLines(s[j..])
  {
  }

  /** The first cut: the run of line breaks at `i..j`, then the runs of the rest. */
  lemma LineBreakRunsCut(s: string, i: nat, j: nat)
    requires i == NextBreak(s, 0) < |s| && j == BreakRunEnd(s, i)
    ensures LineBreakRuns(s) == [s[i..j]] + LineBreakRuns(s[j..])
  {
  }

  lemma InterleaveCons(piece: string, run: string, pieces: seq<string>, runs: seq<string>)
    requires |pieces| == |runs| + 1
    ensures Interleave([piece] + pieces, [run] + runs) == piece + run + Interleave(pieces, runs)
  {
    assert ([piece] + pieces)[1..] == pieces && ([run] + runs)[1..] == runs;
  }

  /** Splitting and the runs interleave back to `s`, with one piece more than runs. */
  lemma {:induction false} SplitLinesInterleave(s: string)
    decreases |s|
    ensures |SplitLines(s)| == |LineBreakRuns(s)| + 1
    ensures Interleave(SplitLines(s), LineBreakRuns(s)) == s
  {
    var i := NextBreak(s, 0);
    if i < |s| {
      var j := BreakRunEnd(s, i);
      var rest := s[j..];
      SplitLinesInterleave(rest);
      SplitLinesCut(s, i, j);
      LineBreakRunsCut(s, i, j);
      SeqLemmas.SliceJoin(s, i, j);
      InterleaveCons(s[..i], s[i..j], SplitLines(rest), LineBreakRuns(rest));
    }
  }

  /** No piece holds a line break, and each run is a non-empty run of them. */
  lemma {:induction false} SplitLinesRuns(s: string)
    decreases |s|
    ensures forall p :: p in SplitLines(s) ==> forall c :: c in p ==> !IsLineBreak(c)
    ensures forall r :: r in LineBreakRuns(s) ==> r != [] && forall c :: c in r ==> IsLineBreak(c)
  {
    var i := NextBreak(s, 0);
    if i < |s| {
      var j := BreakRunEnd(s, i);
      SplitLinesRuns(s[j..]);
      assert SplitLines(s) == [s[..i]] + SplitLines(s[j..]);
      assert LineBreakRuns(s) == [s[i..j]] + LineBreakRuns(s[j..]);
    }
  }

  /** Runs are maximal: only the first and the last piece can be empty. */
  lemma {:induction false} SplitLinesInnerPieces(s: string)
    decreases |s|
    ensures forall k :: 0 < k < |SplitLines(s)| - 1 ==> SplitLines(s)[k] != []
  {
    var i := NextBreak(s, 0);
    if i < |s| {
      var j := BreakRunEnd(s, i);
      var rest := s[j..];
      SplitLinesInnerPieces(rest);
      var pieces := SplitLines(s);
      assert pieces == [s[..i]] + SplitLines(rest);
      if |SplitLines(rest)| > 1 {
        assert NextBreak(rest, 0) > 0 by {
          assert rest[0] == s[j];
        }
        assert SplitLines(rest)[0] != [];
      }
      assert forall k :: 1 < k < |pieces| - 1 ==> pieces[k] == SplitLines(rest)[k - 1];
    }
  }

  /**
   * Splitting cuts `s` at its maximal runs of line breaks: the pieces interleaved with those
   * runs give `s` back, there is one piece more than runs, no piece holds a line break, each
   * run is a non-empty run of them, and only the first and the last piece can be empty.
   */
  lemma SplitLinesPieces(s: string)
    ensures |SplitLines(s)| == |LineBreakRuns(s)| + 1
    ensures Interleave(SplitLines(s), LineBreakRuns(s)) == s
    ensures forall p :: p in SplitLines(s) ==> forall c :: c in p ==> !IsLineBreak(c)
    ensures forall r :: r in LineBreakRuns(s) ==> r != [] && forall c :: c in r ==> IsLineBreak(c)
    ensures forall k :: 0 < k < |SplitLines(s)| - 1 ==> SplitLines(s)[k] != []
  {
    SplitLinesInterleave(s);
    SplitLinesRuns(s);
    SplitLinesInnerPieces(s);
  }
}
