/** The three functions of Go's `strings` package that the Bitbucket client
    relies on: `Index`, `Replace` with a count of one, and `Trim`.
    Go strings are byte strings; the client only ever searches for, replaces
    and trims ASCII text, so they are modelled here as Dafny strings. */
module GoStrings {

  /** `pat` occurs in `s` starting at index `i`. */
  predicate OccursAt(s: string, pat: string, i: int)
  {
    0 <= i && i + |pat| <= |s| && s[i..i + |pat|] == pat
  }

  /** `i` is the leftmost occurrence of `pat` in `s`. */
  predicate FirstOccurrence(s: string, pat: string, i: int)
  {
    OccursAt(s, pat, i) && forall k :: 0 <= k < i ==> !OccursAt(s, pat, k)
  }

  predicate Contains(s: string, pat: string)
  {
    exists i :: 0 <= i <= |s| && OccursAt(s, pat, i)
  }

  /** Occurrences in the tail of `s` are the occurrences in `s` shifted by one. */
  lemma OccursInTail(s: string, pat: string)
    requires s != []
    ensures forall i :: 1 <= i ==> (OccursAt(s, pat, i) <==> OccursAt(s[1..], pat, i - 1))
  {
    forall i | 1 <= i
      ensures OccursAt(s, pat, i) <==> OccursAt(s[1..], pat, i - 1)
    {
      if i + |pat| <= |s| {
        assert s[1..][i - 1..i - 1 + |pat|] == s[i..i + |pat|];
      }
    }
  }

  /** strings.Index: the index of the first occurrence of `pat` in `s`, or -1
      when there is none. The empty pattern occurs at 0. */
  function Index(s: string, pat: string): (r: int)
    ensures -1 <= r && (r != -1 ==> r + |pat| <= |s|)
    decreases |s|
  {
    if |s| < |pat| then -1
    else if s[..|pat|] == pat then 0
    else
      var k := Index(s[1..], pat);
      if k == -1 then -1 else k + 1
  }

  /** Index finds the leftmost occurrence, and reports -1 exactly when there is none. */
  lemma {:induction false} IndexFindsFirst(s: string, pat: string)
    ensures var r := Index(s, pat);
      && (r == -1 || FirstOccurrence(s, pat, r))
      && (r == -1 <==> !Contains(s, pat))
    decreases |s|
  {
    if |s| < |pat| {
    } else if s[..|pat|] == pat {
      assert OccursAt(s, pat, 0);
    } else {
      OccursInTail(s, pat);
      IndexFindsFirst(s[1..], pat);
      var k := Index(s[1..], pat);
      if k == -1 {
        forall i ensures !OccursAt(s, pat, i) {
          if 1 <= i { assert !OccursAt(s[1..], pat, i - 1); }
        }
      } else {
        assert OccursAt(s[1..], pat, k);
      }
    }
  }

  /** strings.Replace(s, pat, repl, 1). Go returns `s` itself when `pat == repl`
      or when `pat` does not occur, and otherwise replaces the first match. */
  function Replace1(s: string, pat: string, repl: string): string
  {
    if pat == repl then s
    else
      var j := Index(s, pat);
      if j == -1 then s else s[..j] + repl + s[j + |pat|..]
  }

  /** There is at most one leftmost occurrence. */
  lemma FirstOccurrenceUnique(s: string, pat: string, i: int, j: int)
    requires FirstOccurrence(s, pat, i) && FirstOccurrence(s, pat, j)
    ensures i == j
  {
  }

  /** With a first occurrence at `j`, the result is `s` with `repl` in place of
      `s[j..j + |pat|]`, also when `pat == repl` and Go hands back `s` itself. */
  lemma Replace1AtFirst(s: string, pat: string, repl: string, j: int)
    requires FirstOccurrence(s, pat, j)
    ensures Replace1(s, pat, repl) == s[..j] + repl + s[j + |pat|..]
  {
    IndexFindsFirst(s, pat);
    FirstOccurrenceUnique(s, pat, j, Index(s, pat));
    if pat == repl {
      assert s == s[..j] + s[j..j + |pat|] + s[j + |pat|..];
    }
  }

  /** Replace1 substitutes `repl` for the first occurrence of `pat` and for
      nothing else; without an occurrence it returns `s`; the empty pattern
      matches at the very start, so `repl` is prepended. */
  lemma Replace1ReplacesFirst(s: string, pat: string, repl: string)
    ensures var r := Replace1(s, pat, repl);
      && (!Contains(s, pat) ==> r == s)
      && (forall j :: FirstOccurrence(s, pat, j) ==> r == s[..j] + repl + s[j + |pat|..])
      && (pat == [] ==> r == repl + s)
      && (Contains(s, pat) ==> |r| == |s| - |pat| + |repl|)
  {
    IndexFindsFirst(s, pat);
    forall j | FirstOccurrence(s, pat, j)
      ensures Replace1(s, pat, repl) == s[..j] + repl + s[j + |pat|..]
    {
      Replace1AtFirst(s, pat, repl, j);
    }
    if pat == [] {
      assert FirstOccurrence(s, pat, 0);
    }
    if Contains(s, pat) {
      assert FirstOccurrence(s, pat, Index(s, pat));
    }
  }

  lemma SliceOfSuffix<T>(s: seq<T>, k: int, d: int, n: int)
    requires 0 <= k && 0 <= d && 0 <= n && k + d + n <= |s|
    ensures s[k..][d..d + n] == s[k + d..k + d + n]
  {
  }

  lemma SliceOfConcat<T>(a: seq<T>, b: seq<T>, d: int, n: int)
    requires 0 <= d && 0 <= n && d + n <= |b|
    ensures (a + b)[|a| + d..|a| + d + n] == b[d..d + n]
  {
  }

  /** The first occurrence is the only one that is replaced: every later,
      non-overlapping occurrence of `pat` survives in the result, shifted by
      the difference in length between `repl` and `pat`. */
  lemma Replace1KeepsLaterOccurrences(s: string, pat: string, repl: string, j: int, i: int)
    requires FirstOccurrence(s, pat, j)
    requires OccursAt(s, pat, i) && j + |pat| <= i
    ensures OccursAt(Replace1(s, pat, repl), pat, i - |pat| + |repl|)
  {
    Replace1AtFirst(s, pat, repl, j);
    var front, back := s[..j] + repl, s[j + |pat|..];
    assert Replace1(s, pat, repl) == front + back;
    var d := i - j - |pat|;
    SliceOfSuffix(s, j + |pat|, d, |pat|);
    SliceOfConcat(front, back, d, |pat|);
  }

  /** Replacement leaves the text before the first occurrence unchanged and
      puts `repl` right after it. */
  lemma Replace1InsertsAtFirst(s: string, pat: string, repl: string, j: int)
    requires FirstOccurrence(s, pat, j)
    ensures OccursAt(Replace1(s, pat, repl), repl, j)
    ensures Replace1(s, pat, repl)[..j] == s[..j]
  {
    Replace1AtFirst(s, pat, repl, j);
    var r := Replace1(s, pat, repl);
    assert r[j..j + |repl|] == repl;
  }

  /** The number of leading characters of `s` that are in `cutset`. */
  function LeadingCut(s: string, cutset: string): (n: nat)
    ensures n <= |s|
    ensures forall k :: 0 <= k < n ==> s[k] in cutset
    ensures n == |s| || s[n] !in cutset
  {
    if s == [] || s[0] !in cutset then 0 else 1 + LeadingCut(s[1..], cutset)
  }

  /** The number of trailing characters of `s` that are in `cutset`. */
  function TrailingCut(s: string, cutset: string): (n: nat)
    ensures n <= |s|
    ensures forall k :: |s| - n <= k < |s| ==> s[k] in cutset
    ensures n == |s| || s[|s| - 1 - n] !in cutset
  {
    if s == [] || s[|s| - 1] !in cutset then 0 else 1 + TrailingCut(s[..|s| - 1], cutset)
  }

  /** strings.TrimLeft: drop the longest prefix made of `cutset` characters. */
  function TrimLeft(s: string, cutset: string): string
  {
    s[LeadingCut(s, cutset)..]
  }

  /** strings.TrimRight: drop the longest suffix made of `cutset` characters. */
  function TrimRight(s: string, cutset: string): string
  {
    s[..|s| - TrailingCut(s, cutset)]
  }

  /** `r` is what is left of `s` once the cut-set characters at both ends are
      removed, `i` being where `r` starts in `s`. */
  predicate TrimmedAt(s: string, cutset: string, i: int, r: string)
  {
    && 0 <= i && i + |r| <= |s| && r == s[i..i + |r|]
    && (forall k :: 0 <= k < i ==> s[k] in cutset)
    && (forall k :: i + |r| <= k < |s| ==> s[k] in cutset)
    && (r == [] || (r[0] !in cutset && r[|r| - 1] !in cutset))
  }

  /** strings.Trim: drop every leading and trailing character in `cutset`. */
  function Trim(s: string, cutset: string): (r: string)
    ensures TrimmedAt(s, cutset, LeadingCut(s, cutset), r)
  {
    if s == [] || cutset == [] then
      s
    else
      var l := TrimLeft(s, cutset);
      var i, t := LeadingCut(s, cutset), TrailingCut(l, cutset);
      assert forall k :: i + |l| - t <= k < |s| ==> s[k] == l[k - i];
      TrimRight(l, cutset)
  }

  /** Trimming is determined by its input: only one string is a trim of `s`. */
  lemma TrimmedAtUnique(s: string, cutset: string, i1: int, r1: string, i2: int, r2: string)
    requires TrimmedAt(s, cutset, i1, r1) && TrimmedAt(s, cutset, i2, r2)
    ensures r1 == r2
  {
  }

  /** Trimming twice is the same as trimming once. */
  lemma TrimIdempotent(s: string, cutset: string)
    ensures Trim(Trim(s, cutset), cutset) == Trim(s, cutset)
  {
    var r := Trim(s, cutset);
    var rr := Trim(r, cutset);
    var k := LeadingCut(r, cutset);
    // `r` is its own trim, starting at 0: nothing at either end is in the cut set.
    assert r[..0] == [] && r[|r|..] == [];
    assert TrimmedAt(r, cutset, 0, r);
    TrimmedAtUnique(r, cutset, k, rr, 0, r);
  }
}
