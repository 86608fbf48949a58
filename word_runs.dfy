/**
 * Words as maximal runs of non-blank units. Two notions of "blank" occur in
 * the counting engine: `Character.isWhitespace` in the fused scan and the
 * regular-expression class `\s` in the line-by-line word count.
 */
module WordRuns {
  import opened Units

  datatype Blank = JavaWhitespace | RegexSpace

  predicate IsBlank(k: Blank, c: Unit) {
    match k
    case JavaWhitespace => IsWhitespace(c)
    case RegexSpace => IsRegexSpace(c)
  }

  /** Position `i` holds a non-blank unit that is first in the sequence or follows a blank one. */
  predicate StartsRun(k: Blank, s: seq<Unit>, i: int)
    requires 0 <= i < |s|
  {
    !IsBlank(k, s[i]) && (i == 0 || IsBlank(k, s[i - 1]))
  }

  /** The number of positions of `s` that start a run, counted from the left. */
  function RunCount(k: Blank, s: seq<Unit>): nat
  {
    if s == [] then 0
    else RunCount(k, s[..|s| - 1]) + (if StartsRun(k, s, |s| - 1) then 1 else 0)
  }

  /** The last unit of `a` and the first unit of `b` belong to one run of `a + b`. */
  predicate Joins(k: Blank, a: seq<Unit>, b: seq<Unit>) {
    a != [] && b != [] && !IsBlank(k, a[|a| - 1]) && !IsBlank(k, b[0])
  }

  /** Runs of a concatenation: those of the halves, less one when a run straddles the seam. */
  lemma {:induction false} RunCountAppend(k: Blank, a: seq<Unit>, b: seq<Unit>)
    ensures RunCount(k, a + b) == RunCount(k, a) + RunCount(k, b) - (if Joins(k, a, b) then 1 else 0)
  {
    if b == [] {
      assert a + b == a;
    } else {
      var b' := b[..|b| - 1];
      var c := b[|b| - 1];
      assert (a + b)[..|a + b| - 1] == a + b';
      if b' == [] {
        assert RunCount(k, b) == if IsBlank(k, c) then 0 else 1;
      } else {
        RunCountAppend(k, a, b');
        assert b'[0] == b[0];
        assert (a + b)[|a + b| - 2] == b[|b| - 2];
      }
    }
  }

  /** A non-empty stretch with no blank unit is one run. */
  lemma {:induction false} RunCountOfWord(k: Blank, s: seq<Unit>)
    requires s != []
    requires forall i :: 0 <= i < |s| ==> !IsBlank(k, s[i])
    ensures RunCount(k, s) == 1
  {
    if |s| > 1 {
      RunCountOfWord(k, s[..|s| - 1]);
    } else {
      assert s[..|s| - 1] == [];
    }
  }

  /** A stretch of blank units holds no run. */
  lemma {:induction false} RunCountOfBlanks(k: Blank, s: seq<Unit>)
    requires forall i :: 0 <= i < |s| ==> IsBlank(k, s[i])
    ensures RunCount(k, s) == 0
  {
    if s != [] {
      RunCountOfBlanks(k, s[..|s| - 1]);
    }
  }

  /** Blank padding on either side adds no run and joins none. */
  lemma RunCountPadded(k: Blank, lead: seq<Unit>, m: seq<Unit>, trail: seq<Unit>)
    requires forall i :: 0 <= i < |lead| ==> IsBlank(k, lead[i])
    requires forall i :: 0 <= i < |trail| ==> IsBlank(k, trail[i])
    ensures RunCount(k, lead + m + trail) == RunCount(k, m)
  {
    RunCountOfBlanks(k, lead);
    RunCountOfBlanks(k, trail);
    RunCountAppend(k, lead, m);
    RunCountAppend(k, lead + m, trail);
    if m == [] && lead != [] {
      assert (lead + m)[|lead + m| - 1] == lead[|lead| - 1];
    }
  }

  /** A blank separator between two stretches means their runs simply add up. */
  lemma RunCountSeparated(k: Blank, a: seq<Unit>, sep: seq<Unit>, b: seq<Unit>)
    requires forall i :: 0 <= i < |sep| ==> IsBlank(k, sep[i])
    requires sep == [] ==> b == []
    ensures RunCount(k, a + sep + b) == RunCount(k, a) + RunCount(k, b)
  {
    RunCountOfBlanks(k, sep);
    RunCountAppend(k, a, sep);
    RunCountAppend(k, a + sep, b);
    if sep != [] {
      assert (a + sep)[|a + sep| - 1] == sep[|sep| - 1];
    } else {
      assert a + sep + b == a;
    }
  }

  /** Every unit of `s` that is not blank is covered by at least one run. */
  lemma {:induction false} RunCountPositive(k: Blank, s: seq<Unit>, i: int)
    requires 0 <= i < |s| && !IsBlank(k, s[i])
    ensures RunCount(k, s) >= 1
  {
    if i == |s| - 1 {
      if !StartsRun(k, s, i) {
        RunCountPositive(k, s[..|s| - 1], i - 1);
      }
    } else {
      RunCountPositive(k, s[..|s| - 1], i);
    }
  }
}
