/**
 * The fragment of Python's `re` that the query classifier uses: patterns made of
 * literal text, `\d+` and `.*` (which, without `re.DOTALL`, never crosses a newline),
 * searched for anywhere in a string as `re.search` does. The classifier matches
 * case-insensitively; this module matches exactly and the caller lowers both sides.
 */
module Patterns {
  import opened PyStr

  /** One element of a pattern: literal text, `\d+`, or `.*`. */
  datatype Piece = Lit(text: string) | Digits | AnyRun

  type Pattern = seq<Piece>

  /**
   * `p` matches some prefix of `s[i..]`. A regular-expression engine that backtracks
   * finds a match exactly when one exists, so this is an existence predicate: each
   * repetition may end at any position it can reach.
   */
  predicate MatchAt(p: Pattern, s: string, i: nat)
    requires i <= |s|
    decreases |p|, 2, 0
  {
    if p == [] then true
    else match p[0]
      case Lit(t) => StartsAt(s, t, i) && MatchAt(p[1..], s, i + |t|)
      case Digits => i < |s| && IsDigit(s[i]) && DigitsThen(p[1..], s, i + 1)
      case AnyRun => AnyThen(p[1..], s, i)
  }

  /** At least one digit has been read up to `j`; the run either stops here or takes one more digit. */
  predicate DigitsThen(rest: Pattern, s: string, j: nat)
    requires j <= |s|
    decreases |rest| + 1, 1, |s| - j
  {
    MatchAt(rest, s, j) || (j < |s| && IsDigit(s[j]) && DigitsThen(rest, s, j + 1))
  }

  /** `.*` has been read up to `j`; it either stops here or takes one more character that is not a newline. */
  predicate AnyThen(rest: Pattern, s: string, j: nat)
    requires j <= |s|
    decreases |rest| + 1, 1, |s| - j
  {
    MatchAt(rest, s, j) || (j < |s| && s[j] != '\n' && AnyThen(rest, s, j + 1))
  }

  /** A match starts at `i` or later. */
  predicate SearchFrom(p: Pattern, s: string, i: nat)
    requires i <= |s|
    decreases |s| - i
  {
    MatchAt(p, s, i) || (i < |s| && SearchFrom(p, s, i + 1))
  }

  /** `re.search(p, s)` finds something. */
  predicate Search(p: Pattern, s: string)
  {
    SearchFrom(p, s, 0)
  }

  /** A match starting at `j` is found by a search from any `i <= j`. */
  lemma {:induction false} FoundFrom(p: Pattern, s: string, i: nat, j: nat)
    requires i <= j <= |s| && MatchAt(p, s, j)
    ensures SearchFrom(p, s, i)
    decreases j - i
  {
    if i < j {
      FoundFrom(p, s, i + 1, j);
    }
  }

  /** A search from `i` succeeds only because a match starts at some position from `i` on. */
  lemma {:induction false} SearchFromWitness(p: Pattern, s: string, i: nat) returns (j: nat)
    requires i <= |s| && SearchFrom(p, s, i)
    ensures i <= j <= |s| && MatchAt(p, s, j)
    decreases |s| - i
  {
    if MatchAt(p, s, i) {
      j := i;
    } else {
      j := SearchFromWitness(p, s, i + 1);
    }
  }

  /** Searching from `i` succeeds exactly when a match starts at some position from `i` on. */
  lemma SearchFromSpec(p: Pattern, s: string, i: nat)
    requires i <= |s|
    ensures SearchFrom(p, s, i) <==> exists j: nat :: i <= j <= |s| && MatchAt(p, s, j)
  {
    if SearchFrom(p, s, i) {
      var j := SearchFromWitness(p, s, i);
      assert i <= j <= |s| && MatchAt(p, s, j);
      assert exists k: nat :: i <= k <= |s| && MatchAt(p, s, k);
    }
    forall j: nat | i <= j <= |s| && MatchAt(p, s, j)
      ensures SearchFrom(p, s, i)
    {
      FoundFrom(p, s, i, j);
    }
  }

  /** A match anywhere is found by the search: `re.search` is not anchored. */
  lemma FoundAnywhere(p: Pattern, s: string, j: nat)
    requires j <= |s| && MatchAt(p, s, j)
    ensures Search(p, s)
  {
    FoundFrom(p, s, 0, j);
  }

  /** A pattern that is one literal is found exactly when the text contains it. */
  lemma LiteralSearch(t: string, s: string)
    ensures Search([Lit(t)], s) <==> Contains(s, t)
  {
    assert [Lit(t)][1..] == [];
    if Search([Lit(t)], s) {
      var j := SearchFromWitness([Lit(t)], s, 0);
      assert j <= |s| && StartsAt(s, t, j);
    }
    if Contains(s, t) {
      var i: nat :| i <= |s| && StartsAt(s, t, i);
      FoundFrom([Lit(t)], s, 0, i);
    }
  }
}
