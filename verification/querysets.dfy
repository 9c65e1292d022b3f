/** A queryset is a sequence of expenses. This module gives the one narrowing
    operation the core uses (`filter` with a single lookup), the notion of an
    order-preserving subsequence, and the case-insensitive substring match of
    an `icontains` lookup. */
module QuerySets {
  import opened Wrappers
  import opened Expenses

  /** The lookups the core passes to `filter`. */
  datatype Criterion =
    | TitleContains(needle: string)   // title__icontains
    | CategoryIn(categoryIds: seq<int>) // category__id__in
    | PaidIs(paid: bool)              // is_paid
    | PersonIn(personIds: seq<int>)   // person__id__in

  /** Whether one record passes one lookup. A null title or a null reference
      never matches. */
  predicate Satisfies(e: Expense, c: Criterion) {
    match c
    case TitleContains(needle) => e.title.Some? && ContainsIgnoringCase(e.title.value, needle)
    case CategoryIn(ids) => e.category.Some? && e.category.value.id in ids
    case PaidIs(paid) => e.isPaid == paid
    case PersonIn(ids) => e.person.Some? && e.person.value in ids
  }

  // ---------------------------------------------------------------------------
  // Subsequences

  /** `idx` lists, in increasing order, the positions of `b` that `a` is made of. */
  ghost predicate EmbedsBy<T>(a: seq<T>, b: seq<T>, idx: seq<nat>) {
    && |idx| == |a|
    && (forall i :: 0 <= i < |a| ==> idx[i] < |b| && a[i] == b[idx[i]])
    && (forall i, j :: 0 <= i < j < |a| ==> idx[i] < idx[j])
  }

  /** `a` is `b` with some elements dropped and the rest kept in order. */
  ghost predicate IsSubsequence<T>(a: seq<T>, b: seq<T>) {
    exists idx: seq<nat> :: EmbedsBy(a, b, idx)
  }

  lemma SubsequenceReflexive<T>(s: seq<T>)
    ensures IsSubsequence(s, s)
  {
    var idx: seq<nat> := seq(|s|, i requires 0 <= i < |s| => i);
    assert EmbedsBy(s, s, idx);
  }

  lemma SubsequenceTransitive<T>(a: seq<T>, b: seq<T>, c: seq<T>)
    requires IsSubsequence(a, b) && IsSubsequence(b, c)
    ensures IsSubsequence(a, c)
  {
    var ab: seq<nat> :| EmbedsBy(a, b, ab);
    var bc: seq<nat> :| EmbedsBy(b, c, bc);
    var ac: seq<nat> := seq(|a|, i requires 0 <= i < |a| => bc[ab[i]]);
    assert EmbedsBy(a, c, ac);
  }

  /** Appending one element to the whole sequence, and possibly to the
      subsequence too, keeps the embedding. */
  lemma SubsequenceExtend<T>(a: seq<T>, b: seq<T>, x: T, keep: bool)
    requires IsSubsequence(a, b)
    ensures IsSubsequence(a + (if keep then [x] else []), b + [x])
  {
    var idx: seq<nat> :| EmbedsBy(a, b, idx);
    if keep {
      assert EmbedsBy(a + [x], b + [x], idx + [|b|]);
    } else {
      assert a + [] == a;
      assert EmbedsBy(a, b + [x], idx);
    }
  }

  // ---------------------------------------------------------------------------
  // Narrowing

  /** One `filter` call: the records that pass `c`, in their original order. */
  function Where(q: seq<Expense>, c: Criterion): seq<Expense> {
    if q == [] then []
    else Where(q[..|q| - 1], c) + (if Satisfies(q[|q| - 1], c) then [q[|q| - 1]] else [])
  }

  /** Narrowing keeps the order of the survivors, and keeps every copy of a
      passing record and no copy of a failing one. */
  lemma {:induction false} WhereSpec(q: seq<Expense>, c: Criterion)
    ensures IsSubsequence(Where(q, c), q)
    ensures forall e :: multiset(Where(q, c))[e] == if Satisfies(e, c) then multiset(q)[e] else 0
    decreases |q|
  {
    if q == [] {
      SubsequenceReflexive(q);
    } else {
      var init := q[..|q| - 1];
      var last := q[|q| - 1];
      var keep := Satisfies(last, c);
      WhereSpec(init, c);
      assert q == init + [last];
      SubsequenceExtend(Where(init, c), init, last, keep);
      assert multiset(q) == multiset(init) + multiset{last};
    }
  }

  /** A record survives narrowing exactly when it was present and passes. */
  lemma WhereMembership(q: seq<Expense>, c: Criterion)
    ensures forall e :: e in Where(q, c) <==> e in q && Satisfies(e, c)
  {
    var r := Where(q, c);
    WhereSpec(q, c);
    assert forall e :: e in r <==> multiset(r)[e] > 0;
    assert forall e :: e in q <==> multiset(q)[e] > 0;
  }

  /** Narrowing a queryset with one more record at its end. */
  lemma WhereAppend(q: seq<Expense>, c: Criterion, x: Expense)
    ensures Where(q + [x], c) == Where(q, c) + (if Satisfies(x, c) then [x] else [])
  {
  }

  // ---------------------------------------------------------------------------
  // Case-insensitive containment (ASCII case folding)

  function Fold(ch: char): char {
    if 'A' <= ch <= 'Z' then (ch as int + ('a' as int - 'A' as int)) as char else ch
  }

  /** `needle` occurs in `hay` at offset `i`, ignoring case. */
  ghost predicate MatchesAt(hay: string, needle: string, i: int)
    requires 0 <= i && i + |needle| <= |hay|
  {
    forall j :: 0 <= j < |needle| ==> Fold(hay[i + j]) == Fold(needle[j])
  }

  /** The reference meaning of `icontains`: some offset matches. */
  ghost predicate OccursIgnoringCase(hay: string, needle: string) {
    exists i :: 0 <= i && i + |needle| <= |hay| && MatchesAt(hay, needle, i)
  }

  /** `hay` starts with `needle`, ignoring case. */
  predicate StartsWithIgnoringCase(hay: string, needle: string)
    requires |needle| <= |hay|
  {
    |needle| == 0 || (Fold(hay[0]) == Fold(needle[0]) && StartsWithIgnoringCase(hay[1..], needle[1..]))
  }

  /** The executable scan: try every offset from the left. */
  predicate ContainsIgnoringCase(hay: string, needle: string) {
    |needle| <= |hay| && (StartsWithIgnoringCase(hay, needle) || ContainsIgnoringCase(hay[1..], needle))
  }

  lemma {:induction false} StartsWithMeansMatchAtZero(hay: string, needle: string)
    requires |needle| <= |hay|
    ensures StartsWithIgnoringCase(hay, needle) <==> MatchesAt(hay, needle, 0)
    decreases |needle|
  {
    if |needle| > 0 {
      StartsWithMeansMatchAtZero(hay[1..], needle[1..]);
      if MatchesAt(hay, needle, 0) {
        forall j | 0 <= j < |needle| - 1
          ensures Fold(hay[1..][j]) == Fold(needle[1..][j])
        {
          assert Fold(hay[j + 1]) == Fold(needle[j + 1]);
        }
      }
      if StartsWithIgnoringCase(hay, needle) {
        forall j | 0 <= j < |needle|
          ensures Fold(hay[j]) == Fold(needle[j])
        {
          if j > 0 {
            assert Fold(hay[1..][j - 1]) == Fold(needle[1..][j - 1]);
          }
        }
      }
    }
  }

  /** Dropping the first character of `hay` shifts every offset by one. */
  lemma MatchesAtShift(hay: string, needle: string, i: int)
    requires |hay| > 0 && 0 <= i && i + 1 + |needle| <= |hay|
    ensures MatchesAt(hay[1..], needle, i) <==> MatchesAt(hay, needle, i + 1)
  {
  }

  /** The scan finds a match exactly when the reference says one exists. */
  lemma {:induction false} ContainsIgnoringCaseCorrect(hay: string, needle: string)
    ensures ContainsIgnoringCase(hay, needle) <==> OccursIgnoringCase(hay, needle)
    decreases |hay|
  {
    if |needle| <= |hay| {
      StartsWithMeansMatchAtZero(hay, needle);
      if |hay| > 0 {
        ContainsIgnoringCaseCorrect(hay[1..], needle);
      }
      if ContainsIgnoringCase(hay, needle) && !StartsWithIgnoringCase(hay, needle) {
        var i :| 0 <= i && i + |needle| <= |hay[1..]| && MatchesAt(hay[1..], needle, i);
        MatchesAtShift(hay, needle, i);
      }
      if OccursIgnoringCase(hay, needle) && !StartsWithIgnoringCase(hay, needle) {
        var i :| 0 <= i && i + |needle| <= |hay| && MatchesAt(hay, needle, i);
        assert i != 0;
        MatchesAtShift(hay, needle, i - 1);
      }
    }
  }

  lemma ContainsIgnoringCaseCorrectAll()
    ensures forall hay, needle :: ContainsIgnoringCase(hay, needle) <==> OccursIgnoringCase(hay, needle)
  {
    forall hay, needle
      ensures ContainsIgnoringCase(hay, needle) <==> OccursIgnoringCase(hay, needle)
    {
      ContainsIgnoringCaseCorrect(hay, needle);
    }
  }
}
