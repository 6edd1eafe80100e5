/** `extractAllGenres` of data.js: the genre vocabulary, every genre of the
  * catalogue once, in the order of the default `Array.prototype.sort`. */
module GenreVocabulary {
  import opened JsBuiltins
  import opened MovieData

  /** Every element strictly before the next: sorted and free of duplicates. */
  predicate StrictlySorted(s: seq<string>) {
    forall i, j :: 0 <= i < j < |s| ==> StrLess(s[i], s[j])
  }

  /** Places `x` before the first element it is below. */
  function InsertString(x: string, sorted: seq<string>): (r: seq<string>)
    requires StrictlySorted(sorted) && x !in sorted
    ensures StrictlySorted(r)
    ensures multiset(r) == multiset(sorted) + multiset{x}
  {
    if sorted == [] || StrLess(x, sorted[0]) then
      assert forall j :: 0 <= j < |sorted| ==> StrLess(x, sorted[j]) by {
        forall j | 0 <= j < |sorted| ensures StrLess(x, sorted[j]) {
          if j > 0 { StrLessTransitive(x, sorted[0], sorted[j]); }
        }
      }
      SortedCons(x, sorted);
      [x] + sorted
    else
      StrLessTotal(x, sorted[0]);
      var first, tail := sorted[0], sorted[1..];
      assert sorted == [first] + tail;
      var rest := InsertString(x, tail);
      assert forall j :: 0 <= j < |rest| ==> StrLess(first, rest[j]) by {
        forall j | 0 <= j < |rest| ensures StrLess(first, rest[j]) {
          assert rest[j] in multiset(tail) + multiset{x};
          if rest[j] != x {
            var i :| 0 <= i < |tail| && tail[i] == rest[j];
            assert sorted[i + 1] == rest[j];
          }
        }
      }
      SortedCons(first, rest);
      [first] + rest
  }

  /** A head below every element of a strictly sorted tail keeps it strictly sorted. */
  lemma SortedCons(head: string, tail: seq<string>)
    requires StrictlySorted(tail)
    requires forall j :: 0 <= j < |tail| ==> StrLess(head, tail[j])
    ensures StrictlySorted([head] + tail)
  {
    var s := [head] + tail;
    forall i, j | 0 <= i < j < |s| ensures StrLess(s[i], s[j]) {
      assert s[j] == tail[j - 1];
      if i > 0 {
        assert s[i] == tail[i - 1];
      }
    }
  }

  /** `Array.prototype.sort()` on distinct strings. */
  function SortStrings(s: seq<string>): (r: seq<string>)
    requires Distinct(s)
    ensures StrictlySorted(r)
    ensures multiset(r) == multiset(s)
  {
    if s == [] then []
    else
      var rest := SortStrings(s[1..]);
      assert s == [s[0]] + s[1..];
      assert s[0] !in multiset(rest);
      InsertString(s[0], rest)
  }

  /** The head of a strictly sorted list is below every other element. */
  lemma HeadIsLeast(a: seq<string>, x: string)
    requires StrictlySorted(a) && x in a
    ensures x == a[0] || StrLess(a[0], x)
  {
  }

  lemma StrLessAsymmetric(x: string, y: string)
    ensures !(StrLess(x, y) && StrLess(y, x))
  {
    if StrLess(x, y) && StrLess(y, x) {
      StrLessTransitive(x, y, x);
      StrLessIrreflexive(x);
    }
  }

  /** Two strictly sorted lists with the same elements are the same list: the
    * vocabulary depends only on which genres occur, not on where or how often. */
  lemma {:induction false} StrictlySortedUnique(a: seq<string>, b: seq<string>)
    requires StrictlySorted(a) && StrictlySorted(b)
    requires forall x :: x in a <==> x in b
    ensures a == b
  {
    if a != [] {
      assert a[0] in b;
    }
    if b != [] {
      assert b[0] in a;
    }
    if a != [] && b != [] {
      HeadIsLeast(a, b[0]);
      HeadIsLeast(b, a[0]);
      StrLessAsymmetric(a[0], b[0]);
      assert a[0] == b[0];
      forall x ensures x in a[1..] <==> x in b[1..] {
        StrLessIrreflexive(x);
        if x in a[1..] {
          var i :| 1 <= i < |a| && a[i] == x;
          assert x != a[0];
          assert x in b;
        }
        if x in b[1..] {
          var i :| 1 <= i < |b| && b[i] == x;
          assert x != b[0];
          assert x in a;
        }
      }
      StrictlySortedUnique(a[1..], b[1..]);
      assert a == [a[0]] + a[1..] && b == [b[0]] + b[1..];
    }
  }

  /** Whether some movie of the catalogue has the genre. */
  predicate OccursIn(g: string, movies: seq<Movie>) {
    exists i :: 0 <= i < |movies| && g in movies[i].genres
  }

  /** Builds the vocabulary: every genre of some movie, once, sorted. The
    * insertion-ordered `Set` of the source is a duplicate-free sequence here. */
  method ExtractAllGenres(movies: seq<Movie>) returns (allGenres: seq<string>)
    ensures StrictlySorted(allGenres)
    ensures forall g :: g in allGenres <==> OccursIn(g, movies)
  {
    var genreSet: seq<string> := [];
    var k := 0;
    while k < |movies|
      invariant 0 <= k <= |movies|
      invariant Distinct(genreSet)
      invariant forall g :: g in genreSet <==> OccursIn(g, movies[..k])
    {
      var genres := movies[k].genres;
      var j := 0;
      while j < |genres|
        invariant 0 <= j <= |genres|
        invariant Distinct(genreSet)
        invariant forall g :: g in genreSet <==> OccursIn(g, movies[..k]) || g in genres[..j]
      {
        if genres[j] !in genreSet {
          genreSet := genreSet + [genres[j]];
        }
        assert genres[..j + 1] == genres[..j] + [genres[j]];
        j := j + 1;
      }
      assert genres[..j] == genres;
      forall g ensures OccursIn(g, movies[..k + 1]) <==> OccursIn(g, movies[..k]) || g in genres {
        if OccursIn(g, movies[..k + 1]) {
          var i :| 0 <= i < k + 1 && g in movies[..k + 1][i].genres;
          if i < k { assert movies[..k][i] == movies[..k + 1][i]; }
        }
        if OccursIn(g, movies[..k]) {
          var i :| 0 <= i < k && g in movies[..k][i].genres;
          assert movies[..k + 1][i] == movies[..k][i];
        }
        if g in genres {
          assert movies[..k + 1][k] == movies[k];
        }
      }
      k := k + 1;
    }
    assert movies[..k] == movies;
    allGenres := SortStrings(genreSet);
    forall g ensures g in allGenres <==> g in genreSet {
      assert g in allGenres <==> g in multiset(allGenres);
    }
  }
}
