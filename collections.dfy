/** Generic list operations the service is built from: the JavaScript array
    methods `filter`, `find` and `findIndex`, together with the optional value
    they return and the notion of "a subsequence, in original order". */
module Collections {

  /** An optional value: `undefined`/`null` in the service becomes `None`. */
  datatype Option<+T> = None | Some(value: T) {
    /** The value if present, otherwise `default` (the shape of a spread that
        may or may not supply a key). */
    function GetOr(default: T): T {
      match this
      case Some(v) => v
      case None => default
    }
  }

  /** `r` is obtained from `s` by deleting zero or more entries, keeping the
      order of the rest. */
  ghost predicate Subsequence<T>(r: seq<T>, s: seq<T>)
    decreases |s|
  {
    if r == [] then true
    else if s == [] then false
    else (r[0] == s[0] && Subsequence(r[1..], s[1..])) || Subsequence(r, s[1..])
  }

  lemma {:induction false} SubsequenceReflexive<T>(s: seq<T>)
    ensures Subsequence(s, s)
    decreases |s|
  {
    if s != [] {
      SubsequenceReflexive(s[1..]);
    }
  }

  lemma {:induction false} SubsequenceTransitive<T>(a: seq<T>, b: seq<T>, c: seq<T>)
    requires Subsequence(a, b) && Subsequence(b, c)
    ensures Subsequence(a, c)
    decreases |c|
  {
    if a != [] {
      if Subsequence(b, c[1..]) {
        SubsequenceTransitive(a, b, c[1..]);
      } else if a[0] == b[0] && Subsequence(a[1..], b[1..]) {
        SubsequenceTransitive(a[1..], b[1..], c[1..]);
      } else {
        SubsequenceTransitive(a, b[1..], c[1..]);
      }
    }
  }

  /** `Array.prototype.filter`: the entries of `s` that satisfy `keep`, in
      their original order, each as often as it occurs in `s`. */
  function Filter<T(==,!new)>(keep: T -> bool, s: seq<T>): (r: seq<T>)
    ensures Subsequence(r, s)
    ensures forall x :: x in r <==> x in s && keep(x)
    ensures forall x :: multiset(r)[x] == if keep(x) then multiset(s)[x] else 0
    ensures (forall x :: x in s ==> keep(x)) ==> r == s
    decreases |s|
  {
    if s == [] then []
    else
      assert s == [s[0]] + s[1..];
      var rest := Filter(keep, s[1..]);
      if keep(s[0]) then [s[0]] + rest else rest
  }

  /** `if (given) s = s.filter(keep)`: a filter step that is skipped when its
      filter is not given. */
  function FilterIf<T(==,!new)>(given: bool, keep: T -> bool, s: seq<T>): (r: seq<T>)
    ensures Subsequence(r, s)
    ensures forall x :: x in r <==> x in s && (given ==> keep(x))
    ensures forall x :: multiset(r)[x] == if !given || keep(x) then multiset(s)[x] else 0
    ensures !given ==> r == s
  {
    if given then Filter(keep, s) else SubsequenceReflexive(s); s
  }

  /** `Array.prototype.findIndex`, with -1 as `None`: the position of the
      first entry that satisfies `test`. */
  function FindIndex<T>(test: T -> bool, s: seq<T>): (r: Option<nat>)
    ensures r.Some? ==> r.value < |s| && test(s[r.value])
    ensures r.Some? ==> forall j :: 0 <= j < r.value ==> !test(s[j])
    ensures r.None? ==> forall j :: 0 <= j < |s| ==> !test(s[j])
    decreases |s|
  {
    if s == [] then None
    else if test(s[0]) then Some(0)
    else
      match FindIndex(test, s[1..])
      case None => None
      case Some(i) => Some(i + 1)
  }

  /** `Array.prototype.find`: the first entry that satisfies `test`. */
  function Find<T>(test: T -> bool, s: seq<T>): (r: Option<T>)
    ensures r.Some? <==> exists j :: 0 <= j < |s| && test(s[j])
    ensures r.Some? ==> test(r.value) && r.value in s
    ensures r.Some? ==> exists i :: 0 <= i < |s| && s[i] == r.value && forall j :: 0 <= j < i ==> !test(s[j])
  {
    match FindIndex(test, s)
    case None => None
    case Some(i) => Some(s[i])
  }

  /** No two entries of `s` share a key. */
  ghost predicate DistinctBy<T, K>(key: T -> K, s: seq<T>) {
    forall i, j :: 0 <= i < j < |s| ==> key(s[i]) != key(s[j])
  }

  /** A list with a first entry has distinct keys exactly when its rest
      does and no entry of the rest shares the first entry's key. */
  lemma DistinctCons<T, K>(key: T -> K, x: T, s: seq<T>)
    ensures DistinctBy(key, [x] + s) <==> (forall y :: y in s ==> key(y) != key(x)) && DistinctBy(key, s)
  {
    var r := [x] + s;
    if DistinctBy(key, r) {
      forall y | y in s ensures key(y) != key(x) {
        var k :| 0 <= k < |s| && s[k] == y;
        assert r[0] == x && r[k + 1] == y;
      }
      forall i, j | 0 <= i < j < |s| ensures key(s[i]) != key(s[j]) {
        assert r[i + 1] == s[i] && r[j + 1] == s[j];
      }
    }
    if (forall y :: y in s ==> key(y) != key(x)) && DistinctBy(key, s) {
      forall i, j | 0 <= i < j < |r| ensures key(r[i]) != key(r[j]) {
        assert r[j] == s[j - 1];
        if i > 0 {
          assert r[i] == s[i - 1];
        }
      }
    }
  }

  /** Filtering never introduces a duplicate key. */
  lemma {:induction false} FilterKeepsDistinct<T(!new), K>(keep: T -> bool, key: T -> K, s: seq<T>)
    requires DistinctBy(key, s)
    ensures DistinctBy(key, Filter(keep, s))
    decreases |s|
  {
    if s != [] {
      assert s == [s[0]] + s[1..];
      DistinctCons(key, s[0], s[1..]);
      FilterKeepsDistinct(keep, key, s[1..]);
      if keep(s[0]) {
        DistinctCons(key, s[0], Filter(keep, s[1..]));
      }
    }
  }

  /** Filtering out the single entry that fails `keep` shortens the list by
      exactly one. */
  lemma {:induction false} FilterDropsOne<T(!new)>(keep: T -> bool, s: seq<T>, i: nat)
    requires i < |s| && !keep(s[i])
    requires forall j :: 0 <= j < |s| && j != i ==> keep(s[j])
    ensures |Filter(keep, s)| == |s| - 1
    decreases |s|
  {
    if i == 0 {
      assert forall x :: x in s[1..] ==> keep(x);
    } else {
      FilterDropsOne(keep, s[1..], i - 1);
    }
  }

  /** Filtering a list whose only passing entry is the last one gives exactly
      that entry. */
  lemma {:induction false} FilterOnlyLast<T(!new)>(keep: T -> bool, s: seq<T>)
    requires |s| > 0 && keep(s[|s| - 1])
    requires forall j :: 0 <= j < |s| - 1 ==> !keep(s[j])
    ensures Filter(keep, s) == [s[|s| - 1]]
    decreases |s|
  {
    if |s| > 1 {
      FilterOnlyLast(keep, s[1..]);
    }
  }

  /** Filtering a list none of whose entries passes gives the empty list. */
  lemma {:induction false} FilterNone<T(!new)>(keep: T -> bool, s: seq<T>)
    requires forall x :: x in s ==> !keep(x)
    ensures Filter(keep, s) == []
  {
    if Filter(keep, s) != [] {
      assert Filter(keep, s)[0] in Filter(keep, s);
    }
  }

  /** Filtering passing entries followed by failing ones gives the passing
      ones. */
  lemma {:induction false} FilterKeepsPrefix<T(!new)>(keep: T -> bool, a: seq<T>, b: seq<T>)
    requires forall x :: x in a ==> keep(x)
    requires forall x :: x in b ==> !keep(x)
    ensures Filter(keep, a + b) == a
    decreases |a|
  {
    if a == [] {
      assert a + b == b;
      FilterNone(keep, b);
    } else {
      assert (a + b)[1..] == a[1..] + b;
      FilterKeepsPrefix(keep, a[1..], b);
    }
  }
}
