/** Filtering and sorting of links as the dashboard writes them:
    `links.filter(p)` and `.sort((a, b) => a.position - b.position)`.
    JavaScript's `Array.prototype.sort` is stable, so links with equal
    positions keep their relative order; the model sorts by insertion,
    which has exactly that behaviour. */
module Ordering {
  import opened Types

  /** `s.filter(p)`: the elements satisfying `p`, in their original order. */
  function Filter<T(!new)>(s: seq<T>, p: T -> bool): (r: seq<T>)
    ensures |r| <= |s|
  {
    if s == [] then [] else (if p(s[0]) then [s[0]] else []) + Filter(s[1..], p)
  }

  /** The filtered sequence holds exactly the elements that satisfy `p`. */
  lemma {:induction false} FilterMembers<T(!new)>(s: seq<T>, p: T -> bool, x: T)
    ensures x in Filter(s, p) <==> x in s && p(x)
    decreases |s|
  {
    if s != [] {
      FilterMembers(s[1..], p, x);
      assert s == [s[0]] + s[1..];
    }
  }

  lemma {:induction false} FilterAppend<T(!new)>(a: seq<T>, b: seq<T>, p: T -> bool)
    ensures Filter(a + b, p) == Filter(a, p) + Filter(b, p)
    decreases |a|
  {
    if a == [] {
      assert a + b == b;
    } else {
      assert a + b == [a[0]] + (a[1..] + b);
      assert a == [a[0]] + a[1..];
      FilterCons(a[0], a[1..] + b, p);
      FilterCons(a[0], a[1..], p);
      FilterAppend(a[1..], b, p);
    }
  }

  /** Filtering keeps each satisfying element as often as it occurs. */
  lemma {:induction false} FilterMultiset<T(!new)>(s: seq<T>, p: T -> bool, x: T)
    ensures multiset(Filter(s, p))[x] == if p(x) then multiset(s)[x] else 0
    decreases |s|
  {
    if s != [] {
      FilterMultiset(s[1..], p, x);
      assert s == [s[0]] + s[1..];
    }
  }

  /** Filtering sequences that are rearrangements of each other gives
      rearrangements of each other. */
  lemma FilterPreservesPermutation<T(!new)>(a: seq<T>, b: seq<T>, p: T -> bool)
    requires multiset(a) == multiset(b)
    ensures multiset(Filter(a, p)) == multiset(Filter(b, p))
  {
    forall x ensures multiset(Filter(a, p))[x] == multiset(Filter(b, p))[x] {
      FilterMultiset(a, p, x);
      FilterMultiset(b, p, x);
    }
  }

  /** `s.map(f)`. */
  function Map<A, B>(s: seq<A>, f: A -> B): (r: seq<B>)
    ensures |r| == |s|
    ensures forall i | 0 <= i < |s| :: r[i] == f(s[i])
  {
    if s == [] then [] else [f(s[0])] + Map(s[1..], f)
  }

  lemma MapAppend<A, B>(a: seq<A>, b: seq<A>, f: A -> B)
    ensures Map(a + b, f) == Map(a, f) + Map(b, f)
  {
  }

  /** The elements that `f` sends to `y`. */
  ghost function SentTo<A, B>(f: A -> B, y: B): A -> bool {
    x => f(x) == y
  }

  /** `y` occurs in the mapped sequence once for each element that `f`
      sends to `y`. */
  lemma {:induction false} MapCount<A(!new), B>(s: seq<A>, f: A -> B, y: B)
    ensures multiset(Map(s, f))[y] == |Filter(s, SentTo(f, y))|
    decreases |s|
  {
    if s != [] {
      MapCount(s[1..], f, y);
      assert Map(s, f) == [f(s[0])] + Map(s[1..], f);
    }
  }

  /** Mapping sequences that are rearrangements of each other gives
      rearrangements of each other. */
  lemma MapPermutation<A(!new), B>(a: seq<A>, b: seq<A>, f: A -> B)
    requires multiset(a) == multiset(b)
    ensures multiset(Map(a, f)) == multiset(Map(b, f))
  {
    forall y ensures multiset(Map(a, f))[y] == multiset(Map(b, f))[y] {
      MapCount(a, f, y);
      MapCount(b, f, y);
      FilterPreservesPermutation(a, b, SentTo(f, y));
      assert |multiset(Filter(a, SentTo(f, y)))| == |multiset(Filter(b, SentTo(f, y)))|;
    }
    MultisetExtensional(multiset(Map(a, f)), multiset(Map(b, f)));
  }

  lemma MultisetExtensional<T>(m: multiset<T>, n: multiset<T>)
    requires forall y :: m[y] == n[y]
    ensures m == n
  {
  }

  /** Mapping with a function that never changes the outcome of `p`
      commutes with filtering by `p`. */
  lemma {:induction false} FilterMap<T(!new)>(s: seq<T>, f: T -> T, p: T -> bool)
    requires forall x :: p(f(x)) == p(x)
    ensures Filter(Map(s, f), p) == Map(Filter(s, p), f)
    decreases |s|
  {
    if s != [] {
      FilterMap(s[1..], f, p);
      assert s == [s[0]] + s[1..];
      assert Map(s, f) == [f(s[0])] + Map(s[1..], f);
      FilterCons(f(s[0]), Map(s[1..], f), p);
      FilterCons(s[0], s[1..], p);
      if p(s[0]) {
        MapAppend([s[0]], Filter(s[1..], p), f);
      } else {
        assert Filter(s, p) == [] + Filter(s[1..], p);
      }
    }
  }

  predicate Sorted(s: seq<Link>) {
    forall i, j | 0 <= i < j < |s| :: s[i].position <= s[j].position
  }

  predicate StrictlySorted(s: seq<Link>) {
    forall i, j | 0 <= i < j < |s| :: s[i].position < s[j].position
  }

  /** Insert `x` before the first element whose position is not smaller,
      so that it precedes the elements it ties with. */
  function Insert(x: Link, s: seq<Link>): seq<Link> {
    if s == [] || x.position <= s[0].position then [x] + s else [s[0]] + Insert(x, s[1..])
  }

  /** `s.sort((a, b) => a.position - b.position)`, stable. */
  function SortByPosition(s: seq<Link>): seq<Link> {
    if s == [] then [] else Insert(s[0], SortByPosition(s[1..]))
  }

  lemma {:induction false} InsertPermutes(x: Link, s: seq<Link>)
    ensures multiset(Insert(x, s)) == multiset(s) + multiset{x}
    decreases |s|
  {
    if s != [] && x.position > s[0].position {
      InsertPermutes(x, s[1..]);
      assert s == [s[0]] + s[1..];
    }
  }

  /** Inserting a link no lower than `lo` into links no lower than `lo`
      keeps every link no lower than `lo`. */
  lemma {:induction false} InsertBounded(x: Link, s: seq<Link>, lo: int)
    requires lo <= x.position
    requires forall i | 0 <= i < |s| :: lo <= s[i].position
    ensures forall i | 0 <= i < |Insert(x, s)| :: lo <= Insert(x, s)[i].position
    decreases |s|
  {
    if s != [] && x.position > s[0].position {
      InsertBounded(x, s[1..], lo);
      var t := Insert(x, s[1..]);
      forall i | 0 <= i < |[s[0]] + t| ensures lo <= ([s[0]] + t)[i].position {
        if i > 0 {
          assert ([s[0]] + t)[i] == t[i - 1];
        }
      }
    }
  }

  lemma {:induction false} InsertSorted(x: Link, s: seq<Link>)
    requires Sorted(s)
    ensures Sorted(Insert(x, s))
    decreases |s|
  {
    if s != [] && x.position > s[0].position {
      var t := Insert(x, s[1..]);
      InsertSorted(x, s[1..]);
      InsertBounded(x, s[1..], s[0].position);
      var r := [s[0]] + t;
      forall i, j | 0 <= i < j < |r| ensures r[i].position <= r[j].position {
        assert r[j] == t[j - 1];
        if i > 0 {
          assert r[i] == t[i - 1];
        }
      }
    }
  }

  /** Sorting yields a rearrangement of its input in ascending position
      order. */
  lemma SortSpec(s: seq<Link>)
    ensures Sorted(SortByPosition(s))
    ensures multiset(SortByPosition(s)) == multiset(s)
    ensures |SortByPosition(s)| == |s|
  {
    SortSorted(s);
    SortPermutes(s);
    assert |multiset(SortByPosition(s))| == |multiset(s)|;
  }

  lemma {:induction false} SortSorted(s: seq<Link>)
    ensures Sorted(SortByPosition(s))
    decreases |s|
  {
    if s != [] {
      SortSorted(s[1..]);
      InsertSorted(s[0], SortByPosition(s[1..]));
    }
  }

  lemma {:induction false} SortPermutes(s: seq<Link>)
    ensures multiset(SortByPosition(s)) == multiset(s)
    decreases |s|
  {
    if s != [] {
      SortPermutes(s[1..]);
      InsertPermutes(s[0], SortByPosition(s[1..]));
      assert multiset(s) == multiset(s[1..]) + multiset{s[0]} by {
        assert s == [s[0]] + s[1..];
      }
    }
  }

  /** The function that selects the links at one position. */
  function HasPosition(k: int): Link -> bool {
    (l: Link) => l.position == k
  }

  lemma {:induction false} InsertStable(x: Link, s: seq<Link>, k: int)
    ensures Filter(Insert(x, s), HasPosition(k))
         == (if x.position == k then [x] else []) + Filter(s, HasPosition(k))
    decreases |s|
  {
    if s != [] && x.position > s[0].position {
      InsertStable(x, s[1..], k);
      assert ([s[0]] + Insert(x, s[1..]))[1..] == Insert(x, s[1..]);
    }
  }

  /** Stability: the links that share one position appear in the sorted
      sequence in the order they had before sorting. */
  lemma {:induction false} SortStable(s: seq<Link>, k: int)
    ensures Filter(SortByPosition(s), HasPosition(k)) == Filter(s, HasPosition(k))
    decreases |s|
  {
    if s != [] {
      SortStable(s[1..], k);
      InsertStable(s[0], SortByPosition(s[1..]), k);
    }
  }

  /** Unfolding `Filter` once on a sequence written as head and tail. */
  lemma FilterCons<T(!new)>(x: T, s: seq<T>, p: T -> bool)
    ensures Filter([x] + s, p) == (if p(x) then [x] else []) + Filter(s, p)
  {
    assert ([x] + s)[0] == x && ([x] + s)[1..] == s;
  }

  lemma {:induction false} FilterInsert(x: Link, s: seq<Link>, p: Link -> bool)
    requires Sorted(s)
    ensures Filter(Insert(x, s), p) == if p(x) then Insert(x, Filter(s, p)) else Filter(s, p)
    decreases |s|
  {
    if s == [] || x.position <= s[0].position {
      FilterInsertFront(x, s, p);
    } else {
      FilterInsert(x, s[1..], p);
      FilterInsertLater(x, s, p);
    }
  }

  /** `x` goes first: it also goes first among the filtered links, which
      all come from the sorted `s`. */
  lemma FilterInsertFront(x: Link, s: seq<Link>, p: Link -> bool)
    requires Sorted(s)
    requires s == [] || x.position <= s[0].position
    ensures Filter(Insert(x, s), p) == if p(x) then Insert(x, Filter(s, p)) else Filter(s, p)
  {
    FilterCons(x, s, p);
    var f := Filter(s, p);
    if f != [] {
      FilterMembers(s, p, f[0]);
      assert f[0] in s;
      var k :| 0 <= k < |s| && s[k] == f[0];
      assert s[0].position <= s[k].position;
    }
  }

  /** `x` goes after the head of `s`: the step from the tail's case. */
  lemma FilterInsertLater(x: Link, s: seq<Link>, p: Link -> bool)
    requires s != [] && x.position > s[0].position
    requires Filter(Insert(x, s[1..]), p) == if p(x) then Insert(x, Filter(s[1..], p)) else Filter(s[1..], p)
    ensures Filter(Insert(x, s), p) == if p(x) then Insert(x, Filter(s, p)) else Filter(s, p)
  {
    var t := Insert(x, s[1..]);
    var f' := Filter(s[1..], p);
    assert Insert(x, s) == [s[0]] + t;
    assert Filter(s, p) == (if p(s[0]) then [s[0]] else []) + f';
    FilterCons(s[0], t, p);
    if p(x) && p(s[0]) {
      calc {
        Filter(Insert(x, s), p);
        [s[0]] + Filter(t, p);
        [s[0]] + Insert(x, f');
        { assert ([s[0]] + f')[0] == s[0] && ([s[0]] + f')[1..] == f'; }
        Insert(x, [s[0]] + f');
        Insert(x, Filter(s, p));
      }
    } else if p(x) {
      calc {
        Filter(Insert(x, s), p);
        Filter(t, p);
        Insert(x, f');
        { assert Filter(s, p) == [] + f' == f'; }
        Insert(x, Filter(s, p));
      }
    } else {
      calc {
        Filter(Insert(x, s), p);
        (if p(s[0]) then [s[0]] else []) + Filter(t, p);
        (if p(s[0]) then [s[0]] else []) + f';
        Filter(s, p);
      }
    }
  }

  /** Filtering a sorted sequence is sorting the filtered sequence: a
      derived view may filter before or after sorting. */
  lemma {:induction false} FilterSortCommute(s: seq<Link>, p: Link -> bool)
    ensures Filter(SortByPosition(s), p) == SortByPosition(Filter(s, p))
    decreases |s|
  {
    if s != [] {
      var f' := Filter(s[1..], p);
      var sorted' := SortByPosition(s[1..]);
      FilterSortCommute(s[1..], p);
      SortSpec(s[1..]);
      FilterInsert(s[0], sorted', p);
      assert s == [s[0]] + s[1..];
      FilterCons(s[0], s[1..], p);
      if p(s[0]) {
        calc {
          Filter(SortByPosition(s), p);
          Filter(Insert(s[0], sorted'), p);
          Insert(s[0], Filter(sorted', p));
          Insert(s[0], SortByPosition(f'));
          { assert ([s[0]] + f')[0] == s[0] && ([s[0]] + f')[1..] == f'; }
          SortByPosition([s[0]] + f');
          SortByPosition(Filter(s, p));
        }
      } else {
        calc {
          Filter(SortByPosition(s), p);
          Filter(Insert(s[0], sorted'), p);
          Filter(sorted', p);
          SortByPosition(f');
          { assert Filter(s, p) == [] + f' == f'; }
          SortByPosition(Filter(s, p));
        }
      }
    }
  }

  /** Two arrangements of the same links, one sorted and one strictly
      sorted, begin with the same link. */
  lemma SortedHeads(a: seq<Link>, b: seq<Link>)
    requires Sorted(a) && StrictlySorted(b)
    requires multiset(a) == multiset(b) && a != []
    ensures b != [] && a[0] == b[0]
  {
    assert a[0] in multiset(b);
    var j :| 0 <= j < |b| && b[j] == a[0];
    assert b[0] in multiset(a);
    var i :| 0 <= i < |a| && a[i] == b[0];
    assert a[0].position <= a[i].position;
    assert b[0].position <= b[j].position;
  }

  /** A sorted sequence is determined by its elements when the positions
      of one arrangement are all different. */
  lemma {:induction false} SortedUnique(a: seq<Link>, b: seq<Link>)
    requires Sorted(a) && StrictlySorted(b)
    requires multiset(a) == multiset(b)
    ensures a == b
    decreases |a|
  {
    if a == [] {
      assert |b| == |multiset(b)| == 0;
    } else {
      SortedHeads(a, b);
      assert a == [a[0]] + a[1..] && b == [b[0]] + b[1..];
      assert multiset(a[1..]) == multiset(a) - multiset{a[0]};
      assert multiset(b[1..]) == multiset(b) - multiset{b[0]};
      SortedTails(a, b);
      SortedUnique(a[1..], b[1..]);
    }
  }

  lemma SortedTails(a: seq<Link>, b: seq<Link>)
    requires Sorted(a) && StrictlySorted(b) && a != [] && b != []
    ensures Sorted(a[1..]) && StrictlySorted(b[1..])
  {
    forall i, j | 0 <= i < j < |a| - 1 ensures a[1..][i].position <= a[1..][j].position {
      assert a[1..][i] == a[i + 1] && a[1..][j] == a[j + 1];
    }
    forall i, j | 0 <= i < j < |b| - 1 ensures b[1..][i].position < b[1..][j].position {
      assert b[1..][i] == b[i + 1] && b[1..][j] == b[j + 1];
    }
  }
}
