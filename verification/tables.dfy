/** Generic relational tables.

    A table is the sequence of its rows in the order a full scan returns them
    (ascending rowid for rows appended by inserts). Every query of the ledger is
    one of the operations here: a filtered scan, a first-match lookup, an insert
    at a fresh id, an update by id, and a sum over a column. */
module Tables {

  datatype Option<+T> = None | Some(value: T) {

    /** The wrapped value, or `default` when absent (`unwrap_or`). */
    function GetOr(default: T): T {
      match this
      case Some(v) => v
      case None => default
    }
  }

  /** One stored row: its integer primary key and its other columns. */
  datatype Row<+T> = Row(id: int, data: T)

  type Table<T> = seq<Row<T>>

  /** Some row of `t` has primary key `id`. */
  predicate HasId<T>(t: Table<T>, id: int) {
    exists i :: 0 <= i < |t| && t[i].id == id
  }

  /** No two rows of `t` share a primary key. */
  ghost predicate UniqueIds<T>(t: Table<T>) {
    forall i, j :: 0 <= i < |t| && 0 <= j < |t| && t[i].id == t[j].id ==> i == j
  }

  /** The largest primary key in use, or 0 when no positive key is in use. */
  function MaxId<T>(t: Table<T>): (m: int)
    ensures 0 <= m
    ensures forall i :: 0 <= i < |t| ==> t[i].id <= m
    ensures m == 0 || HasId(t, m)
  {
    if |t| == 0 then 0
    else
      var rest := MaxId(t[1..]);
      if t[0].id > rest then t[0].id else rest
  }

  /** The key the store gives the next inserted row: one more than the largest key in use. */
  function NextId<T>(t: Table<T>): (id: int)
    ensures 1 <= id
    ensures forall i :: 0 <= i < |t| ==> t[i].id < id
    ensures !HasId(t, id)
  {
    MaxId(t) + 1
  }

  /** The position of the first element satisfying `p`, or `|t|` when there is none. */
  function FirstIndex<T>(t: seq<T>, p: T -> bool): (k: nat)
    ensures k <= |t|
    ensures k < |t| ==> p(t[k])
    ensures forall j :: 0 <= j < k ==> !p(t[j])
  {
    if |t| == 0 then 0
    else if p(t[0]) then 0
    else 1 + FirstIndex(t[1..], p)
  }

  /** The first element satisfying `p` (a `fetch_optional` over a scan). */
  function First<T>(t: seq<T>, p: T -> bool): (r: Option<T>)
    ensures r.Some? ==> r.value in t && p(r.value)
    ensures r.None? <==> forall j :: 0 <= j < |t| ==> !p(t[j])
  {
    var k := FirstIndex(t, p);
    if k < |t| then Some(t[k]) else None
  }

  /** When exactly one element satisfies `p`, `First` finds that one. */
  lemma FirstOfSingle<T>(t: seq<T>, p: T -> bool, i: int)
    requires 0 <= i < |t| && p(t[i])
    requires forall j :: 0 <= j < |t| && p(t[j]) ==> j == i
    ensures First(t, p) == Some(t[i])
  {
    var k := FirstIndex(t, p);
    assert k <= i;
  }

  lemma {:induction false} FirstIndexAppend<T>(a: seq<T>, b: seq<T>, p: T -> bool)
    ensures FirstIndex(a + b, p) == if FirstIndex(a, p) < |a| then FirstIndex(a, p) else |a| + FirstIndex(b, p)
    decreases |a|
  {
    if |a| == 0 {
      assert a + b == b;
    } else if !p(a[0]) {
      assert (a + b)[1..] == a[1..] + b;
      FirstIndexAppend(a[1..], b, p);
    }
  }

  /** A scan of `a + b` finds the first match of `a`, or else the first of `b`. */
  lemma FirstAppend<T>(a: seq<T>, b: seq<T>, p: T -> bool)
    ensures First(a + b, p) == if First(a, p).Some? then First(a, p) else First(b, p)
  {
    FirstIndexAppend(a, b, p);
    var k := FirstIndex(a, p);
    if k >= |a| {
      var kb := FirstIndex(b, p);
      if kb < |b| {
        assert (a + b)[|a| + kb] == b[kb];
      }
    }
  }

  /** The elements of `t` that satisfy `p`, in order (a `WHERE` scan). */
  function Filter<T(!new)>(t: seq<T>, p: T -> bool): (r: seq<T>)
    ensures |r| <= |t|
    ensures forall x :: x in r <==> x in t && p(x)
  {
    if |t| == 0 then []
    else (if p(t[0]) then [t[0]] else []) + Filter(t[1..], p)
  }

  /** Filtering out rows `q` never keeps does not change what `q` selects. */
  lemma {:induction false} FilterWithin<T(!new)>(t: seq<T>, p: T -> bool, q: T -> bool)
    requires forall x :: q(x) ==> p(x)
    ensures Filter(Filter(t, p), q) == Filter(t, q)
    decreases |t|
  {
    if |t| > 0 {
      var head := if p(t[0]) then [t[0]] else [];
      assert Filter(t, p) == head + Filter(t[1..], p);
      FilterAppend(head, Filter(t[1..], p), q);
      FilterWithin(t[1..], p, q);
    }
  }

  /** A filter every element passes keeps the sequence whole. */
  lemma {:induction false} FilterAll<T(!new)>(t: seq<T>, p: T -> bool)
    requires forall j :: 0 <= j < |t| ==> p(t[j])
    ensures Filter(t, p) == t
    decreases |t|
  {
    if |t| > 0 {
      assert forall j :: 0 <= j < |t[1..]| ==> p(t[1..][j]) by {
        forall j | 0 <= j < |t[1..]| ensures p(t[1..][j]) {
          assert t[1..][j] == t[j + 1];
        }
      }
      FilterAll(t[1..], p);
    }
  }

  /** `f` applied to every element, keeping the present results, in order. */
  function Collect<A(!new), B(!new)>(t: seq<A>, f: A -> Option<B>): (r: seq<B>)
    ensures |r| <= |t|
    ensures forall y :: y in r ==> exists x :: x in t && f(x) == Some(y)
    ensures forall x :: x in t && f(x).Some? ==> f(x).value in r
  {
    if |t| == 0 then []
    else
      var head := match f(t[0]) case Some(y) => [y] case None => [];
      head + Collect(t[1..], f)
  }

  /** The column values of the rows of `t`, in order, without their keys. */
  function Payloads<T>(t: Table<T>): seq<T> {
    seq(|t|, i requires 0 <= i < |t| => t[i].data)
  }

  /** `UPDATE … WHERE id = ?`: every row with key `id` has its columns rewritten by `f`. */
  function Update<T>(t: Table<T>, id: int, f: T -> T): Table<T> {
    seq(|t|, i requires 0 <= i < |t| => if t[i].id == id then Row(id, f(t[i].data)) else t[i])
  }

  /** The sum of `f` over the elements of `xs`. */
  function Sum<T>(xs: seq<T>, f: T -> int): int {
    if |xs| == 0 then 0 else f(xs[0]) + Sum(xs[1..], f)
  }

  lemma {:induction false} SumAppend<T>(a: seq<T>, b: seq<T>, f: T -> int)
    ensures Sum(a + b, f) == Sum(a, f) + Sum(b, f)
    decreases |a|
  {
    if |a| == 0 {
      assert a + b == b;
    } else {
      assert (a + b)[1..] == a[1..] + b;
      SumAppend(a[1..], b, f);
    }
  }

  /** For permutations `a` and `b` of a non-empty sequence, a position of `b`
      holding `a[0]` whose removal leaves a permutation of `a[1..]`. */
  lemma RemoveMatching<T>(a: seq<T>, b: seq<T>) returns (k: int)
    requires |a| > 0 && multiset(a) == multiset(b)
    ensures 0 <= k < |b| && b[k] == a[0]
    ensures multiset(a[1..]) == multiset(b[..k] + b[k + 1..])
  {
    assert a[0] in multiset(b);
    k :| 0 <= k < |b| && b[k] == a[0];
    assert b == b[..k] + [a[0]] + b[k + 1..];
    assert a == [a[0]] + a[1..];
    assert multiset(b) == multiset(b[..k]) + multiset([a[0]]) + multiset(b[k + 1..]);
    assert multiset(a) == multiset([a[0]]) + multiset(a[1..]);
    assert multiset(b[..k] + b[k + 1..]) == multiset(b[..k]) + multiset(b[k + 1..]);
    assert multiset(a[1..]) == multiset(a) - multiset([a[0]]);
    assert multiset(b[..k] + b[k + 1..]) == multiset(b) - multiset([a[0]]);
  }

  /** A sum does not depend on the order of its terms. */
  lemma {:induction false} SumPermutation<T>(a: seq<T>, b: seq<T>, f: T -> int)
    requires multiset(a) == multiset(b)
    ensures Sum(a, f) == Sum(b, f)
    decreases |a|
  {
    if |a| == 0 {
      assert |multiset(b)| == 0;
    } else {
      var k := RemoveMatching(a, b);
      var rest := b[..k] + b[k + 1..];
      assert b == b[..k] + [a[0]] + b[k + 1..];
      SumAppend(b[..k] + [a[0]], b[k + 1..], f);
      SumAppend(b[..k], [a[0]], f);
      SumAppend(b[..k], b[k + 1..], f);
      SumPermutation(a[1..], rest, f);
    }
  }

  lemma {:induction false} FilterAppend<T(!new)>(a: seq<T>, b: seq<T>, p: T -> bool)
    ensures Filter(a + b, p) == Filter(a, p) + Filter(b, p)
    decreases |a|
  {
    if |a| == 0 {
      assert a + b == b;
    } else {
      assert (a + b)[1..] == a[1..] + b;
      FilterAppend(a[1..], b, p);
    }
  }

  lemma {:induction false} CollectAppend<A(!new), B(!new)>(a: seq<A>, b: seq<A>, f: A -> Option<B>)
    ensures Collect(a + b, f) == Collect(a, f) + Collect(b, f)
    decreases |a|
  {
    if |a| == 0 {
      assert a + b == b;
    } else {
      assert (a + b)[1..] == a[1..] + b;
      CollectAppend(a[1..], b, f);
    }
  }

  /** A predicate no element satisfies selects nothing. */
  lemma {:induction false} FilterNone<T(!new)>(t: seq<T>, p: T -> bool)
    requires forall x :: x in t ==> !p(x)
    ensures Filter(t, p) == []
    decreases |t|
  {
    if |t| > 0 {
      assert forall x :: x in t[1..] ==> x in t;
      FilterNone(t[1..], p);
    }
  }

  /** A map that is absent on every element collects nothing. */
  lemma {:induction false} CollectNone<A(!new), B(!new)>(t: seq<A>, f: A -> Option<B>)
    requires forall x :: x in t ==> f(x).None?
    ensures Collect(t, f) == []
    decreases |t|
  {
    if |t| > 0 {
      assert forall x :: x in t[1..] ==> x in t;
      CollectNone(t[1..], f);
    }
  }

  /** Two predicates that agree on every element select the same elements. */
  lemma {:induction false} FilterCongruent<T(!new)>(t: seq<T>, p: T -> bool, q: T -> bool)
    requires forall x :: x in t ==> p(x) == q(x)
    ensures Filter(t, p) == Filter(t, q)
    decreases |t|
  {
    if |t| > 0 {
      assert forall x :: x in t[1..] ==> x in t;
      FilterCongruent(t[1..], p, q);
    }
  }

  /** Two maps that agree on every element collect the same results. */
  lemma {:induction false} CollectCongruent<A(!new), B(!new)>(t: seq<A>, f: A -> Option<B>, g: A -> Option<B>)
    requires forall x :: x in t ==> f(x) == g(x)
    ensures Collect(t, f) == Collect(t, g)
    decreases |t|
  {
    if |t| > 0 {
      assert forall x :: x in t[1..] ==> x in t;
      CollectCongruent(t[1..], f, g);
    }
  }

  /** Filtering a permutation gives a permutation of the filtered sequence. */
  lemma {:induction false} FilterMultiset<T(!new)>(a: seq<T>, b: seq<T>, p: T -> bool)
    requires multiset(a) == multiset(b)
    ensures multiset(Filter(a, p)) == multiset(Filter(b, p))
    decreases |a|
  {
    if |a| == 0 {
      assert |multiset(b)| == 0;
      assert b == [];
    } else {
      var k := RemoveMatching(a, b);
      var rest := b[..k] + b[k + 1..];
      var x := a[0];
      assert b == b[..k] + [x] + b[k + 1..];
      FilterAppend(b[..k] + [x], b[k + 1..], p);
      FilterAppend(b[..k], [x], p);
      FilterAppend(b[..k], b[k + 1..], p);
      assert a == [x] + a[1..];
      FilterAppend([x], a[1..], p);
      FilterMultiset(a[1..], rest, p);
      var fa, fb, fr := Filter(a[1..], p), Filter(b[..k], p), Filter(b[k + 1..], p);
      assert multiset(fa) == multiset(fb + fr);
      assert multiset(Filter(b, p)) == multiset(fb) + multiset(Filter([x], p)) + multiset(fr);
    }
  }

  /** Rows appended after `t` that `p` rejects leave the filter as it was. */
  lemma FilterGrow<T(!new)>(t: seq<T>, r: seq<T>, p: T -> bool)
    requires t <= r
    requires forall j :: |t| <= j < |r| ==> !p(r[j])
    ensures Filter(r, p) == Filter(t, p)
  {
    var tail := r[|t|..];
    assert r == t + tail;
    FilterAppend(t, tail, p);
    assert forall x :: x in tail ==> !p(x) by {
      forall x | x in tail ensures !p(x) {
        var j :| 0 <= j < |tail| && tail[j] == x;
        assert r[|t| + j] == x;
      }
    }
    FilterNone(tail, p);
  }

  /** Rewriting rows that `p` rejects before and after leaves the filter as it was. */
  lemma {:induction false} FilterUpdateOutside<T(!new)>(t: Table<T>, id: int, f: T -> T, p: Row<T> -> bool)
    requires forall k :: 0 <= k < |t| && t[k].id == id ==> !p(t[k]) && !p(Row(id, f(t[k].data)))
    ensures Filter(Update(t, id, f), p) == Filter(t, p)
    decreases |t|
  {
    if |t| > 0 {
      var u := Update(t, id, f);
      assert u[1..] == Update(t[1..], id, f);
      assert forall k :: 0 <= k < |t[1..]| ==> t[1..][k] == t[k + 1];
      FilterUpdateOutside(t[1..], id, f, p);
    }
  }

  /** Under unique ids, rewriting the one row `k` that carries `id`, when `p`
      rejects it before and after, leaves the filter as it was. */
  lemma FilterUpdateOne<T(!new)>(t: Table<T>, id: int, f: T -> T, p: Row<T> -> bool, k: int)
    requires UniqueIds(t)
    requires 0 <= k < |t| && t[k].id == id && !p(t[k]) && !p(Row(id, f(t[k].data)))
    ensures Filter(Update(t, id, f), p) == Filter(t, p)
  {
    forall j | 0 <= j < |t| && t[j].id == id
      ensures !p(t[j]) && !p(Row(id, f(t[j].data)))
    {
      assert j == k;
    }
    FilterUpdateOutside(t, id, f, p);
  }

  /** Rewriting rows keeps every id in its place. */
  lemma UpdateKeepsIds<T>(t: Table<T>, id: int, f: T -> T)
    ensures |Update(t, id, f)| == |t|
    ensures forall k :: 0 <= k < |t| ==> Update(t, id, f)[k].id == t[k].id
    ensures forall x :: HasId(Update(t, id, f), x) <==> HasId(t, x)
  {
  }

  /** Under unique ids, the rewritten row at position `i` is the only row
      left with that id. */
  lemma UpdatedRowIsOnly<T>(t: Table<T>, id: int, f: T -> T, i: int)
    requires 0 <= i < |t| && t[i].id == id
    ensures UniqueIds(t) ==> forall r :: r in Update(t, id, f) && r.id == id ==> r == Row(id, f(t[i].data))
  {
    if UniqueIds(t) {
      forall r | r in Update(t, id, f) && r.id == id
        ensures r == Row(id, f(t[i].data))
      {
        var j :| 0 <= j < |t| && Update(t, id, f)[j] == r;
        assert t[j].id == id;
      }
    }
  }

  /** Rewriting an id no row carries changes nothing. */
  lemma UpdateAbsent<T>(t: Table<T>, id: int, f: T -> T)
    requires !HasId(t, id)
    ensures Update(t, id, f) == t
  {
  }

  lemma UniqueTail<T>(t: Table<T>)
    requires UniqueIds(t) && |t| > 0
    ensures UniqueIds(t[1..])
    ensures !HasId(t[1..], t[0].id)
  {
    assert forall i :: 0 <= i < |t[1..]| ==> t[1..][i] == t[i + 1];
  }

  lemma UniqueAppend<T>(t: Table<T>, row: Row<T>)
    requires UniqueIds(t) && !HasId(t, row.id)
    ensures UniqueIds(t + [row])
  {
  }

  lemma UniqueUpdate<T>(t: Table<T>, id: int, f: T -> T)
    requires UniqueIds(t)
    ensures UniqueIds(Update(t, id, f))
  {
  }

  lemma {:induction false} UniqueFilter<T(!new)>(t: Table<T>, p: Row<T> -> bool)
    requires UniqueIds(t)
    ensures UniqueIds(Filter(t, p))
    decreases |t|
  {
    if |t| > 0 {
      var rest := Filter(t[1..], p);
      UniqueFilter(t[1..], p);
      var r := Filter(t, p);
      if p(t[0]) {
        assert r == [t[0]] + rest;
        forall i | 0 <= i < |rest|
          ensures rest[i].id != t[0].id
        {
          assert rest[i] in t[1..];
          var j :| 0 <= j < |t[1..]| && t[1..][j] == rest[i];
          assert t[j + 1] == rest[i];
        }
      } else {
        assert r == rest;
      }
    }
  }
}
