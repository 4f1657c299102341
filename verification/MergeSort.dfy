/** The sequence that DL_SORT computes: bottom-up merge sort, and why it is a stable sort. */
module MergeSort {

  /** The merge of two runs; on a tie the left one goes first. */
  function Merge<E>(cmp: (E, E) -> int, xs: seq<E>, ys: seq<E>): seq<E>
    decreases |xs| + |ys|
  {
    if xs == [] then ys
    else if ys == [] then xs
    else if cmp(xs[0], ys[0]) <= 0 then [xs[0]] + Merge(cmp, xs[1..], ys)
    else [ys[0]] + Merge(cmp, xs, ys[1..])
  }

  /** The first `n` elements, or all of them, and the rest. */
  function Take<E>(s: seq<E>, n: nat): seq<E> { if n <= |s| then s[..n] else s }

  function Drop<E>(s: seq<E>, n: nat): seq<E> { if n <= |s| then s[n..] else [] }

  /** One pass over the list: neighbouring runs of length `k` are merged. */
  function Pass<E>(cmp: (E, E) -> int, s: seq<E>, k: nat): seq<E>
    requires k > 0
    decreases |s|
  {
    if s == [] then []
    else Merge(cmp, Take(s, k), Take(Drop(s, k), k)) + Pass(cmp, Drop(Drop(s, k), k), k)
  }

  /** Passes with doubled run length until one pass needed a single merge. */
  function Passes<E>(cmp: (E, E) -> int, s: seq<E>, k: nat): seq<E>
    requires k > 0
    decreases |s| - k
  {
    PassKeeps(cmp, s, k);
    if |s| <= 2 * k then Pass(cmp, s, k) else Passes(cmp, Pass(cmp, s, k), 2 * k)
  }

  function Sort<E>(cmp: (E, E) -> int, s: seq<E>): seq<E> { Passes(cmp, s, 1) }

  // ---------------------------------------------------------------- permutation

  lemma {:induction false} MergeKeeps<E>(cmp: (E, E) -> int, xs: seq<E>, ys: seq<E>)
    ensures multiset(Merge(cmp, xs, ys)) == multiset(xs) + multiset(ys)
    ensures |Merge(cmp, xs, ys)| == |xs| + |ys|
    decreases |xs| + |ys|
  {
    if xs != [] && ys != [] {
      assert xs == [xs[0]] + xs[1..] && ys == [ys[0]] + ys[1..];
      if cmp(xs[0], ys[0]) <= 0 {
        MergeKeeps(cmp, xs[1..], ys);
      } else {
        MergeKeeps(cmp, xs, ys[1..]);
      }
    }
  }

  lemma {:induction false} PassKeeps<E>(cmp: (E, E) -> int, s: seq<E>, k: nat)
    requires k > 0
    ensures multiset(Pass(cmp, s, k)) == multiset(s) && |Pass(cmp, s, k)| == |s|
    decreases |s|
  {
    if s != [] {
      var xs, ys, rest := Take(s, k), Take(Drop(s, k), k), Drop(Drop(s, k), k);
      assert s == xs + ys + rest;
      MergeKeeps(cmp, xs, ys);
      PassKeeps(cmp, rest, k);
    }
  }

  lemma {:induction false} PassesKeep<E>(cmp: (E, E) -> int, s: seq<E>, k: nat)
    requires k > 0
    ensures multiset(Passes(cmp, s, k)) == multiset(s)
    decreases |s| - k
  {
    PassKeeps(cmp, s, k);
    if |s| > 2 * k { PassesKeep(cmp, Pass(cmp, s, k), 2 * k); }
  }

  // ---------------------------------------------------------------- order

  /** The comparison orders the elements of `dom` totally and transitively. */
  ghost predicate Preorder<E>(cmp: (E, E) -> int, dom: multiset<E>) {
    && (forall x, y :: x in dom && y in dom ==> cmp(x, y) <= 0 || cmp(y, x) <= 0)
    && (forall x, y, z :: x in dom && y in dom && z in dom && cmp(x, y) <= 0 && cmp(y, z) <= 0 ==> cmp(x, z) <= 0)
  }

  ghost predicate Sorted<E>(cmp: (E, E) -> int, s: seq<E>) {
    forall i, j :: 0 <= i < j < |s| ==> cmp(s[i], s[j]) <= 0
  }

  /** Every aligned run of length `k` is sorted. */
  ghost predicate Runs<E>(cmp: (E, E) -> int, s: seq<E>, k: nat)
    requires k > 0
    decreases |s|
  {
    s == [] || (Sorted(cmp, Take(s, k)) && Runs(cmp, Drop(s, k), k))
  }

  lemma Cons<E>(cmp: (E, E) -> int, x: E, s: seq<E>)
    requires Sorted(cmp, s) && forall y <- s :: cmp(x, y) <= 0
    ensures Sorted(cmp, [x] + s)
  {
  }

  lemma {:induction false} MergeSorted<E>(cmp: (E, E) -> int, dom: multiset<E>, xs: seq<E>, ys: seq<E>)
    requires Preorder(cmp, dom) && Sorted(cmp, xs) && Sorted(cmp, ys)
    requires (forall x <- xs :: x in dom) && (forall y <- ys :: y in dom)
    ensures Sorted(cmp, Merge(cmp, xs, ys))
    decreases |xs| + |ys|
  {
    if xs != [] && ys != [] {
      var m;
      if cmp(xs[0], ys[0]) <= 0 {
        m := Merge(cmp, xs[1..], ys);
        MergeSorted(cmp, dom, xs[1..], ys);
        MergeKeeps(cmp, xs[1..], ys);
        forall z <- m ensures cmp(xs[0], z) <= 0 { Above(cmp, dom, xs[0], xs, ys, m, z); }
        Cons(cmp, xs[0], m);
      } else {
        m := Merge(cmp, xs, ys[1..]);
        MergeSorted(cmp, dom, xs, ys[1..]);
        MergeKeeps(cmp, xs, ys[1..]);
        forall z <- m ensures cmp(ys[0], z) <= 0 { Above(cmp, dom, ys[0], ys, xs, m, z); }
        Cons(cmp, ys[0], m);
      }
    }
  }

  /** The head of one run is below the rest of it and, when it wins, below the other run. */
  lemma Above<E>(cmp: (E, E) -> int, dom: multiset<E>, h: E, xs: seq<E>, ys: seq<E>, m: seq<E>, z: E)
    requires Preorder(cmp, dom) && Sorted(cmp, xs) && Sorted(cmp, ys) && xs != [] && ys != [] && h == xs[0]
    requires (forall x <- xs :: x in dom) && (forall y <- ys :: y in dom) && cmp(h, ys[0]) <= 0
    requires multiset(m) == multiset(xs[1..]) + multiset(ys) && z in m
    ensures cmp(h, z) <= 0
  {
    assert z in multiset(m);
    if z in xs[1..] {
      var i :| 0 <= i < |xs| - 1 && xs[1..][i] == z;
      assert xs[i + 1] == z;
    } else {
      assert z in ys && ys[0] in ys;
      var j :| 0 <= j < |ys| && ys[j] == z;
      if j > 0 { assert cmp(ys[0], z) <= 0; }
    }
  }

  lemma Glue<E>(cmp: (E, E) -> int, m: seq<E>, r: seq<E>, n: nat)
    requires n > 0 && Sorted(cmp, m) && Runs(cmp, r, n) && (|m| == n || (|m| <= n && r == []))
    ensures Runs(cmp, m + r, n)
  {
    if r == [] {
      assert m + r == m && Take(m, n) == m && Drop(m, n) == [];
    } else {
      assert Take(m + r, n) == m && Drop(m + r, n) == r;
    }
  }

  lemma {:induction false} PassRuns<E>(cmp: (E, E) -> int, dom: multiset<E>, s: seq<E>, k: nat)
    requires k > 0 && Preorder(cmp, dom) && Runs(cmp, s, k) && forall x <- s :: x in dom
    ensures Runs(cmp, Pass(cmp, s, k), 2 * k)
    decreases |s|
  {
    if s != [] {
      var xs, ys, rest := Take(s, k), Take(Drop(s, k), k), Drop(Drop(s, k), k);
      assert Sorted(cmp, xs) && Runs(cmp, Drop(s, k), k);
      assert Sorted(cmp, ys) && Runs(cmp, rest, k);
      MergeSorted(cmp, dom, xs, ys);
      MergeKeeps(cmp, xs, ys);
      PassRuns(cmp, dom, rest, k);
      Glue(cmp, Merge(cmp, xs, ys), Pass(cmp, rest, k), 2 * k);
    }
  }

  lemma {:induction false} PassesSorted<E>(cmp: (E, E) -> int, dom: multiset<E>, s: seq<E>, k: nat)
    requires k > 0 && Preorder(cmp, dom) && Runs(cmp, s, k) && multiset(s) == dom
    ensures Sorted(cmp, Passes(cmp, s, k))
    decreases |s| - k
  {
    var r := Pass(cmp, s, k);
    assert forall x <- s :: x in multiset(s);
    PassRuns(cmp, dom, s, k);
    PassKeeps(cmp, s, k);
    if |s| <= 2 * k {
      assert Take(r, 2 * k) == r;
    } else {
      PassesSorted(cmp, dom, r, 2 * k);
    }
  }

  lemma {:induction false} SingleRuns<E>(cmp: (E, E) -> int, s: seq<E>)
    ensures Runs(cmp, s, 1)
  {
    if s != [] { SingleRuns(cmp, Drop(s, 1)); }
  }

  // ---------------------------------------------------------------- stability

  predicate Tied<E>(cmp: (E, E) -> int, x: E, y: E) { cmp(x, y) <= 0 && cmp(y, x) <= 0 }

  /** The elements that tie with `x`, in order. */
  function Ties<E>(cmp: (E, E) -> int, s: seq<E>, x: E): seq<E> {
    if s == [] then [] else (if Tied(cmp, x, s[0]) then [s[0]] else []) + Ties(cmp, s[1..], x)
  }

  lemma {:induction false} TiesAppend<E>(cmp: (E, E) -> int, a: seq<E>, b: seq<E>, x: E)
    ensures Ties(cmp, a + b, x) == Ties(cmp, a, x) + Ties(cmp, b, x)
  {
    if a == [] {
      assert a + b == b;
    } else {
      TiesAppend(cmp, a[1..], b, x);
      assert (a + b)[1..] == a[1..] + b;
    }
  }

  lemma {:induction false} NoTies<E>(cmp: (E, E) -> int, s: seq<E>, x: E)
    requires forall y <- s :: !Tied(cmp, x, y)
    ensures Ties(cmp, s, x) == []
  {
    if s != [] { NoTies(cmp, s[1..], x); }
  }

  /** When the right run wins with an element tied to `x`, the left run has none. */
  lemma AboveTie<E>(cmp: (E, E) -> int, dom: multiset<E>, xs: seq<E>, ys: seq<E>, x: E)
    requires Preorder(cmp, dom) && Sorted(cmp, xs) && x in dom && xs != [] && ys != []
    requires (forall y <- xs :: y in dom) && (forall y <- ys :: y in dom)
    requires cmp(xs[0], ys[0]) > 0 && Tied(cmp, x, ys[0])
    ensures forall y <- xs :: !Tied(cmp, x, y)
  {
    forall y <- xs ensures !Tied(cmp, x, y) {
      var i :| 0 <= i < |xs| && xs[i] == y;
      assert ys[0] in ys && xs[0] in xs;
      assert i > 0 ==> cmp(xs[0], xs[i]) <= 0;
    }
  }

  lemma {:induction false} MergeStable<E>(cmp: (E, E) -> int, dom: multiset<E>, xs: seq<E>, ys: seq<E>, x: E)
    requires Preorder(cmp, dom) && Sorted(cmp, xs) && x in dom
    requires (forall y <- xs :: y in dom) && (forall y <- ys :: y in dom)
    ensures Ties(cmp, Merge(cmp, xs, ys), x) == Ties(cmp, xs, x) + Ties(cmp, ys, x)
    decreases |xs| + |ys|
  {
    if xs != [] && ys != [] {
      if cmp(xs[0], ys[0]) <= 0 {
        MergeStable(cmp, dom, xs[1..], ys, x);
        TiesCons(cmp, xs[0], Merge(cmp, xs[1..], ys), x);
      } else {
        MergeStable(cmp, dom, xs, ys[1..], x);
        TiesCons(cmp, ys[0], Merge(cmp, xs, ys[1..]), x);
        if Tied(cmp, x, ys[0]) {
          AboveTie(cmp, dom, xs, ys, x);
          NoTies(cmp, xs, x);
        }
      }
    } else if xs == [] {
    } else {
      assert Ties(cmp, ys, x) == [];
    }
  }

  lemma TiesCons<E>(cmp: (E, E) -> int, h: E, s: seq<E>, x: E)
    ensures Ties(cmp, [h] + s, x) == (if Tied(cmp, x, h) then [h] else []) + Ties(cmp, s, x)
  {
    assert ([h] + s)[1..] == s;
  }

  lemma {:induction false} PassStable<E>(cmp: (E, E) -> int, dom: multiset<E>, s: seq<E>, k: nat, x: E)
    requires k > 0 && Preorder(cmp, dom) && Runs(cmp, s, k) && x in dom && forall y <- s :: y in dom
    ensures Ties(cmp, Pass(cmp, s, k), x) == Ties(cmp, s, x)
    decreases |s|
  {
    if s != [] {
      var xs, ys, rest := Take(s, k), Take(Drop(s, k), k), Drop(Drop(s, k), k);
      assert s == (xs + ys) + rest;
      MergeStable(cmp, dom, xs, ys, x);
      PassStable(cmp, dom, rest, k, x);
      TiesAppend(cmp, Merge(cmp, xs, ys), Pass(cmp, rest, k), x);
      TiesAppend(cmp, xs + ys, rest, x);
      TiesAppend(cmp, xs, ys, x);
    }
  }

  lemma {:induction false} PassesStable<E>(cmp: (E, E) -> int, dom: multiset<E>, s: seq<E>, k: nat, x: E)
    requires k > 0 && Preorder(cmp, dom) && Runs(cmp, s, k) && x in dom && multiset(s) == dom
    ensures Ties(cmp, Passes(cmp, s, k), x) == Ties(cmp, s, x)
    decreases |s| - k
  {
    assert forall y <- s :: y in multiset(s);
    PassStable(cmp, dom, s, k, x);
    if |s| > 2 * k {
      PassRuns(cmp, dom, s, k);
      PassKeeps(cmp, s, k);
      PassesStable(cmp, dom, Pass(cmp, s, k), 2 * k, x);
    }
  }

  /** DL_SORT sorts, keeps every element, and keeps tied elements in their order. */
  lemma StableSort<E>(cmp: (E, E) -> int, s: seq<E>)
    requires Preorder(cmp, multiset(s))
    ensures Sorted(cmp, Sort(cmp, s))
    ensures multiset(Sort(cmp, s)) == multiset(s)
    ensures forall x <- s :: Ties(cmp, Sort(cmp, s), x) == Ties(cmp, s, x)
  {
    SingleRuns(cmp, s);
    PassesSorted(cmp, multiset(s), s, 1);
    PassesKeep(cmp, s, 1);
    forall x <- s ensures Ties(cmp, Sort(cmp, s), x) == Ties(cmp, s, x) {
      assert x in multiset(s);
      PassesStable(cmp, multiset(s), s, 1, x);
    }
  }
}
