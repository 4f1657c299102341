/** The two lists of an overlapped pool as pointer lists: what OvlK_Acquire and OvlK_Release do to the
    nodes is what OverlappedPool says of the element numbers. */
module OverlappedLists {
  import opened Basics
  import opened LinkedList
  import OverlappedPool

  function Numbers(s: seq<Node<nat>>): seq<nat> { seq(|s|, i requires 0 <= i < |s| => s[i].val) }

  /** The lists of a pool state. */
  ghost predicate Holds(p: OverlappedPool.Pool, released: List<nat>, acquired: List<nat>)
    reads released, acquired
  {
    p.released == Numbers(released.nodes) && p.acquired == Numbers(acquired.nodes)
  }

  lemma NumbersHead(s: seq<Node<nat>>, rest: seq<Node<nat>>)
    requires s != [] && rest == s[1..]
    ensures Numbers(s) == [s[0].val] + Numbers(rest) && Numbers(s)[1..] == Numbers(rest)
  {
  }

  lemma NumbersAppend(a: seq<Node<nat>>, b: seq<Node<nat>>)
    ensures Numbers(a + b) == Numbers(a) + Numbers(b)
  {
  }

  lemma AcquiredNumbers(p: OverlappedPool.Pool, n: nat, ok: bool, was: seq<Node<nat>>, had: seq<Node<nat>>,
                        el: Node<nat>, rest: seq<Node<nat>>, now: seq<Node<nat>>)
    requires OverlappedPool.Shape(p, n) && p.released == Numbers(was) && p.acquired == Numbers(had)
    requires was != [] && el == was[0] && rest == was[..0] + was[0 + 1..] && now == had + [el]
    requires ok || p.hasHandle[p.released[0]]
    ensures var q := OverlappedPool.AcquireFrom(p, n, ok); q.released == Numbers(rest) && q.acquired == Numbers(now)
  {
    assert rest == was[1..];
    NumbersHead(was, rest);
    NumbersAppend(had, [el]);
    assert Numbers([el]) == [el.val];
  }

  /** DL_DELETE from ReleasedList and DL_APPEND to AcquiredList (lusbk_overlapped.c:91 and 112), or
      DL_PREPEND back when the element has no handle and none can be had (line 99). */
  method AcquireNode(released: List<nat>, acquired: List<nat>, has: bool, ok: bool, ghost all: set<Node<nat>>,
                     ghost p: OverlappedPool.Pool, ghost n: nat)
    returns (el: Node?<nat>)
    requires Apart(released, acquired) && Within(released, acquired, all) && OverlappedPool.Shape(p, n)
    requires Holds(p, released, acquired) && (p.released != [] ==> has == p.hasHandle[p.released[0]])
    modifies released, acquired, all
    ensures Apart(released, acquired) && Within(released, acquired, all)
    ensures Holds(OverlappedPool.AcquireFrom(p, n, ok), released, acquired)
    ensures el == if old(released.nodes) == [] then null else old(released.nodes)[0]
  {
    el := released.head;
    if el != null {
      ghost var was, had := released.nodes, acquired.nodes;
      RemoveFrom(released, acquired, el, 0, all);
      if has || ok {
        AddTo(released, acquired, el, all);
        AcquiredNumbers(p, n, ok, was, had, el, released.nodes, acquired.nodes);
      } else {
        PutBack(was, el, released.nodes);
        AddInFront(acquired, released, el, all);
      }
    }
  }

  lemma PutBack(was: seq<Node<nat>>, el: Node<nat>, rest: seq<Node<nat>>)
    requires was != [] && el == was[0] && rest == was[..0] + was[0 + 1..]
    ensures [el] + rest == was
  {
  }

  lemma NumbersWithout(s: seq<Node<nat>>, i: nat, rest: seq<Node<nat>>)
    requires i < |s| && rest == s[..i] + s[i + 1..] && forall j :: 0 <= j < i ==> s[j].val != s[i].val
    ensures OverlappedPool.Without(Numbers(s), s[i].val) == Numbers(rest)
  {
    OverlappedPool.WithoutOne(Numbers(s), s[i].val, i);
    assert Numbers(rest) == Numbers(s)[..i] + Numbers(s)[i + 1..];
  }

  /** DL_DELETE from AcquiredList and DL_PREPEND to ReleasedList (lines 133 and 134). */
  method ReleaseNode(released: List<nat>, acquired: List<nat>, el: Node<nat>, ghost i: nat, ghost all: set<Node<nat>>,
                     ghost p: OverlappedPool.Pool, ghost n: nat)
    requires Apart(acquired, released) && Within(acquired, released, all) && i < |acquired.nodes|
             && acquired.nodes[i] == el
    requires OverlappedPool.Sound(p, n) && Holds(p, released, acquired)
    modifies released, acquired, all
    ensures Apart(acquired, released) && Within(acquired, released, all)
    ensures Holds(OverlappedPool.ReleaseTo(p, n, el.val), released, acquired)
  {
    ghost var was, had := acquired.nodes, released.nodes;
    AcquiredOnce(p, n, was, i);
    RemoveFrom(acquired, released, el, i, all);
    NumbersWithout(was, i, acquired.nodes);
    AddInFront(acquired, released, el, all);
    assert released.nodes[1..] == had;
    NumbersHead(released.nodes, had);
  }

  lemma AcquiredOnce(p: OverlappedPool.Pool, n: nat, s: seq<Node<nat>>, i: nat)
    requires OverlappedPool.Sound(p, n) && p.acquired == Numbers(s) && i < |s|
    ensures s[i].val < n && p.isAcquired[s[i].val] && forall j :: 0 <= j < i ==> s[j].val != s[i].val
  {
    assert p.acquired[i] == s[i].val && p.acquired[i] in p.acquired;
    forall j | 0 <= j < i ensures s[j].val != s[i].val {
      assert p.acquired[j] == s[j].val && p.since[p.acquired[j]] < p.since[p.acquired[i]];
    }
  }
}
