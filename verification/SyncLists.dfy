/** The two device lists of LstK_Sync as pointer lists: which nodes the slave enumeration of a
    full-mask sync moves, and in which order. */
module SyncLists {
  import opened Basics
  import P = PathMatch
  import opened LinkedList
  import opened DeviceSync

  function Infos(s: seq<Node<Info>>): seq<Info> { seq(|s|, i requires 0 <= i < |s| => s[i].val) }

  function Links(s: seq<Info>): seq<string> { seq(|s|, i requires 0 <= i < |s| => s[i].link) }

  /** A search looks at the links only. */
  lemma {:induction false} FindLinks(a: seq<Info>, b: seq<Info>, link: string)
    requires Links(a) == Links(b)
    ensures Find(a, link) == Find(b, link) && |a| == |b|
  {
    assert |a| == |Links(a)| && |b| == |Links(b)|;
    if a != [] {
      assert a[0].link == Links(a)[0] && b[0].link == Links(b)[0];
      assert Links(a[1..]) == Links(a)[1..] && Links(b[1..]) == Links(b)[1..];
      FindLinks(a[1..], b[1..], link);
    }
  }

  /** `k` is the first element of `s` that matches. */
  lemma FindIs(s: seq<Info>, link: string, k: nat)
    requires k <= |s| && (k < |s| ==> P.Matches(link, s[k].link))
             && forall j :: 0 <= j < k ==> !P.Matches(link, s[j].link)
    ensures Find(s, link) == k
  {
  }

  lemma InfosAppend(a: seq<Node<Info>>, b: seq<Node<Info>>)
    ensures Infos(a + b) == Infos(a) + Infos(b)
  {
  }

  lemma LinksAppend(a: seq<Info>, b: seq<Info>)
    ensures Links(a + b) == Links(a) + Links(b)
  {
  }

  /** The lists after the enumeration of the slave nodes `s` has visited `i` of them and comes to `el`. */
  ghost predicate Passing(slave: List<Info>, master: List<Info>, all: set<Node<Info>>, m: seq<Info>, s: seq<Node<Info>>,
                          kept: seq<Node<Info>>, i: nat, el: Node?<Info>)
    reads slave, master, slave.nodes, master.nodes
  {
    && Apart(slave, master) && Within(slave, master, all) && i <= |s| && el == At(s, i) && slave.nodes == kept + s[i..]
    && var (r, rest) := SlavePass(m, Infos(s), i, MASK); Infos(kept) == rest && Links(Infos(master.nodes)) == Links(r)
  }

  lemma LinksUpdate(r: seq<Info>, k: nat, y: Info)
    requires k < |r| && y.link == r[k].link
    ensures Links(r[k := y]) == Links(r)
  {
  }

  /** What a step of the slave enumeration does to the links. */
  lemma StepLinks(r: seq<Info>, rest: seq<Info>, x: Info, mask: set<Flag>, k: nat, next: (seq<Info>, seq<Info>))
    requires k == Find(r, x.link) && Added in mask && next == SlaveStep(r, rest, x, mask)
    ensures next.1 == if k < |r| then rest + [x] else rest
    ensures Links(next.0) == if k < |r| then Links(r) else Links(r) + [x.link]
  {
    if k < |r| {
      UpdatedLink(r[k], x, mask);
      LinksUpdate(r, k, Updated(r[k], x, mask));
    } else {
      LinksAppend(r, [New(x)]);
      assert Links([New(x)]) == [x.link];
    }
  }

  lemma UpdatedLink(m: Info, x: Info, mask: set<Flag>)
    ensures Updated(m, x, mask).link == m.link
  {
  }

  /** The node lists and the lists of the pass stay in step. */
  lemma StepPassing(m: seq<Info>, s: seq<Node<Info>>, i: nat, kept: seq<Node<Info>>, now: seq<Node<Info>>,
                    el: Node<Info>)
    requires i < |s| && el == s[i] && SlavePass(m, Infos(s), i, MASK).1 == Infos(kept)
    requires Links(SlavePass(m, Infos(s), i, MASK).0) == Links(Infos(now))
    ensures var (r', rest') := SlavePass(m, Infos(s), i + 1, MASK);
            if Find(Infos(now), el.val.link) < |now| then Infos(kept + [el]) == rest' && Links(Infos(now)) == Links(r')
            else Infos(kept) == rest' && Links(Infos(now + [el])) == Links(r')
  {
    var (r, rest) := SlavePass(m, Infos(s), i, MASK);
    assert Infos(s)[i] == el.val && Infos([el]) == [el.val] && |Infos(now)| == |now|;
    FindLinks(r, Infos(now), el.val.link);
    StepLinks(r, rest, el.val, MASK, Find(r, el.val.link), SlavePass(m, Infos(s), i + 1, MASK));
    InfosAppend(kept, [el]);
    InfosAppend(now, [el]);
    LinksAppend(Infos(now), [el.val]);
  }

  /** DL_SEARCH with mLst_DL_Match_SymbolicLink in the master list as it is now. */
  method SearchMaster(master: List<Info>, link: string) returns (found: bool)
    requires master.Valid()
    ensures found <==> Find(Infos(master.nodes), link) < |master.nodes|
  {
    var node, k := master.Search((n: Node<Info>) => P.Matches(link, n.val.link));
    FindIs(Infos(master.nodes), link, k);
    found := node != null;
  }

  /** One callback: the next node is fetched before. */
  method VisitSlave(slave: List<Info>, master: List<Info>, el: Node<Info>, ghost all: set<Node<Info>>,
                    ghost m: seq<Info>, ghost s: seq<Node<Info>>, ghost kept: seq<Node<Info>>, ghost i: nat)
    returns (tmp: Node?<Info>, ghost kept': seq<Node<Info>>)
    requires i < |s| && Passing(slave, master, all, m, s, kept, i, el)
    modifies slave, master, all
    ensures Passing(slave, master, all, m, s, kept', i + 1, tmp)
  {
    var found := SearchMaster(master, el.val.link);
    StepPassing(m, s, i, kept, master.nodes, el);
    tmp := Visit(slave, master, el, !found, all, s, kept, i);
    kept' := if found then kept + [el] else kept;
  }

  lemma PassBegins(m: seq<Info>, s: seq<Node<Info>>, kept: seq<Node<Info>>, i: nat)
    requires kept == [] && i == 0
    ensures kept + s[i..] == s && SlavePass(Prepare(m), Infos(s), i, MASK).1 == Infos(kept)
    ensures Links(SlavePass(Prepare(m), Infos(s), i, MASK).0) == Links(m)
  {
    assert Links(Prepare(m)) == Links(m);
  }

  lemma PassEnds(m: seq<Info>, s: seq<Node<Info>>, kept: seq<Node<Info>>, i: nat)
    requires i == |s|
    ensures kept + s[i..] == kept
    ensures SlavePass(Prepare(m), Infos(s), i, MASK).1 == Sync(m, Infos(s), MASK).1
    ensures Links(SlavePass(Prepare(m), Infos(s), i, MASK).0) == Links(Sync(m, Infos(s), MASK).0)
  {
    var (r, rest) := SlavePass(Prepare(m), Infos(s), i, MASK);
    PassLinks(r, rest);
  }

  lemma PassLinks(r: seq<Info>, rest: seq<Info>)
    ensures Links(MasterPass(r, rest, MASK)) == Links(r)
  {
  }

  /** The enumeration of the slave list with a callback that searches the growing master list and moves
      what it does not find (LstK_DetachInfo and LstK_AttachInfo at lines 356 and 357 of
      lusbk_device_list.c), for any links: it leaves the slave list of a full-mask sync, and the
      nodes of the master list in the order of its result. */
  method MoveNews(slave: List<Info>, master: List<Info>, ghost all: set<Node<Info>>)
    requires Apart(slave, master) && Within(slave, master, all)
    modifies slave, master, all
    ensures Apart(slave, master)
    ensures Infos(slave.nodes) == Sync(old(Infos(master.nodes)), old(Infos(slave.nodes)), MASK).1
    ensures Links(Infos(master.nodes)) == Links(Sync(old(Infos(master.nodes)), old(Infos(slave.nodes)), MASK).0)
  {
    ghost var s, kept, i, m := slave.nodes, [], 0, Infos(master.nodes);
    var el := slave.head;
    PassBegins(m, s, kept, i);
    while el != null
      invariant i <= |s| && (el == null ==> i == |s|)
      invariant Passing(slave, master, all, Prepare(m), s, kept, i, el)
      decreases |s| - i
    {
      el, kept := VisitSlave(slave, master, el, all, Prepare(m), s, kept, i);
      i := i + 1;
    }
    PassEnds(m, s, kept, i);
  }
}
