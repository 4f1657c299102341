/** LstK_Sync of lusbk_device_list.c: a slave device list is merged into a master list. */
module DeviceSync {
  import opened Basics
  import opened PathMatch

  datatype Flag = Unchanged | Added | Removed | ConnectChange

  /** A device info: its symbolic link, device path, Connected and SyncFlags. */
  datatype Info = Info(link: string, path: string, connected: bool, flags: set<Flag>)

  const MASK: set<Flag> := {Unchanged, Added, Removed, ConnectChange}

  /** DL_SEARCH with mLst_DL_Match_SymbolicLink: the link of the list element is the pattern. */
  function Find(s: seq<Info>, link: string): (k: nat)
    ensures k <= |s| && (k < |s| ==> Matches(link, s[k].link)) && forall j :: 0 <= j < k ==> !Matches(link, s[j].link)
  {
    if s == [] then 0 else if Matches(link, s[0].link) then 0 else 1 + Find(s[1..], link)
  }

  // ---------------------------------------------------------------- the callbacks

  /** The element is in both lists. */
  function Updated(m: Info, s: Info, mask: set<Flag>): Info {
    if s.connected != m.connected then
      m.(path := s.path, connected := s.connected,
         flags := m.flags + {ConnectChange, if s.connected then Added else Removed} * mask)
    else m.(path := s.path, flags := {Unchanged})
  }

  /** The element is in the master list only. */
  function Gone(m: Info, mask: set<Flag>): Info {
    if m.connected then
      var flags := m.flags + {Removed} * mask;
      m.(connected := false, flags := if flags == {} then {Unchanged} else flags)
    else m.(flags := {Unchanged})
  }

  /** The element was in the slave list only and moves. */
  function New(s: Info): Info { s.(flags := if s.connected then {Added} else {Unchanged}) }

  function Prepared(m: Info): Info { m.(flags := {}) }

  /** l_DevEnum_Sync_Slave for the slave element `s`; the second list is what stays in the slave. */
  function SlaveStep(master: seq<Info>, kept: seq<Info>, s: Info, mask: set<Flag>): (seq<Info>, seq<Info>) {
    var k := Find(master, s.link);
    if k < |master| then
      (if master[k].flags != {} then master else master[k := Updated(master[k], s, mask)], kept + [s])
    else if Added in mask then (master + [New(s)], kept)
    else (master, kept + [s])
  }

  function SlavePass(master: seq<Info>, slave: seq<Info>, k: nat, mask: set<Flag>): (seq<Info>, seq<Info>)
    requires k <= |slave|
  {
    if k == 0 then (master, [])
    else
      var (m, kept) := SlavePass(master, slave, k - 1, mask);
      SlaveStep(m, kept, slave[k - 1], mask)
  }

  /** l_DevEnum_Sync_Master for the master element `m`. */
  function MasterStep(m: Info, slave: seq<Info>, mask: set<Flag>): Info {
    if m.flags != {} then m
    else
      var k := Find(slave, m.link);
      if k < |slave| then Updated(m, slave[k], mask) else Gone(m, mask)
  }

  function Prepare(master: seq<Info>): seq<Info> { seq(|master|, i requires 0 <= i < |master| => Prepared(master[i])) }

  function MasterPass(master: seq<Info>, slave: seq<Info>, mask: set<Flag>): seq<Info> {
    seq(|master|, i requires 0 <= i < |master| => MasterStep(master[i], slave, mask))
  }

  /** The three enumerations of LstK_Sync. */
  function Sync(master: seq<Info>, slave: seq<Info>, mask: set<Flag>): (seq<Info>, seq<Info>) {
    var (m, kept) := SlavePass(Prepare(master), slave, |slave|, mask);
    (MasterPass(m, kept, mask), kept)
  }

  // ---------------------------------------------------------------- the code

  class Lists {
    var master: seq<Info>
    var slave: seq<Info>

    method Search(s: seq<Info>, link: string) returns (k: nat)
      ensures k == Find(s, link)
    {
      k := 0;
      while k < |s| && !Matches(link, s[k].link)
        invariant k <= |s| && forall j :: 0 <= j < k ==> !Matches(link, s[j].link)
      {
        k := k + 1;
      }
      FindIs(s, link, k);
    }

    method SyncPrep()
      modifies `master
      ensures master == Prepare(old(master))
    {
      var i := 0;
      while i < |master|
        invariant i <= |master| == |old(master)|
        invariant forall j :: 0 <= j < |master| ==>
                    master[j] == if j < i then Prepared(old(master)[j]) else old(master)[j]
      {
        master := master[i := master[i].(flags := {})];
        i := i + 1;
      }
    }

    /** One call of l_DevEnum_Sync_Slave, for the slave element at position `i`. */
    method SyncSlave(i: nat, mask: set<Flag>, ghost before: seq<Info>, ghost at: Info, ghost rest: seq<Info>)
      returns (next: nat, ghost kept: seq<Info>)
      requires i == |before| && slave == before + ([at] + rest)
      modifies this
      ensures (master, kept) == SlaveStep(old(master), before, at, mask)
      ensures slave == kept + rest && next == |kept|
    {
      var s := slave[i];
      assert s == at && slave[..i] == before && slave[i + 1..] == rest;
      assert slave == (before + [s]) + rest;
      var k := Search(master, s.link);
      next := i + 1;
      kept := before + [s];
      if k < |master| {
        var m := master[k];
        if m.flags == {} {
          m := m.(path := s.path);
          if s.connected != m.connected {
            m := m.(flags := m.flags + {ConnectChange} * mask);
            m := m.(connected := s.connected);
            if s.connected {
              m := m.(flags := m.flags + {Added} * mask);
            } else {
              m := m.(flags := m.flags + {Removed} * mask);
            }
          } else {
            m := m.(flags := {Unchanged});
          }
          assert m == Updated(master[k], s, mask);
          master := master[k := m];
        }
      } else if Added in mask {
        // LstK_DetachInfo, LstK_AttachInfo
        slave := slave[..i] + slave[i + 1..];
        master := master + [s.(flags := if s.connected then {Added} else {Unchanged})];
        next := i;
        kept := before;
      }
    }

    /** One call of l_DevEnum_Sync_Master, for the master element at position `i`. */
    method SyncMaster(i: nat, mask: set<Flag>)
      requires i < |master|
      modifies `master
      ensures master == old(master)[i := MasterStep(old(master)[i], slave, mask)]
    {
      var m := master[i];
      if m.flags != {} { return; }
      var k := Search(slave, m.link);
      if k < |slave| {
        var s := slave[k];
        m := m.(path := s.path);
        if s.connected != m.connected {
          m := m.(flags := m.flags + {ConnectChange} * mask);
          m := m.(connected := s.connected);
          if s.connected {
            m := m.(flags := m.flags + {Added} * mask);
          } else {
            m := m.(flags := m.flags + {Removed} * mask);
          }
        } else {
          m := m.(flags := {Unchanged});
        }
        assert m == Updated(master[i], s, mask);
      } else if m.connected {
        m := m.(flags := m.flags + {Removed} * mask);
        if m.flags == {} { m := m.(flags := {Unchanged}); }
        m := m.(connected := false);
      } else {
        m := m.(flags := {Unchanged});
      }
      master := master[i := m];
    }

    /** The enumeration of the slave list, from which elements may move while it runs. */
    method SyncSlaves(mask: set<Flag>)
      modifies this
      ensures (master, slave) == SlavePass(old(master), old(slave), |old(slave)|, mask)
    {
      ghost var was, all, kept: seq<Info>, done := master, slave, [], 0;
      var i := 0;
      while i < |slave|
        invariant done <= |all| && i == |kept| && slave == kept + all[done..]
        invariant (master, kept) == SlavePass(was, all, done, mask)
        decreases |all| - done
      {
        Split(slave, kept, all, done);
        i, kept := SyncSlave(i, mask, kept, all[done], all[done + 1..]);
        done := done + 1;
      }
      AllSplit(slave, kept, all, done);
    }

    /** The second enumeration of the master list. */
    method SyncMasters(mask: set<Flag>)
      modifies `master
      ensures master == MasterPass(old(master), slave, mask)
    {
      ghost var m := master;
      var i := 0;
      while i < |master|
        invariant i <= |master| == |m|
        invariant forall j :: 0 <= j < |m| ==> master[j] == if j < i then MasterStep(m[j], slave, mask) else m[j]
      {
        SyncMaster(i, mask);
        i := i + 1;
      }
    }

    /** LstK_Sync; an empty mask stands for the full one. */
    method LstKSync(flags: set<Flag>)
      modifies this
      ensures (master, slave) == Sync(old(master), old(slave), if flags == {} then MASK else flags)
    {
      var mask := if flags == {} then MASK else flags;
      SyncPrep();
      SyncSlaves(mask);
      SyncMasters(mask);
    }
  }

  lemma Split(slave: seq<Info>, kept: seq<Info>, all: seq<Info>, done: nat)
    requires done <= |all| && slave == kept + all[done..] && |kept| < |slave|
    ensures done < |all| && slave == kept + ([all[done]] + all[done + 1..])
  {
    assert all[done..] == [all[done]] + all[done + 1..];
  }

  lemma AllSplit(slave: seq<Info>, kept: seq<Info>, all: seq<Info>, done: nat)
    requires done <= |all| && slave == kept + all[done..] && |kept| >= |slave|
    ensures done == |all| && slave == kept
  {
    assert |slave| == |kept| + |all[done..]|;
  }

  lemma {:induction false} FindIs(s: seq<Info>, link: string, k: nat)
    requires k <= |s| && (forall j :: 0 <= j < k ==> !Matches(link, s[j].link))
             && (k < |s| ==> Matches(link, s[k].link))
    ensures Find(s, link) == k
  {
    if k > 0 { FindIs(s[1..], link, k - 1); }
  }

  // ---------------------------------------------------------------- a merge by key

  /** No link matches another one, so a pattern search finds an equal link. */
  ghost predicate Separated(links: set<string>) {
    forall x, y :: x in links && y in links ==> (Matches(x, y) <==> x == y)
  }

  ghost predicate Listed(s: seq<Info>, links: set<string>) { forall i :: 0 <= i < |s| ==> s[i].link in links }

  ghost predicate DistinctLinks(s: seq<Info>) { forall i, j :: 0 <= i < j < |s| ==> s[i].link != s[j].link }

  /** The position of the element with this link, or the length. */
  function Index(s: seq<Info>, link: string): (k: nat)
    ensures k <= |s| && (k < |s| ==> s[k].link == link) && forall j :: 0 <= j < k ==> s[j].link != link
  {
    if s == [] then 0 else if s[0].link == link then 0 else 1 + Index(s[1..], link)
  }

  predicate Has(s: seq<Info>, link: string) { Index(s, link) < |s| }

  lemma {:induction false} IndexIs(s: seq<Info>, link: string, k: nat)
    requires k <= |s| && (forall j :: 0 <= j < k ==> s[j].link != link) && (k < |s| ==> s[k].link == link)
    ensures Index(s, link) == k
  {
    if k > 0 { IndexIs(s[1..], link, k - 1); }
  }

  lemma FindIndex(s: seq<Info>, link: string, links: set<string>)
    requires Separated(links) && Listed(s, links) && link in links
    ensures Find(s, link) == Index(s, link)
  {
    var k := Find(s, link);
    forall j | 0 <= j < |s| ensures Matches(link, s[j].link) <==> link == s[j].link { assert s[j].link in links; }
    IndexIs(s, link, k);
  }

  /** What becomes of a master element, given the slave element with its link. */
  function Merged(m: Info, s: Option<Info>, mask: set<Flag>): Info {
    var changes := match s
                   case Some(x) => if x.connected == m.connected then {}
                                   else {ConnectChange, if x.connected then Added else Removed}
                   case None => if m.connected then {Removed} else {};
    var flags := if changes * mask == {} then {Unchanged} else changes * mask;
    match s
    case Some(x) => Info(m.link, x.path, x.connected, flags)
    case None => Info(m.link, m.path, false, flags)
  }

  function Lookup(s: seq<Info>, link: string): Option<Info> {
    if Has(s, link) then Some(s[Index(s, link)]) else None
  }

  /** The slave elements that are new to the master, in their order. */
  function News(master: seq<Info>, slave: seq<Info>): seq<Info> {
    if slave == [] then []
    else
      var s := slave[|slave| - 1];
      News(master, slave[..|slave| - 1]) + if Has(master, s.link) then [] else [New(s)]
  }

  /** The slave elements that the master has. */
  function Known(master: seq<Info>, slave: seq<Info>): seq<Info> {
    if slave == [] then []
    else
      var s := slave[|slave| - 1];
      Known(master, slave[..|slave| - 1]) + if Has(master, s.link) then [s] else []
  }

  function MergedOld(master: seq<Info>, slave: seq<Info>, mask: set<Flag>): seq<Info> {
    seq(|master|, i requires 0 <= i < |master| => Merged(master[i], Lookup(slave, master[i].link), mask))
  }

  // ---------------------------------------------------------------- the slave pass

  /** A master element after the slave pass. */
  function Half(m: Info, s: Option<Info>, mask: set<Flag>): Info {
    match s case None => Prepared(m) case Some(x) => Updated(Prepared(m), x, mask)
  }

  function Halves(master: seq<Info>, slave: seq<Info>, mask: set<Flag>): seq<Info> {
    seq(|master|, i requires 0 <= i < |master| => Half(master[i], Lookup(slave, master[i].link), mask))
  }

  lemma {:induction false} IndexAppend(a: seq<Info>, b: seq<Info>, link: string)
    ensures Index(a + b, link) == if Has(a, link) then Index(a, link) else |a| + Index(b, link)
  {
    IndexIs(a + b, link, if Has(a, link) then Index(a, link) else |a| + Index(b, link));
  }

  lemma LookupNext(t: seq<Info>, s: Info, link: string)
    ensures Lookup(t + [s], link) == if Has(t, link) then Lookup(t, link) else if s.link == link then Some(s) else None
  {
    IndexAppend(t, [s], link);
  }

  lemma Init<E>(s: seq<E>, x: E)
    ensures (s + [x])[..|s + [x]| - 1] == s && (s + [x])[|s + [x]| - 1] == x
  {
  }

  lemma HalvesIndex(master: seq<Info>, t: seq<Info>, mask: set<Flag>, link: string)
    ensures Index(Halves(master, t, mask), link) == Index(master, link)
  {
    var h := Halves(master, t, mask);
    forall i | 0 <= i < |master| ensures h[i].link == master[i].link {}
    IndexIs(h, link, Index(master, link));
  }

  /** An element the master has, and the slave had not so far, is updated in its place. */
  lemma HalvesKnown(master: seq<Info>, t: seq<Info>, s: Info, mask: set<Flag>, i: nat)
    requires DistinctLinks(master) && i < |master| && i == Index(master, s.link) && !Has(t, s.link)
    ensures Halves(master, t, mask)[i] == Prepared(master[i])
    ensures Halves(master, t, mask)[i := Updated(Prepared(master[i]), s, mask)] == Halves(master, t + [s], mask)
  {
    var h, h' := Halves(master, t, mask), Halves(master, t + [s], mask);
    forall j | 0 <= j < |master| ensures h'[j] == if j == i then Updated(Prepared(master[i]), s, mask) else h[j] {
      LookupNext(t, s, master[j].link);
      if j != i { assert master[j].link != s.link; }
    }
  }

  lemma HalvesNew(master: seq<Info>, t: seq<Info>, s: Info, mask: set<Flag>)
    requires !Has(master, s.link)
    ensures Halves(master, t, mask) == Halves(master, t + [s], mask)
  {
    forall j | 0 <= j < |master|
      ensures Half(master[j], Lookup(t, master[j].link), mask) == Half(master[j], Lookup(t + [s], master[j].link), mask)
    {
      LookupNext(t, s, master[j].link);
      assert master[j].link != s.link;
    }
  }

  lemma {:induction false} NewsAbsent(master: seq<Info>, t: seq<Info>, link: string)
    requires !Has(t, link)
    ensures !Has(News(master, t), link)
  {
    if t != [] {
      var init, s := t[..|t| - 1], t[|t| - 1];
      assert forall i :: 0 <= i < |t| ==> t[i].link != link;
      IndexIs(init, link, |init|);
      NewsAbsent(master, init, link);
      IndexAppend(News(master, init), [New(s)], link);
      assert News(master, init) + [] == News(master, init);
    }
  }

  lemma NextLists(master: seq<Info>, t: seq<Info>, s: Info)
    ensures News(master, t + [s]) == if Has(master, s.link) then News(master, t) else News(master, t) + [New(s)]
    ensures Known(master, t + [s]) == if Has(master, s.link) then Known(master, t) + [s] else Known(master, t)
  {
    Init(t, s);
    assert News(master, t) + [] == News(master, t) && Known(master, t) + [] == Known(master, t);
  }

  /** The lists once the slave elements `t` are done. */
  function Passed(master: seq<Info>, t: seq<Info>, mask: set<Flag>): (seq<Info>, seq<Info>) {
    if Added in mask then (Halves(master, t, mask) + News(master, t), Known(master, t))
    else (Halves(master, t, mask), t)
  }

  ghost predicate AllListed(master: seq<Info>, slave: seq<Info>, links: set<string>) {
    Separated(links) && Listed(master, links) && Listed(slave, links) && DistinctLinks(master) && DistinctLinks(slave)
  }

  lemma {:induction false} NewsListed(master: seq<Info>, t: seq<Info>, links: set<string>)
    requires Listed(t, links)
    ensures Listed(News(master, t), links)
  {
    if t != [] { NewsListed(master, t[..|t| - 1], links); }
  }

  lemma HalvesFind(master: seq<Info>, t: seq<Info>, mask: set<Flag>, link: string, links: set<string>)
    requires Separated(links) && Listed(master, links) && link in links
    ensures Find(Halves(master, t, mask), link) == Index(master, link)
  {
    var h := Halves(master, t, mask);
    forall i | 0 <= i < |h| ensures h[i].link in links { assert h[i].link == master[i].link; }
    HalvesIndex(master, t, mask, link);
    FindIndex(h, link, links);
  }

  lemma BothFind(h: seq<Info>, n: seq<Info>, link: string, links: set<string>)
    requires Separated(links) && Listed(h, links) && Listed(n, links) && link in links && !Has(n, link)
    ensures Find(h + n, link) == if Has(h, link) then Index(h, link) else |h + n|
  {
    IndexAppend(h, n, link);
    FindIndex(h + n, link, links);
  }

  lemma PassedIndex(master: seq<Info>, t: seq<Info>, mask: set<Flag>, link: string, links: set<string>)
    requires Separated(links) && Listed(master, links) && Listed(t, links) && link in links && !Has(t, link)
    ensures Find(Passed(master, t, mask).0, link) ==
            if Has(master, link) then Index(master, link) else |Passed(master, t, mask).0|
  {
    if Added in mask {
      var h, n := Halves(master, t, mask), News(master, t);
      NewsAbsent(master, t, link);
      NewsListed(master, t, links);
      HalvesListed(master, t, mask, links);
      HalvesIndex(master, t, mask, link);
      BothFind(h, n, link, links);
    } else {
      HalvesFind(master, t, mask, link, links);
    }
  }

  lemma HalvesListed(master: seq<Info>, t: seq<Info>, mask: set<Flag>, links: set<string>)
    requires Listed(master, links)
    ensures Listed(Halves(master, t, mask), links)
  {
    var h := Halves(master, t, mask);
    forall i | 0 <= i < |h| ensures h[i].link in links { assert h[i].link == master[i].link; }
  }

  lemma Grow<E>(h: seq<E>, n: seq<E>, i: nat, u: E, x: E)
    ensures (h + n) + [x] == h + (n + [x])
    ensures i < |h| ==> (h + n)[i] == h[i] && (h + n)[i := u] == h[i := u] + n
  {
  }

  lemma PassKnown(master: seq<Info>, t: seq<Info>, s: Info, mask: set<Flag>, links: set<string>)
    requires Separated(links) && Listed(master, links) && Listed(t, links) && s.link in links
    requires DistinctLinks(master) && !Has(t, s.link) && Has(master, s.link)
    ensures SlaveStep(Passed(master, t, mask).0, Passed(master, t, mask).1, s, mask) == Passed(master, t + [s], mask)
  {
    var i := Index(master, s.link);
    PassedIndex(master, t, mask, s.link, links);
    NextLists(master, t, s);
    HalvesKnown(master, t, s, mask, i);
    Grow(Halves(master, t, mask), News(master, t), i, Updated(Prepared(master[i]), s, mask), s);
  }

  lemma PassNew(master: seq<Info>, t: seq<Info>, s: Info, mask: set<Flag>, links: set<string>)
    requires Separated(links) && Listed(master, links) && Listed(t, links) && s.link in links
    requires DistinctLinks(master) && !Has(t, s.link) && !Has(master, s.link)
    ensures SlaveStep(Passed(master, t, mask).0, Passed(master, t, mask).1, s, mask) == Passed(master, t + [s], mask)
  {
    PassedIndex(master, t, mask, s.link, links);
    NextLists(master, t, s);
    HalvesNew(master, t, s, mask);
    Grow(Halves(master, t, mask), News(master, t), 0, s, New(s));
  }

  lemma PassNone(master: seq<Info>, slave: seq<Info>, mask: set<Flag>)
    ensures SlavePass(Prepare(master), slave, 0, mask) == Passed(master, [], mask)
  {
    assert Halves(master, [], mask) == Prepare(master);
    assert Prepare(master) + [] == Prepare(master);
  }

  lemma {:induction false} SlavePassIs(master: seq<Info>, slave: seq<Info>, k: nat, t: seq<Info>, mask: set<Flag>,
                                       links: set<string>)
    requires k <= |slave| && t == slave[..k] && AllListed(master, slave, links)
    ensures SlavePass(Prepare(master), slave, k, mask) == Passed(master, t, mask)
  {
    if k == 0 {
      PassNone(master, slave, mask);
    } else {
      var done := k - 1;
      var init := slave[..done];
      SlavePassIs(master, slave, done, init, mask, links);
      PassNext(master, slave, done, init, t, mask, links, SlavePass(Prepare(master), slave, done, mask));
    }
  }

  lemma PassNext(master: seq<Info>, slave: seq<Info>, done: nat, init: seq<Info>, t: seq<Info>, mask: set<Flag>,
                 links: set<string>, before: (seq<Info>, seq<Info>))
    requires done < |slave| && init == slave[..done] && t == slave[..done + 1] && AllListed(master, slave, links)
    requires before == Passed(master, init, mask)
    ensures SlaveStep(before.0, before.1, slave[done], mask) == Passed(master, t, mask)
  {
    var s := slave[done];
    assert t == init + [s];
    IndexIs(init, s.link, done);
    PassOne(master, init, s, mask, links, before);
  }

  lemma PassOne(master: seq<Info>, t: seq<Info>, s: Info, mask: set<Flag>, links: set<string>,
                before: (seq<Info>, seq<Info>))
    requires Separated(links) && Listed(master, links) && Listed(t, links) && s.link in links
    requires DistinctLinks(master) && !Has(t, s.link) && before == Passed(master, t, mask)
    ensures SlaveStep(before.0, before.1, s, mask) == Passed(master, t + [s], mask)
  {
    if Has(master, s.link) {
      PassKnown(master, t, s, mask, links);
    } else {
      PassNew(master, t, s, mask, links);
    }
  }

  // ---------------------------------------------------------------- the master pass

  lemma {:induction false} KnownLookup(master: seq<Info>, t: seq<Info>, link: string)
    requires Has(master, link)
    ensures Lookup(Known(master, t), link) == Lookup(t, link)
  {
    if t != [] {
      var init, s := t[..|t| - 1], t[|t| - 1];
      assert t == init + [s];
      KnownLookup(master, init, link);
      NextLists(master, init, s);
      LookupNext(init, s, link);
      LookupNext(Known(master, init), s, link);
    }
  }

  lemma {:induction false} KnownListed(master: seq<Info>, t: seq<Info>, links: set<string>)
    requires Listed(t, links)
    ensures Listed(Known(master, t), links)
  {
    if t != [] { KnownListed(master, t[..|t| - 1], links); }
  }

  /** The second pass completes what the mask hid from the first one. */
  lemma HalfMerged(m: Info, slave: seq<Info>, kept: seq<Info>, mask: set<Flag>, links: set<string>)
    requires Separated(links) && Listed(kept, links) && m.link in links && Lookup(kept, m.link) == Lookup(slave, m.link)
    ensures MasterStep(Half(m, Lookup(slave, m.link), mask), kept, mask) == Merged(m, Lookup(slave, m.link), mask)
  {
    FindIndex(kept, m.link, links);
  }

  lemma {:induction false} NewsDone(master: seq<Info>, t: seq<Info>, kept: seq<Info>, mask: set<Flag>)
    ensures forall i :: 0 <= i < |News(master, t)| ==> MasterStep(News(master, t)[i], kept, mask) == News(master, t)[i]
  {
    if t != [] { NewsDone(master, t[..|t| - 1], kept, mask); }
  }

  lemma HalvesMerged(master: seq<Info>, slave: seq<Info>, kept: seq<Info>, mask: set<Flag>, links: set<string>)
    requires Separated(links) && Listed(kept, links) && Listed(master, links)
    requires forall i :: 0 <= i < |master| ==> Lookup(kept, master[i].link) == Lookup(slave, master[i].link)
    ensures MasterPass(Halves(master, slave, mask), kept, mask) == MergedOld(master, slave, mask)
  {
    var r := MasterPass(Halves(master, slave, mask), kept, mask);
    forall i | 0 <= i < |master| ensures r[i] == Merged(master[i], Lookup(slave, master[i].link), mask) {
      HalfMerged(master[i], slave, kept, mask, links);
    }
  }

  /** With links that no other link matches and that are distinct in each list, LstK_Sync is a merge
      by link: every master element takes path and Connected from the slave element with its link,
      or is disconnected, and is flagged with what changed as far as the mask shows it; the slave
      elements with new links move, in their order, if the mask asks for them. */
  lemma SyncMerges(master: seq<Info>, slave: seq<Info>, mask: set<Flag>, links: set<string>)
    requires AllListed(master, slave, links)
    ensures Sync(master, slave, mask) ==
            if Added in mask then (MergedOld(master, slave, mask) + News(master, slave), Known(master, slave))
            else (MergedOld(master, slave, mask), slave)
  {
    assert slave[..|slave|] == slave;
    SlavePassIs(master, slave, |slave|, slave, mask, links);
    var kept := Passed(master, slave, mask).1;
    KnownListed(master, slave, links);
    forall i | 0 <= i < |master| ensures Lookup(kept, master[i].link) == Lookup(slave, master[i].link) {
      KnownLookup(master, slave, master[i].link);
    }
    HalvesMerged(master, slave, kept, mask, links);
    NewsDone(master, slave, kept, mask);
    MasterAppend(Halves(master, slave, mask), News(master, slave), kept, mask);
  }

  lemma MasterAppend(h: seq<Info>, n: seq<Info>, kept: seq<Info>, mask: set<Flag>)
    requires forall i :: 0 <= i < |n| ==> MasterStep(n[i], kept, mask) == n[i]
    ensures MasterPass(h + n, kept, mask) == MasterPass(h, kept, mask) + n
  {
    var r := MasterPass(h + n, kept, mask);
    forall i | |h| <= i < |h + n| ensures r[i] == n[i - |h|] { assert (h + n)[i] == n[i - |h|]; }
  }

  // ---------------------------------------------------------------- as a map

  function LookupMerged(m: Option<Info>, s: Option<Info>): Option<Info> {
    match m
    case Some(x) => Some(Merged(x, s, MASK))
    case None => match s case Some(y) => Some(New(y)) case None => None
  }

  lemma {:induction false} NewsLookup(master: seq<Info>, t: seq<Info>, link: string)
    ensures Lookup(News(master, t), link) ==
            if Has(master, link) || !Has(t, link) then None else Some(New(Lookup(t, link).value))
  {
    if t != [] {
      var init, s := t[..|t| - 1], t[|t| - 1];
      assert t == init + [s];
      NewsLookup(master, init, link);
      NextLists(master, init, s);
      LookupNext(init, s, link);
      LookupNext(News(master, init), New(s), link);
    }
  }

  lemma MergedOldLookup(master: seq<Info>, slave: seq<Info>, mask: set<Flag>, link: string)
    ensures Lookup(MergedOld(master, slave, mask), link) ==
            match Lookup(master, link) case Some(m) => Some(Merged(m, Lookup(slave, link), mask)) case None => None
  {
    var r := MergedOld(master, slave, mask);
    forall i | 0 <= i < |master| ensures r[i].link == master[i].link {}
    IndexIs(r, link, Index(master, link));
  }

  lemma {:induction false} NewsDistinct(master: seq<Info>, t: seq<Info>)
    requires DistinctLinks(t)
    ensures DistinctLinks(News(master, t))
  {
    if t != [] {
      var init, s := t[..|t| - 1], t[|t| - 1];
      NewsDistinct(master, init);
      IndexIs(init, s.link, |init|);
      NewsAbsent(master, init, s.link);
    }
  }

  lemma DistinctAppend(a: seq<Info>, b: seq<Info>)
    requires DistinctLinks(a) && DistinctLinks(b) && forall j :: 0 <= j < |b| ==> !Has(a, b[j].link)
    ensures DistinctLinks(a + b)
  {
    var r := a + b;
    forall i, j | 0 <= i < j < |r| ensures r[i].link != r[j].link {
      if i < |a| <= j { assert r[j] == b[j - |a|] && !Has(a, b[j - |a|].link); }
    }
  }

  lemma {:induction false} NewsForeign(master: seq<Info>, t: seq<Info>)
    ensures forall j :: 0 <= j < |News(master, t)| ==> !Has(master, News(master, t)[j].link)
  {
    if t != [] { NewsForeign(master, t[..|t| - 1]); }
  }

  lemma MergedDistinct(master: seq<Info>, slave: seq<Info>, mask: set<Flag>, links: set<string>)
    requires DistinctLinks(master) && DistinctLinks(slave) && Listed(master, links) && Listed(slave, links)
    ensures DistinctLinks(MergedOld(master, slave, mask) + News(master, slave))
    ensures Listed(MergedOld(master, slave, mask) + News(master, slave), links)
  {
    var a, b := MergedOld(master, slave, mask), News(master, slave);
    forall i | 0 <= i < |master| ensures a[i].link == master[i].link {}
    NewsDistinct(master, slave);
    NewsForeign(master, slave);
    forall j | 0 <= j < |b| ensures !Has(a, b[j].link) { MergedOldLookup(master, slave, mask, b[j].link); }
    DistinctAppend(a, b);
    NewsListed(master, slave, links);
  }

  lemma MergedLookup(master: seq<Info>, slave: seq<Info>, link: string)
    ensures Lookup(MergedOld(master, slave, MASK) + News(master, slave), link)
            == LookupMerged(Lookup(master, link), Lookup(slave, link))
  {
    MergedOldLookup(master, slave, MASK, link);
    NewsLookup(master, slave, link);
    IndexAppend(MergedOld(master, slave, MASK), News(master, slave), link);
  }

  /** What the full mask makes of an entry, written out. */
  lemma FullEntry(m: Option<Info>, s: Option<Info>, link: string)
    requires (m.Some? ==> m.value.link == link) && (s.Some? ==> s.value.link == link)
    ensures LookupMerged(m, s) ==
            match (m, s)
            case (None, None) => None
            case (None, Some(y)) =>
              Some(Info(link, y.path, y.connected, if y.connected then {Added} else {Unchanged}))
            case (Some(x), None) => Some(Info(link, x.path, false, if x.connected then {Removed} else {Unchanged}))
            case (Some(x), Some(y)) =>
              Some(Info(link, y.path, y.connected,
                        if y.connected == x.connected then {Unchanged}
                        else {ConnectChange, if y.connected then Added else Removed}))
  {
    if s.Some? {
      var both := {ConnectChange, if s.value.connected then Added else Removed};
      assert both * MASK == both && ConnectChange in both;
    }
    var none: set<Flag> := {};
    assert {Removed} * MASK == {Removed} && Removed in {Removed} && none * MASK == none;
  }

  /** The flags of a merged element, flag by flag. */
  lemma MergedFlags(m: Info, s: Option<Info>, mask: set<Flag>)
    ensures var x, now := Merged(m, s, mask), s.Some? && s.value.connected;
            && x.connected == now && x.link == m.link && x.path == (if s.Some? then s.value.path else m.path)
            && (Added in x.flags <==> Added in mask && s.Some? && !m.connected && now)
            && (Removed in x.flags <==> Removed in mask && m.connected && !now)
            && (ConnectChange in x.flags <==> ConnectChange in mask && s.Some? && m.connected != now)
            && (Unchanged in x.flags <==> Added !in x.flags && Removed !in x.flags && ConnectChange !in x.flags)
  {
  }

  lemma {:induction false} NewsFrom(master: seq<Info>, slave: seq<Info>, k: nat) returns (j: nat)
    requires k < |News(master, slave)|
    ensures j < |slave| && !Has(master, slave[j].link)
    ensures News(master, slave)[k] == Info(slave[j].link, slave[j].path, slave[j].connected,
                                           if slave[j].connected then {Added} else {Unchanged})
  {
    var init := News(master, slave[..|slave| - 1]);
    if k < |init| { j := NewsFrom(master, slave[..|slave| - 1], k); } else { j := |slave| - 1; }
  }

  /** Every element after a sync with any mask, under the same condition as SyncMerges: an old one has its
      link, path and Connected from the slave element with its link or is disconnected, and each flag
      exactly when the mask shows it and the change is there; a new one is a slave element whose link
      the master did not have, flagged ADDED or UNCHANGED from its Connected. */
  lemma SyncEntry(master: seq<Info>, slave: seq<Info>, mask: set<Flag>, links: set<string>, i: nat)
    requires AllListed(master, slave, links) && i < |Sync(master, slave, mask).0|
    ensures var x := Sync(master, slave, mask).0[i];
            if i < |master| then
              var m, s := master[i], Lookup(slave, master[i].link);
              var now := s.Some? && s.value.connected;
              && x.link == m.link && x.path == (if s.Some? then s.value.path else m.path) && x.connected == now
              && (Added in x.flags <==> Added in mask && s.Some? && !m.connected && now)
              && (Removed in x.flags <==> Removed in mask && m.connected && !now)
              && (ConnectChange in x.flags <==> ConnectChange in mask && s.Some? && m.connected != now)
              && (Unchanged in x.flags <==> Added !in x.flags && Removed !in x.flags && ConnectChange !in x.flags)
            else
              && Added in mask
              && exists j: nat :: j < |slave| && !Has(master, slave[j].link)
                                  && x == Info(slave[j].link, slave[j].path, slave[j].connected,
                                               if slave[j].connected then {Added} else {Unchanged})
  {
    SyncMerges(master, slave, mask, links);
    if i < |master| {
      MergedFlags(master[i], Lookup(slave, master[i].link), mask);
    } else {
      var j := NewsFrom(master, slave, i - |master|);
    }
  }

  /** A full-mask LstK_Sync as a merge of maps from links to device infos: the keys are the union and
      stay distinct, and each entry is determined by the entries under its link. */
  lemma SyncIsMapMerge(master: seq<Info>, slave: seq<Info>, links: set<string>, link: string)
    requires AllListed(master, slave, links)
    ensures Lookup(Sync(master, slave, MASK).0, link) ==
            match (Lookup(master, link), Lookup(slave, link))
            case (None, None) => None
            case (None, Some(s)) =>
              Some(Info(link, s.path, s.connected, if s.connected then {Added} else {Unchanged}))
            case (Some(m), None) => Some(Info(link, m.path, false, if m.connected then {Removed} else {Unchanged}))
            case (Some(m), Some(s)) =>
              Some(Info(link, s.path, s.connected,
                        if s.connected == m.connected then {Unchanged}
                        else {ConnectChange, if s.connected then Added else Removed}))
    ensures DistinctLinks(Sync(master, slave, MASK).0) && Listed(Sync(master, slave, MASK).0, links)
  {
    SyncMerges(master, slave, MASK, links);
    MergedLookup(master, slave, link);
    FullEntry(Lookup(master, link), Lookup(slave, link), link);
    MergedDistinct(master, slave, MASK, links);
  }

  /** The merge by key that SyncMerges promises under its condition. */
  function Merge(master: seq<Info>, slave: seq<Info>): (seq<Info>, seq<Info>) {
    (MergedOld(master, slave, MASK) + News(master, slave), Known(master, slave))
  }

  lemma PairSync(m: Info, s: Info)
    ensures Sync([m], [s], MASK) ==
            if Matches(s.link, m.link) then ([MasterStep(Updated(Prepared(m), s, MASK), [s], MASK)], [s])
            else ([Gone(Prepared(m), MASK), New(s)], [])
  {
    var prep := Prepare([m]);
    assert prep == [Prepared(m)];
    assert SlavePass(prep, [s], 0, MASK) == (prep, []);
    assert SlavePass(prep, [s], 1, MASK) == SlaveStep(prep, [], s, MASK);
    PairFind(Prepared(m), s.link);
    var (now, kept) := SlaveStep(prep, [], s, MASK);
    if Matches(s.link, m.link) {
      assert now == [Updated(Prepared(m), s, MASK)] && kept == [s];
      assert MasterPass(now, kept, MASK) == [MasterStep(Updated(Prepared(m), s, MASK), [s], MASK)];
    } else {
      assert now == [Prepared(m), New(s)] && kept == [];
      assert MasterPass(now, kept, MASK) == [Gone(Prepared(m), MASK), New(s)];
    }
  }

  lemma PairFind(m: Info, link: string)
    ensures Find([m], link) == if Matches(link, m.link) then 0 else 1
  {
    FindIs([m], link, if Matches(link, m.link) then 0 else 1);
  }

  lemma PairMerge(m: Info, s: Info)
    ensures Merge([m], [s]) ==
            if s.link == m.link then ([Merged(m, Some(s), MASK)], [s]) else ([Merged(m, None, MASK), New(s)], [])
  {
    IndexIs([m], s.link, if s.link == m.link then 0 else 1);
    IndexIs([s], m.link, if s.link == m.link then 0 else 1);
    var r := MergedOld([m], [s], MASK);
    assert r == [Merged(m, if s.link == m.link then Some(s) else None, MASK)];
    assert [s][..0] == [];
    assert News([m], [s]) == if s.link == m.link then [] else [New(s)];
    assert Known([m], [s]) == if s.link == m.link then [s] else [];
    assert r + [] == r && r + [New(s)] == [r[0], New(s)];
  }

  /** With the full mask no element is left without flags by the slave pass. */
  lemma FullMask(m: Info, s: Info)
    ensures Updated(Prepared(m), s, MASK) == Merged(m, Some(s), MASK) && Updated(Prepared(m), s, MASK).flags != {}
    ensures Gone(Prepared(m), MASK) == Merged(m, None, MASK)
  {
    var changes := {ConnectChange, if s.connected then Added else Removed};
    assert changes * MASK == changes && ConnectChange in changes && Removed in {Removed} * MASK;
    assert {} + changes == changes;
  }

  /** For one device in each list, LstK_Sync merges by link if and only if the pattern match of the two
      links agrees with their equality. */
  lemma PairMerges(m: Info, s: Info)
    ensures Sync([m], [s], MASK) == Merge([m], [s]) <==> (Matches(s.link, m.link) <==> s.link == m.link)
  {
    PairSync(m, s);
    PairMerge(m, s);
    assert |Sync([m], [s], MASK).0| == if Matches(s.link, m.link) then 1 else 2;
    assert |Merge([m], [s]).0| == if s.link == m.link then 1 else 2;
    FullMask(m, s);
  }

  /** For lists with distinct links out of a set of links, LstK_Sync is always the merge by link if and
      only if no link of the set matches another one and each matches itself. */
  lemma SyncMergesExactly(links: set<string>)
    ensures Separated(links) <==>
            forall master, slave :: Listed(master, links) && Listed(slave, links)
                                    && DistinctLinks(master) && DistinctLinks(slave)
                                    ==> Sync(master, slave, MASK) == Merge(master, slave)
  {
    if Separated(links) {
      forall master, slave | Listed(master, links) && Listed(slave, links)
                             && DistinctLinks(master) && DistinctLinks(slave)
        ensures Sync(master, slave, MASK) == Merge(master, slave)
      {
        SyncMerges(master, slave, MASK, links);
      }
    } else {
      var x, y :| x in links && y in links && !(Matches(x, y) <==> x == y);
      var m, s := Info(y, "", true, {}), Info(x, "", true, {});
      PairMerges(m, s);
      assert Listed([m], links) && Listed([s], links) && DistinctLinks([m]) && DistinctLinks([s]);
    }
  }

  /** Distinct links are not enough: a link that another one begins with is taken for it, and the new
      device is lost. */
  lemma PrefixConfused(m: Info, s: Info)
    requires m.link == "a" && s.link == "ab"
    ensures Sync([m], [s], MASK) != Merge([m], [s]) && |Sync([m], [s], MASK).0| == 1
  {
    assert Matches("ab", "a") by { assert Matches("ab"[1..], "a"[1..]); }
    PairMerges(m, s);
    PairSync(m, s);
  }

  // ---------------------------------------------------------------- sequences of syncs

  /** The master list after a full-mask sync with each slave list in turn. */
  function Syncs(master: seq<Info>, slaves: seq<seq<Info>>): seq<Info> {
    if slaves == [] then master
    else Sync(Syncs(master, slaves[..|slaves| - 1]), slaves[|slaves| - 1], MASK).0
  }

  /** The changes reported for one link: true for ADDED, false for REMOVED. */
  function Changes(master: seq<Info>, slaves: seq<seq<Info>>, link: string): seq<bool> {
    if slaves == [] then []
    else
      var before := Changes(master, slaves[..|slaves| - 1], link);
      match Lookup(Syncs(master, slaves), link)
      case None => before
      case Some(x) => if x.flags == {Unchanged} then before else before + [Added in x.flags]
  }

  function IsConnected(m: Option<Info>): bool { m.Some? && m.value.connected }

  /** The flags say whether Connected changed from `was`, and how: ADDED or REMOVED, not both. */
  predicate Reported(x: Info, was: bool) {
    if x.connected == was then x.flags == {Unchanged}
    else x.flags != {Unchanged} && (Added in x.flags <==> x.connected) && (Removed in x.flags <==> !x.connected)
  }

  function Was(m: seq<Info>, i: nat): bool { i < |m| && m[i].connected }

  /** A position of the master list during a sync of `m`: it keeps its link, and is either still to be
      treated or reports its change; a new position counts as not connected before. */
  predicate Treated(m: seq<Info>, i: nat, x: Info) {
    && (i < |m| ==> x.link == m[i].link)
    && (Reported(x, Was(m, i)) || (x.flags == {} && i < |m| && x.connected == m[i].connected))
  }

  ghost predicate Underway(m: seq<Info>, r: seq<Info>) {
    |m| <= |r| && forall i :: 0 <= i < |r| ==> Treated(m, i, r[i])
  }

  /** A change without flags so far gets its own. */
  lemma UpdatedReports(x: Info, s: Info)
    requires x.flags == {}
    ensures Reported(Updated(x, s, MASK), x.connected) && Updated(x, s, MASK).link == x.link
  {
    var changes := {ConnectChange, if s.connected then Added else Removed};
    assert changes * MASK == changes && {} + changes == changes && ConnectChange in changes;
  }

  lemma GoneReports(x: Info)
    requires x.flags == {}
    ensures Reported(Gone(x, MASK), x.connected) && Gone(x, MASK).link == x.link
  {
    assert {} + {Removed} * MASK == {Removed} && Removed in {Removed};
  }

  lemma SlaveStepUnderway(m: seq<Info>, r: seq<Info>, kept: seq<Info>, s: Info)
    requires Underway(m, r)
    ensures Underway(m, SlaveStep(r, kept, s, MASK).0)
  {
    var k := Find(r, s.link);
    if k < |r| {
      assert Treated(m, k, r[k]);
      if r[k].flags == {} { UpdatedReports(r[k], s); }
    } else {
      var n := r + [New(s)];
      forall i | 0 <= i < |n| ensures Treated(m, i, n[i]) { assert i < |r| ==> Treated(m, i, r[i]); }
    }
  }

  lemma {:induction false} SlavePassUnderway(m: seq<Info>, slave: seq<Info>, k: nat)
    requires k <= |slave|
    ensures Underway(m, SlavePass(Prepare(m), slave, k, MASK).0)
  {
    if k > 0 {
      var (r, kept) := SlavePass(Prepare(m), slave, k - 1, MASK);
      SlavePassUnderway(m, slave, k - 1);
      SlaveStepUnderway(m, r, kept, slave[k - 1]);
    }
  }

  lemma MasterStepReports(m: seq<Info>, i: nat, x: Info, kept: seq<Info>)
    requires Treated(m, i, x)
    ensures Reported(MasterStep(x, kept, MASK), Was(m, i)) && MasterStep(x, kept, MASK).link == x.link
  {
    if x.flags == {} {
      var k := Find(kept, x.link);
      if k < |kept| { UpdatedReports(x, kept[k]); } else { GoneReports(x); }
    }
  }

  /** The elements of `r` behind the first `m` are the slave elements at the positions `js`, with their link,
      path and Connected, and flagged ADDED or UNCHANGED from it. */
  ghost predicate Moved(m: nat, slave: seq<Info>, js: seq<nat>, r: seq<Info>) {
    && |r| == m + |js| && (forall i :: 0 <= i < |js| ==> js[i] < |slave|)
    && (forall i, j :: 0 <= i < j < |js| ==> js[i] < js[j])
    && forall i, n :: 0 <= i < |js| && n == m + i ==>
         r[n] == Info(slave[js[i]].link, slave[js[i]].path, slave[js[i]].connected,
                      if slave[js[i]].connected then {Added} else {Unchanged})
  }

  lemma MovedFlagged(m: nat, slave: seq<Info>, js: seq<nat>, r: seq<Info>, n: nat)
    requires Moved(m, slave, js, r) && m <= n < |r|
    ensures r[n].flags != {}
  {
    var i := n - m;
    assert n == m + i && js[i] < |slave|;
    assert Added in r[n].flags || Unchanged in r[n].flags;
  }

  lemma MovedStep(m: nat, slave: seq<Info>, js: seq<nat>, r: seq<Info>, kept: seq<Info>, k: nat) returns (js': seq<nat>)
    requires k < |slave| && Moved(m, slave, js, r) && (forall j <- js :: j < k)
    ensures Moved(m, slave, js', SlaveStep(r, kept, slave[k], MASK).0) && (forall j <- js' :: j < k + 1)
    ensures |js'| + |SlaveStep(r, kept, slave[k], MASK).1| == |js| + |kept| + 1
  {
    var s, f := slave[k], Find(r, slave[k].link);
    if f < |r| {
      js' := js;
      if f >= m { MovedFlagged(m, slave, js, r, f); }
    } else {
      js' := js + [k];
      forall i, j | 0 <= i < j < |js'| ensures js'[i] < js'[j] { assert js[i] in js; }
    }
  }

  lemma {:induction false} MovedPass(m: seq<Info>, slave: seq<Info>, k: nat) returns (js: seq<nat>)
    requires k <= |slave|
    ensures Moved(|m|, slave, js, SlavePass(Prepare(m), slave, k, MASK).0) && (forall j <- js :: j < k)
    ensures |js| + |SlavePass(Prepare(m), slave, k, MASK).1| == k
  {
    if k == 0 {
      js := [];
    } else {
      var (r, kept) := SlavePass(Prepare(m), slave, k - 1, MASK);
      js := MovedPass(m, slave, k - 1);
      js := MovedStep(|m|, slave, js, r, kept, k - 1);
    }
  }

  /** Whatever the two lists: the elements a full-mask sync adds to the master list are slave elements, in
      their order, each with its link, path and Connected and flagged ADDED exactly when it is
      connected, and UNCHANGED otherwise; the slave list keeps as many as did not move. */
  lemma SyncMoves(m: seq<Info>, slave: seq<Info>) returns (js: seq<nat>)
    ensures Moved(|m|, slave, js, Sync(m, slave, MASK).0) && |js| + |Sync(m, slave, MASK).1| == |slave|
  {
    js := MovedPass(m, slave, |slave|);
    var (h, kept) := SlavePass(Prepare(m), slave, |slave|, MASK);
    var r := MasterPass(h, kept, MASK);
    forall n | |m| <= n < |h| ensures r[n] == h[n] { MovedFlagged(|m|, slave, js, h, n); }
  }

  /** An element that a sync added is one of the slave. */
  predicate FromSlave(x: Info, slave: seq<Info>) {
    exists j :: 0 <= j < |slave| && x.link == slave[j].link && x.path == slave[j].path
                && x.connected == slave[j].connected
  }

  /** Whatever the two lists, duplicate links and links that match each other included: the master list
      only grows at its end, by elements with link, path and Connected of slave elements, keeps its
      links, and each of its elements reports ADDED or REMOVED, and not both, exactly when its Connected
      changed; a new element counts as not connected before. */
  lemma SyncReports(m: seq<Info>, slave: seq<Info>)
    ensures var r := Sync(m, slave, MASK).0;
            |m| <= |r| && forall i :: 0 <= i < |r| ==> Reported(r[i], Was(m, i)) && (i < |m| ==> r[i].link == m[i].link)
                                                       && (i >= |m| ==> FromSlave(r[i], slave))
  {
    var (h, kept) := SlavePass(Prepare(m), slave, |slave|, MASK);
    var r := MasterPass(h, kept, MASK);
    SlavePassUnderway(m, slave, |slave|);
    var js := SyncMoves(m, slave);
    forall i | 0 <= i < |r|
      ensures Reported(r[i], Was(m, i)) && (i < |m| ==> r[i].link == m[i].link) && (i >= |m| ==> FromSlave(r[i], slave))
    {
      assert Treated(m, i, h[i]);
      MasterStepReports(m, i, h[i], kept);
      if i >= |m| { MovedFrom(|m|, slave, js, r, i); }
    }
  }

  lemma MovedFrom(m: nat, slave: seq<Info>, js: seq<nat>, r: seq<Info>, n: nat)
    requires Moved(m, slave, js, r) && m <= n < |r|
    ensures FromSlave(r[n], slave)
  {
    var i := n - m;
    assert n == m + i && js[i] < |slave|;
  }

  /** The first element with a link stays the first. */
  lemma LookupStays(m: seq<Info>, r: seq<Info>, link: string)
    requires |m| <= |r|
    requires forall i :: 0 <= i < |r| ==> Reported(r[i], Was(m, i)) && (i < |m| ==> r[i].link == m[i].link)
    ensures var x := Lookup(r, link);
            if x.Some? then Reported(x.value, IsConnected(Lookup(m, link))) else Lookup(m, link) == None
  {
    var k := Index(m, link);
    if k < |m| {
      IndexIs(r, link, k);
      assert Reported(r[k], Was(m, k));
    } else if Has(r, link) {
      var j := Index(r, link);
      if j >= |m| { assert Reported(r[j], Was(m, j)); }
    }
  }

  /** The reports alternate, beginning with ADDED unless the device was connected at the start, and
      Connected is what the last one says. */
  predicate Alternating(c: seq<bool>, start: bool, connected: bool) {
    (forall i :: 0 <= i < |c| ==> c[i] == ((i % 2 == 0) != start)) && connected == ((|c| % 2 == 1) != start)
  }

  lemma OneMore(c: seq<bool>, start: bool, was: Option<Info>, x: Option<Info>)
    requires Alternating(c, start, IsConnected(was))
    requires if x.Some? then Reported(x.value, IsConnected(was)) else was == None
    ensures Alternating(if x == None || x.value.flags == {Unchanged} then c
                        else c + [Added in x.value.flags], start, IsConnected(x))
  {
  }

  /** Over any sequence of syncs with any slave lists the changes reported for a link alternate,
      beginning with ADDED for a link that is not connected at first, and Connected follows them. */
  lemma {:induction false} ChangesAlternate(master: seq<Info>, slaves: seq<seq<Info>>, link: string)
    ensures Alternating(Changes(master, slaves, link), IsConnected(Lookup(master, link)),
                        IsConnected(Lookup(Syncs(master, slaves), link)))
  {
    if slaves != [] {
      var init, slave := slaves[..|slaves| - 1], slaves[|slaves| - 1];
      ChangesAlternate(master, init, link);
      SyncReports(Syncs(master, init), slave);
      LookupStays(Syncs(master, init), Syncs(master, slaves), link);
      OneMore(Changes(master, init, link), IsConnected(Lookup(master, link)), Lookup(Syncs(master, init), link),
              Lookup(Syncs(master, slaves), link));
    }
  }
}
