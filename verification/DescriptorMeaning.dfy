/** What the tree built from any sequence of descriptors is: every level lists its elements in the
    order in which they first appeared, whatever the order of the descriptors. */
module DescriptorMeaning {
  import opened Basics
  import opened DescriptorTree

  function Keys(s: seq<Desc>, f: nat): seq<Byte> { seq(|s|, i requires 0 <= i < |s| => Field(s[i], f)) }

  /** Of the descriptors with the same value in field `f`, the first one. */
  function FirstsBy(s: seq<Desc>, f: nat): seq<Desc> {
    if s == [] then []
    else
      var r := FirstsBy(s[..|s| - 1], f);
      var d := s[|s| - 1];
      if Field(d, f) in Keys(r, f) then r else r + [d]
  }

  /** The interface descriptors. */
  function Headers(ds: seq<Desc>): seq<Desc> {
    if ds == [] then []
    else Headers(ds[..|ds| - 1]) + if Is(ds[|ds| - 1], INTERFACE) then [ds[|ds| - 1]] else []
  }

  /** The interface descriptors of interface `n`. */
  function Settings(ds: seq<Desc>, n: Byte): seq<Desc> {
    if ds == [] then []
    else Settings(ds[..|ds| - 1], n) +
         if Is(ds[|ds| - 1], INTERFACE) && Field(ds[|ds| - 1], NUMBER) == n then [ds[|ds| - 1]] else []
  }

  /** Interface and alternate setting of the last interface descriptor. */
  function Current(ds: seq<Desc>): Option<(Byte, Byte)> {
    if ds == [] then None
    else
      var d := ds[|ds| - 1];
      if Is(d, INTERFACE) then Some((Field(d, NUMBER), Field(d, SETTING))) else Current(ds[..|ds| - 1])
  }

  /** The endpoint descriptors between a descriptor of this alternate setting and the next interface
      descriptor. */
  function Endpoints(ds: seq<Desc>, n: Byte, a: Byte): seq<Desc> {
    if ds == [] then []
    else
      var init, d := ds[..|ds| - 1], ds[|ds| - 1];
      Endpoints(init, n, a) + if Is(d, ENDPOINT) && Current(init) == Some((n, a)) then [d] else []
  }

  /** The endpoint a companion descriptor that came next would belong to. */
  function Latest(ds: seq<Desc>): Option<(Byte, Byte, Byte)> {
    if ds == [] then None
    else
      var init, d := ds[..|ds| - 1], ds[|ds| - 1];
      if Is(d, INTERFACE) || Is(d, COMPANION) then None
      else if Is(d, ENDPOINT) then
        match Current(init)
        case None => None
        case Some((n, a)) => Some((n, a, Field(d, ADDRESS)))
      else Latest(init)
  }

  /** The last companion descriptor that followed this endpoint. */
  function CompanionOf(ds: seq<Desc>, n: Byte, a: Byte, e: Byte): Option<Desc> {
    if ds == [] then None
    else
      var init, d := ds[..|ds| - 1], ds[|ds| - 1];
      if Is(d, COMPANION) && Latest(init) == Some((n, a, e)) then Some(d) else CompanionOf(init, n, a, e)
  }

  function PipeDescs(s: seq<Pipe>): seq<Desc> { seq(|s|, k requires 0 <= k < |s| => s[k].descriptor) }

  function AltDescs(s: seq<Alt>): seq<Desc> { seq(|s|, k requires 0 <= k < |s| => s[k].descriptor) }

  ghost predicate PipeIs(p: Pipe, k: nat, ds: seq<Desc>, n: Byte, a: Byte) {
    p.id == Field(p.descriptor, ADDRESS) && p.index == k % 256 && p.companion == CompanionOf(ds, n, a, p.id)
  }

  ghost predicate PipesAre(s: seq<Pipe>, ds: seq<Desc>, n: Byte, a: Byte) {
    && PipeDescs(s) == FirstsBy(Endpoints(ds, n, a), ADDRESS)
    && forall k :: 0 <= k < |s| ==> PipeIs(s[k], k, ds, n, a)
  }

  ghost predicate AltIs(x: Alt, j: nat, ds: seq<Desc>, n: Byte) {
    x.id == Field(x.descriptor, SETTING) && x.index == j % 256 && PipesAre(x.pipes, ds, n, x.id)
  }

  ghost predicate AltsAre(s: seq<Alt>, ds: seq<Desc>, n: Byte) {
    && AltDescs(s) == FirstsBy(Settings(ds, n), SETTING)
    && forall j :: 0 <= j < |s| ==> AltIs(s[j], j, ds, n)
  }

  ghost predicate InterfaceIs(x: Interface, i: nat, ds: seq<Desc>) {
    x.index == i % 256 && AltsAre(x.alts, ds, x.id)
  }

  ghost predicate TreeIs(s: seq<Interface>, ds: seq<Desc>) {
    && InterfaceIds(s) == Keys(FirstsBy(Headers(ds), NUMBER), NUMBER)
    && forall i :: 0 <= i < |s| ==> InterfaceIs(s[i], i, ds)
  }

  /** Where the reader is, in terms of the descriptors read. */
  ghost predicate PlaceIs(p: Progress, ds: seq<Desc>)
    requires Sound(p)
  {
    && (p.place.Some? <==> Current(ds).Some?)
    && (p.place.Some? ==>
          var (i, j) := p.place.value;
          Current(ds).value == (p.stack[i].id, p.stack[i].alts[j].id))
    && (p.latest.Some? <==> Latest(ds).Some?)
    && (p.latest.Some? ==>
          var (i, j) := p.place.value;
          Latest(ds).value == (p.stack[i].id, p.stack[i].alts[j].id, p.stack[i].alts[j].pipes[p.latest.value].id))
  }

  // ---------------------------------------------------------------- one more descriptor

  lemma Init(ds: seq<Desc>, d: Desc)
    ensures (ds + [d])[..|ds + [d]| - 1] == ds && (ds + [d])[|ds + [d]| - 1] == d
  {
  }

  lemma FirstsNext(s: seq<Desc>, d: Desc, f: nat)
    ensures FirstsBy(s + [d], f) ==
            if Field(d, f) in Keys(FirstsBy(s, f), f) then FirstsBy(s, f) else FirstsBy(s, f) + [d]
    ensures Keys(FirstsBy(s, f) + [d], f) == Keys(FirstsBy(s, f), f) + [Field(d, f)]
  {
    Init(s, d);
  }

  lemma {:induction false} FirstsCover(s: seq<Desc>, f: nat, v: Byte)
    ensures v in Keys(FirstsBy(s, f), f) <==> v in Keys(s, f)
    ensures FirstsBy(s, f) == [] <==> s == []
    ensures forall i, j :: 0 <= i < j < |FirstsBy(s, f)| ==> Field(FirstsBy(s, f)[i], f) != Field(FirstsBy(s, f)[j], f)
  {
    if s != [] {
      var init, d := s[..|s| - 1], s[|s| - 1];
      FirstsCover(init, f, v);
      FirstsCover(init, f, Field(d, f));
      assert s == init + [d];
      FirstsNext(init, d, f);
      assert Keys(s, f) == Keys(init, f) + [Field(d, f)];
      var r := FirstsBy(init, f);
      forall i | 0 <= i < |r| ensures Field(r[i], f) in Keys(r, f) { assert Keys(r, f)[i] == Field(r[i], f); }
    }
  }

  lemma {:induction false} LatestIsCurrent(ds: seq<Desc>)
    requires Latest(ds).Some?
    ensures Current(ds) == Some((Latest(ds).value.0, Latest(ds).value.1))
  {
    var init, d := ds[..|ds| - 1], ds[|ds| - 1];
    if !Is(d, ENDPOINT) { LatestIsCurrent(init); }
  }

  /** Without a descriptor of the endpoint no companion belongs to it. */
  lemma {:induction false} NoCompanion(ds: seq<Desc>, n: Byte, a: Byte, e: Byte)
    requires e !in Keys(Endpoints(ds, n, a), ADDRESS)
    ensures CompanionOf(ds, n, a, e) == None && Latest(ds) != Some((n, a, e))
  {
    if ds != [] {
      var init, d := ds[..|ds| - 1], ds[|ds| - 1];
      var before, now := Endpoints(init, n, a), Endpoints(ds, n, a);
      assert forall k :: 0 <= k < |before| ==> Keys(before, ADDRESS)[k] == Keys(now, ADDRESS)[k];
      NoCompanion(init, n, a, e);
      if now == before + [d] { assert Keys(now, ADDRESS)[|before|] == Field(d, ADDRESS); }
    }
  }

  /** Without a descriptor of the alternate setting no endpoint belongs to it. */
  lemma {:induction false} NoEndpoints(ds: seq<Desc>, n: Byte, a: Byte)
    requires a !in Keys(Settings(ds, n), SETTING)
    ensures Endpoints(ds, n, a) == [] && Current(ds) != Some((n, a))
  {
    if ds != [] {
      var init, d := ds[..|ds| - 1], ds[|ds| - 1];
      var before, now := Settings(init, n), Settings(ds, n);
      assert forall k :: 0 <= k < |before| ==> Keys(before, SETTING)[k] == Keys(now, SETTING)[k];
      NoEndpoints(init, n, a);
      if now == before + [d] { assert Keys(now, SETTING)[|before|] == Field(d, SETTING); }
    }
  }

  lemma {:induction false} NoSettings(ds: seq<Desc>, n: Byte)
    requires n !in Keys(Headers(ds), NUMBER)
    ensures Settings(ds, n) == []
  {
    if ds != [] {
      var init, d := ds[..|ds| - 1], ds[|ds| - 1];
      var before, now := Headers(init), Headers(ds);
      assert forall k :: 0 <= k < |before| ==> Keys(before, NUMBER)[k] == Keys(now, NUMBER)[k];
      NoSettings(init, n);
      if now == before + [d] { assert Keys(now, NUMBER)[|before|] == Field(d, NUMBER); }
    }
  }

  lemma NextLists(ds: seq<Desc>, d: Desc, ds': seq<Desc>, n: Byte, a: Byte)
    requires ds' == ds + [d]
    ensures Headers(ds') == if Is(d, INTERFACE) then Headers(ds) + [d] else Headers(ds)
    ensures Settings(ds', n) ==
            if Is(d, INTERFACE) && Field(d, NUMBER) == n then Settings(ds, n) + [d] else Settings(ds, n)
    ensures Endpoints(ds', n, a) ==
            if Is(d, ENDPOINT) && Current(ds) == Some((n, a)) then Endpoints(ds, n, a) + [d] else Endpoints(ds, n, a)
  {
    Init(ds, d);
    assert Headers(ds) + [] == Headers(ds) && Settings(ds, n) + [] == Settings(ds, n);
    assert Endpoints(ds, n, a) + [] == Endpoints(ds, n, a);
  }

  lemma NextPlace(ds: seq<Desc>, d: Desc, ds': seq<Desc>)
    requires ds' == ds + [d]
    ensures Current(ds') == if Is(d, INTERFACE) then Some((Field(d, NUMBER), Field(d, SETTING))) else Current(ds)
    ensures Latest(ds') ==
            if Is(d, INTERFACE) || Is(d, COMPANION) then None
            else if !Is(d, ENDPOINT) then Latest(ds)
            else if Current(ds) == None then None
            else Some((Current(ds).value.0, Current(ds).value.1, Field(d, ADDRESS)))
  {
    Init(ds, d);
  }

  lemma NextCompanion(ds: seq<Desc>, d: Desc, ds': seq<Desc>, n: Byte, a: Byte, e: Byte)
    requires ds' == ds + [d]
    ensures CompanionOf(ds', n, a, e) ==
            if Is(d, COMPANION) && Latest(ds) == Some((n, a, e)) then Some(d) else CompanionOf(ds, n, a, e)
  {
    Init(ds, d);
  }

  // ---------------------------------------------------------------- endpoints

  lemma PipesSame(s: seq<Pipe>, ds: seq<Desc>, d: Desc, ds': seq<Desc>, n: Byte, a: Byte)
    requires ds' == ds + [d] && PipesAre(s, ds, n, a)
    requires Is(d, ENDPOINT) ==> Current(ds) != Some((n, a))
    requires Is(d, COMPANION) && Latest(ds).Some? ==> (Latest(ds).value.0, Latest(ds).value.1) != (n, a)
    ensures PipesAre(s, ds', n, a)
  {
    NextLists(ds, d, ds', n, a);
    forall k | 0 <= k < |s| ensures PipeIs(s[k], k, ds', n, a) { NextCompanion(ds, d, ds', n, a, s[k].id); }
  }

  lemma PipeKeys(s: seq<Pipe>, ds: seq<Desc>, n: Byte, a: Byte)
    requires PipesAre(s, ds, n, a)
    ensures PipeIds(s) == Keys(FirstsBy(Endpoints(ds, n, a), ADDRESS), ADDRESS)
    ensures forall k, l :: 0 <= k < l < |s| ==> s[k].id != s[l].id
  {
    var firsts := FirstsBy(Endpoints(ds, n, a), ADDRESS);
    FirstsCover(Endpoints(ds, n, a), ADDRESS, 0);
    assert |s| == |PipeDescs(s)|;
    forall k | 0 <= k < |s| ensures s[k].descriptor == firsts[k] && s[k].id == Field(firsts[k], ADDRESS) {
      assert PipeDescs(s)[k] == s[k].descriptor;
      assert PipeIs(s[k], k, ds, n, a);
    }
  }

  /** A known address is found, and a new one is among the addresses listed so far nowhere. */
  lemma Listed(ids: seq<Byte>, s: seq<Desc>, f: nat, v: Byte, k: nat)
    requires ids == Keys(FirstsBy(s, f), f) && k == IndexOf(ids, v)
    ensures k < |ids| <==> v in Keys(FirstsBy(s, f), f)
    ensures k == |ids| ==> v !in Keys(s, f)
  {
    FirstsCover(s, f, v);
  }

  /** An endpoint descriptor leaves the endpoints known so far as they are. */
  lemma PipesKept(s: seq<Pipe>, ds: seq<Desc>, d: Desc, ds': seq<Desc>, n: Byte, a: Byte)
    requires ds' == ds + [d] && PipesAre(s, ds, n, a) && Is(d, ENDPOINT)
    ensures forall l :: 0 <= l < |s| ==> PipeIs(s[l], l, ds', n, a)
  {
    forall l | 0 <= l < |s| ensures PipeIs(s[l], l, ds', n, a) {
      assert PipeIs(s[l], l, ds, n, a);
      NextCompanion(ds, d, ds', n, a, s[l].id);
    }
  }

  lemma GrowPipes(s: seq<Pipe>, x: Pipe, ds: seq<Desc>, n: Byte, a: Byte)
    requires forall l :: 0 <= l < |s| ==> PipeIs(s[l], l, ds, n, a)
    requires PipeIs(x, |s|, ds, n, a) && PipeDescs(s) + [x.descriptor] == FirstsBy(Endpoints(ds, n, a), ADDRESS)
    ensures PipesAre(s + [x], ds, n, a)
  {
    assert PipeDescs(s + [x]) == PipeDescs(s) + [x.descriptor];
  }

  lemma PipesEndpoint(s: seq<Pipe>, ds: seq<Desc>, d: Desc, ds': seq<Desc>, n: Byte, a: Byte, k: nat)
    requires ds' == ds + [d] && PipesAre(s, ds, n, a) && Is(d, ENDPOINT) && Current(ds) == Some((n, a))
    requires k == IndexOf(PipeIds(s), Field(d, ADDRESS))
    ensures PipesAre(WithPipe(s, d), ds', n, a)
    ensures k < |WithPipe(s, d)| && WithPipe(s, d)[k].id == Field(d, ADDRESS)
  {
    var e, eps := Field(d, ADDRESS), Endpoints(ds, n, a);
    NextLists(ds, d, ds', n, a);
    PipeKeys(s, ds, n, a);
    FirstsNext(eps, d, ADDRESS);
    Listed(PipeIds(s), eps, ADDRESS, e, k);
    PipesKept(s, ds, d, ds', n, a);
    if k < |s| {
      assert PipeIds(s)[k] == s[k].id;
    } else {
      NoCompanion(ds, n, a, e);
      NextCompanion(ds, d, ds', n, a, e);
      GrowPipes(s, Pipe(e, |s| % 256, d, None), ds', n, a);
    }
  }

  lemma PipesCompanion(s: seq<Pipe>, ds: seq<Desc>, d: Desc, ds': seq<Desc>, n: Byte, a: Byte, k: nat)
    requires ds' == ds + [d] && PipesAre(s, ds, n, a)
    requires Is(d, COMPANION) && k < |s| && Latest(ds) == Some((n, a, s[k].id))
    ensures PipesAre(s[k := s[k].(companion := Some(d))], ds', n, a)
  {
    var r := s[k := s[k].(companion := Some(d))];
    NextLists(ds, d, ds', n, a);
    PipeKeys(s, ds, n, a);
    assert PipeDescs(r) == PipeDescs(s);
    forall l | 0 <= l < |r| ensures PipeIs(r[l], l, ds', n, a) {
      assert PipeIs(s[l], l, ds, n, a);
      NextCompanion(ds, d, ds', n, a, s[l].id);
      if l != k { assert s[l].id != s[k].id; }
    }
  }

  // ---------------------------------------------------------------- alternate settings

  lemma AltKeys(s: seq<Alt>, ds: seq<Desc>, n: Byte)
    requires AltsAre(s, ds, n)
    ensures AltIds(s) == Keys(FirstsBy(Settings(ds, n), SETTING), SETTING)
    ensures forall k, l :: 0 <= k < l < |s| ==> s[k].id != s[l].id
  {
    var firsts := FirstsBy(Settings(ds, n), SETTING);
    FirstsCover(Settings(ds, n), SETTING, 0);
    assert |s| == |AltDescs(s)|;
    forall k | 0 <= k < |s| ensures s[k].descriptor == firsts[k] && s[k].id == Field(firsts[k], SETTING) {
      assert AltDescs(s)[k] == s[k].descriptor;
      assert AltIs(s[k], k, ds, n);
    }
  }

  /** A descriptor that belongs to another interface changes nothing here. */
  lemma AltsSame(s: seq<Alt>, ds: seq<Desc>, d: Desc, ds': seq<Desc>, n: Byte)
    requires ds' == ds + [d] && AltsAre(s, ds, n)
    requires Is(d, INTERFACE) ==> Field(d, NUMBER) != n
    requires Is(d, ENDPOINT) && Current(ds).Some? ==> Current(ds).value.0 != n
    requires Is(d, COMPANION) && Latest(ds).Some? ==> Latest(ds).value.0 != n
    ensures AltsAre(s, ds', n)
  {
    NextLists(ds, d, ds', n, 0);
    forall j | 0 <= j < |s| ensures AltIs(s[j], j, ds', n) {
      assert AltIs(s[j], j, ds, n);
      PipesSame(s[j].pipes, ds, d, ds', n, s[j].id);
    }
  }

  /** An endpoint or a companion changes one alternate setting. */
  lemma AltsPipes(s: seq<Alt>, ds: seq<Desc>, d: Desc, ds': seq<Desc>, n: Byte, j: nat, pipes: seq<Pipe>)
    requires ds' == ds + [d] && AltsAre(s, ds, n) && j < |s| && (Is(d, ENDPOINT) || Is(d, COMPANION))
    requires Current(ds) == Some((n, s[j].id)) && PipesAre(pipes, ds', n, s[j].id)
    ensures AltsAre(s[j := s[j].(pipes := pipes)], ds', n)
  {
    var r := s[j := s[j].(pipes := pipes)];
    NextLists(ds, d, ds', n, 0);
    AltKeys(s, ds, n);
    assert AltDescs(r) == AltDescs(s);
    if Latest(ds).Some? { LatestIsCurrent(ds); }
    forall l | 0 <= l < |r| ensures AltIs(r[l], l, ds', n) {
      assert AltIs(s[l], l, ds, n);
      if l != j {
        assert s[l].id != s[j].id;
        PipesSame(s[l].pipes, ds, d, ds', n, s[l].id);
      }
    }
  }

  lemma NoPipes(ds: seq<Desc>, n: Byte, a: Byte)
    requires Endpoints(ds, n, a) == []
    ensures PipesAre([], ds, n, a)
  {
    assert |PipeDescs([])| == 0;
  }

  /** An interface descriptor leaves the alternate settings known so far as they are. */
  lemma AltsKept(s: seq<Alt>, ds: seq<Desc>, d: Desc, ds': seq<Desc>, n: Byte)
    requires ds' == ds + [d] && AltsAre(s, ds, n) && Is(d, INTERFACE)
    ensures forall l :: 0 <= l < |s| ==> AltIs(s[l], l, ds', n)
  {
    forall l | 0 <= l < |s| ensures AltIs(s[l], l, ds', n) {
      assert AltIs(s[l], l, ds, n);
      PipesSame(s[l].pipes, ds, d, ds', n, s[l].id);
    }
  }

  lemma GrowAlts(s: seq<Alt>, x: Alt, ds: seq<Desc>, n: Byte)
    requires forall l :: 0 <= l < |s| ==> AltIs(s[l], l, ds, n)
    requires AltIs(x, |s|, ds, n) && AltDescs(s) + [x.descriptor] == FirstsBy(Settings(ds, n), SETTING)
    ensures AltsAre(s + [x], ds, n)
  {
    assert AltDescs(s + [x]) == AltDescs(s) + [x.descriptor];
  }

  lemma AltsInterface(s: seq<Alt>, ds: seq<Desc>, d: Desc, ds': seq<Desc>, n: Byte, j: nat)
    requires ds' == ds + [d] && AltsAre(s, ds, n) && Is(d, INTERFACE) && Field(d, NUMBER) == n
    requires j == IndexOf(AltIds(s), Field(d, SETTING))
    ensures AltsAre(WithAlt(s, d), ds', n)
    ensures j < |WithAlt(s, d)| && WithAlt(s, d)[j].id == Field(d, SETTING)
  {
    var a, settings := Field(d, SETTING), Settings(ds, n);
    NextLists(ds, d, ds', n, a);
    AltKeys(s, ds, n);
    FirstsNext(settings, d, SETTING);
    Listed(AltIds(s), settings, SETTING, a, j);
    AltsKept(s, ds, d, ds', n);
    if j < |s| {
      assert AltIds(s)[j] == s[j].id;
    } else {
      NoEndpoints(ds, n, a);
      NoPipes(ds', n, a);
      GrowAlts(s, Alt(a, |s| % 256, d, []), ds', n);
    }
  }

  // ---------------------------------------------------------------- the tree

  lemma InterfaceKeys(s: seq<Interface>, ds: seq<Desc>)
    requires TreeIs(s, ds)
    ensures forall k, l :: 0 <= k < l < |s| ==> s[k].id != s[l].id
  {
    FirstsCover(Headers(ds), NUMBER, 0);
    var firsts := FirstsBy(Headers(ds), NUMBER);
    assert |s| == |InterfaceIds(s)|;
    forall k | 0 <= k < |s| ensures s[k].id == Field(firsts[k], NUMBER) {
      assert InterfaceIds(s)[k] == s[k].id && Keys(firsts, NUMBER)[k] == Field(firsts[k], NUMBER);
    }
  }

  /** A descriptor that changes the alternate settings of one interface. */
  lemma TreeOne(s: seq<Interface>, ds: seq<Desc>, d: Desc, ds': seq<Desc>, i: nat, alts: seq<Alt>)
    requires ds' == ds + [d] && TreeIs(s, ds) && i < |s| && AltsAre(alts, ds', s[i].id)
    requires Headers(ds') == Headers(ds)
             || FirstsBy(Headers(ds'), NUMBER) == FirstsBy(Headers(ds), NUMBER)
    requires Is(d, INTERFACE) ==> Field(d, NUMBER) == s[i].id
    requires Is(d, ENDPOINT) && Current(ds).Some? ==> Current(ds).value.0 == s[i].id
    requires Is(d, COMPANION) && Latest(ds).Some? ==> Latest(ds).value.0 == s[i].id
    ensures TreeIs(SetAlts(s, i, alts), ds')
  {
    var r := SetAlts(s, i, alts);
    InterfaceKeys(s, ds);
    assert InterfaceIds(r) == InterfaceIds(s);
    forall l | 0 <= l < |r| ensures InterfaceIs(r[l], l, ds') {
      assert InterfaceIs(s[l], l, ds);
      if l != i {
        assert s[l].id != s[i].id;
        AltsSame(s[l].alts, ds, d, ds', s[l].id);
      }
    }
  }

  /** A descriptor that concerns no interface. */
  lemma TreeSame(s: seq<Interface>, ds: seq<Desc>, d: Desc, ds': seq<Desc>)
    requires ds' == ds + [d] && TreeIs(s, ds) && !Is(d, INTERFACE)
    requires Is(d, ENDPOINT) ==> Current(ds) == None
    requires Is(d, COMPANION) ==> Latest(ds) == None
    ensures TreeIs(s, ds')
  {
    NextLists(ds, d, ds', 0, 0);
    forall l | 0 <= l < |s| ensures InterfaceIs(s[l], l, ds') {
      assert InterfaceIs(s[l], l, ds);
      AltsSame(s[l].alts, ds, d, ds', s[l].id);
    }
  }

  /** An interface descriptor leaves the other interfaces as they are. */
  lemma TreeKept(s: seq<Interface>, ds: seq<Desc>, d: Desc, ds': seq<Desc>)
    requires ds' == ds + [d] && TreeIs(s, ds) && Is(d, INTERFACE)
    requires forall l :: 0 <= l < |s| ==> s[l].id != Field(d, NUMBER)
    ensures forall l :: 0 <= l < |s| ==> InterfaceIs(s[l], l, ds')
  {
    forall l | 0 <= l < |s| ensures InterfaceIs(s[l], l, ds') {
      assert InterfaceIs(s[l], l, ds);
      AltsSame(s[l].alts, ds, d, ds', s[l].id);
    }
  }

  lemma GrowTree(s: seq<Interface>, x: Interface, ds: seq<Desc>)
    requires forall l :: 0 <= l < |s| ==> InterfaceIs(s[l], l, ds)
    requires InterfaceIs(x, |s|, ds) && InterfaceIds(s) + [x.id] == Keys(FirstsBy(Headers(ds), NUMBER), NUMBER)
    ensures TreeIs(s + [x], ds)
  {
    assert InterfaceIds(s + [x]) == InterfaceIds(s) + [x.id];
  }

  lemma FirstAlt(ds: seq<Desc>, d: Desc, ds': seq<Desc>, n: Byte)
    requires ds' == ds + [d] && Is(d, INTERFACE) && Field(d, NUMBER) == n && n !in Keys(Headers(ds), NUMBER)
    ensures AltsAre(WithAlt([], d), ds', n) && |WithAlt([], d)| == 1 && WithAlt([], d)[0].id == Field(d, SETTING)
    ensures IndexOf(AltIds([]), Field(d, SETTING)) == 0
  {
    NoSettings(ds, n);
    assert |AltDescs([])| == 0;
    AltsInterface([], ds, d, ds', n, 0);
  }

  /** The first descriptor of an interface. */
  lemma TreeNew(s: seq<Interface>, ds: seq<Desc>, d: Desc, ds': seq<Desc>, n: Byte)
    requires ds' == ds + [d] && TreeIs(s, ds) && Is(d, INTERFACE) && n == Field(d, NUMBER)
    requires IndexOf(InterfaceIds(s), n) == |s|
    ensures TreeIs(s + [Interface(n, |s| % 256, WithAlt([], d))], ds') && n !in Keys(Headers(ds), NUMBER)
  {
    var headers, ids := Headers(ds), InterfaceIds(s);
    NextLists(ds, d, ds', n, 0);
    FirstsNext(headers, d, NUMBER);
    Listed(ids, headers, NUMBER, n, |s|);
    FirstAlt(ds, d, ds', n);
    forall l | 0 <= l < |s| ensures s[l].id != n { assert ids[l] == s[l].id; }
    TreeKept(s, ds, d, ds');
    GrowTree(s, Interface(n, |s| % 256, WithAlt([], d)), ds');
  }

  lemma StepKnown(p: Progress, ds: seq<Desc>, d: Desc, ds': seq<Desc>, n: Byte, i: nat, r: Progress)
    requires ds' == ds + [d] && Sound(p) && TreeIs(p.stack, ds) && Is(d, INTERFACE) && n == Field(d, NUMBER)
    requires i == IndexOf(InterfaceIds(p.stack), n) && i < |p.stack| && r == FeedInterface(p, d)
    ensures Sound(r) && TreeIs(r.stack, ds') && PlaceIs(r, ds')
  {
    var s := p.stack;
    var alts := s[i].alts;
    NextPlace(ds, d, ds');
    assert InterfaceIds(s)[i] == s[i].id;
    assert InterfaceIs(s[i], i, ds);
    AltsInterface(alts, ds, d, ds', n, IndexOf(AltIds(alts), Field(d, SETTING)));
    NextLists(ds, d, ds', n, 0);
    FirstsNext(Headers(ds), d, NUMBER);
    Listed(InterfaceIds(s), Headers(ds), NUMBER, n, i);
    TreeOne(s, ds, d, ds', i, WithAlt(alts, d));
  }

  lemma FeedNew(p: Progress, d: Desc, n: Byte, alts: seq<Alt>)
    requires n == Field(d, NUMBER) && IndexOf(InterfaceIds(p.stack), n) == |p.stack| && alts == WithAlt([], d)
    requires IndexOf(AltIds([]), Field(d, SETTING)) == 0
    ensures FeedInterface(p, d) ==
            Progress(p.stack + [Interface(n, |p.stack| % 256, alts)], Some((|p.stack|, 0)), None)
  {
    var stack := p.stack + [Interface(n, |p.stack| % 256, [])];
    assert stack[|p.stack|].alts == [];
    assert SetAlts(stack, |p.stack|, alts) == p.stack + [Interface(n, |p.stack| % 256, alts)];
  }

  lemma StepNew(p: Progress, ds: seq<Desc>, d: Desc, ds': seq<Desc>, n: Byte, r: Progress)
    requires ds' == ds + [d] && Sound(p) && TreeIs(p.stack, ds) && Is(d, INTERFACE) && n == Field(d, NUMBER)
    requires IndexOf(InterfaceIds(p.stack), n) == |p.stack| && r == FeedInterface(p, d)
    ensures Sound(r) && TreeIs(r.stack, ds') && PlaceIs(r, ds')
  {
    NextPlace(ds, d, ds');
    TreeNew(p.stack, ds, d, ds', n);
    FirstAlt(ds, d, ds', n);
    FeedNew(p, d, n, WithAlt([], d));
  }

  lemma StepEndpoint(p: Progress, ds: seq<Desc>, d: Desc, ds': seq<Desc>)
    requires ds' == ds + [d] && Sound(p) && TreeIs(p.stack, ds) && PlaceIs(p, ds) && Is(d, ENDPOINT) && p.place.Some?
    ensures TreeIs(Feed(p, d).stack, ds') && PlaceIs(Feed(p, d), ds')
  {
    var s, i, j := p.stack, p.place.value.0, p.place.value.1;
    var n, a, pipes := s[i].id, s[i].alts[j].id, Pipes(s, i, j);
    assert InterfaceIs(s[i], i, ds) && AltIs(s[i].alts[j], j, ds, n);
    PipesEndpoint(pipes, ds, d, ds', n, a, IndexOf(PipeIds(pipes), Field(d, ADDRESS)));
    AltsPipes(s[i].alts, ds, d, ds', n, j, WithPipe(pipes, d));
    NextLists(ds, d, ds', n, a);
    NextPlace(ds, d, ds');
    TreeOne(s, ds, d, ds', i, s[i].alts[j := s[i].alts[j].(pipes := WithPipe(pipes, d))]);
  }

  lemma StepCompanion(p: Progress, ds: seq<Desc>, d: Desc, ds': seq<Desc>)
    requires ds' == ds + [d] && Sound(p) && TreeIs(p.stack, ds) && PlaceIs(p, ds) && Is(d, COMPANION) && p.latest.Some?
    ensures TreeIs(Feed(p, d).stack, ds') && PlaceIs(Feed(p, d), ds')
  {
    var s, i, j, k := p.stack, p.place.value.0, p.place.value.1, p.latest.value;
    var n, a, pipes := s[i].id, s[i].alts[j].id, Pipes(s, i, j);
    var now := pipes[k := pipes[k].(companion := Some(d))];
    assert InterfaceIs(s[i], i, ds) && AltIs(s[i].alts[j], j, ds, n);
    LatestIsCurrent(ds);
    PipesCompanion(pipes, ds, d, ds', n, a, k);
    AltsPipes(s[i].alts, ds, d, ds', n, j, now);
    NextLists(ds, d, ds', n, a);
    NextPlace(ds, d, ds');
    TreeOne(s, ds, d, ds', i, s[i].alts[j := s[i].alts[j].(pipes := now)]);
  }

  lemma Step(p: Progress, ds: seq<Desc>, d: Desc, ds': seq<Desc>)
    requires ds' == ds + [d] && Sound(p) && TreeIs(p.stack, ds) && PlaceIs(p, ds)
    ensures TreeIs(Feed(p, d).stack, ds') && PlaceIs(Feed(p, d), ds')
  {
    if Is(d, INTERFACE) {
      var n := Field(d, NUMBER);
      var i := IndexOf(InterfaceIds(p.stack), n);
      if i < |p.stack| {
        StepKnown(p, ds, d, ds', n, i, FeedInterface(p, d));
      } else {
        StepNew(p, ds, d, ds', n, FeedInterface(p, d));
      }
    } else if Is(d, ENDPOINT) && p.place.Some? {
      StepEndpoint(p, ds, d, ds');
    } else if Is(d, COMPANION) && p.latest.Some? {
      StepCompanion(p, ds, d, ds');
    } else {
      TreeSame(p.stack, ds, d, ds');
      NextPlace(ds, d, ds');
    }
  }

  lemma {:induction false} Meaning(ds: seq<Desc>)
    ensures TreeIs(FeedAll(START, ds).stack, ds) && PlaceIs(FeedAll(START, ds), ds)
  {
    if ds == [] {
      assert |InterfaceIds([])| == 0 && |Keys([], NUMBER)| == 0;
    } else {
      var init, d := ds[..|ds| - 1], ds[|ds| - 1];
      Meaning(init);
      Step(FeedAll(START, init), init, d, ds);
    }
  }

  // ---------------------------------------------------------------- positions and kinds

  function Below(n: nat): (r: set<int>)
    ensures |r| == n && forall x :: x in r <==> 0 <= x < n
  {
    if n == 0 then {} else Below(n - 1) + {n - 1}
  }

  lemma {:induction false} Distinct(s: seq<int>)
    requires forall i, j :: 0 <= i < j < |s| ==> s[i] != s[j]
    ensures |set x | x in s| == |s|
  {
    if s != [] {
      var init := s[..|s| - 1];
      Distinct(init);
      assert (set x | x in s) == (set x | x in init) + {s[|s| - 1]};
    }
  }

  /** There are no more different numbers than there are numbers below `n`. */
  lemma Few(s: seq<int>, n: nat)
    requires (forall i, j :: 0 <= i < j < |s| ==> s[i] != s[j]) && forall x <- s :: 0 <= x < n
    ensures |s| <= n
  {
    Distinct(s);
    var all := set x | x in s;
    assert Below(n) == all + (Below(n) - all);
  }

  lemma {:induction false} FirstsFrom(s: seq<Desc>, f: nat)
    ensures forall d <- FirstsBy(s, f) :: d in s
  {
    if s != [] {
      FirstsFrom(s[..|s| - 1], f);
      forall d <- FirstsBy(s, f) ensures d in s { if d in s[..|s| - 1] {} }
    }
  }

  lemma {:induction false} EndpointKinds(ds: seq<Desc>, n: Byte, a: Byte)
    ensures forall d <- Endpoints(ds, n, a) :: Is(d, ENDPOINT)
  {
    if ds != [] { EndpointKinds(ds[..|ds| - 1], n, a); }
  }

  lemma {:induction false} SettingKinds(ds: seq<Desc>, n: Byte)
    ensures forall d <- Settings(ds, n) :: Is(d, INTERFACE) && Field(d, NUMBER) == n
  {
    if ds != [] { SettingKinds(ds[..|ds| - 1], n); }
  }

  lemma {:induction false} CompanionKind(ds: seq<Desc>, n: Byte, a: Byte, e: Byte)
    ensures CompanionOf(ds, n, a, e).Some? ==> Is(CompanionOf(ds, n, a, e).value, COMPANION)
  {
    if ds != [] { CompanionKind(ds[..|ds| - 1], n, a, e); }
  }

  lemma {:induction false} SomeSetting(ds: seq<Desc>, n: Byte)
    requires n in Keys(Headers(ds), NUMBER)
    ensures Settings(ds, n) != []
  {
    var init, d := ds[..|ds| - 1], ds[|ds| - 1];
    var before, now := Headers(init), Headers(ds);
    var k :| 0 <= k < |now| && Keys(now, NUMBER)[k] == n;
    if k < |before| {
      assert Keys(before, NUMBER)[k] == n;
      SomeSetting(init, n);
    }
  }

  lemma GoodPipesOf(s: seq<Pipe>, ds: seq<Desc>, n: Byte, a: Byte)
    requires PipesAre(s, ds, n, a)
    ensures GoodPipes(s)
  {
    PipeKeys(s, ds, n, a);
    var ids := PipeIds(s);
    Few(ids, 256);
    assert |ids| == |s|;
    FirstsFrom(Endpoints(ds, n, a), ADDRESS);
    EndpointKinds(ds, n, a);
    forall k | 0 <= k < |s|
      ensures s[k].index == k && Is(s[k].descriptor, ENDPOINT) && Field(s[k].descriptor, ADDRESS) == s[k].id
      ensures s[k].companion.Some? ==> Is(s[k].companion.value, COMPANION)
    {
      assert PipeIs(s[k], k, ds, n, a);
      assert PipeDescs(s)[k] == s[k].descriptor;
      CompanionKind(ds, n, a, s[k].id);
    }
  }

  lemma GoodAltsOf(s: seq<Alt>, ds: seq<Desc>, n: Byte)
    requires AltsAre(s, ds, n)
    ensures GoodAlts(s, n)
  {
    AltKeys(s, ds, n);
    var ids := AltIds(s);
    Few(ids, 256);
    assert |ids| == |s|;
    FirstsFrom(Settings(ds, n), SETTING);
    SettingKinds(ds, n);
    forall j | 0 <= j < |s|
      ensures s[j].index == j && Is(s[j].descriptor, INTERFACE) && Field(s[j].descriptor, NUMBER) == n
      ensures Field(s[j].descriptor, SETTING) == s[j].id && GoodPipes(s[j].pipes)
    {
      assert AltIs(s[j], j, ds, n);
      assert AltDescs(s)[j] == s[j].descriptor;
      GoodPipesOf(s[j].pipes, ds, n, s[j].id);
    }
  }

  /** Whatever the descriptors, the tree holds at every level the elements in the order of their
      first descriptors, an endpoint under the alternate setting it followed and a companion at the
      endpoint it followed; every `index` is a position, and printing the tree loses nothing. */
  lemma Recovered(ds: seq<Desc>)
    ensures TreeIs(Build(ds), ds) && Good(Build(ds))
    ensures Build(Print(Build(ds))) == Build(ds)
  {
    Meaning(ds);
    var s := Build(ds);
    InterfaceKeys(s, ds);
    var ids := InterfaceIds(s);
    Few(ids, 256);
    assert |ids| == |s|;
    forall i | 0 <= i < |s| ensures s[i].index == i && s[i].alts != [] && GoodAlts(s[i].alts, s[i].id) {
      assert InterfaceIs(s[i], i, ds);
      GoodAltsOf(s[i].alts, ds, s[i].id);
      assert ids[i] == s[i].id;
      FirstsCover(Headers(ds), NUMBER, s[i].id);
      SomeSetting(ds, s[i].id);
      FirstsCover(Settings(ds, s[i].id), SETTING, 0);
      assert |AltDescs(s[i].alts)| == |s[i].alts|;
    }
    RoundTrip(s);
  }
}
