/** The tree that lusbk_stack_collection.c builds from the descriptors of a configuration, as a
    fold over the descriptors, and what that tree is. */
module DescriptorTree {
  import opened Basics

  /** One descriptor: bLength, bDescriptorType and what follows. */
  type Desc = seq<Byte>

  const INTERFACE: Byte := 4
  const ENDPOINT: Byte := 5
  const COMPANION: Byte := 0x30

  // field offsets: bDescriptorType, bInterfaceNumber, bAlternateSetting, bEndpointAddress
  const TYPE := 1
  const NUMBER := 2
  const SETTING := 3
  const ADDRESS := 2

  function Field(d: Desc, n: nat): Byte { if n < |d| then d[n] else 0 }

  predicate Is(d: Desc, kind: Byte) { Field(d, TYPE) == kind }

  datatype Pipe = Pipe(id: Byte, index: Byte, descriptor: Desc, companion: Option<Desc>)

  datatype Alt = Alt(id: Byte, index: Byte, descriptor: Desc, pipes: seq<Pipe>)

  datatype Interface = Interface(id: Byte, index: Byte, alts: seq<Alt>)

  function InterfaceIds(s: seq<Interface>): seq<Byte> { seq(|s|, i requires 0 <= i < |s| => s[i].id) }

  function AltIds(s: seq<Alt>): seq<Byte> { seq(|s|, i requires 0 <= i < |s| => s[i].id) }

  function PipeIds(s: seq<Pipe>): seq<Byte> { seq(|s|, i requires 0 <= i < |s| => s[i].id) }

  /** The position of the first element with this id, or the length if there is none. */
  function IndexOf(ids: seq<Byte>, id: Byte): (k: nat)
    ensures k <= |ids| && (k < |ids| ==> ids[k] == id) && forall j :: 0 <= j < k ==> ids[j] != id
  {
    if ids == [] then 0 else if ids[0] == id then 0 else 1 + IndexOf(ids[1..], id)
  }

  // ---------------------------------------------------------------- one descriptor

  function WithInterface(s: seq<Interface>, id: Byte): seq<Interface> {
    if IndexOf(InterfaceIds(s), id) < |s| then s else s + [Interface(id, |s| % 256, [])]
  }

  function WithAlt(s: seq<Alt>, d: Desc): seq<Alt> {
    if IndexOf(AltIds(s), Field(d, SETTING)) < |s| then s else s + [Alt(Field(d, SETTING), |s| % 256, d, [])]
  }

  function WithPipe(s: seq<Pipe>, d: Desc): seq<Pipe> {
    if IndexOf(PipeIds(s), Field(d, ADDRESS)) < |s| then s else s + [Pipe(Field(d, ADDRESS), |s| % 256, d, None)]
  }

  /** The tree so far, the alternate setting whose endpoints are being read, and the endpoint that
      a companion descriptor would belong to. */
  datatype Progress = Progress(stack: seq<Interface>, place: Option<(nat, nat)>, latest: Option<nat>)

  predicate Sound(p: Progress) {
    && (p.place.Some? ==> Within(p.stack, p.place.value.0, p.place.value.1))
    && (p.latest.Some? ==> p.place.Some? && p.latest.value < |Pipes(p.stack, p.place.value.0, p.place.value.1)|)
  }

  predicate Within(s: seq<Interface>, i: nat, j: nat) { i < |s| && j < |s[i].alts| }

  function Pipes(s: seq<Interface>, i: nat, j: nat): seq<Pipe>
    requires Within(s, i, j)
  {
    s[i].alts[j].pipes
  }

  function SetAlts(s: seq<Interface>, i: nat, alts: seq<Alt>): seq<Interface>
    requires i < |s|
  {
    s[i := s[i].(alts := alts)]
  }

  function SetPipes(s: seq<Interface>, i: nat, j: nat, pipes: seq<Pipe>): seq<Interface>
    requires Within(s, i, j)
  {
    SetAlts(s, i, s[i].alts[j := s[i].alts[j].(pipes := pipes)])
  }

  const START := Progress([], None, None)

  function FeedInterface(p: Progress, d: Desc): Progress {
    var stack := WithInterface(p.stack, Field(d, NUMBER));
    var i := IndexOf(InterfaceIds(p.stack), Field(d, NUMBER));
    var j := IndexOf(AltIds(stack[i].alts), Field(d, SETTING));
    Progress(SetAlts(stack, i, WithAlt(stack[i].alts, d)), Some((i, j)), None)
  }

  function FeedEndpoint(p: Progress, d: Desc): Progress
    requires Sound(p) && p.place.Some?
  {
    var (i, j) := p.place.value;
    var pipes := Pipes(p.stack, i, j);
    Progress(SetPipes(p.stack, i, j, WithPipe(pipes, d)), p.place, Some(IndexOf(PipeIds(pipes), Field(d, ADDRESS))))
  }

  function FeedCompanion(p: Progress, d: Desc): Progress
    requires Sound(p) && p.latest.Some?
  {
    var (i, j) := p.place.value;
    var k := p.latest.value;
    var pipes := Pipes(p.stack, i, j);
    Progress(SetPipes(p.stack, i, j, pipes[k := pipes[k].(companion := Some(d))]), p.place, None)
  }

  function Feed(p: Progress, d: Desc): (r: Progress)
    requires Sound(p)
    ensures Sound(r)
  {
    if Is(d, INTERFACE) then FeedInterface(p, d)
    else if Is(d, ENDPOINT) && p.place.Some? then FeedEndpoint(p, d)
    else if Is(d, COMPANION) && p.latest.Some? then FeedCompanion(p, d)
    else p
  }

  function FeedAll(p: Progress, ds: seq<Desc>): (r: Progress)
    requires Sound(p)
    ensures Sound(r)
  {
    if ds == [] then p else Feed(FeedAll(p, ds[..|ds| - 1]), ds[|ds| - 1])
  }

  function Build(ds: seq<Desc>): seq<Interface> { FeedAll(START, ds).stack }

  lemma FeedOne(p: Progress, ds: seq<Desc>, d: Desc)
    requires Sound(p)
    ensures FeedAll(p, ds + [d]) == Feed(FeedAll(p, ds), d)
  {
    assert (ds + [d])[..|ds|] == ds;
  }

  lemma {:induction false} FeedAppend(p: Progress, a: seq<Desc>, b: seq<Desc>)
    requires Sound(p)
    ensures FeedAll(p, a + b) == FeedAll(FeedAll(p, a), b)
  {
    if b == [] {
      assert a + b == a;
    } else {
      var rest := b[..|b| - 1];
      FeedAppend(p, a, rest);
      assert a + b == (a + rest) + [b[|b| - 1]];
      FeedOne(p, a + rest, b[|b| - 1]);
    }
  }

  // ---------------------------------------------------------------- printing a tree

  function PrintPipe(p: Pipe): seq<Desc> { [p.descriptor] + if p.companion.Some? then [p.companion.value] else [] }

  function PrintPipes(s: seq<Pipe>): seq<Desc> {
    if s == [] then [] else PrintPipes(s[..|s| - 1]) + PrintPipe(s[|s| - 1])
  }

  function PrintAlt(a: Alt): seq<Desc> { [a.descriptor] + PrintPipes(a.pipes) }

  function PrintAlts(s: seq<Alt>): seq<Desc> {
    if s == [] then [] else PrintAlts(s[..|s| - 1]) + PrintAlt(s[|s| - 1])
  }

  /** The descriptors of a configuration, each alternate setting followed by its endpoints and each
      endpoint by its companion (section 9.4.3 of USB 2.0). */
  function Print(s: seq<Interface>): seq<Desc> {
    if s == [] then [] else Print(s[..|s| - 1]) + PrintAlts(s[|s| - 1].alts)
  }

  predicate GoodPipes(s: seq<Pipe>) {
    && (forall k :: 0 <= k < |s| ==>
         && s[k].index == k && Is(s[k].descriptor, ENDPOINT) && Field(s[k].descriptor, ADDRESS) == s[k].id
         && (s[k].companion.Some? ==> Is(s[k].companion.value, COMPANION)))
    && (forall k, l :: 0 <= k < l < |s| ==> s[k].id != s[l].id)
  }

  predicate GoodAlts(s: seq<Alt>, number: Byte) {
    && (forall j :: 0 <= j < |s| ==>
         && s[j].index == j && Is(s[j].descriptor, INTERFACE) && Field(s[j].descriptor, NUMBER) == number
         && Field(s[j].descriptor, SETTING) == s[j].id && GoodPipes(s[j].pipes))
    && (forall j, l :: 0 <= j < l < |s| ==> s[j].id != s[l].id)
  }

  /** A tree whose elements agree with their descriptors and positions. */
  predicate Good(s: seq<Interface>) {
    && (forall i :: 0 <= i < |s| ==> s[i].index == i && s[i].alts != [] && GoodAlts(s[i].alts, s[i].id))
    && (forall i, l :: 0 <= i < l < |s| ==> s[i].id != s[l].id)
  }

  // ---------------------------------------------------------------- round trip

  lemma PipesSet(s: seq<Interface>, i: nat, j: nat, x: seq<Pipe>, y: seq<Pipe>)
    requires Within(s, i, j)
    ensures Within(SetPipes(s, i, j, x), i, j) && Pipes(SetPipes(s, i, j, x), i, j) == x
    ensures SetPipes(SetPipes(s, i, j, x), i, j, y) == SetPipes(s, i, j, y)
    ensures Pipes(s, i, j) == x ==> SetPipes(s, i, j, x) == s
  {
    var u := SetPipes(s, i, j, x);
    var alt := s[i].alts[j].(pipes := y);
    assert u[i].alts[j := alt] == s[i].alts[j := alt];
    var intf := s[i].(alts := s[i].alts[j := alt]);
    assert u[i := intf] == s[i := intf];
    if Pipes(s, i, j) == x { assert s[i].alts[j := s[i].alts[j]] == s[i].alts; }
  }

  /** A pipe with a new address goes to the end. */
  lemma NewPipe(s: seq<Pipe>, d: Desc)
    requires forall k :: 0 <= k < |s| ==> s[k].id != Field(d, ADDRESS)
    ensures WithPipe(s, d) == s + [Pipe(Field(d, ADDRESS), |s| % 256, d, None)]
    ensures IndexOf(PipeIds(s), Field(d, ADDRESS)) == |s|
  {
    assert forall k :: 0 <= k < |s| ==> PipeIds(s)[k] == s[k].id;
  }

  lemma ReadPipe(p: Progress, i: nat, j: nat, x: Pipe)
    requires Sound(p) && p.place == Some((i, j)) && GoodPipes(Pipes(p.stack, i, j) + [x])
    ensures FeedAll(p, PrintPipe(x)).place == p.place
    ensures FeedAll(p, PrintPipe(x)).stack == SetPipes(p.stack, i, j, Pipes(p.stack, i, j) + [x])
  {
    var s := Pipes(p.stack, i, j);
    assert (s + [x])[|s|] == x;
    forall k | 0 <= k < |s| ensures s[k].id != x.id { assert (s + [x])[k] == s[k]; }
    NewPipe(s, x.descriptor);
    var now := s + [x.(companion := None)];
    var q := Feed(p, x.descriptor);
    assert q == Progress(SetPipes(p.stack, i, j, now), p.place, Some(|s|));
    FeedOne(p, [], x.descriptor);
    assert [] + [x.descriptor] == [x.descriptor];
    if x.companion.Some? {
      FeedOne(p, [x.descriptor], x.companion.value);
      PipesSet(p.stack, i, j, now, s + [x]);
      assert now[|s| := x] == s + [x];
    } else {
      assert PrintPipe(x) == [x.descriptor];
    }
  }

  lemma GoodInit(s: seq<Pipe>)
    requires GoodPipes(s) && s != []
    ensures GoodPipes(s[..|s| - 1]) && s[..|s| - 1] + [s[|s| - 1]] == s
  {
  }

  lemma {:induction false} ReadPipes(p: Progress, i: nat, j: nat, s: seq<Pipe>)
    requires Sound(p) && p.place == Some((i, j)) && Pipes(p.stack, i, j) == [] && GoodPipes(s)
    ensures FeedAll(p, PrintPipes(s)).place == p.place
    ensures FeedAll(p, PrintPipes(s)).stack == SetPipes(p.stack, i, j, s)
  {
    PipesSet(p.stack, i, j, s, s);
    if s == [] {
      PipesSet(p.stack, i, j, [], []);
    } else {
      var init, x := s[..|s| - 1], s[|s| - 1];
      GoodInit(s);
      ReadPipes(p, i, j, init);
      PipesSet(p.stack, i, j, init, s);
      ReadPipe(FeedAll(p, PrintPipes(init)), i, j, x);
      FeedAppend(p, PrintPipes(init), PrintPipe(x));
    }
  }

  /** The tree while the alternate settings of interface `n` are read. */
  function Partial(base: seq<Interface>, n: Byte, alts: seq<Alt>): seq<Interface> {
    if alts == [] then base else base + [Interface(n, |base| % 256, alts)]
  }

  lemma OpenAlt(p: Progress, base: seq<Interface>, n: Byte, alts: seq<Alt>, d: Desc)
    requires Sound(p) && p.stack == Partial(base, n, alts) && Is(d, INTERFACE) && Field(d, NUMBER) == n
    requires forall x <- base :: x.id != n
    requires forall j :: 0 <= j < |alts| ==> alts[j].id != Field(d, SETTING)
    ensures Feed(p, d) == Progress(Partial(base, n, alts + [Alt(Field(d, SETTING), |alts| % 256, d, [])]),
                                   Some((|base|, |alts|)), None)
  {
    PartialIndex(base, n, alts);
    NewAlt(alts, d);
  }

  lemma PartialIndex(base: seq<Interface>, n: Byte, alts: seq<Alt>)
    requires forall x <- base :: x.id != n
    ensures IndexOf(InterfaceIds(Partial(base, n, alts)), n) == |base|
    ensures WithInterface(Partial(base, n, alts), n) == base + [Interface(n, |base| % 256, alts)]
  {
    var ids := InterfaceIds(Partial(base, n, alts));
    assert forall i :: 0 <= i < |base| ==> ids[i] == base[i].id && base[i] in base;
    assert alts != [] ==> ids[|base|] == n;
  }

  /** An alternate setting with a new number goes to the end. */
  lemma NewAlt(alts: seq<Alt>, d: Desc)
    requires forall j :: 0 <= j < |alts| ==> alts[j].id != Field(d, SETTING)
    ensures IndexOf(AltIds(alts), Field(d, SETTING)) == |alts|
    ensures WithAlt(alts, d) == alts + [Alt(Field(d, SETTING), |alts| % 256, d, [])]
  {
    assert forall j :: 0 <= j < |alts| ==> AltIds(alts)[j] == alts[j].id;
  }

  lemma FillAlt(base: seq<Interface>, n: Byte, alts: seq<Alt>, a: Alt, index: Byte)
    requires index == a.index
    ensures Within(Partial(base, n, alts + [a.(pipes := [])]), |base|, |alts|)
    ensures SetPipes(Partial(base, n, alts + [a.(pipes := [])]), |base|, |alts|, a.pipes)
            == Partial(base, n, alts + [a])
    ensures Pipes(Partial(base, n, alts + [a.(pipes := [])]), |base|, |alts|) == []
  {
    var open := alts + [a.(pipes := [])];
    assert open[|alts| := a] == alts + [a];
  }

  lemma LastAlt(alts: seq<Alt>, a: Alt, n: Byte)
    requires GoodAlts(alts + [a], n)
    ensures a.index == |alts| && Is(a.descriptor, INTERFACE) && Field(a.descriptor, NUMBER) == n
    ensures Field(a.descriptor, SETTING) == a.id && GoodPipes(a.pipes)
    ensures forall j :: 0 <= j < |alts| ==> alts[j].id != a.id
  {
    assert (alts + [a])[|alts|] == a;
    forall j | 0 <= j < |alts| ensures alts[j].id != a.id { assert (alts + [a])[j] == alts[j]; }
  }

  lemma ReadAlt(p: Progress, base: seq<Interface>, n: Byte, alts: seq<Alt>, a: Alt)
    requires Sound(p) && p.stack == Partial(base, n, alts) && GoodAlts(alts + [a], n)
    requires forall x <- base :: x.id != n
    ensures FeedAll(p, PrintAlt(a)).stack == Partial(base, n, alts + [a])
  {
    LastAlt(alts, a, n);
    OpenAlt(p, base, n, alts, a.descriptor);
    FillAlt(base, n, alts, a, |alts| % 256);
    var q := Feed(p, a.descriptor);
    FeedOne(p, [], a.descriptor);
    assert [] + [a.descriptor] == [a.descriptor];
    FeedAppend(p, [a.descriptor], PrintPipes(a.pipes));
    ReadPipes(q, |base|, |alts|, a.pipes);
  }

  lemma GoodAltsInit(s: seq<Alt>, n: Byte)
    requires GoodAlts(s, n) && s != []
    ensures GoodAlts(s[..|s| - 1], n) && s[..|s| - 1] + [s[|s| - 1]] == s
  {
  }

  lemma {:induction false} ReadAlts(p: Progress, base: seq<Interface>, n: Byte, s: seq<Alt>)
    requires Sound(p) && p.stack == base && GoodAlts(s, n)
    requires forall x <- base :: x.id != n
    ensures FeedAll(p, PrintAlts(s)).stack == Partial(base, n, s)
  {
    if s != [] {
      var init, a := s[..|s| - 1], s[|s| - 1];
      GoodAltsInit(s, n);
      ReadAlts(p, base, n, init);
      ReadAlt(FeedAll(p, PrintAlts(init)), base, n, init, a);
      FeedAppend(p, PrintAlts(init), PrintAlt(a));
    }
  }

  lemma GoodTreeInit(s: seq<Interface>)
    requires Good(s) && s != []
    ensures Good(s[..|s| - 1]) && GoodAlts(s[|s| - 1].alts, s[|s| - 1].id)
    ensures forall x <- s[..|s| - 1] :: x.id != s[|s| - 1].id
    ensures Partial(s[..|s| - 1], s[|s| - 1].id, s[|s| - 1].alts) == s
  {
  }

  lemma {:induction false} ReadAll(s: seq<Interface>)
    requires Good(s)
    ensures FeedAll(START, Print(s)).stack == s
  {
    if s != [] {
      var init, x := s[..|s| - 1], s[|s| - 1];
      GoodTreeInit(s);
      ReadAll(init);
      ReadAlts(FeedAll(START, Print(init)), init, x.id, x.alts);
      FeedAppend(START, Print(init), PrintAlts(x.alts));
    }
  }

  /** Parsing what the printer wrote gives the tree back. */
  lemma RoundTrip(s: seq<Interface>)
    requires Good(s)
    ensures Build(Print(s)) == s
  {
    ReadAll(s);
  }
}
