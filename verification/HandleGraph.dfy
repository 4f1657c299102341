/** Reference counts of the pool handles of lusbk_handles.c over every run of opening, cloning,
    creating dependents, attaching and freeing.  `PoolHandle_Inc` and `PoolHandle_Dec` are single
    steps, and a cleanup is separate from the release that follows it, so any number of threads
    may be at work. */
module HandleGraph {
  import opened Basics

  /** DevK, UsbK, the handles that keep a UsbK (OvlPoolK, StmK, IsochK), and LstInfoK. */
  datatype Kind = Device | Usb | Dependent | Info

  /** One pool slot: `Count.Use`, `Count.Ref`, `Disposing`, the handle it points to and the device
      list it is attached to.  The last four fields are history that no step reads to decide
      anything the source decides: whether the user still has to free the handle, how many calls
      are inside an Inc/Dec pair, how often the slot was acquired and how often it was released. */
  datatype Node = Node(kind: Kind, use: bool, ref: int, disposing: bool, target: Option<nat>, attached: Option<nat>,
                       owner: bool, holds: nat, acquired: nat, cleaned: nat)

  type Graph = seq<Node>

  function FreeSlot(kind: Kind): Node { Node(kind, false, 0, false, None, None, false, 0, 0, 0) }

  function Init(kinds: seq<Kind>): Graph { seq(|kinds|, n requires 0 <= n < |kinds| => FreeSlot(kinds[n])) }

  // ---------------------------------------------------------------- Inc and Dec

  /** PoolHandle_Inc succeeds: in use, not disposing, and more than the new reference afterwards. */
  predicate CanInc(x: Node) { x.use && !x.disposing && x.ref + 1 > 1 }

  function Kept(x: Node): Node { x.(ref := x.ref + 1) }

  /** The decrement of PoolHandle_Dec; the one that reaches zero starts the cleanup. */
  function Drop(x: Node): Node { x.(ref := x.ref - 1, disposing := x.ref - 1 == 0) }

  function Acquired(x: Node, target: Option<nat>, owner: bool): Node {
    x.(use := true, ref := 1, disposing := false, target := target, owner := owner, acquired := x.acquired + 1)
  }

  /** A slot that was acquired and given back at once because an Inc failed. */
  function Wasted(x: Node): Node { x.(acquired := x.acquired + 1, cleaned := x.cleaned + 1) }

  function Released(x: Node): Node { x.(use := false, disposing := false, cleaned := x.cleaned + 1) }

  // ---------------------------------------------------------------- steps

  datatype Action =
    | Open(u: nat, d: nat)          // UsbStack_Init without a shared device
    | Clone(u: nat, v: nat)         // UsbStack_Init with the device of u, inside a call that holds u
    | Depend(p: nat, u: nat)        // OvlK_Init, StmK_Init, IsochK_Init on u
    | Enumerate(n: nat)             // a new device info handle
    | Begin(n: nat)                 // PoolHandle_Inc at the start of a call
    | End(n: nat)                   // PoolHandle_Dec at its end
    | Free(n: nat)                  // the user's reference goes
    | Attach(n: nat, list: nat)
    | Detach(n: nat, list: nat)
    | Clean(n: nat)                 // the cleanup callback lets go of the target
    | Recycle(n: nat)               // mSpin_Release(Count.Use)

  predicate Vacant(g: Graph, n: nat, kind: Kind) { n < |g| && !g[n].use && g[n].kind == kind }

  predicate Enabled(g: Graph, a: Action) {
    match a
    case Open(u, d) => Vacant(g, u, Usb) && Vacant(g, d, Device)
    case Clone(u, v) => u < |g| && g[u].kind == Usb && g[u].holds > 0 && g[u].target.Some? && g[u].target.value < |g|
                        && Vacant(g, v, Usb)
    case Depend(p, u) => Vacant(g, p, Dependent) && u < |g| && g[u].kind == Usb
    case Enumerate(n) => Vacant(g, n, Info)
    case Begin(n) => n < |g| && g[n].kind != Device && CanInc(g[n])
    case End(n) => n < |g| && g[n].holds > 0
    case Free(n) => n < |g| && g[n].owner && g[n].attached == None
    case Attach(n, list) => n < |g| && g[n].kind == Info && g[n].holds > 0 && g[n].attached == None
    case Detach(n, list) => n < |g| && g[n].holds > 0 && g[n].attached == Some(list)
    case Clean(n) => n < |g| && g[n].disposing && g[n].target.Some? && g[n].target.value < |g|
    case Recycle(n) => n < |g| && g[n].disposing && g[n].target == None
  }

  /** A new handle `v` that points to `t`, if `t` can still be kept. */
  function Join(g: Graph, v: nat, t: nat): Graph
    requires v < |g| && t < |g|
  {
    if CanInc(g[t]) then g[t := Kept(g[t])][v := Acquired(g[v], Some(t), true)] else g[v := Wasted(g[v])]
  }

  function Step(g: Graph, a: Action): Graph
    requires Enabled(g, a)
  {
    match a
    case Open(u, d) => g[d := Acquired(g[d], None, false)][u := Acquired(g[u], Some(d), true)]
    case Clone(u, v) => Join(g, v, g[u].target.value)
    case Depend(p, u) => Join(g, p, u)
    case Enumerate(n) => g[n := Acquired(g[n], None, true)]
    case Begin(n) => g[n := Kept(g[n]).(holds := g[n].holds + 1)]
    case End(n) => g[n := Drop(g[n]).(holds := g[n].holds - 1)]
    case Free(n) => g[n := Drop(g[n]).(owner := false)]
    case Attach(n, list) => g[n := g[n].(attached := Some(list), holds := g[n].holds - 1)]
    case Detach(n, list) => g[n := Drop(g[n]).(attached := None)]
    case Clean(n) => LetGo(g, n)
    case Recycle(n) => g[n := Released(g[n])]
  }

  function LetGo(g: Graph, n: nat): Graph
    requires n < |g| && g[n].target.Some? && g[n].target.value < |g|
  {
    var t := g[n].target.value;
    var h := g[n := g[n].(target := None)];
    h[t := Drop(h[t])]
  }

  function Apply(g: Graph, a: Action): Graph { if Enabled(g, a) then Step(g, a) else g }

  function Exec(g: Graph, run: seq<Action>): Graph {
    if run == [] then g else Apply(Exec(g, run[..|run| - 1]), run[|run| - 1])
  }

  // ---------------------------------------------------------------- the invariant

  function Points(x: Node, n: nat): nat { if x.target == Some(n) then 1 else 0 }

  /** How many of the first `m` slots point to slot `n`. */
  function Pointers(g: Graph, m: nat, n: nat): nat
    requires m <= |g|
  {
    if m == 0 then 0 else Pointers(g, m - 1, n) + Points(g[m - 1], n)
  }

  function Bit(b: bool): nat { if b then 1 else 0 }

  predicate MayPoint(from: Kind, to: Kind) { (from == Usb && to == Device) || (from == Dependent && to == Usb) }

  /** References that do not come from other handles. */
  function Own(x: Node): int { Bit(x.owner) + Bit(x.attached.Some?) + x.holds }

  /** What is true of a slot by itself. */
  predicate Shape(x: Node) {
    && (x.use && !x.disposing <==> x.ref > 0) && (x.disposing ==> x.use) && (x.target.Some? ==> x.use)
    && (x.kind == Device ==> Own(x) == 0) && (x.attached.Some? ==> x.kind == Info)
    && (x.use && !x.disposing && (x.kind == Usb || x.kind == Dependent) ==> x.target.Some?)
    && x.acquired == x.cleaned + Bit(x.use)
  }

  predicate Arrow(g: Graph, x: Node) {
    x.target.Some? ==> x.target.value < |g| && MayPoint(x.kind, g[x.target.value].kind)
  }

  ghost predicate SlotSound(g: Graph, n: nat)
    requires n < |g|
  {
    g[n].ref == Own(g[n]) + Pointers(g, |g|, n) && Shape(g[n]) && Arrow(g, g[n])
  }

  ghost predicate Sound(g: Graph) { forall n :: 0 <= n < |g| ==> SlotSound(g, n) }

  lemma {:induction false} PointersUpdate(g: Graph, m: nat, k: nat, x: Node, n: nat)
    requires m <= |g| && k < |g|
    ensures Pointers(g[k := x], m, n) == Pointers(g, m, n) + if k < m then Points(x, n) - Points(g[k], n) else 0
  {
    if m > 0 { PointersUpdate(g, m - 1, k, x, n); }
  }

  lemma {:induction false} PointersMember(g: Graph, m: nat, k: nat, n: nat)
    requires k < m <= |g| && g[k].target == Some(n)
    ensures Pointers(g, m, n) > 0
  {
    if k < m - 1 { PointersMember(g, m - 1, k, n); }
  }

  /** One slot changes, its target does not. */
  lemma ChangeOne(g: Graph, k: nat, x: Node)
    requires Sound(g) && k < |g| && x.kind == g[k].kind && x.target == g[k].target
    requires x.ref - Own(x) == g[k].ref - Own(g[k]) && Shape(x)
    ensures Sound(g[k := x])
  {
    var h := g[k := x];
    forall n | 0 <= n < |h| ensures SlotSound(h, n) {
      assert SlotSound(g, n);
      PointersUpdate(g, |g|, k, x, n);
    }
  }

  /** Slot `v` starts to point to `t`, which gains a reference. */
  lemma ChangeArrow(g: Graph, t: nat, y: Node, v: nat, x: Node)
    requires Sound(g) && t < |g| && v < |g| && t != v && g[v].target == None && x.target == Some(t)
    requires y.kind == g[t].kind && x.kind == g[v].kind && MayPoint(x.kind, y.kind) && y.target == g[t].target
    requires y.ref - Own(y) == g[t].ref - Own(g[t]) + 1 && Shape(y)
    requires x.ref - Own(x) == g[v].ref - Own(g[v]) && Shape(x)
    ensures Sound(g[t := y][v := x])
  {
    var h := g[t := y];
    var r := h[v := x];
    forall n | 0 <= n < |r| ensures SlotSound(r, n) {
      assert SlotSound(g, n);
      PointersUpdate(g, |g|, t, y, n);
      PointersUpdate(h, |h|, v, x, n);
    }
  }

  /** Slot `n` stops to point to its target, which loses a reference. */
  lemma CleanSound(g: Graph, n: nat)
    requires Sound(g) && Enabled(g, Clean(n))
    ensures Sound(LetGo(g, n))
  {
    var t := g[n].target.value;
    assert SlotSound(g, n) && SlotSound(g, t);
    PointersMember(g, |g|, n, t);
    forall k | 0 <= k < |g| ensures SlotSound(LetGo(g, n), k) { LetGoSound(g, n, t, k); }
  }

  lemma LetGoSound(g: Graph, n: nat, t: nat, k: nat)
    requires n < |g| && t < |g| && k < |g| && t != n && g[n].target == Some(t) && g[n].disposing
    requires SlotSound(g, n) && SlotSound(g, t) && SlotSound(g, k) && g[t].ref > 0
    ensures |LetGo(g, n)| == |g| && SlotSound(LetGo(g, n), k)
  {
    var x := g[n].(target := None);
    var h := g[n := x];
    PointersUpdate(g, |g|, n, x, k);
    PointersUpdate(h, |h|, t, Drop(h[t]), k);
  }

  lemma JoinSound(g: Graph, v: nat, t: nat)
    requires Sound(g) && v < |g| && t < |g| && !g[v].use && MayPoint(g[v].kind, g[t].kind)
    ensures Sound(Join(g, v, t))
    ensures forall n :: 0 <= n < |g| && n != v && n != t ==> Join(g, v, t)[n] == g[n]
    ensures g[t].use && !g[t].disposing ==>
              && Join(g, v, t)[v].use && Join(g, v, t)[v].target == Some(t) && Join(g, v, t)[v].ref == 1
              && Join(g, v, t)[t] == g[t].(ref := g[t].ref + 1)
    ensures !(g[t].use && !g[t].disposing) ==>
              !Join(g, v, t)[v].use && Join(g, v, t)[v].cleaned == g[v].cleaned + 1 && Join(g, v, t)[t] == g[t]
  {
    assert SlotSound(g, v) && SlotSound(g, t);
    if CanInc(g[t]) {
      ChangeArrow(g, t, Kept(g[t]), v, Acquired(g[v], Some(t), true));
    } else {
      ChangeOne(g, v, Wasted(g[v]));
    }
  }

  lemma OpenSound(g: Graph, u: nat, d: nat)
    requires Sound(g) && Enabled(g, Open(u, d))
    ensures Sound(Step(g, Open(u, d)))
  {
    assert SlotSound(g, u) && SlotSound(g, d);
    ChangeArrow(g, d, Acquired(g[d], None, false), u, Acquired(g[u], Some(d), true));
  }

  lemma StepSound(g: Graph, a: Action)
    requires Sound(g) && Enabled(g, a)
    ensures Sound(Step(g, a))
  {
    match a
    case Open(u, d) => OpenSound(g, u, d);
    case Clone(u, v) =>
      assert SlotSound(g, u);
      JoinSound(g, v, g[u].target.value);
    case Depend(p, u) => JoinSound(g, p, u);
    case Clean(n) => CleanSound(g, n);
    case Enumerate(n) => PlainSound(g, a, n);
    case Begin(n) => PlainSound(g, a, n);
    case End(n) => PlainSound(g, a, n);
    case Free(n) => PlainSound(g, a, n);
    case Attach(n, _) => PlainSound(g, a, n);
    case Detach(n, _) => PlainSound(g, a, n);
    case Recycle(n) => PlainSound(g, a, n);
  }

  lemma PlainSound(g: Graph, a: Action, n: nat)
    requires Sound(g) && Enabled(g, a) && n < |g|
    requires (a.Enumerate? || a.Begin? || a.End? || a.Free? || a.Attach? || a.Detach? || a.Recycle?) && a.n == n
    ensures Sound(Step(g, a))
  {
    assert SlotSound(g, n);
    var r := Step(g, a);
    ChangeOne(g, n, r[n]);
    assert r == g[n := r[n]];
  }

  lemma {:induction false} InitPointers(kinds: seq<Kind>, m: nat, n: nat)
    requires m <= |kinds|
    ensures Pointers(Init(kinds), m, n) == 0
  {
    if m > 0 { InitPointers(kinds, m - 1, n); }
  }

  /** Every run keeps every count equal to the references that exist. */
  lemma {:induction false} AlwaysSound(kinds: seq<Kind>, run: seq<Action>)
    ensures Sound(Exec(Init(kinds), run)) && |Exec(Init(kinds), run)| == |kinds|
  {
    var g := Init(kinds);
    if run == [] {
      forall n | 0 <= n < |g| ensures SlotSound(g, n) { InitPointers(kinds, |g|, n); }
    } else {
      AlwaysSound(kinds, run[..|run| - 1]);
      var before, a := Exec(g, run[..|run| - 1]), run[|run| - 1];
      if Enabled(before, a) { StepSound(before, a); }
    }
  }

  // ---------------------------------------------------------------- what follows in every run

  lemma {:induction false} NoPointers(g: Graph, m: nat, n: nat)
    requires m <= |g| && forall k :: 0 <= k < |g| ==> g[k].target != Some(n)
    ensures Pointers(g, m, n) == 0
  {
    if m > 0 { NoPointers(g, m - 1, n); }
  }

  /** What the count of slot `n` is made of, kind by kind. */
  predicate CountsReferences(g: Graph, n: nat)
    requires n < |g|
  {
    && (g[n].kind == Device ==> g[n].ref == Pointers(g, |g|, n))
    && (g[n].kind == Usb ==> g[n].ref == Bit(g[n].owner) + g[n].holds + Pointers(g, |g|, n))
    && (g[n].kind == Info ==> g[n].ref == Bit(g[n].owner) + Bit(g[n].attached.Some?) + g[n].holds)
  }

  lemma SoundCounts(g: Graph, n: nat)
    requires Sound(g) && n < |g|
    ensures CountsReferences(g, n)
  {
    assert SlotSound(g, n);
    if g[n].kind == Info {
      forall m | 0 <= m < |g| ensures g[m].target != Some(n) { assert SlotSound(g, m); }
      NoPointers(g, |g|, n);
    }
  }

  /** A DevK counts the UsbK handles that point to it, a UsbK its owner, the calls inside it and its
      dependents, a device info its owner, its list and the calls inside it; whatever points to a
      handle is in use and of the kind that may. */
  lemma RefCounts(kinds: seq<Kind>, run: seq<Action>, n: nat)
    requires n < |kinds|
    ensures var g := Exec(Init(kinds), run);
            && |g| == |kinds| && CountsReferences(g, n)
            && (forall m :: 0 <= m < |g| && g[m].target == Some(n) ==> g[m].use && MayPoint(g[m].kind, g[n].kind))
  {
    var g := Exec(Init(kinds), run);
    AlwaysSound(kinds, run);
    SoundCounts(g, n);
    forall m | 0 <= m < |g| && g[m].target == Some(n) ensures g[m].use && MayPoint(g[m].kind, g[n].kind) {
      assert SlotSound(g, m);
    }
  }

  /** A step from `x` to `y` of a slot cleans it up at the last reference only, and counts releases. */
  predicate CleanupStep(x: Node, y: Node) {
    && (!x.disposing && y.disposing <==> x.ref > 0 && y.ref == 0)
    && y.acquired == y.cleaned + Bit(y.use)
    && (y.cleaned > x.cleaned ==> y.ref == 0 && !y.use)
  }

  lemma SlotCleanup(g: Graph, a: Action, n: nat)
    requires Sound(g) && n < |g| == |Apply(g, a)| && Shape(g[n]) && Shape(Apply(g, a)[n])
    requires g[n].ref >= 0 && Apply(g, a)[n].ref >= 0
    ensures CleanupStep(g[n], Apply(g, a)[n])
  {
    if Enabled(g, a) {
      if a.Clone? { JoinCleanup(g, a.v, g[a.u].target.value, n); }
      else if a.Depend? { JoinCleanup(g, a.p, a.u, n); }
      else if a.Clean? { LetGoCleanup(g, a.n, n); }
    }
  }

  lemma JoinCleanup(g: Graph, v: nat, t: nat, n: nat)
    requires v < |g| && t < |g| && n < |g| && !g[v].use && Shape(g[n]) && Shape(Join(g, v, t)[n]) && g[n].ref >= 0
    ensures CleanupStep(g[n], Join(g, v, t)[n])
  {
  }

  lemma LetGoCleanup(g: Graph, m: nat, n: nat)
    requires Enabled(g, Clean(m)) && n < |g| && Shape(g[n]) && Shape(LetGo(g, m)[n])
    requires g[n].ref >= 0 && LetGo(g, m)[n].ref >= 0
    ensures CleanupStep(g[n], LetGo(g, m)[n])
  {
  }

  /** The last reference and nothing else starts a cleanup, and there is one release for every
      acquisition of a slot that is not in use any more. */
  lemma CleanupOnce(kinds: seq<Kind>, run: seq<Action>, a: Action, n: nat)
    requires n < |kinds|
    ensures var g, h := Exec(Init(kinds), run), Apply(Exec(Init(kinds), run), a);
            |g| == |h| == |kinds| && CleanupStep(g[n], h[n])
  {
    var g := Exec(Init(kinds), run);
    AlwaysSound(kinds, run);
    AlwaysSound(kinds, run + [a]);
    assert (run + [a])[..|run|] == run;
    assert SlotSound(g, n) && SlotSound(Apply(g, a), n);
    SlotCleanup(g, a, n);
  }

  /** Inside a call the handle is alive, and so is the device of a UsbK handle. */
  lemma HeldAlive(kinds: seq<Kind>, run: seq<Action>, n: nat)
    requires n < |kinds|
    ensures var g := Exec(Init(kinds), run);
            |g| == |kinds| &&
            (g[n].holds > 0 ==>
               && g[n].use && !g[n].disposing
               && (g[n].kind == Usb || g[n].kind == Dependent ==>
                     g[n].target.Some? && g[n].target.value < |g| && g[g[n].target.value].use
                         && CanInc(g[g[n].target.value])))
  {
    var g := Exec(Init(kinds), run);
    AlwaysSound(kinds, run);
    assert SlotSound(g, n);
    if g[n].holds > 0 && g[n].target.Some? {
      PointersMember(g, |g|, n, g[n].target.value);
      assert SlotSound(g, g[n].target.value);
    }
  }

  /** The slots of `g` other than those in `changed` are as before. */
  ghost predicate OnlyAt(g: Graph, h: Graph, changed: set<nat>) {
    |h| == |g| && forall n: nat :: n < |g| && n !in changed ==> h[n] == g[n]
  }

  lemma JoinKeeps(g: Graph, v: nat, t: nat, h: Graph)
    requires v < |g| && t < |g| && v != t && h == Join(g, v, t) && CanInc(g[t])
    ensures OnlyAt(g, h, {v, t}) && h[t] == g[t].(ref := g[t].ref + 1)
    ensures h[v].use && !h[v].disposing && h[v].ref == 1 && h[v].owner && h[v].target == Some(t)
  {
  }

  lemma JoinWastes(g: Graph, v: nat, t: nat, h: Graph)
    requires v < |g| && t < |g| && h == Join(g, v, t) && !CanInc(g[t]) && !g[v].use
    ensures OnlyAt(g, h, {v}) && !h[v].use && h[v].cleaned == g[v].cleaned + 1
  {
  }

  /** In every run: cloning a handle always succeeds, since the call that clones it holds it; the clone
      points to the same device, which it keeps once. */
  lemma CloneShares(kinds: seq<Kind>, run: seq<Action>, u: nat, v: nat)
    requires Enabled(Exec(Init(kinds), run), Clone(u, v))
    ensures var g, h := Exec(Init(kinds), run), Apply(Exec(Init(kinds), run), Clone(u, v));
            var t := g[u].target.value;
            && OnlyAt(g, h, {v, t}) && h[t] == g[t].(ref := g[t].ref + 1)
            && h[v].use && !h[v].disposing && h[v].ref == 1 && h[v].owner && h[v].target == Some(t)
  {
    var g := Exec(Init(kinds), run);
    AlwaysSound(kinds, run);
    HeldAlive(kinds, run, u);
    assert SlotSound(g, u) && SlotSound(g, v);
    JoinKeeps(g, v, g[u].target.value, Apply(g, Clone(u, v)));
  }

  /** A new pool, stream or isochronous handle points to its UsbK and keeps it once if the UsbK is in use
      and not disposing; otherwise its slot is given back and nothing else has changed. */
  lemma DependKeeps(kinds: seq<Kind>, run: seq<Action>, p: nat, u: nat)
    requires Enabled(Exec(Init(kinds), run), Depend(p, u))
    ensures var g, h := Exec(Init(kinds), run), Apply(Exec(Init(kinds), run), Depend(p, u));
            if g[u].use && !g[u].disposing then
              && OnlyAt(g, h, {p, u}) && h[u] == g[u].(ref := g[u].ref + 1)
              && h[p].use && !h[p].disposing && h[p].ref == 1 && h[p].owner && h[p].target == Some(u)
            else OnlyAt(g, h, {p}) && !h[p].use && h[p].cleaned == g[p].cleaned + 1
  {
    var g := Exec(Init(kinds), run);
    AlwaysSound(kinds, run);
    assert SlotSound(g, p) && SlotSound(g, u);
    var h := Apply(g, Depend(p, u));
    if CanInc(g[u]) { JoinKeeps(g, p, u, h); } else { JoinWastes(g, p, u, h); }
  }

  /** Slot `m` alone changes, by one reference more or less of one kind. */
  ghost predicate OneMoves(g: Graph, h: Graph, m: nat, refs: int, holds: int, owner: bool, attached: Option<nat>) {
    && m < |g| && OnlyAt(g, h, {m}) && h[m].ref == g[m].ref + refs && h[m].holds == g[m].holds + holds
    && h[m].owner == owner && h[m].attached == attached && h[m].target == g[m].target && h[m].kind == g[m].kind
  }

  /** A call adds a reference when it begins and drops it when it ends; attaching hands the caller's
      reference over to the list and detaching drops that of the list; freeing drops the user's; no other
      slot is touched. */
  lemma ReferencesMove(kinds: seq<Kind>, run: seq<Action>, a: Action, m: nat)
    requires Enabled(Exec(Init(kinds), run), a) && m < |kinds|
    ensures var g, h := Exec(Init(kinds), run), Apply(Exec(Init(kinds), run), a);
            && |g| == |kinds|
            && (a == Begin(m) ==> OneMoves(g, h, m, 1, 1, g[m].owner, g[m].attached))
            && (a == End(m) ==> OneMoves(g, h, m, -1, -1, g[m].owner, g[m].attached))
            && (a == Free(m) ==> g[m].owner && OneMoves(g, h, m, -1, 0, false, g[m].attached))
            && (forall list: nat :: a == Attach(m, list) ==> OneMoves(g, h, m, 0, -1, g[m].owner, Some(list)))
            && (forall list: nat :: a == Detach(m, list) ==>
                  g[m].attached == Some(list) && OneMoves(g, h, m, -1, 0, g[m].owner, None))
  {
    AlwaysSound(kinds, run);
  }

  /** A new UsbK keeps a new DevK, and a new device info has its user's reference only. */
  lemma NewHandles(kinds: seq<Kind>, run: seq<Action>, u: nat, d: nat)
    ensures var g, open, list := Exec(Init(kinds), run), Open(u, d), Enumerate(u);
            && (Enabled(g, open) ==>
                  var h := Apply(g, open);
                  && OnlyAt(g, h, {u, d}) && h[u].use && h[u].target == Some(d) && h[u].owner && h[u].ref == 1
                  && h[d].use && h[d].ref == 1 && h[d].target == None && !h[d].owner)
            && (Enabled(g, list) ==>
                  var h := Apply(g, list);
                  OnlyAt(g, h, {u}) && h[u].use && h[u].ref == 1 && h[u].owner && h[u].holds == g[u].holds)
  {
  }

  lemma SlotFacts(kinds: seq<Kind>, run: seq<Action>, m: nat)
    requires m < |kinds|
    ensures var g := Exec(Init(kinds), run);
            |g| == |kinds| && g[m].target != Some(m) && (g[m].disposing ==> g[m].ref == 0)
  {
    AlwaysSound(kinds, run);
    assert SlotSound(Exec(Init(kinds), run), m);
  }

  lemma LetGoMoves(g: Graph, m: nat, t: nat, h: Graph)
    requires m < |g| && t < |g| && t != m && g[m].target == Some(t) && h == LetGo(g, m)
    ensures OnlyAt(g, h, {m, t}) && h[m] == g[m].(target := None) && h[t].ref == g[t].ref - 1
  {
  }

  /** The cleanup of a handle lets go of its target once, and its slot is given back only when it has none
      left and no reference either. */
  lemma CleanupMoves(kinds: seq<Kind>, run: seq<Action>, m: nat)
    requires m < |kinds|
    ensures var g := Exec(Init(kinds), run);
            && |g| == |kinds|
            && (Enabled(g, Clean(m)) ==>
                  var h, t := Apply(g, Clean(m)), g[m].target.value;
                  t < |g| && OnlyAt(g, h, {m, t}) && h[m] == g[m].(target := None) && h[t].ref == g[t].ref - 1)
            && (Enabled(g, Recycle(m)) ==>
                  OnlyAt(g, Apply(g, Recycle(m)), {m}) && g[m].ref == 0 && !Apply(g, Recycle(m))[m].use)
  {
    var g := Exec(Init(kinds), run);
    SlotFacts(kinds, run, m);
    if Enabled(g, Clean(m)) { LetGoMoves(g, m, g[m].target.value, Apply(g, Clean(m))); }
  }

  /** When the user has freed everything, no call is under way and every cleanup has run to its end,
      no slot of any pool is in use. */
  lemma NoLeak(kinds: seq<Kind>, run: seq<Action>, n: nat)
    requires var g := Exec(Init(kinds), run);
             forall k :: 0 <= k < |g| ==> Own(g[k]) == 0 && !Enabled(g, Clean(k)) && !Enabled(g, Recycle(k))
    requires n < |kinds|
    ensures |Exec(Init(kinds), run)| == |kinds| && !Exec(Init(kinds), run)[n].use
  {
    var g := Exec(Init(kinds), run);
    AlwaysSound(kinds, run);
    forall k | 0 <= k < |g| && g[k].kind == Dependent ensures !g[k].use { Unused(g, k); }
    forall k | 0 <= k < |g| && g[k].kind == Usb ensures !g[k].use { Unused(g, k); }
    Unused(g, n);
  }

  lemma Unused(g: Graph, n: nat)
    requires Sound(g) && n < |g| && Own(g[n]) == 0 && !Enabled(g, Clean(n)) && !Enabled(g, Recycle(n))
    requires g[n].kind == Usb ==> forall k :: 0 <= k < |g| && g[k].kind == Dependent ==> !g[k].use
    requires g[n].kind == Device ==> forall k :: 0 <= k < |g| && g[k].kind == Usb ==> !g[k].use
    ensures !g[n].use
  {
    assert SlotSound(g, n);
    forall k | 0 <= k < |g| ensures g[k].target != Some(n) { assert SlotSound(g, k); }
    NoPointers(g, |g|, n);
  }

  // ---------------------------------------------------------------- Dec with its cleanup

  function Rank(kind: Kind): nat { match kind case Dependent => 2 case Usb => 1 case Device => 0 case Info => 0 }

  /** Every handle points to one of lower rank. */
  ghost predicate Ranked(g: Graph) { forall n :: 0 <= n < |g| ==> Arrow(g, g[n]) }

  /** What one thread does that drops a reference of slot `n` and runs the cleanup if it has to. */
  function Dropped(g: Graph, n: nat): (r: Graph)
    requires n < |g| && Ranked(g)
    ensures |r| == |g| && Ranked(r) && forall k :: 0 <= k < |g| ==> r[k].kind == g[k].kind
    ensures forall k :: 0 <= k < |g| && Rank(g[k].kind) >= Rank(g[n].kind) && k != n ==> r[k] == g[k]
    decreases Rank(g[n].kind), 1
  {
    if !g[n].use || g[n].disposing then g else Finish(g[n := Drop(g[n])], n)
  }

  /** The cleanup, if the count has reached zero: the target is dropped and the slot released. */
  function Finish(h: Graph, n: nat): (r: Graph)
    requires n < |h| && Ranked(h)
    ensures |r| == |h| && Ranked(r) && forall k :: 0 <= k < |h| ==> r[k].kind == h[k].kind
    ensures forall k :: 0 <= k < |h| && Rank(h[k].kind) >= Rank(h[n].kind) && k != n ==> r[k] == h[k]
    decreases Rank(h[n].kind), 0
  {
    if !h[n].disposing then h
    else
      var i := h[n := h[n].(target := None)];
      var j := if h[n].target.Some? then Dropped(i, h[n].target.value) else i;
      j[n := Released(j[n])]
  }

  /** The steps of the cleanup of slot `n`. */
  function Cascade(g: Graph, n: nat): seq<Action>
    requires n < |g| && Ranked(g)
    decreases Rank(g[n].kind)
  {
    if !g[n].disposing then []
    else if g[n].target.Some? then
      var t := g[n].target.value;
      assert Arrow(g, g[n]);
      [Clean(n)] + Cascade(LetGo(g, n), t) + [Recycle(n)]
    else [Recycle(n)]
  }

  lemma {:induction false} ExecAppend(g: Graph, a: seq<Action>, b: seq<Action>)
    ensures Exec(g, a + b) == Exec(Exec(g, a), b)
  {
    if b == [] {
      assert a + b == a;
    } else {
      ExecAppend(g, a, b[..|b| - 1]);
      assert (a + b)[..|a + b| - 1] == a + b[..|b| - 1];
    }
  }

  lemma ExecOne(g: Graph, a: Action)
    ensures Exec(g, [a]) == Apply(g, a)
  {
    assert [a][..0] == [];
  }

  lemma SoundRanked(g: Graph)
    requires Sound(g)
    ensures Ranked(g)
  {
    forall n | 0 <= n < |g| ensures Arrow(g, g[n]) { assert SlotSound(g, n); }
  }

  /** A cleanup with a target: let go of it, do what that leads to, recycle the slot. */
  lemma Cascaded(h: Graph, n: nat, mid: seq<Action>, i: Graph, j: Graph)
    requires Enabled(h, Clean(n)) && i == LetGo(h, n) && j == Exec(i, mid)
    requires n < |j| && j[n].disposing && j[n].target == None
    ensures Exec(h, [Clean(n)] + mid + [Recycle(n)]) == j[n := Released(j[n])]
  {
    ExecOne(h, Clean(n));
    ExecAppend(h, [Clean(n)], mid);
    ExecAppend(h, [Clean(n)] + mid, [Recycle(n)]);
    ExecOne(j, Recycle(n));
  }

  /** The target of a slot that is being cleaned up is alive and of lower rank. */
  lemma TargetAlive(h: Graph, n: nat)
    requires Sound(h) && n < |h| && h[n].target.Some?
    ensures Arrow(h, h[n]) && h[n].target.value != n
    ensures h[h[n].target.value].use && !h[h[n].target.value].disposing
  {
    var t := h[n].target.value;
    assert SlotSound(h, n);
    PointersMember(h, |h|, n, t);
    assert SlotSound(h, t);
  }

  lemma FinishTarget(h: Graph, n: nat, t: nat, i: Graph)
    requires Sound(h) && Ranked(h) && n < |h| && h[n].disposing && h[n].target == Some(t) && t < |h|
             && i == LetGo(h, n) && Ranked(i)
    ensures Finish(h, n) == Finish(i, t)[n := Released(Finish(i, t)[n])]
    ensures Finish(i, t)[n] == i[n] && |i| == |h| && i[n].disposing && i[n].target == None && i[t].kind == h[t].kind
  {
    TargetAlive(h, n);
    var g := h[n := h[n].(target := None)];
    assert i == g[t := Drop(g[t])];
    assert Ranked(g) by { forall k | 0 <= k < |g| ensures Arrow(g, g[k]) { assert Arrow(h, h[k]); } }
    assert Dropped(g, t) == Finish(i, t);
  }

  /** The cleanup that PoolHandle_Dec runs at once is one of the runs the theorems above are about. */
  lemma {:induction false} FinishIsRun(h: Graph, n: nat)
    requires Sound(h) && n < |h|
    ensures Ranked(h) && Exec(h, Cascade(h, n)) == Finish(h, n)
    decreases Rank(h[n].kind)
  {
    SoundRanked(h);
    if h[n].disposing {
      if h[n].target.Some? {
        var t, i := h[n].target.value, LetGo(h, n);
        TargetAlive(h, n);
        CleanSound(h, n);
        SoundRanked(i);
        FinishTarget(h, n, t, i);
        FinishIsRun(i, t);
        Cascaded(h, n, Cascade(i, t), i, Finish(i, t));
      } else {
        ExecOne(h, Recycle(n));
        assert h[n := h[n].(target := None)] == h;
      }
    }
  }

  /** The pools of handles, and for each slot the thread that runs or ran its cleanup: the value that
      `Disposing` holds while it is not zero. */
  class Table {
    var g: Graph
    var disposer: seq<nat>

    ghost predicate Valid()
      reads this
    {
      Ranked(g) && |disposer| == |g|
    }

    constructor (kinds: seq<Kind>)
      ensures g == Init(kinds) && Valid()
    {
      g := Init(kinds);
      disposer := seq(|kinds|, _ => 0);
    }

    /** PoolHandle_Inc by thread `me`, with an undo when the new reference is the only one.  The thread
        that cleans the handle up gets its way without a reference. */
    method Inc(n: nat, me: nat) returns (ok: bool)
      requires n < |g| && Valid()
      modifies this`g
      ensures ok <==> CanInc(old(g)[n]) || (old(g)[n].use && old(g)[n].disposing && disposer[n] == me)
      ensures CanInc(old(g)[n]) <==> old(g)[n].use && !old(g)[n].disposing && old(g)[n].ref > 0
      ensures g == if CanInc(old(g)[n]) then old(g)[n := old(g)[n].(ref := old(g)[n].ref + 1)] else old(g)
    {
      if !g[n].use { return false; }
      if g[n].disposing { return disposer[n] == me; }
      ghost var was := g;
      g := g[n := g[n].(ref := g[n].ref + 1)];
      if g[n].ref > 1 { return true; }
      g := g[n := g[n].(ref := g[n].ref - 1)];
      assert g == was;
      return false;
    }

    /** PoolHandle_Dec by thread `me`; the cleanup callback of a UsbK or a dependent drops what it
        points to. */
    method Dec(n: nat, me: nat) returns (kept: bool)
      requires n < |g| && Valid()
      modifies this
      ensures Valid() && g == Dropped(old(g), n)
      ensures kept <==> old(g)[n].use && if old(g)[n].disposing then old(disposer)[n] == me else old(g)[n].ref > 1
      ensures old(g)[n].use && !old(g)[n].disposing && old(g)[n].ref == 1 ==> disposer[n] == me
      ensures forall k :: 0 <= k < |disposer| && Rank(old(g)[k].kind) >= Rank(old(g)[n].kind) && k != n ==>
                disposer[k] == old(disposer)[k]
      decreases Rank(g[n].kind)
    {
      if !g[n].use { return false; }
      if g[n].disposing { return disposer[n] == me; }
      g := g[n := Drop(g[n])];
      if g[n].ref != 0 { return g[n].ref > 0; }
      disposer := disposer[n := me];
      var target := g[n].target;
      g := g[n := g[n].(target := None)];
      if target.Some? {
        var _ := Dec(target.value, me);
      }
      g := g[n := Released(g[n])];
      return false;
    }
  }
}
