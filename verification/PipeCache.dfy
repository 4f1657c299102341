/** The pipe cache of lusbk_stack_collection.c: for each endpoint address the handle of the interface
    that the endpoint belongs to. */
module PipeCache {
  import opened Basics
  import opened DescriptorTree

  /** A driver handle; NULL is 0. */
  type Handle = nat

  datatype Shared = Shared(handle: Handle, current: int)

  const SHARED := 128
  const SLOTS := 32

  /** PIPEID_TO_IDX on the byte itself. */
  function PipeIdToIdx(n: bv8): bv8 { ((n & 0xF) | ((n >> 3) & 0x10)) & 0x1F }

  /** PIPEID_TO_IDX as arithmetic: the endpoint number, and the direction bit as the fifth bit. */
  function SlotOf(id: Byte): (x: nat)
    ensures x < SLOTS
  {
    id % 16 + if id >= 128 then 16 else 0
  }

  lemma SlotBits(n: bv8)
    ensures PipeIdToIdx(n) == n % 16 + if n >= 128 then 16 else 0
  {
  }

  /** Bits 4 to 6 of an endpoint address are reserved and zero (section 9.6.6 of USB 2.0). */
  predicate GoodAddress(id: Byte) { id % 128 < 16 }

  lemma SlotInjective(a: Byte, b: Byte)
    requires GoodAddress(a) && GoodAddress(b) && SlotOf(a) == SlotOf(b)
    ensures a == b
  {
    assert a % 128 == (if a >= 128 then a - 128 else a) && b % 128 == if b >= 128 then b - 128 else b;
  }

  // ---------------------------------------------------------------- one refresh

  /** What a slot holds after the refresh of one endpoint. */
  function Slot(now: Handle, alt: Byte, s: Shared, master: Handle): Handle {
    if alt as int == s.current then s.handle
    else if now == 0 then if s.handle != 0 then s.handle else master
    else now
  }

  /** Get_SharedInterface masks the index of the interface, not its number. */
  lemma SharedBits(index: bv8)
    ensures (index & 0x7F) as int == index as int % 128
  {
  }

  function Nulls(): seq<Handle> { seq(SLOTS, _ => 0) }

  type Cache = c: seq<Handle> | |c| == SLOTS witness Nulls()

  const EMPTY: Cache := Nulls()

  function OnePipe(c: Cache, id: Byte, alt: Byte, s: Shared, master: Handle): Cache {
    c[SlotOf(id) := Slot(c[SlotOf(id)], alt, s, master)]
  }

  function AltPipes(c: Cache, a: Alt, k: nat, s: Shared, master: Handle): Cache
    requires k <= |a.pipes|
  {
    if k == 0 then c else OnePipe(AltPipes(c, a, k - 1, s, master), a.pipes[k - 1].id, a.id, s, master)
  }

  function InterfacePipes(c: Cache, x: Interface, j: nat, s: Shared, master: Handle): Cache
    requires j <= |x.alts|
  {
    if j == 0 then c
    else AltPipes(InterfacePipes(c, x, j - 1, s, master), x.alts[j - 1], |x.alts[j - 1].pipes|, s, master)
  }

  function SharedOf(x: Interface, shared: seq<Shared>): Shared
    requires |shared| == SHARED
  {
    shared[x.index % SHARED]
  }

  function Refreshed(c: Cache, stack: seq<Interface>, i: nat, shared: seq<Shared>, master: Handle): Cache
    requires i <= |stack| && |shared| == SHARED
  {
    if i == 0 then c
    else
      var x := stack[i - 1];
      InterfacePipes(Refreshed(c, stack, i - 1, shared, master), x, |x.alts|, SharedOf(x, shared), master)
  }

  function Refresh(c: Cache, stack: seq<Interface>, shared: seq<Shared>, master: Handle): Cache
    requires |shared| == SHARED
  {
    Refreshed(c, stack, |stack|, shared, master)
  }

  class Device {
    const stack: seq<Interface>
    const master: Handle
    const shared: array<Shared>
    const cache: array<Handle>

    ghost predicate Valid()
      reads this
    {
      shared.Length == SHARED && cache.Length == SLOTS
    }

    constructor (stack: seq<Interface>, master: Handle, handles: seq<Handle>)
      requires |handles| == SHARED
      ensures Valid() && fresh(shared) && fresh(cache) && this.stack == stack && this.master == master
      ensures cache[..] == EMPTY && forall i :: 0 <= i < SHARED ==> shared[i] == Shared(handles[i], 0)
    {
      this.stack, this.master := stack, master;
      shared := new Shared[SHARED](i requires 0 <= i < SHARED => Shared(handles[i], 0));
      cache := new Handle[SLOTS](_ => 0);
    }

    method RefreshAlt(a: Alt, s: Shared)
      requires Valid()
      modifies cache
      ensures cache[..] == AltPipes(old(cache[..]), a, |a.pipes|, s, master)
    {
      ghost var was := cache[..];
      for k := 0 to |a.pipes|
        invariant cache[..] == AltPipes(was, a, k, s, master)
      {
        ghost var now := cache[..];
        var x := SlotOf(a.pipes[k].id);
        if a.id as int == s.current {
          cache[x] := s.handle;
        } else if cache[x] == 0 {
          if s.handle != 0 { cache[x] := s.handle; } else { cache[x] := master; }
        }
        assert cache[..] == OnePipe(now, a.pipes[k].id, a.id, s, master);
      }
    }

    method RefreshInterface(x: Interface, s: Shared)
      requires Valid()
      modifies cache
      ensures cache[..] == InterfacePipes(old(cache[..]), x, |x.alts|, s, master)
    {
      ghost var was := cache[..];
      for j := 0 to |x.alts|
        invariant cache[..] == InterfacePipes(was, x, j, s, master)
      {
        RefreshAlt(x.alts[j], s);
      }
    }

    /** UsbStack_RefreshPipeCache. */
    method RefreshPipeCache()
      requires Valid()
      modifies cache
      ensures cache[..] == Refresh(old(cache[..]), stack, shared[..], master)
    {
      ghost var was := cache[..];
      for i := 0 to |stack|
        invariant cache[..] == Refreshed(was, stack, i, shared[..], master)
      {
        RefreshInterface(stack[i], shared[stack[i].index % SHARED]);
      }
    }

    /** Update_SharedInterface_AltSetting and the refresh that follows it. */
    method ChangeSetting(i: nat, alt: Byte)
      requires Valid() && i < SHARED
      modifies shared, cache
      ensures shared[..] == Changed(old(shared[..]), i, alt)
      ensures cache[..] == Refresh(old(cache[..]), stack, shared[..], master)
    {
      shared[i] := shared[i].(current := alt);
      RefreshPipeCache();
    }
  }

  function Changed(shared: seq<Shared>, i: nat, alt: Byte): (r: seq<Shared>)
    requires i < |shared| == SHARED
    ensures |r| == SHARED && r[i] == Shared(shared[i].handle, alt)
    ensures forall k :: 0 <= k < SHARED && k != i ==> r[k] == shared[k]
  {
    shared[i := shared[i].(current := alt)]
  }

  // ---------------------------------------------------------------- what the cache holds

  /** An endpoint of one of the first `k` pipes uses slot `x`. */
  predicate PipesUse(a: Alt, k: nat, x: nat)
    requires k <= |a.pipes|
  {
    exists l :: 0 <= l < k && SlotOf(a.pipes[l].id) == x
  }

  predicate AltsUse(i: Interface, j: nat, x: nat)
    requires j <= |i.alts|
  {
    exists l :: 0 <= l < j && PipesUse(i.alts[l], |i.alts[l].pipes|, x)
  }

  predicate Uses(i: Interface, x: nat) { AltsUse(i, |i.alts|, x) }

  /** The refresh of endpoints with handle `h` sets their slots to `h` if they were empty or `h`. */
  predicate Towards(c: Cache, r: Cache, x: nat, used: bool, h: Handle)
    requires x < SLOTS
  {
    if used then (c[x] == 0 || c[x] == h ==> r[x] == h) else r[x] == c[x]
  }

  lemma {:induction false} AltTowards(c: Cache, a: Alt, k: nat, s: Shared, master: Handle, x: nat)
    requires k <= |a.pipes| && s.handle != 0 && x < SLOTS
    ensures Towards(c, AltPipes(c, a, k, s, master), x, PipesUse(a, k, x), s.handle)
  {
    if k > 0 {
      AltTowards(c, a, k - 1, s, master, x);
      if PipesUse(a, k - 1, x) {
        var l :| 0 <= l < k - 1 && SlotOf(a.pipes[l].id) == x;
        assert PipesUse(a, k, x);
      } else if SlotOf(a.pipes[k - 1].id) == x {
        assert PipesUse(a, k, x);
      } else {
        assert !PipesUse(a, k, x);
      }
    }
  }

  /** The refresh of any alternate setting, for any handles: the slots of its endpoints get the handle of
      the interface if the setting is the current one; otherwise an empty slot gets that handle, or the
      master handle if there is none, and a slot in use stays. */
  lemma {:induction false} AltSlot(c: Cache, a: Alt, k: nat, s: Shared, master: Handle, x: nat)
    requires k <= |a.pipes| && x < SLOTS
    ensures AltPipes(c, a, k, s, master)[x] ==
            if !exists l :: 0 <= l < k && SlotOf(a.pipes[l].id) == x then c[x]
            else if a.id as int == s.current then s.handle
            else if c[x] != 0 then c[x]
            else if s.handle != 0 then s.handle
            else master
  {
    if k > 0 {
      AltSlot(c, a, k - 1, s, master, x);
      if PipesUse(a, k - 1, x) {
        var l :| 0 <= l < k - 1 && SlotOf(a.pipes[l].id) == x;
        assert l < k && SlotOf(a.pipes[l].id) == x;
      } else if SlotOf(a.pipes[k - 1].id) == x {
        assert k - 1 < k && SlotOf(a.pipes[k - 1].id) == x;
      } else {
        assert !PipesUse(a, k, x);
      }
    }
  }

  lemma {:induction false} InterfaceTowards(c: Cache, i: Interface, j: nat, s: Shared, master: Handle, x: nat)
    requires j <= |i.alts| && s.handle != 0 && x < SLOTS
    ensures Towards(c, InterfacePipes(c, i, j, s, master), x, AltsUse(i, j, x), s.handle)
  {
    if j > 0 {
      InterfaceTowards(c, i, j - 1, s, master, x);
      var a := i.alts[j - 1];
      AltTowards(InterfacePipes(c, i, j - 1, s, master), a, |a.pipes|, s, master, x);
      if AltsUse(i, j - 1, x) {
        var l :| 0 <= l < j - 1 && PipesUse(i.alts[l], |i.alts[l].pipes|, x);
        assert AltsUse(i, j, x);
      } else if PipesUse(a, |a.pipes|, x) {
        assert AltsUse(i, j, x);
      } else {
        assert !AltsUse(i, j, x);
      }
    }
  }

  predicate Claimed(stack: seq<Interface>, shared: seq<Shared>)
    requires |shared| == SHARED
  {
    forall i :: 0 <= i < |stack| ==> SharedOf(stack[i], shared).handle != 0
  }

  /** Interfaces with an endpoint in the same slot have the same handle. */
  ghost predicate Agree(stack: seq<Interface>, shared: seq<Shared>)
    requires |shared| == SHARED
  {
    forall i, l, x :: 0 <= i < |stack| && 0 <= l < |stack| && 0 <= x < SLOTS
                      && Uses(stack[i], x) && Uses(stack[l], x) ==>
      SharedOf(stack[i], shared).handle == SharedOf(stack[l], shared).handle
  }

  /** No slot of an endpoint holds the handle of a foreign interface. */
  ghost predicate Clean(c: Cache, stack: seq<Interface>, shared: seq<Shared>)
    requires |shared| == SHARED
  {
    forall i, x :: 0 <= i < |stack| && 0 <= x < SLOTS && Uses(stack[i], x) ==>
      c[x] == 0 || c[x] == SharedOf(stack[i], shared).handle
  }

  /** Every endpoint's slot holds the handle of its own interface. */
  ghost predicate Settled(c: Cache, stack: seq<Interface>, shared: seq<Shared>)
    requires |shared| == SHARED
  {
    forall i, x :: 0 <= i < |stack| && 0 <= x < SLOTS && Uses(stack[i], x) ==>
      c[x] == SharedOf(stack[i], shared).handle
  }

  /** Refreshing the first `m` interfaces makes the slot of interface `i` its own handle if `i` is
      among them, and keeps it empty or its own handle otherwise. */
  lemma {:induction false} RefreshedSlot(c: Cache, stack: seq<Interface>, m: nat, shared: seq<Shared>, master: Handle,
                                         i: nat, x: nat)
    requires |shared| == SHARED && m <= |stack| && i < |stack| && x < SLOTS && Uses(stack[i], x)
    requires Claimed(stack, shared) && Agree(stack, shared)
    requires c[x] == 0 || c[x] == SharedOf(stack[i], shared).handle
    ensures var r := Refreshed(c, stack, m, shared, master);
            r[x] == SharedOf(stack[i], shared).handle || (r[x] == 0 && m <= i)
  {
    if m > 0 {
      RefreshedSlot(c, stack, m - 1, shared, master, i, x);
      var y := stack[m - 1];
      InterfaceTowards(Refreshed(c, stack, m - 1, shared, master), y, |y.alts|, SharedOf(y, shared), master, x);
      assert Uses(y, x) ==> SharedOf(y, shared).handle == SharedOf(stack[i], shared).handle;
    }
  }

  lemma SettledAgrees(r: Cache, stack: seq<Interface>, shared: seq<Shared>)
    requires |shared| == SHARED && Settled(r, stack, shared)
    ensures Agree(stack, shared)
  {
    forall i, l, x | 0 <= i < |stack| && 0 <= l < |stack| && 0 <= x < SLOTS && Uses(stack[i], x) && Uses(stack[l], x)
      ensures SharedOf(stack[i], shared).handle == SharedOf(stack[l], shared).handle
    {
      assert r[x] == SharedOf(stack[i], shared).handle && r[x] == SharedOf(stack[l], shared).handle;
    }
  }

  /** A refresh settles the cache exactly when interfaces that share a slot share their handle. */
  lemma RefreshSettles(c: Cache, stack: seq<Interface>, shared: seq<Shared>, master: Handle)
    requires |shared| == SHARED && Claimed(stack, shared) && Clean(c, stack, shared)
    ensures Settled(Refresh(c, stack, shared, master), stack, shared) <==> Agree(stack, shared)
  {
    var r := Refresh(c, stack, shared, master);
    if Agree(stack, shared) {
      forall i, x | 0 <= i < |stack| && 0 <= x < SLOTS && Uses(stack[i], x)
        ensures r[x] == SharedOf(stack[i], shared).handle
      {
        RefreshedSlot(c, stack, |stack|, shared, master, i, x);
      }
    } else if Settled(r, stack, shared) {
      SettledAgrees(r, stack, shared);
    }
  }

  /** Endpoint addresses are well formed and no two interfaces have an address in common. */
  ghost predicate Exclusive(stack: seq<Interface>) {
    && (forall i, j, k :: HasPipe(stack, i, j, k) ==> GoodAddress(stack[i].alts[j].pipes[k].id))
    && (forall i, j, k, i', j', k' :: HasPipe(stack, i, j, k) && HasPipe(stack, i', j', k') && i != i' ==>
          stack[i].alts[j].pipes[k].id != stack[i'].alts[j'].pipes[k'].id)
  }

  predicate HasPipe(stack: seq<Interface>, i: int, j: int, k: int) {
    0 <= i < |stack| && 0 <= j < |stack[i].alts| && 0 <= k < |stack[i].alts[j].pipes|
  }

  lemma ExclusiveAgrees(stack: seq<Interface>, shared: seq<Shared>)
    requires |shared| == SHARED && Exclusive(stack)
    ensures Agree(stack, shared)
  {
    forall i, l, x | 0 <= i < |stack| && 0 <= l < |stack| && 0 <= x < SLOTS && Uses(stack[i], x) && Uses(stack[l], x)
      ensures i == l
    {
      var j :| 0 <= j < |stack[i].alts| && PipesUse(stack[i].alts[j], |stack[i].alts[j].pipes|, x);
      var k :| 0 <= k < |stack[i].alts[j].pipes| && SlotOf(stack[i].alts[j].pipes[k].id) == x;
      var j' :| 0 <= j' < |stack[l].alts| && PipesUse(stack[l].alts[j'], |stack[l].alts[j'].pipes|, x);
      var k' :| 0 <= k' < |stack[l].alts[j'].pipes| && SlotOf(stack[l].alts[j'].pipes[k'].id) == x;
      assert HasPipe(stack, i, j, k) && HasPipe(stack, l, j', k');
      SlotInjective(stack[i].alts[j].pipes[k].id, stack[l].alts[j'].pipes[k'].id);
    }
  }

  // ---------------------------------------------------------------- any sequence of changes

  datatype Change = Change(i: nat, alt: Byte)

  /** The shared interfaces and the cache after the first refresh and a sequence of changes of
      alternate settings, each followed by a refresh. */
  function After(stack: seq<Interface>, shared: seq<Shared>, master: Handle,
                 changes: seq<Change>): (r: (seq<Shared>, Cache))
    requires |shared| == SHARED
    ensures |r.0| == SHARED && forall k :: 0 <= k < SHARED ==> r.0[k].handle == shared[k].handle
  {
    if changes == [] then (shared, Refresh(EMPTY, stack, shared, master))
    else
      var (now, c) := After(stack, shared, master, changes[..|changes| - 1]);
      var change := changes[|changes| - 1];
      var next := if change.i < SHARED then Changed(now, change.i, change.alt) else now;
      (next, Refresh(c, stack, next, master))
  }

  /** After the first refresh and after every change the slot of every endpoint holds the handle of
      its own interface. */
  lemma {:induction false} CacheAgrees(stack: seq<Interface>, shared: seq<Shared>, master: Handle, changes: seq<Change>)
    requires |shared| == 128 && Exclusive(stack) && Claimed(stack, shared)
    ensures forall i, j, k :: HasPipe(stack, i, j, k) ==>
      After(stack, shared, master, changes).1[SlotOf(stack[i].alts[j].pipes[k].id)]
      == shared[stack[i].index % 128].handle
  {
    var (now, c) := After(stack, shared, master, changes);
    AlwaysSettled(stack, shared, master, changes);
    forall i, j, k | HasPipe(stack, i, j, k)
      ensures c[SlotOf(stack[i].alts[j].pipes[k].id)] == SharedOf(stack[i], shared).handle
    {
      var x := SlotOf(stack[i].alts[j].pipes[k].id);
      assert PipesUse(stack[i].alts[j], |stack[i].alts[j].pipes|, x);
      assert Uses(stack[i], x);
    }
  }

  lemma {:induction false} AlwaysSettled(stack: seq<Interface>, shared: seq<Shared>, master: Handle,
                                         changes: seq<Change>)
    requires |shared| == SHARED && Exclusive(stack) && Claimed(stack, shared)
    ensures Settled(After(stack, shared, master, changes).1, stack, shared)
  {
    var (next, r) := After(stack, shared, master, changes);
    ExclusiveAgrees(stack, next);
    if changes == [] {
      RefreshSettles(EMPTY, stack, shared, master);
    } else {
      AlwaysSettled(stack, shared, master, changes[..|changes| - 1]);
      RefreshSettles(After(stack, shared, master, changes[..|changes| - 1]).1, stack, next, master);
    }
  }
}
