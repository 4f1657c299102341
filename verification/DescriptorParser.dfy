/** The cursor parser of lusbk_stack_collection.c, proved against the fold of DescriptorTree. */
module DescriptorParser {
  import opened Basics
  import opened DescriptorTree

  /** The configuration block: its descriptors one after the other. */
  function Flat(ds: seq<Desc>): seq<Byte> {
    if ds == [] then [] else Flat(ds[..|ds| - 1]) + ds[|ds| - 1]
  }

  function Start(ds: seq<Desc>, k: nat): nat
    requires k <= |ds|
  {
    |Flat(ds[..k])|
  }

  /** `bLength` is the length, and the fields the parser reads are there. */
  predicate GoodDesc(d: Desc) {
    |d| >= 2 && d[0] == |d| && (Is(d, INTERFACE) ==> |d| > SETTING) && (Is(d, ENDPOINT) ==> |d| > ADDRESS)
  }

  /** `wTotalLength`. */
  function TotalLength(block: seq<Byte>): int
    requires |block| >= 4
  {
    var low: int, high: int := block[2], block[3];
    low + 256 * high
  }

  /** A block of good descriptors, the first of which carries `wTotalLength`. */
  ghost predicate WellFormed(block: seq<Byte>, all: seq<Desc>) {
    && block == Flat(all) && all != [] && (forall k :: 0 <= k < |all| ==> GoodDesc(all[k]))
    && |block| >= 4 && TotalLength(block) == |block|
  }

  /** The descriptors after the first one, up to and including number `k`. */
  function Taken(all: seq<Desc>, k: nat): seq<Desc>
    requires all != []
  {
    if k < |all| then all[1..k + 1] else all[1..]
  }

  function Done(all: seq<Desc>, k: nat): (p: Progress)
    requires all != []
    ensures Sound(p)
  {
    FeedAll(START, Taken(all, k))
  }

  predicate InterfaceNext(all: seq<Desc>, k: nat) { k + 1 < |all| && Is(all[k + 1], INTERFACE) }

  /** A LONG compared with a `sizeof`: the comparison is unsigned. */
  function Unsigned(x: int): int { if x < 0 then x + 0x1_0000_0000 else x }

  /** The unsigned comparison goes on behind the current descriptor when enough remains for another
      header, and also when the descriptor is longer than what remains. */
  lemma EndTest(remaining: int, length: Byte)
    requires 2 <= remaining <= 0xFFFF
    ensures Unsigned(remaining - length) >= 2 <==> length + 2 <= remaining || length > remaining
  {
  }

  lemma {:induction false} Placed(ds: seq<Desc>, k: nat)
    requires k < |ds|
    ensures Start(ds, k) + |ds[k]| == Start(ds, k + 1) <= |Flat(ds)|
    ensures Flat(ds)[Start(ds, k)..Start(ds, k) + |ds[k]|] == ds[k]
  {
    var init, d := ds[..|ds| - 1], ds[|ds| - 1];
    if k < |init| {
      Placed(init, k);
      assert init[..k] == ds[..k] && init[..k + 1] == ds[..k + 1];
    } else {
      assert ds[..k] == init && ds[..k + 1] == ds;
    }
  }

  /** The bytes the parser reads at a descriptor are the fields of the descriptor. */
  lemma Bytes(block: seq<Byte>, all: seq<Desc>, k: nat, offset: nat)
    requires WellFormed(block, all) && k < |all| && offset == Start(all, k)
    ensures offset + |all[k]| <= |block| && block[offset] == |all[k]| && block[offset..offset + block[offset]] == all[k]
    ensures forall f :: 0 <= f < |all[k]| ==> block[offset + f] == Field(all[k], f)
    ensures offset + |all[k]| == Start(all, k + 1)
  {
    Placed(all, k);
    var d := block[offset..offset + |all[k]|];
    assert d[0] == block[offset];
    forall f | 0 <= f < |all[k]| ensures block[offset + f] == Field(all[k], f) { assert d[f] == all[k][f]; }
  }

  lemma StartEnds(all: seq<Desc>)
    ensures Start(all, |all|) == |Flat(all)|
  {
    assert all[..|all|] == all;
  }

  /** What is left is at least a descriptor header unless nothing is left. */
  lemma {:induction false} Left(all: seq<Desc>, k: nat)
    requires k <= |all| && forall j :: 0 <= j < |all| ==> GoodDesc(all[j])
    ensures if k == |all| then Start(all, k) == |Flat(all)| else Start(all, k) + 2 <= |Flat(all)|
  {
    if k == |all| { StartEnds(all); } else { Placed(all, k); }
  }

  lemma TakeNext(all: seq<Desc>, done: nat, k: nat, p: Progress)
    requires k == done + 1 && k < |all| && p == Done(all, done)
    ensures Done(all, k) == Feed(p, all[k])
  {
    assert Taken(all, k) == Taken(all, done) + [all[k]];
    FeedOne(START, Taken(all, done), all[k]);
  }

  lemma TakeEnd(all: seq<Desc>, done: nat, k: nat)
    requires k == done + 1 && k == |all|
    ensures Done(all, k) == Done(all, done) == FeedAll(START, all[1..])
  {
    assert all[1..k] == all[1..];
  }

  lemma HeaderFed(p: Progress, d: Desc, i: nat, j: nat, interfaces: seq<Interface>)
    requires Sound(p) && Is(d, INTERFACE) && i == IndexOf(InterfaceIds(p.stack), Field(d, NUMBER)) && i < |interfaces|
    requires interfaces == WithInterface(p.stack, Field(d, NUMBER))
             && j == IndexOf(AltIds(interfaces[i].alts), Field(d, SETTING))
    ensures Feed(p, d) == Progress(SetAlts(interfaces, i, WithAlt(interfaces[i].alts, d)), Some((i, j)), None)
  {
  }

  class Parser {
    const block: seq<Byte>
    var remaining: int
    var offset: nat
    var stack: seq<Interface>

    ghost const all: seq<Desc>
    ghost var at: nat

    /** The cursor is at descriptor number `at`, or past the last one with nothing remaining. */
    ghost predicate Valid()
      reads this
    {
      && WellFormed(block, all) && at <= |all|
      && remaining == |block| - Start(all, at) && (at < |all| ==> offset == Start(all, at))
    }

    constructor (block: seq<Byte>, ghost all: seq<Desc>)
      requires WellFormed(block, all)
      ensures Valid() && this.block == block && this.all == all && at == 0 && stack == []
    {
      this.block, this.all := block, all;
      remaining, offset, stack, at := TotalLength(block), 0, [], 0;
      Left(all, 0);
    }

    /** u_Desc_Next. */
    method Next() returns (more: bool)
      requires Valid()
      modifies `remaining, `offset, `at
      ensures Valid() && at == (if old(at) < |all| then old(at) + 1 else |all|)
      ensures more <==> at < |all|
    {
      Left(all, at);
      if Unsigned(remaining) < 2 { return false; }
      Bytes(block, all, at, offset);
      var length := block[offset];
      remaining := remaining - length;
      at := at + 1;
      Left(all, at);
      more := Unsigned(remaining) >= 2;
      if more { offset := offset + length; }
    }

    /** The endpoint at the cursor goes to the alternate setting `j` of interface `i`, unless its
        address is there. */
    method AddEndpoint(i: nat, j: nat, ghost p: Progress) returns (k: nat)
      requires Valid() && at < |all| && Is(all[at], ENDPOINT)
      requires Sound(p) && p.stack == stack && p.place == Some((i, j))
      modifies `stack
      ensures Feed(p, all[at]) == Progress(stack, Some((i, j)), Some(k))
    {
      Bytes(block, all, at, offset);
      var pipes := stack[i].alts[j].pipes;
      var address := block[offset + ADDRESS];
      k := IndexOf(PipeIds(pipes), address);
      if k == |pipes| {
        pipes := pipes + [Pipe(address, |pipes| % 256, block[offset..offset + block[offset]], None)];
      }
      stack := SetPipes(stack, i, j, pipes);
    }

    /** The companion at the cursor goes to endpoint `k`. */
    method AddCompanion(i: nat, j: nat, k: nat, ghost p: Progress)
      requires Valid() && at < |all| && Is(all[at], COMPANION)
      requires Sound(p) && p == Progress(stack, Some((i, j)), Some(k))
      modifies `stack
      ensures Feed(p, all[at]) == Progress(stack, Some((i, j)), None)
    {
      Bytes(block, all, at, offset);
      var pipes := stack[i].alts[j].pipes;
      var companion := block[offset..offset + block[offset]];
      stack := SetPipes(stack, i, j, pipes[k := pipes[k].(companion := Some(companion))]);
    }

    /** One descriptor other than an interface descriptor. */
    method AddOther(i: nat, j: nat, prev: Option<nat>, ghost p: Progress) returns (latest: Option<nat>)
      requires Valid() && at < |all| && !Is(all[at], INTERFACE)
      requires Sound(p) && p == Progress(stack, Some((i, j)), prev)
      modifies `stack
      ensures Feed(p, all[at]) == Progress(stack, Some((i, j)), latest)
    {
      Bytes(block, all, at, offset);
      var kind := block[offset + TYPE];
      latest := prev;
      if kind == ENDPOINT {
        var k := AddEndpoint(i, j, p);
        latest := Some(k);
      } else if kind == COMPANION {
        if prev.Some? {
          AddCompanion(i, j, prev.value, p);
          latest := None;
        }
      }
    }

    /** The tree and the places reached once descriptor number `k` is done. */
    ghost predicate Reading(stack: seq<Interface>, i: nat, j: nat, latest: Option<nat>, k: nat) {
      all != [] && Done(all, k) == Progress(stack, Some((i, j)), latest)
    }

    /** All descriptors up to the cursor are done, and an interface descriptor or the end is next. */
    ghost predicate Halted(stack: seq<Interface>, k: nat) {
      all != [] && Done(all, k).stack == stack && (k < |all| ==> InterfaceNext(all, k))
    }

    /** One round of the loop of u_Add_Pipe. */
    method PipeRound(i: nat, j: nat, prev: Option<nat>) returns (more: bool, latest: Option<nat>)
      requires Valid() && at < |all| && Reading(stack, i, j, prev, at)
      modifies this
      ensures Valid() && old(at) <= at
      ensures if more then old(at) < at < |all| && Reading(stack, i, j, latest, at) else Halted(stack, at)
    {
      var prevRemaining, prevOffset := remaining, offset;
      ghost var prevAt := at;
      latest := prev;
      more := Next();
      if more {
        Bytes(block, all, at, offset);
        if block[offset + TYPE] == INTERFACE {
          remaining, offset, at := prevRemaining, prevOffset, prevAt;
          more := false;
        } else {
          latest := Accept(i, j, prev, prevAt);
        }
      } else {
        TakeEnd(all, prevAt, at);
      }
    }

    /** The descriptor at the cursor is added to the tree. */
    method Accept(i: nat, j: nat, prev: Option<nat>, ghost done: nat) returns (latest: Option<nat>)
      requires Valid() && at == done + 1 && at < |all| && !Is(all[at], INTERFACE) && Reading(stack, i, j, prev, done)
      modifies `stack
      ensures Reading(stack, i, j, latest, at)
    {
      ghost var p := Done(all, done);
      TakeNext(all, done, at, p);
      latest := AddOther(i, j, prev, p);
    }

    /** u_Add_Pipe: reads endpoints and companions up to the next interface descriptor, where the
        cursor is put back to the descriptor before it. */
    method AddPipes(i: nat, j: nat)
      requires Valid() && at < |all| && Reading(stack, i, j, None, at)
      modifies this
      ensures Valid() && at >= old(at) && Halted(stack, at)
    {
      var prev: Option<nat> := None;
      var more := true;
      while more
        invariant Valid() && old(at) <= at
        invariant if more then at < |all| && Reading(stack, i, j, prev, at) else Halted(stack, at)
        decreases more, |all| - at
      {
        more, prev := PipeRound(i, j, prev);
      }
    }

    /** Finds or adds the alternate setting of the descriptor at the cursor. */
    method AddAlt(interfaces: seq<Interface>, i: nat, setting: Byte) returns (j: nat)
      requires Valid() && at < |all| && Is(all[at], INTERFACE) && setting == Field(all[at], SETTING) && i < |interfaces|
      modifies `stack
      ensures j == IndexOf(AltIds(interfaces[i].alts), setting)
      ensures stack == SetAlts(interfaces, i, WithAlt(interfaces[i].alts, all[at]))
    {
      Bytes(block, all, at, offset);
      var alts := interfaces[i].alts;
      j := IndexOf(AltIds(alts), setting);
      if j == |alts| { alts := alts + [Alt(setting, |alts| % 256, block[offset..offset + block[offset]], [])]; }
      stack := SetAlts(interfaces, i, alts);
    }

    /** Finds or adds the interface and the alternate setting of the descriptor at the cursor. */
    method OpenInterface(ghost p: Progress) returns (i: nat, j: nat)
      requires Valid() && at < |all| && Is(all[at], INTERFACE) && Sound(p) && p.stack == stack
      modifies `stack
      ensures Feed(p, all[at]) == Progress(stack, Some((i, j)), None)
    {
      Bytes(block, all, at, offset);
      var number, setting := block[offset + NUMBER], block[offset + SETTING];
      var interfaces;
      i, interfaces := AddNumber(number);
      j := AddAlt(interfaces, i, setting);
      HeaderFed(p, all[at], i, j, interfaces);
    }

    /** Finds or adds an interface. */
    method AddNumber(number: Byte) returns (i: nat, interfaces: seq<Interface>)
      ensures i == IndexOf(InterfaceIds(stack), number) && i < |interfaces|
              && interfaces == WithInterface(stack, number)
    {
      i := IndexOf(InterfaceIds(stack), number);
      interfaces := stack;
      if i == |stack| { interfaces := stack + [Interface(number, |stack| % 256, [])]; }
    }

    /** u_Add_Interface. */
    method AddInterface(ghost done: nat, ghost p: Progress)
      requires Valid() && at == done + 1 && at < |all| && Is(all[at], INTERFACE) && p == Done(all, done)
               && p.stack == stack
      modifies this
      ensures Valid() && at >= old(at) && Halted(stack, at)
    {
      TakeNext(all, done, at, p);
      var i, j := OpenInterface(p);
      AddPipes(i, j);
    }

    /** Descriptor number `k` is next, and unless it is an interface descriptor none has come yet. */
    ghost predicate Between(stack: seq<Interface>, done: nat, k: nat) {
      && k == done + 1 && k <= |all| && stack == Done(all, done).stack
      && (k < |all| && !Is(all[k], INTERFACE) ==> Done(all, done).place == None)
    }

    /** Moves on after an interface. */
    method NextHeader() returns (more: bool, ghost done: nat)
      requires Valid() && at > 0 && Halted(stack, at)
      modifies `remaining, `offset, `at
      ensures Valid() && old(at) <= at && (more <==> at < |all|) && (more ==> old(at) < at) && Between(stack, done, at)
    {
      if at == |all| {
        done := at - 1;
        TakeEnd(all, done, at);
      } else {
        done := at;
      }
      more := Next();
    }

    /** Moves on after a descriptor that comes before every interface descriptor. */
    method SkipOther(ghost done: nat) returns (more: bool, ghost here: nat)
      requires Valid() && at < |all| && Between(stack, done, at) && !Is(all[at], INTERFACE)
      modifies `remaining, `offset, `at
      ensures Valid() && old(at) < at && (more <==> at < |all|) && Between(stack, here, at)
    {
      TakeNext(all, done, at, Done(all, done));
      here := at;
      more := Next();
    }

    /** One round of the loop of u_Init_Config. */
    method ConfigRound(ghost done: nat) returns (more: bool, ghost here: nat)
      requires Valid() && at < |all| && Between(stack, done, at)
      modifies this
      ensures Valid() && old(at) <= at && (more <==> at < |all|) && (more ==> old(at) < at) && Between(stack, here, at)
    {
      Bytes(block, all, at, offset);
      if block[offset + TYPE] == INTERFACE {
        AddInterface(done, Done(all, done));
        more, here := NextHeader();
      } else {
        more, here := SkipOther(done);
      }
    }

    /** u_Init_Config. */
    method Run()
      requires Valid() && at == 0 && stack == []
      modifies this
      ensures stack == Build(all[1..])
    {
      ghost var done := 0;
      assert Taken(all, done) == [];
      var more := Next();
      while more
        invariant Valid() && (more <==> at < |all|) && Between(stack, done, at)
        decreases more, |all| - at
      {
        more, done := ConfigRound(done);
      }
      TakeEnd(all, done, at);
    }
  }

  /** The tree of a block is the fold over its descriptors after the first. */
  method Parse(block: seq<Byte>, ghost all: seq<Desc>) returns (stack: seq<Interface>)
    requires WellFormed(block, all)
    ensures stack == Build(all[1..])
  {
    var parser := new Parser(block, all);
    parser.Run();
    stack := parser.stack;
  }

  /** A tree that was printed behind a configuration descriptor comes back from its bytes. */
  method ParsePrinted(config: Desc, tree: seq<Interface>) returns (stack: seq<Interface>)
    requires Good(tree) && WellFormed(Flat([config] + Print(tree)), [config] + Print(tree))
    ensures stack == tree
  {
    ghost var all := [config] + Print(tree);
    assert all[1..] == Print(tree);
    RoundTrip(tree);
    stack := Parse(Flat([config] + Print(tree)), all);
  }

  // ---------------------------------------------------------------- arbitrary blocks

  /** What repeated calls of u_Desc_Next come to: a place of the cursor, the end, or a read of a
      `bLength` that is not in the block. */
  datatype Cursor = Here(remaining: int, offset: nat) | End | Outside

  function Advance(block: seq<Byte>, c: Cursor): Cursor {
    if !c.Here? then c
    else if Unsigned(c.remaining) < 2 then End
    else if c.offset >= |block| then Outside
    else
      var length := block[c.offset];
      if Unsigned(c.remaining - length) >= 2 then Here(c.remaining - length, c.offset + length) else End
  }

  /** The cursor after `n` calls, from the start of a block of any bytes. */
  function Walk(block: seq<Byte>, n: nat): Cursor {
    if n == 0 then Here(|block|, 0) else Advance(block, Walk(block, n - 1))
  }

  /** Each descriptor reached from `offset` on has a length that is not zero and not greater than what
      remains. */
  predicate Fits(block: seq<Byte>, offset: nat)
    requires offset <= |block|
    decreases |block| - offset
  {
    |block| - offset < 2
    || (0 < block[offset] <= |block| - offset && Fits(block, offset + block[offset]))
  }

  lemma WalkOn(block: seq<Byte>, n: nat, offset: nat, length: Byte)
    requires offset + 2 <= |block| && Walk(block, n) == Here(|block| - offset, offset) && length == block[offset]
    ensures Walk(block, n + 1) == if offset + length + 2 <= |block| || offset + length > |block|
                                  then Here(|block| - offset - length, offset + length) else End
  {
  }

  lemma {:induction false} FitsEnds(block: seq<Byte>, n: nat, offset: nat) returns (end: nat)
    requires offset <= |block| && Walk(block, n) == Here(|block| - offset, offset) && Fits(block, offset)
    ensures end >= n && Walk(block, end) == End
    ensures forall k :: n <= k <= end ==> Walk(block, k) != Outside
    decreases |block| - offset
  {
    if |block| - offset < 2 {
      end := n + 1;
    } else {
      var length := block[offset];
      WalkOn(block, n, offset, length);
      if offset + length + 2 <= |block| {
        end := FitsEnds(block, n + 1, offset + length);
      } else {
        end := n + 1;
      }
    }
  }

  lemma {:induction false} Stays(block: seq<Byte>, n: nat, m: nat)
    requires n <= m && !Walk(block, n).Here?
    ensures Walk(block, m) == Walk(block, n)
  {
    if n < m { Stays(block, n, m - 1); }
  }

  lemma {:induction false} Stuck(block: seq<Byte>, n: nat, m: nat)
    requires n <= m && Walk(block, n).Here? && Walk(block, n).offset + 2 <= |block|
    requires Walk(block, n).remaining == |block| - Walk(block, n).offset && block[Walk(block, n).offset] == 0
    ensures Walk(block, m) == Walk(block, n)
  {
    if n < m { Stuck(block, n, m - 1); }
  }

  /** From a descriptor that does not fit on, the cursor leaves the block or never ends. */
  lemma {:induction false} MisfitFails(block: seq<Byte>, n: nat, offset: nat) returns (outside: bool, at: nat)
    requires offset <= |block| && Walk(block, n) == Here(|block| - offset, offset) && !Fits(block, offset)
    ensures if outside then Walk(block, at) == Outside else at >= n && forall m :: m >= at ==> Walk(block, m).Here?
    decreases |block| - offset
  {
    var length := block[offset];
    WalkOn(block, n, offset, length);
    if length == 0 {
      outside, at := false, n;
      forall m | m >= n ensures Walk(block, m).Here? { Stuck(block, n, m); }
    } else if offset + length > |block| {
      outside, at := true, n + 2;
    } else {
      outside, at := MisfitFails(block, n + 1, offset + length);
    }
  }

  /** Over any bytes: the cursor ends, and reads no length outside the block, if and only if each
      descriptor it reaches has a length that is not zero and not greater than what remains. */
  lemma CursorEnds(block: seq<Byte>)
    ensures Fits(block, 0) <==> (exists n :: Walk(block, n) == End) && (forall n :: Walk(block, n) != Outside)
  {
    if Fits(block, 0) {
      var end := FitsEnds(block, 0, 0);
      forall n ensures Walk(block, n) != Outside { if n > end { Stays(block, end, n); } }
    } else {
      var outside, at := MisfitFails(block, 0, 0);
      if !outside {
        forall n ensures Walk(block, n) != End {
          if n < at && Walk(block, n) == End { Stays(block, n, at); }
        }
      }
    }
  }
}
