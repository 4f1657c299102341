/** No transfer item is ever lost or duplicated: in every reachable state each of the
    MaxPendingTransfers items is in exactly one place. */
module StreamConservation {
  import opened Basics
  import opened QueuedStream

  /** How often item `k` occurs on a list. */
  function On(list: seq<nat>, k: nat): nat {
    if list == [] then 0 else (if list[0] == k then 1 else 0) + On(list[1..], k)
  }

  function OnLists(lists: seq<seq<nat>>, k: nat): nat {
    if lists == [] then 0 else On(lists[0], k) + OnLists(lists[1..], k)
  }

  function OnApc(a: Apc, k: nat): nat { if a.Submit? then On(a.list, k) else 0 }

  function OnApcs(apcs: seq<Apc>, k: nat): nat {
    if apcs == [] then 0 else OnApc(apcs[0], k) + OnApcs(apcs[1..], k)
  }

  /** Occurrences on the submit lists of the calls in flight. */
  function OnCalls(calls: seq<Call>, k: nat): nat {
    if calls == [] then 0 else On(calls[0].staged, k) + OnCalls(calls[1..], k)
  }

  /** Occurrences of item `k` in all the places an item can be. */
  function Occurrences(s: Stream, k: nat): nat {
    On(s.lists.queued, k) + On(s.lists.pending, k) + On(s.lists.finished, k) + On(s.lists.temp, k)
    + OnApcs(s.mail.apcs, k) + OnLists(s.mail.lost, k) + OnCalls(s.calls, k)
  }

  ghost predicate Conserved(s: Stream) {
    && |s.xfers| == s.cfg.items
    && forall k: nat :: Occurrences(s, k) == if k < s.cfg.items then 1 else 0
  }

  // ---------------------------------------------------------------- auxiliary lemmas

  lemma {:induction false} ListsAppend(a: seq<seq<nat>>, b: seq<seq<nat>>, k: nat)
    ensures OnLists(a + b, k) == OnLists(a, k) + OnLists(b, k)
  {
    if a == [] {
      assert a + b == b;
    } else {
      ListsAppend(a[1..], b, k);
      assert (a + b)[1..] == a[1..] + b;
    }
  }

  lemma {:induction false} ApcsAppend(apcs: seq<Apc>, a: Apc, k: nat)
    ensures OnApcs(apcs + [a], k) == OnApcs(apcs, k) + OnApc(a, k)
  {
    if apcs != [] {
      ApcsAppend(apcs[1..], a, k);
      assert (apcs + [a])[1..] == apcs[1..] + [a];
    }
  }

  lemma {:induction false} UndeliveredKeeps(apcs: seq<Apc>, k: nat)
    ensures OnLists(Undelivered(apcs), k) == OnApcs(apcs, k)
  {
    if apcs != [] {
      UndeliveredKeeps(apcs[1..], k);
      ListsAppend(if apcs[0].Submit? then [apcs[0].list] else [], Undelivered(apcs[1..]), k);
      if apcs[0].Submit? { OneList(apcs[0].list, k); }
    }
  }

  /** Replacing one call exchanges its submit list and no other. */
  lemma {:induction false} CallUpdate(calls: seq<Call>, u: nat, c: Call, k: nat)
    requires u < |calls|
    ensures OnCalls(calls[u := c], k) + On(calls[u].staged, k) == OnCalls(calls, k) + On(c.staged, k)
  {
    if u == 0 {
      assert calls[u := c][1..] == calls[1..];
    } else {
      CallUpdate(calls[1..], u - 1, c, k);
      assert calls[u := c][1..] == calls[1..][u - 1 := c];
    }
  }

  lemma {:induction false} Append(a: seq<nat>, b: seq<nat>, k: nat)
    ensures On(a + b, k) == On(a, k) + On(b, k)
  {
    if a == [] {
      assert a + b == b;
    } else {
      Append(a[1..], b, k);
      assert (a + b)[1..] == a[1..] + b;
    }
  }

  lemma One(i: nat, k: nat)
    ensures On([i], k) == if i == k then 1 else 0
  {
    assert [i][1..] == [];
  }

  lemma OneList(list: seq<nat>, k: nat)
    ensures OnLists([list], k) == On(list, k)
  {
    var lists := [list];
    assert lists[1..] == [];
  }

  lemma AppendOne(a: seq<nat>, i: nat, k: nat)
    ensures On(a + [i], k) == On(a, k) + if i == k then 1 else 0
  {
    Append(a, [i], k);
    One(i, k);
  }

  lemma {:induction false} ReverseKeeps(s: seq<nat>, k: nat)
    ensures On(Reverse(s), k) == On(s, k) && |Reverse(s)| == |s|
  {
    if s != [] {
      ReverseKeeps(s[1..], k);
      AppendOne(Reverse(s[1..]), s[0], k);
    }
  }

  // ---------------------------------------------------------------- preservation

  /** Both streams hold item `k` equally often and have the same item array length. */
  predicate Same(s: Stream, t: Stream, k: nat) {
    Occurrences(t, k) == Occurrences(s, k) && |t.xfers| == |s.xfers|
  }

  lemma SubmitConserves(s: Stream, ok: bool, k: nat)
    requires s.lists.queued != [] && s.thread.freeSlots > 0 && s.lists.queued[0] < |s.xfers|
    ensures Same(s, SubmitHead(s, ok), k)
  {
    AppendOne(s.lists.pending, s.lists.queued[0], k);
  }

  lemma SynchronizeConserves(s: Stream, item: seq<nat>, k: nat)
    ensures Occurrences(Synchronize(s, item), k) == Occurrences(s, k) + On(item, k)
  {
    Append(s.lists.finished + s.lists.temp, item, k);
    Append(s.lists.finished, s.lists.temp, k);
  }

  lemma CompleteConserves(s: Stream, valid: bool, data: seq<Byte>, len: nat, k: nat)
    requires s.lists.pending != [] && s.lists.pending[0] < |s.xfers|
    ensures Same(s, CompleteHead(s, valid, data, len), k)
  {
    FileConserves(TakePending(s, data, len), s.lists.pending[0], valid, k);
  }

  lemma FileConserves(t: Stream, i: nat, valid: bool, k: nat)
    requires i < |t.xfers|
    ensures Occurrences(FileItem(t, i, valid), k) == Occurrences(t, k) + (if i == k then 1 else 0)
    ensures FileItem(t, i, valid).xfers == t.xfers
  {
    AppendOne(t.lists.queued, i, k);
    AppendOne(t.lists.temp, i, k);
    AppendOne(t.lists.finished + t.lists.temp, i, k);
    Append(t.lists.finished, t.lists.temp, k);
  }

  lemma DeliverConserves(s: Stream, k: nat)
    requires s.mail.apcs != []
    ensures Same(s, DeliverHead(s), k)
  {
    if s.mail.apcs[0].Submit? { Append(s.lists.queued, s.mail.apcs[0].list, k); }
  }

  lemma ExitConserves(s: Stream, k: nat)
    ensures OnLists(s.mail.lost + Undelivered(s.mail.apcs), k) == OnLists(s.mail.lost, k) + OnApcs(s.mail.apcs, k)
  {
    ListsAppend(s.mail.lost, Undelivered(s.mail.apcs), k);
    UndeliveredKeeps(s.mail.apcs, k);
  }

  lemma ThreadConserves(s: Stream, t: ThreadAction, k: nat)
    requires CanThread(s, t)
    ensures Same(s, StepThread(s, t), k)
  {
    match t
    case Stop(ok) => if ok { ApcsAppend(s.mail.apcs, StopApc, k); }
    case TrySync => SynchronizeConserves(s, [], k);
    case SubmitNext(ok) => if s.thread.freeSlots > 0 && s.lists.queued != [] { SubmitConserves(s, ok, k); }
    case Complete(valid, _, data, len) => CompleteConserves(s, valid, data, len, k);
    case Deliver => DeliverConserves(s, k);
    case Force => SynchronizeConserves(s, [], k);
    case Exit => ExitConserves(s, k);
    case _ =>
  }

  lemma CallConserves(s: Stream, u: nat, c: Call, k: nat)
    requires u < |s.calls| && c.staged == s.calls[u].staged
    ensures OnCalls(s.calls[u := c], k) == OnCalls(s.calls, k)
  {
    CallUpdate(s.calls, u, c, k);
  }

  /** Taking the head of Finished onto the submit list of call `u`. */
  lemma TakeConserves(s: Stream, u: nat, c: Call, k: nat)
    requires u < |s.calls| && s.lists.finished != [] && c.staged == s.calls[u].staged + [s.lists.finished[0]]
    ensures On(s.lists.finished[1..], k) + OnCalls(s.calls[u := c], k) == On(s.lists.finished, k) + OnCalls(s.calls, k)
  {
    CallUpdate(s.calls, u, c, k);
    AppendOne(s.calls[u].staged, s.lists.finished[0], k);
  }

  lemma StageConserves(s: Stream, u: nat, k: nat)
    requires u < |s.calls| && s.lists.finished != [] && s.lists.finished[0] < |s.xfers|
    ensures Same(s, StageRound(s, u), k)
  {
    var t := StageRound(s, u);
    if t.lists.finished == s.lists.finished {
      CallConserves(s, u, t.calls[u], k);
    } else {
      TakeConserves(s, u, t.calls[u], k);
    }
  }

  lemma QueueConserves(s: Stream, u: nat, ok: bool, k: nat)
    requires u < |s.calls|
    ensures Same(s, QueueList(s, u, ok), k)
  {
    var list := s.calls[u].staged;
    CallUpdate(s.calls, u, QueueList(s, u, ok).calls[u], k);
    ApcsAppend(s.mail.apcs, Submit(list), k);
    ListsAppend(s.mail.lost, [list], k);
    OneList(list, k);
  }

  lemma MoveConserves(s: Stream, u: nat, k: nat)
    requires u < |s.calls|
    ensures Same(s, MoveHead(s, u), k)
  {
    CallUpdate(s.calls, u, MoveHead(s, u).calls[u], k);
    if s.calls[u].staged != [] { AppendOne(s.lists.queued, s.calls[u].staged[0], k); }
  }

  lemma RollBackConserves(s: Stream, u: nat, k: nat)
    requires u < |s.calls|
    ensures Same(s, RollBackCall(s, u), k)
  {
    CallUpdate(s.calls, u, IDLE, k);
    ReverseKeeps(s.calls[u].staged, k);
    Append(Reverse(s.calls[u].staged), s.lists.finished, k);
  }

  lemma CallerConserves(s: Stream, u: nat, c: CallAction, k: nat)
    requires u < |s.calls| && CanCall(s, u, c)
    requires s.calls[u].phase in {Idle, Entered, Permitted} ==> s.calls[u].staged == []
    ensures Same(s, StepCall(s, u, c), k)
  {
    match c
    case StageOne => StageConserves(s, u, k);
    case QueueApc(ok) => QueueConserves(s, u, ok, k);
    case MoveOne => MoveConserves(s, u, k);
    case RollBack => RollBackConserves(s, u, k);
    case _ => CallConserves(s, u, StepCall(s, u, c).calls[u], k);
  }

  // ---------------------------------------------------------------- every reachable state

  /** Before staging a call holds no item, and only the owner of FinishedLock is staging. */
  predicate OrderlyCall(c: Call, owner: bool) {
    (c.phase in {Idle, Entered, Permitted} ==> c.staged == [] && c.first) && (c.phase == Staging <==> owner)
  }

  /** While the lock is held, Finished is not empty. */
  predicate Orderly(s: Stream) {
    && (s.gate.lock.Some? ==> s.gate.lock.value < |s.calls| && s.lists.finished != [])
    && forall u :: 0 <= u < |s.calls| ==> OrderlyCall(s.calls[u], s.gate.lock == Some(u))
  }

  /** The thread leaves the calls and the lock alone and never shortens Finished. */
  lemma ThreadFrame(s: Stream, t: ThreadAction)
    requires CanThread(s, t)
    ensures var r := StepThread(s, t);
            r.cfg == s.cfg && r.calls == s.calls && r.gate.lock == s.gate.lock && s.lists.finished <= r.lists.finished
  {
  }

  /** A call changes no other call; it takes the lock only when it is free and gives up only its own. */
  lemma CallFrame(s: Stream, u: nat, c: CallAction)
    requires u < |s.calls| && CanCall(s, u, c) && Orderly(s)
    ensures var r := StepCall(s, u, c);
            && r.cfg == s.cfg && r.calls == s.calls[u := r.calls[u]]
            && (r.gate.lock == s.gate.lock
                || (s.gate.lock == None && r.gate.lock == Some(u)) || (s.gate.lock == Some(u) && r.gate.lock == None))
            && OrderlyCall(r.calls[u], r.gate.lock == Some(u))
            && (r.gate.lock.Some? ==> r.lists.finished != [])
  {
    assert OrderlyCall(s.calls[u], s.gate.lock == Some(u));
    if c == StageOne { StageFrame(s, u); }
  }

  lemma StageFrame(s: Stream, u: nat)
    requires u < |s.calls| && CanCall(s, u, StageOne) && OrderlyCall(s.calls[u], s.gate.lock == Some(u))
    ensures var r := StageRound(s, u);
            && r.cfg == s.cfg && r.calls == s.calls[u := r.calls[u]]
            && (r.gate.lock == s.gate.lock || (s.gate.lock == Some(u) && r.gate.lock == None))
            && OrderlyCall(r.calls[u], r.gate.lock == Some(u))
            && (r.gate.lock.Some? ==> r.lists.finished != [])
  {
  }

  lemma OrderlyKept(s: Stream, a: Action)
    requires Orderly(s) && Enabled(s, a)
    ensures Orderly(Apply(s, a)) && |Apply(s, a).calls| == |s.calls| && Apply(s, a).cfg == s.cfg
  {
    match a
    case Thread(t) => ThreadFrame(s, t);
    case Caller(u, c) => CallFrame(s, u, c);
  }

  lemma ConservedKept(s: Stream, a: Action)
    requires Conserved(s) && Orderly(s) && Enabled(s, a)
    ensures Conserved(Apply(s, a))
  {
    OrderlyKept(s, a);
    forall k: nat ensures Same(s, Apply(s, a), k) {
      match a
      case Thread(t) => ThreadConserves(s, t, k);
      case Caller(u, c) =>
        assert OrderlyCall(s.calls[u], s.gate.lock == Some(u));
        CallerConserves(s, u, c, k);
    }
    assert Same(s, Apply(s, a), 0);
    assert forall k: nat :: Same(s, Apply(s, a), k) ==> Occurrences(Apply(s, a), k) == Occurrences(s, k);
  }

  lemma {:induction false} InitialList(n: nat, k: nat)
    ensures On(Identity(n), k) == if k < n then 1 else 0
  {
    if n > 0 {
      InitialList(n - 1, k);
      assert Identity(n) == Identity(n - 1) + [n - 1];
      AppendOne(Identity(n - 1), n - 1, k);
    }
  }

  lemma {:induction false} NoneStaged(n: nat, k: nat)
    ensures OnCalls(seq(n, _ => IDLE), k) == 0
  {
    if n > 0 {
      NoneStaged(n - 1, k);
      assert seq(n, _ => IDLE)[1..] == seq(n - 1, _ => IDLE);
    }
  }

  /** In every run of any number of callers with the stream thread, through submit errors,
      invalid completions, rollbacks, stops and restarts, every item stays in exactly one place. */
  lemma {:induction false} Conservation(cfg: Config, n: nat, run: seq<Action>)
    ensures Conserved(Reached(cfg, n, run)) && Orderly(Reached(cfg, n, run))
    ensures Reached(cfg, n, run).cfg == cfg && |Reached(cfg, n, run).calls| == n
  {
    if run == [] {
      forall k: nat ensures Occurrences(Init(cfg, n), k) == if k < cfg.items then 1 else 0 {
        InitialList(cfg.items, k);
        NoneStaged(n, k);
      }
    } else {
      var before := run[..|run| - 1];
      Conservation(cfg, n, before);
      var s, a := Reached(cfg, n, before), run[|run| - 1];
      if Enabled(s, a) {
        OrderlyKept(s, a);
        ConservedKept(s, a);
      }
    }
  }

  // ---------------------------------------------------------------- consequences

  /** Occurrences of the items below `n`. */
  function Tally(list: seq<nat>, n: nat): nat {
    if n == 0 then 0 else On(list, n - 1) + Tally(list, n - 1)
  }

  lemma {:induction false} TallyCons(list: seq<nat>, n: nat)
    requires list != []
    ensures Tally(list, n) == Tally(list[1..], n) + if list[0] < n then 1 else 0
  {
    if n > 0 {
      TallyCons(list, n - 1);
    }
  }

  lemma {:induction false} TallyIsLength(list: seq<nat>, n: nat)
    requires forall i <- list :: i < n
    ensures Tally(list, n) == |list|
  {
    if list == [] {
      if n > 0 { TallyIsLength(list, n - 1); }
    } else {
      assert list[0] in list;
      forall i <- list[1..] ensures i < n { assert i in list; }
      TallyIsLength(list[1..], n);
      TallyCons(list, n);
    }
  }

  lemma {:induction false} TallyBound(list: seq<nat>, n: nat)
    requires forall k: nat :: On(list, k) <= 1
    ensures Tally(list, n) <= n
  {
    if n > 0 { TallyBound(list, n - 1); }
  }

  lemma {:induction false} Occurs(list: seq<nat>, i: nat)
    requires i in list
    ensures On(list, i) > 0
  {
    if list[0] != i { Occurs(list[1..], i); }
  }

  /** Distinct items below `n` number at most `n`. */
  lemma AtMost(list: seq<nat>, n: nat)
    requires forall k: nat :: On(list, k) <= if k < n then 1 else 0
    ensures |list| <= n
  {
    forall i <- list ensures i < n { Occurs(list, i); }
    TallyIsLength(list, n);
    TallyBound(list, n);
  }

  lemma {:induction false} CallShare(calls: seq<Call>, u: nat, k: nat)
    requires u < |calls|
    ensures On(calls[u].staged, k) <= OnCalls(calls, k)
  {
    if u > 0 { CallShare(calls[1..], u - 1, k); }
  }
}
