/** The ready semaphore counts exactly the items a caller may still claim. */
module StreamSemaphore {
  import opened Basics
  import opened QueuedStream
  import opened StreamConservation

  /** The permit a call holds for an item it has not yet taken. */
  function Permit(c: Call): nat {
    if c.phase == Permitted || (c.phase == Staging && c.first) then 1 else 0
  }

  function Permits(calls: seq<Call>): nat {
    if calls == [] then 0 else Permit(calls[0]) + Permits(calls[1..])
  }

  /** With KSTM_FLAG_USE_TIMEOUT: count plus permits held equals the length of Finished. */
  predicate Balanced(s: Stream) {
    s.cfg.timed ==> s.gate.sem + Permits(s.calls) == |s.lists.finished|
  }

  lemma {:induction false} PermitUpdate(calls: seq<Call>, u: nat, c: Call)
    requires u < |calls|
    ensures Permits(calls[u := c]) + Permit(calls[u]) == Permits(calls) + Permit(c)
  {
    if u == 0 {
      assert calls[u := c][1..] == calls[1..];
    } else {
      PermitUpdate(calls[1..], u - 1, c);
      assert calls[u := c][1..] == calls[1..][u - 1 := c];
    }
  }

  lemma {:induction false} NoPermits(n: nat)
    ensures Permits(seq(n, _ => IDLE)) == 0
  {
    if n > 0 {
      NoPermits(n - 1);
      assert seq(n, _ => IDLE)[1..] == seq(n - 1, _ => IDLE);
    }
  }

  /** The permits an action hands to ReleaseSemaphore.  A round that leaves its item in place gives
      one back: the one the call came with, or else the one it has just taken, which adds nothing. */
  function Released(s: Stream, a: Action): nat {
    match a
    case Thread(TrySync) => if s.lists.temp != [] && s.gate.lock == None then |s.lists.temp| else 0
    case Thread(Complete(valid, _, _, _)) => if valid && s.gate.lock == None then |s.lists.temp| + 1 else 0
    case Thread(Force) => |s.lists.temp|
    case Caller(u, Acquire) => if s.lists.finished == [] then 1 else 0
    case Caller(u, StageOne) => if u < |s.calls| && s.calls[u].first then 1 else 0
    case Caller(u, RollBack) => if u < |s.calls| then |s.calls[u].staged| else 0
    case _ => 0
  }

  // ---------------------------------------------------------------- room for every release

  /** Items on Finished, FinishedTemp, a call's submit list and the head of the pending list are
      different items, so together they are at most MaxPendingTransfers. */
  lemma ThreadRoom(s: Stream)
    requires Conserved(s)
    ensures |s.lists.finished| + |s.lists.temp| + (if s.lists.pending == [] then 0 else 1) <= s.cfg.items
  {
    var head := if s.lists.pending == [] then [] else [s.lists.pending[0]];
    var all := s.lists.finished + s.lists.temp + head;
    forall k: nat ensures On(all, k) <= if k < s.cfg.items then 1 else 0 {
      Append(s.lists.finished + s.lists.temp, head, k);
      Append(s.lists.finished, s.lists.temp, k);
      if head != [] { One(head[0], k); }
      assert Occurrences(s, k) == if k < s.cfg.items then 1 else 0;
    }
    AtMost(all, s.cfg.items);
  }

  lemma CallRoom(s: Stream, u: nat)
    requires Conserved(s) && u < |s.calls|
    ensures |s.lists.finished| + |s.calls[u].staged| <= s.cfg.items
  {
    var all := s.lists.finished + s.calls[u].staged;
    forall k: nat ensures On(all, k) <= if k < s.cfg.items then 1 else 0 {
      Append(s.lists.finished, s.calls[u].staged, k);
      CallShare(s.calls, u, k);
      assert Occurrences(s, k) == if k < s.cfg.items then 1 else 0;
    }
    AtMost(all, s.cfg.items);
  }

  // ---------------------------------------------------------------- preservation

  /** A synchronisation that appends `item` to Finished. */
  lemma SynchronizeBalanced(s: Stream, item: seq<nat>)
    requires Balanced(s) && |s.lists.finished| + |s.lists.temp| + |item| <= s.cfg.items
    ensures Balanced(Synchronize(s, item))
  {
  }

  lemma CompleteBalanced(s: Stream, valid: bool, data: seq<Byte>, len: nat)
    requires s.lists.pending != [] && s.lists.pending[0] < |s.xfers| && Balanced(s)
    requires |s.lists.finished| + |s.lists.temp| + 1 <= s.cfg.items
    ensures Balanced(CompleteHead(s, valid, data, len))
  {
    var t := TakePending(s, data, len);
    var u := t.(entered := if s.cfg.isRead then t.entered + Window(t.xfers[s.lists.pending[0]]) else t.entered);
    SynchronizeBalanced(u, [s.lists.pending[0]]);
  }

  lemma ThreadBalanced(s: Stream, t: ThreadAction)
    requires CanThread(s, t) && Balanced(s) && Conserved(s)
    ensures Balanced(StepThread(s, t))
  {
    ThreadRoom(s);
    match t
    case Complete(valid, _, data, len) => CompleteBalanced(s, valid, data, len);
    case TrySync => SynchronizeBalanced(s, []);
    case Force => SynchronizeBalanced(s, []);
    case SubmitNext(_) =>
    case Deliver =>
    case Start(_) =>
    case Stop(_) =>
    case Boot(_) =>
    case CheckState =>
    case TimeOut =>
    case Resume =>
    case Leave =>
    case GiveUpWaiting =>
    case DrainDone =>
    case Exit =>
  }

  /** A round that finds no permit, or one that does, keeps count and permits in step with Finished. */
  lemma StageCount(s: Stream, u: nat)
    requires InPhase(s, u, Staging) && s.lists.finished != [] && s.lists.finished[0] < |s.xfers| && s.cfg.timed
    requires s.gate.sem + Permit(s.calls[u]) <= |s.lists.finished| <= s.cfg.items
    ensures var r := StageRound(s, u);
            && r.cfg == s.cfg && r.calls == s.calls[u := r.calls[u]]
            && r.gate.sem + Permit(r.calls[u]) + |s.lists.finished|
               == s.gate.sem + Permit(s.calls[u]) + |r.lists.finished|
  {
  }

  lemma StageBalanced(s: Stream, u: nat)
    requires InPhase(s, u, Staging) && s.lists.finished != [] && s.lists.finished[0] < |s.xfers|
    requires Balanced(s) && |s.lists.finished| <= s.cfg.items
    ensures Balanced(StageRound(s, u))
  {
    var r := StageRound(s, u);
    PermitShare(s.calls, u);
    if s.cfg.timed {
      StageCount(s, u);
      PermitUpdate(s.calls, u, r.calls[u]);
    } else {
      StageConfig(s, u);
    }
  }

  lemma StageConfig(s: Stream, u: nat)
    requires InPhase(s, u, Staging) && s.lists.finished != [] && s.lists.finished[0] < |s.xfers|
    ensures StageRound(s, u).cfg == s.cfg
  {
  }

  lemma RollBackBalanced(s: Stream, u: nat)
    requires InPhase(s, u, RollingBack) && Balanced(s)
    requires |s.lists.finished| + |s.calls[u].staged| <= s.cfg.items
    ensures Balanced(RollBackCall(s, u))
  {
    PermitUpdate(s.calls, u, IDLE);
    ReverseKeeps(s.calls[u].staged, 0);
  }

  /** Every other action of a call changes the count and the permit of the call in step. */
  lemma RestCount(s: Stream, u: nat, c: CallAction)
    requires u < |s.calls| && CanCall(s, u, c) && !c.StageOne? && !c.RollBack?
    requires OrderlyCall(s.calls[u], s.gate.lock == Some(u))
    requires s.cfg.timed ==> s.gate.sem + Permit(s.calls[u]) <= |s.lists.finished| <= s.cfg.items
    ensures var r := StepCall(s, u, c);
            && r.cfg == s.cfg && r.calls == s.calls[u := r.calls[u]] && r.lists.finished == s.lists.finished
            && (s.cfg.timed ==> r.gate.sem + Permit(r.calls[u]) == s.gate.sem + Permit(s.calls[u]))
  {
    match c
    case Enter(_, _, _) =>
    case TakePermit =>
    case GiveUp =>
    case Acquire =>
    case Decide => DecideCount(s, u);
    case QueueApc(ok) => QueueCount(s, u, ok);
    case MoveOne =>
  }

  lemma DecideCount(s: Stream, u: nat)
    requires InPhase(s, u, Staged)
    ensures var r := DecideCall(s, u);
            && r.cfg == s.cfg && r.calls == s.calls[u := r.calls[u]] && r.lists == s.lists && r.gate == s.gate
            && Permit(r.calls[u]) == 0
  {
  }

  lemma QueueCount(s: Stream, u: nat, ok: bool)
    requires InPhase(s, u, ToApc)
    ensures var r := QueueList(s, u, ok);
            && r.cfg == s.cfg && r.calls == s.calls[u := r.calls[u]] && r.lists == s.lists && r.gate == s.gate
            && Permit(r.calls[u]) == 0
  {
  }

  lemma RestBalanced(s: Stream, u: nat, c: CallAction)
    requires u < |s.calls| && CanCall(s, u, c) && Balanced(s) && !c.StageOne? && !c.RollBack?
    requires OrderlyCall(s.calls[u], s.gate.lock == Some(u)) && |s.lists.finished| <= s.cfg.items
    ensures Balanced(StepCall(s, u, c))
  {
    PermitShare(s.calls, u);
    RestCount(s, u, c);
    PermitUpdate(s.calls, u, StepCall(s, u, c).calls[u]);
  }

  lemma CallBalanced(s: Stream, u: nat, c: CallAction)
    requires u < |s.calls| && CanCall(s, u, c) && Balanced(s)
    requires OrderlyCall(s.calls[u], s.gate.lock == Some(u))
    requires |s.lists.finished| + |s.calls[u].staged| <= s.cfg.items
    ensures Balanced(StepCall(s, u, c))
  {
    match c
    case StageOne => StageBalanced(s, u);
    case RollBack => RollBackBalanced(s, u);
    case _ => RestBalanced(s, u, c);
  }

  lemma {:induction false} SemaphoreBalance(cfg: Config, n: nat, run: seq<Action>)
    ensures Balanced(Reached(cfg, n, run))
  {
    Conservation(cfg, n, run);
    if run == [] {
      NoPermits(n);
    } else {
      var before := run[..|run| - 1];
      SemaphoreBalance(cfg, n, before);
      Conservation(cfg, n, before);
      var s, a := Reached(cfg, n, before), run[|run| - 1];
      if Enabled(s, a) {
        match a
        case Thread(t) => ThreadBalanced(s, t);
        case Caller(u, c) =>
          assert OrderlyCall(s.calls[u], s.gate.lock == Some(u));
          CallRoom(s, u);
          CallBalanced(s, u, c);
      }
    }
  }

  // ---------------------------------------------------------------- what the balance is for

  lemma {:induction false} PermitShare(calls: seq<Call>, u: nat)
    requires u < |calls|
    ensures Permit(calls[u]) <= Permits(calls)
  {
    if u > 0 { PermitShare(calls[1..], u - 1); }
  }

  /** A caller that holds a permit finds an item, and no release asks for more than the maximum. */
  lemma PermitsAreGood(cfg: Config, n: nat, run: seq<Action>, u: nat, a: Action)
    requires cfg.timed
    ensures var s := Reached(cfg, n, run);
            && (InPhase(s, u, Permitted) ==> s.lists.finished != [])
            && (Enabled(s, a) ==> s.gate.sem + Released(s, a) <= cfg.items)
  {
    var s := Reached(cfg, n, run);
    Conservation(cfg, n, run);
    SemaphoreBalance(cfg, n, run);
    if u < |s.calls| { PermitShare(s.calls, u); }
    ThreadRoom(s);
    if Enabled(s, a) && a.Caller? {
      CallRoom(s, a.u);
      PermitShare(s.calls, a.u);
    }
  }
}
