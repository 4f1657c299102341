/** What the sections of the stream source come to, for the caller and for the items: when a call
    succeeds and with how much, what a synchronisation, a completion and a submission move. */
module StreamOutcomes {
  import opened Basics
  import opened QueuedStream
  import opened StreamConservation
  import M = StreamSemaphore
  import D = StreamDrain
  import F = StreamReadFifo
  import R = StreamReadRuns

  // ---------------------------------------------------------------- the outcome of a call

  /** The bytes `b` leave a read stream or enter a write stream, from `s` to `r`. */
  predicate Committed(s: Stream, r: Stream, b: seq<Byte>) {
    if s.cfg.isRead then r.departed == s.departed + b && r.entered == s.entered
    else r.entered == s.entered + b && r.departed == s.departed
  }

  /** Nothing but the calls, the histories and the APCs changes. */
  predicate SameItems(s: Stream, r: Stream) {
    r.cfg == s.cfg && r.xfers == s.xfers && r.lists == s.lists && r.gate == s.gate && r.thread == s.thread
  }

  /** The decision of a call leads to a rollback if and only if bytes are still wanted and the stream
      forbids partial transfers or the caller asked for no count.  Otherwise the call hands its items
      over: by APC if it has any and the stream is started, and then its bytes are committed by the
      APC; else directly, and they are committed now. */
  lemma Decision(s: Stream, u: nat)
    requires InPhase(s, u, Staged)
    ensures var c, r := s.calls[u], Apply(s, Caller(u, Decide));
            && |r.calls| == |s.calls| && r.calls == s.calls[u := c.(phase := r.calls[u].phase)]
            && SameItems(s, r) && r.mail == s.mail
            && (r.calls[u].phase == RollingBack <==> c.length > 0 && (s.cfg.noPartial || !c.wantsCount))
            && (r.calls[u].phase != RollingBack ==>
                  if c.staged != [] && s.thread.state == Started
                  then r.calls[u].phase == ToApc && Committed(s, r, [])
                  else r.calls[u].phase == ToQueue && Committed(s, r, c.copied))
  {
    assert s.departed + [] == s.departed && s.entered + [] == s.entered;
  }

  /** The hand-over by APC: if it is accepted the call is over, its bytes are committed, and its items are
      the newest APC of the thread, or lost when the thread has ended; if not the call rolls back. */
  lemma HandOver(s: Stream, u: nat, ok: bool)
    requires InPhase(s, u, ToApc)
    ensures var c, r := s.calls[u], Apply(s, Caller(u, QueueApc(ok)));
            && SameItems(s, r) && |r.calls| == |s.calls|
            && if ok then
                 && r.calls == s.calls[u := IDLE] && Committed(s, r, c.copied) && r.mail.count == s.mail.count + 1
                 && (s.thread.pc != NoThread ==>
                       r.mail.apcs == s.mail.apcs + [Submit(c.staged)] && r.mail.lost == s.mail.lost)
                 && (s.thread.pc == NoThread ==> r.mail.apcs == s.mail.apcs && r.mail.lost == s.mail.lost + [c.staged])
               else r.calls == s.calls[u := c.(phase := RollingBack)] && Committed(s, r, []) && r.mail == s.mail
  {
    assert s.departed + [] == s.departed && s.entered + [] == s.entered;
  }

  function Moves(u: nat, k: nat): seq<Action> { seq(k, _ => Caller(u, MoveOne)) }

  /** The direct hand-over, as many rounds as there are items and one more to end it, appends the items to
      Queued in their order and changes nothing else. */
  lemma {:induction false} DirectHandOver(s: Stream, u: nat, k: nat)
    requires InPhase(s, u, ToQueue) && k <= |s.calls[u].staged|
    ensures Exec(s, Moves(u, k)) == s.(calls := s.calls[u := s.calls[u].(staged := s.calls[u].staged[k..])],
                                       lists := s.lists.(queued := s.lists.queued + s.calls[u].staged[..k]))
  {
    var list := s.calls[u].staged;
    if k == 0 {
      assert list[0..] == list && s.lists.queued + list[..0] == s.lists.queued;
    } else {
      DirectHandOver(s, u, k - 1);
      assert Moves(u, k)[..k - 1] == Moves(u, k - 1);
      Shifted(list, k, s.lists.queued);
      MoveStep(Exec(s, Moves(u, k - 1)), u, list[k - 1], list[k..]);
    }
  }

  lemma Shifted(list: seq<nat>, k: nat, queued: seq<nat>)
    requires 0 < k <= |list|
    ensures list[k - 1..] == [list[k - 1]] + list[k..]
    ensures (queued + list[..k - 1]) + [list[k - 1]] == queued + list[..k]
  {
  }

  /** One round of the direct hand-over. */
  lemma MoveStep(s: Stream, u: nat, i: nat, rest: seq<nat>)
    requires InPhase(s, u, ToQueue) && s.calls[u].staged == [i] + rest
    ensures Apply(s, Caller(u, MoveOne)) == s.(calls := s.calls[u := s.calls[u].(staged := rest)],
                                               lists := s.lists.(queued := s.lists.queued + [i]))
  {
    assert s.calls[u].staged[1..] == rest;
  }

  lemma DirectlyQueued(s: Stream, u: nat)
    requires InPhase(s, u, ToQueue)
    ensures Exec(s, Moves(u, |s.calls[u].staged| + 1))
            == s.(calls := s.calls[u := IDLE], lists := s.lists.(queued := s.lists.queued + s.calls[u].staged))
  {
    var list := s.calls[u].staged;
    var n := |list|;
    var m := s.(calls := s.calls[u := s.calls[u].(staged := [])], lists := s.lists.(queued := s.lists.queued + list));
    assert Exec(s, Moves(u, n)) == m by {
      DirectHandOver(s, u, n);
      assert list[n..] == [] && list[..n] == list;
    }
    LastMove(m, u, s.calls);
    assert Moves(u, n + 1)[..n] == Moves(u, n) && Moves(u, n + 1)[n] == Caller(u, MoveOne);
  }

  lemma LastMove(s: Stream, u: nat, before: seq<Call>)
    requires InPhase(s, u, ToQueue) && s.calls[u].staged == [] && u < |before| && s.calls == before[u := s.calls[u]]
    ensures Apply(s, Caller(u, MoveOne)) == s.(calls := before[u := IDLE])
  {
    assert s.calls[u := IDLE] == before[u := IDLE];
  }

  // ---------------------------------------------------------------- how much a call transfers

  /** What the last call of `u` that was let in asked for. */
  function Wanted(cfg: Config, n: nat, run: seq<Action>, u: nat): Call {
    if run == [] then IDLE
    else
      var before, a := run[..|run| - 1], run[|run| - 1];
      if a.Caller? && a.u == u && a.c.Enter? && Enabled(Reached(cfg, n, before), a)
      then IDLE.(length := a.c.length, src := a.c.src, wantsCount := a.c.wantsCount)
      else Wanted(cfg, n, before, u)
  }

  /** What a call has copied and what it still wants make up what it asked for. */
  predicate Accounted(isRead: bool, c: Call, w: Call) {
    c.phase != Idle ==>
      && c.wantsCount == w.wantsCount && |c.copied| + c.length == w.length
      && (!isRead ==> c.copied + c.src == w.src && |c.src| == c.length)
  }

  lemma StageAccount(s: Stream, u: nat, w: Call)
    requires u < |s.calls| && CanCall(s, u, StageOne) && Accounted(s.cfg.isRead, s.calls[u], w)
    requires s.cfg.isRead ==> ValidXfer(s.xfers[s.lists.finished[0]], s.cfg.capacity)
    ensures |StageRound(s, u).calls| == |s.calls| && Accounted(s.cfg.isRead, StageRound(s, u).calls[u], w)
  {
    if s.cfg.isRead {
      assert |Window(s.xfers[s.lists.finished[0]])| == s.xfers[s.lists.finished[0]].len;
    } else {
      WriteStageAccount(s, u, w, s.xfers[s.lists.finished[0]]);
    }
  }

  lemma WriteStageAccount(s: Stream, u: nat, w: Call, x: Xfer)
    requires u < |s.calls| && CanCall(s, u, StageOne) && Accounted(false, s.calls[u], w) && !s.cfg.isRead
    requires x == s.xfers[s.lists.finished[0]]
    ensures |StageRound(s, u).calls| == |s.calls| && Accounted(false, StageRound(s, u).calls[u], w)
  {
    var c := s.calls[u];
    Split(c.copied, c.src, Min(Min(c.length, |c.src|), |x.data|));
  }

  lemma Split(copied: seq<Byte>, src: seq<Byte>, k: nat)
    requires k <= |src|
    ensures (copied + src[..k]) + src[k..] == copied + src && |copied + src[..k]| == |copied| + k
  {
  }

  lemma CallAccount(s: Stream, u: nat, c: CallAction, w: Call)
    requires u < |s.calls| && CanCall(s, u, c) && !c.Enter? && Accounted(s.cfg.isRead, s.calls[u], w)
    requires c.StageOne? && s.cfg.isRead ==> ValidXfer(s.xfers[s.lists.finished[0]], s.cfg.capacity)
    ensures |StepCall(s, u, c).calls| == |s.calls| && Accounted(s.cfg.isRead, StepCall(s, u, c).calls[u], w)
  {
    match c
    case TakePermit =>
    case GiveUp =>
    case Acquire =>
    case StageOne => StageAccount(s, u, w);
    case Decide =>
    case QueueApc(_) =>
    case MoveOne =>
    case RollBack =>
  }

  lemma AccountStep(s: Stream, a: Action, u: nat, w: Call)
    requires Orderly(s) && Enabled(s, a) && u < |s.calls| && Accounted(s.cfg.isRead, s.calls[u], w)
    requires a == Caller(u, StageOne) && s.cfg.isRead ==> ValidXfer(s.xfers[s.lists.finished[0]], s.cfg.capacity)
    ensures |Apply(s, a).calls| == |s.calls| && Apply(s, a).cfg == s.cfg
    ensures Accounted(s.cfg.isRead, Apply(s, a).calls[u],
                      if a.Caller? && a.u == u && a.c.Enter?
                      then IDLE.(length := a.c.length, src := a.c.src, wantsCount := a.c.wantsCount) else w)
  {
    OrderlyKept(s, a);
    match a
    case Thread(t) => ThreadFrame(s, t);
    case Caller(v, c) =>
      CallFrame(s, v, c);
      if v == u {
        if c.Enter? { EnterAccount(s, u, c); } else { CallAccount(s, u, c, w); }
      }
  }

  lemma EnterAccount(s: Stream, u: nat, c: CallAction)
    requires u < |s.calls| && CanCall(s, u, c) && c.Enter?
    ensures Accounted(s.cfg.isRead, StepCall(s, u, c).calls[u],
                      IDLE.(length := c.length, src := c.src, wantsCount := c.wantsCount))
  {
    assert [] + c.src == c.src;
  }

  /** In every run, at every point of a write: the bytes stored so far and those still to store are, in
      order, the bytes the caller passed. */
  lemma {:induction false} WriteAccount(cfg: Config, n: nat, run: seq<Action>, u: nat)
    requires !cfg.isRead && u < n
    ensures |Reached(cfg, n, run).calls| == n && Reached(cfg, n, run).cfg == cfg
    ensures Accounted(false, Reached(cfg, n, run).calls[u], Wanted(cfg, n, run, u))
  {
    Conservation(cfg, n, run);
    if run != [] {
      var before, a := run[..|run| - 1], run[|run| - 1];
      WriteAccount(cfg, n, before, u);
      Conservation(cfg, n, before);
      if Enabled(Reached(cfg, n, before), a) { AccountStep(Reached(cfg, n, before), a, u, Wanted(cfg, n, before, u)); }
    }
  }

  /** Likewise for a read, in every run whose rollbacks keep the bytes: what it has copied and what it still
      wants add up to the length the caller passed. */
  lemma {:induction false} ReadAccount(cfg: Config, n: nat, run: seq<Action>, u: nat)
    requires cfg.isRead && u < n && R.FairRollBacks(cfg, n, run)
    ensures |Reached(cfg, n, run).calls| == n && Reached(cfg, n, run).cfg == cfg
    ensures Accounted(true, Reached(cfg, n, run).calls[u], Wanted(cfg, n, run, u))
  {
    Conservation(cfg, n, run);
    if run != [] {
      var before, a := run[..|run| - 1], run[|run| - 1];
      ReadAccount(cfg, n, before, u);
      R.BytesKeptExactly(cfg, n, before);
      Conservation(cfg, n, before);
      if Enabled(Reached(cfg, n, before), a) { AccountStep(Reached(cfg, n, before), a, u, Wanted(cfg, n, before, u)); }
    }
  }

  /** So a read or write that is decided in its favour transfers all it asked for, or less if partial
      transfers are allowed and the caller gets the count. */
  lemma DecidedLength(cfg: Config, n: nat, run: seq<Action>, u: nat)
    requires u < n && InPhase(Reached(cfg, n, run), u, Staged) && (cfg.isRead ==> R.FairRollBacks(cfg, n, run))
    ensures var s, w := Reached(cfg, n, run), Wanted(cfg, n, run, u);
            var r := Apply(s, Caller(u, Decide));
            && |r.calls| == n && |s.calls[u].copied| <= w.length
            && (!cfg.isRead ==> s.calls[u].copied <= w.src)
            && (r.calls[u].phase == RollingBack <==>
                  |s.calls[u].copied| < w.length && (cfg.noPartial || !w.wantsCount))
  {
    if cfg.isRead { ReadAccount(cfg, n, run, u); } else { WriteAccount(cfg, n, run, u); }
    Decision(Reached(cfg, n, run), u);
  }

  // ---------------------------------------------------------------- the rounds of a call

  /** No byte enters or leaves, and the thread and its APCs are as before. */
  predicate Local(s: Stream, r: Stream) {
    r.cfg == s.cfg && r.entered == s.entered && r.departed == s.departed && r.mail == s.mail && r.thread == s.thread
  }

  /** A further round needs a permit that is not there. */
  predicate OutOfPermits(s: Stream, u: nat)
    requires u < |s.calls|
  {
    s.cfg.timed && !s.calls[u].first && s.gate.sem == 0
  }

  /** The loop over Finished ends, and gives the lock up, when nothing is wanted any more, no item is left or
      `over` says so. */
  predicate LoopEnds(s: Stream, r: Stream, u: nat, over: bool)
    requires u < |s.calls| == |r.calls|
  {
    && r.calls[u].phase == (if r.calls[u].length == 0 || r.lists.finished == [] || over then Staged else Staging)
    && r.gate.lock == if r.calls[u].phase == Staged then None else s.gate.lock
  }

  /** A round for which there is no permit only ends the loop. */
  lemma DryRound(s: Stream, u: nat)
    requires u < |s.calls| && CanCall(s, u, StageOne) && OutOfPermits(s, u)
    ensures Apply(s, Caller(u, StageOne)) ==
            s.(calls := s.calls[u := s.calls[u].(phase := Staged)], gate := s.gate.(lock := None))
  {
  }

  /** One round of a read, for an item that is well formed: as many bytes as are wanted and there are go
      from the front of the window of the head of Finished to the caller.  An item that is used up
      joins the submit list; one that is not stays, with the rest as its window, what it was is saved,
      and the loop is over. */
  lemma ReadRounds(s: Stream, u: nat, i: nat, x: Xfer, k: nat)
    requires s.cfg.isRead && u < |s.calls| && CanCall(s, u, StageOne) && !OutOfPermits(s, u)
    requires i == s.lists.finished[0] && x == s.xfers[i] && ValidXfer(x, s.cfg.capacity)
    requires k == if s.calls[u].length < x.len then s.calls[u].length else x.len
    ensures var c, r := s.calls[u], Apply(s, Caller(u, StageOne));
            && Local(s, r) && |r.calls| == |s.calls| && |r.xfers| == |s.xfers| && LoopEnds(s, r, u, k < x.len)
            && r.calls == s.calls[u := r.calls[u]] && r.xfers == s.xfers[i := r.xfers[i]] && r.xfers[i].data == x.data
            && r.calls[u].copied == c.copied + Window(x)[..k] && r.calls[u].length == c.length - k && !r.calls[u].first
            && (k == x.len ==> r.calls[u].staged == c.staged + [i] && r.calls[u].backup == c.backup && r.xfers[i] == x
                               && r.lists == s.lists.(finished := s.lists.finished[1..]))
            && (k < x.len ==> r.calls[u].staged == c.staged && r.calls[u].backup == Some(Backup(i, x))
                              && Window(r.xfers[i]) == Window(x)[k..] && r.lists == s.lists)
  {
    assert s.xfers[i := x] == s.xfers && Prefix(Window(x), k) == Window(x)[..k];
  }

  /** One round of a write: the next bytes of the caller, a whole buffer if there are as many, are stored at
      the front of the head of Finished, which joins the submit list. */
  lemma WriteRounds(s: Stream, u: nat, i: nat, x: Xfer, k: nat)
    requires !s.cfg.isRead && u < |s.calls| && CanCall(s, u, StageOne) && !OutOfPermits(s, u)
    requires i == s.lists.finished[0] && x == s.xfers[i] && |s.calls[u].src| == s.calls[u].length
    requires k == if s.calls[u].length < |x.data| then s.calls[u].length else |x.data|
    ensures var c, r := s.calls[u], Apply(s, Caller(u, StageOne));
            && Local(s, r) && |r.calls| == |s.calls| && |r.xfers| == |s.xfers| && LoopEnds(s, r, u, false)
            && r.calls == s.calls[u := r.calls[u]]
            && r.calls[u].copied == c.copied + c.src[..k] && r.calls[u].src == c.src[k..]
            && r.calls[u].length == c.length - k && r.calls[u].staged == c.staged + [i] && !r.calls[u].first
            && r.xfers == s.xfers[i := x.(len := k, data := c.src[..k] + x.data[k..])]
            && r.lists == s.lists.(finished := s.lists.finished[1..])
  {
  }

  // ---------------------------------------------------------------- admission

  /** A call is let in if the stream is started or stopped, with a length, and a write with its bytes; it has
      copied nothing yet and nothing else changes. */
  lemma LetIn(s: Stream, u: nat, length: nat, src: seq<Byte>, wantsCount: bool)
    requires u < |s.calls| && s.calls[u].phase == Idle && length > 0
    requires |src| == (if s.cfg.isRead then 0 else length) && (s.cfg.isRead ==> wantsCount)
    ensures var a := Caller(u, Enter(length, src, wantsCount));
            var c := Call(Entered, length, src, wantsCount, s.thread.state, true, [], [], None);
            && (Enabled(s, a) <==> s.thread.state == Started || s.thread.state == Stopped)
            && (Enabled(s, a) ==> Apply(s, a) == s.(calls := s.calls[u := c]))
  {
  }

  /** With a timeout a call goes on exactly when the semaphore has a permit, which it takes, and may give
      up; without one it goes on exactly when Finished is not empty, and else it gives up. */
  lemma Admitted(s: Stream, u: nat)
    requires InPhase(s, u, Entered)
    ensures var take, leave := Caller(u, TakePermit), Caller(u, GiveUp);
            && (Enabled(s, take) <==> if s.cfg.timed then s.gate.sem > 0 else s.lists.finished != [])
            && (Enabled(s, leave) <==> s.cfg.timed || s.lists.finished == [])
            && (Enabled(s, take) ==>
                  Apply(s, take) == s.(calls := s.calls[u := s.calls[u].(phase := Permitted)],
                                       gate := Gate(if s.cfg.timed then s.gate.sem - 1 else s.gate.sem, s.gate.lock)))
            && (Enabled(s, leave) ==> Apply(s, leave) == s.(calls := s.calls[u := IDLE]))
  {
  }

  /** In every run: the lock is taken when it is free, and the call that takes it finds an item; without a
      timeout another call may have taken the last one, and then the call is over. */
  lemma Locked(cfg: Config, n: nat, run: seq<Action>, u: nat)
    requires InPhase(Reached(cfg, n, run), u, Permitted)
    ensures var s, a := Reached(cfg, n, run), Caller(u, Acquire);
            && (Enabled(s, a) <==> s.gate.lock == None) && (cfg.timed ==> s.lists.finished != [])
            && (Enabled(s, a) && s.lists.finished != [] ==>
                  Apply(s, a) == s.(calls := s.calls[u := s.calls[u].(phase := Staging)],
                                    gate := Gate(s.gate.sem, Some(u))))
            && (Enabled(s, a) && s.lists.finished == [] ==> Apply(s, a) == s.(calls := s.calls[u := IDLE]))
  {
    Conservation(cfg, n, run);
    if cfg.timed { M.PermitsAreGood(cfg, n, run, u, Caller(u, Acquire)); }
  }

  // ---------------------------------------------------------------- rolling back

  /** A rollback takes the lock if it has items to put back. */
  lemma MayRollBack(s: Stream, u: nat)
    requires InPhase(s, u, RollingBack)
    ensures Enabled(s, Caller(u, RollBack)) <==> s.calls[u].staged == [] || s.gate.lock == None
  {
  }

  /** A release that would pass the maximum is refused as a whole. */
  lemma ReleaseBounded(cfg: Config, gate: Gate, n: nat)
    requires cfg.timed
    ensures Release(cfg, gate, n).lock == gate.lock
    ensures Release(cfg, gate, n).sem == if gate.sem + n > cfg.items then gate.sem else gate.sem + n
  {
  }

  /** In every run: a rollback ends the call.  If it has staged nothing, nothing else happens; otherwise the
      staged items are in front of Finished, the last one first, with a timeout each has its permit
      back, and the item read in part has start, size and length of its window restored. */
  lemma RolledBack(cfg: Config, n: nat, run: seq<Action>, u: nat)
    requires InPhase(Reached(cfg, n, run), u, RollingBack) && Enabled(Reached(cfg, n, run), Caller(u, RollBack))
    ensures var s, r := Reached(cfg, n, run), Apply(Reached(cfg, n, run), Caller(u, RollBack));
            var c := s.calls[u];
            && Local(s, r) && r.calls == s.calls[u := IDLE] && r.gate.lock == s.gate.lock
            && r.lists == s.lists.(finished := r.lists.finished) && |r.xfers| == |s.xfers|
            && |r.lists.finished| == |c.staged| + |s.lists.finished|
            && r.lists.finished[|c.staged|..] == s.lists.finished
            && (forall k :: 0 <= k < |c.staged| ==> r.lists.finished[k] == c.staged[|c.staged| - 1 - k])
            && (cfg.timed ==> r.gate.sem == s.gate.sem + |c.staged|)
            && (c.staged == [] || c.backup == None ==> r.xfers == s.xfers)
            && (c.staged != [] && c.backup.Some? && c.backup.value.id < |s.xfers| ==>
                  var b := c.backup.value;
                  r.xfers == s.xfers[b.id := Xfer(s.xfers[b.id].data, b.xfer.start, b.xfer.size, b.xfer.len)])
  {
    var s := Reached(cfg, n, run);
    var c := s.calls[u];
    Conservation(cfg, n, run);
    if cfg.timed { M.PermitsAreGood(cfg, n, run, u, Caller(u, RollBack)); }
    ReverseKeeps(c.staged, 0);
    forall k | 0 <= k < |c.staged| ensures Reverse(c.staged)[k] == c.staged[|c.staged| - 1 - k] {
      F.ReverseAt(c.staged, k);
    }
  }
}
