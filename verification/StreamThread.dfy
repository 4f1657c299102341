/** What the stream thread does with the items in one section: synchronising, submitting, completing, and
    running an APC; and where it goes on. */
module StreamThread {
  import opened Basics
  import opened QueuedStream
  import opened StreamConservation
  import M = StreamSemaphore

  /** Finished has grown by the list `more` at its end, and with a timeout the semaphore by as many permits;
      FinishedTemp is empty. */
  predicate Grown(s: Stream, r: Stream, more: seq<nat>) {
    && r.lists.finished == s.lists.finished + more && r.lists.temp == []
    && r.gate.sem == (if s.cfg.timed then s.gate.sem + |more| else s.gate.sem) && r.gate.lock == s.gate.lock
  }

  /** No item is written, no byte enters or leaves, and no call changes. */
  predicate Unseen(s: Stream, r: Stream) {
    r.cfg == s.cfg && r.xfers == s.xfers && r.calls == s.calls && r.entered == s.entered && r.departed == s.departed
  }

  /** In every run: when the thread comes round its loop and FinishedLock is free, FinishedTemp is moved to
      the end of Finished, whole and in order, and the semaphore is released as often; if a call holds
      the lock nothing moves.  Either way the thread goes on to submit. */
  lemma Synchronised(cfg: Config, n: nat, run: seq<Action>)
    requires Reached(cfg, n, run).thread.pc == Syncing
    ensures var s, r := Reached(cfg, n, run), Apply(Reached(cfg, n, run), Thread(TrySync));
            && Unseen(s, r) && r.mail == s.mail && r.thread == s.thread.(pc := Submitting)
            && r.lists.queued == s.lists.queued && r.lists.pending == s.lists.pending
            && if s.gate.lock == None then Grown(s, r, s.lists.temp) else r.lists == s.lists && r.gate == s.gate
  {
    Conservation(cfg, n, run);
    if cfg.timed { M.PermitsAreGood(cfg, n, run, 0, Thread(TrySync)); }
  }

  /** In every run: the synchronisation at the end waits until the lock is free, and then moves all. */
  lemma Forced(cfg: Config, n: nat, run: seq<Action>)
    requires Reached(cfg, n, run).thread.pc == ForcedSync
    ensures var s, a := Reached(cfg, n, run), Thread(Force);
            && (Enabled(s, a) <==> s.gate.lock == None)
            && (Enabled(s, a) ==>
                  && Unseen(s, Apply(s, a)) && Apply(s, a).mail == s.mail && Grown(s, Apply(s, a), s.lists.temp)
                  && Apply(s, a).thread == s.thread.(pc := Draining)
                  && Apply(s, a).lists.queued == s.lists.queued && Apply(s, a).lists.pending == s.lists.pending)
  {
    Conservation(cfg, n, run);
    if cfg.timed && Enabled(Reached(cfg, n, run), Thread(Force)) { M.PermitsAreGood(cfg, n, run, 0, Thread(Force)); }
  }

  /** In every run: a completion takes the oldest pending item, with the bytes and the length the device and
      the callback leave, and gives its slot back.  An invalid one returns to the end of Queued.  A
      valid one goes, behind FinishedTemp, to the end of Finished with a permit for each when the
      lock is free, and to the end of FinishedTemp without one when it is held; for a read stream its
      bytes have entered. */
  lemma Completed(cfg: Config, n: nat, run: seq<Action>, t: ThreadAction, i: nat)
    requires t.Complete? && Enabled(Reached(cfg, n, run), Thread(t)) && i == Reached(cfg, n, run).lists.pending[0]
    ensures var s, r := Reached(cfg, n, run), Apply(Reached(cfg, n, run), Thread(t));
            && |r.xfers| == |s.xfers| && i < |s.xfers|
            && r.xfers == s.xfers[i := Xfer(t.data, s.xfers[i].start, s.xfers[i].size, t.len)]
            && [i] + r.lists.pending == s.lists.pending
            && r.calls == s.calls && r.mail == s.mail && r.departed == s.departed
            && r.thread.freeSlots == s.thread.freeSlots + 1 && r.thread.pendingIO == s.thread.pendingIO - 1
            && r.thread.state == s.thread.state && r.thread.noWaiting == s.thread.noWaiting
            && r.thread.pc == (if s.thread.pc == Draining then Draining else if t.goOn then LoopTop else Leaving)
            && r.entered == (if t.valid && cfg.isRead then s.entered + Window(r.xfers[i]) else s.entered)
            && (!t.valid ==> r.lists.queued == s.lists.queued + [i] && r.lists.finished == s.lists.finished
                             && r.lists.temp == s.lists.temp && r.gate == s.gate)
            && (t.valid && s.gate.lock == None ==> Grown(s, r, s.lists.temp + [i]) && r.lists.queued == s.lists.queued)
            && (t.valid && s.gate.lock != None ==>
                  r.lists.temp == s.lists.temp + [i] && r.lists.finished == s.lists.finished
                  && r.lists.queued == s.lists.queued && r.gate == s.gate)
  {
    Conservation(cfg, n, run);
    if cfg.timed { M.PermitsAreGood(cfg, n, run, 0, Thread(t)); }
  }

  /** A submission takes the oldest queued item if a slot is free, with its whole buffer as window and for a
      read stream as length.  If it is accepted the item is the newest pending one, a slot is used, and
      for a write stream its bytes have left; if it is refused the item is the oldest queued one
      again and the thread stops.  Without a slot or an item the thread waits. */
  lemma Submitted(s: Stream, ok: bool)
    requires s.thread.pc == Submitting && Enabled(s, Thread(SubmitNext(ok)))
    ensures var r := Apply(s, Thread(SubmitNext(ok)));
            if s.thread.freeSlots == 0 || s.lists.queued == [] then r == s.(thread := s.thread.(pc := Waiting))
            else
              var i := s.lists.queued[0];
              var x := s.xfers[i];
              && r.cfg == s.cfg && r.calls == s.calls && r.mail == s.mail && r.gate == s.gate && r.entered == s.entered
              && r.xfers == s.xfers[i := Xfer(x.data, 0, |x.data|, if s.cfg.isRead then |x.data| else x.len)]
              && r.lists.finished == s.lists.finished && r.lists.temp == s.lists.temp
              && if ok then
                   && [i] + r.lists.queued == s.lists.queued && r.lists.pending == s.lists.pending + [i]
                   && r.thread == s.thread.(freeSlots := s.thread.freeSlots - 1, pendingIO := s.thread.pendingIO + 1)
                   && (s.cfg.isRead ==> r.departed == s.departed)
                   && (!s.cfg.isRead && x.len <= |x.data| ==> r.departed == s.departed + x.data[..x.len])
                 else r.lists == s.lists && r.thread == s.thread.(pc := Leaving) && r.departed == s.departed
  {
  }

  /** Running the oldest APC: a submit list goes to the end of Queued whole and in order and is no longer
      counted, and a thread that waited looks round. */
  lemma Delivered(s: Stream)
    requires s.thread.pc in {Waiting, Alerted, Draining} && s.mail.apcs != []
    ensures var r, apc := Apply(s, Thread(Deliver)), s.mail.apcs[0];
            && Unseen(s, r) && [apc] + r.mail.apcs == s.mail.apcs && r.mail.lost == s.mail.lost && r.gate == s.gate
            && r.thread == s.thread.(pc := if s.thread.pc == Draining then Draining else Alerted)
            && (apc.Submit? ==> r.lists == s.lists.(queued := s.lists.queued + apc.list)
                                && r.mail.count == s.mail.count - 1)
            && (apc.StopApc? ==> r.lists == s.lists && r.mail.count == s.mail.count)
  {
  }

  /** The steps that move no item.  A stopped stream starts with a new thread, which announces STARTED with
      all its slots or leaves; STOPPING is set by StmK_Stop, with an APC to wake the thread, and by a
      thread that leaves; the thread goes round its loop while the stream is STARTED, and after the
      drain it takes the submit lists it has not run with it. */
  lemma Controlled(s: Stream, t: ThreadAction)
    requires Enabled(s, Thread(t)) && !t.TrySync? && !t.SubmitNext? && !t.Complete? && !t.Deliver? && !t.Force?
    ensures var r, i := Apply(s, Thread(t)), s.thread;
            && Unseen(s, r) && r.lists == s.lists && r.gate == s.gate && r.thread.pendingIO == i.pendingIO
            && (r.mail == match t
                          case Stop(true) => s.mail.(apcs := s.mail.apcs + [StopApc])
                          case Exit => s.mail.(apcs := [], lost := s.mail.lost + Undelivered(s.mail.apcs))
                          case _ => s.mail)
            && match t
               case Start(ok) =>
                 && i.state == Stopped
                 && r.thread == if ok then ThreadInfo(Starting, Booting, i.freeSlots, i.pendingIO, false) else i
               case Stop(_) => i.state == Started && r.thread == i.(state := Stopping)
               case Boot(ok) =>
                 && i.pc == Booting
                 && r.thread == if ok then i.(state := Started, pc := LoopTop, freeSlots := s.cfg.slots)
                                else i.(pc := Leaving)
               case CheckState =>
                 i.pc == LoopTop && r.thread == i.(pc := if i.state == Started then Syncing else Leaving)
               case TimeOut =>
                 i.pc == Waiting && s.lists.pending != [] && s.lists.temp != [] && r.thread == i.(pc := LoopTop)
               case Resume => i.pc == Alerted && r.thread == i.(pc := LoopTop)
               case Leave => i.pc == Leaving && r.thread == i.(state := Stopping, pc := ForcedSync)
               case GiveUpWaiting => i.pc == Draining && !i.noWaiting && r.thread == i.(noWaiting := true)
               case DrainDone =>
                 i.pc == Draining && i.pendingIO <= 0 && s.mail.count <= 0 && r.thread == i.(pc := Exiting)
               case Exit => i.pc == Exiting && r.thread == i.(state := Stopped, pc := NoThread, freeSlots := 0)
               case _ => true
  {
  }
}
