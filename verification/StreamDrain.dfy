/** Stopping the stream: the counters the drain loop tests, its termination, and what STOPPED means. */
module StreamDrain {
  import opened Basics
  import opened QueuedStream

  /** The counters agree with the lists. */
  predicate CountsMatch(s: Stream) {
    && s.thread.pendingIO == |s.lists.pending|
    && s.mail.count == |Undelivered(s.mail.apcs)| + |s.mail.lost|
    && (s.thread.freeSlots + |s.lists.pending| == s.cfg.slots || (s.thread.freeSlots == 0 && s.lists.pending == []))
    && (s.thread.pc in {NoThread, Booting, Exiting} ==> s.lists.pending == [])
    && (s.thread.pc == NoThread ==> s.mail.apcs == [])
    && (s.thread.pc == Exiting ==> s.mail.lost == [])
  }

  /** The thread state agrees with the place of the thread. */
  predicate StateMatches(s: Stream) {
    var pc, state := s.thread.pc, s.thread.state;
    && (pc == NoThread <==> state == Stopped)
    && (pc == Booting ==> state == Starting)
    && (pc in {LoopTop, Syncing, Submitting, Waiting, Alerted} ==> state == Started || state == Stopping)
    && (pc in {ForcedSync, Draining, Exiting} ==> state == Stopping)
  }

  predicate Counted(s: Stream) { CountsMatch(s) && StateMatches(s) }

  lemma {:induction false} UndeliveredAppend(apcs: seq<Apc>, a: Apc)
    ensures Undelivered(apcs + [a]) == Undelivered(apcs) + if a.Submit? then [a.list] else []
  {
    if apcs == [] {
      assert [a][1..] == [];
    } else {
      UndeliveredAppend(apcs[1..], a);
      assert (apcs + [a])[1..] == apcs[1..] + [a];
    }
  }

  lemma ThreadCounts(s: Stream, t: ThreadAction)
    requires CountsMatch(s) && StateMatches(s) && CanThread(s, t)
    ensures CountsMatch(StepThread(s, t))
  {
    match t
    case Complete(_, _, _, _) => CompleteCounts(s, t);
    case SubmitNext(_) => SubmitCounts(s, t);
    case Deliver => DeliverCounts(s);
    case Exit => ExitCounts(s);
    case Stop(ok) => StopCounts(s, ok);
    case Start(_) =>
    case Boot(_) =>
    case CheckState =>
    case TrySync =>
    case TimeOut =>
    case Resume =>
    case Leave =>
    case Force =>
    case GiveUpWaiting =>
    case DrainDone =>
  }

  lemma CompleteCounts(s: Stream, t: ThreadAction)
    requires CountsMatch(s) && StateMatches(s) && CanThread(s, t) && t.Complete?
    ensures CountsMatch(StepThread(s, t))
  {
  }

  lemma SubmitCounts(s: Stream, t: ThreadAction)
    requires CountsMatch(s) && StateMatches(s) && CanThread(s, t) && t.SubmitNext?
    ensures CountsMatch(StepThread(s, t))
  {
  }

  lemma DeliverCounts(s: Stream)
    requires CountsMatch(s) && StateMatches(s) && CanThread(s, Deliver)
    ensures CountsMatch(StepThread(s, Deliver))
  {
  }

  lemma ExitCounts(s: Stream)
    requires CountsMatch(s) && StateMatches(s) && CanThread(s, Exit)
    ensures CountsMatch(StepThread(s, Exit))
  {
  }

  lemma StopCounts(s: Stream, ok: bool)
    requires CountsMatch(s) && StateMatches(s) && CanThread(s, Stop(ok))
    ensures CountsMatch(StepThread(s, Stop(ok)))
  {
    UndeliveredAppend(s.mail.apcs, StopApc);
  }

  lemma ThreadStates(s: Stream, t: ThreadAction)
    requires StateMatches(s) && CanThread(s, t)
    ensures StateMatches(StepThread(s, t))
  {
  }

  lemma ThreadCounted(s: Stream, t: ThreadAction)
    requires Counted(s) && CanThread(s, t)
    ensures Counted(StepThread(s, t))
  {
    ThreadCounts(s, t);
    ThreadStates(s, t);
  }

  /** What a call can do to the fields the drain loop looks at: queue one submit list. */
  lemma CallAndThread(s: Stream, u: nat, c: CallAction)
    requires u < |s.calls| && CanCall(s, u, c)
    ensures var r := StepCall(s, u, c);
            && r.thread == s.thread && r.lists.pending == s.lists.pending && r.cfg == s.cfg
            && r.mail == (if c != QueueApc(true) then s.mail
                          else if s.thread.pc == NoThread then
                            s.mail.(count := s.mail.count + 1, lost := s.mail.lost + [s.calls[u].staged])
                          else s.mail.(count := s.mail.count + 1, apcs := s.mail.apcs + [Submit(s.calls[u].staged)]))
  {
  }

  lemma CountedKept(s: Stream, a: Action)
    requires Counted(s) && Enabled(s, a)
    ensures Counted(Apply(s, a))
  {
    match a
    case Thread(t) => ThreadCounted(s, t);
    case Caller(u, c) =>
      CallAndThread(s, u, c);
      UndeliveredAppend(s.mail.apcs, Submit(s.calls[u].staged));
  }

  lemma {:induction false} CountersAgree(cfg: Config, n: nat, run: seq<Action>)
    ensures Counted(Reached(cfg, n, run)) && Reached(cfg, n, run).cfg == cfg
    ensures 0 <= Reached(cfg, n, run).thread.pendingIO <= cfg.slots
  {
    if run != [] {
      var before := run[..|run| - 1];
      CountersAgree(cfg, n, before);
      var s, a := Reached(cfg, n, before), run[|run| - 1];
      if Enabled(s, a) {
        CountedKept(s, a);
        ConfigKept(s, a);
      }
    }
  }

  lemma ConfigKept(s: Stream, a: Action)
    ensures Apply(s, a).cfg == s.cfg
  {
  }

  // ---------------------------------------------------------------- termination of the drain loop

  /** What is left to do: pending transfers, undelivered APCs (the stop APC included) and the
      one timeout that switches waiting off. */
  function Work(s: Stream): nat {
    |s.lists.pending| + |s.mail.apcs| + if s.thread.noWaiting then 0 else 1
  }

  /** One effective action of the draining thread, other than leaving the loop. */
  predicate DrainStep(s: Stream, a: Action) {
    s.thread.pc == Draining && a.Thread? && Enabled(s, a) && !a.t.DrainDone?
  }

  lemma DrainStepWorks(s: Stream, t: ThreadAction)
    requires Counted(s) && DrainStep(s, Thread(t))
    ensures Work(StepThread(s, t)) < Work(s) && StepThread(s, t).thread.pc == Draining
  {
  }

  function DrainSteps(s: Stream, run: seq<Action>): nat {
    if run == [] then 0
    else
      var before := run[..|run| - 1];
      DrainSteps(s, before) + if DrainStep(Exec(s, before), run[|run| - 1]) then 1 else 0
  }

  ghost predicate NoNewApcs(run: seq<Action>) {
    forall a <- run :: a.Caller? ==> a.c != QueueApc(true)
  }

  /** A draining thread keeps draining, doing one piece of work a round; calls leave its work alone. */
  lemma DrainKept(s: Stream, a: Action)
    requires Counted(s) && s.thread.pc == Draining && Enabled(s, a)
    requires a != Thread(DrainDone) && (a.Caller? ==> a.c != QueueApc(true))
    ensures Apply(s, a).thread.pc == Draining
    ensures Work(Apply(s, a)) + (if DrainStep(s, a) then 1 else 0) <= Work(s)
  {
    match a
    case Thread(t) => DrainStepWorks(s, t);
    case Caller(u, c) => CallAndThread(s, u, c);
  }

  /** However callers interleave, until it leaves the loop a drain that gets no new APC takes at
      most Work(s) rounds. */
  lemma {:induction false} DrainTerminates(s: Stream, run: seq<Action>)
    requires Counted(s) && s.thread.pc == Draining && NoNewApcs(run) && Thread(DrainDone) !in run
    ensures var r := Exec(s, run);
            Counted(r) && r.thread.pc == Draining && DrainSteps(s, run) + Work(r) <= Work(s)
  {
    if run != [] {
      var before, a := run[..|run| - 1], run[|run| - 1];
      assert run == before + [a];
      DrainTerminates(s, before);
      if Enabled(Exec(s, before), a) {
        CountedKept(Exec(s, before), a);
        DrainKept(Exec(s, before), a);
      }
    }
  }

  /** The draining thread has nothing it can do exactly when nothing is pending or undelivered
      but a submit list was lost earlier. */
  lemma DrainBlocked(s: Stream)
    requires Counted(s) && s.thread.pc == Draining
    requires s.lists.pending != [] ==> s.lists.pending[0] < |s.xfers|
    ensures (forall t: ThreadAction :: !CanThread(s, t))
            <==> (s.lists.pending == [] && s.mail.apcs == [] && s.mail.lost != [])
  {
    if s.lists.pending != [] {
      assert CanThread(s, Complete(true, true, s.xfers[s.lists.pending[0]].data, 0));
    } else if s.mail.apcs != [] {
      assert CanThread(s, Deliver);
    } else if s.mail.lost == [] {
      assert CanThread(s, DrainDone);
    }
  }

  // ---------------------------------------------------------------- what STOPPED means

  /** A call hands its submit list to a thread that has left the drain loop, or has ended. */
  predicate Late(s: Stream, a: Action) {
    a.Caller? && a.c == QueueApc(true) && Enabled(s, a) && (s.thread.pc == Exiting || s.thread.pc == NoThread)
  }

  function LateHandOvers(cfg: Config, n: nat, run: seq<Action>): nat {
    if run == [] then 0
    else
      var before := run[..|run| - 1];
      LateHandOvers(cfg, n, before) + if Late(Reached(cfg, n, before), run[|run| - 1]) then 1 else 0
  }

  /** Submit lists no thread will run: those of ended threads, and those of a thread past its drain loop. */
  function Doomed(s: Stream): nat {
    |s.mail.lost| + if s.thread.pc == Exiting then |Undelivered(s.mail.apcs)| else 0
  }

  lemma DoomedStep(s: Stream, a: Action)
    requires Counted(s) && Enabled(s, a)
    ensures Doomed(Apply(s, a)) == Doomed(s) + if Late(s, a) then 1 else 0
  {
    match a
    case Thread(t) =>
    case Caller(u, c) =>
      CallAndThread(s, u, c);
      UndeliveredAppend(s.mail.apcs, Submit(s.calls[u].staged));
  }

  lemma {:induction false} DoomedAreLate(cfg: Config, n: nat, run: seq<Action>)
    ensures LateHandOvers(cfg, n, run) == Doomed(Reached(cfg, n, run))
  {
    if run != [] {
      var before := run[..|run| - 1];
      DoomedAreLate(cfg, n, before);
      CountersAgree(cfg, n, before);
      if Enabled(Reached(cfg, n, before), run[|run| - 1]) {
        DoomedStep(Reached(cfg, n, before), run[|run| - 1]);
      }
    }
  }

  /** A stopped stream has no transfer pending and no APC waiting, and has lost no submit list
      exactly when no call handed one over after the drain loop had ended. */
  lemma StoppedIsClean(cfg: Config, n: nat, run: seq<Action>)
    requires Reached(cfg, n, run).thread.state == Stopped
    ensures var s := Reached(cfg, n, run);
            && s.lists.pending == [] && s.mail.apcs == [] && s.thread.pendingIO == 0
            && |s.mail.lost| == LateHandOvers(cfg, n, run) == s.mail.count
  {
    CountersAgree(cfg, n, run);
    DoomedAreLate(cfg, n, run);
  }

  lemma LossKept(s: Stream, a: Action)
    requires Counted(s) && s.mail.lost != [] && s.thread.pc != NoThread && Enabled(s, a)
    ensures Apply(s, a).mail.lost != [] && Apply(s, a).thread.pc != NoThread
  {
    match a
    case Thread(t) =>
    case Caller(u, c) => CallAndThread(s, u, c);
  }

  /** Such a loss is permanent: a stream restarted after it can never be stopped again. */
  lemma {:induction false} LossPreventsStopping(s: Stream, run: seq<Action>)
    requires Counted(s) && s.mail.lost != [] && s.thread.pc != NoThread
    ensures var r := Exec(s, run);
            Counted(r) && r.mail.lost != [] && r.thread.pc != NoThread && r.thread.state != Stopped
  {
    if run != [] {
      LossPreventsStopping(s, run[..|run| - 1]);
      var m, a := Exec(s, run[..|run| - 1]), run[|run| - 1];
      if Enabled(m, a) {
        CountedKept(m, a);
        LossKept(m, a);
      }
    }
  }

  // ---------------------------------------------------------------- FinishedTemp when the stream stops

  /** The last completion that the stream filed as valid, since the last forced synchronisation, found
      FinishedLock held. */
  function LastFoundHeld(cfg: Config, n: nat, run: seq<Action>): bool {
    if run == [] then false
    else
      var before, a := run[..|run| - 1], run[|run| - 1];
      var s := Reached(cfg, n, before);
      if !Enabled(s, a) || a.Caller? then LastFoundHeld(cfg, n, before)
      else match a.t
           case Force => false
           case Complete(valid, _, _, _) => if valid then s.gate.lock.Some? else LastFoundHeld(cfg, n, before)
           case _ => LastFoundHeld(cfg, n, before)
  }

  /** From the forced synchronisation on, FinishedTemp holds items exactly when `held`. */
  predicate TempMatches(s: Stream, held: bool) {
    s.thread.pc in {Draining, Exiting, NoThread} ==> (s.lists.temp != [] <==> held)
  }

  lemma CallKeepsTemp(s: Stream, u: nat, c: CallAction)
    requires u < |s.calls| && CanCall(s, u, c)
    ensures StepCall(s, u, c).lists.temp == s.lists.temp && StepCall(s, u, c).thread == s.thread
  {
  }

  lemma CompleteTemp(s: Stream, t: ThreadAction, held: bool)
    requires CanThread(s, t) && t.Complete? && TempMatches(s, held)
    ensures TempMatches(StepThread(s, t), if t.valid then s.gate.lock.Some? else held)
  {
  }

  lemma RestTemp(s: Stream, t: ThreadAction, held: bool)
    requires CanThread(s, t) && !t.Complete? && TempMatches(s, held)
    ensures TempMatches(StepThread(s, t), if t.Force? then false else held)
  {
  }

  lemma {:induction false} TempHeld(cfg: Config, n: nat, run: seq<Action>)
    ensures TempMatches(Reached(cfg, n, run), LastFoundHeld(cfg, n, run))
  {
    if run != [] {
      var before, a := run[..|run| - 1], run[|run| - 1];
      var s, held := Reached(cfg, n, before), LastFoundHeld(cfg, n, before);
      TempHeld(cfg, n, before);
      if Enabled(s, a) {
        match a
        case Thread(t) => if t.Complete? { CompleteTemp(s, t, held); } else { RestTemp(s, t, held); }
        case Caller(u, c) => CallKeepsTemp(s, u, c);
      }
    }
  }

  /** A stopped stream has items on FinishedTemp if and only if the last valid completion of its drain
      found FinishedLock held by a call. */
  lemma StoppedTemp(cfg: Config, n: nat, run: seq<Action>)
    requires Reached(cfg, n, run).thread.state == Stopped
    ensures Reached(cfg, n, run).lists.temp != [] <==> LastFoundHeld(cfg, n, run)
  {
    CountersAgree(cfg, n, run);
    TempHeld(cfg, n, run);
  }
}
