/** Runs with literal bytes from the start of a stream to what its callers get. */
module StreamScenes {
  import opened Basics
  import opened QueuedStream
  import opened StreamWitnesses

  // ---------------------------------------------------------------- a read of more than there is

  function Short(noPartial: bool): Config { Config(true, 1, 2, 2, false, noPartial) }

  /** Two bytes have come in and a read asks for more.  If the stream allows partial transfers it succeeds
      with the two bytes, and both items are queued for the device again; if not it returns nothing and
      both items are back on Finished. */
  lemma ShortRead(a: Byte, b: Byte, length: nat, noPartial: bool) returns (run: seq<Action>)
    requires length > 2
    ensures var s := Reached(Short(noPartial), 1, run);
            && s.entered == [a, b] && s.calls == [IDLE]
            && (!noPartial ==> s.departed == [a, b] && s.lists == Lists([], [], [], [])
                               && s.mail.apcs == [Submit([0, 1])])
            && (noPartial ==> s.departed == [] && s.lists == Lists([], [], [1, 0], []) && s.mail.apcs == [])
  {
    var cfg, s := Short(noPartial), Init(Short(noPartial), 1);
    run, s := TwoReceived(cfg, 1, [a], [b]);
    assert s.calls == [IDLE] && s.entered == [a, b];
    run, s := TakeBoth(cfg, run, s, length, 0, 1, a, b);
    assert BothStaged(s, a, b);
    if noPartial { run, s := PutBack(cfg, run, s); } else { run, s := Returned(cfg, run, s, a, b); }
  }

  /** Both items are staged, and the read wants more. */
  predicate BothStaged(s: Stream, a: Byte, b: Byte) {
    && s.thread.state == Started && s.thread.pc != NoThread && s.gate == Gate(0, None)
    && s.lists == Lists([], [], [], []) && s.departed == [] && s.mail == Mail([], [], 0)
    && |s.calls| == 1 && s.calls == [Call(Staged, s.calls[0].length, [], true, Started, false, [a, b], [0, 1], None)]
    && s.calls[0].length > 0
  }

  lemma PutBack(cfg: Config, run: seq<Action>, s: Stream) returns (run': seq<Action>, s': Stream)
    requires s == Reached(cfg, 1, run) && s.cfg == cfg == Short(true) && exists a, b :: BothStaged(s, a, b)
    ensures s' == Reached(cfg, 1, run') && s'.calls == [IDLE] && s'.departed == [] && s'.entered == s.entered
    ensures s'.lists == Lists([], [], [1, 0], []) && s'.mail.apcs == []
  {
    run', s' := Decided(cfg, 1, 0, run, s);
    run', s' := RolledBack(cfg, 1, 0, run', s');
    Reversed(0, 1);
    assert [1, 0] + [] == [1, 0] && s'.calls == [IDLE];
  }

  lemma Returned(cfg: Config, run: seq<Action>, s: Stream, a: Byte, b: Byte) returns (run': seq<Action>, s': Stream)
    requires s == Reached(cfg, 1, run) && s.cfg == cfg == Short(false) && BothStaged(s, a, b)
    ensures s' == Reached(cfg, 1, run') && s'.calls == [IDLE] && s'.departed == [a, b] && s'.entered == s.entered
    ensures s'.lists == Lists([], [], [], []) && s'.mail.apcs == [Submit([0, 1])]
  {
    run', s' := Next(cfg, 1, run, s, Caller(0, Decide));
    assert s' == s.(calls := s.calls[0 := s.calls[0].(phase := ToApc)]);
    run', s' := Queued(cfg, 1, 0, run', s');
    assert s'.calls == [IDLE] && [] + [a, b] == [a, b] && [] + [Submit([0, 1])] == [Submit([0, 1])];
  }

  // ---------------------------------------------------------------- an item on FinishedTemp

  const TIMED := Config(true, 1, 2, 2, true, false)

  /** The stream with these contents of the items, lists, semaphore and so on. */
  function At1(x: Byte, y: Byte, lists: Lists, mail: Mail, gate: Gate, thread: ThreadInfo, call: Call, e: seq<Byte>,
               d: seq<Byte>): Stream {
    Stream(TIMED, [Filled([x]), Filled([y])], lists, mail, gate, thread, [call], e, d)
  }

  function Loop(pc: ThreadPc, slots: nat): ThreadInfo { ThreadInfo(Started, pc, slots, 2 - slots, false) }

  const QUIET := Mail([], [], 0)

  /** Both items are with the device. */
  lemma BothPending() returns (run: seq<Action>, s: Stream)
    ensures s == Reached(TIMED, 1, run)
    ensures s == At1(0, 0, Lists([], [0, 1], [], []), QUIET, Gate(0, None), Loop(Waiting, 0), IDLE, [], [])
  {
    run, s := [], Init(TIMED, 1);
    var zeroes: seq<Byte> := seq(1, _ => 0);
    assert zeroes == [0] && Identity(2) == [0] + [1];
    assert s.xfers == [Xfer([0], 0, 1, 0), Xfer([0], 0, 1, 0)] && s.calls == [IDLE];
    run, s := StartUp(TIMED, 1, run, s);
    run, s := SubmitItem(TIMED, 1, run, s, 0, [1]);
    assert s.lists.queued == [1] + [];
    run, s := SubmitItem(TIMED, 1, run, s, 1, []);
    assert s.lists == Lists([], [0, 1], [], []) && s.xfers == [Filled([0]), Filled([0])];
    run, s := Next(TIMED, 1, run, s, Thread(SubmitNext(true)));
  }

  /** The first byte has come in, and a read of one byte holds the lock. */
  lemma ReaderIn(a: Byte) returns (run: seq<Action>, s: Stream)
    ensures s == Reached(TIMED, 1, run)
    ensures s == At1(a, 0, Lists([], [1], [0], []), QUIET, Gate(0, Some(0)), Loop(LoopTop, 1),
                     Call(Staging, 1, [], true, Started, true, [], [], None), [a], [])
  {
    run, s := BothPending();
    run, s := Next(TIMED, 1, run, s, Thread(Complete(true, true, [a], 1)));
    assert s.xfers == [Filled([a]), Filled([0])] && Window(Filled([a])) == [a];
    assert s == At1(a, 0, Lists([], [1], [0], []), QUIET, Gate(1, None), Loop(LoopTop, 1), IDLE, [a], []);
    run, s := EnterRead(run, s);
  }

  lemma EnterRead(run: seq<Action>, s: Stream) returns (run': seq<Action>, s': Stream)
    requires s == Reached(TIMED, 1, run) && s.cfg == TIMED && s.calls == [IDLE] && s.gate == Gate(1, None)
    requires s.thread.state == Started && s.lists.finished != []
    ensures s' == Reached(TIMED, 1, run')
    ensures s' == s.(calls := [Call(Staging, 1, [], true, Started, true, [], [], None)], gate := Gate(0, Some(0)))
  {
    run', s' := Next(TIMED, 1, run, s, Caller(0, Enter(1, [], true)));
    assert s'.calls == [Call(Entered, 1, [], true, Started, true, [], [], None)];
    run', s' := Next(TIMED, 1, run', s', Caller(0, TakePermit));
    assert s'.calls == [Call(Permitted, 1, [], true, Started, true, [], [], None)] && s'.gate == Gate(0, None);
    run', s' := Next(TIMED, 1, run', s', Caller(0, Acquire));
    assert s'.calls == [Call(Staging, 1, [], true, Started, true, [], [], None)];
  }

  /** Once round the loop while the lock is held: nothing moves, and the thread waits. */
  lemma HeldRound(run: seq<Action>, s: Stream, slots: nat) returns (run': seq<Action>, s': Stream)
    requires s == Reached(TIMED, 1, run) && s.cfg == TIMED && s.thread == Loop(LoopTop, slots) && slots > 0
    requires s.lists.queued == [] && s.gate == Gate(0, Some(0))
    ensures s' == Reached(TIMED, 1, run') && s' == s.(thread := Loop(Waiting, slots))
  {
    run', s' := Next(TIMED, 1, run, s, Thread(CheckState));
    run', s' := Next(TIMED, 1, run', s', Thread(TrySync));
    assert s' == s.(thread := Loop(Submitting, slots));
    run', s' := Next(TIMED, 1, run', s', Thread(SubmitNext(true)));
  }

  /** The read holds the lock while the second byte comes in: its item is put on FinishedTemp, and stays
      there when the thread comes round. */
  lemma PutAside(a: Byte, b: Byte) returns (run: seq<Action>, s: Stream)
    ensures s == Reached(TIMED, 1, run)
    ensures s == At1(a, b, Lists([], [], [0], [1]), QUIET, Gate(0, Some(0)), Loop(Waiting, 2),
                     Call(Staging, 1, [], true, Started, true, [], [], None), [a, b], [])
  {
    run, s := ReaderIn(a);
    run, s := HeldRound(run, s, 1);
    assert s.lists.pending == [1] + [];
    run, s := Next(TIMED, 1, run, s, Thread(Complete(true, true, [b], 1)));
    assert s.xfers == [Filled([a]), Filled([b])] && Window(Filled([b])) == [b] && [a] + [b] == [a, b];
    assert s.lists == Lists([], [], [0], [1]) && s.thread == Loop(LoopTop, 2);
    run, s := HeldRound(run, s, 2);
  }

  /** One round of the read takes item `i` whole. */
  lemma TakeOne(run: seq<Action>, s: Stream, i: nat, b: Byte) returns (run': seq<Action>, s': Stream)
    requires s == Reached(TIMED, 1, run) && s.cfg == TIMED
    requires s.calls == [Call(Staging, 1, [], true, Started, true, [], [], None)] && s.gate == Gate(0, Some(0))
    requires s.lists.finished == [i] && i < |s.xfers| && s.xfers[i] == Filled([b])
    ensures s' == Reached(TIMED, 1, run')
    ensures s' == s.(calls := [Call(Staged, 0, [], true, Started, false, [b], [i], None)], gate := Gate(0, None),
                     lists := s.lists.(finished := []))
  {
    assert Window(Filled([b])) == [b] && s.xfers[i := s.xfers[i]] == s.xfers && Prefix([b], 1) == [b];
    assert [] + [b] == [b] && [] + [i] == [i];
    run', s' := Next(TIMED, 1, run, s, Caller(0, StageOne));
    assert s'.calls == [Call(Staged, 0, [], true, Started, false, [b], [i], None)];
  }

  /** The read is decided and its APC is queued. */
  lemma FinishRead(run: seq<Action>, s: Stream, i: nat, b: Byte) returns (run': seq<Action>, s': Stream)
    requires s == Reached(TIMED, 1, run) && s.cfg == TIMED && s.thread.state == Started && s.thread.pc != NoThread
    requires s.calls == [Call(Staging, 1, [], true, Started, true, [], [], None)] && s.gate == Gate(0, Some(0))
    requires s.lists.finished == [i] && i < |s.xfers| && s.xfers[i] == Filled([b]) && s.mail == QUIET
    ensures s' == Reached(TIMED, 1, run')
    ensures s' == s.(calls := [IDLE], gate := Gate(0, None), lists := s.lists.(finished := []),
                     departed := s.departed + [b], mail := Mail([Submit([i])], [], 1))
  {
    run', s' := TakeOne(run, s, i, b);
    run', s' := Next(TIMED, 1, run', s', Caller(0, Decide));
    assert s'.calls == [Call(ToApc, 0, [], true, Started, false, [b], [i], None)];
    run', s' := Next(TIMED, 1, run', s', Caller(0, QueueApc(true)));
    assert s'.calls == [IDLE];
  }

  /** From the top of the loop with item 1 on FinishedTemp and the lock free. */
  lemma SyncRound(run: seq<Action>, s: Stream) returns (run': seq<Action>, s': Stream)
    requires s == Reached(TIMED, 1, run) && s.cfg == TIMED && s.thread == Loop(LoopTop, 2)
    requires s.lists == Lists([0], [], [], [1]) && s.gate == Gate(0, None)
    ensures s' == Reached(TIMED, 1, run')
    ensures s' == s.(thread := Loop(Submitting, 2), lists := Lists([0], [], [1], []), gate := Gate(1, None))
  {
    run', s' := Next(TIMED, 1, run, s, Thread(CheckState));
    assert s' == s.(thread := Loop(Syncing, 2));
    run', s' := Next(TIMED, 1, run', s', Thread(TrySync));
    assert [] + [1] + [] == [1];
  }

  /** The APC wakes the thread, which goes round its loop: the item moves to Finished with its permit. */
  lemma GoRound(a: Byte, b: Byte, run: seq<Action>, s: Stream) returns (run': seq<Action>, s': Stream)
    requires s == Reached(TIMED, 1, run)
    requires s == At1(a, b, Lists([], [], [], [1]), Mail([Submit([0])], [], 1), Gate(0, None), Loop(Waiting, 2), IDLE,
                      [a, b], [a])
    ensures s' == Reached(TIMED, 1, run')
    ensures s' == At1(a, b, Lists([0], [], [1], []), QUIET, Gate(1, None), Loop(Submitting, 2), IDLE, [a, b], [a])
  {
    var apcs := [Submit([0])];
    assert apcs[1..] == [] && [] + [0] == [0];
    run', s' := Next(TIMED, 1, run, s, Thread(Deliver));
    assert s' == s.(mail := QUIET, lists := Lists([0], [], [], [1]), thread := Loop(Alerted, 2));
    run', s' := Next(TIMED, 1, run', s', Thread(Resume));
    run', s' := SyncRound(run', s');
  }

  lemma MovedOn(a: Byte, b: Byte) returns (run: seq<Action>, s: Stream)
    ensures s == Reached(TIMED, 1, run)
    ensures s == At1(a, b, Lists([0], [], [1], []), QUIET, Gate(1, None), Loop(Submitting, 2), IDLE, [a, b], [a])
  {
    run, s := PutAside(a, b);
    run, s := FinishRead(run, s, 0, a);
    assert [] + [a] == [a];
    run, s := GoRound(a, b, run, s);
  }

  /** An item completes while a read holds FinishedLock, is put on FinishedTemp, and stays there while the
      lock is held; the next time round the thread moves it to Finished, and a second read returns it. */
  lemma TempReachesReader(a: Byte, b: Byte) returns (run: seq<Action>)
    ensures var s := Reached(TIMED, 1, run);
            && s.entered == [a, b] && s.departed == [a, b] && s.calls == [IDLE]
            && s.lists.finished == [] && s.lists.temp == [] && s.gate == Gate(0, None)
  {
    var s;
    run, s := MovedOn(a, b);
    run, s := EnterRead(run, s);
    run, s := FinishRead(run, s, 1, b);
    assert [a] + [b] == [a, b];
  }
}
