/** Runs that show where the conditions of the stream theorems come from: each ends in a state that
    the theorem excludes. */
module StreamWitnesses {
  import opened Basics
  import opened QueuedStream
  import D = StreamDrain

  /** One more action of a run. */
  lemma Next(cfg: Config, n: nat, run: seq<Action>, s: Stream, a: Action) returns (run': seq<Action>, s': Stream)
    requires s == Reached(cfg, n, run)
    ensures run' == run + [a] && s' == Apply(s, a) == Reached(cfg, n, run')
  {
    run', s' := run + [a], Apply(s, a);
    assert run'[..|run|] == run;
  }

  // ---------------------------------------------------------------- a write before the start

  const WRITER := Config(false, 1, 2, 2, false, false)

  function Item(b: Byte): Xfer { Xfer([b], 0, 1, 1) }

  lemma Fresh()
    ensures Init(WRITER, 1) ==
            Stream(WRITER, [Xfer([0], 0, 1, 0), Xfer([0], 0, 1, 0)], Lists([], [], [0, 1], []), Mail([], [], 0),
                   Gate(0, None),
                   ThreadInfo(Stopped, NoThread, 0, 0, false), [IDLE], [], [])
  {
    assert Identity(2) == [0, 1];
    var zeroes: seq<Byte> := seq(1, _ => 0);
    assert zeroes == [0];
  }

  /** A one-byte write up to its first round. */
  lemma BeginWrite(run: seq<Action>, s: Stream, b: Byte) returns (run': seq<Action>, s': Stream)
    requires s == Reached(WRITER, 1, run) && s.cfg == WRITER && s.calls == [IDLE] && s.gate == Gate(0, None)
    requires (s.thread.state == Stopped || s.thread.state == Started) && s.lists.finished != []
    ensures s' == Reached(WRITER, 1, run')
    ensures s' == s.(calls := [Call(Staging, 1, [b], true, s.thread.state, true, [], [], None)],
                     gate := Gate(0, Some(0)))
  {
    run', s' := Next(WRITER, 1, run, s, Caller(0, Enter(1, [b], true)));
    assert s' == s.(calls := [Call(Entered, 1, [b], true, s.thread.state, true, [], [], None)]);
    run', s' := Next(WRITER, 1, run', s', Caller(0, TakePermit));
    assert s' == s.(calls := [Call(Permitted, 1, [b], true, s.thread.state, true, [], [], None)]);
    run', s' := Next(WRITER, 1, run', s', Caller(0, Acquire));
    assert s'.calls == [Call(Staging, 1, [b], true, s.thread.state, true, [], [], None)];
  }

  /** A one-byte write up to the hand-over of the head of Finished. */
  lemma StageByte(run: seq<Action>, s: Stream, b: Byte, i: nat, rest: seq<nat>) returns (run': seq<Action>, s': Stream)
    requires s == Reached(WRITER, 1, run) && s.cfg == WRITER && s.calls == [IDLE] && s.gate == Gate(0, None)
    requires s.thread.state == Stopped || s.thread.state == Started
    requires s.lists.finished == [i] + rest && i < |s.xfers| && |s.xfers[i].data| == 1 && s.xfers[i].start == 0
             && s.xfers[i].size == 1
    ensures s' == Reached(WRITER, 1, run')
    ensures s' == s.(xfers := s.xfers[i := Item(b)], lists := s.lists.(finished := rest),
                     calls := [Call(Staged, 0, [], true, s.thread.state, false, [b], [i], None)])
  {
    run', s' := BeginWrite(run, s, b);
    StoreByte(b, s'.calls[0], i, s.xfers[i]);
    run', s' := Next(WRITER, 1, run', s', Caller(0, StageOne));
    assert s.lists.finished[1..] == rest && s.lists.finished[0] == i;
    assert s'.calls == [Call(Staged, 0, [], true, s.thread.state, false, [b], [i], None)];
  }

  lemma StoreByte(b: Byte, c: Call, i: nat, x: Xfer)
    requires c == Call(Staging, 1, [b], true, c.seen, true, [], [], None) && |x.data| == 1 && x.start == 0
             && x.size == 1
    ensures WriteRound(c, i, x, false)
            == Round(Call(Staging, 0, [], true, c.seen, false, [b], [i], None), Item(b), true)
  {
    var src: seq<Byte> := [b];
    assert src[..1] == [b] && src[1..] == [] && x.data[1..] == [] && src[..1] + x.data[1..] == [b];
    assert [] + src[..1] == [b] && [] + [i] == [i];
  }

  /** The staged byte is queued by APC. */
  lemma QueueByte(run: seq<Action>, s: Stream, b: Byte, i: nat) returns (run': seq<Action>, s': Stream)
    requires s == Reached(WRITER, 1, run) && s.cfg == WRITER && s.thread.state == Started && s.thread.pc != NoThread
    requires s.calls == [Call(Staged, 0, [], true, Started, false, [b], [i], None)]
    ensures s' == Reached(WRITER, 1, run')
    ensures s' == s.(calls := [IDLE], entered := s.entered + [b],
                     mail := s.mail.(apcs := s.mail.apcs + [Submit([i])], count := s.mail.count + 1))
  {
    run', s' := Next(WRITER, 1, run, s, Caller(0, Decide));
    assert s' == s.(calls := [s.calls[0].(phase := ToApc)]);
    run', s' := Next(WRITER, 1, run', s', Caller(0, QueueApc(true)));
    assert s'.calls == [IDLE];
  }

  /** The staged byte is certain to be written, and is appended to Queued directly next. */
  lemma DecideByte(run: seq<Action>, s: Stream, b: Byte, i: nat) returns (run': seq<Action>, s': Stream)
    requires s == Reached(WRITER, 1, run) && s.cfg == WRITER && s.thread.state != Started
    requires |s.calls| == 1 && s.calls[0] == Call(Staged, 0, [], true, s.calls[0].seen, false, [b], [i], None)
    ensures s' == Reached(WRITER, 1, run')
    ensures s' == s.(calls := [s.calls[0].(phase := ToQueue)], entered := s.entered + [b])
  {
    run', s' := Next(WRITER, 1, run, s, Caller(0, Decide));
    assert s'.calls == [s.calls[0].(phase := ToQueue)];
  }

  lemma AppendByte(run: seq<Action>, s: Stream, i: nat) returns (run': seq<Action>, s': Stream)
    requires s == Reached(WRITER, 1, run) && |s.calls| == 1 && s.calls[0].phase == ToQueue && s.calls[0].staged == [i]
    ensures s' == Reached(WRITER, 1, run')
    ensures s' == s.(calls := [s.calls[0].(staged := [])], lists := s.lists.(queued := s.lists.queued + [i]))
  {
    run', s' := Next(WRITER, 1, run, s, Caller(0, MoveOne));
    assert s.calls[0].staged[1..] == [];
    assert s'.calls == [s.calls[0].(staged := [])];
  }

  /** A stream with nothing on FinishedTemp starts and is about to submit. */
  lemma StartUp(cfg: Config, n: nat, run: seq<Action>, s: Stream) returns (run': seq<Action>, s': Stream)
    requires s == Reached(cfg, n, run) && s.cfg == cfg && s.thread == ThreadInfo(Stopped, NoThread, 0, 0, false)
    requires s.lists.temp == []
    ensures s' == Reached(cfg, n, run') && s' == s.(thread := ThreadInfo(Started, Submitting, cfg.slots, 0, false))
  {
    run', s' := Next(cfg, n, run, s, Thread(Start(true)));
    run', s' := Next(cfg, n, run', s', Thread(Boot(true)));
    assert s' == s.(thread := ThreadInfo(Started, LoopTop, cfg.slots, 0, false));
    run', s' := GoAround(cfg, n, run', s');
  }

  /** From the top of the loop to the next submit. */
  lemma GoAround(cfg: Config, n: nat, run: seq<Action>, s: Stream) returns (run': seq<Action>, s': Stream)
    requires s == Reached(cfg, n, run) && s.thread.state == Started && s.thread.pc == LoopTop && s.lists.temp == []
    ensures s' == Reached(cfg, n, run') && s' == s.(thread := s.thread.(pc := Submitting))
  {
    run', s' := Next(cfg, n, run, s, Thread(CheckState));
    run', s' := Next(cfg, n, run', s', Thread(TrySync));
  }

  // ---------------------------------------------------------------- direct hand-over

  lemma FirstWrite() returns (run: seq<Action>, s: Stream)
    ensures s == Reached(WRITER, 1, run)
    ensures s == Stream(WRITER, [Item(5), Xfer([0], 0, 1, 0)], Lists([], [], [1], []), Mail([Submit([0])], [], 1),
                        Gate(0, None),
                        ThreadInfo(Started, Submitting, 2, 0, false), [IDLE], [5], [])
  {
    run, s := [], Init(WRITER, 1);
    Fresh();
    run, s := StartUp(WRITER, 1, run, s);
    run, s := StageByte(run, s, 5, 0, [1]);
    run, s := QueueByte(run, s, 5, 0);
  }

  lemma SecondWrite() returns (run: seq<Action>, s: Stream)
    ensures s == Reached(WRITER, 1, run) && InPhase(s, 0, ToQueue) && s.calls[0].staged == [1]
    ensures s.cfg == WRITER && s.xfers == [Item(5), Item(6)] && s.lists == Lists([], [], [], []) && s.entered == [5, 6]
            && s.departed == []
    ensures s.mail.apcs == [Submit([0]), StopApc] && s.thread.pc == Submitting && s.thread.freeSlots == 2
            && |s.calls| == 1
  {
    run, s := FirstWrite();
    run, s := StageByte(run, s, 6, 1, []);
    var before := s;
    run, s := Next(WRITER, 1, run, s, Thread(Stop(true)));
    assert s == before.(thread := before.thread.(state := Stopping),
                        mail := before.mail.(apcs := before.mail.apcs + [StopApc]));
    run, s := DecideByte(run, s, 6, 1);
  }

  lemma SubmitByte(run: seq<Action>, s: Stream, b: Byte, i: nat) returns (run': seq<Action>, s': Stream)
    requires s == Reached(WRITER, 1, run) && s.cfg == WRITER && s.thread.pc == Submitting && s.thread.freeSlots > 0
    requires s.lists.queued == [i] && i < |s.xfers| && s.xfers[i] == Item(b)
    ensures s' == Reached(WRITER, 1, run')
    ensures s' == s.(lists := s.lists.(queued := [], pending := s.lists.pending + [i]), departed := s.departed + [b],
                     thread := s.thread.(freeSlots := s.thread.freeSlots - 1, pendingIO := s.thread.pendingIO + 1))
  {
    assert Reset(Item(b), false) == Item(b) && Window(Item(b)) == [b] && s.xfers[i := Item(b)] == s.xfers;
    assert s.lists.queued[1..] == [];
    run', s' := Next(WRITER, 1, run, s, Thread(SubmitNext(true)));
    assert s' == SubmitHead(s, true);
    assert s.xfers[i := Reset(s.xfers[i], false)] == s.xfers;
    assert s'.lists == s.lists.(queued := [], pending := s.lists.pending + [i]);
  }

  /** Two one-byte writes of a running stream.  The first is queued by APC; the stream is stopped before
      the second decides, so its item is appended directly, overtakes the first, and the thread, which
      has tested the state already, submits it: 6 is submitted, 5 and 6 were written in this order. */
  lemma DirectHandOverOvertakes() returns (run: seq<Action>)
    ensures var s := Reached(WRITER, 1, run); s.entered == [5, 6] && s.departed == [6] && !(s.departed <= s.entered)
  {
    var s;
    run, s := SecondWrite();
    run, s := AppendByte(run, s, 1);
    run, s := SubmitByte(run, s, 6, 1);
    assert s.departed[0] != s.entered[0];
  }

  // ---------------------------------------------------------------- an invalid completion

  /** One byte written before the stream starts. */
  lemma EarlyWrite() returns (run: seq<Action>, s: Stream)
    ensures s == Reached(WRITER, 1, run)
    ensures s == Stream(WRITER, [Item(5), Xfer([0], 0, 1, 0)], Lists([0], [], [1], []), Mail([], [], 0), Gate(0, None),
                        ThreadInfo(Started, Submitting, 2, 0, false), [IDLE], [5], [])
  {
    run, s := [], Init(WRITER, 1);
    Fresh();
    run, s := StageByte(run, s, 5, 0, [1]);
    run, s := DecideByte(run, s, 5, 0);
    run, s := AppendByte(run, s, 0);
    run, s := Next(WRITER, 1, run, s, Caller(0, MoveOne));
    run, s := StartUp(WRITER, 1, run, s);
  }

  /** BeforeComplete calls the completion invalid and leaves the transfer length at 1. */
  lemma CompleteByte(run: seq<Action>, s: Stream) returns (run': seq<Action>, s': Stream)
    requires s == Reached(WRITER, 1, run)
    requires s == Stream(WRITER, [Item(5), Xfer([0], 0, 1, 0)], Lists([], [0], [1], []), Mail([], [], 0), Gate(0, None),
                         ThreadInfo(Started, Submitting, 1, 1, false), [IDLE], [5], [5])
    ensures s' == Reached(WRITER, 1, run')
    ensures s' == s.(lists := Lists([0], [], [1], []), thread := ThreadInfo(Started, LoopTop, 2, 0, false))
  {
    run', s' := Next(WRITER, 1, run, s, Thread(SubmitNext(true)));
    assert s' == s.(thread := s.thread.(pc := Waiting));
    var w := s';
    run', s' := Next(WRITER, 1, run', s', Thread(Complete(false, true, [5], 1)));
    assert w.xfers[0 := w.xfers[0].(data := [5], len := 1)] == w.xfers;
    assert w.lists.pending[1..] == [] && [] + [0] == [0];
  }

  /** The byte 5 was written once and is submitted twice. */
  lemma InvalidCompletionRepeats() returns (run: seq<Action>)
    ensures var s := Reached(WRITER, 1, run); s.entered == [5] && s.departed == [5, 5] && !(s.departed <= s.entered)
  {
    var s;
    run, s := EarlyWrite();
    run, s := SubmitByte(run, s, 5, 0);
    assert [] + [0] == [0] && s.departed == [5];
    run, s := CompleteByte(run, s);
    run, s := GoAround(WRITER, 1, run, s);
    run, s := SubmitByte(run, s, 5, 0);
    assert s.departed == [5, 5];
  }

  // ---------------------------------------------------------------- a lost submit list

  /** A call saw the stream started; the stream stops, its thread drains and ends. */
  lemma StopBehindCall() returns (run: seq<Action>, s: Stream)
    ensures s == Reached(WRITER, 1, run) && s.cfg == WRITER && s.thread.state == Stopped && s.thread.pc == NoThread
    ensures |s.calls| == 1 && s.calls[0].phase == ToApc && s.calls[0].staged == [0] && s.mail == Mail([], [], 0)
  {
    run, s := [], Init(WRITER, 1);
    Fresh();
    run, s := StartUp(WRITER, 1, run, s);
    run, s := StageByte(run, s, 5, 0, [1]);
    run, s := Next(WRITER, 1, run, s, Caller(0, Decide));
    assert s.calls == [Call(ToApc, 0, [], true, Started, false, [5], [0], None)];
    run, s := EndThread(run, s);
  }

  lemma EndThread(run: seq<Action>, s: Stream) returns (run': seq<Action>, s': Stream)
    requires s == Reached(WRITER, 1, run) && s.thread == ThreadInfo(Started, Submitting, 2, 0, false)
    requires s.lists.queued == [] && s.lists.pending == [] && s.lists.temp == [] && s.mail == Mail([], [], 0)
             && s.gate == Gate(0, None)
    ensures s' == Reached(WRITER, 1, run') && s'.cfg == s.cfg && s'.calls == s.calls && s'.mail == s.mail
    ensures s'.thread.state == Stopped && s'.thread.pc == NoThread
  {
    run', s' := StopWaiting(run, s);
    var alerted := s';
    run', s' := Next(WRITER, 1, run', s', Thread(Resume));
    run', s' := Next(WRITER, 1, run', s', Thread(CheckState));
    run', s' := Next(WRITER, 1, run', s', Thread(Leave));
    assert s' == alerted.(thread := ThreadInfo(Stopping, ForcedSync, 2, 0, false));
    run', s' := DrainAndExit(run', s');
  }

  lemma StopWaiting(run: seq<Action>, s: Stream) returns (run': seq<Action>, s': Stream)
    requires s == Reached(WRITER, 1, run) && s.thread == ThreadInfo(Started, Submitting, 2, 0, false)
    requires s.lists.queued == [] && s.mail == Mail([], [], 0)
    ensures s' == Reached(WRITER, 1, run') && s' == s.(thread := ThreadInfo(Stopping, Alerted, 2, 0, false))
  {
    run', s' := Next(WRITER, 1, run, s, Thread(Stop(true)));
    assert s' == s.(thread := ThreadInfo(Stopping, Submitting, 2, 0, false), mail := Mail([StopApc], [], 0));
    run', s' := Next(WRITER, 1, run', s', Thread(SubmitNext(true)));
    assert s' == s.(thread := ThreadInfo(Stopping, Waiting, 2, 0, false), mail := Mail([StopApc], [], 0));
    run', s' := Next(WRITER, 1, run', s', Thread(Deliver));
    var one := [StopApc];
    assert one[1..] == [];
  }

  lemma DrainAndExit(run: seq<Action>, s: Stream) returns (run': seq<Action>, s': Stream)
    requires s == Reached(WRITER, 1, run) && s.thread == ThreadInfo(Stopping, ForcedSync, 2, 0, false)
    requires s.lists.temp == [] && s.mail == Mail([], [], 0) && s.gate == Gate(0, None)
    ensures s' == Reached(WRITER, 1, run') && s'.cfg == s.cfg && s'.calls == s.calls && s'.mail == s.mail
    ensures s'.thread.state == Stopped && s'.thread.pc == NoThread
  {
    run', s' := Next(WRITER, 1, run, s, Thread(Force));
    assert s' == At(Synchronize(s, []), Draining);
    assert s'.lists == s.lists.(finished := s.lists.finished) && s'.gate == s.gate;
    run', s' := Exited(run', s');
  }

  lemma Exited(run: seq<Action>, s: Stream) returns (run': seq<Action>, s': Stream)
    requires s == Reached(WRITER, 1, run) && s.thread == ThreadInfo(Stopping, Draining, 2, 0, false)
             && s.mail == Mail([], [], 0)
    ensures s' == Reached(WRITER, 1, run') && s'.cfg == s.cfg && s'.calls == s.calls && s'.mail == s.mail
    ensures s'.thread.state == Stopped && s'.thread.pc == NoThread
  {
    run', s' := Next(WRITER, 1, run, s, Thread(DrainDone));
    assert s' == s.(thread := ThreadInfo(Stopping, Exiting, 2, 0, false));
    run', s' := Next(WRITER, 1, run', s', Thread(Exit));
    assert s'.mail == Mail([], [] + Undelivered([]), 0);
  }

  /** The hand-over of a call that decided before the stream stopped is accepted after the thread has
      ended, and its submit list is lost; the stream, once started again, is never STOPPED any more. */
  lemma LateHandOverLoses() returns (run: seq<Action>)
    ensures Reached(WRITER, 1, run).mail.lost == [[0]] && Reached(WRITER, 1, run).thread.pc != NoThread
    ensures forall more :: Exec(Reached(WRITER, 1, run), more).thread.state != Stopped
  {
    var s;
    run, s := StopBehindCall();
    run, s := Next(WRITER, 1, run, s, Caller(0, QueueApc(true)));
    assert s.mail.lost == [] + [[0]];
    run, s := Next(WRITER, 1, run, s, Thread(Start(true)));
    D.CountersAgree(WRITER, 1, run);
    forall more ensures Exec(s, more).thread.state != Stopped { D.LossPreventsStopping(s, more); }
  }

  // ---------------------------------------------------------------- reading

  function Filled(d: seq<Byte>): Xfer { Xfer(d, 0, |d|, |d|) }

  /** The head of Queued is submitted. */
  lemma SubmitItem(cfg: Config, n: nat, run: seq<Action>, s: Stream, i: nat, rest: seq<nat>)
    returns (run': seq<Action>, s': Stream)
    requires s == Reached(cfg, n, run) && s.cfg == cfg && cfg.isRead && s.thread.pc == Submitting
             && s.thread.freeSlots > 0
    requires s.lists.queued == [i] + rest && i < |s.xfers|
    ensures s' == Reached(cfg, n, run')
    ensures s' == s.(lists := s.lists.(queued := rest, pending := s.lists.pending + [i]),
                     xfers := s.xfers[i := Filled(s.xfers[i].data)],
                     thread := s.thread.(freeSlots := s.thread.freeSlots - 1, pendingIO := s.thread.pendingIO + 1))
  {
    assert Reset(s.xfers[i], true) == Filled(s.xfers[i].data) && s.lists.queued[1..] == rest;
    run', s' := Next(cfg, n, run, s, Thread(SubmitNext(true)));
  }

  /** With nothing queued the thread waits, and the oldest transfer completes with the payload `d`. */
  lemma Receive(cfg: Config, n: nat, run: seq<Action>, s: Stream, i: nat, rest: seq<nat>, d: seq<Byte>)
    returns (run': seq<Action>, s': Stream)
    requires s == Reached(cfg, n, run) && s.cfg == cfg && cfg.isRead && !cfg.timed && s.thread.pc == Submitting
    requires s.lists.queued == [] && s.lists.temp == [] && s.lists.pending == [i] + rest && s.gate == Gate(0, None)
    requires i < |s.xfers| && s.xfers[i] == Filled(s.xfers[i].data) && |s.xfers[i].data| == |d|
    ensures s' == Reached(cfg, n, run')
    ensures s' == s.(lists := Lists([], rest, s.lists.finished + [i], []), xfers := s.xfers[i := Filled(d)],
                     entered := s.entered + d,
                     thread := s.thread.(pc := LoopTop, freeSlots := s.thread.freeSlots + 1,
                                         pendingIO := s.thread.pendingIO - 1))
  {
    run', s' := Next(cfg, n, run, s, Thread(SubmitNext(true)));
    assert s' == At(s, Waiting) && s.lists.pending[1..] == rest && Window(Filled(d)) == d;
    assert (s.lists.finished + []) + [i] == s.lists.finished + [i];
    run', s' := Next(cfg, n, run', s', Thread(Complete(true, true, d, |d|)));
  }

  /** Two transfers have come in. */
  lemma TwoReceived(cfg: Config, n: nat, d: seq<Byte>, e: seq<Byte>) returns (run: seq<Action>, s: Stream)
    requires cfg == Config(true, |d|, 2, 2, false, cfg.noPartial) && |d| == |e|
    ensures s == Reached(cfg, n, run) && s.thread.state == Started && s.thread.pc == LoopTop
    ensures s == Stream(cfg, [Filled(d), Filled(e)], Lists([], [], [0, 1], []), Mail([], [], 0), Gate(0, None),
                        s.thread,
                        seq(n, _ => IDLE), d + e, [])
  {
    run, s := [], Init(cfg, n);
    var zeroes: seq<Byte> := seq(|d|, _ => 0);
    assert s.xfers == [Xfer(zeroes, 0, |d|, 0), Xfer(zeroes, 0, |d|, 0)] && s.lists == Lists([0] + [1], [], [], []);
    run, s := StartUp(cfg, n, run, s);
    run, s := SubmitItem(cfg, n, run, s, 0, [1]);
    run, s := SubmitItem(cfg, n, run, s, 1, []);
    assert s.xfers == [Filled(zeroes), Filled(zeroes)] && s.lists == Lists([], [0] + [1], [], []);
    run, s := ReceiveTwo(cfg, n, run, s, d, e, zeroes);
  }

  lemma ReceiveTwo(cfg: Config, n: nat, run: seq<Action>, s: Stream, d: seq<Byte>, e: seq<Byte>, zeroes: seq<Byte>)
    returns (run': seq<Action>, s': Stream)
    requires cfg == Config(true, |d|, 2, 2, false, cfg.noPartial) && |d| == |e| == |zeroes| && s == Reached(cfg, n, run)
    requires s == Stream(cfg, [Filled(zeroes), Filled(zeroes)], Lists([], [0, 1], [], []), Mail([], [], 0),
                         Gate(0, None),
                         ThreadInfo(Started, Submitting, 0, 2, false), s.calls, [], [])
    ensures s' == Reached(cfg, n, run')
    ensures s' == s.(xfers := [Filled(d), Filled(e)], lists := Lists([], [], [0, 1], []), entered := d + e,
                     thread := ThreadInfo(Started, LoopTop, 2, 0, false))
  {
    assert s.lists.pending == [0] + [1];
    run', s' := Receive(cfg, n, run, s, 0, [1], d);
    assert s'.lists == Lists([], [1], [0], []) && s'.xfers == [Filled(d), Filled(zeroes)] && s'.entered == d;
    run', s' := GoAround(cfg, n, run', s');
    assert s'.lists.pending == [1] + [];
    run', s' := Receive(cfg, n, run', s', 1, [], e);
    assert s'.lists == Lists([], [], [0, 1], []) && s'.xfers == [Filled(d), Filled(e)];
  }

  /** A call of reader `u` up to its first round. */
  lemma BeginRead(cfg: Config, n: nat, u: nat, run: seq<Action>, s: Stream, length: nat)
    returns (run': seq<Action>, s': Stream)
    requires s == Reached(cfg, n, run) && s.cfg == cfg && cfg.isRead && !cfg.timed && u < |s.calls|
             && s.calls[u] == IDLE
    requires s.gate == Gate(0, None) && s.thread.state == Started && s.lists.finished != [] && length > 0
    ensures s' == Reached(cfg, n, run')
    ensures s' == s.(calls := s.calls[u := Call(Staging, length, [], true, Started, true, [], [], None)],
                     gate := Gate(0, Some(u)))
  {
    run', s' := Next(cfg, n, run, s, Caller(u, Enter(length, [], true)));
    assert s' == s.(calls := s.calls[u := Call(Entered, length, [], true, Started, true, [], [], None)]);
    run', s' := Next(cfg, n, run', s', Caller(u, TakePermit));
    assert s' == s.(calls := s.calls[u := Call(Permitted, length, [], true, Started, true, [], [], None)]);
    run', s' := Next(cfg, n, run', s', Caller(u, Acquire));
    assert s'.calls == s.calls[u := Call(Staging, length, [], true, Started, true, [], [], None)];
  }

  /** The call after a round that took the bytes `w` of item `i`. */
  function Took(c: Call, w: seq<Byte>, i: nat, over: bool): Call
    requires |w| <= c.length
  {
    c.(phase := if over then Staged else c.phase, first := false, length := c.length - |w|, copied := c.copied + w,
       staged := c.staged + [i])
  }

  /** One round that takes an item whole. */
  lemma TakeWhole(cfg: Config, n: nat, u: nat, run: seq<Action>, s: Stream, i: nat, rest: seq<nat>, w: seq<Byte>)
    returns (run': seq<Action>, s': Stream)
    requires s == Reached(cfg, n, run) && s.cfg == cfg && cfg.isRead && !cfg.timed && InPhase(s, u, Staging)
    requires s.lists.finished == [i] + rest && i < |s.xfers| && w == Window(s.xfers[i])
             && |w| == s.xfers[i].len <= s.calls[u].length
    ensures s' == Reached(cfg, n, run')
    ensures var over := s.calls[u].length == |w| || rest == [];
            s' == s.(lists := s.lists.(finished := rest), gate := if over then s.gate.(lock := None) else s.gate,
                     calls := s.calls[u := Took(s.calls[u], w, i, over)])
  {
    run', s' := Next(cfg, n, run, s, Caller(u, StageOne));
    assert s.lists.finished[1..] == rest && Prefix(w, |w|) == w && s.xfers[i := s.xfers[i]] == s.xfers;
  }

  lemma Decided(cfg: Config, n: nat, u: nat, run: seq<Action>, s: Stream) returns (run': seq<Action>, s': Stream)
    requires s == Reached(cfg, n, run) && s.cfg == cfg && cfg.noPartial && InPhase(s, u, Staged)
             && s.calls[u].staged != []
    requires s.thread.state == Started
    ensures s' == Reached(cfg, n, run')
    ensures s' == s.(calls := s.calls[u := s.calls[u].(phase := if s.calls[u].length > 0 then RollingBack else ToApc)])
  {
    run', s' := Next(cfg, n, run, s, Caller(u, Decide));
  }

  lemma Queued(cfg: Config, n: nat, u: nat, run: seq<Action>, s: Stream) returns (run': seq<Action>, s': Stream)
    requires s == Reached(cfg, n, run) && s.cfg == cfg && cfg.isRead && InPhase(s, u, ToApc) && s.thread.pc != NoThread
    ensures s' == Reached(cfg, n, run')
    ensures s' == s.(calls := s.calls[u := IDLE], departed := s.departed + s.calls[u].copied,
                     mail := s.mail.(apcs := s.mail.apcs + [Submit(s.calls[u].staged)], count := s.mail.count + 1))
  {
    run', s' := Next(cfg, n, run, s, Caller(u, QueueApc(true)));
  }

  lemma RolledBack(cfg: Config, n: nat, u: nat, run: seq<Action>, s: Stream) returns (run': seq<Action>, s': Stream)
    requires s == Reached(cfg, n, run) && s.cfg == cfg && !cfg.timed && InPhase(s, u, RollingBack)
             && s.calls[u].staged != []
    requires s.gate == Gate(0, None)
    ensures s' == Reached(cfg, n, run')
    ensures s' == s.(calls := s.calls[u := IDLE], xfers := Restore(s.xfers, s.calls[u].backup),
                     lists := s.lists.(finished := Reverse(s.calls[u].staged) + s.lists.finished))
  {
    run', s' := Next(cfg, n, run, s, Caller(u, RollBack));
  }

  // ---------------------------------------------------------------- a rollback of two items

  const READER := Config(true, 1, 2, 2, false, true)

  /** A read takes both one-byte items, `a` first. */
  lemma TakeBoth(cfg: Config, run: seq<Action>, s: Stream, length: nat, i: nat, j: nat, a: Byte, b: Byte)
    returns (run': seq<Action>, s': Stream)
    requires s == Reached(cfg, 1, run) && s.cfg == cfg && cfg.isRead && !cfg.timed
    requires s.calls == [IDLE] && s.gate == Gate(0, None)
    requires s.thread.state == Started && length >= 2 && s.lists.finished == [i, j]
    requires i < |s.xfers| && j < |s.xfers| && s.xfers[i] == Filled([a]) && s.xfers[j] == Filled([b])
    ensures s' == Reached(cfg, 1, run')
    ensures s' == s.(lists := s.lists.(finished := []),
                     calls := [Call(Staged, length - 2, [], true, Started, false, [a, b], [i, j], None)])
  {
    run', s' := BeginRead(cfg, 1, 0, run, s, length);
    assert s'.lists.finished == [i] + [j] && Window(Filled([a])) == [a] && Window(Filled([b])) == [b];
    run', s' := TakeWhole(cfg, 1, 0, run', s', i, [j], [a]);
    assert [] + [a] == [a] && [] + [i] == [i];
    assert s'.lists.finished == [j] + [];
    assert s'.calls == [Call(Staging, length - 1, [], true, Started, false, [a], [i], None)];
    run', s' := TakeWhole(cfg, 1, 0, run', s', j, [], [b]);
    assert [a] + [b] == [a, b] && [i] + [j] == [i, j];
    assert s'.calls == [Call(Staged, length - 2, [], true, Started, false, [a, b], [i, j], None)];
  }

  /** A read that wants three bytes, of which there are two, puts both items back. */
  lemma FailedRead() returns (run: seq<Action>, s: Stream)
    ensures s == Reached(READER, 1, run) && s.cfg == READER && s.calls == [IDLE] && s.gate == Gate(0, None)
            && s.thread.state == Started
    ensures s.lists.finished == [1, 0] && s.xfers == [Filled([1]), Filled([2])] && s.entered == [1, 2]
            && s.departed == []
    ensures s.thread.pc == LoopTop
  {
    run, s := TwoReceived(READER, 1, [1], [2]);
    assert s.calls == [IDLE] && s.entered == [1, 2];
    run, s := TakeBoth(READER, run, s, 3, 0, 1, 1, 2);
    run, s := Decided(READER, 1, 0, run, s);
    run, s := RolledBack(READER, 1, 0, run, s);
    Reversed(0, 1);
    assert s.calls == [IDLE] && [1, 0] + [] == [1, 0];
  }

  lemma Reversed(i: nat, j: nat)
    ensures Reverse([i, j]) == [j, i] && Reverse([i]) == [i]
  {
    var one: seq<nat>, two: seq<nat> := [i], [i, j];
    assert one[1..] == [] && two[1..] == [j] && Reverse([j]) == [j];
  }

  /** The next read returns 2 before 1. */
  lemma RollBackReorders() returns (run: seq<Action>)
    ensures var s := Reached(READER, 1, run); s.entered == [1, 2] && s.departed == [2, 1] && !(s.departed <= s.entered)
  {
    var s;
    run, s := FailedRead();
    run, s := TakeBoth(READER, run, s, 2, 1, 0, 2, 1);
    run, s := Decided(READER, 1, 0, run, s);
    run, s := Queued(READER, 1, 0, run, s);
    assert s.departed == [] + [2, 1] && s.departed[0] != s.entered[0];
  }
}
