/** A write stream with one writer is a FIFO of bytes. */
module StreamWriteFifo {
  import opened Basics
  import opened QueuedStream
  import opened StreamConservation
  import opened StreamBytes
  import D = StreamDrain

  function Flat(lists: seq<seq<nat>>): seq<nat> {
    if lists == [] then [] else lists[0] + Flat(lists[1..])
  }

  lemma {:induction false} FlatAppend(a: seq<seq<nat>>, b: seq<seq<nat>>)
    ensures Flat(a + b) == Flat(a) + Flat(b)
  {
    if a == [] {
      assert a + b == b;
    } else {
      FlatAppend(a[1..], b);
      assert (a + b)[1..] == a[1..] + b;
      FlatHead(a[0], Flat(a[1..]), Flat(b));
    }
  }

  lemma FlatHead(a: seq<nat>, b: seq<nat>, c: seq<nat>)
    ensures a + (b + c) == (a + b) + c
  {
  }

  /** The items accepted from the writer and not yet submitted, in the order they will be:
      Queued, the submit lists still on their way, what a direct hand-over has yet to append. */
  function Line(s: Stream): seq<nat> {
    s.lists.queued + Flat(Undelivered(s.mail.apcs)) + (if InPhase(s, 0, ToQueue) then s.calls[0].staged else [])
  }

  /** A call has staged bytes without being certain to succeed. */
  predicate Uncommitted(c: Call) { c.phase in {Staging, Staged, ToApc, RollingBack} }

  /** Full MaxTransferSize chunks, then at most one shorter one, which ends the call. */
  predicate Chunked(xfers: seq<Xfer>, c: Call, capacity: nat) {
    forall k :: 0 <= k < |c.staged| ==>
      && c.staged[k] < |xfers|
      && (xfers[c.staged[k]].len == capacity
          || (k == |c.staged| - 1 && c.length == 0 && 0 < xfers[c.staged[k]].len < capacity))
  }

  predicate CallFlow(s: Stream, c: Call) {
    && (c.phase in {Idle, Entered, Permitted} ==> c.copied == [] && c.backup == None)
    && (Uncommitted(c) ==> c.copied == Bytes(s.xfers, c.staged) && Chunked(s.xfers, c, s.cfg.capacity))
    && (c.phase in {Entered, Permitted, Staging} ==> |c.src| == c.length > 0)
    && (c.phase in {Staged, ToApc, RollingBack} || (c.phase == Staging && !c.first) ==> c.staged != [])
    && c.backup == None
    && (c.phase == ToApc ==> c.seen == Started)
    && (c.phase == Staged ==> c.seen == Started || c.seen == Stopped)
    && (c.phase in {Entered, Permitted, Staging} ==> c.seen == Started || c.seen == Stopped)
  }

  predicate ItemsFit(s: Stream) {
    forall i :: 0 <= i < |s.xfers| ==> ValidXfer(s.xfers[i], s.cfg.capacity) && s.xfers[i].start == 0
  }

  /** Every byte of a successful call has been submitted, or is in the line, in order. */
  predicate InOrder(s: Stream) {
    |s.calls| == 1 && s.entered == s.departed + Bytes(s.xfers, Line(s))
  }

  /** No submit list is stranded, and none is on its way while a call appends directly. */
  predicate NoneStranded(s: Stream) {
    && |s.calls| == 1
    && s.mail.lost == []
    && (s.thread.pc == Exiting || s.calls[0].phase == ToQueue ==> Undelivered(s.mail.apcs) == [])
  }

  predicate WriteFlow(s: Stream) {
    !s.cfg.isRead && InOrder(s) && ItemsFit(s) && NoneStranded(s) && CallFlow(s, s.calls[0])
  }

  // ---------------------------------------------------------------- the stream thread

  /** Nothing of the line changes. */
  predicate Quiet(s: Stream, r: Stream) {
    && r.cfg == s.cfg && r.calls == s.calls && r.xfers == s.xfers
    && r.lists.queued == s.lists.queued && Undelivered(r.mail.apcs) == Undelivered(s.mail.apcs)
    && r.mail.lost == s.mail.lost && (r.thread.pc == Exiting ==> Undelivered(s.mail.apcs) == [])
    && r.entered == s.entered && r.departed == s.departed
  }

  lemma QuietFlow(s: Stream, r: Stream)
    requires WriteFlow(s) && Quiet(s, r)
    ensures WriteFlow(r)
  {
  }

  /** Writing an item that is neither in the line nor staged. */
  lemma ElsewhereFlow(s: Stream, i: nat, x: Xfer)
    requires WriteFlow(s) && i < |s.xfers| && ValidXfer(x, s.cfg.capacity) && x.start == 0
    requires i !in Line(s) && i !in s.calls[0].staged
    ensures WriteFlow(s.(xfers := s.xfers[i := x]))
  {
    var r := s.(xfers := s.xfers[i := x]);
    BytesFrame(s.xfers, Line(s), i, x);
    assert Line(r) == Line(s) && InOrder(r);
    BytesFrame(s.xfers, s.calls[0].staged, i, x);
  }

  /** Stopping queues an APC without a submit list; a thread ends with no submit list left. */
  lemma EndIsQuiet(s: Stream, t: ThreadAction)
    requires CanThread(s, t) && (t.Stop? || t.Exit?)
    requires s.thread.pc == Exiting ==> Undelivered(s.mail.apcs) == []
    ensures Quiet(s, StepThread(s, t))
  {
    if t == Stop(true) { D.UndeliveredAppend(s.mail.apcs, StopApc); }
  }

  lemma RestIsQuiet(s: Stream, t: ThreadAction)
    requires CanThread(s, t) && !t.Complete? && !t.Deliver? && !t.Stop? && !t.Exit?
    requires t.SubmitNext? ==> s.thread.freeSlots == 0 || s.lists.queued == []
    requires t.DrainDone? ==> Undelivered(s.mail.apcs) == []
    ensures Quiet(s, StepThread(s, t))
  {
  }

  /** Submitting the head of the line moves its bytes out of the stream. */
  lemma TakeFirst(xfers: seq<Xfer>, line: seq<nat>, e: seq<Byte>, d: seq<Byte>)
    requires line != [] && line[0] < |xfers| && e == d + Bytes(xfers, line)
    ensures e == (d + Window(xfers[line[0]])) + Bytes(xfers, line[1..])
  {
  }

  lemma SubmitLine(s: Stream)
    requires !s.cfg.isRead && s.lists.queued != [] && s.thread.freeSlots > 0 && s.lists.queued[0] < |s.xfers|
    ensures Line(SubmitHead(s, true)) == Line(s)[1..] && Line(s)[0] == s.lists.queued[0]
  {
  }

  lemma SubmitFlow(s: Stream, ok: bool)
    requires WriteFlow(s) && s.thread.pc == Submitting
    requires s.lists.queued != [] && s.thread.freeSlots > 0 && s.lists.queued[0] < |s.xfers|
    ensures WriteFlow(SubmitHead(s, ok))
  {
    var i, r := s.lists.queued[0], SubmitHead(s, ok);
    assert Reset(s.xfers[i], false) == s.xfers[i];
    assert r.xfers == s.xfers;
    if ok {
      SubmitLine(s);
      TakeFirst(s.xfers, Line(s), s.entered, s.departed);
      assert InOrder(r);
    } else {
      QuietFlow(s, r);
    }
  }

  lemma DeliverFlow(s: Stream)
    requires WriteFlow(s) && s.mail.apcs != []
    ensures WriteFlow(DeliverHead(s))
  {
    var r := DeliverHead(s);
    assert Line(r) == Line(s) by {
      FlatAppend(if s.mail.apcs[0].Submit? then [s.mail.apcs[0].list] else [], Undelivered(s.mail.apcs[1..]));
    }
  }

  lemma CompleteFlow(s: Stream, data: seq<Byte>, len: nat)
    requires s.lists.pending != [] && s.lists.pending[0] < |s.xfers| && WriteFlow(s)
    requires s.lists.pending[0] !in Line(s) && s.lists.pending[0] !in s.calls[0].staged
    requires |data| == s.cfg.capacity && len <= |data| && s.thread.pc != Exiting
    ensures WriteFlow(CompleteHead(s, true, data, len))
  {
    var i := s.lists.pending[0];
    var x := s.xfers[i].(data := data, len := len);
    ElsewhereFlow(s, i, x);
    QuietFlow(s.(xfers := s.xfers[i := x]), CompleteHead(s, true, data, len));
  }

  lemma ThreadFlow(s: Stream, t: ThreadAction)
    requires WriteFlow(s) && D.Counted(s) && CanThread(s, t) && (t.Complete? ==> t.valid)
    requires s.lists.pending != [] ==>
               s.lists.pending[0] !in Line(s) && s.lists.pending[0] !in s.calls[0].staged
    ensures WriteFlow(StepThread(s, t))
  {
    if t.SubmitNext? && s.thread.freeSlots > 0 && s.lists.queued != [] {
      SubmitFlow(s, t.ok);
    } else if t.Complete? {
      CompleteFlow(s, t.data, t.len);
      QuietFlow(CompleteHead(s, true, t.data, t.len), StepThread(s, t));
    } else if t.Deliver? {
      DeliverFlow(s);
      QuietFlow(DeliverHead(s), StepThread(s, t));
    } else {
      if t.Stop? || t.Exit? { EndIsQuiet(s, t); } else { RestIsQuiet(s, t); }
      QuietFlow(s, StepThread(s, t));
    }
  }

  // ---------------------------------------------------------------- the writer

  /** Steps that neither stage nor hand over anything. */
  lemma PlainCallFlow(s: Stream, c: CallAction)
    requires WriteFlow(s) && CanCall(s, 0, c) && OrderlyCall(s.calls[0], s.gate.lock == Some(0))
    requires c.Enter? || c.TakePermit? || c.GiveUp? || c.Acquire? || c == QueueApc(false) || c.RollBack?
    ensures WriteFlow(StepCall(s, 0, c))
  {
    if c.RollBack? { RollBackFlow(s); } else { CallQuiet(s, StepCall(s, 0, c)); }
  }

  /** Only the call itself, Finished and the gate change. */
  lemma CallQuiet(s: Stream, r: Stream)
    requires WriteFlow(s) && |r.calls| == 1 && CallFlow(r, r.calls[0]) && r.calls[0].phase !in {Staged, ToQueue}
    requires r.cfg == s.cfg && r.xfers == s.xfers && r.lists.queued == s.lists.queued && r.mail == s.mail
    requires r.thread == s.thread && r.entered == s.entered && r.departed == s.departed
    requires s.calls[0].phase != ToQueue
    ensures WriteFlow(r)
  {
    assert Line(r) == Line(s);
  }

  lemma RollBackFlow(s: Stream)
    requires WriteFlow(s) && CanCall(s, 0, RollBack) && OrderlyCall(s.calls[0], s.gate.lock == Some(0))
    ensures WriteFlow(RollBackCall(s, 0))
  {
    assert Line(RollBackCall(s, 0)) == Line(s);
  }

  /** Staging stores the next bytes in an item that is neither in the line nor staged. */
  lemma StageItem(s: Stream, r: Stream, i: nat, y: Xfer, b: seq<Byte>)
    requires WriteFlow(s) && InPhase(s, 0, Staging) && i < |s.xfers| && i !in Line(s) && i !in s.calls[0].staged
    requires ValidXfer(y, s.cfg.capacity) && y.start == 0 && Window(y) == b && |b| == y.len && |r.calls| == 1
    requires var c, c' := s.calls[0], r.calls[0];
             && c'.staged == c.staged + [i] && c'.copied == c.copied + b && c'.backup == None && c'.seen == c.seen
             && (c'.phase == Staged || (c'.phase == Staging && c'.length > 0)) && |c'.src| == c'.length
             && (y.len == s.cfg.capacity || (c'.length == 0 && 0 < y.len))
    requires r.cfg == s.cfg && r.xfers == s.xfers[i := y] && r.mail == s.mail && r.thread == s.thread
    requires r.lists.queued == s.lists.queued && r.entered == s.entered && r.departed == s.departed
    ensures WriteFlow(r)
  {
    var c := s.calls[0];
    BytesFrame(s.xfers, Line(s), i, y);
    assert InOrder(r);
    BytesFrame(s.xfers, c.staged, i, y);
    BytesAppend(r.xfers, c.staged, [i]);
    BytesOne(r.xfers, i);
  }

  /** What a round that finds its permit does. */
  lemma StageEffect(s: Stream, stage: nat, y: Xfer)
    requires !s.cfg.isRead && InPhase(s, 0, Staging) && s.lists.finished != [] && s.lists.finished[0] < |s.xfers|
    requires !(s.cfg.timed && !s.calls[0].first && s.gate.sem == 0)
    requires var c, i := s.calls[0], s.lists.finished[0];
             && |c.src| == c.length && stage == Min(c.length, |s.xfers[i].data|)
             && y == s.xfers[i].(len := stage, data := c.src[..stage] + s.xfers[i].data[stage..])
    ensures var c, r, i := s.calls[0], StageRound(s, 0), s.lists.finished[0];
            && r.xfers == s.xfers[i := y] && r.mail == s.mail && r.thread == s.thread && r.cfg == s.cfg
            && r.lists.queued == s.lists.queued && r.entered == s.entered && r.departed == s.departed
            && |r.calls| == |s.calls|
            && r.calls[0] == c.(first := false, length := c.length - stage, src := c.src[stage..],
                                copied := c.copied + c.src[..stage], staged := c.staged + [i],
                                phase := if c.length - stage == 0 || s.lists.finished[1..] == []
                                         then Staged else Staging)
  {
  }

  lemma StageFlow(s: Stream)
    requires WriteFlow(s) && InPhase(s, 0, Staging) && s.lists.finished != [] && s.lists.finished[0] < |s.xfers|
    requires s.lists.finished[0] !in Line(s) && s.lists.finished[0] !in s.calls[0].staged
    ensures WriteFlow(StageRound(s, 0))
  {
    var c, i, r := s.calls[0], s.lists.finished[0], StageRound(s, 0);
    if s.cfg.timed && !c.first && s.gate.sem == 0 {
      DryFlow(s);
    } else {
      var stage := Min(c.length, s.cfg.capacity);
      var y := s.xfers[i].(len := stage, data := c.src[..stage] + s.xfers[i].data[stage..]);
      StageEffect(s, stage, y);
      StageItem(s, r, i, y, c.src[..stage]);
    }
  }

  lemma DryFlow(s: Stream)
    requires WriteFlow(s) && InPhase(s, 0, Staging) && s.lists.finished != [] && s.lists.finished[0] < |s.xfers|
    requires s.cfg.timed && !s.calls[0].first && s.gate.sem == 0
    ensures WriteFlow(StageRound(s, 0))
  {
    var r := StageRound(s, 0);
    assert r.calls[0] == s.calls[0].(phase := Staged) && Line(r) == Line(s) && r.xfers == s.xfers;
  }

  lemma Join(e: seq<Byte>, d: seq<Byte>, l: seq<Byte>, b: seq<Byte>, lb: seq<Byte>)
    requires e == d + l && lb == l + b
    ensures e + b == d + lb
  {
  }

  lemma JoinLine(xfers: seq<Xfer>, line: seq<nat>, list: seq<nat>, e: seq<Byte>, d: seq<Byte>)
    requires e == d + Bytes(xfers, line)
    ensures e + Bytes(xfers, list) == d + Bytes(xfers, line + list)
  {
    BytesAppend(xfers, line, list);
    Join(e, d, Bytes(xfers, line), Bytes(xfers, list), Bytes(xfers, line + list));
  }

  /** A call that succeeds adds the items it staged to the end of the line. */
  lemma CommitFlow(s: Stream, r: Stream)
    requires WriteFlow(s) && Uncommitted(s.calls[0]) && |r.calls| == 1
    requires Line(r) == Line(s) + s.calls[0].staged
    requires r.cfg == s.cfg && r.xfers == s.xfers && r.departed == s.departed
    requires r.entered == s.entered + s.calls[0].copied
    requires NoneStranded(r)
    requires r.calls[0] == IDLE || (r.calls[0].phase == ToQueue && r.calls[0].backup == None)
    ensures WriteFlow(r)
  {
    JoinLine(s.xfers, Line(s), s.calls[0].staged, s.entered, s.departed);
  }

  lemma DecideFlow(s: Stream)
    requires WriteFlow(s) && D.Counted(s) && InPhase(s, 0, Staged) && s.thread.state == s.calls[0].seen
    ensures WriteFlow(DecideCall(s, 0))
  {
    var c := s.calls[0];
    if c.length > 0 && (s.cfg.noPartial || !c.wantsCount) {
      PhaseFlow(s, RollingBack);
    } else if s.thread.state == Started {
      PhaseFlow(s, ToApc);
    } else {
      DirectFlow(s, DecideCall(s, 0));
    }
  }

  /** A decision that only changes the phase. */
  lemma PhaseFlow(s: Stream, phase: Phase)
    requires WriteFlow(s) && InPhase(s, 0, Staged)
    requires phase == RollingBack || (phase == ToApc && s.calls[0].seen == Started)
    ensures WriteFlow(SetCall(s, 0, s.calls[0].(phase := phase)))
  {
    var r := SetCall(s, 0, s.calls[0].(phase := phase));
    assert Line(r) == Line(s);
  }

  /** A decision of a stopped stream's writer to append directly. */
  lemma DirectFlow(s: Stream, r: Stream)
    requires WriteFlow(s) && D.Counted(s) && InPhase(s, 0, Staged) && s.thread.state == Stopped
    requires r == Commit(SetCall(s, 0, s.calls[0].(phase := ToQueue)), s.calls[0])
    ensures WriteFlow(r)
  {
    assert s.mail.apcs == [];
    assert Line(r) == Line(s) + s.calls[0].staged;
    CommitFlow(s, r);
  }

  lemma QueueLine(s: Stream)
    requires InPhase(s, 0, ToApc) && s.thread.pc != NoThread
    ensures Line(QueueList(s, 0, true)) == Line(s) + s.calls[0].staged
  {
    var list := s.calls[0].staged;
    D.UndeliveredAppend(s.mail.apcs, Submit(list));
    FlatAppend(Undelivered(s.mail.apcs), [list]);
    FlatOne(list);
  }

  lemma QueueFlow(s: Stream)
    requires WriteFlow(s) && D.Counted(s) && InPhase(s, 0, ToApc) && s.thread.state == s.calls[0].seen
    ensures WriteFlow(QueueList(s, 0, true))
  {
    QueueLine(s);
    CommitFlow(s, QueueList(s, 0, true));
  }

  lemma FlatOne(list: seq<nat>)
    ensures Flat([list]) == list
  {
    var lists := [list];
    assert lists[1..] == [];
  }

  lemma MoveFlow(s: Stream)
    requires WriteFlow(s) && InPhase(s, 0, ToQueue)
    ensures WriteFlow(MoveHead(s, 0))
  {
    assert Line(MoveHead(s, 0)) == Line(s);
  }

  // ---------------------------------------------------------------- every run

  /** No completion is called invalid, and the thread state a call saw on entry still stands
      when it decides and when it queues its APC. */
  predicate SteadyStep(s: Stream, a: Action) {
    && (a.Thread? && a.t.Complete? ==> a.t.valid)
    && (a.Caller? && a.c.Decide? && InPhase(s, 0, Staged) ==> s.thread.state == s.calls[0].seen)
    && (a.Caller? && a.c == QueueApc(true) && InPhase(s, 0, ToApc) ==> s.thread.state == s.calls[0].seen)
  }

  predicate Steady(cfg: Config, run: seq<Action>) {
    run == []
    || (Steady(cfg, run[..|run| - 1]) && SteadyStep(Reached(cfg, 1, run[..|run| - 1]), run[|run| - 1]))
  }

  lemma {:induction false} OnFlat(lists: seq<seq<nat>>, k: nat)
    ensures On(Flat(lists), k) == OnLists(lists, k)
  {
    if lists != [] {
      OnFlat(lists[1..], k);
      Append(lists[0], Flat(lists[1..]), k);
    }
  }

  /** Items waiting on Finished or pending are not in the line and not staged. */
  lemma OutsideLine(s: Stream, i: nat)
    requires Conserved(s) && |s.calls| == 1 && (i in s.lists.finished || i in s.lists.pending)
    ensures i !in Line(s) && i !in s.calls[0].staged
  {
    ItemsApart(s, i);
    assert Occurrences(s, i) <= 1;
    if i in Flat(Undelivered(s.mail.apcs)) {
      Occurs(Flat(Undelivered(s.mail.apcs)), i);
      OnFlat(Undelivered(s.mail.apcs), i);
      UndeliveredKeeps(s.mail.apcs, i);
      if i in s.lists.finished { Occurs(s.lists.finished, i); } else { Occurs(s.lists.pending, i); }
    }
  }

  lemma WriterFlow(s: Stream, c: CallAction)
    requires WriteFlow(s) && D.Counted(s) && Conserved(s) && Orderly(s) && CanCall(s, 0, c)
    requires SteadyStep(s, Caller(0, c))
    ensures WriteFlow(StepCall(s, 0, c))
  {
    assert OrderlyCall(s.calls[0], s.gate.lock == Some(0));
    if c.StageOne? {
      OutsideLine(s, s.lists.finished[0]);
      StageFlow(s);
    } else if c.Decide? {
      DecideFlow(s);
    } else if c == QueueApc(true) {
      QueueFlow(s);
    } else if c.MoveOne? {
      MoveFlow(s);
    } else {
      PlainCallFlow(s, c);
    }
  }

  lemma WriteStep(s: Stream, a: Action)
    requires WriteFlow(s) && D.Counted(s) && Conserved(s) && Orderly(s) && SteadyStep(s, a) && Enabled(s, a)
    ensures WriteFlow(Apply(s, a))
  {
    if a.Thread? {
      if s.lists.pending != [] { OutsideLine(s, s.lists.pending[0]); }
      ThreadFlow(s, a.t);
    } else {
      assert a.u == 0;
      WriterFlow(s, a.c);
    }
  }

  /** Write streams are FIFO: with one writer, in steady runs, the accepted submissions carry a
      prefix of the bytes of the successful writes, through submit errors and rollbacks; the
      rest waits in the line in order.  Each call is cut into full chunks and at most one
      shorter last one. */
  lemma {:induction false} WriteFifo(cfg: Config, run: seq<Action>)
    requires !cfg.isRead && Steady(cfg, run)
    ensures WriteFlow(Reached(cfg, 1, run))
    ensures Reached(cfg, 1, run).departed <= Reached(cfg, 1, run).entered
  {
    if run != [] {
      var before := run[..|run| - 1];
      WriteFifo(cfg, before);
      Conservation(cfg, 1, before);
      D.CountersAgree(cfg, 1, before);
      if Enabled(Reached(cfg, 1, before), run[|run| - 1]) { WriteStep(Reached(cfg, 1, before), run[|run| - 1]); }
    }
  }

  // ---------------------------------------------------------------- unsteady hand-overs

  /** Appending a staged item directly keeps the order of the line exactly when no submit list
      is still on its way to the thread. */
  lemma DirectHandOverOrder(cfg: Config, run: seq<Action>)
    requires var s := Reached(cfg, 1, run); InPhase(s, 0, ToQueue) && s.calls[0].staged != []
    ensures var s := Reached(cfg, 1, run);
            Line(MoveHead(s, 0)) == Line(s) <==> Flat(Undelivered(s.mail.apcs)) == []
  {
    var s := Reached(cfg, 1, run);
    Conservation(cfg, 1, run);
    var f, c := Flat(Undelivered(s.mail.apcs)), s.calls[0];
    if f != [] {
      var k := |s.lists.queued|;
      assert Line(s)[k] == f[0] && Line(MoveHead(s, 0))[k] == c.staged[0];
      assert Occurrences(s, f[0]) <= 1;
      Occurs(f, f[0]);
      OnFlat(Undelivered(s.mail.apcs), f[0]);
      UndeliveredKeeps(s.mail.apcs, f[0]);
      Occurs(c.staged, c.staged[0]);
      CallShare(s.calls, 0, c.staged[0]);
    } else {
      assert Line(MoveHead(s, 0)) == Line(s);
    }
  }

  lemma InsertBytes(d: seq<Byte>, q: seq<Byte>, w: seq<Byte>, t: seq<Byte>)
    ensures d + (q + t) == d + ((q + w) + t) <==> w == []
  {
    assert |d + ((q + w) + t)| == |d + (q + t)| + |w|;
    if w == [] { assert q + w == q; }
  }

  lemma InsertItem(xfers: seq<Xfer>, q: seq<nat>, i: nat, tail: seq<nat>, d: seq<Byte>)
    requires i < |xfers|
    ensures d + Bytes(xfers, q + tail) == d + Bytes(xfers, (q + [i]) + tail) <==> Window(xfers[i]) == []
  {
    BytesAppend(xfers, q, tail);
    BytesAppend(xfers, q + [i], tail);
    BytesAppend(xfers, q, [i]);
    BytesOne(xfers, i);
    InsertBytes(d, Bytes(xfers, q), Window(xfers[i]), Bytes(xfers, tail));
  }

  lemma InvalidLine(s: Stream, data: seq<Byte>, len: nat, tail: seq<nat>)
    requires |s.calls| == 1 && s.lists.pending != [] && s.lists.pending[0] < |s.xfers|
    requires tail == Flat(Undelivered(s.mail.apcs)) + (if InPhase(s, 0, ToQueue) then s.calls[0].staged else [])
    ensures Line(s) == s.lists.queued + tail
    ensures Line(CompleteHead(s, false, data, len)) == (s.lists.queued + [s.lists.pending[0]]) + tail
  {
  }

  /** A completion that BeforeComplete calls invalid puts bytes already submitted in line again:
      the order survives exactly when the transfer length left behind is zero. */
  lemma InvalidCompletion(s: Stream, data: seq<Byte>, len: nat)
    requires WriteFlow(s) && s.lists.pending != [] && s.lists.pending[0] < |s.xfers|
    requires s.lists.pending[0] !in Line(s)
    requires |data| == s.cfg.capacity && len <= |data|
    ensures InOrder(CompleteHead(s, false, data, len)) <==> len == 0
  {
    var i := s.lists.pending[0];
    var x := s.xfers[i].(data := data, len := len);
    var tail := Flat(Undelivered(s.mail.apcs)) + (if InPhase(s, 0, ToQueue) then s.calls[0].staged else []);
    InvalidLine(s, data, len, tail);
    BytesFrame(s.xfers, Line(s), i, x);
    InsertItem(s.xfers[i := x], s.lists.queued, i, tail, s.departed);
    assert |Window(x)| == len;
  }
}
