/** A read stream with one reader is a FIFO of bytes. */
module StreamReadFifo {
  import opened Basics
  import opened QueuedStream
  import opened StreamConservation
  import opened StreamBytes

  // ---------------------------------------------------------------- the invariant

  /** A call copies bytes it has not yet committed. */
  predicate Uncommitted(c: Call) { c.phase in {Staging, Staged, ToApc, RollingBack} }

  function InFlight(c: Call): seq<Byte> { if Uncommitted(c) then c.copied else [] }

  /** What was taken from the item that is only partly read. */
  function Part(xfers: seq<Xfer>, b: Option<Backup>): seq<Byte> {
    match b
    case None => []
    case Some(b) =>
      if b.id < |xfers| && b.xfer.start <= xfers[b.id].start <= |b.xfer.data|
      then b.xfer.data[b.xfer.start..xfers[b.id].start] else []
  }

  /** The item partly read is the head of Finished, its window is the tail of the saved one. */
  predicate PartlyRead(s: Stream, b: Backup) {
    && s.lists.finished != [] && s.lists.finished[0] == b.id && b.id < |s.xfers|
    && ValidXfer(b.xfer, s.cfg.capacity)
    && s.xfers[b.id].data == b.xfer.data
    && b.xfer.start <= s.xfers[b.id].start
    && s.xfers[b.id].start + s.xfers[b.id].len == b.xfer.start + b.xfer.len
    && ValidXfer(s.xfers[b.id], s.cfg.capacity)
  }

  /** What an uncommitted call has copied is what it staged plus the part it took. */
  predicate CallFlow(s: Stream, c: Call) {
    && (c.phase in {Idle, Entered, Permitted} ==> c.copied == [])
    && (c.phase in {Idle, Entered, Permitted, Staging} ==> c.backup == None)
    && (Uncommitted(c) ==> c.copied == Bytes(s.xfers, c.staged) + Part(s.xfers, c.backup))
    && (Uncommitted(c) && c.backup.Some? ==> PartlyRead(s, c.backup.value) && c.length == 0)
    && (c.phase == ToApc ==> c.staged != [])
    && (c.phase == RollingBack && c.staged == [] ==> c.length > 0)
  }

  /** Items the device works on have their whole buffer as window. */
  predicate ItemsFit(s: Stream) {
    && (forall i :: 0 <= i < |s.xfers| ==> ValidXfer(s.xfers[i], s.cfg.capacity))
    && (forall i <- s.lists.pending :: i < |s.xfers| && s.xfers[i].start == 0)
  }

  /** Everything accepted so far has been returned, or is being copied by the call in flight, or
      still waits in the windows of Finished and then FinishedTemp, in this order. */
  predicate InOrder(s: Stream) {
    |s.calls| == 1
    && s.entered == s.departed + InFlight(s.calls[0]) + Bytes(s.xfers, s.lists.finished + s.lists.temp)
  }

  predicate ReadFlow(s: Stream) {
    s.cfg.isRead && InOrder(s) && ItemsFit(s) && CallFlow(s, s.calls[0])
  }

  // ---------------------------------------------------------------- the stream thread

  /** Nothing the reader can see has changed, except that FinishedTemp may have moved to Finished. */
  predicate Quiet(s: Stream, r: Stream) {
    && r.cfg == s.cfg && r.calls == s.calls && r.xfers == s.xfers
    && s.lists.finished <= r.lists.finished && r.lists.finished + r.lists.temp == s.lists.finished + s.lists.temp
    && (forall i <- r.lists.pending :: i in s.lists.pending)
    && r.entered == s.entered && r.departed == s.departed
  }

  lemma QuietFlow(s: Stream, r: Stream)
    requires ReadFlow(s) && Quiet(s, r)
    ensures ReadFlow(r)
  {
  }

  /** Writing an item that is neither finished nor staged. */
  lemma ElsewhereFlow(s: Stream, i: nat, x: Xfer)
    requires ReadFlow(s) && i < |s.xfers| && ValidXfer(x, s.cfg.capacity) && x.start == 0
    requires i !in s.lists.finished && i !in s.lists.temp && i !in s.calls[0].staged
    ensures ReadFlow(s.(xfers := s.xfers[i := x]))
  {
    BytesFrame(s.xfers, s.lists.finished + s.lists.temp, i, x);
    BytesFrame(s.xfers, s.calls[0].staged, i, x);
  }

  lemma SubmitFlow(s: Stream, ok: bool)
    requires s.lists.queued != [] && s.thread.freeSlots > 0 && s.lists.queued[0] < |s.xfers|
    requires ReadFlow(s) && Apart(s, s.lists.queued[0])
    ensures ReadFlow(SubmitHead(s, ok))
  {
    var i := s.lists.queued[0];
    assert i in s.lists.queued;
    ElsewhereFlow(s, i, Reset(s.xfers[i], true));
  }

  lemma TakeFlow(s: Stream, data: seq<Byte>, len: nat)
    requires s.lists.pending != [] && s.lists.pending[0] < |s.xfers|
    requires ReadFlow(s) && Apart(s, s.lists.pending[0]) && |data| == s.cfg.capacity && len <= |data|
    ensures ReadFlow(TakePending(s, data, len))
  {
    var i := s.lists.pending[0];
    assert i in s.lists.pending;
    ElsewhereFlow(s, i, s.xfers[i].(data := data, len := len));
  }

  lemma Grow(e: seq<Byte>, d: seq<Byte>, f: seq<Byte>, b: seq<Byte>, w: seq<Byte>)
    requires e == d + f + b
    ensures e + w == d + f + (b + w)
  {
  }

  /** An accepted payload joins the end of the waiting bytes. */
  lemma AcceptFlow(s: Stream, r: Stream, i: nat)
    requires ReadFlow(s) && i < |s.xfers|
    requires r.cfg == s.cfg && r.calls == s.calls && r.xfers == s.xfers && r.lists.pending == s.lists.pending
    requires s.lists.finished <= r.lists.finished
    requires r.lists.finished + r.lists.temp == s.lists.finished + s.lists.temp + [i]
    requires r.entered == s.entered + Window(s.xfers[i]) && r.departed == s.departed
    ensures ReadFlow(r)
  {
    var all := s.lists.finished + s.lists.temp;
    BytesAppend(s.xfers, all, [i]);
    BytesOne(s.xfers, i);
    Grow(s.entered, s.departed, InFlight(s.calls[0]), Bytes(s.xfers, all), Window(s.xfers[i]));
  }

  lemma FileFlow(s: Stream, i: nat, valid: bool)
    requires ReadFlow(s) && i < |s.xfers|
    ensures ReadFlow(FileItem(s, i, valid))
  {
    var r := FileItem(s, i, valid);
    if valid {
      assert r.lists.finished + r.lists.temp == s.lists.finished + s.lists.temp + [i];
      AcceptFlow(s, r, i);
    } else {
      QuietFlow(s, r);
    }
  }

  lemma RestIsQuiet(s: Stream, t: ThreadAction)
    requires CanThread(s, t) && !t.Complete?
    requires t.SubmitNext? ==> s.thread.freeSlots == 0 || s.lists.queued == []
    ensures Quiet(s, StepThread(s, t))
  {
  }

  lemma ThreadFlow(s: Stream, t: ThreadAction)
    requires ReadFlow(s) && CanThread(s, t)
    requires s.lists.queued != [] ==> Apart(s, s.lists.queued[0])
    requires s.lists.pending != [] ==> Apart(s, s.lists.pending[0])
    ensures ReadFlow(StepThread(s, t))
  {
    if t.SubmitNext? && s.thread.freeSlots > 0 && s.lists.queued != [] {
      SubmitFlow(s, t.ok);
    } else if t.Complete? {
      TakeFlow(s, t.data, t.len);
      FileFlow(TakePending(s, t.data, t.len), s.lists.pending[0], t.valid);
      QuietFlow(CompleteHead(s, t.valid, t.data, t.len), StepThread(s, t));
    } else {
      RestIsQuiet(s, t);
      QuietFlow(s, StepThread(s, t));
    }
  }

  // ---------------------------------------------------------------- the reader

  /** Steps of a call that change its phase without committing or rolling back anything. */
  lemma PlainCallFlow(s: Stream, c: CallAction)
    requires ReadFlow(s) && CanCall(s, 0, c)
    requires c.Enter? || c.TakePermit? || c.GiveUp? || c.Acquire? || c.MoveOne? || c == QueueApc(false)
    requires OrderlyCall(s.calls[0], s.gate.lock == Some(0))
    ensures ReadFlow(StepCall(s, 0, c))
  {
    CallQuiet(s, StepCall(s, 0, c));
  }

  /** Only the call, Queued and the gate change, and no bytes are in flight before or after that were
      not before. */
  lemma CallQuiet(s: Stream, r: Stream)
    requires ReadFlow(s) && |r.calls| == 1 && r.cfg == s.cfg && r.xfers == s.xfers && r.entered == s.entered
             && r.departed == s.departed
    requires r.lists == s.lists.(queued := r.lists.queued) && InFlight(r.calls[0]) == InFlight(s.calls[0])
             && CallFlow(r, r.calls[0])
    ensures ReadFlow(r)
  {
  }

  lemma Shift(e: seq<Byte>, d: seq<Byte>, f: seq<Byte>, b: seq<Byte>)
    requires e == d + f + b
    ensures e == (d + f) + [] + b
  {
  }

  /** A call that succeeds moves the bytes it copied out of the stream. */
  lemma CommitFlow(s: Stream, r: Stream)
    requires ReadFlow(s) && Uncommitted(s.calls[0]) && |r.calls| == 1
    requires r.cfg == s.cfg && r.xfers == s.xfers && r.lists == s.lists && r.entered == s.entered
    requires r.departed == s.departed + s.calls[0].copied
    requires r.calls[0] == IDLE || r.calls[0].phase == ToQueue
    ensures ReadFlow(r)
  {
    Shift(s.entered, s.departed, s.calls[0].copied, Bytes(s.xfers, s.lists.finished + s.lists.temp));
  }

  /** The rest of the decision only changes the phase. */
  lemma PhaseFlow(s: Stream, phase: Phase)
    requires ReadFlow(s) && InPhase(s, 0, Staged)
    requires (phase == ToApc && s.calls[0].staged != []) || (phase == RollingBack && s.calls[0].length > 0)
    ensures ReadFlow(SetCall(s, 0, s.calls[0].(phase := phase)))
  {
  }

  lemma DecideFlow(s: Stream)
    requires ReadFlow(s) && CanCall(s, 0, Decide)
    ensures ReadFlow(DecideCall(s, 0))
  {
    var c := s.calls[0];
    if c.length > 0 && (s.cfg.noPartial || !c.wantsCount) {
      PhaseFlow(s, RollingBack);
    } else if c.staged != [] && s.thread.state == Started {
      PhaseFlow(s, ToApc);
    } else {
      CommitFlow(s, DecideCall(s, 0));
    }
  }

  lemma QueueFlow(s: Stream)
    requires ReadFlow(s) && CanCall(s, 0, QueueApc(true))
    ensures ReadFlow(QueueList(s, 0, true))
  {
    CommitFlow(s, QueueList(s, 0, true));
  }

  /** The bytes of Finished and FinishedTemp, head first. */
  lemma HeadBytes(xfers: seq<Xfer>, finished: seq<nat>, temp: seq<nat>)
    requires finished != [] && finished[0] < |xfers|
    ensures Bytes(xfers, finished + temp) == Window(xfers[finished[0]]) + Bytes(xfers, finished[1..] + temp)
  {
    assert (finished + temp)[1..] == finished[1..] + temp;
  }

  lemma Regroup(e: seq<Byte>, d: seq<Byte>, f: seq<Byte>, w: seq<Byte>, b: seq<Byte>)
    requires e == d + f + (w + b)
    ensures e == d + (f + w) + b
  {
  }

  /** Copying the head of Finished moves its window from the waiting bytes to the bytes in flight. */
  lemma CopyHead(xfers: seq<Xfer>, finished: seq<nat>, temp: seq<nat>, e: seq<Byte>, d: seq<Byte>, f: seq<Byte>)
    requires finished != [] && finished[0] < |xfers| && e == d + f + Bytes(xfers, finished + temp)
    ensures e == d + (f + Window(xfers[finished[0]])) + Bytes(xfers, finished[1..] + temp)
  {
    HeadBytes(xfers, finished, temp);
    Regroup(e, d, f, Window(xfers[finished[0]]), Bytes(xfers, finished[1..] + temp));
  }

  lemma StageItem(xfers: seq<Xfer>, staged: seq<nat>, i: nat)
    requires i < |xfers|
    ensures Bytes(xfers, staged + [i]) == Bytes(xfers, staged) + Window(xfers[i])
  {
    BytesAppend(xfers, staged, [i]);
    BytesOne(xfers, i);
  }

  lemma WholeItemFlow(s: Stream, r: Stream)
    requires ReadFlow(s) && InPhase(s, 0, Staging) && s.lists.finished != [] && s.lists.finished[0] < |s.xfers|
    requires r.cfg == s.cfg && r.xfers == s.xfers && r.entered == s.entered && r.departed == s.departed
    requires r.lists == s.lists.(finished := s.lists.finished[1..]) && |r.calls| == 1
    requires var c, c' := s.calls[0], r.calls[0];
             && (c'.phase == Staging || c'.phase == Staged) && c'.backup == None
             && c'.staged == c.staged + [s.lists.finished[0]]
             && c'.copied == c.copied + Window(s.xfers[s.lists.finished[0]])
    ensures ReadFlow(r)
  {
    var i, c := s.lists.finished[0], s.calls[0];
    CopyHead(s.xfers, s.lists.finished, s.lists.temp, s.entered, s.departed, c.copied);
    assert InOrder(r);
    assert CallFlow(r, r.calls[0]) by {
      StageItem(s.xfers, c.staged, i);
      assert c.copied == Bytes(s.xfers, c.staged);
    }
  }

  lemma Regroup2(d: seq<Byte>, f: seq<Byte>, p: seq<Byte>, q: seq<Byte>, b: seq<Byte>)
    ensures d + f + ((p + q) + b) == d + (f + p) + (q + b)
  {
    assert (p + q) + b == p + (q + b);
  }

  /** Exchanging the head's window for its tail moves the prefix to the bytes in flight, and back. */
  lemma SplitHead(xfers: seq<Xfer>, finished: seq<nat>, temp: seq<nat>, y: Xfer, p: seq<Byte>, d: seq<Byte>,
                  f: seq<Byte>)
    requires finished != [] && finished[0] < |xfers| && finished[0] !in finished[1..] + temp
    requires Window(xfers[finished[0]]) == p + Window(y)
    ensures d + f + Bytes(xfers, finished + temp) == d + (f + p) + Bytes(xfers[finished[0] := y], finished + temp)
  {
    HeadBytes(xfers, finished, temp);
    HeadBytes(xfers[finished[0] := y], finished, temp);
    BytesFrame(xfers, finished[1..] + temp, finished[0], y);
    Regroup2(d, f, p, Window(y), Bytes(xfers, finished[1..] + temp));
  }

  lemma PartItemFlow(s: Stream, r: Stream, y: Xfer, p: seq<Byte>)
    requires ReadFlow(s) && InPhase(s, 0, Staging) && s.lists.finished != [] && s.lists.finished[0] < |s.xfers|
    requires Apart(s, s.lists.finished[0]) && s.lists.finished[0] !in s.lists.finished[1..] && |r.calls| == 1
    requires var i := s.lists.finished[0];
             && ValidXfer(y, s.cfg.capacity) && y.data == s.xfers[i].data && s.xfers[i].start <= y.start
             && y.start + y.len == s.xfers[i].start + s.xfers[i].len
             && p == y.data[s.xfers[i].start..y.start]
             && r.cfg == s.cfg && r.xfers == s.xfers[i := y] && r.lists == s.lists
             && r.entered == s.entered && r.departed == s.departed
             && r.calls[0].phase == Staged && r.calls[0].length == 0 && r.calls[0].staged == s.calls[0].staged
             && r.calls[0].backup == Some(Backup(i, s.xfers[i]))
             && r.calls[0].copied == s.calls[0].copied + p
    ensures ReadFlow(r)
  {
    var i, c := s.lists.finished[0], s.calls[0];
    assert i in s.lists.finished;
    assert Window(s.xfers[i]) == p + Window(y);
    SplitHead(s.xfers, s.lists.finished, s.lists.temp, y, p, s.departed, c.copied);
    assert InOrder(r);
    assert CallFlow(r, r.calls[0]) by {
      BytesFrame(s.xfers, c.staged, i, y);
      assert c.copied == Bytes(s.xfers, c.staged);
    }
  }

  /** A round that finds no permit. */
  lemma DryFlow(s: Stream, r: Stream)
    requires ReadFlow(s) && InPhase(s, 0, Staging) && |r.calls| == 1 && r.calls[0] == s.calls[0].(phase := Staged)
    requires r.cfg == s.cfg && r.xfers == s.xfers && r.lists == s.lists && r.entered == s.entered
             && r.departed == s.departed
    ensures ReadFlow(r)
  {
  }

  predicate IsDry(s: Stream, u: nat)
    requires u < |s.calls|
  {
    s.cfg.timed && !s.calls[u].first && s.gate.sem == 0
  }

  /** What a round of call `u` does that finds no permit. */
  lemma DryEffect(s: Stream, u: nat)
    requires s.cfg.isRead && u < |s.calls| && s.lists.finished != [] && s.lists.finished[0] < |s.xfers| && IsDry(s, u)
    ensures var r := StageRound(s, u);
            && r.cfg == s.cfg && r.lists == s.lists && r.xfers == s.xfers && r.entered == s.entered
            && r.departed == s.departed
            && r.calls == s.calls[u := s.calls[u].(phase := Staged)]
  {
  }

  /** What a round does that leaves part of the item. */
  lemma PartEffect(s: Stream, u: nat, i: nat, x: Xfer, stage: nat)
    requires s.cfg.isRead && u < |s.calls| && s.lists.finished != [] && i == s.lists.finished[0]
    requires i < |s.xfers| && x == s.xfers[i] && !IsDry(s, u) && stage == Min(s.calls[u].length, x.len) && x.len > stage
    ensures var c, r := s.calls[u], StageRound(s, u);
            && r.cfg == s.cfg && r.lists == s.lists && r.entered == s.entered && r.departed == s.departed
            && r.xfers == s.xfers[i := x.(start := x.start + stage, size := x.size - Min(stage, x.size),
                                          len := x.len - stage)]
            && r.calls == s.calls[u := c.(phase := Staged, first := false, length := c.length - stage,
                                          copied := c.copied + Prefix(Window(x), stage), backup := Some(Backup(i, x)))]
  {
  }

  /** What a round does that takes the item whole. */
  lemma WholeEffect(s: Stream, u: nat, i: nat, x: Xfer)
    requires s.cfg.isRead && InPhase(s, u, Staging) && s.lists.finished != [] && i == s.lists.finished[0]
    requires i < |s.xfers| && x == s.xfers[i] && !IsDry(s, u) && x.len <= s.calls[u].length
    ensures var c, r := s.calls[u], StageRound(s, u);
            && r.cfg == s.cfg && r.lists == s.lists.(finished := s.lists.finished[1..]) && r.xfers == s.xfers
            && r.entered == s.entered && r.departed == s.departed && |r.calls| == |s.calls|
            && r.calls == s.calls[u := r.calls[u]]
            && (r.calls[u].phase == Staged || (r.calls[u].phase == Staging && r.calls[u].length > 0))
            && r.calls[u].backup == c.backup
            && r.calls[u].staged == c.staged + [i] && r.calls[u].copied == c.copied + Prefix(Window(x), x.len)
  {
    assert s.xfers[i := x] == s.xfers;
  }

  lemma StageFlow(s: Stream)
    requires ReadFlow(s) && InPhase(s, 0, Staging) && s.lists.finished != [] && s.lists.finished[0] < |s.xfers|
    requires Apart(s, s.lists.finished[0]) && s.lists.finished[0] !in s.lists.finished[1..]
    ensures ReadFlow(StageRound(s, 0))
  {
    var c, i := s.calls[0], s.lists.finished[0];
    var x := s.xfers[i];
    var stage := Min(c.length, x.len);
    if IsDry(s, 0) {
      DryFlow(s, StageRound(s, 0));
    } else if x.len > stage {
      PartEffect(s, 0, i, x, stage);
      PartFlow(s, StageRound(s, 0), i, x, stage);
    } else {
      WholeEffect(s, 0, i, x);
      assert Prefix(Window(x), x.len) == Window(x);
      WholeItemFlow(s, StageRound(s, 0));
    }
  }

  lemma PartFlow(s: Stream, r: Stream, i: nat, x: Xfer, stage: nat)
    requires ReadFlow(s) && InPhase(s, 0, Staging) && s.lists.finished != [] && i == s.lists.finished[0]
             && i < |s.xfers|
    requires Apart(s, i) && i !in s.lists.finished[1..] && x == s.xfers[i] && stage == s.calls[0].length < x.len
    requires r.cfg == s.cfg && r.lists == s.lists && r.entered == s.entered && r.departed == s.departed
             && |r.calls| == 1
    requires r.xfers == s.xfers[i := x.(start := x.start + stage, size := x.size - Min(stage, x.size),
                                        len := x.len - stage)]
    requires var c := s.calls[0];
             r.calls[0] == c.(phase := Staged, first := false, length := 0,
                              copied := c.copied + Prefix(Window(x), stage), backup := Some(Backup(i, x)))
    ensures ReadFlow(r)
  {
    var y := x.(start := x.start + stage, size := x.size - stage, len := x.len - stage);
    FrontOf(x, stage, y.start, s.cfg.capacity);
    PartItemFlow(s, r, y, Prefix(Window(x), stage));
  }

  lemma FrontOf(x: Xfer, stage: nat, end: nat, capacity: nat)
    requires ValidXfer(x, capacity) && stage < x.len && end == x.start + stage
    ensures end <= |x.data| && Prefix(Window(x), stage) == x.data[x.start..end]
  {
  }

  // ---------------------------------------------------------------- rolling back

  /** Putting one staged item back in front of Finished. */
  lemma UnstageOne(xfers: seq<Xfer>, j: nat, finished: seq<nat>, temp: seq<nat>, d: seq<Byte>)
    requires j < |xfers|
    ensures d + Bytes(xfers, [j]) + Bytes(xfers, finished + temp) == d + [] + Bytes(xfers, ([j] + finished) + temp)
  {
    var rest := finished + temp;
    BytesAppend(xfers, [j], rest);
    JoinLists(j, finished, temp);
    Emptied(d, Bytes(xfers, [j]), Bytes(xfers, rest));
  }

  lemma JoinLists(j: nat, finished: seq<nat>, temp: seq<nat>)
    ensures ([j] + finished) + temp == [j] + (finished + temp)
  {
  }

  lemma Emptied(d: seq<Byte>, a: seq<Byte>, b: seq<Byte>)
    ensures d + a + b == d + [] + (a + b)
  {
  }

  lemma RollBackWhole(s: Stream, r: Stream, j: nat)
    requires ReadFlow(s) && InPhase(s, 0, RollingBack) && s.calls[0].staged == [j] && j < |s.xfers|
    requires s.calls[0].backup == None
    requires r.cfg == s.cfg && r.xfers == s.xfers && r.entered == s.entered && r.departed == s.departed
    requires r.lists == s.lists.(finished := [j] + s.lists.finished) && r.calls == [IDLE]
    ensures ReadFlow(r)
  {
    UnstageOne(s.xfers, j, s.lists.finished, s.lists.temp, s.departed);
    var copied := Bytes(s.xfers, [j]);
    assert s.calls[0].copied == copied + [] && copied + [] == copied;
    IdleFlow(s, r);
  }

  /** The state after a rollback, its lists in order. */
  lemma IdleFlow(s: Stream, r: Stream)
    requires ReadFlow(s) && r.cfg == s.cfg && r.calls == [IDLE] && ItemsFit(r)
    requires r.entered == r.departed + [] + Bytes(r.xfers, r.lists.finished + r.lists.temp)
    ensures ReadFlow(r)
  {
  }

  /** Restoring the head's window and putting a staged item in front of it undoes the copies. */
  lemma PartBack(xfers: seq<Xfer>, x: Xfer, b: Backup, p: seq<Byte>, j: nat, finished: seq<nat>, temp: seq<nat>,
                 e: seq<Byte>, d: seq<Byte>)
    requires finished != [] && finished[0] == b.id < |xfers| && b.id !in finished[1..] + temp && j < |xfers|
             && j != b.id
    requires x == xfers[b.id] && Window(b.xfer) == p + Window(x)
    requires e == d + (Bytes(xfers, [j]) + p) + Bytes(xfers, finished + temp)
    ensures e == d + [] + Bytes(xfers[b.id := b.xfer], ([j] + finished) + temp)
  {
    var restored := xfers[b.id := b.xfer];
    assert restored[b.id := x] == xfers;
    SplitHead(restored, finished, temp, x, p, d, Bytes(xfers, [j]));
    BytesFrame(xfers, [j], b.id, b.xfer);
    UnstageOne(restored, j, finished, temp, d);
  }

  lemma RollBackPart(s: Stream, j: nat, b: Backup)
    requires ReadFlow(s) && InPhase(s, 0, RollingBack) && s.calls[0].staged == [j] && j < |s.xfers|
    requires s.calls[0].backup == Some(b) && PartlyRead(s, b)
    requires Apart(s, b.id) && b.id !in s.lists.finished[1..]
    ensures ReadFlow(RollBackCall(s, 0))
  {
    var x, p := s.xfers[b.id], Part(s.xfers, Some(b));
    assert b.id in s.lists.finished && j in s.calls[0].staged;
    assert Window(b.xfer) == p + Window(x) && Restored(x, b.xfer) == b.xfer && Reverse([j]) == [j];
    PartBack(s.xfers, x, b, p, j, s.lists.finished, s.lists.temp, s.entered, s.departed);
    RolledBackFlow(s, RollBackCall(s, 0), j, b);
  }

  lemma RolledBackFlow(s: Stream, r: Stream, j: nat, b: Backup)
    requires ReadFlow(s) && r.cfg == s.cfg && r.calls == [IDLE] && b.id < |s.xfers| && b.id !in s.lists.pending
    requires ValidXfer(b.xfer, s.cfg.capacity) && r.xfers == s.xfers[b.id := b.xfer]
    requires r.lists == s.lists.(finished := [j] + s.lists.finished)
    requires r.entered == r.departed + [] + Bytes(r.xfers, ([j] + s.lists.finished) + s.lists.temp)
    ensures ReadFlow(r)
  {
    IdleFlow(s, r);
  }

  // ---------------------------------------------------------------- every run

  /** No action of the run puts two or more staged items back. */
  predicate ShortRollBacks(cfg: Config, run: seq<Action>) {
    run == []
    || (var before := run[..|run| - 1];
        && ShortRollBacks(cfg, before)
        && (run[|run| - 1] == Caller(0, RollBack) && InPhase(Reached(cfg, 1, before), 0, RollingBack)
            ==> |Reached(cfg, 1, before).calls[0].staged| <= 1))
  }

  lemma ReaderFlow(s: Stream, c: CallAction)
    requires ReadFlow(s) && Conserved(s) && Orderly(s) && CanCall(s, 0, c)
    requires c.RollBack? ==> |s.calls[0].staged| <= 1
    ensures ReadFlow(StepCall(s, 0, c))
  {
    assert OrderlyCall(s.calls[0], s.gate.lock == Some(0));
    if s.lists.finished != [] {
      var i := s.lists.finished[0];
      ItemsApart(s, i);
      assert Occurrences(s, i) <= 1;
      HeadOnce(s.lists.finished);
    }
    if c.StageOne? {
      StageFlow(s);
    } else if c.Decide? {
      DecideFlow(s);
    } else if c == QueueApc(true) {
      QueueFlow(s);
    } else if c.RollBack? {
      RollBackFlow(s);
    } else {
      PlainCallFlow(s, c);
    }
  }

  lemma RollBackFlow(s: Stream)
    requires ReadFlow(s) && Conserved(s) && InPhase(s, 0, RollingBack) && |s.calls[0].staged| <= 1
    requires s.lists.finished != [] ==>
               Apart(s, s.lists.finished[0]) && s.lists.finished[0] !in s.lists.finished[1..]
    ensures ReadFlow(RollBackCall(s, 0))
  {
    var c := s.calls[0];
    if |c.staged| == 1 {
      var j := c.staged[0];
      assert c.staged == [j];
      StagedKnown(s, j);
      assert Reverse([j]) == [j];
      match c.backup
      case None => RollBackWhole(s, RollBackCall(s, 0), j);
      case Some(b) => RollBackPart(s, j, b);
    } else {
      assert c.staged == [] && c.copied == [];
    }
  }

  lemma StagedKnown(s: Stream, j: nat)
    requires Conserved(s) && |s.calls| > 0 && j in s.calls[0].staged
    ensures j < |s.xfers|
  {
    Occurs(s.calls[0].staged, j);
    CallShare(s.calls, 0, j);
    assert Occurrences(s, j) == if j < s.cfg.items then 1 else 0;
  }

  lemma InitialFlow(cfg: Config)
    requires cfg.isRead
    ensures ReadFlow(Init(cfg, 1))
  {
  }

  /** Read streams are FIFO: with one reader, and no rollback of two or more staged items, the
      bytes returned by successful reads are a prefix of the accepted payloads in the order of
      their completion; the rest is being copied or still waits in Finished and FinishedTemp. */
  lemma {:induction false} ReadFifo(cfg: Config, run: seq<Action>)
    requires cfg.isRead && ShortRollBacks(cfg, run)
    ensures ReadFlow(Reached(cfg, 1, run))
    ensures Reached(cfg, 1, run).departed <= Reached(cfg, 1, run).entered
  {
    if run == [] {
      InitialFlow(cfg);
    } else {
      var before := run[..|run| - 1];
      ReadFifo(cfg, before);
      Conservation(cfg, 1, before);
      ReadStep(Reached(cfg, 1, before), run[|run| - 1]);
    }
  }

  lemma ReadStep(s: Stream, a: Action)
    requires ReadFlow(s) && Conserved(s) && Orderly(s)
    requires a == Caller(0, RollBack) && InPhase(s, 0, RollingBack) ==> |s.calls[0].staged| <= 1
    ensures ReadFlow(Apply(s, a))
  {
    if Enabled(s, a) {
      match a
      case Thread(t) =>
        if s.lists.queued != [] { ItemsApart(s, s.lists.queued[0]); }
        if s.lists.pending != [] { ItemsApart(s, s.lists.pending[0]); }
        ThreadFlow(s, t);
      case Caller(u, c) => ReaderFlow(s, c);
    }
  }

  // ---------------------------------------------------------------- order of completion

  /** The item an action submits successfully, or the one whose completion it takes. */
  function SubmitsNow(s: Stream, a: Action): seq<nat> {
    if a == Thread(SubmitNext(true)) && Enabled(s, a) && s.thread.freeSlots > 0 && s.lists.queued != []
    then [s.lists.queued[0]] else []
  }

  function CompletesNow(s: Stream, a: Action): seq<nat> {
    if a.Thread? && a.t.Complete? && Enabled(s, a) then [s.lists.pending[0]] else []
  }

  function Submitted(cfg: Config, n: nat, run: seq<Action>): seq<nat> {
    if run == [] then []
    else
      var before := run[..|run| - 1];
      Submitted(cfg, n, before) + SubmitsNow(Reached(cfg, n, before), run[|run| - 1])
  }

  function Completed(cfg: Config, n: nat, run: seq<Action>): seq<nat> {
    if run == [] then []
    else
      var before := run[..|run| - 1];
      Completed(cfg, n, before) + CompletesNow(Reached(cfg, n, before), run[|run| - 1])
  }

  lemma PendingStep(s: Stream, a: Action)
    ensures CompletesNow(s, a) + Apply(s, a).lists.pending == s.lists.pending + SubmitsNow(s, a)
  {
    if !Enabled(s, a) {
    } else if a.Caller? {
      CallKeepsPending(s, a.u, a.c);
    } else {
      ThreadPending(s, a.t);
    }
  }

  lemma CallKeepsPending(s: Stream, u: nat, c: CallAction)
    requires u < |s.calls| && CanCall(s, u, c)
    ensures StepCall(s, u, c).lists.pending == s.lists.pending
  {
  }

  lemma ThreadPending(s: Stream, t: ThreadAction)
    requires CanThread(s, t)
    ensures CompletesNow(s, Thread(t)) + StepThread(s, t).lists.pending == s.lists.pending + SubmitsNow(s, Thread(t))
  {
    if t.Complete? {
      CompletePending(s, t);
    } else if t.SubmitNext? {
    } else {
      RestPending(s, t);
    }
  }

  lemma CompletePending(s: Stream, t: ThreadAction)
    requires CanThread(s, t) && t.Complete?
    ensures [s.lists.pending[0]] + StepThread(s, t).lists.pending == s.lists.pending
  {
  }

  lemma RestPending(s: Stream, t: ThreadAction)
    requires CanThread(s, t) && !t.Complete? && !t.SubmitNext?
    ensures StepThread(s, t).lists.pending == s.lists.pending
  {
  }

  /** Transfers complete in the order in which they were submitted, over all starts and stops. */
  lemma {:induction false} CompletionOrder(cfg: Config, n: nat, run: seq<Action>)
    ensures Submitted(cfg, n, run) == Completed(cfg, n, run) + Reached(cfg, n, run).lists.pending
  {
    if run != [] {
      var before := run[..|run| - 1];
      CompletionOrder(cfg, n, before);
      var s, a := Reached(cfg, n, before), run[|run| - 1];
      PendingStep(s, a);
      Rotate(Submitted(cfg, n, before), Completed(cfg, n, before), s.lists.pending, SubmitsNow(s, a),
             CompletesNow(s, a), Apply(s, a).lists.pending);
    }
  }

  lemma Rotate(sub: seq<nat>, com: seq<nat>, p: seq<nat>, x: seq<nat>, y: seq<nat>, q: seq<nat>)
    requires sub == com + p && y + q == p + x
    ensures sub + x == (com + y) + q
  {
    assert sub + x == com + (p + x);
    assert (com + y) + q == com + (y + q);
  }

  // ---------------------------------------------------------------- longer rollbacks

  lemma {:induction false} ReverseAt(s: seq<nat>, k: nat)
    requires k < |s|
    ensures |Reverse(s)| == |s| && Reverse(s)[k] == s[|s| - 1 - k]
  {
    if |s| > 1 { ReverseAt(s[1..], if k < |s| - 1 then k else 0); }
  }

  /** A rollback restores the order of Finished if and only if at most one item is staged. */
  lemma RollBackOrder(cfg: Config, n: nat, run: seq<Action>, u: nat)
    requires InPhase(Reached(cfg, n, run), u, RollingBack)
    ensures var s := Reached(cfg, n, run);
            var c := s.calls[u];
            RollBackCall(s, u).lists.finished == c.staged + s.lists.finished <==> |c.staged| <= 1
  {
    var s := Reached(cfg, n, run);
    var c := s.calls[u];
    Conservation(cfg, n, run);
    if c.staged != [] {
      ReverseAt(c.staged, 0);
      if |c.staged| >= 2 {
        CallShare(s.calls, u, c.staged[0]);
        assert Occurrences(s, c.staged[0]) <= 1;
        HeadOnce(c.staged);
        assert RollBackCall(s, u).lists.finished[0] == c.staged[|c.staged| - 1];
        assert c.staged[1..][|c.staged| - 2] == c.staged[|c.staged| - 1];
      } else {
        assert Reverse(c.staged) == c.staged;
      }
    }
  }
}
