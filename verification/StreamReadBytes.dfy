/** A read stream with any number of readers: when every byte that came in is kept.  Readers can take
    turns on one item, so the order of the bytes is not the order of arrival; their number is. */
module StreamReadBytes {
  import opened Basics
  import opened QueuedStream
  import opened StreamConservation
  import opened StreamBytes
  import opened StreamReadFifo

  // ---------------------------------------------------------------- the invariant

  /** The bytes that the calls have copied and not yet committed. */
  function Flights(calls: seq<Call>): multiset<Byte> {
    if calls == [] then multiset{} else multiset(InFlight(calls[0])) + Flights(calls[1..])
  }

  /** The bytes in the windows of the items on Finished and FinishedTemp. */
  function Waiting(s: Stream): multiset<Byte> { multiset(Bytes(s.xfers, s.lists.finished + s.lists.temp)) }

  /** Every byte that came in has been returned, or is being copied, or still waits, and just once. */
  predicate BytesKept(s: Stream) {
    multiset(s.entered) == multiset(s.departed) + Flights(s.calls) + Waiting(s)
  }

  /** The bytes a call has copied from the item that it read only in part. */
  function Taken(xfers: seq<Xfer>, c: Call): seq<Byte> {
    var whole := Bytes(xfers, c.staged);
    if |whole| <= |c.copied| then c.copied[|whole|..] else []
  }

  /** A call has copied its staged items whole, and after them some of one other item, which it saved. */
  predicate CallBytes(cfg: Config, xfers: seq<Xfer>, c: Call) {
    && (c.phase in {Idle, Entered, Permitted} ==> c.copied == [])
    && (c.phase in {Idle, Entered, Permitted, Staging} ==> c.backup == None)
    && (c.phase in {Entered, Permitted, Staging} ==> c.length > 0)
    && (c.phase == ToApc ==> c.staged != [])
    && (c.phase == RollingBack && c.staged == [] ==> c.length > 0)
    && (Uncommitted(c) ==> c.copied == Bytes(xfers, c.staged) + Taken(xfers, c))
    && (Uncommitted(c) ==> match c.backup
                           case None => Taken(xfers, c) == []
                           case Some(b) => && c.length == 0 && Taken(xfers, c) != [] && b.id < |xfers|
                                           && b.id !in c.staged
                                           && ValidXfer(b.xfer, cfg.capacity))
  }

  predicate CallsKept(s: Stream) {
    s.cfg.isRead && ItemsFit(s) && forall u :: 0 <= u < |s.calls| ==> CallBytes(s.cfg, s.xfers, s.calls[u])
  }

  // ---------------------------------------------------------------- bookkeeping

  lemma {:induction false} FlightUpdate(calls: seq<Call>, u: nat, c: Call)
    requires u < |calls|
    ensures Flights(calls[u := c]) + multiset(InFlight(calls[u])) == Flights(calls) + multiset(InFlight(c))
  {
    var now := calls[u := c];
    if u == 0 {
      assert now[1..] == calls[1..];
      Swap(multiset(InFlight(c)), Flights(calls[1..]), multiset(InFlight(calls[0])));
    } else {
      FlightUpdate(calls[1..], u - 1, c);
      assert now[1..] == calls[1..][u - 1 := c];
      Before(multiset(InFlight(calls[0])), Flights(now[1..]), multiset(InFlight(calls[u])), Flights(calls[1..]),
             multiset(InFlight(c)));
    }
  }

  lemma Swap(a: multiset<Byte>, f: multiset<Byte>, b: multiset<Byte>)
    ensures a + f + b == b + f + a
  {
  }

  lemma Before(h: multiset<Byte>, f: multiset<Byte>, b: multiset<Byte>, g: multiset<Byte>, c: multiset<Byte>)
    requires f + b == g + c
    ensures (h + f) + b == (h + g) + c
  {
    Behind(h, f, b, g, c);
  }

  lemma {:induction false} NoFlights(n: nat)
    ensures Flights(seq(n, _ => IDLE)) == multiset{}
  {
    if n > 0 {
      NoFlights(n - 1);
      assert seq(n, _ => IDLE)[1..] == seq(n - 1, _ => IDLE);
    }
  }

  lemma Cancel(d: multiset<Byte>, f: multiset<Byte>, w: multiset<Byte>, d': multiset<Byte>, f': multiset<Byte>,
               w': multiset<Byte>, c: multiset<Byte>, c': multiset<Byte>)
    requires f' + c == f + c'
    ensures d + f + w == d' + f' + w' <==> d + c + w == d' + c' + w'
  {
    forall b: Byte ensures f'[b] + c[b] == f[b] + c'[b] { assert (f' + c)[b] == (f + c')[b]; }
    if d + f + w == d' + f' + w' {
      forall b: Byte ensures (d + c + w)[b] == (d' + c' + w')[b] { assert (d + f + w)[b] == (d' + f' + w')[b]; }
    }
    if d + c + w == d' + c' + w' {
      forall b: Byte ensures (d + f + w)[b] == (d' + f' + w')[b] { assert (d + c + w)[b] == (d' + c' + w')[b]; }
    }
  }

  /** When one call changes, the bytes are kept exactly when those returned, those the call copies and
      those that wait are the same as before. */
  lemma CallExchange(s: Stream, r: Stream, u: nat)
    requires u < |s.calls| == |r.calls| && r.calls == s.calls[u := r.calls[u]] && r.entered == s.entered && BytesKept(s)
    ensures BytesKept(r) <==> multiset(s.departed) + multiset(InFlight(s.calls[u])) + Waiting(s)
                              == multiset(r.departed) + multiset(InFlight(r.calls[u])) + Waiting(r)
  {
    FlightUpdate(s.calls, u, r.calls[u]);
    Cancel(multiset(s.departed), Flights(s.calls), Waiting(s), multiset(r.departed), Flights(r.calls), Waiting(r),
           multiset(InFlight(s.calls[u])), multiset(InFlight(r.calls[u])));
  }

  /** Writing an item that a call has not staged. */
  lemma CallBytesFrame(cfg: Config, xfers: seq<Xfer>, c: Call, i: nat, x: Xfer)
    requires CallBytes(cfg, xfers, c) && i < |xfers| && i !in c.staged
    ensures CallBytes(cfg, xfers[i := x], c)
  {
    BytesFrame(xfers, c.staged, i, x);
  }

  lemma CallsFrame(s: Stream, r: Stream, i: nat, x: Xfer)
    requires CallsKept(s) && i < |s.xfers| && r.xfers == s.xfers[i := x] && r.cfg == s.cfg && r.calls == s.calls
             && ItemsFit(r)
    requires forall u :: 0 <= u < |s.calls| ==> i !in s.calls[u].staged
    ensures CallsKept(r)
  {
    forall u | 0 <= u < |s.calls| ensures CallBytes(r.cfg, r.xfers, r.calls[u]) {
      CallBytesFrame(s.cfg, s.xfers, s.calls[u], i, x);
    }
  }

  // ---------------------------------------------------------------- the stream thread

  lemma QuietKept(s: Stream, r: Stream)
    requires CallsKept(s) && BytesKept(s) && Quiet(s, r)
    ensures CallsKept(r) && BytesKept(r)
  {
  }

  /** Writing an item that is neither finished nor staged. */
  lemma ElsewhereKept(s: Stream, r: Stream, i: nat, x: Xfer)
    requires CallsKept(s) && BytesKept(s) && Apart(s, i) && (i in s.lists.queued || i in s.lists.pending)
    requires i < |s.xfers| && ValidXfer(x, s.cfg.capacity) && x.start == 0 && r.xfers == s.xfers[i := x]
    requires r.cfg == s.cfg && r.calls == s.calls && r.entered == s.entered && r.departed == s.departed
    requires r.lists.finished == s.lists.finished && r.lists.temp == s.lists.temp
    requires forall j <- r.lists.pending :: j in s.lists.pending || j == i
    ensures CallsKept(r) && BytesKept(r)
  {
    BytesFrame(s.xfers, s.lists.finished + s.lists.temp, i, x);
    CallsFrame(s, r, i, x);
  }

  lemma SubmitKept(s: Stream, ok: bool)
    requires s.lists.queued != [] && s.thread.freeSlots > 0 && s.lists.queued[0] < |s.xfers|
    requires CallsKept(s) && BytesKept(s) && Apart(s, s.lists.queued[0])
    ensures CallsKept(SubmitHead(s, ok)) && BytesKept(SubmitHead(s, ok))
  {
    var i := s.lists.queued[0];
    assert i in s.lists.queued;
    ElsewhereKept(s, SubmitHead(s, ok), i, Reset(s.xfers[i], true));
  }

  lemma TakeKept(s: Stream, data: seq<Byte>, len: nat)
    requires s.lists.pending != [] && s.lists.pending[0] < |s.xfers|
    requires CallsKept(s) && BytesKept(s) && Apart(s, s.lists.pending[0]) && |data| == s.cfg.capacity && len <= |data|
    ensures CallsKept(TakePending(s, data, len)) && BytesKept(TakePending(s, data, len))
  {
    var i := s.lists.pending[0];
    assert i in s.lists.pending;
    ElsewhereKept(s, TakePending(s, data, len), i, s.xfers[i].(data := data, len := len));
  }

  lemma Join(e: multiset<Byte>, d: multiset<Byte>, f: multiset<Byte>, w: multiset<Byte>, x: multiset<Byte>)
    requires e == d + f + w
    ensures e + x == d + f + (w + x)
  {
  }

  /** An accepted payload joins the waiting bytes. */
  lemma AcceptKept(s: Stream, r: Stream, i: nat)
    requires CallsKept(s) && BytesKept(s) && i < |s.xfers|
    requires r.cfg == s.cfg && r.calls == s.calls && r.xfers == s.xfers && r.lists.pending == s.lists.pending
    requires r.lists.finished + r.lists.temp == s.lists.finished + s.lists.temp + [i]
    requires r.entered == s.entered + Window(s.xfers[i]) && r.departed == s.departed
    ensures CallsKept(r) && BytesKept(r)
  {
    var all := s.lists.finished + s.lists.temp;
    BytesAppend(s.xfers, all, [i]);
    BytesOne(s.xfers, i);
    Join(multiset(s.entered), multiset(s.departed), Flights(s.calls), Waiting(s), multiset(Window(s.xfers[i])));
  }

  lemma FileEffect(s: Stream, i: nat)
    requires i < |s.xfers| && s.cfg.isRead
    ensures var r := FileItem(s, i, true);
            && r.cfg == s.cfg && r.calls == s.calls && r.xfers == s.xfers && r.lists.pending == s.lists.pending
            && r.lists.finished + r.lists.temp == s.lists.finished + s.lists.temp + [i]
            && r.entered == s.entered + Window(s.xfers[i]) && r.departed == s.departed
  {
  }

  lemma FileKept(s: Stream, i: nat, valid: bool)
    requires CallsKept(s) && BytesKept(s) && i < |s.xfers|
    ensures CallsKept(FileItem(s, i, valid)) && BytesKept(FileItem(s, i, valid))
  {
    if valid {
      FileEffect(s, i);
      AcceptKept(s, FileItem(s, i, true), i);
    } else {
      QuietKept(s, FileItem(s, i, false));
    }
  }

  lemma ThreadKept(s: Stream, t: ThreadAction)
    requires CallsKept(s) && BytesKept(s) && Conserved(s) && CanThread(s, t)
    ensures CallsKept(StepThread(s, t)) && BytesKept(StepThread(s, t))
  {
    if t.SubmitNext? && s.thread.freeSlots > 0 && s.lists.queued != [] {
      ItemsApart(s, s.lists.queued[0]);
      SubmitKept(s, t.ok);
    } else if t.Complete? {
      ItemsApart(s, s.lists.pending[0]);
      TakeKept(s, t.data, t.len);
      FileKept(TakePending(s, t.data, t.len), s.lists.pending[0], t.valid);
      QuietKept(CompleteHead(s, t.valid, t.data, t.len), StepThread(s, t));
    } else {
      RestIsQuiet(s, t);
      QuietKept(s, StepThread(s, t));
    }
  }

  // ---------------------------------------------------------------- a call

  /** Only call `u` changes, and it keeps what is said of calls. */
  predicate OneCall(s: Stream, r: Stream, u: nat) {
    && u < |s.calls| == |r.calls| && r.calls == s.calls[u := r.calls[u]] && r.entered == s.entered && r.cfg == s.cfg
    && r.lists.pending == s.lists.pending && CallBytes(r.cfg, r.xfers, r.calls[u])
  }

  lemma OneCallKept(s: Stream, r: Stream, u: nat)
    requires CallsKept(s) && OneCall(s, r, u) && r.xfers == s.xfers
    ensures CallsKept(r)
  {
  }

  /** The steps of a call that neither copy nor commit nor put back anything. */
  predicate IsPlain(c: CallAction) { !c.StageOne? && !c.Decide? && !c.RollBack? && c != QueueApc(true) }

  lemma PlainEffect(s: Stream, u: nat, c: CallAction)
    requires CallsKept(s) && u < |s.calls| && CanCall(s, u, c) && IsPlain(c)
             && OrderlyCall(s.calls[u], s.gate.lock == Some(u))
    ensures var r := StepCall(s, u, c);
            && OneCall(s, r, u) && r.xfers == s.xfers && r.departed == s.departed
            && r.lists.finished == s.lists.finished && r.lists.temp == s.lists.temp
            && InFlight(r.calls[u]) == InFlight(s.calls[u])
  {
    match c
    case Enter(_, _, _) =>
    case TakePermit =>
    case GiveUp =>
    case Acquire =>
    case QueueApc(_) =>
    case MoveOne =>
  }

  lemma Move(d: seq<Byte>, c: seq<Byte>, w: multiset<Byte>)
    ensures multiset(d) + multiset(c) + w == multiset(d + c) + multiset{} + w
  {
  }

  /** A call that succeeds moves the bytes it copied out of the stream. */
  lemma CommitKept(s: Stream, r: Stream, u: nat)
    requires CallsKept(s) && BytesKept(s) && OneCall(s, r, u) && Uncommitted(s.calls[u]) && !Uncommitted(r.calls[u])
    requires r.xfers == s.xfers && r.lists == s.lists && r.departed == s.departed + s.calls[u].copied
    ensures CallsKept(r) && BytesKept(r)
  {
    Move(s.departed, s.calls[u].copied, Waiting(s));
    CallExchange(s, r, u);
    OneCallKept(s, r, u);
  }

  /** A call that goes on with what it has copied. */
  lemma PhaseKept(s: Stream, r: Stream, u: nat)
    requires CallsKept(s) && BytesKept(s) && OneCall(s, r, u) && InFlight(r.calls[u]) == InFlight(s.calls[u])
    requires r.xfers == s.xfers && r.departed == s.departed
    requires r.lists.finished == s.lists.finished && r.lists.temp == s.lists.temp
    ensures CallsKept(r) && BytesKept(r)
  {
    CallExchange(s, r, u);
    OneCallKept(s, r, u);
  }

  lemma DecideCommits(s: Stream, u: nat, c: Call)
    requires CallsKept(s) && BytesKept(s) && InPhase(s, u, Staged) && c == s.calls[u]
    ensures var r := Commit(SetCall(s, u, c.(phase := ToQueue)), c); CallsKept(r) && BytesKept(r)
  {
    assert CallBytes(s.cfg, s.xfers, c);
    CommitKept(s, Commit(SetCall(s, u, c.(phase := ToQueue)), c), u);
  }

  lemma DecideGoesOn(s: Stream, u: nat, c: Call, phase: Phase)
    requires CallsKept(s) && BytesKept(s) && InPhase(s, u, Staged) && c == s.calls[u]
    requires (phase == RollingBack && c.length > 0) || (phase == ToApc && c.staged != [])
    ensures var r := SetCall(s, u, c.(phase := phase)); CallsKept(r) && BytesKept(r)
  {
    assert CallBytes(s.cfg, s.xfers, c);
    PhaseKept(s, SetCall(s, u, c.(phase := phase)), u);
  }

  lemma DecideKept(s: Stream, u: nat)
    requires CallsKept(s) && BytesKept(s) && InPhase(s, u, Staged)
    ensures CallsKept(DecideCall(s, u)) && BytesKept(DecideCall(s, u))
  {
    var c := s.calls[u];
    if c.length > 0 && (s.cfg.noPartial || !c.wantsCount) {
      DecideGoesOn(s, u, c, RollingBack);
    } else if c.staged != [] && s.thread.state == Started {
      DecideGoesOn(s, u, c, ToApc);
    } else {
      DecideCommits(s, u, c);
    }
  }

  // ---------------------------------------------------------------- a staging round

  lemma Hand(d: multiset<Byte>, c: seq<Byte>, w: seq<Byte>, rest: seq<Byte>)
    ensures d + multiset(c) + multiset(w + rest) == d + multiset(c + w) + multiset(rest)
  {
  }

  /** The head of Finished is taken whole. */
  lemma WholeKept(s: Stream, r: Stream, u: nat, i: nat)
    requires CallsKept(s) && BytesKept(s) && InPhase(s, u, Staging) && s.lists.finished != []
    requires i == s.lists.finished[0] < |s.xfers| && |r.calls| == |s.calls|
    requires r.cfg == s.cfg && r.xfers == s.xfers && r.entered == s.entered && r.departed == s.departed
    requires r.lists == s.lists.(finished := s.lists.finished[1..]) && r.calls == s.calls[u := r.calls[u]]
    requires var c, c' := s.calls[u], r.calls[u];
             && (c'.phase == Staged || (c'.phase == Staging && c'.length > 0)) && c'.backup == None
             && c'.staged == c.staged + [i] && c'.copied == c.copied + Window(s.xfers[i])
    ensures CallsKept(r) && BytesKept(r)
  {
    var c, w := s.calls[u], Window(s.xfers[i]);
    StageItem(s.xfers, c.staged, i);
    assert CallBytes(s.cfg, s.xfers, c) && c.copied == Bytes(s.xfers, c.staged);
    HeadBytes(s.xfers, s.lists.finished, s.lists.temp);
    Hand(multiset(s.departed), c.copied, w, Bytes(s.xfers, r.lists.finished + s.lists.temp));
    CallExchange(s, r, u);
    OneCallKept(s, r, u);
  }

  /** Bytes move from the head of Finished to a call; the rest stays in its window. */
  lemma PartMoves(xfers: seq<Xfer>, finished: seq<nat>, temp: seq<nat>, y: Xfer, p: seq<Byte>, c: seq<Byte>,
                  d: multiset<Byte>)
    requires finished != [] && finished[0] < |xfers| && finished[0] !in finished[1..] + temp
    requires Window(xfers[finished[0]]) == p + Window(y)
    ensures d + multiset(c) + multiset(Bytes(xfers, finished + temp))
            == d + multiset(c + p) + multiset(Bytes(xfers[finished[0] := y], finished + temp))
  {
    SplitHead(xfers, finished, temp, y, p, [], c);
    var all, rest := Bytes(xfers, finished + temp), Bytes(xfers[finished[0] := y], finished + temp);
    assert multiset([] + c + all) == multiset(c) + multiset(all);
    assert multiset([] + (c + p) + rest) == multiset(c + p) + multiset(rest);
    Behind(d, multiset(c), multiset(all), multiset(c + p), multiset(rest));
  }

  lemma Behind(d: multiset<Byte>, a: multiset<Byte>, b: multiset<Byte>, a': multiset<Byte>, b': multiset<Byte>)
    requires a + b == a' + b'
    ensures d + a + b == d + a' + b'
  {
    assert d + a + b == d + (a + b) && d + a' + b' == d + (a' + b');
  }

  /** The head of Finished is read in part: what this does to the bytes. */
  lemma PartBytes(s: Stream, r: Stream, u: nat, i: nat, y: Xfer, p: seq<Byte>, c': Call)
    requires BytesKept(s) && InPhase(s, u, Staging) && s.lists.finished != [] && i == s.lists.finished[0] < |s.xfers|
    requires i !in s.lists.finished[1..] + s.lists.temp && Window(s.xfers[i]) == p + Window(y)
    requires r.xfers == s.xfers[i := y] && r.entered == s.entered && r.departed == s.departed && r.lists == s.lists
    requires r.calls == s.calls[u := c'] && c'.phase == Staged && c'.copied == s.calls[u].copied + p
    ensures BytesKept(r)
  {
    PartMoves(s.xfers, s.lists.finished, s.lists.temp, y, p, s.calls[u].copied, multiset(s.departed));
    CallExchange(s, r, u);
  }

  /** Likewise to the call. */
  lemma PartCall(cfg: Config, xfers: seq<Xfer>, c: Call, i: nat, y: Xfer, p: seq<Byte>, c': Call)
    requires CallBytes(cfg, xfers, c) && c.phase == Staging && i < |xfers| && i !in c.staged && p != []
    requires ValidXfer(xfers[i], cfg.capacity)
    requires c' == c.(phase := Staged, first := false, length := 0, copied := c.copied + p,
                      backup := Some(Backup(i, xfers[i])))
    ensures CallBytes(cfg, xfers[i := y], c')
  {
    assert c.copied == Bytes(xfers, c.staged);
    BytesFrame(xfers, c.staged, i, y);
    assert Taken(xfers[i := y], c') == p;
  }

  lemma PartKept(s: Stream, r: Stream, u: nat, i: nat, y: Xfer, p: seq<Byte>, c': Call)
    requires CallsKept(s) && BytesKept(s) && InPhase(s, u, Staging) && s.lists.finished != []
    requires i == s.lists.finished[0] < |s.xfers| && Apart(s, i) && i !in s.lists.finished[1..]
    requires ValidXfer(y, s.cfg.capacity) && Window(s.xfers[i]) == p + Window(y) && p != []
    requires r.cfg == s.cfg && r.xfers == s.xfers[i := y] && r.entered == s.entered && r.departed == s.departed
    requires r.lists == s.lists && r.calls == s.calls[u := c']
    requires c' == s.calls[u].(phase := Staged, first := false, length := 0, copied := s.calls[u].copied + p,
                               backup := Some(Backup(i, s.xfers[i])))
    ensures CallsKept(r) && BytesKept(r)
  {
    assert i in s.lists.finished;
    PartBytes(s, r, u, i, y, p, c');
    PartCall(s.cfg, s.xfers, s.calls[u], i, y, p, c');
    var m := s.(xfers := r.xfers);
    CallsFrame(s, m, i, y);
    OneCallKept(m, r, u);
  }

  lemma SplitWindow(x: Xfer, y: Xfer, stage: nat, capacity: nat)
    requires ValidXfer(x, capacity) && 0 < stage < x.len
    requires y == x.(start := x.start + stage, size := x.size - Min(stage, x.size), len := x.len - stage)
    ensures ValidXfer(y, capacity) && Window(x) == Prefix(Window(x), stage) + Window(y)
            && Prefix(Window(x), stage) != []
  {
  }

  lemma StageDry(s: Stream, u: nat, r: Stream)
    requires CallsKept(s) && BytesKept(s) && u < |s.calls| && CanCall(s, u, StageOne) && IsDry(s, u)
             && r == StageRound(s, u)
    ensures CallsKept(r) && BytesKept(r)
  {
    assert CallBytes(s.cfg, s.xfers, s.calls[u]);
    DryEffect(s, u);
    PhaseKept(s, r, u);
  }

  lemma StagePart(s: Stream, u: nat, i: nat, x: Xfer, stage: nat)
    requires CallsKept(s) && BytesKept(s) && u < |s.calls| && CanCall(s, u, StageOne) && !IsDry(s, u)
    requires i == s.lists.finished[0] && x == s.xfers[i] && stage == s.calls[u].length < x.len
    requires Apart(s, i) && i !in s.lists.finished[1..]
    ensures CallsKept(StageRound(s, u)) && BytesKept(StageRound(s, u))
  {
    var c, w := s.calls[u], Window(x);
    assert CallBytes(s.cfg, s.xfers, c);
    PartEffect(s, u, i, x, stage);
    var y := x.(start := x.start + stage, size := x.size - Min(stage, x.size), len := x.len - stage);
    var c' := c.(phase := Staged, first := false, length := c.length - stage, copied := c.copied + Prefix(w, stage),
                 backup := Some(Backup(i, x)));
    SplitWindow(x, y, stage, s.cfg.capacity);
    PartKept(s, StageRound(s, u), u, i, y, Prefix(w, stage), c');
  }

  lemma StageWhole(s: Stream, u: nat, r: Stream, i: nat, x: Xfer)
    requires CallsKept(s) && BytesKept(s) && u < |s.calls| && CanCall(s, u, StageOne) && !IsDry(s, u)
             && r == StageRound(s, u)
    requires i == s.lists.finished[0] && x == s.xfers[i] && x.len <= s.calls[u].length
    ensures CallsKept(r) && BytesKept(r)
  {
    assert CallBytes(s.cfg, s.xfers, s.calls[u]);
    WholeEffect(s, u, i, x);
    assert Prefix(Window(x), x.len) == Window(x);
    WholeKept(s, r, u, i);
  }

  lemma StageKept(s: Stream, u: nat)
    requires CallsKept(s) && BytesKept(s) && Conserved(s) && u < |s.calls| && CanCall(s, u, StageOne)
    ensures CallsKept(StageRound(s, u)) && BytesKept(StageRound(s, u))
  {
    var c, i := s.calls[u], s.lists.finished[0];
    if IsDry(s, u) {
      StageDry(s, u, StageRound(s, u));
    } else if s.xfers[i].len > c.length {
      ItemsApart(s, i);
      assert Occurrences(s, i) <= 1;
      HeadOnce(s.lists.finished);
      StagePart(s, u, i, s.xfers[i], c.length);
    } else {
      StageWhole(s, u, StageRound(s, u), i, s.xfers[i]);
    }
  }

  // ---------------------------------------------------------------- a rollback

  lemma {:induction false} ReverseBytes(xfers: seq<Xfer>, s: seq<nat>)
    ensures multiset(Bytes(xfers, Reverse(s))) == multiset(Bytes(xfers, s))
  {
    if s != [] {
      var init := Reverse(s[1..]);
      ReverseBytes(xfers, s[1..]);
      BytesAppend(xfers, init, [s[0]]);
      BytesAppend(xfers, [s[0]], s[1..]);
      assert s == [s[0]] + s[1..];
      Turned(Bytes(xfers, init), Bytes(xfers, [s[0]]), Bytes(xfers, s[1..]));
    }
  }

  lemma Turned(a: seq<Byte>, x: seq<Byte>, b: seq<Byte>)
    requires multiset(a) == multiset(b)
    ensures multiset(a + x) == multiset(x + b)
  {
  }

  /** Writing an item that is on a list once exchanges the bytes of its window. */
  lemma {:induction false} BytesWrite(xfers: seq<Xfer>, list: seq<nat>, i: nat, y: Xfer)
    requires i < |xfers| && i in list && On(list, i) <= 1
    ensures multiset(Bytes(xfers[i := y], list)) + multiset(Window(xfers[i]))
            == multiset(Bytes(xfers, list)) + multiset(Window(y))
  {
    var now, rest := xfers[i := y], list[1..];
    if list[0] == i {
      HeadOnce(list);
      BytesFrame(xfers, rest, i, y);
      Exchanged(Window(y), Bytes(xfers, rest), Window(xfers[i]));
    } else {
      BytesWrite(xfers, rest, i, y);
      var w := if list[0] < |xfers| then Window(xfers[list[0]]) else [];
      Later(w, Bytes(now, rest), multiset(Window(xfers[i])), Bytes(xfers, rest), multiset(Window(y)));
    }
  }

  lemma Exchanged(y: seq<Byte>, rest: seq<Byte>, x: seq<Byte>)
    ensures multiset(y + rest) + multiset(x) == multiset(x + rest) + multiset(y)
  {
  }

  lemma Later(w: seq<Byte>, a: seq<Byte>, x: multiset<Byte>, b: seq<Byte>, y: multiset<Byte>)
    requires multiset(a) + x == multiset(b) + y
    ensures multiset(w + a) + x == multiset(w + b) + y
  {
    Behind(multiset(w), multiset(a), x, multiset(b), y);
  }

  /** The item that a call read in part still waits, and the window the rollback restores holds the bytes
      that were taken and those that are in the window now. */
  predicate Refits(s: Stream, u: nat)
    requires u < |s.calls|
  {
    var c := s.calls[u];
    c.staged == [] ||
    match c.backup
    case None => true
    case Some(b) =>
      && b.id < |s.xfers| && b.id in s.lists.finished + s.lists.temp
      && multiset(Window(Restored(s.xfers[b.id], b.xfer))) == multiset(Taken(s.xfers, c) + Window(s.xfers[b.id]))
  }

  /** The bytes that wait after a rollback: those of the staged items and those that waited, with the
      restored window. */
  lemma BackWaiting(xfers: seq<Xfer>, staged: seq<nat>, finished: seq<nat>, temp: seq<nat>)
    ensures multiset(Bytes(xfers, (Reverse(staged) + finished) + temp))
            == multiset(Bytes(xfers, staged)) + multiset(Bytes(xfers, finished + temp))
  {
    var front, all := Reverse(staged), finished + temp;
    Joined(front, finished, temp);
    BytesAppend(xfers, front, all);
    ReverseBytes(xfers, staged);
    Sum(Bytes(xfers, front), Bytes(xfers, all));
  }

  lemma Joined(a: seq<nat>, b: seq<nat>, c: seq<nat>)
    ensures (a + b) + c == a + (b + c)
  {
  }

  lemma Sum(a: seq<Byte>, b: seq<Byte>)
    ensures multiset(a + b) == multiset(a) + multiset(b)
  {
  }

  /** d: returned, c = whole + part: copied, w: waiting before, w': waiting after but for the staged items. */
  lemma BackBalance(d: multiset<Byte>, c: seq<Byte>, whole: seq<Byte>, part: seq<Byte>, w: multiset<Byte>,
                    w': multiset<Byte>)
    requires c == whole + part
    ensures d + multiset(c) + w == d + multiset{} + (multiset(whole) + w') <==> multiset(part) + w == w'
  {
    var a, b, p := multiset(whole), multiset(c), multiset(part);
    assert b == a + p;
    if d + b + w == d + multiset{} + (a + w') {
      forall x: Byte ensures (p + w)[x] == w'[x] { assert (d + b + w)[x] == (d + multiset{} + (a + w'))[x]; }
    }
    if p + w == w' {
      forall x: Byte ensures (d + b + w)[x] == (d + multiset{} + (a + w'))[x] { assert (p + w)[x] == w'[x]; }
    }
  }

  lemma Replaced(p: multiset<Byte>, w: multiset<Byte>, w': multiset<Byte>, now: multiset<Byte>, fit: multiset<Byte>)
    requires w' + now == w + fit
    ensures p + w == w' <==> fit == p + now
  {
    forall x: Byte ensures w'[x] + now[x] == w[x] + fit[x] { assert (w' + now)[x] == (w + fit)[x]; }
    if p + w == w' {
      forall x: Byte ensures fit[x] == (p + now)[x] { assert (p + w)[x] == w'[x]; }
    }
    if fit == p + now {
      forall x: Byte ensures (p + w)[x] == w'[x] { assert fit[x] == (p + now)[x]; }
    }
  }

  /** What waits, without the staged items, is what waited and what was taken exactly when the restored
      window fits. */
  lemma RestoredWaiting(xfers: seq<Xfer>, all: seq<nat>, b: nat, y: Xfer, part: seq<Byte>)
    requires b < |xfers| && On(all, b) <= 1 && part != []
    ensures multiset(part) + multiset(Bytes(xfers, all)) == multiset(Bytes(xfers[b := y], all))
            <==> b in all && multiset(Window(y)) == multiset(part + Window(xfers[b]))
  {
    var w, w' := multiset(Bytes(xfers, all)), multiset(Bytes(xfers[b := y], all));
    if b in all {
      BytesWrite(xfers, all, b, y);
      Replaced(multiset(part), w, w', multiset(Window(xfers[b])), multiset(Window(y)));
    } else {
      BytesFrame(xfers, all, b, y);
      assert part[0] in multiset(part);
      assert (multiset(part) + w)[part[0]] > w[part[0]];
    }
  }

  /** What a rollback of staged items does to the bytes. */
  lemma BackExchange(s: Stream, u: nat, c: Call, xfers: seq<Xfer>, all: seq<nat>)
    requires CallsKept(s) && BytesKept(s) && InPhase(s, u, RollingBack) && c == s.calls[u] && c.staged != []
    requires xfers == Restore(s.xfers, c.backup) && all == s.lists.finished + s.lists.temp
    requires Bytes(xfers, c.staged) == Bytes(s.xfers, c.staged)
    ensures BytesKept(RollBackCall(s, u)) <==>
            multiset(Taken(s.xfers, c)) + multiset(Bytes(s.xfers, all)) == multiset(Bytes(xfers, all))
  {
    assert CallBytes(s.cfg, s.xfers, c);
    CallExchange(s, RollBackCall(s, u), u);
    BackWaiting(xfers, c.staged, s.lists.finished, s.lists.temp);
    BackBalance(multiset(s.departed), c.copied, Bytes(s.xfers, c.staged), Taken(s.xfers, c),
                multiset(Bytes(s.xfers, all)), multiset(Bytes(xfers, all)));
  }

  lemma BackEmpty(s: Stream, u: nat, c: Call)
    requires CallsKept(s) && BytesKept(s) && InPhase(s, u, RollingBack) && c == s.calls[u] && c.staged == []
    ensures BytesKept(RollBackCall(s, u))
  {
    assert CallBytes(s.cfg, s.xfers, c);
    assert c.copied == [];
    CallExchange(s, RollBackCall(s, u), u);
  }

  lemma BackRestored(s: Stream, u: nat, c: Call, b: Backup, all: seq<nat>)
    requires CallsKept(s) && BytesKept(s) && Conserved(s) && InPhase(s, u, RollingBack) && c == s.calls[u]
             && c.staged != []
    requires c.backup == Some(b) && all == s.lists.finished + s.lists.temp
    ensures BytesKept(RollBackCall(s, u)) <==> Refits(s, u)
  {
    assert CallBytes(s.cfg, s.xfers, c);
    var y := Restored(s.xfers[b.id], b.xfer);
    BytesFrame(s.xfers, c.staged, b.id, y);
    Append(s.lists.finished, s.lists.temp, b.id);
    assert Occurrences(s, b.id) <= 1;
    BackExchange(s, u, c, Restore(s.xfers, c.backup), all);
    RestoredWaiting(s.xfers, all, b.id, y, Taken(s.xfers, c));
  }

  /** A rollback keeps the bytes exactly when the partly read item refits. */
  lemma RollBackExactly(s: Stream, u: nat)
    requires CallsKept(s) && BytesKept(s) && Conserved(s) && InPhase(s, u, RollingBack)
    ensures BytesKept(RollBackCall(s, u)) <==> Refits(s, u)
  {
    var c, all := s.calls[u], s.lists.finished + s.lists.temp;
    assert CallBytes(s.cfg, s.xfers, c);
    if c.staged == [] {
      BackEmpty(s, u, c);
    } else if c.backup.Some? {
      BackRestored(s, u, c, c.backup.value, all);
    } else {
      BackExchange(s, u, c, s.xfers, all);
    }
  }

  lemma RollBackCalls(s: Stream, u: nat)
    requires CallsKept(s) && Conserved(s) && InPhase(s, u, RollingBack) && Refits(s, u)
    ensures CallsKept(RollBackCall(s, u))
  {
    var c, r := s.calls[u], RollBackCall(s, u);
    assert CallBytes(s.cfg, s.xfers, c);
    if c.staged != [] && c.backup.Some? {
      var b := c.backup.value;
      var m := s.(xfers := r.xfers);
      ItemsApart(s, b.id);
      CallsFrame(s, m, b.id, Restored(s.xfers[b.id], b.xfer));
      OneCallKept(m, r, u);
    } else {
      OneCallKept(s, r, u);
    }
  }
}
