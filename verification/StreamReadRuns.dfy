/** Runs of a read stream with any number of readers: which of them keep every byte. */
module StreamReadRuns {
  import opened Basics
  import opened QueuedStream
  import opened StreamConservation
  import opened StreamBytes
  import opened StreamReadFifo
  import opened StreamReadBytes

  // ---------------------------------------------------------------- every run

  lemma CallKept(s: Stream, u: nat, c: CallAction)
    requires CallsKept(s) && BytesKept(s) && Conserved(s) && Orderly(s) && u < |s.calls| && CanCall(s, u, c)
    requires c.RollBack? ==> Refits(s, u)
    ensures CallsKept(StepCall(s, u, c)) && BytesKept(StepCall(s, u, c))
  {
    assert CallBytes(s.cfg, s.xfers, s.calls[u]) && OrderlyCall(s.calls[u], s.gate.lock == Some(u));
    if c.StageOne? {
      StageKept(s, u);
    } else if c.Decide? {
      DecideKept(s, u);
    } else if c.RollBack? {
      RollBackExactly(s, u);
      RollBackCalls(s, u);
    } else if c == QueueApc(true) {
      CommitKept(s, StepCall(s, u, c), u);
    } else {
      PlainEffect(s, u, c);
      PhaseKept(s, StepCall(s, u, c), u);
    }
  }

  /** The action is not a rollback, or the partly read item refits. */
  predicate Fair(s: Stream, a: Action) { a.Caller? && a.c == RollBack && Enabled(s, a) ==> Refits(s, a.u) }

  /** Every rollback of the run finds its partly read item refit. */
  predicate FairRollBacks(cfg: Config, n: nat, run: seq<Action>) {
    run == []
    || (FairRollBacks(cfg, n, run[..|run| - 1]) && Fair(Reached(cfg, n, run[..|run| - 1]), run[|run| - 1]))
  }

  /** The bytes are kept from the beginning of the run to its end. */
  predicate AlwaysKept(cfg: Config, n: nat, run: seq<Action>) {
    BytesKept(Reached(cfg, n, run)) && (run == [] || AlwaysKept(cfg, n, run[..|run| - 1]))
  }

  lemma InitialBytes(cfg: Config, n: nat)
    requires cfg.isRead
    ensures CallsKept(Init(cfg, n)) && BytesKept(Init(cfg, n))
  {
    NoFlights(n);
  }

  /** For any number of readers, through rollbacks of any length: a read stream never loses or repeats a
      byte of a run, if and only if each rollback finds the item it read in part still waiting, with
      what is missing in its window being what it took. */
  lemma {:induction false} BytesKeptExactly(cfg: Config, n: nat, run: seq<Action>)
    requires cfg.isRead
    ensures AlwaysKept(cfg, n, run) <==> FairRollBacks(cfg, n, run)
    ensures FairRollBacks(cfg, n, run) ==> CallsKept(Reached(cfg, n, run))
  {
    if run == [] {
      InitialBytes(cfg, n);
    } else {
      var before, a := run[..|run| - 1], run[|run| - 1];
      BytesKeptExactly(cfg, n, before);
      Conservation(cfg, n, before);
      if FairRollBacks(cfg, n, before) { StepExactly(Reached(cfg, n, before), a); }
    }
  }

  lemma StepExactly(s: Stream, a: Action)
    requires CallsKept(s) && BytesKept(s) && Conserved(s) && Orderly(s)
    ensures BytesKept(Apply(s, a)) <==> Fair(s, a)
    ensures Fair(s, a) ==> CallsKept(Apply(s, a))
  {
    if Enabled(s, a) {
      match a
      case Thread(t) => ThreadKept(s, t);
      case Caller(u, c) =>
        if c == RollBack { RollBackExactly(s, u); }
        if c == RollBack ==> Refits(s, u) { CallKept(s, u, c); }
    }
  }

  // ---------------------------------------------------------------- readers that leave each other alone

  /** Call `u` has read an item in part and can still roll back. */
  predicate Holds(s: Stream, u: nat) { u < |s.calls| && Uncommitted(s.calls[u]) && s.calls[u].backup.Some? }

  /** The item a call has read in part is still on Finished, with the rest of its window. */
  predicate Untouched(xfers: seq<Xfer>, finished: seq<nat>, c: Call, b: Backup) {
    && b.id < |xfers| && b.id in finished && xfers[b.id].data == b.xfer.data
    && b.xfer.start <= xfers[b.id].start <= |b.xfer.data|
    && xfers[b.id].start + xfers[b.id].len == b.xfer.start + b.xfer.len
    && Taken(xfers, c) == b.xfer.data[b.xfer.start..xfers[b.id].start]
  }

  /** At most one call holds an item read in part, and nobody has touched it since. */
  ghost predicate Alone(s: Stream) {
    && (forall u: nat, v: nat :: Holds(s, u) && Holds(s, v) ==> u == v)
    && (forall u: nat :: Holds(s, u) ==> Untouched(s.xfers, s.lists.finished, s.calls[u], s.calls[u].backup.value))
  }

  lemma UntouchedRefits(s: Stream, u: nat)
    requires CallsKept(s) && Alone(s) && InPhase(s, u, RollingBack)
    ensures Refits(s, u)
  {
    var c := s.calls[u];
    assert CallBytes(s.cfg, s.xfers, c);
    if c.backup.Some? {
      var b := c.backup.value;
      assert Holds(s, u);
      var x := s.xfers[b.id];
      assert Restored(x, b.xfer) == b.xfer;
      assert Window(b.xfer) == Taken(s.xfers, c) + Window(x);
    }
  }

  /** Other items may be written, and Finished may grow. */
  lemma UntouchedFrame(xfers: seq<Xfer>, finished: seq<nat>, c: Call, b: Backup, i: nat, x: Xfer, finished': seq<nat>)
    requires Untouched(xfers, finished, c, b) && i < |xfers| && i != b.id && i !in c.staged
    requires forall j <- finished :: j in finished'
    ensures Untouched(xfers[i := x], finished', c, b)
  {
    BytesFrame(xfers, c.staged, i, x);
  }

  /** The thread writes the head of Queued or of the pending list, if anything. */
  lemma ThreadWrites(s: Stream, t: ThreadAction) returns (i: nat, x: Xfer)
    requires CanThread(s, t) && |s.xfers| > 0
    ensures i < |s.xfers| && StepThread(s, t).xfers == s.xfers[i := x]
    ensures i in s.lists.queued || i in s.lists.pending || x == s.xfers[i]
  {
    i, x := 0, s.xfers[0];
    if t.SubmitNext? && s.thread.freeSlots > 0 && s.lists.queued != [] {
      i := s.lists.queued[0];
      x := Reset(s.xfers[i], s.cfg.isRead);
    } else if t.Complete? {
      i := s.lists.pending[0];
      x := s.xfers[i].(data := t.data, len := t.len);
    } else {
      RestIsQuiet(s, t);
    }
  }

  lemma ThreadAlone(s: Stream, t: ThreadAction)
    requires Alone(s) && Conserved(s) && CanThread(s, t)
    ensures Alone(StepThread(s, t))
  {
    var r := StepThread(s, t);
    ThreadFrame(s, t);
    forall u: nat | Holds(r, u)
      ensures Holds(s, u) && Untouched(r.xfers, r.lists.finished, r.calls[u], r.calls[u].backup.value)
    {
      var c := s.calls[u];
      var b := c.backup.value;
      assert Holds(s, u);
      var i, x := ThreadWrites(s, t);
      ItemsApart(s, i);
      if x == s.xfers[i] {
        assert r.xfers == s.xfers;
      } else {
        UntouchedFrame(s.xfers, s.lists.finished, c, b, i, x, r.lists.finished);
      }
    }
  }

  /** Only call `u` changes and gets hold of no item; the others find theirs as it was. */
  lemma QuietAlone(s: Stream, r: Stream, u: nat)
    requires Alone(s) && u < |s.calls| == |r.calls| && r.calls == s.calls[u := r.calls[u]] && r.xfers == s.xfers
    requires forall j <- s.lists.finished :: j in r.lists.finished
    requires Holds(r, u) ==> Holds(s, u) && r.calls[u].backup == s.calls[u].backup
                             && r.calls[u].staged == s.calls[u].staged && r.calls[u].copied == s.calls[u].copied
    ensures Alone(r)
  {
    forall v: nat | Holds(r, v)
      ensures Holds(s, v) && Untouched(r.xfers, r.lists.finished, r.calls[v], r.calls[v].backup.value)
    {
      assert Holds(s, v);
    }
  }

  /** The copy of a partial read is the front of the window. */
  lemma SplitUntouched(xfers: seq<Xfer>, finished: seq<nat>, c: Call, c': Call, i: nat, x: Xfer, y: Xfer, capacity: nat)
    requires i < |xfers| && i in finished && x == xfers[i] && i !in c.staged && c.copied == Bytes(xfers, c.staged)
    requires ValidXfer(x, capacity) && c.length < x.len
    requires y == x.(start := x.start + c.length, size := x.size - Min(c.length, x.size), len := x.len - c.length)
    requires c'.staged == c.staged && c'.copied == c.copied + Prefix(Window(x), c.length)
    ensures Untouched(xfers[i := y], finished, c', Backup(i, x))
  {
    BytesFrame(xfers, c.staged, i, y);
    FrontOf(x, c.length, y.start, capacity);
    assert Taken(xfers[i := y], c') == Prefix(Window(x), c.length);
  }

  /** Nobody but call `u` gets hold of an item. */
  lemma FirstHolder(s: Stream, r: Stream, u: nat, c: Call)
    requires u < |s.calls| && r.calls == s.calls[u := c] && forall v: nat :: !Holds(s, v)
    requires c.backup.Some? ==> Untouched(r.xfers, r.lists.finished, c, c.backup.value)
    ensures Alone(r)
  {
    assert forall v: nat :: Holds(r, v) && v != u ==> Holds(s, v);
  }

  lemma StagePartAlone(s: Stream, u: nat, i: nat, x: Xfer)
    requires CallsKept(s) && Conserved(s) && u < |s.calls| && CanCall(s, u, StageOne) && forall v: nat :: !Holds(s, v)
    requires !IsDry(s, u) && i == s.lists.finished[0] && x == s.xfers[i] && x.len > s.calls[u].length
    ensures Alone(StageRound(s, u))
  {
    var c, r := s.calls[u], StageRound(s, u);
    assert CallBytes(s.cfg, s.xfers, c) && i in s.lists.finished;
    PartEffect(s, u, i, x, c.length);
    ItemsApart(s, i);
    SplitUntouched(s.xfers, s.lists.finished, c, r.calls[u], i, x, r.xfers[i], s.cfg.capacity);
    FirstHolder(s, r, u, r.calls[u]);
  }

  lemma StageAlone(s: Stream, u: nat)
    requires CallsKept(s) && Conserved(s) && u < |s.calls| && CanCall(s, u, StageOne) && forall v: nat :: !Holds(s, v)
    ensures Alone(StageRound(s, u))
  {
    var i := s.lists.finished[0];
    assert CallBytes(s.cfg, s.xfers, s.calls[u]);
    if IsDry(s, u) {
      DryEffect(s, u);
      FirstHolder(s, StageRound(s, u), u, StageRound(s, u).calls[u]);
    } else if s.xfers[i].len > s.calls[u].length {
      StagePartAlone(s, u, i, s.xfers[i]);
    } else {
      WholeEffect(s, u, i, s.xfers[i]);
      FirstHolder(s, StageRound(s, u), u, StageRound(s, u).calls[u]);
    }
  }

  lemma RollBackAlone(s: Stream, u: nat)
    requires Alone(s) && InPhase(s, u, RollingBack)
    ensures Alone(RollBackCall(s, u))
  {
    var r := RollBackCall(s, u);
    if Holds(s, u) && s.calls[u].staged != [] {
      assert forall v: nat :: Holds(r, v) ==> Holds(s, v) && v != u;
    } else {
      QuietAlone(s, r, u);
    }
  }

  lemma CallAlone(s: Stream, u: nat, c: CallAction)
    requires Alone(s) && CallsKept(s) && Conserved(s) && Orderly(s) && u < |s.calls| && CanCall(s, u, c)
    requires c.StageOne? ==> forall v: nat :: Holds(s, v) ==> v == u
    ensures Alone(StepCall(s, u, c))
  {
    assert CallBytes(s.cfg, s.xfers, s.calls[u]) && OrderlyCall(s.calls[u], s.gate.lock == Some(u));
    if c.StageOne? {
      assert !Holds(s, u);
      StageAlone(s, u);
    } else if c.RollBack? {
      RollBackAlone(s, u);
    } else {
      RestAlone(s, u, c);
    }
  }

  lemma RestAlone(s: Stream, u: nat, c: CallAction)
    requires Alone(s) && CallsKept(s) && u < |s.calls| && CanCall(s, u, c) && !c.StageOne? && !c.RollBack?
    ensures Alone(StepCall(s, u, c))
  {
    var r := StepCall(s, u, c);
    assert CallBytes(s.cfg, s.xfers, s.calls[u]);
    assert r.xfers == s.xfers && r.calls == s.calls[u := r.calls[u]] && r.lists.finished == s.lists.finished;
    QuietAlone(s, r, u);
  }

  /** No call takes from Finished while another one, which has read an item in part, can still roll back. */
  ghost predicate Undisturbed(cfg: Config, n: nat, run: seq<Action>) {
    run == []
    || (var before, a := run[..|run| - 1], run[|run| - 1];
        && Undisturbed(cfg, n, before)
        && (a.Caller? && a.c == StageOne && Enabled(Reached(cfg, n, before), a)
            ==> forall v: nat :: Holds(Reached(cfg, n, before), v) ==> v == a.u))
  }

  /** Readers that do not disturb each other keep every byte, through rollbacks of any length. */
  lemma {:induction false} UndisturbedKeeps(cfg: Config, n: nat, run: seq<Action>)
    requires cfg.isRead && Undisturbed(cfg, n, run)
    ensures AlwaysKept(cfg, n, run) && Alone(Reached(cfg, n, run))
  {
    BytesKeptExactly(cfg, n, run);
    if run != [] {
      var before, a := run[..|run| - 1], run[|run| - 1];
      UndisturbedKeeps(cfg, n, before);
      BytesKeptExactly(cfg, n, before);
      Conservation(cfg, n, before);
      AloneStep(Reached(cfg, n, before), a);
    }
  }

  lemma AloneStep(s: Stream, a: Action)
    requires Alone(s) && CallsKept(s) && Conserved(s) && Orderly(s)
    requires a.Caller? && a.c == StageOne && Enabled(s, a) ==> forall v: nat :: Holds(s, v) ==> v == a.u
    ensures Alone(Apply(s, a)) && Fair(s, a)
  {
    if Enabled(s, a) {
      match a
      case Thread(t) => ThreadAlone(s, t);
      case Caller(u, c) =>
        CallAlone(s, u, c);
        if c == RollBack { UntouchedRefits(s, u); }
    }
  }

  /** A single reader never disturbs itself: it keeps every byte of every run. */
  lemma OneReaderKeeps(cfg: Config, run: seq<Action>)
    requires cfg.isRead
    ensures BytesKept(Reached(cfg, 1, run))
  {
    OneIsUndisturbed(cfg, run);
    UndisturbedKeeps(cfg, 1, run);
  }

  lemma {:induction false} OneIsUndisturbed(cfg: Config, run: seq<Action>)
    ensures Undisturbed(cfg, 1, run)
  {
    if run != [] {
      OneIsUndisturbed(cfg, run[..|run| - 1]);
      Conservation(cfg, 1, run[..|run| - 1]);
    }
  }
}
