/** The queued stream engine of lusbk_queued_stream.c as a state machine.

    One stream thread, any number of callers of `StmK_Read`/`StmK_Write` and the device move
    a fixed set of transfer items between lists.  A list holds item numbers; the items
    themselves stay in `xfers`, as they stay in `XferItems` in the C code.  Each action below
    is one atomic section of the source; whatever the source cannot decide by itself (a wait,
    a submit, a completion) is a parameter of the action. */
module QueuedStream {
  import opened Basics

  /** One transfer item: the buffer it owns and the window of it the Public fields describe
      (`Public.Buffer` = data + start, `Public.BufferSize` = size, `Public.TransferLength` = len). */
  datatype Xfer = Xfer(data: seq<Byte>, start: nat, size: nat, len: nat)

  predicate ValidXfer(x: Xfer, capacity: nat) {
    |x.data| == capacity && x.start + x.size == capacity && x.len <= x.size
  }

  function Window(x: Xfer): seq<Byte> {
    if x.start + x.len <= |x.data| then x.data[x.start..x.start + x.len] else []
  }

  /** What `StmK_Init` fixes: pipe direction, MaxTransferSize, MaxPendingTransfers,
      MaxPendingIO and the two flags. */
  datatype Config = Config(isRead: bool, capacity: nat, items: nat, slots: nat, timed: bool, noPartial: bool)

  datatype ThreadState = Stopped | Started | Starting | Stopping

  /** Where the stream thread is. */
  datatype ThreadPc =
    | NoThread
    | Booting       // created, before it announces STARTED
    | LoopTop       // testing the state
    | Syncing       // try to move FinishedTemp
    | Submitting    // Stm_Thread_ProcessQueued
    | Waiting       // alertable wait: ProcessPending, or SleepEx when nothing is pending
    | Alerted       // an APC ran; the wait returns
    | Leaving       // label Done
    | ForcedSync
    | Draining      // the drain loop
    | Exiting       // past the drain loop, still STOPPING

  /** A queued user APC. */
  datatype Apc = Submit(list: seq<nat>) | StopApc

  /** Where a caller of StmK_Read or StmK_Write is. */
  datatype Phase =
    | Idle
    | Entered       // past the thread state check
    | Permitted     // semaphore permit taken (or Finished seen non-empty)
    | Staging       // holds FinishedLock, inside the loop over Finished
    | Staged        // lock released
    | ToApc         // saw STARTED, about to queue the APC
    | ToQueue       // appending to Queued directly
    | RollingBack   // label Error

  datatype Backup = Backup(id: nat, xfer: Xfer)

  /** The locals of one call.  `length` is what is still wanted, `src` what a write has still to
      store, `copied` the bytes staged so far, `seen` the thread state at the entry check. */
  datatype Call = Call(phase: Phase, length: nat, src: seq<Byte>, wantsCount: bool, seen: ThreadState,
                       first: bool, copied: seq<Byte>, staged: seq<nat>, backup: Option<Backup>)

  const IDLE := Call(Idle, 0, [], true, Stopped, true, [], [], None)

  /** The item lists: `List.Queued`, the thread's pendingList, `List.Finished`, `List.FinishedTemp`. */
  datatype Lists = Lists(queued: seq<nat>, pending: seq<nat>, finished: seq<nat>, temp: seq<nat>)

  /** The APCs queued to the running thread, the submit lists queued to threads that ended
      without running them, and APCTransferQueueCount. */
  datatype Mail = Mail(apcs: seq<Apc>, lost: seq<seq<nat>>, count: int)

  /** The ready semaphore's count and the owner of FinishedLock. */
  datatype Gate = Gate(sem: nat, lock: Option<nat>)

  datatype ThreadInfo = ThreadInfo(state: ThreadState, pc: ThreadPc, freeSlots: nat, pendingIO: int, noWaiting: bool)

  /** `entered` and `departed` are histories: the bytes that entered the stream (accepted
      completions of a read stream, successful calls of a write stream) and those that left it
      (successful calls of a read stream, accepted submissions of a write stream). */
  datatype Stream = Stream(cfg: Config, xfers: seq<Xfer>, lists: Lists, mail: Mail, gate: Gate,
                           thread: ThreadInfo, calls: seq<Call>, entered: seq<Byte>, departed: seq<Byte>)

  /** Actions of the stream thread, of the device, and of StmK_Start and StmK_Stop. */
  datatype ThreadAction =
    | Start(ok: bool)
    | Stop(ok: bool)
    | Boot(ok: bool)
    | CheckState
    | TrySync
    | SubmitNext(ok: bool)
    | TimeOut
    | Complete(valid: bool, goOn: bool, data: seq<Byte>, len: nat)
    | Deliver
    | Resume
    | Leave
    | Force
    | GiveUpWaiting
    | DrainDone
    | Exit

  /** Actions of one call to StmK_Read or StmK_Write. */
  datatype CallAction =
    | Enter(length: nat, src: seq<Byte>, wantsCount: bool)
    | TakePermit
    | GiveUp
    | Acquire
    | StageOne
    | Decide
    | QueueApc(ok: bool)
    | MoveOne
    | RollBack

  datatype Action = Thread(t: ThreadAction) | Caller(u: nat, c: CallAction)

  // ---------------------------------------------------------------- auxiliaries

  function Min(a: nat, b: nat): nat { if a < b then a else b }

  function Reverse(s: seq<nat>): seq<nat> {
    if s == [] then [] else Reverse(s[1..]) + [s[0]]
  }

  function Identity(n: nat): seq<nat> { seq(n, i requires 0 <= i < n => i) }

  /** ReleaseSemaphore changes nothing when the count is zero or would pass the maximum. */
  function Release(cfg: Config, gate: Gate, n: nat): Gate {
    if cfg.timed && gate.sem + n <= cfg.items then gate.(sem := gate.sem + n) else gate
  }

  // ---------------------------------------------------------------- the initial stream

  /** What `StmK_Init` leaves behind, with `n` potential callers. */
  function Init(cfg: Config, n: nat): Stream {
    var all := Identity(cfg.items);
    var zeroes: seq<Byte> := seq(cfg.capacity, _ => 0);
    Stream(cfg, seq(cfg.items, _ => Xfer(zeroes, 0, cfg.capacity, 0)),
           if cfg.isRead then Lists(all, [], [], []) else Lists([], [], all, []),
           Mail([], [], 0),
           Gate(if cfg.timed && !cfg.isRead then cfg.items else 0, None),
           ThreadInfo(Stopped, NoThread, 0, 0, false),
           seq(n, _ => IDLE), [], [])
  }

  // ---------------------------------------------------------------- the stream thread

  /** Stm_SynchronizeFinishedList once it has the lock: FinishedTemp, then the new item, go to
      the end of Finished and the semaphore is released once for each. */
  function Synchronize(s: Stream, item: seq<nat>): Stream {
    s.(lists := s.lists.(finished := s.lists.finished + s.lists.temp + item, temp := []),
       gate := Release(s.cfg, s.gate, |s.lists.temp| + |item|))
  }

  /** The window of an item as it is submitted. */
  function Reset(x: Xfer, isRead: bool): Xfer {
    x.(start := 0, size := |x.data|, len := if isRead then |x.data| else x.len)
  }

  /** The submit half of Stm_Thread_ProcessQueued: the window is reset before the submit
      callback runs; a failed submit puts item and slot back. */
  function SubmitHead(s: Stream, ok: bool): Stream
    requires s.lists.queued != [] && s.thread.freeSlots > 0 && s.lists.queued[0] < |s.xfers|
  {
    var i := s.lists.queued[0];
    var x := Reset(s.xfers[i], s.cfg.isRead);
    if !ok then s.(xfers := s.xfers[i := x], thread := s.thread.(pc := Leaving))
    else
      s.(xfers := s.xfers[i := x],
         lists := s.lists.(queued := s.lists.queued[1..], pending := s.lists.pending + [i]),
         thread := s.thread.(freeSlots := s.thread.freeSlots - 1, pendingIO := s.thread.pendingIO + 1),
         departed := if s.cfg.isRead then s.departed else s.departed + Window(x))
  }

  /** Taking the head of the pending list back from the device, with the buffer contents and
      the transfer length the device and the callbacks leave behind. */
  function TakePending(s: Stream, data: seq<Byte>, len: nat): Stream
    requires s.lists.pending != [] && s.lists.pending[0] < |s.xfers|
  {
    var i := s.lists.pending[0];
    s.(xfers := s.xfers[i := s.xfers[i].(data := data, len := len)],
       lists := s.lists.(pending := s.lists.pending[1..]),
       thread := s.thread.(freeSlots := s.thread.freeSlots + 1, pendingIO := s.thread.pendingIO - 1))
  }

  /** Filing a completed item: back to Queued when BeforeComplete called it invalid, to Finished
      when the lock is free, else to FinishedTemp. */
  function FileItem(s: Stream, i: nat, valid: bool): Stream
    requires i < |s.xfers|
  {
    if !valid then s.(lists := s.lists.(queued := s.lists.queued + [i]))
    else
      var t := s.(entered := if s.cfg.isRead then s.entered + Window(s.xfers[i]) else s.entered);
      if s.gate.lock == None then Synchronize(t, [i]) else t.(lists := t.lists.(temp := t.lists.temp + [i]))
  }

  /** The completion half of Stm_Thread_ProcessPending. */
  function CompleteHead(s: Stream, valid: bool, data: seq<Byte>, len: nat): Stream
    requires s.lists.pending != [] && s.lists.pending[0] < |s.xfers|
  {
    FileItem(TakePending(s, data, len), s.lists.pending[0], valid)
  }

  /** Running the oldest user APC: Stm_TransferListAPC or Stm_StopAPC. */
  function DeliverHead(s: Stream): Stream
    requires s.mail.apcs != []
  {
    match s.mail.apcs[0]
    case StopApc => s.(mail := s.mail.(apcs := s.mail.apcs[1..]))
    case Submit(list) => s.(mail := s.mail.(apcs := s.mail.apcs[1..], count := s.mail.count - 1),
                            lists := s.lists.(queued := s.lists.queued + list))
  }

  /** The submit lists among the APCs a thread takes with it when it ends. */
  function Undelivered(apcs: seq<Apc>): seq<seq<nat>> {
    if apcs == [] then []
    else (if apcs[0].Submit? then [apcs[0].list] else []) + Undelivered(apcs[1..])
  }

  // ---------------------------------------------------------------- the callers

  function SetCall(s: Stream, u: nat, c: Call): Stream
    requires u < |s.calls|
  {
    s.(calls := s.calls[u := c])
  }

  /** The result of one round of a staging loop, before it is stored: the call, the item window
      written, whether the item moves to the submit list, the permits given back. */
  datatype Round = Dry | Round(call: Call, xfer: Xfer, take: bool)

  /** One round of the loop of StmK_Read for the head `x` of Finished; `dry` says that the
      zero-timeout wait for a further permit failed. */
  function ReadRound(c: Call, i: nat, x: Xfer, dry: bool): Round {
    if dry then Dry
    else
      var stage := Min(c.length, x.len);
      var c1 := c.(first := false, length := c.length - stage, copied := c.copied + Prefix(Window(x), stage));
      if x.len > stage then
        Round(c1.(backup := Some(Backup(i, x))),
              x.(start := x.start + stage, size := x.size - Min(stage, x.size), len := x.len - stage), false)
      else Round(c1.(staged := c.staged + [i]), x, true)
  }

  /** One round of the loop of StmK_Write. */
  function WriteRound(c: Call, i: nat, x: Xfer, dry: bool): Round {
    if dry then Dry
    else
      var stage := Min(Min(c.length, |c.src|), |x.data|);
      Round(c.(first := false, length := c.length - stage, src := c.src[stage..],
               copied := c.copied + c.src[..stage], staged := c.staged + [i]),
            x.(len := stage, data := c.src[..stage] + x.data[stage..]), true)
  }

  function Prefix(b: seq<Byte>, n: nat): seq<Byte> { if n <= |b| then b[..n] else b }

  /** One round of a staging loop.  Every round but the first needs a permit of its own; a round
      that leaves the item in place gives its permit back.  The loop ends, and the lock is
      released, when permits, wanted bytes or items run out or an item is only partly read. */
  function StageRound(s: Stream, u: nat): Stream
    requires u < |s.calls| && s.lists.finished != [] && s.lists.finished[0] < |s.xfers|
  {
    var c := s.calls[u];
    var i := s.lists.finished[0];
    var dry := s.cfg.timed && !c.first && s.gate.sem == 0;
    var gate := if s.cfg.timed && !c.first && !dry then s.gate.(sem := s.gate.sem - 1) else s.gate;
    match if s.cfg.isRead then ReadRound(c, i, s.xfers[i], dry) else WriteRound(c, i, s.xfers[i], dry)
    case Dry => SetCall(s, u, c.(phase := Staged)).(gate := gate.(lock := None))
    case Round(c1, x, take) =>
      var xfers := s.xfers[i := x];
      if !take then SetCall(s, u, c1.(phase := Staged)).(xfers := xfers, gate := Release(s.cfg, gate, 1).(lock := None))
      else
        var lists := s.lists.(finished := s.lists.finished[1..]);
        if c1.length == 0 || lists.finished == [] then
          SetCall(s, u, c1.(phase := Staged)).(xfers := xfers, lists := lists, gate := gate.(lock := None))
        else SetCall(s, u, c1).(xfers := xfers, lists := lists, gate := gate)
  }

  /** A call has become certain to succeed: its bytes have left (read) or entered (write). */
  function Commit(s: Stream, c: Call): Stream {
    if s.cfg.isRead then s.(departed := s.departed + c.copied) else s.(entered := s.entered + c.copied)
  }

  /** mStm_CheckPartialTransfer and the state test of mStm_QueueTransferList. */
  function DecideCall(s: Stream, u: nat): Stream
    requires u < |s.calls|
  {
    var c := s.calls[u];
    if c.length > 0 && (s.cfg.noPartial || !c.wantsCount) then SetCall(s, u, c.(phase := RollingBack))
    else if c.staged != [] && s.thread.state == Started then SetCall(s, u, c.(phase := ToApc))
    else Commit(SetCall(s, u, c.(phase := ToQueue)), c)
  }

  /** QueueUserAPC with the submit list, and the count that goes with it.  A thread that has
      already ended can still accept an APC, which then never runs. */
  function QueueList(s: Stream, u: nat, ok: bool): Stream
    requires u < |s.calls|
  {
    var c := s.calls[u];
    if !ok then SetCall(s, u, c.(phase := RollingBack))
    else
      var mail := s.mail.(count := s.mail.count + 1);
      Commit(SetCall(s, u, IDLE), c).(
        mail := if s.thread.pc == NoThread then mail.(lost := mail.lost + [c.staged])
                else mail.(apcs := mail.apcs + [Submit(c.staged)]))
  }

  /** One round of the loop that appends the submit list to Queued directly. */
  function MoveHead(s: Stream, u: nat): Stream
    requires u < |s.calls|
  {
    var c := s.calls[u];
    if c.staged == [] then SetCall(s, u, IDLE)
    else SetCall(s, u, c.(staged := c.staged[1..])).(lists := s.lists.(queued := s.lists.queued + [c.staged[0]]))
  }

  /** The three Public fields are restored, the buffer itself is not. */
  function Restored(now: Xfer, saved: Xfer): Xfer {
    now.(start := saved.start, size := saved.size, len := saved.len)
  }

  function Restore(xfers: seq<Xfer>, backup: Option<Backup>): seq<Xfer> {
    match backup
    case None => xfers
    case Some(b) => if b.id < |xfers| then xfers[b.id := Restored(xfers[b.id], b.xfer)] else xfers
  }

  /** The Error label: with a submit list, the window of a partly read item is restored, the
      staged items are prepended to Finished one after the other and their permits returned. */
  function RollBackCall(s: Stream, u: nat): Stream
    requires u < |s.calls|
  {
    var c := s.calls[u];
    if c.staged == [] then SetCall(s, u, IDLE)
    else SetCall(s, u, IDLE).(xfers := Restore(s.xfers, c.backup),
                              lists := s.lists.(finished := Reverse(c.staged) + s.lists.finished),
                              gate := Release(s.cfg, s.gate, |c.staged|))
  }

  // ---------------------------------------------------------------- steps

  predicate InPhase(s: Stream, u: nat, phase: Phase) { u < |s.calls| && s.calls[u].phase == phase }

  predicate CanThread(s: Stream, t: ThreadAction) {
    var pc := s.thread.pc;
    match t
    case Start(_) => s.thread.state == Stopped && pc == NoThread
    case Stop(_) => s.thread.state == Started && pc != NoThread
    case Boot(_) => pc == Booting
    case CheckState => pc == LoopTop
    case TrySync => pc == Syncing
    case SubmitNext(_) => pc == Submitting && (s.lists.queued != [] ==> s.lists.queued[0] < |s.xfers|)
    case TimeOut => pc == Waiting && s.lists.pending != [] && s.lists.temp != []
    case Complete(_, _, data, len) =>
      && (pc == Waiting || pc == Draining)
      && s.lists.pending != [] && s.lists.pending[0] < |s.xfers|
      && |data| == |s.xfers[s.lists.pending[0]].data| && len <= |data|
    case Deliver => pc in {Waiting, Alerted, Draining} && s.mail.apcs != []
    case Resume => pc == Alerted
    case Leave => pc == Leaving
    case Force => pc == ForcedSync && s.gate.lock == None
    case GiveUpWaiting => pc == Draining && s.lists.pending != [] && !s.thread.noWaiting
    case DrainDone => pc == Draining && !(s.thread.pendingIO > 0 || s.mail.count > 0)
    case Exit => pc == Exiting
  }

  function At(s: Stream, pc: ThreadPc): Stream { s.(thread := s.thread.(pc := pc)) }

  function StepThread(s: Stream, t: ThreadAction): Stream
    requires CanThread(s, t)
  {
    match t
    case Start(ok) => if ok then s.(thread := s.thread.(state := Starting, pc := Booting, noWaiting := false)) else s
    case Stop(ok) => s.(thread := s.thread.(state := Stopping),
                        mail := s.mail.(apcs := if ok then s.mail.apcs + [StopApc] else s.mail.apcs))
    case Boot(ok) => if ok then s.(thread := s.thread.(state := Started, freeSlots := s.cfg.slots, pc := LoopTop))
                     else At(s, Leaving)
    case CheckState => At(s, if s.thread.state == Started then Syncing else Leaving)
    case TrySync => At(if s.lists.temp != [] && s.gate.lock == None then Synchronize(s, []) else s, Submitting)
    case SubmitNext(ok) => if s.thread.freeSlots == 0 || s.lists.queued == [] then At(s, Waiting) else SubmitHead(s, ok)
    case TimeOut => At(s, LoopTop)
    case Complete(valid, goOn, data, len) =>
      At(CompleteHead(s, valid, data, len),
         if s.thread.pc == Draining then Draining else if goOn then LoopTop else Leaving)
    case Deliver => At(DeliverHead(s), if s.thread.pc == Draining then Draining else Alerted)
    case Resume => At(s, LoopTop)
    case Leave => s.(thread := s.thread.(state := Stopping, pc := ForcedSync))
    case Force => At(Synchronize(s, []), Draining)
    case GiveUpWaiting => s.(thread := s.thread.(noWaiting := true))
    case DrainDone => At(s, Exiting)
    case Exit => s.(thread := s.thread.(state := Stopped, pc := NoThread, freeSlots := 0),
                    mail := s.mail.(apcs := [], lost := s.mail.lost + Undelivered(s.mail.apcs)))
  }

  predicate CanCall(s: Stream, u: nat, c: CallAction)
    requires u < |s.calls|
  {
    var phase := s.calls[u].phase;
    match c
    case Enter(length, src, wantsCount) =>
      && phase == Idle
      && length > 0 && |src| == (if s.cfg.isRead then 0 else length) && (s.cfg.isRead ==> wantsCount)
      && (s.thread.state == Stopped || s.thread.state == Started)
    case TakePermit => phase == Entered && (if s.cfg.timed then s.gate.sem > 0 else s.lists.finished != [])
    case GiveUp => phase == Entered && (s.cfg.timed || s.lists.finished == [])
    case Acquire => phase == Permitted && s.gate.lock == None
    case StageOne => phase == Staging && s.lists.finished != [] && s.lists.finished[0] < |s.xfers|
    case Decide => phase == Staged
    case QueueApc(_) => phase == ToApc
    case MoveOne => phase == ToQueue
    case RollBack => phase == RollingBack && (s.calls[u].staged == [] || s.gate.lock == None)
  }

  function StepCall(s: Stream, u: nat, c: CallAction): Stream
    requires u < |s.calls| && CanCall(s, u, c)
  {
    match c
    case Enter(length, src, wantsCount) =>
      SetCall(s, u, IDLE.(phase := Entered, length := length, src := src, wantsCount := wantsCount,
                          seen := s.thread.state))
    case TakePermit => SetCall(s, u, s.calls[u].(phase := Permitted)).(
                         gate := if s.cfg.timed then s.gate.(sem := s.gate.sem - 1) else s.gate)
    case GiveUp => SetCall(s, u, IDLE)
    case Acquire =>
      if s.lists.finished == [] then SetCall(s, u, IDLE).(gate := Release(s.cfg, s.gate, 1))
      else SetCall(s, u, s.calls[u].(phase := Staging)).(gate := s.gate.(lock := Some(u)))
    case StageOne => StageRound(s, u)
    case Decide => DecideCall(s, u)
    case QueueApc(ok) => QueueList(s, u, ok)
    case MoveOne => MoveHead(s, u)
    case RollBack => RollBackCall(s, u)
  }

  /** When an action can happen, and what it does.  An action that cannot happen does nothing,
      so every sequence of actions is a run. */
  predicate Enabled(s: Stream, a: Action) {
    match a
    case Thread(t) => CanThread(s, t)
    case Caller(u, c) => u < |s.calls| && CanCall(s, u, c)
  }

  function Apply(s: Stream, a: Action): Stream {
    if !Enabled(s, a) then s
    else match a
         case Thread(t) => StepThread(s, t)
         case Caller(u, c) => StepCall(s, u, c)
  }

  function Exec(s: Stream, run: seq<Action>): Stream {
    if run == [] then s else Apply(Exec(s, run[..|run| - 1]), run[|run| - 1])
  }

  /** The state a stream with `n` callers reaches after its initialization. */
  function Reached(cfg: Config, n: nat, run: seq<Action>): Stream { Exec(Init(cfg, n), run) }
}
