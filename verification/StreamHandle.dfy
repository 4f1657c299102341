/** KSTM_HANDLE_INTERNAL as an object.  Each method is one section of the stream source, with its
    loops and branches, and is proved to do what the matching steps of the state machine do. */
module StreamHandle {
  import opened Basics
  import opened QueuedStream
  import opened StreamDrain

  /** How the alertable wait of Stm_Thread_ProcessPending ends. */
  datatype WaitResult = Signalled | TimedOut | UserApc

  class Handle {
    const cfg: Config
    var xferItems: seq<Xfer>
    var list: Lists
    var mail: Mail
    var gate: Gate
    var thread: ThreadInfo
    var calls: seq<Call>
    ghost var entered: seq<Byte>
    ghost var departed: seq<Byte>

    ghost function View(): Stream
      reads this
    {
      Stream(cfg, xferItems, list, mail, gate, thread, calls, entered, departed)
    }

    /** The list part of StmK_Init. */
    constructor (cfg: Config, n: nat)
      ensures View() == Init(cfg, n)
    {
      var zeroes: seq<Byte> := seq(cfg.capacity, _ => 0);
      this.cfg := cfg;
      gate := Gate(if cfg.timed && !cfg.isRead then cfg.items else 0, None);
      mail, thread, calls := Mail([], [], 0), ThreadInfo(Stopped, NoThread, 0, 0, false), seq(n, _ => IDLE);
      entered, departed := [], [];
      xferItems, list := seq(cfg.items, _ => Xfer(zeroes, 0, cfg.capacity, 0)), Lists([], [], [], []);
      new;
      for index := 0 to cfg.items
        invariant list == if cfg.isRead then Lists(Identity(index), [], [], []) else Lists([], [], Identity(index), [])
        modifies this`list
      {
        if cfg.isRead {
          list := list.(queued := list.queued + [index]);
        } else {
          list := list.(finished := list.finished + [index]);
        }
      }
    }

    method ReleaseSemaphore(count: nat)
      modifies this`gate
      ensures gate == Release(cfg, old(gate), count)
    {
      if cfg.timed && count > 0 && gate.sem + count <= cfg.items { gate := gate.(sem := gate.sem + count); }
    }

    /** Stm_SynchronizeFinishedList; with `force` the caller has spun until the lock is free. */
    method SynchronizeFinishedList(force: bool, finishedXferItem: seq<nat>) returns (success: bool)
      requires force ==> gate.lock == None
      modifies this`list, this`gate
      ensures success == (old(gate.lock) == None)
      ensures View() == if success then Synchronize(old(View()), finishedXferItem) else old(View())
    {
      if gate.lock != None { return false; }
      var semCount := 0;
      while list.temp != []
        invariant list.queued == old(list.queued) && list.pending == old(list.pending)
        invariant list.finished + list.temp == old(list.finished + list.temp)
        invariant semCount + |list.temp| == |old(list.temp)|
        decreases |list.temp|
        modifies this`list
      {
        semCount := semCount + 1;
        var xferEL := list.temp[0];
        list := list.(temp := list.temp[1..]);
        list := list.(finished := list.finished + [xferEL]);
      }
      assert list.finished == old(list.finished) + old(list.temp);
      list := list.(finished := list.finished + finishedXferItem);
      ReleaseSemaphore(semCount + |finishedXferItem|);
      return true;
    }

    /** Stm_TransferListAPC or Stm_StopAPC for the oldest APC of the thread. */
    method RunApc()
      requires mail.apcs != []
      modifies this`mail, this`list
      ensures View() == DeliverHead(old(View()))
    {
      var apc := mail.apcs[0];
      mail := mail.(apcs := mail.apcs[1..]);
      match apc
      case StopApc =>
      case Submit(submitted) =>
        AppendToQueued(submitted);
        mail := mail.(count := mail.count - 1);
    }

    /** The loop that moves a submit list to the end of Queued item by item. */
    method AppendToQueued(submitted: seq<nat>)
      modifies this`list
      ensures list == old(list).(queued := old(list).queued + submitted)
    {
      var xferSubmitList := submitted;
      while xferSubmitList != []
        invariant list.queued + xferSubmitList == old(list.queued) + submitted
        invariant list == old(list).(queued := list.queued)
        decreases |xferSubmitList|
      {
        var xferEL := xferSubmitList[0];
        xferSubmitList := xferSubmitList[1..];
        list := list.(queued := list.queued + [xferEL]);
      }
      assert list.queued == old(list.queued) + submitted;
    }

    /** Stm_Thread_ProcessQueued; `accepted` is the verdict of the submit callback. */
    method ProcessQueued(accepted: bool)
      requires CanThread(View(), SubmitNext(accepted))
      modifies this
      ensures View() == StepThread(old(View()), SubmitNext(accepted))
    {
      if thread.freeSlots == 0 || list.queued == [] {
        thread := thread.(pc := Waiting);
      } else {
        SubmitQueued(accepted);
      }
    }

    /** Lines 284-316: every submission starts from the whole buffer. */
    method SubmitQueued(accepted: bool)
      requires list.queued != [] && thread.freeSlots > 0 && list.queued[0] < |xferItems|
      modifies this
      ensures View() == SubmitHead(old(View()), accepted)
    {
      var xferNext := list.queued[0];
      list := list.(queued := list.queued[1..]);
      thread := thread.(freeSlots := thread.freeSlots - 1);
      var x := xferItems[xferNext];
      x := x.(start := 0, size := |x.data|);
      if cfg.isRead { x := x.(len := |x.data|); }
      xferItems := xferItems[xferNext := x];
      if !accepted {
        thread := thread.(freeSlots := thread.freeSlots + 1, pc := Leaving);
        list := list.(queued := [xferNext] + list.queued);
        assert list.queued == old(list.queued);
      } else {
        thread := thread.(pendingIO := thread.pendingIO + 1);
        list := list.(pending := list.pending + [xferNext]);
        if !cfg.isRead { departed := departed + Window(x); }
      }
    }

    /** The completion half of Stm_Thread_ProcessPending. */
    method CompletePending(valid: bool, data: seq<Byte>, len: nat)
      requires list.pending != [] && list.pending[0] < |xferItems|
      modifies this
      ensures View() == CompleteHead(old(View()), valid, data, len)
    {
      var xferNext := list.pending[0];
      list := list.(pending := list.pending[1..]);
      xferItems := xferItems[xferNext := xferItems[xferNext].(data := data, len := len)];
      thread := thread.(freeSlots := thread.freeSlots + 1, pendingIO := thread.pendingIO - 1);
      if !valid {
        list := list.(queued := list.queued + [xferNext]);
      } else {
        if cfg.isRead { entered := entered + Window(xferItems[xferNext]); }
        var success := SynchronizeFinishedList(false, [xferNext]);
        if !success { list := list.(temp := list.temp + [xferNext]); }
      }
    }

    /** Lines 864-888: copy from the window of an item; what is left of it stays in the list. */
    method CopyOut(call: Call, xferEL: nat, xfer: Xfer) returns (c: Call, x: Xfer, whole: bool)
      ensures Round(c, x, whole) == ReadRound(call, xferEL, xfer, false)
    {
      c, x := call.(first := false), xfer;
      var stageSize := if c.length > x.len then x.len else c.length;
      c := c.(length := c.length - stageSize);
      c := c.(copied := c.copied + Prefix(Window(x), stageSize));
      whole := x.len - stageSize == 0;
      if whole {
        c := c.(staged := c.staged + [xferEL]);
      } else {
        c := c.(backup := Some(Backup(xferEL, x)));
        x := x.(len := x.len - stageSize);
        x := x.(start := x.start + stageSize);
        x := x.(size := x.size - Min(stageSize, x.size));
      }
    }

    /** Lines 986-995: store the next chunk in an item. */
    method CopyIn(call: Call, xferEL: nat, xfer: Xfer) returns (c: Call, x: Xfer)
      ensures Round(c, x, true) == WriteRound(call, xferEL, xfer, false)
    {
      c, x := call.(first := false), xfer;
      var stageSize := Min(if c.length > |x.data| then |x.data| else c.length, |c.src|);
      c := c.(length := c.length - stageSize);
      x := x.(len := stageSize);
      x := x.(data := c.src[..stageSize] + x.data[stageSize..]);
      c := c.(copied := c.copied + c.src[..stageSize]);
      c := c.(src := c.src[stageSize..], staged := c.staged + [xferEL]);
    }

    /** The zero-timeout wait for a further permit at the head of every round but the first. */
    method TakeFurtherPermit(u: nat) returns (dry: bool)
      requires u < |calls|
      modifies this`gate
      ensures dry == (cfg.timed && !calls[u].first && old(gate.sem) == 0)
      ensures gate == if cfg.timed && !calls[u].first && !dry then old(gate).(sem := old(gate.sem) - 1) else old(gate)
    {
      dry := false;
      if cfg.timed && !calls[u].first {
        if gate.sem == 0 { return true; }
        gate := gate.(sem := gate.sem - 1);
      }
    }

    /** The end of a round: the item goes to the submit list of the call or stays, and the lock is
        released when the loop is over. */
    method FileRound(u: nat, call: Call, x: Xfer, whole: bool)
      requires u < |calls| && list.finished != [] && list.finished[0] < |xferItems|
      modifies this
      ensures View() == Filed(old(View()), u, call, x, whole)
    {
      var c := call;
      xferItems := xferItems[list.finished[0] := x];
      if !whole {
        ReleaseSemaphore(1);
      } else {
        list := list.(finished := list.finished[1..]);
      }
      if !whole || c.length == 0 || list.finished == [] {
        gate := gate.(lock := None);
        c := c.(phase := Staged);
      }
      calls := calls[u := c];
    }

    /** One round of the loops of StmK_Read and StmK_Write over Finished; the locals of the call
        are its entry in `calls`. */
    method StageItem(u: nat)
      requires InPhase(View(), u, Staging) && list.finished != [] && list.finished[0] < |xferItems|
      modifies this
      ensures View() == StageRound(old(View()), u)
    {
      ghost var before := View();
      var dry := TakeFurtherPermit(u);
      if dry {
        gate := gate.(lock := None);
        calls := calls[u := calls[u].(phase := Staged)];
        return;
      }
      var c, x, whole := calls[u], xferItems[list.finished[0]], true;
      if cfg.isRead {
        c, x, whole := CopyOut(c, list.finished[0], x);
      } else {
        c, x := CopyIn(c, list.finished[0], x);
      }
      RoundFiled(before, u, gate, c, x, whole);
      FileRound(u, c, x, whole);
    }

    /** mStm_QueueTransferList for a submit list that the stream does not take by APC. */
    method QueueDirectly(u: nat)
      requires InPhase(View(), u, ToQueue)
      modifies this`list, this`calls
      ensures list == old(list).(queued := old(list).queued + old(calls[u]).staged)
      ensures calls == old(calls)[u := IDLE]
    {
      AppendToQueued(calls[u].staged);
      calls := calls[u := IDLE];
    }

    /** The Error label of StmK_Read and StmK_Write. */
    method RollBack(u: nat)
      requires InPhase(View(), u, RollingBack) && gate.lock == None
      modifies this
      ensures View() == RollBackCall(old(View()), u)
    {
      var xferSubmitList := calls[u].staged;
      if xferSubmitList != [] {
        xferItems := Restore(xferItems, calls[u].backup);
        var iTemp := 0;
        while xferSubmitList != []
          invariant iTemp + |xferSubmitList| == |old(calls[u]).staged|
          invariant Reverse(old(calls[u]).staged) + old(list.finished) == Reverse(xferSubmitList) + list.finished
          invariant list == old(list).(finished := list.finished)
          decreases |xferSubmitList|
          modifies this`list
        {
          iTemp := iTemp + 1;
          var xferEL := xferSubmitList[0];
          assert Reverse(xferSubmitList) + list.finished == Reverse(xferSubmitList[1..]) + ([xferEL] + list.finished);
          xferSubmitList := xferSubmitList[1..];
          list := list.(finished := [xferEL] + list.finished);
        }
        assert Reverse([]) + list.finished == list.finished;
        ReleaseSemaphore(iTemp);
      }
      calls := calls[u := IDLE];
    }

    /** SleepEx: every APC queued so far runs. */
    method SleepEx() returns (ghost run: seq<Action>)
      requires thread.pc == Draining && Counted(View())
      modifies this`mail, this`list
      ensures View() == Exec(old(View()), run) && OfThread(run) && Counted(View())
      ensures mail.apcs == [] && mail.lost == old(mail.lost) && list.pending == old(list.pending)
    {
      run := [];
      while mail.apcs != []
        invariant list.pending == old(list.pending) && mail.lost == old(mail.lost) && Counted(View())
        invariant View() == Exec(old(View()), run) && OfThread(run)
        decreases |mail.apcs|
      {
        ghost var before := View();
        RunApc();
        ThreadCounted(before, Deliver);
        run := Extend(old(View()), run, Deliver);
      }
    }

    /** The wait is over, or there was none: the head of the pending list completes in any way. */
    method CompleteAny() returns (ghost t: ThreadAction)
      requires CanDrain() && list.pending != []
      modifies this
      ensures DrainStep(old(View()), Thread(t)) && View() == StepThread(old(View()), t)
    {
      var valid: bool := *;
      var i := list.pending[0];
      var data: seq<Byte>, len: nat :| |data| == |xferItems[i].data| && len <= |data|;
      CompletePending(valid, data, len);
      t := Complete(valid, true, data, len);
    }

    /** Stm_Thread_ProcessPending while draining, with the reaction to a timeout.  The wait, when there
        is one, and the completion turn out any way they like; a wait that ends with a user APC has run
        the APCs queued. */
    method ProcessPending() returns (ghost run: seq<Action>)
      requires CanDrain() && list.pending != []
      modifies this
      ensures CanDrain() && Work(View()) < old(Work(View()))
      ensures View() == Exec(old(View()), run) && OfThread(run)
    {
      var result: WaitResult := *;
      if !thread.noWaiting && result == UserApc && mail.apcs != [] {
        run := WokenByApc();
      } else {
        ghost var before := View();
        ghost var t := TimeOutOrComplete(result);
        DrainStepKept(before, t);
        run := Extend(before, [], t);
      }
    }

    method WokenByApc() returns (ghost run: seq<Action>)
      requires CanDrain() && mail.apcs != []
      modifies this`mail, this`list
      ensures CanDrain() && Work(View()) < old(Work(View()))
      ensures View() == Exec(old(View()), run) && OfThread(run)
    {
      run := SleepEx();
    }

    method TimeOutOrComplete(result: WaitResult) returns (ghost t: ThreadAction)
      requires CanDrain() && list.pending != []
      modifies this
      ensures DrainStep(old(View()), Thread(t)) && View() == StepThread(old(View()), t)
    {
      if !thread.noWaiting && result == TimedOut {
        thread := thread.(noWaiting := true);
        t := GiveUpWaiting;
      } else {
        t := CompleteAny();
      }
    }

    /** One round of the drain loop. */
    method DrainRound() returns (ghost run: seq<Action>)
      requires CanDrain() && (thread.pendingIO > 0 || mail.count > 0)
      modifies this
      ensures CanDrain() && Work(View()) < old(Work(View()))
      ensures View() == Exec(old(View()), run) && OfThread(run)
    {
      run := SleepEx();
      if thread.pendingIO > 0 {
        ghost var more := ProcessPending();
        ExecAppend(old(View()), run, more);
        run := run + more;
      }
    }

    /** The thread drains a stream that has lost no submit list. */
    ghost predicate CanDrain()
      reads this
    {
      Drainable(View())
    }

    /** The drain loop at the end of Stm_ThreadProc.  It ends because every round uses up work. */
    method Drain() returns (ghost run: seq<Action>)
      requires CanDrain()
      modifies this
      ensures thread.pc == Exiting && list.pending == [] && Undelivered(mail.apcs) == []
      ensures View() == Exec(old(View()), run) && OfThread(run)
    {
      run := [];
      while thread.pendingIO > 0 || mail.count > 0
        invariant CanDrain() && View() == Exec(old(View()), run) && OfThread(run)
        decreases Work(View())
      {
        ghost var more := DrainRound();
        ExecAppend(old(View()), run, more);
        run := run + more;
      }
      ghost var before := View();
      thread := thread.(pc := Exiting);
      run := Extend(old(View()), run, DrainDone);
    }
  }

  /** A round of a staging loop once its bytes are copied: `c1` is the call, `x` the item window. */
  function Filed(s: Stream, u: nat, c1: Call, x: Xfer, take: bool): Stream
    requires u < |s.calls| && s.lists.finished != [] && s.lists.finished[0] < |s.xfers|
  {
    var xfers := s.xfers[s.lists.finished[0] := x];
    if !take then
      SetCall(s, u, c1.(phase := Staged)).(xfers := xfers, gate := Release(s.cfg, s.gate, 1).(lock := None))
    else
      var lists := s.lists.(finished := s.lists.finished[1..]);
      if c1.length == 0 || lists.finished == [] then
        SetCall(s, u, c1.(phase := Staged)).(xfers := xfers, lists := lists, gate := s.gate.(lock := None))
      else SetCall(s, u, c1).(xfers := xfers, lists := lists)
  }

  lemma RoundFiled(s: Stream, u: nat, gate: Gate, c1: Call, x: Xfer, take: bool)
    requires u < |s.calls| && s.lists.finished != [] && s.lists.finished[0] < |s.xfers|
    requires !(s.cfg.timed && !s.calls[u].first && s.gate.sem == 0)
    requires gate == if s.cfg.timed && !s.calls[u].first then s.gate.(sem := s.gate.sem - 1) else s.gate
    requires var c, i := s.calls[u], s.lists.finished[0];
             Round(c1, x, take) == if s.cfg.isRead then ReadRound(c, i, s.xfers[i], false)
                 else WriteRound(c, i, s.xfers[i], false)
    ensures StageRound(s, u) == Filed(s.(gate := gate), u, c1, x, take)
  {
  }

  predicate Drainable(s: Stream) {
    && s.thread.pc == Draining && Counted(s) && s.mail.lost == []
    && forall k :: 0 <= k < |s.lists.pending| ==> s.lists.pending[k] < |s.xfers|
  }

  lemma DrainStepKept(s: Stream, t: ThreadAction)
    requires Drainable(s) && DrainStep(s, Thread(t))
    ensures Drainable(StepThread(s, t)) && Work(StepThread(s, t)) < Work(s)
  {
    DrainStepWorks(s, t);
    ThreadCounted(s, t);
  }

  ghost predicate OfThread(run: seq<Action>) { forall k :: 0 <= k < |run| ==> run[k].Thread? }

  function Extend(s: Stream, run: seq<Action>, t: ThreadAction): (r: seq<Action>)
    ensures r == run + [Thread(t)] && Exec(s, r) == Apply(Exec(s, run), Thread(t))
  {
    assert (run + [Thread(t)])[..|run|] == run;
    run + [Thread(t)]
  }

  lemma {:induction false} ExecAppend(s: Stream, a: seq<Action>, b: seq<Action>)
    ensures Exec(s, a + b) == Exec(Exec(s, a), b)
  {
    if b == [] {
      assert a + b == a;
    } else {
      var before := b[..|b| - 1];
      ExecAppend(s, a, before);
      assert (a + b)[..|a + b| - 1] == a + before;
    }
  }
}
