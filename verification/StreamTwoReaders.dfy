/** A run of two readers in which a rollback restores a window that the other reader has emptied. */
module StreamTwoReaders {
  import opened Basics
  import opened QueuedStream
  import opened StreamWitnesses
  import B = StreamReadBytes
  import R = StreamReadRuns
  import S = StreamBytes

  const PAIR := Config(true, 2, 2, 2, false, true)

  /** The second item when half of it has been read, and what was saved of it. */
  const SPLIT := Xfer([3, 4], 1, 1, 1)

  const WHOLE := Filled([3, 4])

  lemma Windows()
    ensures Window(Filled([1, 2])) == [1, 2] && Window(WHOLE) == [3, 4] && Window(SPLIT) == [4]
  {
  }

  lemma HalfRound(c: Call)
    requires c == Call(Staging, 1, [], true, Started, false, [1, 2], [0], None)
    ensures ReadRound(c, 1, WHOLE, false) ==
            Round(Call(Staging, 0, [], true, Started, false, [1, 2, 3], [0], Some(Backup(1, WHOLE))), SPLIT, false)
  {
    Windows();
    var d: seq<Byte> := [3, 4];
    assert d[..1] == [3] && [1, 2] + [3] == [1, 2, 3];
  }

  /** The first reader takes one item and half of the other. */
  lemma FirstReader() returns (run: seq<Action>, s: Stream)
    ensures s == Reached(PAIR, 2, run) && s.thread.state == Started && s.thread.pc == LoopTop
    ensures s == Stream(PAIR, [Filled([1, 2]), SPLIT], Lists([], [], [1], []), Mail([], [], 0), Gate(0, None), s.thread,
                        [Call(Staged, 0, [], true, Started, false, [1, 2, 3], [0], Some(Backup(1, WHOLE))), IDLE],
                        [1, 2, 3, 4], [])
  {
    run, s := TwoReceived(PAIR, 2, [1, 2], [3, 4]);
    assert s.calls == [IDLE, IDLE] && s.entered == [1, 2, 3, 4];
    run, s := BeginRead(PAIR, 2, 0, run, s, 3);
    Windows();
    assert s.lists.finished == [0] + [1];
    run, s := TakeWhole(PAIR, 2, 0, run, s, 0, [1], [1, 2]);
    assert [] + [1, 2] == [1, 2] && [] + [0] == [0];
    assert s.calls == [Call(Staging, 1, [], true, Started, false, [1, 2], [0], None), IDLE];
    run, s := TakeHalf(run, s);
  }

  lemma TakeHalf(run: seq<Action>, s: Stream) returns (run': seq<Action>, s': Stream)
    requires s == Reached(PAIR, 2, run) && s.cfg == PAIR && s.xfers == [Filled([1, 2]), WHOLE]
             && s.lists.finished == [1]
    requires s.calls == [Call(Staging, 1, [], true, Started, false, [1, 2], [0], None), IDLE]
             && s.gate == Gate(0, Some(0))
    ensures s' == Reached(PAIR, 2, run')
    ensures s' == s.(xfers := [Filled([1, 2]), SPLIT], gate := Gate(0, None),
                     calls := [Call(Staged, 0, [], true, Started, false, [1, 2, 3], [0], Some(Backup(1, WHOLE))), IDLE])
  {
    HalfRound(s.calls[0]);
    run', s' := Next(PAIR, 2, run, s, Caller(0, StageOne));
    assert s'.xfers == [Filled([1, 2]), SPLIT];
  }

  /** The second reader takes the other half and is done; the first is about to queue its APC. */
  lemma SecondReader() returns (run: seq<Action>, s: Stream)
    ensures s == Reached(PAIR, 2, run) && s.cfg == PAIR && s.gate == Gate(0, None) && s.lists.finished == []
            && s.lists.temp == []
    ensures s.entered == [1, 2, 3, 4] && s.departed == [4] && s.xfers == [Filled([1, 2]), SPLIT]
    ensures s.calls == [Call(ToApc, 0, [], true, Started, false, [1, 2, 3], [0], Some(Backup(1, WHOLE))), IDLE]
  {
    run, s := FirstReader();
    run, s := Decided(PAIR, 2, 0, run, s);
    var other := s.calls[0];
    assert s.calls == [other, IDLE];
    run, s := BeginRead(PAIR, 2, 1, run, s, 1);
    Windows();
    assert s.lists.finished == [1] + [];
    run, s := TakeWhole(PAIR, 2, 1, run, s, 1, [], [4]);
    run, s := Decided(PAIR, 2, 1, run, s);
    run, s := Queued(PAIR, 2, 1, run, s);
    assert s.calls == [other, IDLE] && s.departed == [] + ([] + [4]);
  }

  /** The first reader's APC is refused and it rolls back.  No call is active, and of the bytes 1 to 4
      that came in, 4 has been returned and 1 and 2 wait in Finished: 3 is gone. */
  lemma TwoReadersLoseByte() returns (run: seq<Action>)
    ensures var s := Reached(PAIR, 2, run);
            && s.entered == [1, 2, 3, 4] && s.departed == [4] && s.calls == [IDLE, IDLE]
            && s.lists.finished + s.lists.temp == [0] && |s.xfers| > 0 && Window(s.xfers[0]) == [1, 2]
    ensures !B.BytesKept(Reached(PAIR, 2, run)) && !R.FairRollBacks(PAIR, 2, run)
  {
    var s;
    run, s := SecondReader();
    var t := s;
    run, s := Next(PAIR, 2, run, s, Caller(0, QueueApc(false)));
    assert s == t.(calls := t.calls[0 := t.calls[0].(phase := RollingBack)]);
    run, s := RolledBack(PAIR, 2, 0, run, s);
    Reversed(0, 0);
    Windows();
    assert s.lists.finished == [0] + [] && s.calls == [IDLE, IDLE] && s.xfers[0] == Filled([1, 2]);
    ByteGone(s);
    R.BytesKeptExactly(PAIR, 2, run);
  }

  lemma ByteGone(s: Stream)
    requires s.entered == [1, 2, 3, 4] && s.departed == [4] && s.calls == [IDLE, IDLE]
    requires s.lists.finished + s.lists.temp == [0] && |s.xfers| > 0 && Window(s.xfers[0]) == [1, 2]
    ensures !B.BytesKept(s)
  {
    S.BytesOne(s.xfers, 0);
    assert s.calls == seq(2, _ => IDLE);
    B.NoFlights(2);
    assert 3 == s.entered[2] && 3 in multiset(s.entered);
    assert 3 !in multiset(s.departed) && 3 !in B.Waiting(s);
  }
}
