/** The pool of overlapped handles of lusbk_overlapped.c: a list of released and a list of acquired
    elements, and a wait that may cancel, retry and release. */
module OverlappedPool {
  import opened Basics

  /** ReleasedList, AcquiredList and, for each element of MasterArray, whether it has a handle and
      whether IsAcquired is set.  `since` and `clock` are history: when each element was acquired
      last. */
  datatype Pool = Pool(released: seq<nat>, acquired: seq<nat>, hasHandle: seq<bool>, isAcquired: seq<bool>,
                       since: seq<nat>, clock: nat)

  function Ids(n: nat): seq<nat> { seq(n, k requires 0 <= k < n => k) }

  /** OvlK_Init. */
  function Init(n: nat): Pool {
    Pool(Ids(n), [], seq(n, _ => false), seq(n, _ => false), seq(n, _ => 0), 0)
  }

  predicate Shape(p: Pool, n: nat) {
    && |p.hasHandle| == |p.isAcquired| == |p.since| == n
    && (forall i :: 0 <= i < |p.released| ==> p.released[i] < n)
    && (forall i :: 0 <= i < |p.acquired| ==> p.acquired[i] < n)
  }

  /** Outside a call every element is on exactly one of the lists, IsAcquired holds for those on
      AcquiredList, and that list is in the order of acquisition. */
  ghost predicate Sound(p: Pool, n: nat) {
    && Shape(p, n) && multiset(p.released) + multiset(p.acquired) == multiset(Ids(n))
    && (forall k :: 0 <= k < n ==> (p.isAcquired[k] <==> k in p.acquired) && (p.isAcquired[k] ==> p.hasHandle[k]))
    && (forall i, j :: 0 <= i < j < |p.acquired| ==> p.since[p.acquired[i]] < p.since[p.acquired[j]])
    && (forall i :: 0 <= i < |p.acquired| ==> p.since[p.acquired[i]] < p.clock)
  }

  // ---------------------------------------------------------------- acquire and release

  function Without(s: seq<nat>, x: nat): (r: seq<nat>)
    ensures forall k :: 0 <= k < |r| ==> r[k] in s
  {
    if s == [] then [] else if s[0] == x then s[1..] else [s[0]] + Without(s[1..], x)
  }

  /** OvlK_Acquire: the head of ReleasedList goes to the end of AcquiredList.  `ok` says whether a
      handle can be had for an element that has none yet. */
  function AcquireFrom(p: Pool, n: nat, ok: bool): (r: Pool)
    requires Shape(p, n)
    ensures Shape(r, n)
  {
    if p.released == [] || (!p.hasHandle[p.released[0]] && !ok) then p
    else
      var k := p.released[0];
      p.(released := p.released[1..], acquired := p.acquired + [k], hasHandle := p.hasHandle[k := true],
         isAcquired := p.isAcquired[k := true], since := p.since[k := p.clock], clock := p.clock + 1)
  }

  /** OvlK_Release: an acquired element goes to the front of ReleasedList. */
  function ReleaseTo(p: Pool, n: nat, k: nat): (r: Pool)
    requires Shape(p, n)
    ensures Shape(r, n)
  {
    if k < n && p.isAcquired[k] then
      p.(acquired := Without(p.acquired, k), released := [k] + p.released, isAcquired := p.isAcquired[k := false])
    else p
  }

  // ---------------------------------------------------------------- waiting

  type Flags = bv8

  const RELEASE_ON_SUCCESS: Flags := 0x01
  const RELEASE_ON_FAIL: Flags := 0x02
  const CANCEL_ON_TIMEOUT: Flags := 0x04
  const RELEASE_ON_TIMEOUT: Flags := 0x0C
  const RELEASE_ALWAYS: Flags := 0x0F
  const ALERTABLE: Flags := 0x10

  // the Win32 codes OvlK_Wait tells apart
  const ERROR_SUCCESS := 0
  const ERROR_SEM_TIMEOUT := 121
  const WAIT_IO_COMPLETION := 0xC0
  const ERROR_OPERATION_ABORTED := 995
  const ERROR_IO_INCOMPLETE := 996
  const ERROR_CANCELLED := 1223

  /** How one wait for the event ends: a user APC, a timeout, or the error code of the result query
      or of the failed wait. */
  datatype Outcome = Apc | TimedOut | Ended(error: nat)

  /** What the system answers to one call of OvlK_Wait: the first wait, the cancel request and its
      error code, the second wait. */
  datatype Answers = Answers(first: Outcome, cancelled: bool, cancelError: nat, second: Outcome)

  /** Only an alertable wait ends with an APC, and the second wait is not alertable. */
  predicate Plausible(flags: Flags, o: Answers) {
    (o.first.Apc? ==> flags & ALERTABLE != 0) && !o.second.Apc?
  }

  datatype Verdict = Verdict(error: nat, release: bool)

  function Code(o: Outcome, userCancelled: bool): nat {
    match o
    case Apc => WAIT_IO_COMPLETION
    case TimedOut => if userCancelled then ERROR_CANCELLED else ERROR_IO_INCOMPLETE
    case Ended(error) => error
  }

  /** The result of a wait that is not retried. */
  function Judge(flags: Flags, userCancelled: bool, code: nat): Verdict {
    if code == ERROR_SUCCESS then Verdict(code, flags & RELEASE_ON_SUCCESS != 0)
    else if code == ERROR_IO_INCOMPLETE then Verdict(code, flags & RELEASE_ON_TIMEOUT != 0)
    else if code == ERROR_OPERATION_ABORTED || code == ERROR_CANCELLED || code == ERROR_SEM_TIMEOUT then
      Verdict(if userCancelled then ERROR_CANCELLED else ERROR_OPERATION_ABORTED, flags & RELEASE_ON_FAIL != 0)
    else Verdict(code, flags & RELEASE_ON_FAIL != 0)
  }

  /** OvlK_Wait: at most one retry, after a successful cancel. */
  function WaitVerdict(flags: Flags, o: Answers): Verdict {
    var code := Code(o.first, false);
    if o.first.Apc? then Verdict(code, false)
    else if code == ERROR_IO_INCOMPLETE && flags & CANCEL_ON_TIMEOUT != 0 then
      if o.cancelled then Judge(flags ^ CANCEL_ON_TIMEOUT, true, Code(o.second, true))
      else Verdict(o.cancelError, flags & RELEASE_ON_TIMEOUT != 0)
    else Judge(flags, false, code)
  }

  /** The pool after OvlK_Wait on element `k`. */
  function WaitOn(p: Pool, n: nat, k: nat, flags: Flags, o: Answers): (r: Pool)
    requires Shape(p, n)
    ensures Shape(r, n)
  {
    if WaitVerdict(flags, o).release then ReleaseTo(p, n, k) else p
  }

  /** A wait releases whatever the system answers exactly with these flags: release on success, on
      failure and on timeout (bit 3), and not alertable. */
  lemma ReleasesAlways(flags: Flags)
    ensures (forall o :: Plausible(flags, o) ==> WaitVerdict(flags, o).release) <==> flags & 0x1B == 0x0B
  {
    var apc := Answers(Apc, false, 0, TimedOut);
    var success := Answers(Ended(ERROR_SUCCESS), false, 0, TimedOut);
    var failure := Answers(Ended(ERROR_OPERATION_ABORTED), false, 0, TimedOut);
    var incomplete := Answers(TimedOut, true, 0, Ended(ERROR_IO_INCOMPLETE));
    Bits(flags);
    if forall o :: Plausible(flags, o) ==> WaitVerdict(flags, o).release {
      assert flags & ALERTABLE != 0 ==> Plausible(flags, apc) && !WaitVerdict(flags, apc).release;
      assert Plausible(flags, success) && Plausible(flags, failure) && Plausible(flags, incomplete);
    }
  }

  lemma Bits(f: Flags)
    ensures f & 0x1B == 0x0B <==>
            f & RELEASE_ON_SUCCESS != 0 && f & RELEASE_ON_FAIL != 0 && f & 0x08 != 0 && f & ALERTABLE == 0
    ensures f & CANCEL_ON_TIMEOUT != 0 ==> f & RELEASE_ON_TIMEOUT != 0
    ensures f & CANCEL_ON_TIMEOUT != 0 ==> ((f ^ CANCEL_ON_TIMEOUT) & RELEASE_ON_TIMEOUT != 0 <==> f & 0x08 != 0)
    ensures f & CANCEL_ON_TIMEOUT == 0 ==> (f & RELEASE_ON_TIMEOUT != 0 <==> f & 0x08 != 0)
    ensures (f ^ CANCEL_ON_TIMEOUT) & RELEASE_ON_SUCCESS == f & RELEASE_ON_SUCCESS
    ensures (f ^ CANCEL_ON_TIMEOUT) & RELEASE_ON_FAIL == f & RELEASE_ON_FAIL
  {
  }

  /** What a wait that ended at last with the error code `e` reports when the operation had been cancelled
      before or not: aborted, cancelled and timed out operations are reported as one. */
  function Reported(e: nat, cancelled: bool): nat {
    if e == 995 || e == 1223 || e == 121 then if cancelled then 1223 else 995 else e
  }

  /** The wait timed out, or the result query says that the operation is still pending. */
  predicate Pending(o: Outcome) { o == TimedOut || o == Ended(996) }

  /** For all flags and answers: a user APC ends the wait and releases nothing; a success releases
      exactly with bit 0, a failure exactly with bit 1.  A timeout without bit 2 releases exactly with
      bit 3.  With bit 2 the operation is cancelled: if that fails the handle is released, otherwise
      the second wait decides likewise, and ERROR_CANCELLED takes the place of ERROR_OPERATION_ABORTED
      and of a second timeout. */
  lemma WaitOutcomes(flags: Flags, o: Answers)
    requires Plausible(flags, o)
    ensures o.first == Apc ==> WaitVerdict(flags, o) == Verdict(0xC0, false)
    ensures o.first == Ended(0) ==> WaitVerdict(flags, o) == Verdict(0, flags & 0x01 != 0)
    ensures forall e :: o.first == Ended(e) && e != 0 && e != 996 ==>
              WaitVerdict(flags, o) == Verdict(Reported(e, false), flags & 0x02 != 0)
    ensures Pending(o.first) && flags & 0x04 == 0 ==> WaitVerdict(flags, o) == Verdict(996, flags & 0x08 != 0)
    ensures Pending(o.first) && flags & 0x04 != 0 && !o.cancelled ==>
              WaitVerdict(flags, o) == Verdict(o.cancelError, true)
    ensures Pending(o.first) && flags & 0x04 != 0 && o.cancelled ==>
              && (o.second == Ended(0) ==> WaitVerdict(flags, o) == Verdict(0, flags & 0x01 != 0))
              && (o.second == TimedOut ==> WaitVerdict(flags, o) == Verdict(1223, flags & 0x02 != 0))
              && (o.second == Ended(996) ==> WaitVerdict(flags, o) == Verdict(996, flags & 0x08 != 0))
              && (forall e :: o.second == Ended(e) && e != 0 && e != 996 ==>
                    WaitVerdict(flags, o) == Verdict(Reported(e, true), flags & 0x02 != 0))
  {
    Bits(flags);
  }

  /** RELEASE_ON_TIMEOUT alone is documented to release after a timeout; it does so exactly when the
      cancel request fails or the result is still incomplete after it. */
  lemma TimeoutRelease(o: Answers)
    requires !o.first.Apc? && Code(o.first, false) == ERROR_IO_INCOMPLETE && !o.second.Apc?
    ensures WaitVerdict(RELEASE_ON_TIMEOUT, o).release <==> !o.cancelled || Code(o.second, true) == ERROR_IO_INCOMPLETE
  {
    Bits(RELEASE_ON_TIMEOUT);
  }

  /** CANCEL_ON_TIMEOUT alone is documented not to release; it does exactly when a cancel request
      fails. */
  lemma CancelRelease(o: Answers)
    requires !o.first.Apc? && !o.second.Apc?
    ensures WaitVerdict(CANCEL_ON_TIMEOUT, o).release <==> Code(o.first, false) == ERROR_IO_INCOMPLETE && !o.cancelled
  {
    Bits(CANCEL_ON_TIMEOUT);
  }

  // ---------------------------------------------------------------- runs

  datatype Action =
    | Acquire(ok: bool)
    | Release(k: nat)
    | Wait(k: nat, flags: Flags, o: Answers)
    | WaitOldest(flags: Flags, o: Answers)

  function Apply(p: Pool, n: nat, a: Action): (r: Pool)
    requires Shape(p, n)
    ensures Shape(r, n)
  {
    match a
    case Acquire(ok) => AcquireFrom(p, n, ok)
    case Release(k) => ReleaseTo(p, n, k)
    case Wait(k, flags, o) => WaitOn(p, n, k, flags, o)
    case WaitOldest(flags, o) => if p.acquired == [] then p else WaitOn(p, n, p.acquired[0], flags, o)
  }

  function Exec(n: nat, run: seq<Action>): (p: Pool)
    ensures Shape(p, n)
  {
    if run == [] then Init(n) else Apply(Exec(n, run[..|run| - 1]), n, run[|run| - 1])
  }

  /** Taking an element out leaves the others in their order. */
  lemma {:induction false} WithoutOne(s: seq<nat>, x: nat, i: nat)
    requires i < |s| && s[i] == x && forall j :: 0 <= j < i ==> s[j] != x
    ensures Without(s, x) == s[..i] + s[i + 1..]
  {
    if i > 0 {
      WithoutOne(s[1..], x, i - 1);
      assert s[..i] == [s[0]] + s[1..][..i - 1];
    }
  }

  lemma {:induction false} IdsOnce(n: nat, k: nat)
    ensures multiset(Ids(n))[k] == if k < n then 1 else 0
  {
    if n > 0 {
      IdsOnce(n - 1, k);
      assert Ids(n) == Ids(n - 1) + [n - 1];
    }
  }

  /** An element is on one list only, and once. */
  lemma Once(p: Pool, n: nat, k: nat)
    requires Sound(p, n)
    ensures multiset(p.released)[k] + multiset(p.acquired)[k] == if k < n then 1 else 0
  {
    IdsOnce(n, k);
    assert (multiset(p.released) + multiset(p.acquired))[k] == multiset(p.released)[k] + multiset(p.acquired)[k];
  }

  lemma AcquireSound(p: Pool, n: nat, ok: bool)
    requires Sound(p, n)
    ensures Sound(AcquireFrom(p, n, ok), n)
  {
    var r := AcquireFrom(p, n, ok);
    if r != p {
      var k := p.released[0];
      assert p.released == [k] + p.released[1..];
      Once(p, n, k);
      assert k !in p.acquired;
      forall i, j | 0 <= i < j < |r.acquired| ensures r.since[r.acquired[i]] < r.since[r.acquired[j]] {
        assert p.acquired[i] in p.acquired;
        assert j < |p.acquired| ==> p.acquired[j] in p.acquired;
      }
      forall i | 0 <= i < |r.acquired| ensures r.since[r.acquired[i]] < r.clock {
        assert i < |p.acquired| ==> p.acquired[i] in p.acquired;
      }
    }
  }

  /** What is left of AcquiredList when element `k` is taken out of it. */
  lemma Removed(p: Pool, n: nat, k: nat) returns (i: nat)
    requires Sound(p, n) && k < n && p.isAcquired[k]
    ensures i < |p.acquired| && Without(p.acquired, k) == p.acquired[..i] + p.acquired[i + 1..]
    ensures multiset(p.acquired) == multiset(Without(p.acquired, k)) + multiset{k}
    ensures forall m: nat :: m in p.acquired <==> m in Without(p.acquired, k) || m == k
    ensures k !in Without(p.acquired, k)
  {
    Once(p, n, k);
    i :| 0 <= i < |p.acquired| && p.acquired[i] == k;
    assert forall j :: 0 <= j < i ==> p.since[p.acquired[j]] < p.since[k];
    WithoutOne(p.acquired, k, i);
    Parted(p.acquired, i);
  }

  lemma ReleaseSound(p: Pool, n: nat, k: nat)
    requires Sound(p, n)
    ensures Sound(ReleaseTo(p, n, k), n)
  {
    if k < n && p.isAcquired[k] {
      var i := Removed(p, n, k);
      Shifted(p, n, i, Without(p.acquired, k));
      Together(p.released, p.acquired, Without(p.acquired, k), k);
    }
  }

  lemma Together(released: seq<nat>, acquired: seq<nat>, rest: seq<nat>, k: nat)
    requires multiset(acquired) == multiset(rest) + multiset{k}
    ensures multiset([k] + released) + multiset(rest) == multiset(released) + multiset(acquired)
  {
  }

  /** The order of acquisition survives the removal of an element. */
  lemma Shifted(p: Pool, n: nat, i: nat, rest: seq<nat>)
    requires Sound(p, n) && i < |p.acquired| && rest == p.acquired[..i] + p.acquired[i + 1..]
    ensures forall a :: 0 <= a < |rest| ==> rest[a] < n && p.since[rest[a]] < p.clock
    ensures forall a, b :: 0 <= a < b < |rest| ==> p.since[rest[a]] < p.since[rest[b]]
  {
    forall a | 0 <= a < |rest| ensures rest[a] == p.acquired[if a < i then a else a + 1] {}
  }

  lemma Parted(s: seq<nat>, i: nat)
    requires i < |s|
    ensures multiset(s) == multiset(s[..i] + s[i + 1..]) + multiset{s[i]}
    ensures forall x :: x in s <==> x in s[..i] + s[i + 1..] || x == s[i]
  {
    assert s == s[..i] + [s[i]] + s[i + 1..];
  }

  lemma WaitSound(p: Pool, n: nat, k: nat, flags: Flags, o: Answers)
    requires Sound(p, n)
    ensures Sound(WaitOn(p, n, k, flags, o), n)
  {
    var release := WaitVerdict(flags, o).release;
    if release { ReleaseSound(p, n, k); }
  }

  lemma ApplySound(p: Pool, n: nat, a: Action)
    requires Sound(p, n)
    ensures Sound(Apply(p, n, a), n)
  {
    match a
    case Acquire(ok) => AcquireSound(p, n, ok);
    case Release(k) => ReleaseSound(p, n, k);
    case Wait(k, flags, o) => WaitSound(p, n, k, flags, o);
    case WaitOldest(flags, o) => if p.acquired != [] { WaitSound(p, n, p.acquired[0], flags, o); }
  }

  lemma InitSound(n: nat)
    ensures Sound(Init(n), n)
  {
    assert multiset(Ids(n)) + multiset([]) == multiset(Ids(n));
  }

  /** Every run of acquire, release and wait calls keeps the lists, the flags and the order. */
  lemma {:induction false} AlwaysSound(n: nat, run: seq<Action>)
    ensures Sound(Exec(n, run), n)
  {
    if run == [] {
      InitSound(n);
    } else {
      AlwaysSound(n, run[..|run| - 1]);
      ApplySound(Exec(n, run[..|run| - 1]), n, run[|run| - 1]);
    }
  }

  /** OvlK_WaitOldest picks the acquired handle whose acquisition is the longest ago. */
  lemma OldestIsFirst(n: nat, run: seq<Action>, k: nat)
    requires k < n && Exec(n, run).isAcquired[k]
    ensures var p := Exec(n, run);
            p.acquired != [] && p.acquired[0] < n && p.isAcquired[p.acquired[0]] && p.since[p.acquired[0]] <= p.since[k]
  {
    var p := Exec(n, run);
    AlwaysSound(n, run);
    assert k in p.acquired && p.acquired[0] in p.acquired;
    var i :| 0 <= i < |p.acquired| && p.acquired[i] == k;
    if i > 0 { assert p.since[p.acquired[0]] < p.since[p.acquired[i]]; }
  }

  /** OvlK_WaitAndRelease on an acquired handle puts it at the head of ReleasedList, whatever the
      wait, the cancel request and the result query answer. */
  lemma WaitAndRelease(n: nat, run: seq<Action>, k: nat, o: Answers)
    requires k < n && Exec(n, run).isAcquired[k] && Plausible(RELEASE_ALWAYS, o)
    ensures var p, r := Exec(n, run), Apply(Exec(n, run), n, Wait(k, RELEASE_ALWAYS, o));
            r.released == [k] + p.released && !r.isAcquired[k] && k !in r.acquired && |r.acquired| == |p.acquired| - 1
  {
    var p := Exec(n, run);
    AlwaysSound(n, run);
    AlwaysSound(n, run + [Wait(k, RELEASE_ALWAYS, o)]);
    assert (run + [Wait(k, RELEASE_ALWAYS, o)])[..|run|] == run;
    Bits(RELEASE_ALWAYS);
    ReleasesAlways(RELEASE_ALWAYS);
    var i := Removed(p, n, k);
  }

  /** OvlK_WaitOldest with RELEASE_ALWAYS puts the handle whose acquisition is the longest ago, and no
      other, at the head of ReleasedList. */
  lemma OldestReleased(n: nat, run: seq<Action>, k: nat, o: Answers)
    requires k < n && Exec(n, run).isAcquired[k] && Plausible(RELEASE_ALWAYS, o)
    requires forall j :: 0 <= j < n && Exec(n, run).isAcquired[j] ==> Exec(n, run).since[k] <= Exec(n, run).since[j]
    ensures var p, r := Exec(n, run), Apply(Exec(n, run), n, WaitOldest(RELEASE_ALWAYS, o));
            r.released == [k] + p.released && !r.isAcquired[k] && |r.acquired| == |p.acquired| - 1
  {
    var p := Exec(n, run);
    AlwaysSound(n, run);
    OldestIsFirst(n, run, k);
    forall i | 0 < i < |p.acquired| ensures p.acquired[i] != k {
      assert p.since[p.acquired[0]] < p.since[p.acquired[i]];
    }
    WaitAndRelease(n, run, k, o);
  }

  // ---------------------------------------------------------------- the code

  class OvlPool {
    const n: nat
    var released: seq<nat>
    var acquired: seq<nat>
    var hasHandle: seq<bool>
    var isAcquired: seq<bool>
    ghost var since: seq<nat>
    ghost var clock: nat

    ghost function View(): Pool
      reads this
    {
      Pool(released, acquired, hasHandle, isAcquired, since, clock)
    }

    constructor (n: nat)
      ensures this.n == n && View() == Init(n)
    {
      this.n := n;
      released, acquired, clock := Ids(n), [], 0;
      hasHandle, isAcquired, since := seq(n, _ => false), seq(n, _ => false), seq(n, _ => 0);
    }

    /** OvlK_Acquire. */
    method Acquire(ok: bool) returns (handle: Option<nat>)
      requires Shape(View(), n)
      modifies this
      ensures View() == AcquireFrom(old(View()), n, ok)
      ensures match handle
              case None => released == old(released) && (released == [] || !hasHandle[released[0]])
              case Some(k) => old(released) == [k] + released && acquired == old(acquired) + [k] && isAcquired[k]
    {
      if released == [] { return None; }
      var k := released[0];
      released := released[1..];
      if !hasHandle[k] {
        if !ok {
          released := [k] + released;
          return None;
        }
        hasHandle := hasHandle[k := true];
      } else {
        assert hasHandle[k := true] == hasHandle;
      }
      isAcquired := isAcquired[k := true];
      acquired := acquired + [k];
      since, clock := since[k := clock], clock + 1;
      return Some(k);
    }

    /** OvlK_Release; the exchange of IsAcquired decides. */
    method Release(k: nat) returns (success: bool)
      requires Shape(View(), n) && k < n
      modifies this
      ensures View() == ReleaseTo(old(View()), n, k) && success == old(isAcquired[k])
    {
      success := isAcquired[k];
      isAcquired := isAcquired[k := false];
      if success {
        acquired := Without(acquired, k);
        released := [k] + released;
      } else {
        assert old(isAcquired)[k := false] == old(isAcquired);
      }
    }

    /** OvlK_Wait; `attempts` counts the waits for the event. */
    method Wait(k: nat, flags: Flags, o: Answers) returns (error: nat, ghost attempts: nat)
      requires Shape(View(), n) && k < n && Plausible(flags, o)
      modifies this
      ensures View() == WaitOn(old(View()), n, k, flags, o) && error == WaitVerdict(flags, o).error
      ensures attempts <= 2
    {
      var waitFlags, userCancelled, code := flags, false, 0;
      attempts := 0;
      Bits(flags);
      while true
        invariant View() == old(View())
        invariant if userCancelled then attempts == 1 && waitFlags == flags ^ CANCEL_ON_TIMEOUT
                  else attempts == 0 && waitFlags == flags
        invariant userCancelled ==> flags & CANCEL_ON_TIMEOUT != 0 && !o.first.Apc? && o.cancelled
                                    && Code(o.first, false) == ERROR_IO_INCOMPLETE
        decreases !userCancelled
      {
        attempts := attempts + 1;
        var outcome := if userCancelled then o.second else o.first;
        code := Code(outcome, userCancelled);
        if outcome.Apc? { return code, attempts; }
        if code != ERROR_IO_INCOMPLETE || waitFlags & CANCEL_ON_TIMEOUT == 0 { break; }
        if !o.cancelled {
          code := o.cancelError;
          if waitFlags & RELEASE_ON_TIMEOUT != 0 { var _ := Release(k); }
          return code, attempts;
        }
        waitFlags, userCancelled := waitFlags ^ CANCEL_ON_TIMEOUT, true;
      }
      error := code;
      if code == ERROR_SUCCESS {
        if waitFlags & RELEASE_ON_SUCCESS != 0 { var _ := Release(k); }
      } else if code == ERROR_IO_INCOMPLETE {
        if waitFlags & RELEASE_ON_TIMEOUT != 0 { var _ := Release(k); }
      } else if code == ERROR_OPERATION_ABORTED || code == ERROR_CANCELLED || code == ERROR_SEM_TIMEOUT {
        error := if userCancelled then ERROR_CANCELLED else ERROR_OPERATION_ABORTED;
        if waitFlags & RELEASE_ON_FAIL != 0 { var _ := Release(k); }
      } else if waitFlags & RELEASE_ON_FAIL != 0 {
        var _ := Release(k);
      }
    }

    /** OvlK_WaitOldest. */
    method WaitOldest(flags: Flags, o: Answers) returns (handle: Option<nat>, error: nat)
      requires Shape(View(), n) && Plausible(flags, o)
      modifies this
      ensures View() == Apply(old(View()), n, Action.WaitOldest(flags, o))
      ensures handle == if old(acquired) == [] then None else Some(old(acquired)[0])
      ensures error == if old(acquired) == [] then 259 else WaitVerdict(flags, o).error
    {
      if acquired == [] { return None, 259; }
      var k := acquired[0];
      ghost var attempts;
      error, attempts := Wait(k, flags, o);
      handle := Some(k);
    }
  }
}
