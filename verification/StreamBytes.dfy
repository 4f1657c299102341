/** The bytes a list of items stands for. */
module StreamBytes {
  import opened Basics
  import opened QueuedStream
  import opened StreamConservation

  /** The bytes in the windows of the listed items. */
  function Bytes(xfers: seq<Xfer>, list: seq<nat>): seq<Byte> {
    if list == [] then []
    else (if list[0] < |xfers| then Window(xfers[list[0]]) else []) + Bytes(xfers, list[1..])
  }

  /** The head's bytes come first, also when the list is continued. */
  lemma BytesHead(xfers: seq<Xfer>, a: seq<nat>, b: seq<nat>) returns (w: seq<Byte>)
    requires a != []
    ensures Bytes(xfers, a) == w + Bytes(xfers, a[1..]) && Bytes(xfers, a + b) == w + Bytes(xfers, a[1..] + b)
  {
    assert (a + b)[1..] == a[1..] + b;
    w := if a[0] < |xfers| then Window(xfers[a[0]]) else [];
  }

  lemma Associative(all: seq<Byte>, ab: seq<Byte>, a: seq<Byte>, b: seq<Byte>, bc: seq<Byte>, c: seq<Byte>)
    requires all == a + bc && bc == b + c && ab == a + b
    ensures all == ab + c
  {
  }

  lemma {:induction false} BytesAppend(xfers: seq<Xfer>, a: seq<nat>, b: seq<nat>)
    ensures Bytes(xfers, a + b) == Bytes(xfers, a) + Bytes(xfers, b)
  {
    if a == [] {
      assert a + b == b;
    } else {
      BytesAppend(xfers, a[1..], b);
      var w := BytesHead(xfers, a, b);
      Associative(Bytes(xfers, a + b), Bytes(xfers, a), w, Bytes(xfers, a[1..]),
                  Bytes(xfers, a[1..] + b), Bytes(xfers, b));
    }
  }

  lemma BytesOne(xfers: seq<Xfer>, i: nat)
    requires i < |xfers|
    ensures Bytes(xfers, [i]) == Window(xfers[i])
  {
    assert [i][1..] == [];
  }

  /** Writing an item that is not on a list does not change the bytes of the list. */
  lemma {:induction false} BytesFrame(xfers: seq<Xfer>, list: seq<nat>, i: nat, x: Xfer)
    requires i < |xfers| && i !in list
    ensures Bytes(xfers[i := x], list) == Bytes(xfers, list)
  {
    if list != [] { BytesFrame(xfers, list[1..], i, x); }
  }

  /** An item is not in two places at once. */
  predicate Apart(s: Stream, i: nat) {
    && (i in s.lists.finished ==> i !in s.lists.temp && i !in s.lists.pending && i !in s.lists.queued)
    && (i in s.lists.temp ==> i !in s.lists.pending && i !in s.lists.queued)
    && (i in s.lists.pending ==> i !in s.lists.queued)
    && forall u :: 0 <= u < |s.calls| && i in s.calls[u].staged ==>
         i !in s.lists.finished && i !in s.lists.temp && i !in s.lists.pending && i !in s.lists.queued
  }

  lemma ItemsApart(s: Stream, i: nat)
    requires Conserved(s)
    ensures Apart(s, i)
  {
    assert Occurrences(s, i) <= 1;
    if i in s.lists.finished { Occurs(s.lists.finished, i); }
    if i in s.lists.temp { Occurs(s.lists.temp, i); }
    if i in s.lists.pending { Occurs(s.lists.pending, i); }
    if i in s.lists.queued { Occurs(s.lists.queued, i); }
    forall u | 0 <= u < |s.calls| && i in s.calls[u].staged
      ensures On(s.calls[u].staged, i) > 0 && OnCalls(s.calls, i) > 0
    {
      Occurs(s.calls[u].staged, i);
      CallShare(s.calls, u, i);
    }
  }

  /** The head of a list of distinct items does not occur again. */
  lemma HeadOnce(list: seq<nat>)
    requires list != [] && On(list, list[0]) <= 1
    ensures list[0] !in list[1..]
  {
    if list[0] in list[1..] { Occurs(list[1..], list[0]); }
  }
}
