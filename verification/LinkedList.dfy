/** The doubly linked lists of lusbk_linked_list.h: the head's `prev` is the tail, the tail's
    `next` is null.  The macros are methods that keep `nodes`, the sequence they stand for. */
module LinkedList {
  import opened MergeSort

  class Node<T> {
    const val: T
    var next: Node?<T>
    var prev: Node?<T>

    constructor (val: T)
      ensures this.val == val
    {
      this.val := val;
      next, prev := null, null;
    }
  }

  ghost predicate Distinct<T>(s: seq<Node<T>>) {
    forall i, j :: 0 <= i < j < |s| ==> s[i] != s[j]
  }

  class List<T> {
    var head: Node?<T>
    ghost var nodes: seq<Node<T>>

    ghost predicate Valid()
      reads this, nodes
    {
      && Distinct(nodes)
      && (nodes == [] ==> head == null)
      && (nodes != [] ==> head == nodes[0] && nodes[0].prev == nodes[|nodes| - 1] && nodes[|nodes| - 1].next == null)
      && (forall i, j :: 0 <= i < j < |nodes| && j == i + 1 ==> nodes[i].next == nodes[j] && nodes[j].prev == nodes[i])
    }

    constructor ()
      ensures Valid() && nodes == []
    {
      head, nodes := null, [];
    }

    /** DL_PREPEND. */
    method Prepend(add: Node<T>)
      requires Valid() && add !in nodes
      modifies this, add, nodes
      ensures Valid() && nodes == [add] + old(nodes)
    {
      add.next := head;
      if head != null {
        add.prev := head.prev;
        head.prev := add;
      } else {
        add.prev := add;
      }
      head := add;
      nodes := [add] + nodes;
    }

    /** DL_APPEND. */
    method Append(add: Node<T>)
      requires Valid() && add !in nodes
      modifies this, add, nodes
      ensures Valid() && nodes == old(nodes) + [add]
    {
      if head != null {
        add.prev := head.prev;
        head.prev.next := add;
        head.prev := add;
        add.next := null;
      } else {
        head := add;
        head.prev := head;
        head.next := null;
      }
      nodes := nodes + [add];
    }

    /** DL_DELETE as it stands, for a node that need not be in the list: what it writes is read
        off the fields of `del`, wherever they point. */
    method Unlink(del: Node<T>, ghost all: seq<Node<T>>)
      requires del.prev != null && del.prev in all && (del.prev != del && del.next != null ==> del.next in all)
      requires del.prev != del && del == head ==> del.next != null
      requires del.prev != del && del.next == null ==> head != null && head in all
      modifies this`head, all
      ensures head == if old(del.prev) == del then null else if old(head) == del then old(del.next) else old(head)
      ensures forall x <- all :: if x == old(del.prev) && x != del && old(head) != del then x.next == old(del.next)
                                 else x.next == old(x.next)
      ensures forall x <- all :: if old(del.prev) != del
                                    && x == (if old(del.next) == null then old(head) else old(del.next))
                                 then x.prev == old(del.prev) else x.prev == old(x.prev)
    {
      if del.prev == del {
        head := null;
      } else if del == head {
        del.next.prev := del.prev;
        head := del.next;
      } else {
        del.prev.next := del.next;
        if del.next != null {
          del.next.prev := del.prev;
        } else {
          head.prev := del.prev;
        }
      }
    }

    /** DL_DELETE of the head of a longer list: its successor becomes the head. */
    method UnlinkFirst(del: Node<T>, ghost s: seq<Node<T>>, ghost last: Node<T>, ghost next: Node<T>)
      requires del in s && last in s && next in s && head == del && del.prev == last && last != del && del.next == next
      modifies this`head, s
      ensures head == next && next.prev == last
      ensures forall x <- s :: x.next == old(x.next) && (x != next ==> x.prev == old(x.prev))
    {
      Unlink(del, s);
    }

    /** DL_DELETE of the head, which keeps its own links. */
    method DeleteHead(del: Node<T>, ghost rest: seq<Node<T>>)
      requires Valid() && nodes == [del] + rest
      modifies this, nodes
      ensures Valid() && nodes == rest && del.next == old(del.next) && del.prev == old(del.prev)
    {
      ghost var was := nodes;
      Behind(del, rest, was);
      assert was[0] == del && del in was;
      assert del.prev == was[|rest|] && (rest != [] ==> was[|rest|] == rest[|rest| - 1]);
      if del.prev == del {
        Unlink(del, was);
      } else {
        ghost var last, next := rest[|rest| - 1], rest[0];
        assert was[1] == next && was[0].next == was[1];
        UnlinkFirst(del, was, last, next);
        forall i, j | 0 <= i < j < |rest| && j == i + 1 ensures rest[i].next == rest[j] && rest[j].prev == rest[i] {
          assert rest[i] == was[j] && rest[j] == was[j + 1];
        }
      }
      nodes := rest;
    }

    /** DL_DELETE of a node behind the head: its neighbours are tied together, and the head's `prev`
        becomes the new tail if it was the tail. */
    method UnlinkInner(del: Node<T>, ghost s: seq<Node<T>>, ghost first: Node<T>, ghost before: Node<T>,
                       ghost next: Node?<T>)
      requires del in s && before in s && first in s && (next != null ==> next in s)
      requires head == first != del && del.prev == before && before != del && del.next == next
      modifies this`head, s
      ensures head == first && before.next == next
      ensures if next == null then first.prev == before else next.prev == before
      ensures forall x <- s :: x != before ==> x.next == old(x.next)
      ensures forall x <- s :: x != (if next == null then first else next) ==> x.prev == old(x.prev)
    {
      Unlink(del, s);
    }

    /** DL_DELETE of a node behind the head. */
    method DeleteInner(del: Node<T>, ghost k: nat, ghost now: seq<Node<T>>)
      requires Valid() && 0 < k < |nodes| && nodes[k] == del && now == nodes[..k] + nodes[k + 1..]
      modifies this, nodes
      ensures Valid() && nodes == now && del.next == old(del.next) && del.prev == old(del.prev)
    {
      ghost var was := nodes;
      ghost var next := if k + 1 < |was| then was[k + 1] else null;
      assert was[k - 1] in was && was[0] in was && (next != null ==> next in was);
      assert del.prev == was[k - 1] && del.next == next;
      Cut(was, k, now);
      UnlinkInner(del, was, was[0], was[k - 1], next);
      forall i, j | 0 <= i < j < |now| && j == i + 1 ensures now[i].next == now[j] && now[j].prev == now[i] {
        if j < k {
          assert now[i] == was[i] && now[j] == was[j];
        } else if i < k {
          assert now[i] == was[i] && now[j] == was[k + 1];
        } else {
          assert now[i] == was[j] && now[j] == was[j + 1];
        }
      }
      nodes := now;
    }

    /** DL_DELETE of a linked node, which keeps its own links. */
    method Delete(del: Node<T>, ghost k: nat)
      requires Valid() && k < |nodes| && nodes[k] == del
      modifies this, nodes
      ensures Valid() && nodes == old(nodes)[..k] + old(nodes)[k + 1..]
      ensures del.next == old(del.next) && del.prev == old(del.prev)
    {
      ghost var now := nodes[..k] + nodes[k + 1..];
      if del == head {
        assert nodes[0] == nodes[k];
        assert nodes == [del] + now;
        DeleteHead(del, now);
      } else {
        DeleteInner(del, k, now);
      }
    }

    // -------------------------------------------------------------- slots that are deleted again

    /** DL_APPEND as it stands, for a list that need not be well formed. */
    method Attach(add: Node<T>, ghost all: seq<Node<T>>)
      requires add in all && add != head
      requires head != null ==> head in all && head.prev != null && head.prev in all && head.prev != add
      modifies this`head, all
      ensures head == if old(head) == null then add else old(head)
      ensures forall x <- all :: if x == add then x.next == null
                                 else if old(head) != null && x == old(head.prev) then x.next == add
                                 else x.next == old(x.next)
      ensures forall x <- all :: if x == add then x.prev == (if old(head) == null then add else old(head.prev))
                                 else if x == old(head) then x.prev == add
                                 else x.prev == old(x.prev)
    {
      if head != null {
        add.prev := head.prev;
        head.prev.next := add;
        head.prev := add;
        add.next := null;
      } else {
        head := add;
        head.prev := head;
        head.next := null;
      }
    }

    /** The slots `lo` up to `hi` of the list `s` are out: what DL_DELETE left in them. */
    ghost predicate Out(s: seq<Node<T>>, lo: nat, hi: nat)
      requires hi <= |s|
      reads s
    {
      && (forall m :: lo <= m < hi ==> s[m].prev == s[|s| - 1])
      && (forall m, n :: lo <= m < hi && m < n < |s| && n == m + 1 ==> s[m].next == s[n])
    }

    /** DL_DELETE of the head; the slot keeps its links. */
    method TakeHead(ghost first: Node<T>, ghost last: Node<T>, ghost rest: seq<Node<T>>)
      requires Valid() && nodes == [first] + rest && last == nodes[|nodes| - 1]
      modifies this, nodes
      ensures Valid() && nodes == rest && first.prev == last && (rest != [] ==> first.next == rest[0])
    {
      assert nodes[0] == first && (rest != [] ==> nodes[1] == rest[0]);
      DeleteHead(head, rest);
    }

    method TakeSlot(ghost s: seq<Node<T>>, ghost all: set<Node<T>>, ghost j: nat, ghost after: nat)
      requires Valid() && j < |s| && nodes == s[j..] && Out(s, 0, j) && after == j + 1 && Distinct(s)
      requires forall x <- s :: x in all
      modifies this, all
      ensures Valid() && nodes == s[after..] && Out(s, 0, after)
    {
      Rest(s, j, nodes, after);
      TakenApart(s, j, nodes);
      TakeHead(s[j], s[|s| - 1], s[after..]);
    }

    /** Takes the first `k` slots, one after the other. */
    method TakeSlots(k: nat, ghost s: seq<Node<T>>, ghost all: set<Node<T>>)
      requires Valid() && nodes == s && k <= |s| && forall x <- s :: x in all
      modifies this, all
      ensures Valid() && nodes == s[k..] && Out(s, 0, k)
    {
      assert s[0..] == s;
      for j := 0 to k
        invariant Valid() && nodes == s[j..] && Out(s, 0, j)
      {
        TakeSlot(s, all, j, j + 1);
      }
    }

    /** The first `i` of the `k` slots that were out have come back, and slots were left in the list:
        the head's `prev` is the slot that came back last, and the `next` of the slot that was the tail
        leads to the first slot that came back, and from the second return on to one that is still out. */
    ghost predicate Returning(s: seq<Node<T>>, k: nat, i: nat)
      reads this, s
    {
      && i <= k < |s| && Distinct(s) && Out(s, i, k)
      && head == s[k] && head.prev == (if i == 0 then s[|s| - 1] else s[i - 1])
      && s[|s| - 1].next == (if i == 0 then null else if i == 1 then s[0] else s[i])
      && (i > 0 ==> s[i - 1].next == null)
      && (forall m, n :: k <= m < n < |s| && n == m + 1 ==> s[m].next == s[n] && s[n].prev == s[m])
    }

    /** Likewise when no slot was left in the list. */
    ghost predicate ReturningAll(s: seq<Node<T>>, i: nat)
      reads this, s
    {
      && i <= |s| && s != [] && Distinct(s) && Out(s, i, |s|)
      && if i == 0 then head == null else head == s[0] && head.prev == s[i - 1]
    }

    /** DL_DELETE of a slot that is out: its old neighbours are tied together, whatever lies between
        them now, and all other links stay. */
    method DeleteAgain(slot: Node<T>, ghost s: seq<Node<T>>, ghost last: Node<T>, ghost next: Node<T>)
      requires slot in s && last in s && next in s && slot.prev == last && slot.next == next
      requires slot != last && slot != head
      modifies this`head, s
      ensures head == old(head) && last.next == next && next.prev == last
      ensures forall x <- s :: (x != last ==> x.next == old(x.next)) && (x != next ==> x.prev == old(x.prev))
    {
      Unlink(slot, s);
    }

    /** DL_APPEND to a list whose head's `prev` is `end`. */
    method AppendBehind(slot: Node<T>, ghost s: seq<Node<T>>, ghost first: Node<T>, ghost end: Node<T>)
      requires slot in s && first in s && end in s && head == first && first.prev == end && slot != first && slot != end
      modifies this`head, s
      ensures head == first && first.prev == slot && slot.prev == end && end.next == slot && slot.next == null
      ensures forall x <- s :: (x != slot && x != end ==> x.next == old(x.next))
                               && (x != slot && x != first ==> x.prev == old(x.prev))
    {
      Attach(slot, s);
    }

    /** Returns a slot as Stm_Thread_ProcessPending does: DL_DELETE again, then DL_APPEND. */
    method ReturnSlot(slot: Node<T>, ghost s: seq<Node<T>>, ghost k: nat, ghost i: nat, ghost after: nat)
      requires after == i + 1 && after < k && Returning(s, k, i) && slot == s[i]
      modifies this`head, s
      ensures Returning(s, k, after)
    {
      ghost var last, next, first, end := s[|s| - 1], s[after], s[k], if i == 0 then s[|s| - 1] else s[i - 1];
      assert last in s && next in s && first in s && end in s;
      DeleteAgain(slot, s, last, next);
      AppendBehind(slot, s, first, end);
    }

    /** Returns the first or a further slot of a list that was used up. */
    method ReturnSlotAll(slot: Node<T>, ghost s: seq<Node<T>>, ghost i: nat, ghost after: nat)
      requires after == i + 1 && after < |s| && ReturningAll(s, i) && slot == s[i]
      modifies this`head, s
      ensures ReturningAll(s, after)
    {
      ghost var last, next := s[|s| - 1], s[after];
      assert last in s && next in s && s[0] in s && slot.prev == last && slot.next == next;
      DeleteAgain(slot, s, last, next);
      Attach(slot, s);
    }

    method ReturnLastSlot(slot: Node<T>, ghost s: seq<Node<T>>, ghost k: nat, ghost i: nat)
      requires k == i + 1 && Returning(s, k, i) && slot == s[i]
      modifies this, s
      ensures Valid() && nodes == s[k..] + [slot]
    {
      ghost var last, first := s[|s| - 1], s[k];
      assert last in s && first in s;
      DeleteAgain(slot, s, last, first);
      AppendBehind(slot, s, first, last);
      ghost var now := s[k..] + [slot];
      Turn(s, k, i, slot, now);
      nodes := now;
    }

    method ReturnLastSlotAll(slot: Node<T>, ghost s: seq<Node<T>>, ghost i: nat)
      requires |s| == i + 1 && ReturningAll(s, i) && slot == s[i]
      modifies this, s
      ensures Valid() && nodes == [slot]
    {
      assert slot in s && slot.prev == slot;
      Unlink(slot, s);
      Attach(slot, s);
      nodes := [slot];
    }

    /** The returns of `k` slots while others stay in the list. */
    method ReturnSome(k: nat, slots: seq<Node<T>>)
      requires 0 < k && Returning(slots, k, 0)
      modifies this, slots
      ensures Valid() && nodes == slots[k..] + [slots[k - 1]]
    {
      for i := 0 to k - 1
        invariant Returning(slots, k, i)
        modifies this`head, slots
      {
        ReturnSlot(slots[i], slots, k, i, i + 1);
      }
      ReturnLastSlot(slots[k - 1], slots, k, k - 1);
    }

    /** The returns when every slot was out. */
    method ReturnAll(slots: seq<Node<T>>)
      requires ReturningAll(slots, 0)
      modifies this, slots
      ensures Valid() && nodes == [slots[|slots| - 1]]
    {
      for i := 0 to |slots| - 1
        invariant ReturningAll(slots, i)
        modifies this`head, slots
      {
        ReturnSlotAll(slots[i], slots, i, i + 1);
      }
      ReturnLastSlotAll(slots[|slots| - 1], slots, |slots| - 1);
    }

    /** Takes the first `k` slots and returns them in the same order, as the completions of the pending
        list do, with every returned slot deleted once more before it is appended (lines 287, 366 and
        385 of lusbk_queued_stream.c).  All slots that were out but the last one are lost, so every
        slot is kept if and only if one slot was out at a time. */
    method TakeAndReturn(k: nat, slots: seq<Node<T>>)
      requires Valid() && nodes == slots && 0 < k <= |slots|
      modifies this, slots
      ensures Valid() && nodes == slots[k..] + [slots[k - 1]]
      ensures (forall x <- slots :: x in nodes) <==> k == 1
    {
      ghost var all := set x | x in slots;
      TakeSlots(k, slots, all);
      if k < |slots| { ReturnSome(k, slots); } else { ReturnAll(slots); }
      SlotsKept(slots, k, nodes);
    }

    /** As long as one slot is out at a time, any number of rounds keeps every slot. */
    method OneAtATime(rounds: nat, ghost slots: seq<Node<T>>)
      requires Valid() && nodes == slots && slots != []
      modifies this, slots
      ensures Valid() && multiset(nodes) == multiset(slots)
    {
      ghost var all := set x | x in slots;
      for j := 0 to rounds
        invariant Valid() && multiset(nodes) == multiset(slots) && forall x <- nodes :: x in all
      {
        OneRound(slots, all, nodes);
      }
    }

    method OneRound(ghost slots: seq<Node<T>>, ghost all: set<Node<T>>, ghost now: seq<Node<T>>)
      requires Valid() && nodes == now && multiset(now) == multiset(slots) && slots != [] && forall x <- now :: x in all
      modifies this, all
      ensures Valid() && multiset(nodes) == multiset(slots) && forall x <- nodes :: x in all
    {
      SameLength(now, slots);
      assert now[0..] == now;
      var slot: Node<T> := head;
      TakeSlot(now, all, 0, 1);
      if head != null { ReturnLastSlot(slot, now, 1, 0); } else { ReturnLastSlotAll(slot, now, 0); }
      assert nodes == now[1..] + [now[0]];
      OneTurn(now, nodes, all);
    }

    /** Following `next` from the head along the indices `p` of `s`. */
    ghost predicate Leads(s: seq<Node<T>>, p: seq<nat>)
      reads this, s
    {
      && p != [] && (forall j :: 0 <= j < |p| ==> p[j] < |s|) && head == s[p[0]]
      && forall i, j :: 0 <= i < j < |p| && j == i + 1 ==> s[p[i]].next == s[p[j]]
    }

    /** While others are out and some were never taken, the chain of the head leads to a slot that is
        still out exactly from the second return on. */
    lemma OutOnChain(s: seq<Node<T>>, k: nat, i: nat)
      requires Returning(s, k, i) && i < k
      ensures (exists p: seq<nat> :: Leads(s, p) && i <= p[|p| - 1] < k) <==> i >= 2
    {
      if i >= 2 {
        var p := seq(|s| - k, j requires 0 <= j < |s| - k => k + j) + [i];
        assert Leads(s, p);
      } else {
        forall p: seq<nat> | Leads(s, p) ensures !(i <= p[|p| - 1] < k) { ChainEnds(s, k, i, p, |p| - 1); }
      }
    }

    lemma {:induction false} ChainEnds(s: seq<Node<T>>, k: nat, i: nat, p: seq<nat>, j: nat)
      requires Returning(s, k, i) && i < 2 && i < k && Leads(s, p) && j < |p|
      ensures k <= p[j] || p[j] < i
    {
      if j > 0 {
        ChainEnds(s, k, i, p, j - 1);
        assert s[p[j - 1]].next == s[p[j]];
        if k <= p[j - 1] < |s| - 1 { assert s[p[j - 1]].next == s[p[j - 1] + 1]; }
      }
    }

    /** After `k` takes and two returns the head has been taken `j` times: what the takes go on with. */
    ghost predicate TakingOn(s: seq<Node<T>>, k: nat, j: nat)
      reads this, s
    {
      && 3 <= k < |s| && j <= |s| - k && Distinct(s)
      && head == (if k + j < |s| then s[k + j] else s[2]) && head.prev == s[1]
      && s[|s| - 1].next == s[2] && (forall m, n :: k <= m < n < |s| && n == m + 1 ==> s[m].next == s[n])
    }

    method TakeOn(ghost s: seq<Node<T>>, ghost k: nat, ghost j: nat, ghost after: nat)
      requires TakingOn(s, k, j) && after == j + 1 && k + after <= |s|
      modifies this`head, s
      ensures TakingOn(s, k, after)
    {
      var slot: Node<T> := head;
      ghost var next := if k + after < |s| then s[k + after] else s[2];
      assert s[1] in s && s[2] in s && slot in s && next in s && slot.next == next;
      UnlinkFirst(slot, s, s[1], next);
    }

    /** A slot is handed out twice: of `k` slots that are out, two come back, then all slots that were
        never taken are taken, and the head is a slot that is still out. */
    method HandOutTwice(k: nat, slots: seq<Node<T>>) returns (twice: Node?<T>)
      requires Valid() && nodes == slots && 3 <= k < |slots|
      modifies this, slots
      ensures twice == slots[2] == head
    {
      ghost var all := set x | x in slots;
      TakeSlots(k, slots, all);
      ReturnSlot(slots[0], slots, k, 0, 1);
      ReturnSlot(slots[1], slots, k, 1, 2);
      for j := 0 to |slots| - k
        invariant TakingOn(slots, k, j)
        modifies this`head, slots
      {
        TakeOn(slots, k, j, j + 1);
      }
      twice := head;
    }

    /** DL_SEARCH: the first node that `matches`. */
    method Search(matches: Node<T> -> bool) returns (out: Node?<T>, ghost k: nat)
      requires Valid()
      ensures if out == null then forall x <- nodes :: !matches(x) else out in nodes && matches(out)
      ensures k <= |nodes| && forall i :: 0 <= i < k ==> !matches(nodes[i])
      ensures if out == null then k == |nodes| else k < |nodes| && nodes[k] == out
    {
      out, k := head, 0;
      while out != null
        invariant k <= |nodes| && out == (if k < |nodes| then nodes[k] else null)
        invariant forall i :: 0 <= i < k ==> !matches(nodes[i])
        decreases |nodes| - k
      {
        if matches(out) { return; }
        out, k := out.next, k + 1;
      }
    }

    // -------------------------------------------------------------- DL_SORT

    /** The output list under construction: linked from `head` to `tail`, the ends still open. */
    ghost predicate Built(out: seq<Node<T>>, tail: Node?<T>)
      reads this, out
    {
      && Distinct(out)
      && (out == [] ==> head == null && tail == null)
      && (out != [] ==> head == out[0] && tail == out[|out| - 1])
      && (forall i, j :: 0 <= i < j < |out| && j == i + 1 ==> out[i].next == out[j] && out[j].prev == out[i])
    }

    /** Appends `e` to the output, as the end of the merge loop does; of the list `s` being sorted
        only the `next` field of the tail changes. */
    method Link(e: Node<T>, tail: Node?<T>, ghost out: seq<Node<T>>, ghost s: seq<Node<T>>)
      requires Built(out, tail) && e !in out && e in s && forall x <- out :: x in s
      modifies this`head, s
      ensures Built(out + [e], e)
      ensures forall x <- s :: x != tail ==> x.next == old(x.next)
    {
      assert tail != null ==> tail in out;
      if tail != null {
        tail.next := e;
      } else {
        head := e;
      }
      e.prev := tail;
    }

    /** Counts off the left run: at most `insize` nodes from `p`. */
    method CountRun(p: Node<T>, insize: nat, ghost s: seq<Node<T>>, ghost i: nat) returns (q: Node?<T>, psize: nat)
      requires insize > 0 && i < |s| && s[i] == p && Unread(s, i, |s|)
      ensures psize == |Take(s[i..], insize)| && q == At(s, i + psize)
    {
      q, psize := p, 0;
      for n := 0 to insize
        invariant psize == n < |s| - i && q == At(s, i + n)
      {
        psize := psize + 1;
        q := q.next;
        if q == null { break; }
      }
    }

    /** While two runs of `s` are merged the output is linked and the nodes still to come are
        linked as they were. */
    ghost predicate Merging(s: seq<Node<T>>, out: seq<Node<T>>, tail: Node?<T>, pi: nat, psize: nat, qi: nat)
      reads this, s, out
    {
      Parts(s, out, pi, psize, qi) && Built(out, tail) && Unread(s, pi, pi + psize) && Unread(s, qi, |s|)
    }

    /** Appends a node to the output while two runs are merged: what is still to come is linked as before. */
    method LinkAhead(e: Node<T>, tail: Node?<T>, ghost s: seq<Node<T>>, ghost out: seq<Node<T>>, ghost pi: nat,
                     ghost psize: nat, ghost qi: nat, ghost out': seq<Node<T>>, ghost pi': nat, ghost rest: nat,
                     ghost qi': nat)
      requires Merging(s, out, tail, pi, psize, qi) && e in s && e !in out && out' == out + [e]
      requires pi <= pi' && pi' + rest <= pi + psize && qi <= qi' && Parts(s, out', pi', rest, qi')
      modifies this`head, s
      ensures Merging(s, out', e, pi', rest, qi')
    {
      assert tail != null ==> tail == out[|out| - 1];
      Link(e, tail, out, s);
    }

    /** Moves the head `e` of the left run to the output; `next` and `rest` are the node and the
        size of the run after it. */
    method TakeLeft(e: Node<T>, psize: nat, tail: Node?<T>, ghost s: seq<Node<T>>, ghost out: seq<Node<T>>,
                    ghost pi: nat, ghost qi: nat)
      returns (next: Node?<T>, rest: nat, ghost out': seq<Node<T>>, ghost pi': nat)
      requires psize > 0 && Merging(s, out, tail, pi, psize, qi) && s[pi] == e
      modifies this`head, s
      ensures out' == out + [e] && pi' == pi + 1 && rest == psize - 1
      ensures Merging(s, out', e, pi', rest, qi) && next == At(s, pi')
    {
      PartsLeft(s, out, pi, psize, qi);
      next, rest, out', pi' := e.next, psize - 1, out + [e], pi + 1;
      LinkAhead(e, tail, s, out, pi, psize, qi, out', pi', rest, qi);
    }

    /** Moves the head `e` of the right run to the output. */
    method TakeRight(e: Node<T>, qsize: nat, tail: Node?<T>, ghost s: seq<Node<T>>, ghost out: seq<Node<T>>,
                     ghost pi: nat, ghost psize: nat, ghost qi: nat)
      returns (next: Node?<T>, rest: nat, ghost out': seq<Node<T>>, ghost qi': nat)
      requires qi < |s| && qsize > 0 && Merging(s, out, tail, pi, psize, qi) && s[qi] == e
      modifies this`head, s
      ensures out' == out + [e] && qi' == qi + 1 && rest == qsize - 1
      ensures Merging(s, out', e, pi, psize, qi') && next == At(s, qi')
    {
      PartsRight(s, out, pi, psize, qi);
      next, rest, out', qi' := e.next, qsize - 1, out + [e], qi + 1;
      LinkAhead(e, tail, s, out, pi, psize, qi, out', pi, psize, qi');
    }

    /** The inner loop of DL_SORT: merges the run of `psize0` nodes from `p0` with at most `insize`
        nodes from `q0` on. */
    method MergeRuns(cmp: (Node<T>, Node<T>) -> int, p0: Node<T>, psize0: nat, q0: Node?<T>, insize: nat,
                     tail0: Node?<T>, ghost s: seq<Node<T>>, ghost out0: seq<Node<T>>, ghost pi0: nat, ghost qi0: nat)
      returns (q: Node?<T>, tail: Node?<T>, ghost out: seq<Node<T>>, ghost qi: nat)
      requires psize0 > 0 && Merging(s, out0, tail0, pi0, psize0, qi0) && p0 == s[pi0] && q0 == At(s, qi0)
      modifies this`head, s
      ensures q == At(s, qi) && Merging(s, out, tail, qi, 0, qi)
      ensures (out, qi) == ToCome(cmp, s, out0, pi0, psize0, qi0, insize)
    {
      var p: Node?<T>, psize, qsize := p0, psize0, insize;
      ghost var pi: nat, goal := pi0, ToCome(cmp, s, out0, pi0, psize0, qi0, insize);
      q, tail, out, qi := q0, tail0, out0, qi0;
      while psize > 0 || (qsize > 0 && q != null)
        invariant Merging(s, out, tail, pi, psize, qi)
        invariant (psize > 0 ==> p == At(s, pi)) && q == At(s, qi)
        invariant ToCome(cmp, s, out, pi, psize, qi, qsize) == goal
        decreases psize + qsize
      {
        var fromQ := if psize == 0 then true else if qsize == 0 || q == null then false else cmp(p, q) > 0;
        if fromQ {
          var e: Node<T> := q;
          ghost var was := (out, qi, qsize);
          q, qsize, out, qi := TakeRight(e, qsize, tail, s, out, pi, psize, qi);
          MergeRight(cmp, s, was.0, e, pi, psize, was.1, was.2, out, qi, qsize);
          tail := e;
        } else {
          var e: Node<T> := p;
          ghost var was := (out, pi, psize);
          p, psize, out, pi := TakeLeft(e, psize, tail, s, out, pi, qi);
          MergeLeft(cmp, s, was.0, e, was.1, was.2, qi, qsize, out, pi, psize);
          tail := e;
        }
      }
      MergeEnds(cmp, s, out, pi, qi, qsize);
      Finished(s, out, tail, pi, psize, qi);
    }

    /** One round of a pass: the runs that start at `p` are merged. */
    method MergeRound(cmp: (Node<T>, Node<T>) -> int, p: Node<T>, insize: nat, tail0: Node?<T>,
                      ghost s: seq<Node<T>>, ghost out0: seq<Node<T>>, ghost i0: nat)
      returns (q: Node?<T>, tail: Node?<T>, ghost out: seq<Node<T>>, ghost i: nat)
      requires insize > 0 && i0 < |s| && s[i0] == p && Merging(s, out0, tail0, i0, 0, i0)
      modifies this`head, s
      ensures Merging(s, out, tail, i, 0, i) && q == At(s, i) && i0 < i <= |s|
      ensures Ahead(cmp, s, out, i, insize) == Ahead(cmp, s, out0, i0, insize)
      ensures i == if i0 + 2 * insize <= |s| then i0 + 2 * insize else |s|
    {
      var psize;
      q, psize := CountRun(p, insize, s, i0);
      ghost var qi := i0 + psize;
      PartsSplit(s, out0, i0, psize, qi);
      q, tail, out, i := MergeRuns(cmp, p, psize, q, insize, tail0, s, out0, i0, qi);
      PassStep(cmp, s, out0, i0, insize, psize, qi, out, i);
    }

    /** The list as a pass finds it once the head is put aside. */
    method Open(ghost s: seq<Node<T>>) returns (p: Node?<T>)
      requires Valid() && nodes == s && s != []
      modifies this`head
      ensures p == At(s, 0) && Merging(s, [], null, 0, 0, 0)
    {
      p := head;
      PartsBegin(s);
      assert Unread(s, 0, |s|);
      head := null;
    }

    /** Ties the ends of the output of a pass. */
    method Close(tail: Node?<T>, ghost s: seq<Node<T>>, ghost out: seq<Node<T>>)
      requires Built(out, tail) && out != [] && forall x <- out :: x in s
      modifies this, s
      ensures Valid() && nodes == out
    {
      assert out[0] in out && out[|out| - 1] in out;
      head.prev := tail;
      tail.next := null;
      nodes := out;
    }

    /** One pass of DL_SORT over a list that is not empty. */
    method MergePass(cmp: (Node<T>, Node<T>) -> int, insize: nat, ghost s: seq<Node<T>>) returns (nmerges: nat)
      requires Valid() && nodes == s && s != [] && insize > 0
      modifies this, s
      ensures Valid() && nodes == Pass(cmp, s, insize)
      ensures nmerges <= 1 <==> |s| <= 2 * insize
    {
      ghost var i, out: seq<Node<T>> := 0, [];
      ghost var goal := Pass(cmp, s, insize);
      PassBegins(cmp, s, out, i, insize);
      var p := Open(s);
      var tail: Node?<T> := null;
      nmerges := 0;
      while p != null
        invariant i <= |s| && p == At(s, i) && Merging(s, out, tail, i, 0, i)
        invariant Ahead(cmp, s, out, i, insize) == goal
        invariant nmerges == 0 <==> i == 0
        invariant nmerges == 1 ==> i == if 2 * insize <= |s| then 2 * insize else |s|
        invariant nmerges > 1 ==> 2 * insize < |s|
        decreases |s| - i
      {
        nmerges := nmerges + 1;
        p, tail, out, i := MergeRound(cmp, p, insize, tail, s, out, i);
      }
      PassEnds(cmp, s, out, i, insize);
      Close(tail, s, out);
    }

    /** One round of DL_SORT: a pass, and whether another one is needed. */
    method SortRound(cmp: (Node<T>, Node<T>) -> int, insize: nat, ghost s: seq<Node<T>>, ghost all: set<Node<T>>)
      returns (looping: bool, twice: nat)
      requires Valid() && insize > 0 && Sorting(cmp, s, nodes, insize, true) && forall x <- nodes :: x in all
      modifies this, all
      ensures Valid() && twice == 2 * insize && Sorting(cmp, s, nodes, twice, looping)
      ensures (forall x <- nodes :: x in all) && (looping ==> |s| > twice)
    {
      ghost var was := nodes;
      twice := insize * 2;
      SortStep(cmp, s, was, insize, twice);
      var nmerges := MergePass(cmp, insize, was);
      looping := nmerges > 1;
    }

    /** DL_SORT. */
    method SortBy(cmp: (Node<T>, Node<T>) -> int)
      requires Valid()
      modifies this, nodes
      ensures Valid() && nodes == Sort(cmp, old(nodes))
    {
      ghost var s := nodes;
      ghost var all := set x | x in s;
      if head != null {
        var insize, looping := 1, true;
        while looping
          invariant Valid() && insize > 0 && Sorting(cmp, s, nodes, insize, looping) && forall x <- nodes :: x in all
          decreases looping, |s| - insize
          modifies this, all
        {
          looping, insize := SortRound(cmp, insize, s, all);
        }
      } else {
        assert s == [];
      }
    }

    /** A left run that is used up may be counted as used up anywhere before `qi`. */
    lemma Finished(s: seq<Node<T>>, out: seq<Node<T>>, tail: Node?<T>, pi: nat, psize: nat, qi: nat)
      requires Merging(s, out, tail, pi, psize, qi) && psize == 0
      ensures Merging(s, out, tail, qi, 0, qi)
    {
      assert s[pi..pi + psize] == s[qi..qi + 0];
    }
  }

  lemma SameLength<E>(a: seq<E>, b: seq<E>)
    requires multiset(a) == multiset(b)
    ensures |a| == |b|
  {
    assert |multiset(a)| == |a| && |multiset(b)| == |b|;
  }

  lemma OneTurn<E>(s: seq<E>, turned: seq<E>, all: set<E>)
    requires s != [] && turned == s[1..] + [s[0]] && forall x <- s :: x in all
    ensures multiset(turned) == multiset(s) && forall x <- turned :: x in all
  {
    assert s == [s[0]] + s[1..];
    Members(turned, s);
  }

  lemma Rest<E>(s: seq<E>, j: nat, rest: seq<E>, after: nat)
    requires j < |s| && rest == s[j..] && after == j + 1
    ensures rest == [s[j]] + s[after..] && rest[|rest| - 1] == s[|s| - 1]
    ensures s[after..] != [] <==> after < |s|
    ensures after < |s| ==> s[after..][0] == s[after]
  {
  }

  lemma Cut<E>(s: seq<E>, k: nat, now: seq<E>)
    requires k < |s| && now == s[..k] + s[k + 1..]
    ensures |now| == |s| - 1 && forall i :: 0 <= i < k ==> now[i] == s[i]
    ensures forall i, j :: k <= i < |now| && 0 <= j < |s| && j == i + 1 ==> now[i] == s[j]
    ensures now != [] ==> now[|now| - 1] == if k == |s| - 1 then s[|s| - 2] else s[|s| - 1]
    ensures now != [] ==> now[0] == if k == 0 then s[1] else s[0]
  {
  }

  lemma Turn<T>(s: seq<Node<T>>, k: nat, i: nat, slot: Node<T>, now: seq<Node<T>>)
    requires Distinct(s) && k == i + 1 && k < |s| && slot == s[i] && now == s[k..] + [slot]
    ensures |now| == |s| - k + 1 && now[0] == s[k] && now[|now| - 1] == slot && now[|now| - 2] == s[|s| - 1]
            && Distinct(now)
    ensures forall m, n :: 0 <= m < |now| - 1 && k <= n < |s| && n == m + k ==> now[m] == s[n]
  {
  }

  lemma TailDistinct<T>(s: seq<Node<T>>)
    requires Distinct(s) && s != []
    ensures Distinct(s[1..])
  {
  }

  lemma Behind<T>(x: Node<T>, rest: seq<Node<T>>, s: seq<Node<T>>)
    requires s == [x] + rest
    ensures |s| == |rest| + 1 && forall i, j :: 0 <= i < |rest| && 0 <= j < |s| && j == i + 1 ==> rest[i] == s[j]
    ensures Distinct(s) ==> Distinct(rest) && x !in rest
  {
    assert rest == s[1..];
    if Distinct(s) {
      TailDistinct(s);
      assert forall i :: 0 <= i < |rest| ==> rest[i] != s[0];
    }
  }

  lemma SlotsKept<T>(s: seq<Node<T>>, k: nat, now: seq<Node<T>>)
    requires Distinct(s) && 0 < k <= |s| && now == s[k..] + [s[k - 1]]
    ensures (forall x <- s :: x in now) <==> k == 1
  {
    if k == 1 {
      forall x <- s ensures x in now { if x != s[0] { assert x in s[1..]; } }
    } else {
      assert s[0] in s && s[0] !in now;
    }
  }

  lemma TakenApart<T>(s: seq<Node<T>>, j: nat, rest: seq<Node<T>>)
    requires Distinct(s) && j <= |s| && rest == s[j..]
    ensures forall m :: 0 <= m < j ==> s[m] !in rest
  {
  }

  /** The output once the merge under way is done, and where the list goes on then. */
  ghost function ToCome<T>(cmp: (Node<T>, Node<T>) -> int, s: seq<Node<T>>, out: seq<Node<T>>,
                           pi: nat, psize: nat, qi: nat, qsize: nat): (seq<Node<T>>, nat)
    requires pi + psize <= qi <= |s|
  {
    (out + Merge(cmp, s[pi..pi + psize], Take(s[qi..], qsize)), qi + |Take(s[qi..], qsize)|)
  }

  lemma MergeEnds<T>(cmp: (Node<T>, Node<T>) -> int, s: seq<Node<T>>, out: seq<Node<T>>, pi: nat, qi: nat, qsize: nat)
    requires pi <= qi <= |s| && (qsize == 0 || qi == |s|)
    ensures ToCome(cmp, s, out, pi, 0, qi, qsize) == (out, qi)
  {
    assert Take(s[qi..], qsize) == [];
    assert s[pi..pi + 0] == [];
    assert out + [] == out;
  }

  /** The nodes put out and the nodes still to come, `psize` from `pi` on in the left run and all
      from `qi` on, make up the list. */
  ghost predicate Parts<T>(s: seq<Node<T>>, out: seq<Node<T>>, pi: nat, psize: nat, qi: nat) {
    && pi + psize <= qi <= |s| && Distinct(s)
    && (forall j :: 0 <= j < |out| ==> out[j] in s)
    && (forall j, m :: 0 <= j < |out| && pi <= m < pi + psize ==> out[j] != s[m])
    && (forall j, m :: 0 <= j < |out| && qi <= m < |s| ==> out[j] != s[m])
    && multiset(out) + multiset(s[pi..pi + psize]) + multiset(s[qi..]) == multiset(s)
  }

  lemma PartsLeft<T>(s: seq<Node<T>>, out: seq<Node<T>>, pi: nat, psize: nat, qi: nat)
    requires Parts(s, out, pi, psize, qi) && psize > 0
    ensures Parts(s, out + [s[pi]], pi + 1, psize - 1, qi) && s[pi] !in out && s[pi] in s
  {
    assert s[pi..pi + psize] == [s[pi]] + s[pi + 1..pi + psize];
  }

  lemma PartsRight<T>(s: seq<Node<T>>, out: seq<Node<T>>, pi: nat, psize: nat, qi: nat)
    requires Parts(s, out, pi, psize, qi) && qi < |s|
    ensures Parts(s, out + [s[qi]], pi, psize, qi + 1) && s[qi] !in out && s[qi] in s
  {
    assert s[qi..] == [s[qi]] + s[qi + 1..];
  }

  /** The left run is counted off the rest of the list. */
  lemma PartsSplit<T>(s: seq<Node<T>>, out: seq<Node<T>>, i: nat, psize: nat, qi: nat)
    requires Parts(s, out, i, 0, i) && qi == i + psize <= |s|
    ensures Parts(s, out, i, psize, qi)
  {
    SplitCount(out, s, i, psize, qi);
  }

  lemma SplitCount<E>(out: seq<E>, s: seq<E>, i: nat, psize: nat, qi: nat)
    requires qi == i + psize <= |s|
    ensures multiset(out) + multiset(s[i..i + psize]) + multiset(s[qi..])
            == multiset(out) + multiset(s[i..i + 0]) + multiset(s[i..])
  {
    assert s[i..] == s[i..qi] + s[qi..] && s[i..i + 0] == [];
  }

  lemma PartsBegin<T>(s: seq<Node<T>>)
    requires Distinct(s)
    ensures Parts(s, [], 0, 0, 0)
  {
    assert s[0..] == s && s[0..0 + 0] == [];
  }

  /** The outcome of the pass, with `out` put out and the list read up to `i`. */
  ghost function Ahead<T>(cmp: (Node<T>, Node<T>) -> int, s: seq<Node<T>>, out: seq<Node<T>>, i: nat,
                          k: nat): seq<Node<T>>
    requires i <= |s| && k > 0
  {
    out + Pass(cmp, s[i..], k)
  }

  lemma RunsAt<E>(s: seq<E>, i: nat, k: nat, psize: nat, qi: nat, i': nat)
    requires i < |s| && k > 0 && psize == |Take(s[i..], k)| && qi == i + psize
    requires i' == qi + |Take(s[qi..], k)|
    ensures s[i..i + psize] == Take(s[i..], k) && s[qi..] == Drop(s[i..], k)
    ensures s[i'..] == Drop(s[qi..], k)
    ensures i < i' <= |s| && i' == (if i + 2 * k <= |s| then i + 2 * k else |s|)
  {
  }

  lemma PassUnfold<E>(cmp: (E, E) -> int, out: seq<E>, xs: seq<E>, k: nat, ys: seq<E>, rest: seq<E>, m: seq<E>)
    requires xs != [] && k > 0 && ys == Drop(xs, k) && rest == Drop(ys, k)
    requires m == Merge(cmp, Take(xs, k), Take(ys, k))
    ensures (out + m) + Pass(cmp, rest, k) == out + Pass(cmp, xs, k)
  {
    var r := Pass(cmp, rest, k);
    assert Pass(cmp, xs, k) == m + r;
    assert (out + m) + r == out + (m + r);
  }

  lemma PassStep<T>(cmp: (Node<T>, Node<T>) -> int, s: seq<Node<T>>, out: seq<Node<T>>, i: nat, k: nat,
                    psize: nat, qi: nat, out': seq<Node<T>>, i': nat)
    requires i < |s| && k > 0 && psize == |Take(s[i..], k)| && qi == i + psize
    requires (out', i') == ToCome(cmp, s, out, i, psize, qi, k)
    ensures i < i' <= |s| && i' == (if i + 2 * k <= |s| then i + 2 * k else |s|)
    ensures Ahead(cmp, s, out', i', k) == Ahead(cmp, s, out, i, k)
  {
    RunsAt(s, i, k, psize, qi, i');
    PassUnfold(cmp, out, s[i..], k, s[qi..], s[i'..], Merge(cmp, s[i..i + psize], Take(s[qi..], k)));
  }

  lemma PassBegins<T>(cmp: (Node<T>, Node<T>) -> int, s: seq<Node<T>>, out: seq<Node<T>>, i: nat, k: nat)
    requires k > 0 && out == [] && i == 0
    ensures Ahead(cmp, s, out, i, k) == Pass(cmp, s, k)
  {
    assert s[i..] == s;
  }

  lemma PassEnds<T>(cmp: (Node<T>, Node<T>) -> int, s: seq<Node<T>>, out: seq<Node<T>>, i: nat, k: nat)
    requires i == |s| && k > 0 && Ahead(cmp, s, out, i, k) == Pass(cmp, s, k) && s != []
    ensures out == Pass(cmp, s, k) && out != []
  {
    PassKeeps(cmp, s, k);
    assert s[i..] == [] && out + [] == out;
  }

  /** Where DL_SORT of the list `s` has got to: the passes that remain complete the sort. */
  ghost predicate Sorting<T>(cmp: (Node<T>, Node<T>) -> int, s: seq<Node<T>>, now: seq<Node<T>>, insize: nat,
                             looping: bool)
    requires insize > 0
  {
    |now| == |s| > 0 && if looping then Passes(cmp, now, insize) == Sort(cmp, s) else now == Sort(cmp, s)
  }

  lemma SortStep<T>(cmp: (Node<T>, Node<T>) -> int, s: seq<Node<T>>, now: seq<Node<T>>, insize: nat, twice: nat)
    requires insize > 0 && twice == 2 * insize && Sorting(cmp, s, now, insize, true)
    ensures Sorting(cmp, s, Pass(cmp, now, insize), twice, |s| > twice)
    ensures forall x <- Pass(cmp, now, insize) :: x in now
  {
    PassKeeps(cmp, now, insize);
    Members(Pass(cmp, now, insize), now);
  }

  lemma Members<E>(a: seq<E>, b: seq<E>)
    requires multiset(a) == multiset(b)
    ensures forall x <- a :: x in b
  {
    forall x <- a ensures x in b { assert x in multiset(b); }
  }

  lemma LeftWins<E>(cmp: (E, E) -> int, xs: seq<E>, ys: seq<E>)
    requires xs != [] && (ys == [] || cmp(xs[0], ys[0]) <= 0)
    ensures Merge(cmp, xs, ys) == [xs[0]] + Merge(cmp, xs[1..], ys)
  {
    if ys == [] {
      var rest := xs[1..];
      assert Merge(cmp, rest, ys) == rest;
      assert xs == [xs[0]] + rest;
    }
  }

  lemma RightWins<E>(cmp: (E, E) -> int, xs: seq<E>, ys: seq<E>)
    requires ys != [] && (xs == [] || cmp(xs[0], ys[0]) > 0)
    ensures Merge(cmp, xs, ys) == [ys[0]] + Merge(cmp, xs, ys[1..])
  {
    if xs == [] {
      var rest := ys[1..];
      assert Merge(cmp, xs, rest) == rest;
      assert ys == [ys[0]] + rest;
    }
  }

  /** Putting out one node leaves the outcome of the merge as it was. */
  lemma MergeLeft<T>(cmp: (Node<T>, Node<T>) -> int, s: seq<Node<T>>, out: seq<Node<T>>, e: Node<T>,
                     pi: nat, psize: nat, qi: nat, qsize: nat, out': seq<Node<T>>, pi': nat, psize': nat)
    requires 0 < psize && pi + psize <= qi <= |s| && s[pi] == e
    requires qsize == 0 || qi == |s| || cmp(s[pi], s[qi]) <= 0
    requires out' == out + [e] && pi' == pi + 1 && psize' == psize - 1
    ensures ToCome(cmp, s, out, pi, psize, qi, qsize) == ToCome(cmp, s, out', pi', psize', qi, qsize)
  {
    var xs, ys := s[pi..pi + psize], Take(s[qi..], qsize);
    var rest := s[pi'..pi' + psize'];
    assert xs[0] == e && xs[1..] == rest;
    LeftWins(cmp, xs, ys);
    Regroup(out, e, Merge(cmp, rest, ys));
  }

  lemma MergeRight<T>(cmp: (Node<T>, Node<T>) -> int, s: seq<Node<T>>, out: seq<Node<T>>, e: Node<T>,
                      pi: nat, psize: nat, qi: nat, qsize: nat, out': seq<Node<T>>, qi': nat, qsize': nat)
    requires qi < |s| && 0 < qsize && pi + psize <= qi && s[qi] == e
    requires psize == 0 || cmp(s[pi], s[qi]) > 0
    requires out' == out + [e] && qi' == qi + 1 && qsize' == qsize - 1
    ensures ToCome(cmp, s, out, pi, psize, qi, qsize) == ToCome(cmp, s, out', pi, psize, qi', qsize')
  {
    var xs, ys := s[pi..pi + psize], Take(s[qi..], qsize);
    var rest := Take(s[qi'..], qsize');
    assert ys[0] == e && ys[1..] == rest;
    RightWins(cmp, xs, ys);
    Regroup(out, e, Merge(cmp, xs, rest));
  }

  lemma Regroup<E>(out: seq<E>, x: E, m: seq<E>)
    ensures out + ([x] + m) == (out + [x]) + m
  {
  }

  /** The `next` fields from `lo` up to `hi` are those of the list before sorting. */
  ghost predicate Unread<T>(s: seq<Node<T>>, lo: nat, hi: nat)
    reads s
  {
    forall i :: lo <= i < hi && i < |s| ==> s[i].next == At(s, i + 1)
  }

  function At<T>(s: seq<Node<T>>, i: nat): Node?<T> { if i < |s| then s[i] else null }

  /** The elements of `s` that satisfy `p`. */
  function Where<E>(s: seq<E>, p: E -> bool): seq<E> {
    if s == [] then [] else Where(s[..|s| - 1], p) + if p(s[|s| - 1]) then [s[|s| - 1]] else []
  }

  function Not<E>(p: E -> bool): E -> bool { x => !p(x) }

  lemma WhereNext<E>(s: seq<E>, i: nat, p: E -> bool)
    requires i < |s|
    ensures Where(s[..i + 1], p) == Where(s[..i], p) + if p(s[i]) then [s[i]] else []
  {
    assert s[..i + 1][..i] == s[..i];
  }

  ghost predicate Apart<T>(src: List<T>, dst: List<T>)
    reads src, dst, src.nodes, dst.nodes
  {
    src != dst && src.Valid() && dst.Valid() && forall x <- src.nodes :: x !in dst.nodes
  }

  ghost predicate Within<T>(src: List<T>, dst: List<T>, all: set<Node<T>>)
    reads src, dst
  {
    (forall x <- src.nodes :: x in all) && (forall x <- dst.nodes :: x in all)
  }

  method RemoveFrom<T>(src: List<T>, dst: List<T>, el: Node<T>, ghost k: nat, ghost all: set<Node<T>>)
    requires Apart(src, dst) && Within(src, dst, all) && k < |src.nodes| && src.nodes[k] == el
    modifies src, all
    ensures Apart(src, dst) && Within(src, dst, all) && el in all && el !in src.nodes && el !in dst.nodes
    ensures src.nodes == old(src.nodes)[..k] + old(src.nodes)[k + 1..] && dst.nodes == old(dst.nodes)
  {
    assert el in src.nodes;
    src.Delete(el, k);
    assert forall x <- dst.nodes :: x.next == old(x.next) && x.prev == old(x.prev);
    assert dst.Valid();
  }

  method AddTo<T>(src: List<T>, dst: List<T>, el: Node<T>, ghost all: set<Node<T>>)
    requires Apart(src, dst) && Within(src, dst, all) && el in all && el !in src.nodes && el !in dst.nodes
    modifies dst, all
    ensures Apart(src, dst) && Within(src, dst, all)
    ensures src.nodes == old(src.nodes) && dst.nodes == old(dst.nodes) + [el]
  {
    dst.Append(el);
    assert forall x <- src.nodes :: x.next == old(x.next) && x.prev == old(x.prev);
    assert src.Valid();
  }

  method AddInFront<T>(src: List<T>, dst: List<T>, el: Node<T>, ghost all: set<Node<T>>)
    requires Apart(src, dst) && Within(src, dst, all) && el in all && el !in src.nodes && el !in dst.nodes
    modifies dst, all
    ensures Apart(src, dst) && Within(src, dst, all)
    ensures src.nodes == old(src.nodes) && dst.nodes == [el] + old(dst.nodes)
  {
    dst.Prepend(el);
    assert forall x <- src.nodes :: x.next == old(x.next) && x.prev == old(x.prev);
    assert src.Valid();
  }

  /** DL_DELETE from one list and DL_APPEND to another. */
  method MoveNode<T>(src: List<T>, dst: List<T>, el: Node<T>, ghost k: nat, ghost all: set<Node<T>>)
    requires Apart(src, dst) && Within(src, dst, all) && k < |src.nodes| && src.nodes[k] == el
    modifies src, dst, all
    ensures Apart(src, dst) && Within(src, dst, all)
    ensures src.nodes == old(src.nodes)[..k] + old(src.nodes)[k + 1..] && dst.nodes == old(dst.nodes) + [el]
  {
    RemoveFrom(src, dst, el, k, all);
    AddTo(src, dst, el, all);
  }

  /** A DL_FOREACH_SAFE over `src` whose body moves nodes that satisfy `p` to the end of `dst` has
      visited the first `i` of the nodes `s` and comes to `el` next. */
  ghost predicate Moving<T>(src: List<T>, dst: List<T>, p: Node<T> -> bool, all: set<Node<T>>,
                            s: seq<Node<T>>, d: seq<Node<T>>, i: nat, el: Node?<T>)
    reads src, dst, src.nodes, dst.nodes
  {
    && Apart(src, dst) && Within(src, dst, all) && i <= |s| && el == At(s, i)
    && src.nodes == Where(s[..i], Not(p)) + s[i..]
    && dst.nodes == d + Where(s[..i], p)
  }

  lemma Visited<E>(s: seq<E>, i: nat, kept: seq<E>, now: seq<E>)
    requires i < |s| && now == kept + s[i..]
    ensures |kept| < |now| && now[|kept|] == s[i]
    ensures if |kept| + 1 < |now| then i + 1 < |s| && now[|kept| + 1] == s[i + 1] else i + 1 == |s|
    ensures now[..|kept|] + now[|kept| + 1..] == kept + s[i + 1..] && now == (kept + [s[i]]) + s[i + 1..]
  {
  }

  lemma AllVisited<E>(s: seq<E>, p: E -> bool)
    ensures Where(s[..|s|], p) == Where(s, p) && Where(s[..|s|], Not(p)) + s[|s|..] == Where(s, Not(p))
  {
    assert s[..|s|] == s;
  }

  lemma Joined<E>(d: seq<E>, moved: seq<E>, x: E)
    ensures (d + moved) + [x] == d + (moved + [x])
  {
  }

  /** One round of a DL_FOREACH_SAFE that moves the node or leaves it: the next node is fetched before. */
  method Visit<T>(src: List<T>, dst: List<T>, el: Node<T>, move: bool, ghost all: set<Node<T>>, ghost s: seq<Node<T>>,
                  ghost kept: seq<Node<T>>, ghost i: nat)
    returns (tmp: Node?<T>)
    requires Apart(src, dst) && Within(src, dst, all) && i < |s| && el == s[i] && src.nodes == kept + s[i..]
    modifies src, dst, all
    ensures Apart(src, dst) && Within(src, dst, all) && tmp == At(s, i + 1)
    ensures src.nodes == (if move then kept else kept + [el]) + s[i + 1..]
    ensures dst.nodes == if move then old(dst.nodes) + [el] else old(dst.nodes)
  {
    Visited(s, i, kept, src.nodes);
    assert src.nodes[|kept|].next == At(src.nodes, |kept| + 1);
    tmp := el.next;
    if move { MoveNode(src, dst, el, |kept|, all); }
  }

  method VisitNode<T>(src: List<T>, dst: List<T>, p: Node<T> -> bool, el: Node<T>, ghost all: set<Node<T>>,
                      ghost s: seq<Node<T>>, ghost d: seq<Node<T>>, ghost i: nat)
    returns (tmp: Node?<T>)
    requires i < |s| && Moving(src, dst, p, all, s, d, i, el)
    modifies src, dst, all
    ensures Moving(src, dst, p, all, s, d, i + 1, tmp)
  {
    WhereNext(s, i, p);
    WhereNext(s, i, Not(p));
    Joined(d, Where(s[..i], p), el);
    tmp := Visit(src, dst, el, p(el), all, s, Where(s[..i], Not(p)), i);
  }

  /** DL_FOREACH_SAFE with a body that moves the current node to another list. */
  method MoveWhere<T>(src: List<T>, dst: List<T>, p: Node<T> -> bool, ghost all: set<Node<T>>)
    requires Apart(src, dst) && Within(src, dst, all)
    modifies src, dst, all
    ensures Apart(src, dst)
    ensures src.nodes == Where(old(src.nodes), Not(p))
    ensures dst.nodes == old(dst.nodes) + Where(old(src.nodes), p)
  {
    ghost var s, d, i := src.nodes, dst.nodes, 0;
    var el := src.head;
    assert Moving(src, dst, p, all, s, d, 0, el) by { assert s[0..] == s; }
    while el != null
      invariant i <= |s| && (el == null ==> i == |s|)
      invariant Moving(src, dst, p, all, s, d, i, el)
      decreases |s| - i
    {
      el := VisitNode(src, dst, p, el, all, s, d, i);
      i := i + 1;
    }
    AllVisited(s, p);
  }

  /** DL_FOREACH_SAFE with a body that deletes the current node. */
  method DeleteWhere<T>(list: List<T>, p: Node<T> -> bool, ghost all: set<Node<T>>)
    requires list.Valid() && forall x <- list.nodes :: x in all
    modifies list, all
    ensures list.Valid() && list.nodes == Where(old(list.nodes), Not(p))
  {
    ghost var s, i := list.nodes, 0;
    var el := list.head;
    assert s == Where(s[..0], Not(p)) + s[0..];
    while el != null
      invariant list.Valid() && i <= |s| && el == At(s, i) && forall x <- list.nodes :: x in all
      invariant list.nodes == Where(s[..i], Not(p)) + s[i..]
      decreases |s| - i
    {
      el := DropNode(list, p, el, all, s, i);
      i := i + 1;
    }
    AllVisited(s, p);
  }

  method DropNode<T>(list: List<T>, p: Node<T> -> bool, el: Node<T>, ghost all: set<Node<T>>, ghost s: seq<Node<T>>,
                     ghost i: nat)
    returns (tmp: Node?<T>)
    requires list.Valid() && i < |s| && el == s[i] && forall x <- list.nodes :: x in all
    requires list.nodes == Where(s[..i], Not(p)) + s[i..]
    modifies list, all
    ensures list.Valid() && tmp == At(s, i + 1) && forall x <- list.nodes :: x in all
    ensures list.nodes == Where(s[..i + 1], Not(p)) + s[i + 1..]
  {
    ghost var kept := Where(s[..i], Not(p));
    Visited(s, i, kept, list.nodes);
    assert list.nodes[|kept|].next == At(list.nodes, |kept| + 1);
    tmp := el.next;
    WhereNext(s, i, Not(p));
    if p(el) { list.Delete(el, |kept|); }
  }
}
