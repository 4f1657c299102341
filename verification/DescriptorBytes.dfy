/** The places of the fields in the bytes of a configuration (sections 9.6.3, 9.6.5 and 9.6.6 of USB 2.0
    and 9.6.7 of USB 3.2), stated without the parser's own constants. */
module DescriptorBytes {
  import opened Basics
  import opened DescriptorTree
  import opened DescriptorParser

  /** The tree with one interface and one setting that has these endpoints. */
  function Here(n: Byte, a: Byte, intf: Desc, pipes: seq<Pipe>): seq<Interface> {
    [Interface(n, 0, [Alt(a, 0, intf, pipes)])]
  }

  /** With one endpoint. */
  function OneEndpoint(n: Byte, a: Byte, e: Byte, intf: Desc, endpoint: Desc, companion: Option<Desc>): seq<Interface> {
    Here(n, a, intf, [Pipe(e, 0, endpoint, companion)])
  }

  // ---------------------------------------------------------------- one descriptor

  /** The first interface descriptor. */
  lemma FeedFirst(d: Desc, n: Byte, a: Byte)
    requires |d| >= 4 && d[1] == 4 && d[2] == n && d[3] == a
    ensures Feed(START, d) == Progress([Interface(n, 0, [Alt(a, 0, d, [])])], Some((0, 0)), None)
  {
    var stack := WithInterface([], n);
    assert stack == [Interface(n, 0, [])];
    assert InterfaceIds([]) == [] && AltIds([]) == [];
    assert WithAlt([], d) == [Alt(a, 0, d, [])];
    assert SetAlts(stack, 0, [Alt(a, 0, d, [])]) == [Interface(n, 0, [Alt(a, 0, d, [])])];
  }

  lemma SetHere(n: Byte, a: Byte, intf: Desc, pipes: seq<Pipe>, now: seq<Pipe>)
    ensures Within(Here(n, a, intf, pipes), 0, 0) && Pipes(Here(n, a, intf, pipes), 0, 0) == pipes
    ensures SetPipes(Here(n, a, intf, pipes), 0, 0, now) == Here(n, a, intf, now)
  {
    var s := Here(n, a, intf, pipes);
    assert s[0].alts[0 := Alt(a, 0, intf, now)] == [Alt(a, 0, intf, now)];
  }

  /** The first endpoint descriptor behind it. */
  lemma FeedPipe(n: Byte, a: Byte, intf: Desc, d: Desc, e: Byte)
    requires |d| >= 3 && d[1] == 5 && d[2] == e
    ensures Feed(Progress(Here(n, a, intf, []), Some((0, 0)), None), d)
            == Progress(Here(n, a, intf, [Pipe(e, 0, d, None)]), Some((0, 0)), Some(0))
  {
    SetHere(n, a, intf, [], [Pipe(e, 0, d, None)]);
    assert PipeIds([]) == [];
    assert WithPipe([], d) == [Pipe(e, 0, d, None)];
  }

  /** A second endpoint descriptor. */
  lemma FeedOther(n: Byte, a: Byte, intf: Desc, p: Pipe, d: Desc, f: Byte)
    requires |d| >= 3 && d[1] == 5 && d[2] == f
    ensures Feed(Progress(Here(n, a, intf, [p]), Some((0, 0)), Some(0)), d).stack
            == Here(n, a, intf, if p.id == f then [p] else [p, Pipe(f, 1, d, None)])
  {
    var now := if p.id == f then [p] else [p, Pipe(f, 1, d, None)];
    SetHere(n, a, intf, [p], now);
    var ids := PipeIds([p]);
    assert ids == [p.id] && ids[1..] == [];
    assert IndexOf(ids, f) == if p.id == f then 0 else 1;
    assert WithPipe([p], d) == now;
  }

  /** A companion descriptor. */
  lemma FeedLast(n: Byte, a: Byte, intf: Desc, p: Pipe, d: Desc)
    requires |d| >= 2 && d[1] == 0x30
    ensures Feed(Progress(Here(n, a, intf, [p]), Some((0, 0)), Some(0)), d).stack
            == Here(n, a, intf, [p.(companion := Some(d))])
  {
    SetHere(n, a, intf, [p], [p.(companion := Some(d))]);
    var pipes := [p];
    assert pipes[0 := p.(companion := Some(d))] == [p.(companion := Some(d))];
  }

  lemma One(i: Desc)
    ensures FeedAll(START, [i]) == Feed(START, i)
  {
    FeedOne(START, [], i);
    assert [] + [i] == [i];
  }

  lemma Two(i: Desc, p: Desc)
    ensures FeedAll(START, [i, p]) == Feed(Feed(START, i), p)
  {
    One(i);
    FeedOne(START, [i], p);
    assert [i] + [p] == [i, p];
  }

  lemma Three(i: Desc, p: Desc, c: Desc)
    ensures FeedAll(START, [i, p]) == Feed(Feed(START, i), p)
    ensures FeedAll(START, [i, p, c]) == Feed(Feed(Feed(START, i), p), c)
  {
    Two(i, p);
    FeedOne(START, [i, p], c);
    assert [i, p] + [c] == [i, p, c];
  }

  // ---------------------------------------------------------------- several descriptors

  /** An interface descriptor has type 4, the interface number in byte 2 and the alternate setting in
      byte 3; an endpoint descriptor has type 5 and its address in byte 2; a companion descriptor has
      type 0x30.  Whatever follows in each, they make one interface with one setting and one endpoint. */
  lemma FieldPlaces(n: Byte, a: Byte, e: Byte, x: seq<Byte>, y: seq<Byte>, z: seq<Byte>)
    ensures Build([[9, 4, n, a] + x, [7, 5, e] + y, [6, 0x30] + z])
            == OneEndpoint(n, a, e, [9, 4, n, a] + x, [7, 5, e] + y, Some([6, 0x30] + z))
    ensures Build([[9, 4, n, a] + x, [7, 5, e] + y]) == OneEndpoint(n, a, e, [9, 4, n, a] + x, [7, 5, e] + y, None)
  {
    var i, p, c: Desc := [9, 4, n, a] + x, [7, 5, e] + y, [6, 0x30] + z;
    Three(i, p, c);
    FeedFirst(i, n, a);
    FeedPipe(n, a, i, p, e);
    FeedLast(n, a, i, Pipe(e, 0, p, None), c);
  }

  /** Endpoints with different addresses become two, whatever else is in them; with the same address one,
      that of the first descriptor. */
  lemma TwoEndpoints(n: Byte, a: Byte, e: Byte, f: Byte, x: seq<Byte>, y: seq<Byte>, z: seq<Byte>)
    ensures Build([[9, 4, n, a] + x, [7, 5, e] + y, [7, 5, f] + z]) ==
            [Interface(n, 0, [Alt(a, 0, [9, 4, n, a] + x,
                                  if e == f then [Pipe(e, 0, [7, 5, e] + y, None)]
                                  else [Pipe(e, 0, [7, 5, e] + y, None), Pipe(f, 1, [7, 5, f] + z, None)])])]
  {
    var i, p, q: Desc := [9, 4, n, a] + x, [7, 5, e] + y, [7, 5, f] + z;
    Three(i, p, q);
    FeedFirst(i, n, a);
    FeedPipe(n, a, i, p, e);
    FeedOther(n, a, i, Pipe(e, 0, p, None), q, f);
  }

  /** Two settings of one interface and a second interface. */
  lemma TwoInterfaces(n: Byte, a: Byte, b: Byte, m: Byte, c: Byte)
    requires a != b && m != n
    ensures Build([[9, 4, n, a], [9, 4, n, b], [9, 4, m, c]]) ==
            [Interface(n, 0, [Alt(a, 0, [9, 4, n, a], []), Alt(b, 1, [9, 4, n, b], [])]),
             Interface(m, 1, [Alt(c, 0, [9, 4, m, c], [])])]
  {
    var i, j, k: Desc := [9, 4, n, a], [9, 4, n, b], [9, 4, m, c];
    Three(i, j, k);
    FeedFirst(i, n, a);
    var first := Interface(n, 0, [Alt(a, 0, i, []), Alt(b, 1, j, [])]);
    FeedSetting(Interface(n, 0, [Alt(a, 0, i, [])]), j, b);
    assert [Alt(a, 0, i, [])] + [Alt(b, 1, j, [])] == first.alts;
    FeedNumber(first, k, m, c);
  }

  lemma FeedSetting(x: Interface, d: Desc, b: Byte)
    requires |d| >= 4 && d[1] == 4 && d[2] == x.id && d[3] == b && |x.alts| == 1 && x.alts[0].id != b
    ensures Feed(Progress([x], Some((0, 0)), None), d)
            == Progress([x.(alts := x.alts + [Alt(b, 1, d, [])])], Some((0, 1)), None)
  {
    var ids, alts := InterfaceIds([x]), AltIds(x.alts);
    assert ids == [x.id] && IndexOf(ids, x.id) == 0 && WithInterface([x], x.id) == [x];
    assert alts == [x.alts[0].id] && alts[1..] == [] && IndexOf(alts, b) == 1;
    assert SetAlts([x], 0, x.alts + [Alt(b, 1, d, [])]) == [x.(alts := x.alts + [Alt(b, 1, d, [])])];
  }

  lemma FeedNumber(x: Interface, d: Desc, m: Byte, c: Byte)
    requires |d| >= 4 && d[1] == 4 && d[2] == m != x.id && d[3] == c && |x.alts| == 2
    ensures Feed(Progress([x], Some((0, 1)), None), d).stack == [x, Interface(m, 1, [Alt(c, 0, d, [])])]
  {
    var ids := InterfaceIds([x]);
    assert ids == [x.id] && ids[1..] == [] && IndexOf(ids, m) == 1;
    var stack := WithInterface([x], m);
    assert stack == [x, Interface(m, 1, [])] && AltIds([]) == [];
    assert WithAlt([], d) == [Alt(c, 0, d, [])];
    assert SetAlts(stack, 1, [Alt(c, 0, d, [])]) == [x, Interface(m, 1, [Alt(c, 0, d, [])])];
  }

  /** A whole configuration of 31 bytes, the total length in bytes 2 and 3. */
  function Block(n: Byte, a: Byte, e: Byte): seq<Byte> {
    [9, 2, 31, 0, 1, 1, 0, 0x80, 50] + [9, 4, n, a, 1, 0xFF, 0, 0, 0] + [7, 5, e, 2, 0, 4, 0] + [6, 0x30, 0, 0, 0, 0]
  }

  /** The total length is in bytes 2 and 3 of the block, the low one first (section 9.6.3 of USB 2.0). */
  lemma TotalPlaces(low: Byte, high: Byte, x: seq<Byte>)
    ensures TotalLength([9, 2, low, high] + x) == low as int + 256 * (high as int)
  {
  }

  lemma BlockFormed(n: Byte, a: Byte, e: Byte, all: seq<Desc>)
    requires all == [[9, 2, 31, 0, 1, 1, 0, 0x80, 50], [9, 4, n, a, 1, 0xFF, 0, 0, 0], [7, 5, e, 2, 0, 4, 0],
                     [6, 0x30, 0, 0, 0, 0]]
    ensures WellFormed(Block(n, a, e), all)
  {
    assert all[..3] + [all[3]] == all && all[..2] + [all[2]] == all[..3] && all[..1] + [all[1]] == all[..2];
    assert Flat(all[..0]) == [] && Flat(all[..1]) == all[0];
    assert Flat(all[..2]) == all[0] + all[1];
    assert Flat(all[..3]) == all[0] + all[1] + all[2];
  }

  /** The parser finds interface, setting, endpoint and companion of such a block. */
  method ParseBlock(n: Byte, a: Byte, e: Byte) returns (stack: seq<Interface>)
    ensures stack == OneEndpoint(n, a, e, [9, 4, n, a, 1, 0xFF, 0, 0, 0], [7, 5, e, 2, 0, 4, 0],
                                 Some([6, 0x30, 0, 0, 0, 0]))
  {
    ghost var all: seq<Desc> := [[9, 2, 31, 0, 1, 1, 0, 0x80, 50], [9, 4, n, a, 1, 0xFF, 0, 0, 0],
                                 [7, 5, e, 2, 0, 4, 0], [6, 0x30, 0, 0, 0, 0]];
    BlockFormed(n, a, e, all);
    stack := Parse(Block(n, a, e), all);
    FieldPlaces(n, a, e, [1, 0xFF, 0, 0, 0], [2, 0, 4, 0], [0, 0, 0, 0]);
    assert [9, 4, n, a] + [1, 0xFF, 0, 0, 0] == all[1] && [7, 5, e] + [2, 0, 4, 0] == all[2];
    assert [6, 0x30] + [0, 0, 0, 0] == all[3] && all[1..] == [all[1], all[2], all[3]];
  }
}
