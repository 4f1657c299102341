/** POOLHANDLE_ACQUIRE: the search for a free slot of a handle pool, with a 32-bit counter that
    wraps around. */
module HandlePool {
  import opened Basics

  const WORD := 0x1_0000_0000

  /** The sizes that lusbk_handles.h defines, in its order. */
  const SIZES: seq<nat> := [8, 64, 2048, 128, 64, 128, 2048, 64, 32, 2048]

  predicate IsLong(index: int) { -0x8000_0000 <= index < 0x8000_0000 }

  /** InterlockedIncrement of a LONG. */
  function Incremented(index: int): (r: int)
    requires IsLong(index)
    ensures IsLong(r)
  {
    if index == 0x7FFF_FFFF then -0x8000_0000 else index + 1
  }

  /** A LONG as the operand of an unsigned `%`. */
  function Unsigned(index: int): (u: nat)
    requires IsLong(index)
    ensures u < WORD
  {
    if index < 0 then index + WORD else index
  }

  /** The position of probe `k` of an acquisition that finds the counter at `u`. */
  function Probe(u: nat, k: nat, n: nat): (p: nat)
    requires 0 < n
    ensures p < n
  {
    (u + 1 + k) % WORD % n
  }

  // ---------------------------------------------------------------- arithmetic

  lemma DivMod(a: int, n: int, q: int, r: int)
    requires a == n * q + r && 0 <= r < n
    ensures a % n == r
  {
    var d := a / n - q;
    assert a == n * (a / n) + a % n;
    assert n * d == r - a % n by { assert n * d == n * (a / n) - n * q; }
    Sign(n, d);
  }

  lemma Sign(n: int, d: int)
    requires n > 0
    ensures d >= 1 ==> n * d >= n
    ensures d <= -1 ==> n * d <= -n
  {
  }

  /** The wrap of the counter does not disturb the positions when the size divides 2^32. */
  lemma WrapVanishes(a: nat, n: nat)
    requires 0 < n && WORD % n == 0
    ensures a % WORD % n == a % n
  {
    var q, w := a / WORD, WORD / n;
    assert WORD == n * w;
    var r := a % n;
    assert a == n * (a / n) + r;
    var m := w * q;
    assert a % WORD == a - WORD * q;
    assert WORD * q == n * m by { Assoc(n, w, q); }
    DivMod(a % WORD, n, a / n - m, r) by { assert n * (a / n - m) == n * (a / n) - n * m; }
  }

  lemma Assoc(a: int, b: int, c: int)
    ensures (a * b) * c == a * (b * c)
  {
  }

  /** From any position, every position is a number of steps below `n` away, and a different one
      for each. */
  lemma Steps(a: nat, n: nat, k: nat)
    requires 0 < n && k < n
    ensures (a + k) % n == if a % n + k < n then a % n + k else a % n + k - n
    ensures (a + n) % n == a % n
  {
    var q, r := a / n, a % n;
    assert a == n * q + r;
    assert n * (q + 1) == n * q + n;
    DivMod(a + n, n, q + 1, r);
    if r + k < n { DivMod(a + k, n, q, r + k); } else { DivMod(a + k, n, q + 1, r + k - n); }
  }

  /** On a 64-bit build the operand is a LONG widened to 64 bits: the position is the same. */
  lemma WideAgrees(index: int, n: nat)
    requires IsLong(index) && 0 < n && WORD % n == 0
    ensures (if index < 0 then index + WORD * WORD else index) % n == Unsigned(index) % n
  {
    var wide := if index < 0 then index + WORD * WORD else index;
    DivMod(wide, WORD, if index < 0 then WORD - 1 else 0, Unsigned(index));
    WrapVanishes(wide, n);
  }

  // ---------------------------------------------------------------- the probes

  /** Probing comes to slot `x` before the first position comes up again. */
  ghost predicate Reaches(u: nat, n: nat, x: nat)
    requires 0 < n
  {
    exists k :: 0 <= k && Probe(u, k, n) == x && forall j :: 0 < j <= k ==> Probe(u, j, n) != Probe(u, 0, n)
  }

  /** With a size that divides 2^32 the first `n` probes are the `n` positions, each once. */
  lemma Probes(u: nat, n: nat, k: nat)
    requires 0 < n && WORD % n == 0 && k < n
    ensures Probe(u, k, n) == if Probe(u, 0, n) + k < n then Probe(u, 0, n) + k else Probe(u, 0, n) + k - n
    ensures Probe(u, n, n) == Probe(u, 0, n)
  {
    WrapVanishes(u + 1, n);
    WrapVanishes(u + 1 + k, n);
    WrapVanishes(u + 1 + n, n);
    Steps(u + 1, n, k);
  }

  lemma Reached(u: nat, n: nat, x: nat) returns (k: nat)
    requires 0 < n && WORD % n == 0 && x < n
    ensures k < n && Probe(u, k, n) == x && Reaches(u, n, x)
  {
    var start := Probe(u, 0, n);
    k := if x >= start then x - start else x + n - start;
    Probes(u, n, k);
    forall j | 0 < j <= k ensures Probe(u, j, n) != start { Probes(u, n, j); }
  }

  /** Probing from every counter value reaches every slot exactly when the size divides 2^32; all
      pool sizes are powers of two. */
  lemma AllReached(n: nat)
    requires 0 < n <= WORD
    ensures (forall u: nat, x: nat :: u < WORD && x < n ==> Reaches(u, n, x)) <==> WORD % n == 0
    ensures forall size <- SIZES :: 0 < size && WORD % size == 0
  {
    if WORD % n == 0 {
      forall u: nat, x: nat | u < WORD && x < n ensures Reaches(u, n, x) { var _ := Reached(u, n, x); }
    } else {
      Unreached(n);
    }
  }

  /** The probes that follow the wrap of the counter. */
  lemma Wrapped(n: nat, k: nat)
    requires 0 < k <= n <= WORD
    ensures Probe(WORD - 2, k, n) == k - 1
  {
    DivMod(WORD - 2 + 1 + k, WORD, 1, k - 1);
    DivMod(k - 1, n, 0, k - 1);
  }

  /** The last probe before the wrap, at the remainder of 2^32 less one. */
  lemma BeforeWrap(n: nat, r: nat)
    requires 0 < n <= WORD && r == WORD % n && r > 0
    ensures Probe(WORD - 2, 0, n) == r - 1
  {
    var q := WORD / n;
    assert WORD == n * q + r;
    DivMod(WORD - 1, n, q, r - 1);
    DivMod(WORD - 2 + 1 + 0, WORD, 0, WORD - 1);
  }

  /** If the size does not divide 2^32, the wrap of the counter makes the first position come up
      again too early. */
  lemma Unreached(n: nat)
    requires 0 < n <= WORD && WORD % n != 0
    ensures !Reaches(WORD - 2, n, n - 1)
  {
    var u, r := WORD - 2, WORD % n;
    BeforeWrap(n, r);
    Wrapped(n, r);
    forall k: nat | Probe(u, k, n) == n - 1
      ensures r <= k
    {
      if 0 < k < r { Wrapped(n, k); }
    }
  }

  class Pool {
    var index: int
    const use: array<bool>

    ghost predicate Valid()
      reads this
    {
      IsLong(index) && 0 < use.Length && WORD % use.Length == 0
    }

    constructor (size: nat)
      requires 0 < size && WORD % size == 0
      ensures Valid() && fresh(use) && use.Length == size && index == 0 && forall k :: 0 <= k < size ==> !use[k]
    {
      index := 0;
      use := new bool[size](_ => false);
    }

    /** The position of the next probe. */
    method Next(ghost u: nat, ghost k: nat) returns (position: nat)
      requires Valid() && Unsigned(index) == (u + k) % WORD
      modifies `index
      ensures Valid() && Unsigned(index) == (u + 1 + k) % WORD && position == Probe(u, k, use.Length)
    {
      index := Incremented(index);
      position := Unsigned(index) % use.Length;
    }

    /** A free slot is found and taken whenever there is one, and it is the first that the counter
        comes to; no slot is probed twice. */
    method Acquire() returns (slot: Option<nat>, ghost probes: nat)
      requires Valid()
      modifies this, use
      ensures Valid() && 0 < probes <= use.Length
      ensures forall k :: 0 <= k < probes - 1 ==> old(use[..])[Probe(Unsigned(old(index)), k, use.Length)]
      ensures match slot
              case None => use[..] == old(use[..]) && forall x :: 0 <= x < use.Length ==> use[x]
              case Some(p) => p == Probe(Unsigned(old(index)), probes - 1, use.Length)
                              && !old(use[..])[p] && use[..] == old(use[..])[p := true]
    {
      ghost var u, n := Unsigned(index), use.Length;
      probes := 0;
      var start := Next(u, 0);
      var next := start;
      while true
        invariant Valid() && n == use.Length && probes < n && use[..] == old(use[..])
        invariant Unsigned(index) == (u + 1 + probes) % WORD
        invariant start == Probe(u, 0, n) && next == Probe(u, probes, n)
        invariant forall k :: 0 <= k < probes ==> use[Probe(u, k, n)]
        decreases n - probes
      {
        if !use[next] {
          use[next] := true;
          probes := probes + 1;
          return Some(next), probes;
        }
        probes := probes + 1;
        next := Next(u, probes);
        Probes(u, n, if probes < n then probes else 0);
        if next == start {
          forall x | 0 <= x < n ensures use[x] { var k := Reached(u, n, x); }
          return None, probes;
        }
      }
    }
  }
}
