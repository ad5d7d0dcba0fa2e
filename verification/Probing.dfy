/** Open addressing: capacities that are powers of two, hashes cut down by a
    mask, and slots probed one after the other around the end of the table.
    A slot is free when its key is 0. */
module Probing {
  import opened Bits

  /** The slot after i. */
  function Next(n: nat, i: nat): (j: nat)
    requires i < n
    ensures j < n
  {
    if i + 1 == n then 0 else i + 1
  }

  lemma {:induction false} NextMask(n: nat, i: nat)
    requires PowerOfTwo(n) && i < n
    ensures And(i + 1, n - 1) == Next(n, i)
  {
    MaskIsRemainder(i + 1, n);
    Remainder(i + 1, n, if i + 1 == n then 1 else 0, Next(n, i));
  }

  /** The slot t steps from a home slot. */
  function At(n: nat, home: nat, t: nat): (i: nat)
    requires home < n && t <= n
    ensures i < n
  {
    if t == n then home else if home + t < n then home + t else home + t - n
  }

  /** How many steps slot i is from a home slot. */
  function Dist(n: nat, home: nat, i: nat): (t: nat)
    requires home < n && i < n
    ensures t < n && At(n, home, t) == i
  {
    if i >= home then i - home else i + n - home
  }

  /** The first t slots from a home slot are all in use. */
  predicate Chain(keys: seq<nat>, home: nat, t: nat)
    requires home < |keys| && t <= |keys|
  {
    forall u :: 0 <= u < t ==> keys[At(|keys|, home, u)] != 0
  }

  lemma {:induction false} ChainGrows(keys: seq<nat>, home: nat, t: nat)
    requires home < |keys| && t < |keys| && Chain(keys, home, t) && keys[At(|keys|, home, t)] != 0
    ensures Chain(keys, home, t + 1) && At(|keys|, home, t + 1) == Next(|keys|, At(|keys|, home, t))
  {
  }

  /** Slots in use stay in use. */
  lemma {:induction false} ChainKept(keys: seq<nat>, keys': seq<nat>, home: nat, t: nat)
    requires |keys'| == |keys| && home < |keys| && t <= |keys| && Chain(keys, home, t)
    requires forall i :: 0 <= i < |keys| && keys[i] != 0 ==> keys'[i] != 0
    ensures Chain(keys', home, t)
  {
  }

  /** A walk over used slots from home reaches past every slot on it. */
  lemma {:induction false} ChainCovers(keys: seq<nat>, home: nat, t: nat, i: nat)
    requires home < |keys| && t < |keys| && i < |keys|
    requires keys[At(|keys|, home, t)] == 0 && Chain(keys, home, Dist(|keys|, home, i))
    ensures Dist(|keys|, home, i) <= t
  {
  }

  /** How many slots are in use. */
  function Used(keys: seq<nat>): (u: nat)
    ensures u <= |keys|
  {
    if keys == [] then 0 else Used(keys[..|keys| - 1]) + (if keys[|keys| - 1] != 0 then 1 else 0)
  }

  lemma {:induction false} UsedUpdate(keys: seq<nat>, i: nat, key: nat)
    requires i < |keys|
    ensures Used(keys[i := key]) == Used(keys) - (if keys[i] != 0 then 1 else 0) + (if key != 0 then 1 else 0)
  {
    var n := |keys| - 1;
    if i == n {
      assert keys[i := key][..n] == keys[..n];
    } else {
      assert keys[i := key][..n] == keys[..n][i := key];
      UsedUpdate(keys[..n], i, key);
    }
  }

  lemma {:induction false} UsedNext(keys: seq<nat>, i: nat)
    requires i < |keys|
    ensures Used(keys[..0]) == 0
    ensures Used(keys[..i + 1]) == Used(keys[..i]) + (if keys[i] != 0 then 1 else 0)
  {
    assert keys[..i + 1][..i] == keys[..i];
  }

  lemma {:induction false} UsedAll(keys: seq<nat>)
    requires forall i :: 0 <= i < |keys| ==> keys[i] != 0
    ensures Used(keys) == |keys|
  {
    if keys != [] { UsedAll(keys[..|keys| - 1]); }
  }

  lemma {:induction false} UsedNone(keys: seq<nat>)
    requires forall i :: 0 <= i < |keys| ==> keys[i] == 0
    ensures Used(keys) == 0
  {
    if keys != [] { UsedNone(keys[..|keys| - 1]); }
  }

  /** A table with a free slot stops every walk: its end is not reached. */
  lemma {:induction false} FreeStops(keys: seq<nat>, home: nat)
    requires home < |keys| && Used(keys) < |keys|
    ensures !Chain(keys, home, |keys|)
  {
    if Chain(keys, home, |keys|) {
      forall i | 0 <= i < |keys| ensures keys[i] != 0 {
        assert keys[At(|keys|, home, Dist(|keys|, home, i))] != 0;
      }
      UsedAll(keys);
    }
  }

  /** The share of slots that may be in use, four fifths rounded down. */
  function LoadFactor(capacity: nat): (l: nat)
    ensures 5 * l <= 4 * capacity < 5 * (l + 1)
  {
    capacity * 4 / 5
  }

  lemma {:induction false} Doubled(n: nat)
    requires PowerOfTwo(n)
    ensures PowerOfTwo(2 * n) && LoadFactor(n) < n && LoadFactor(n) < LoadFactor(2 * n)
  {
  }

  /** The least power of two not below x, or 0 when there is none in 32 bits
      or x is 0. */
  method RoundUp(x: bv32) returns (y: bv32)
    ensures y == 0 <==> x == 0 || x > 0x8000_0000
    ensures y != 0 ==> PowerOfTwo(y as nat) && x <= y && y >> 1 < x
  {
    y := x - 1;
    y := y | (y >> 1);
    y := y | (y >> 2);
    y := y | (y >> 4);
    y := y | (y >> 8);
    y := y | (y >> 16);
    y := y + 1;
    if y != 0 { OneBit(y); }
  }

  lemma {:induction false} OneBit(y: bv32)
    requires y & (y - 1) == 0 && y != 0
    ensures PowerOfTwo(y as nat)
    decreases y
  {
    if y == 1 {
      assert y as nat == 1;
    } else {
      var h := y >> 1;
      assert h & (h - 1) == 0 && h != 0 && h < y && y == h * 2;
      OneBit(h);
      assert y as nat == 2 * (h as nat);
    }
  }

  /** n is the least power of two not below the 32-bit number x. */
  ghost predicate Rounded(x: bv32, n: nat) {
    PowerOfTwo(n) && exists y: bv32 :: Value(y, n) && x <= y && y >> 1 < x
  }

  predicate Value(y: bv32, n: nat) { y as nat == n }

  method RoundedUp(x: bv32) returns (n: nat)
    requires 0 < x <= 0x8000_0000
    ensures Rounded(x, n)
  {
    var y := RoundUp(x);
    n := y as nat;
    assert Value(y, n);
  }
}
