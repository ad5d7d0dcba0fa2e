/** The string pool of string_pool.cc: interning through an open-addressing
    table of references, an array of string descriptors, and one buffer that
    holds the bytes. */
module StringPool {
  import opened Wrappers
  import opened Words
  import opened Bits
  import opened Probing

  datatype Off = Off(offset: nat, length: nat, hash: nat)

  const BUFFER_SIZE := 0x20_0000
  const POOL_CAPACITY := 4096
  const ARRAY_CAPACITY := 4096

  // -------------------------------------------------------------------
  // What interning means: a list of distinct strings that only grows.
  // -------------------------------------------------------------------

  /** The buffer bytes taken by a list of strings, a NUL after each. */
  function Space(model: seq<Bytes>): nat {
    if model == [] then 0 else Space(model[..|model| - 1]) + |model[|model| - 1]| + 1
  }

  ghost predicate Distinct(model: seq<Bytes>) {
    forall i, j {:trigger Differ(model, i, j)} :: 0 <= i < |model| && 0 <= j < |model| ==> Differ(model, i, j)
  }

  predicate Differ(model: seq<Bytes>, i: nat, j: nat)
    requires i < |model| && j < |model|
  {
    model[i] == model[j] ==> i == j
  }

  /** The strings a pool can hold: the empty one first, none twice. */
  ghost predicate IsPool(model: seq<Bytes>) {
    model != [] && model[0] == [] && Distinct(model) && Space(model) < BUFFER_SIZE
  }

  function Added(model: seq<Bytes>, s: Bytes): seq<Bytes> { if s in model then model else model + [s] }

  /** Interning one string: the reference and the new list, or None when the
      buffer is exhausted. */
  ghost function Interned(model: seq<Bytes>, s: Bytes): Option<(nat, seq<Bytes>)> {
    if s in model then Some((RefOf(model, s), model))
    else if Space(model) + |s| + 1 >= BUFFER_SIZE then None
    else Some((|model|, model + [s]))
  }

  function RefOf(model: seq<Bytes>, s: Bytes): (r: nat)
    requires s in model
    ensures r < |model| && model[r] == s
  {
    if model[0] == s then 0 else 1 + RefOf(model[1..], s)
  }

  /** Interning one string after the other. */
  ghost function Run(model: seq<Bytes>, strings: seq<Bytes>): Option<(seq<nat>, seq<Bytes>)>
    decreases |strings|
  {
    if strings == [] then Some(([], model))
    else
      match Interned(model, strings[0])
      case None => None
      case Some((r, model')) =>
        match Run(model', strings[1..])
        case None => None
        case Some((refs, end)) => Some(([r] + refs, end))
  }

  /** The strings of the list that are not in the pool yet, each once. */
  function Merged(model: seq<Bytes>, strings: seq<Bytes>): seq<Bytes>
    decreases |strings|
  {
    if strings == [] then model else Merged(Added(model, strings[0]), strings[1..])
  }

  lemma {:induction false} PoolNext(model: seq<Bytes>, s: Bytes)
    requires IsPool(model) && s !in model && Space(model) + |s| + 1 < BUFFER_SIZE
    ensures IsPool(model + [s]) && Space(model + [s]) == Space(model) + |s| + 1
  {
    assert (model + [s])[..|model|] == model;
    forall i, j | 0 <= i < |model + [s]| && 0 <= j < |model + [s]| ensures Differ(model + [s], i, j) {
      if i < |model| && j < |model| { assert Differ(model, i, j); }
    }
  }

  lemma {:induction false} InternedPool(model: seq<Bytes>, s: Bytes)
    requires IsPool(model) && Interned(model, s).Some?
    ensures var (r, model') := Interned(model, s).value;
            IsPool(model') && model <= model' && r < |model'| && model'[r] == s && model' == Added(model, s)
  {
    if s !in model { PoolNext(model, s); }
  }

  /** Every reference handed out in a run stands for its string to the end of
      the run, and what was interned before stays. */
  lemma {:induction false} RunKeeps(model: seq<Bytes>, strings: seq<Bytes>)
    requires IsPool(model) && Run(model, strings).Some?
    ensures var (refs, end) := Run(model, strings).value;
            IsPool(end) && model <= end && |refs| == |strings| && Names(end, refs, strings)
                && end == Merged(model, strings)
    decreases |strings|
  {
    if strings != [] {
      InternedPool(model, strings[0]);
      var (r, model') := Interned(model, strings[0]).value;
      RunKeeps(model', strings[1..]);
      var (refs, end) := Run(model', strings[1..]).value;
      assert end[r] == model'[r];
      forall i | 0 <= i < |strings| ensures ([r] + refs)[i] < |end| && end[([r] + refs)[i]] == strings[i] {
        if i > 0 { assert strings[i] == strings[1..][i - 1]; }
      }
    }
  }

  ghost predicate Names(model: seq<Bytes>, refs: seq<nat>, strings: seq<Bytes>) {
    |refs| == |strings| && forall i :: 0 <= i < |strings| ==> refs[i] < |model| && model[refs[i]] == strings[i]
  }

  /** Interning is canonical: in every run, two references are equal exactly
      when the strings are, and 0 stands for the empty string alone. */
  lemma {:induction false} Canonical(model: seq<Bytes>, strings: seq<Bytes>, i: nat, j: nat)
    requires IsPool(model) && Run(model, strings).Some? && i < |strings| && j < |strings|
    ensures |Run(model, strings).value.0| == |strings|
    ensures Run(model, strings).value.0[i] == Run(model, strings).value.0[j] <==> strings[i] == strings[j]
    ensures Run(model, strings).value.0[i] == 0 <==> strings[i] == []
  {
    RunKeeps(model, strings);
    var (refs, end) := Run(model, strings).value;
    assert Differ(end, refs[i], refs[j]) && Differ(end, refs[i], 0);
  }

  lemma {:induction false} MergedGrows(model: seq<Bytes>, strings: seq<Bytes>)
    ensures Space(model) <= Space(Merged(model, strings))
    decreases |strings|
  {
    if strings != [] {
      var s := strings[0];
      assert (model + [s])[..|model|] == model;
      MergedGrows(Added(model, s), strings[1..]);
    }
  }

  /** A run exhausts the pool exactly when its distinct strings, with a NUL
      each, do not fit the buffer. */
  lemma {:induction false} ExhaustedIff(model: seq<Bytes>, strings: seq<Bytes>)
    requires IsPool(model)
    ensures Run(model, strings).Some? <==> Space(Merged(model, strings)) < BUFFER_SIZE
    decreases |strings|
  {
    if strings != [] {
      var s := strings[0];
      assert (model + [s])[..|model|] == model;
      if Interned(model, s).Some? {
        InternedPool(model, s);
        ExhaustedIff(Interned(model, s).value.1, strings[1..]);
      } else {
        MergedGrows(Added(model, s), strings[1..]);
      }
    }
  }

  // -------------------------------------------------------------------
  // The table of references.
  // -------------------------------------------------------------------

  function Home(h: Bytes -> nat, s: Bytes, n: nat): (i: nat)
    requires n > 0
    ensures i < n
  {
    h(s) % n
  }

  predicate Reachable(data: seq<nat>, h: Bytes -> nat, s: Bytes, i: nat)
    requires i < |data|
  {
    var home := Home(h, s, |data|);
    Chain(data, home, Dist(|data|, home, i))
  }

  /** The reference r is in the table, on the walk of its string. */
  ghost predicate Housed(data: seq<nat>, h: Bytes -> nat, s: Bytes, r: nat) {
    exists i :: 0 <= i < |data| && data[i] == r && Reachable(data, h, s, i)
  }

  ghost predicate Table(data: seq<nat>, h: Bytes -> nat, model: seq<Bytes>) {
    && (forall i :: 0 <= i < |data| ==> data[i] < |model|)
    && (forall r {:trigger Housed(data, h, model[r], r)} :: 0 < r < |model| ==> Housed(data, h, model[r], r))
  }

  lemma {:induction false} HousedKept(data: seq<nat>, h: Bytes -> nat, s: Bytes, r: nat, i: nat, r': nat)
    requires Housed(data, h, s, r) && r != 0 && i < |data| && data[i] == 0 && r' != 0
    ensures Housed(data[i := r'], h, s, r)
  {
    var j :| 0 <= j < |data| && data[j] == r && Reachable(data, h, s, j);
    var home := Home(h, s, |data|);
    ChainKept(data, data[i := r'], home, Dist(|data|, home, j));
    assert Reachable(data[i := r'], h, s, j);
  }

  lemma {:induction false} HousedNew(data: seq<nat>, h: Bytes -> nat, s: Bytes, r: nat, i: nat)
    requires r != 0 && i < |data| && data[i] == 0 && Reachable(data, h, s, i)
    ensures Housed(data[i := r], h, s, r)
  {
    var home := Home(h, s, |data|);
    ChainKept(data, data[i := r], home, Dist(|data|, home, i));
    assert Reachable(data[i := r], h, s, i);
  }

  /** The references in the first i slots of a table are in another one. */
  ghost predicate Moved(from: seq<nat>, i: nat, data: seq<nat>, h: Bytes -> nat, model: seq<Bytes>)
    requires i <= |from|
  {
    && (forall j :: 0 <= j < |from| ==> from[j] < |model|)
    && (forall j :: 0 <= j < |data| ==> data[j] < |model|)
    && (forall j {:trigger from[j]} :: 0 <= j < i && from[j] != 0 ==> Housed(data, h, model[from[j]], from[j]))
  }

  lemma {:induction false} MovedNone(from: seq<nat>, data: seq<nat>, h: Bytes -> nat, model: seq<Bytes>)
    requires Table(from, h, model) && model != [] && forall j :: 0 <= j < |data| ==> data[j] == 0
    ensures Moved(from, 0, data, h, model)
  {
  }

  lemma {:induction false} MovedFree(from: seq<nat>, i: nat, data: seq<nat>, h: Bytes -> nat, model: seq<Bytes>)
    requires i < |from| && Moved(from, i, data, h, model) && from[i] == 0
    ensures Moved(from, i + 1, data, h, model)
  {
  }

  lemma {:induction false} MovedNext(from: seq<nat>, i: nat, data: seq<nat>, h: Bytes -> nat, model: seq<Bytes>,
                                     idx: nat)
    requires i < |from| && Moved(from, i, data, h, model) && from[i] != 0
    requires idx < |data| && data[idx] == 0 && Reachable(data, h, model[from[i]], idx)
    ensures Moved(from, i + 1, data[idx := from[i]], h, model)
  {
    forall j | 0 <= j < i + 1 && from[j] != 0 ensures Housed(data[idx := from[i]], h, model[from[j]], from[j]) {
      if j < i {
        HousedKept(data, h, model[from[j]], from[j], idx, from[i]);
      } else {
        HousedNew(data, h, model[from[i]], from[i], idx);
      }
    }
  }

  lemma {:induction false} MovedAll(from: seq<nat>, data: seq<nat>, h: Bytes -> nat, model: seq<Bytes>)
    requires Table(from, h, model) && Moved(from, |from|, data, h, model)
    ensures Table(data, h, model)
  {
    forall r | 0 < r < |model| ensures Housed(data, h, model[r], r) {
      assert Housed(from, h, model[r], r);
      var j :| 0 <= j < |from| && from[j] == r;
    }
  }

  lemma {:induction false} TableNext(data: seq<nat>, h: Bytes -> nat, model: seq<Bytes>, s: Bytes, idx: nat)
    requires Table(data, h, model) && model != [] && idx < |data| && data[idx] == 0 && Reachable(data, h, s, idx)
    ensures Table(data[idx := |model|], h, model + [s])
  {
    forall r | 0 < r < |model + [s]| ensures Housed(data[idx := |model|], h, (model + [s])[r], r) {
      if r < |model| {
        assert Housed(data, h, model[r], r);
        HousedKept(data, h, model[r], r, idx, |model|);
      } else {
        HousedNew(data, h, s, r, idx);
      }
    }
  }

  /** Nothing on the first t steps of the walk of s stands for s. */
  ghost predicate Walked(data: seq<nat>, h: Bytes -> nat, model: seq<Bytes>, s: Bytes, t: nat)
    requires 0 < |data| && t <= |data|
  {
    var home := Home(h, s, |data|);
    Chain(data, home, t)
    && forall u :: 0 <= u < t ==> data[At(|data|, home, u)] < |model| && model[data[At(|data|, home, u)]] != s
  }

  lemma {:induction false} WalkStart(data: seq<nat>, h: Bytes -> nat, model: seq<Bytes>, s: Bytes)
    requires 0 < |data|
    ensures Walked(data, h, model, s, 0)
  {
  }

  lemma {:induction false} WalkStep(data: seq<nat>, h: Bytes -> nat, model: seq<Bytes>, s: Bytes, t: nat)
    requires t < |data| && Walked(data, h, model, s, t) && Used(data) < |data|
    requires var r := data[At(|data|, Home(h, s, |data|), t)]; r != 0 && r < |model| && model[r] != s
    ensures t + 1 < |data| && Walked(data, h, model, s, t + 1)
    ensures At(|data|, Home(h, s, |data|), t + 1) == Next(|data|, At(|data|, Home(h, s, |data|), t))
  {
    var home := Home(h, s, |data|);
    ChainGrows(data, home, t);
    FreeStops(data, home);
  }

  /** A housed reference is met before the walk of its string ends. */
  lemma {:induction false} OnWalk(data: seq<nat>, h: Bytes -> nat, s: Bytes, r: nat, t: nat)
    requires Housed(data, h, s, r) && r != 0 && t < |data|
    requires data[At(|data|, Home(h, s, |data|), t)] == 0
    ensures exists u :: 0 <= u < t && data[At(|data|, Home(h, s, |data|), u)] == r
  {
    var home := Home(h, s, |data|);
    var i: nat :| i < |data| && data[i] == r && Reachable(data, h, s, i);
    ChainCovers(data, home, t, i);
    assert data[At(|data|, home, Dist(|data|, home, i))] == r;
  }

  lemma {:induction false} WalkDecides(data: seq<nat>, h: Bytes -> nat, model: seq<Bytes>, s: Bytes, t: nat)
    requires Table(data, h, model) && t < |data| && Walked(data, h, model, s, t)
    requires data[At(|data|, Home(h, s, |data|), t)] == 0
    ensures forall r :: 0 < r < |model| ==> model[r] != s
  {
    hide Housed, Chain;
    forall r | 0 < r < |model| ensures model[r] != s {
      assert Housed(data, h, model[r], r);
      if model[r] == s { OnWalk(data, h, s, r, t); }
    }
  }

  // -------------------------------------------------------------------
  // The descriptors and the buffer.
  // -------------------------------------------------------------------

  /** The descriptor o gives the string s in the buffer, NUL-terminated, within
      the first used bytes. */
  predicate Describes(o: Off, buf: Bytes, used: nat, s: Bytes) {
    && o.length == |s| && o.offset + o.length < used <= |buf|
    && buf[o.offset..o.offset + o.length] == s && buf[o.offset + o.length] == 0
  }

  /** Descriptors in use describe their strings, the others and the free end of
      the buffer are zero. */
  ghost predicate Stored(offs: seq<Off>, buf: Bytes, used: nat, h: Bytes -> nat, model: seq<Bytes>) {
    && 0 < |model| <= |offs| && 0 < used <= |buf| && offs[0] == Off(0, 0, 0)
    && (forall r {:trigger Describes(offs[r], buf, used, model[r])}
        :: 0 <= r < |model| ==> Describes(offs[r], buf, used, model[r]))
    && (forall r :: 0 < r < |model| ==> offs[r].hash == h(model[r]))
    && (forall r :: |model| <= r < |offs| ==> offs[r] == Off(0, 0, 0))
    && (forall i :: used <= i < |buf| ==> buf[i] == 0)
  }

  /** Bytes that are copied behind the used ones leave every string alone. */
  lemma {:induction false} StoredNext(offs: seq<Off>, buf: Bytes, used: nat, h: Bytes -> nat, model: seq<Bytes>,
                                      s: Bytes, buf': Bytes)
    requires Stored(offs, buf, used, h, model) && |model| < |offs| && used + |s| + 1 <= |buf|
    requires |buf'| == |buf| && buf'[..used] == buf[..used] && buf'[used..used + |s|] == s
    requires buf'[used + |s|..] == buf[used + |s|..]
    ensures Stored(offs[|model| := Off(used, |s|, h(s))], buf', used + |s| + 1, h, model + [s])
  {
    var offs', used' := offs[|model| := Off(used, |s|, h(s))], used + |s| + 1;
    forall i | used <= i < |buf| ensures buf[i] == 0 {}
    forall i | used + |s| <= i < |buf| ensures buf'[i] == 0 {
      assert buf'[i] == buf'[used + |s|..][i - used - |s|] == buf[used + |s|..][i - used - |s|];
    }
    forall r | 0 <= r < |model + [s]| ensures Describes(offs'[r], buf', used', (model + [s])[r]) {
      if r < |model| {
        assert Describes(offs[r], buf, used, model[r]);
        DescribesStill(offs[r], buf, used, model[r], buf', used');
      }
    }
  }

  lemma {:induction false} DescribesStill(o: Off, buf: Bytes, used: nat, s: Bytes, buf': Bytes, used': nat)
    requires Describes(o, buf, used, s) && used <= used' <= |buf'| && buf'[..used] == buf[..used]
    ensures Describes(o, buf', used', s)
  {
    assert buf'[o.offset..o.offset + o.length] == buf'[..used][o.offset..o.offset + o.length];
    assert buf[o.offset..o.offset + o.length] == buf[..used][o.offset..o.offset + o.length];
    assert buf'[o.offset + o.length] == buf'[..used][o.offset + o.length];
    assert buf[o.offset + o.length] == buf[..used][o.offset + o.length];
  }

  /** The descriptor of a string tells whether another string is the same. */
  lemma {:induction false} SameString(o: Off, buf: Bytes, used: nat, s: Bytes, h: Bytes -> nat, t: Bytes)
    requires Describes(o, buf, used, s) && o.hash == h(s)
    ensures o.hash == h(t) && o.length == |t| && buf[o.offset..o.offset + |t|] == t <==> s == t
  {
  }

  lemma {:induction false} StoredGrown(offs: seq<Off>, offs': seq<Off>, buf: Bytes, used: nat, h: Bytes -> nat,
                                       model: seq<Bytes>)
    requires Stored(offs, buf, used, h, model) && |offs| <= |offs'| && offs'[..|offs|] == offs
    requires forall i :: |offs| <= i < |offs'| ==> offs'[i] == Off(0, 0, 0)
    ensures Stored(offs', buf, used, h, model)
  {
    assert forall i :: 0 <= i < |offs| ==> offs'[i] == offs'[..|offs|][i];
    forall r | 0 <= r < |model| ensures Describes(offs'[r], buf, used, model[r]) {
      assert Describes(offs[r], buf, used, model[r]);
    }
  }

  // -------------------------------------------------------------------
  // The pool.
  // -------------------------------------------------------------------

  /** The check for room, a sum of 32-bit words, is right exactly for the lengths
      with which the sum does not wrap around. */
  lemma {:induction false} RoomCheckIff(used: nat, length: nat)
    requires used < BUFFER_SIZE && length < WORD32
    ensures ((used + length + 1) % WORD32 < BUFFER_SIZE <==> used + length + 1 < BUFFER_SIZE)
       <==> used + length + 1 < WORD32
  {
    if used + length + 1 >= WORD32 {
      assert (used + length + 1) % WORD32 == used + length + 1 - WORD32;
    }
  }

  class Pool {
    /** __do_hash: a function of the bytes. */
    const hash: Bytes -> nat
    var data: array<nat>       // g_pool
    var count: nat
    var capacity: nat
    var loadFactor: nat
    var offs: array<Off>       // g_array
    var offCount: nat
    var buffer: array<Byte>    // g_buffer
    var used: nat
    /** The string of every reference. */
    ghost var Model: seq<Bytes>

    ghost predicate Valid()
      reads this, data, offs, buffer
    {
      && capacity == data.Length && PowerOfTwo(capacity) && loadFactor == LoadFactor(capacity)
      && count == Used(data[..]) <= loadFactor && Table(data[..], hash, Model)
      && offCount == |Model| == count + 1 && buffer.Length == BUFFER_SIZE
      && used == Space(Model) && IsPool(Model) && Stored(offs[..], buffer[..], used, hash, Model)
    }

    /** string_pool_setup. */
    constructor (hash: Bytes -> nat)
      ensures Valid() && fresh(data) && fresh(offs) && fresh(buffer) && Model == [[]] && this.hash == hash
    {
      this.hash := hash;
      data := new nat[POOL_CAPACITY](_ => 0);
      count, capacity, loadFactor := 0, POOL_CAPACITY, LoadFactor(POOL_CAPACITY);
      offs := new Off[ARRAY_CAPACITY](_ => Off(0, 0, 0));
      offCount := 1;
      buffer := new Byte[BUFFER_SIZE](_ => 0);
      used := 1;
      Model := [[]];
      new;
      UsedNone(data[..]);
      Setup(capacity);
      assert Describes(offs[..][0], buffer[..], 1, []);
    }

    /** __lookup. */
    method Lookup(s: Bytes, hash: nat) returns (r: nat, ghost t: nat)
      requires Valid() && hash == this.hash(s)
      ensures r != 0 ==> r < |Model| && Model[r] == s
      ensures r == 0 ==> forall q :: 0 < q < |Model| ==> Model[q] != s
    {
      hide Walked, Chain, Housed, IsPool, Space, And;
      var mask := capacity - 1;
      var idx := And(hash, mask);
      MaskIsRemainder(hash, capacity);
      Doubled(capacity);
      ghost var d, home := data[..], idx;
      t := 0;
      WalkStart(d, this.hash, Model, s);
      while data[idx] != 0
        invariant t < capacity && idx == At(capacity, home, t) && Walked(d, this.hash, Model, s, t)
        decreases capacity - t
      {
        r := data[idx];
        var so := offs[r];
        assert r == d[idx] < |Model| && so == offs[..][r] && Describes(offs[..][r], buffer[..], used, Model[r]);
        SameString(so, buffer[..], used, Model[r], this.hash, s);
        if so.hash == hash && so.length == |s| && buffer[so.offset..so.offset + |s|] == s { return; }
        assert buffer[..][so.offset..so.offset + so.length] == buffer[so.offset..so.offset + so.length];
        WalkStep(d, this.hash, Model, s, t);
        NextMask(capacity, idx);
        idx := And(idx + 1, mask);
        t := t + 1;
      }
      r := 0;
      WalkDecides(d, this.hash, Model, s, t);
    }

    /** The first free slot on the walk of a string. */
    static method FreeSlot(data: array<nat>, ghost h: Bytes -> nat, ghost s: Bytes, hash: nat, mask: nat)
        returns (idx: nat)
      requires mask + 1 == data.Length && PowerOfTwo(data.Length) && hash == h(s) && Used(data[..]) < data.Length
      ensures idx < data.Length && data[idx] == 0 && Reachable(data[..], h, s, idx)
    {
      ghost var d, n, t := data[..], data.Length, 0;
      idx := And(hash, mask);
      MaskIsRemainder(hash, n);
      ghost var home := idx;
      while data[idx] != 0
        invariant t < n && idx == At(n, home, t) && Chain(d, home, t)
        decreases n - t
      {
        ChainGrows(d, home, t);
        FreeStops(d, home);
        NextMask(n, idx);
        idx := And(idx + 1, mask);
        t := t + 1;
      }
    }

    /** The loop of __try_resize: every reference goes into a new table. */
    method Rehash(size: nat) returns (pool: array<nat>)
      requires Valid() && PowerOfTwo(size) && capacity < size
      ensures fresh(pool) && pool.Length == size && Table(pool[..], hash, Model) && Used(pool[..]) == count
    {
      hide Chain, Housed, IsPool, Space, Moved, Used;
      pool := new nat[size](_ => 0);
      var mask := size - 1;
      var i := 0;
      ghost var d := data[..];
      UsedNone(pool[..]);
      MovedNone(d, pool[..], hash, Model);
      UsedNext(d, 0);
      while i < capacity
        invariant i <= capacity == |d| && d == data[..] && Used(pool[..]) == Used(d[..i])
        invariant Moved(d, i, pool[..], hash, Model)
      {
        var s: nat := data[i];
        ghost var p: seq<nat> := pool[..];
        UsedNext(d, i);
        if s != 0 {
          assert s == d[i] < |Model|;
          var idx := FreeSlot(pool, hash, Model[s], offs[..][s].hash, mask);
          UsedUpdate(p, idx, s);
          MovedNext(d, i, p, hash, Model, idx);
          pool[idx] := s;
          assert pool[..] == p[idx := s];
        } else {
          MovedFree(d, i, p, hash, Model);
        }
        i := i + 1;
      }
      assert d[..i] == d;
      MovedAll(d, pool[..], hash, Model);
    }

    /** __try_resize. */
    method TryResize()
      requires Valid()
      modifies this`data, this`capacity, this`loadFactor
      ensures Valid() && count < loadFactor
      ensures capacity == if old(count < loadFactor) then old(capacity) else 2 * old(capacity)
      ensures data == old(data) || fresh(data)
    {
      Doubled(capacity);
      if count < loadFactor { return; }
      data := Rehash(capacity * 2);
      capacity := capacity * 2;
      loadFactor := LoadFactor(capacity);
    }

    /** __buffer_new: copies the bytes and takes a descriptor for them, whose
        hash the caller fills in; None when the buffer is exhausted. */
    method BufferNew(s: Bytes) returns (id: Option<nat>)
      requires buffer.Length == BUFFER_SIZE && Stored(offs[..], buffer[..], used, hash, Model) && offCount == |Model|
      requires used < BUFFER_SIZE && used + |s| + 1 < WORD32
      modifies this`offs, this`offCount, this`used, offs, buffer
      ensures offs == old(offs) || fresh(offs)
      ensures id.None? <==> old(used) + |s| + 1 >= BUFFER_SIZE
      ensures id.None? ==> offs == old(offs) && offs[..] == old(offs[..]) && buffer[..] == old(buffer[..])
                           && used == old(used) && offCount == old(offCount)
      ensures id.Some? ==> id.value == old(offCount) < offs.Length && offCount == old(offCount) + 1
                           && used == old(used) + |s| + 1
                           && Stored(offs[..][id.value := offs[id.value].(hash := hash(s))], buffer[..], used, hash,
                                     Model + [s])
    {
      var prev := used;
      var size := (prev + |s| + 1) % WORD32;
      if size >= buffer.Length { return None; }
      Grow();
      ghost var o, b := offs[..], buffer[..];
      forall i | 0 <= i < |s| { buffer[prev + i] := s[i]; }
      used := size;
      id := Some(offCount);
      offCount := offCount + 1;
      offs[id.value] := offs[id.value].(offset := prev, length := |s|);
      assert buffer[..][prev..prev + |s|] == s;
      StoredNext(o, b, prev, hash, Model, s, buffer[..]);
      assert offs[..][id.value := offs[id.value].(hash := hash(s))] == o[id.value := Off(prev, |s|, hash(s))];
    }

    /** BufferNew with the hash filled in. */
    method Describe(s: Bytes, hash: nat) returns (id: Option<nat>)
      requires buffer.Length == BUFFER_SIZE && Stored(offs[..], buffer[..], used, this.hash, Model)
               && offCount == |Model|
      requires used < BUFFER_SIZE && used + |s| + 1 < WORD32 && hash == this.hash(s)
      modifies this`offs, this`offCount, this`used, offs, buffer
      ensures offs == old(offs) || fresh(offs)
      ensures id.None? <==> old(used) + |s| + 1 >= BUFFER_SIZE
      ensures id.None? ==> used == old(used) && offCount == old(offCount)
                           && Stored(offs[..], buffer[..], used, this.hash, Model)
      ensures id.Some? ==> id.value == |Model| && offCount == |Model| + 1 && used == old(used) + |s| + 1
                           && Stored(offs[..], buffer[..], used, this.hash, Model + [s])
    {
      id := BufferNew(s);
      if id.None? { return; }
      ghost var o := offs[..];
      offs[id.value] := offs[id.value].(hash := hash);
      assert offs[..] == o[id.value := o[id.value].(hash := hash)];
    }

    /** Makes room for another descriptor. */
    method Grow()
      requires Stored(offs[..], buffer[..], used, hash, Model) && offCount == |Model|
      modifies this`offs
      ensures Stored(offs[..], buffer[..], used, hash, Model) && offCount < offs.Length
      ensures offs == old(offs) || fresh(offs)
      ensures offs.Length == if offCount < old(offs.Length) then old(offs.Length) else 2 * old(offs.Length)
    {
      if offCount >= offs.Length {
        var o := offs;
        offs := new Off[o.Length * 2](i requires 0 <= i reads o => if i < o.Length then o[i] else Off(0, 0, 0));
        StoredGrown(o[..], offs[..], buffer[..], used, hash, Model);
      }
    }

    /** string_ref_newlen: the reference of a string; None when the pool is
        exhausted. */
    method NewLen(s: Bytes) returns (r: Option<nat>)
      requires Valid() && used + |s| + 1 < WORD32
      modifies this, data, offs, buffer
      ensures Valid()
      ensures Interned(old(Model), s).None? ==> r.None? && Model == old(Model)
      ensures Interned(old(Model), s).Some? ==> r.Some? && (r.value, Model) == Interned(old(Model), s).value
    {
      if |s| == 0 {
        assert s == Model[0] && Differ(Model, 0, RefOf(Model, s));
        return Some(0);
      }
      var hash := this.hash(s);
      var str, t := Lookup(s, hash);
      if str != 0 {
        assert Differ(Model, str, RefOf(Model, s));
        return Some(str);
      }
      assert s !in Model;
      TryResize();
      r := AddNew(s, hash);
    }

    /** Writes the next reference into a free slot on the walk of its string. */
    static method House(data: array<nat>, idx: nat, ghost h: Bytes -> nat, ghost model: seq<Bytes>, ghost s: Bytes,
                        str: nat)
      requires Table(data[..], h, model) && model != [] && str == |model|
      requires idx < data.Length && data[idx] == 0 && Reachable(data[..], h, s, idx)
      modifies data
      ensures Table(data[..], h, model + [s]) && Used(data[..]) == old(Used(data[..])) + 1
    {
      ghost var d := data[..];
      data[idx] := str;
      assert data[..] == d[idx := str];
      UsedUpdate(d, idx, str);
      TableNext(d, h, model, s, idx);
    }

    lemma {:induction false} Room()
      requires Valid()
      ensures used < BUFFER_SIZE
    {
    }

    /** The rest of string_ref_newlen, for a string that is not there. */
    method AddNew(s: Bytes, hash: nat) returns (r: Option<nat>)
      requires Valid() && count < loadFactor && s !in Model && used + |s| + 1 < WORD32 && hash == this.hash(s)
      modifies this`count, this`offs, this`offCount, this`used, this`Model, data, offs, buffer
      ensures Valid()
      ensures r.None? <==> old(used) + |s| + 1 >= BUFFER_SIZE
      ensures r.None? ==> Model == old(Model)
      ensures r.Some? ==> r.value == |old(Model)| && Model == old(Model) + [s]
    {
      hide Stored, Table, IsPool, Space, Used;
      Room();
      Doubled(capacity);
      var idx := FreeSlot(data, this.hash, s, hash, capacity - 1);
      r := Describe(s, hash);
      if r.None? { return; }
      House(data, idx, this.hash, Model, s, r.value);
      PoolNext(Model, s);
      count := count + 1;
      Model := Model + [s];
    }

    /** The string of a reference; unused array entries read as empty. */
    ghost function StringOf(r: nat): Bytes
      reads this
    {
      if r < |Model| then Model[r] else []
    }

    /** string_ref_ptr, string_ref_len and string_ref_hash: where the bytes of a
        reference lie, NUL-terminated, how many they are, and their hash; None
        outside the array. */
    method Access(r: nat) returns (o: Option<Off>)
      requires Valid()
      ensures o.None? <==> r >= offs.Length
      ensures o.Some? ==> Describes(o.value, buffer[..], used, StringOf(r))
      ensures 0 < r < |Model| ==> o.Some? && o.value.hash == hash(Model[r])
    {
      if r >= offs.Length { return None; }
      o := Some(offs[r]);
      assert offs[..][r] == offs[r];
      assert Describes(offs[..][0], buffer[..], used, Model[0]);
      assert r < |Model| ==> Describes(offs[..][r], buffer[..], used, Model[r]);
    }
  }

  lemma {:induction false} Setup(n: nat)
    requires n == POOL_CAPACITY
    ensures PowerOfTwo(n)
  {
    Doubled(1); Doubled(2); Doubled(4); Doubled(8); Doubled(16); Doubled(32);
    Doubled(64); Doubled(128); Doubled(256); Doubled(512); Doubled(1024); Doubled(2048);
  }
}
