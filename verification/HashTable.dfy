/** The linear-probing hash table of hash_table.cc, with tombstones left by
    removal, as a finite map from string references to values. */
module HashTable {
  import opened Wrappers
  import opened Bits
  import opened Probing

  /** A value pointer as the table stores and returns it. */
  datatype Ptr<+V> = Null | Tombstone | Obj(v: V)

  datatype Entry<+V> = Entry(key: nat, val: Ptr<V>, hash: nat)

  function Keys<V>(s: seq<Entry<V>>): (keys: seq<nat>)
    ensures |keys| == |s| && forall i :: 0 <= i < |s| ==> keys[i] == s[i].key
  {
    seq(|s|, i requires 0 <= i < |s| => s[i].key)
  }

  predicate Live<V>(e: Entry<V>) { e.key != 0 && e.val.Obj? }

  /** The keys of the live entries, 0 for the others. */
  function LiveKeys<V>(s: seq<Entry<V>>): (keys: seq<nat>)
    ensures |keys| == |s| && forall i :: 0 <= i < |s| ==> keys[i] == if Live(s[i]) then s[i].key else 0
  {
    seq(|s|, i requires 0 <= i < |s| => if Live(s[i]) then s[i].key else 0)
  }

  function Home(h: nat -> nat, key: nat, n: nat): (i: nat)
    requires n > 0
    ensures i < n
  {
    h(key) % n
  }

  /** A used slot holds a value or a tombstone under the hash of its key. */
  predicate Hashed<V>(e: Entry<V>, h: nat -> nat) { e.key != 0 ==> e.hash == h(e.key) && !e.val.Null? }

  /** All slots on the walk of the key before slot i are used. */
  predicate Reachable<V>(s: seq<Entry<V>>, h: nat -> nat, key: nat, i: nat)
    requires i < |s|
  {
    var home := Home(h, key, |s|);
    Chain(Keys(s), home, Dist(|s|, home, i))
  }

  predicate Found<V>(s: seq<Entry<V>>, h: nat -> nat, i: nat)
    requires i < |s|
  {
    Live(s[i]) ==> Reachable(s, h, s[i].key, i)
  }

  predicate Apart<V>(s: seq<Entry<V>>, i: nat, j: nat)
    requires i < |s| && j < |s|
  {
    Live(s[i]) && Live(s[j]) && s[i].key == s[j].key ==> i == j
  }

  ghost predicate AllHashed<V>(s: seq<Entry<V>>, h: nat -> nat) {
    forall i {:trigger Hashed(s[i], h)} :: 0 <= i < |s| ==> Hashed(s[i], h)
  }

  /** Slots are well formed, no key is live twice, and every live entry is
      found by walking from its home. */
  ghost predicate Placed<V>(s: seq<Entry<V>>, h: nat -> nat) {
    && AllHashed(s, h)
    && (forall i, j {:trigger Apart(s, i, j)} :: 0 <= i < |s| && 0 <= j < |s| ==> Apart(s, i, j))
    && (forall i {:trigger Found(s, h, i)} :: 0 <= i < |s| ==> Found(s, h, i))
  }

  ghost predicate HoldsKey<V>(s: seq<Entry<V>>, key: nat) { exists i :: 0 <= i < |s| && Live(s[i]) && s[i].key == key }

  ghost predicate Bound<V>(s: seq<Entry<V>>, i: nat, m: map<nat, V>)
    requires i < |s|
  {
    Live(s[i]) ==> s[i].key in m && m[s[i].key] == s[i].val.v
  }

  /** The live entries are exactly the bindings of the map. */
  ghost predicate Represents<V>(s: seq<Entry<V>>, m: map<nat, V>) {
    && (forall i {:trigger Bound(s, i, m)} :: 0 <= i < |s| ==> Bound(s, i, m))
    && (forall k {:trigger HoldsKey(s, k)} :: k in m ==> HoldsKey(s, k))
  }

  // -------------------------------------------------------------------
  // Writing one slot.
  // -------------------------------------------------------------------

  /** No live entry has the key. */
  ghost predicate Missing<V>(s: seq<Entry<V>>, key: nat) {
    forall i {:trigger Matches(s[i], key)} :: 0 <= i < |s| ==> !Matches(s[i], key)
  }

  predicate Matches<V>(e: Entry<V>, key: nat) { Live(e) && e.key == key }

  /** Filling a dead slot on the walk of a missing key. */
  lemma {:induction false} Fill<V>(s: seq<Entry<V>>, h: nat -> nat, i: nat, key: nat, v: V)
    requires Placed(s, h) && i < |s| && key != 0 && !Live(s[i]) && Missing(s, key) && Reachable(s, h, key, i)
    ensures Placed(s[i := Entry(key, Obj(v), h(key))], h)
  {
    var s' := s[i := Entry(key, Obj(v), h(key))];
    forall j | 0 <= j < |s| ensures Hashed(s'[j], h) { assert Hashed(s[j], h); }
    forall j | 0 <= j < |s| ensures Found(s', h, j) {
      assert Found(s, h, j);
      if Live(s'[j]) {
        var home := Home(h, s'[j].key, |s|);
        ChainKept(Keys(s), Keys(s'), home, Dist(|s|, home, j));
      }
    }
    forall j, k | 0 <= j < |s| && 0 <= k < |s| ensures Apart(s', j, k) {
      assert Apart(s, j, k) && !Matches(s[j], key) && !Matches(s[k], key);
    }
  }

  lemma {:induction false} FillMap<V>(s: seq<Entry<V>>, m: map<nat, V>, i: nat, e: Entry<V>)
    requires Represents(s, m) && i < |s| && Live(e) && !Live(s[i]) && Missing(s, e.key)
    ensures Represents(s[i := e], m[e.key := e.val.v]) && e.key !in m
  {
    var s', m' := s[i := e], m[e.key := e.val.v];
    Unbound(s, m, e.key);
    forall j | 0 <= j < |s| ensures Bound(s', j, m') {
      assert Bound(s, j, m) && !Matches(s[j], e.key);
    }
    forall k | k in m' ensures HoldsKey(s', k) {
      if k == e.key {
        assert Live(s'[i]);
      } else {
        assert HoldsKey(s, k);
        var j :| 0 <= j < |s| && Live(s[j]) && s[j].key == k;
        assert Live(s'[j]);
      }
    }
  }

  /** A key is missing exactly when it is not bound. */
  lemma {:induction false} Unbound<V>(s: seq<Entry<V>>, m: map<nat, V>, key: nat)
    requires Represents(s, m)
    ensures Missing(s, key) <==> key !in m
  {
    if Missing(s, key) {
      assert key in m ==> HoldsKey(s, key);
      assert forall i :: 0 <= i < |s| ==> !Matches(s[i], key);
    } else {
      var i :| 0 <= i < |s| && Matches(s[i], key);
      assert Bound(s, i, m);
    }
  }

  /** Putting another value, or a tombstone, in the place of a live value. */
  lemma {:induction false} Revalue<V>(s: seq<Entry<V>>, h: nat -> nat, i: nat, val: Ptr<V>)
    requires Placed(s, h) && i < |s| && Live(s[i]) && !val.Null?
    ensures Placed(s[i := s[i].(val := val)], h)
  {
    var s' := s[i := s[i].(val := val)];
    assert Keys(s') == Keys(s);
    forall j | 0 <= j < |s| ensures Hashed(s'[j], h) && Found(s', h, j) { assert Hashed(s[j], h) && Found(s, h, j); }
    forall j, k | 0 <= j < |s| && 0 <= k < |s| ensures Apart(s', j, k) { assert Apart(s, j, k); }
  }

  lemma {:induction false} ReplaceMap<V>(s: seq<Entry<V>>, h: nat -> nat, m: map<nat, V>, i: nat, v: V)
    requires Placed(s, h) && Represents(s, m) && i < |s| && Live(s[i])
    ensures Represents(s[i := s[i].(val := Obj(v))], m[s[i].key := v])
  {
    var s', m' := s[i := s[i].(val := Obj(v))], m[s[i].key := v];
    forall j | 0 <= j < |s| ensures Bound(s', j, m') { assert Bound(s, j, m) && Apart(s, i, j); }
    forall k | k in m' ensures HoldsKey(s', k) {
      assert Bound(s, i, m) && HoldsKey(s, k);
      var j :| 0 <= j < |s| && Live(s[j]) && s[j].key == k;
      assert Live(s'[j]);
    }
  }

  lemma {:induction false} RemoveMap<V>(s: seq<Entry<V>>, h: nat -> nat, m: map<nat, V>, i: nat)
    requires Placed(s, h) && Represents(s, m) && i < |s| && Live(s[i])
    ensures Represents(s[i := s[i].(val := Tombstone)], m - {s[i].key}) && |m - {s[i].key}| == |m| - 1
  {
    var s', m' := s[i := s[i].(val := Tombstone)], m - {s[i].key};
    forall j | 0 <= j < |s| ensures Bound(s', j, m') { assert Bound(s, j, m) && Apart(s, i, j); }
    forall k | k in m' ensures HoldsKey(s', k) {
      assert HoldsKey(s, k);
      var j :| 0 <= j < |s| && Live(s[j]) && s[j].key == k;
      assert Live(s'[j]);
    }
    assert Bound(s, i, m);
    assert m == m'[s[i].key := s[i].val.v];
  }

  /** The walk of a key meets neither a free slot nor a live entry with the
      key in its first t steps. */
  ghost predicate Walked<V>(s: seq<Entry<V>>, h: nat -> nat, key: nat, t: nat)
    requires t <= |s| && 0 < |s|
  {
    var home := Home(h, key, |s|);
    Chain(Keys(s), home, t) && forall u :: 0 <= u < t ==> !Matches(s[At(|s|, home, u)], key)
  }

  /** No tombstone is met in the first u steps of the walk of a key. */
  ghost predicate NoTombstone<V>(s: seq<Entry<V>>, h: nat -> nat, key: nat, u: nat)
    requires 0 < |s| && u <= |s|
  {
    forall v :: 0 <= v < u ==> !s[At(|s|, Home(h, key, |s|), v)].val.Tombstone?
  }

  /** The first tombstone met in the first t steps. */
  ghost predicate FirstTombstone<V>(s: seq<Entry<V>>, h: nat -> nat, key: nat, t: nat, tombstone: Option<nat>)
    requires 0 < |s| && t <= |s|
  {
    match tombstone
    case None => NoTombstone(s, h, key, t)
    case Some(i) => i < |s| && s[i].val.Tombstone? && Dist(|s|, Home(h, key, |s|), i) < t
                    && NoTombstone(s, h, key, Dist(|s|, Home(h, key, |s|), i))
  }

  lemma {:induction false} TombstoneStep<V>(s: seq<Entry<V>>, h: nat -> nat, key: nat, t: nat, tombstone: Option<nat>)
    requires t < |s| && FirstTombstone(s, h, key, t, tombstone)
    ensures var i := At(|s|, Home(h, key, |s|), t);
            FirstTombstone(s, h, key, t + 1, if tombstone.None? && s[i].val.Tombstone? then Some(i) else tombstone)
  {
  }

  lemma {:induction false} WalkStart<V>(s: seq<Entry<V>>, h: nat -> nat, key: nat)
    requires 0 < |s|
    ensures Walked(s, h, key, 0) && FirstTombstone(s, h, key, 0, None)
  {
  }

  lemma {:induction false} WalkStep<V>(s: seq<Entry<V>>, h: nat -> nat, key: nat, t: nat)
    requires t < |s| && Walked(s, h, key, t) && Used(Keys(s)) < |s|
    requires var e := s[At(|s|, Home(h, key, |s|), t)]; e.key != 0 && !Matches(e, key)
    ensures t + 1 < |s| && Walked(s, h, key, t + 1)
    ensures At(|s|, Home(h, key, |s|), t + 1) == Next(|s|, At(|s|, Home(h, key, |s|), t))
  {
    var home := Home(h, key, |s|);
    ChainGrows(Keys(s), home, t);
    FreeStops(Keys(s), home);
  }

  /** A tombstone on the walk of the key. */
  predicate Reusable<V>(s: seq<Entry<V>>, h: nat -> nat, key: nat, i: nat) {
    i < |s| && s[i].key != 0 && !Live(s[i]) && Reachable(s, h, key, i)
  }

  lemma {:induction false} WalkReaches<V>(s: seq<Entry<V>>, h: nat -> nat, key: nat, t: nat)
    requires t < |s| && Walked(s, h, key, t)
    requires var e := s[At(|s|, Home(h, key, |s|), t)]; e.key != 0 && !Live(e)
    ensures Reusable(s, h, key, At(|s|, Home(h, key, |s|), t))
  {
  }

  /** A walk that ends at a free slot without a match shows that the key is not
      bound. */
  lemma {:induction false} WalkDecides<V>(s: seq<Entry<V>>, h: nat -> nat, m: map<nat, V>, key: nat, t: nat)
    requires Placed(s, h) && Represents(s, m) && t < |s| && Walked(s, h, key, t)
    requires s[At(|s|, Home(h, key, |s|), t)].key == 0
    ensures Missing(s, key) && key !in m
  {
    hide Chain;
    var home := Home(h, key, |s|);
    forall i | 0 <= i < |s| ensures !Matches(s[i], key) {
      if Matches(s[i], key) {
        assert Found(s, h, i);
        ChainCovers(Keys(s), home, t, i);
      }
    }
    Unbound(s, m, key);
  }

  /** The slots store the map, with so many of them used and live. */
  ghost predicate Stores<V>(s: seq<Entry<V>>, h: nat -> nat, m: map<nat, V>, used: nat, live: nat) {
    Placed(s, h) && Represents(s, m) && used == Used(Keys(s)) && live == Used(LiveKeys(s)) == |m|
  }

  lemma {:induction false} StoresNothing<V>(s: seq<Entry<V>>, h: nat -> nat)
    requires forall i :: 0 <= i < |s| ==> s[i] == Entry(0, Null, 0)
    ensures Stores(s, h, map[], 0, 0)
  {
    UsedNone(Keys(s));
    UsedNone(LiveKeys(s));
  }

  lemma {:induction false} FillStores<V>(s: seq<Entry<V>>, h: nat -> nat, m: map<nat, V>, used: nat, live: nat,
                                         i: nat, key: nat, v: V)
    requires Stores(s, h, m, used, live) && i < |s| && key != 0 && !Live(s[i]) && Missing(s, key)
             && Reachable(s, h, key, i)
    ensures Stores(s[i := Entry(key, Obj(v), h(key))], h, m[key := v],
                   if s[i].key == 0 then used + 1 else used, live + 1)
    ensures key !in m
  {
    var e := Entry(key, Obj(v), h(key));
    Fill(s, h, i, key, v);
    FillMap(s, m, i, e);
    assert Keys(s[i := e]) == Keys(s)[i := key];
    assert LiveKeys(s[i := e]) == LiveKeys(s)[i := key];
    UsedUpdate(Keys(s), i, key);
    UsedUpdate(LiveKeys(s), i, key);
  }

  lemma {:induction false} ReplaceStores<V>(s: seq<Entry<V>>, h: nat -> nat, m: map<nat, V>, used: nat, live: nat,
                                            i: nat, v: V)
    requires Stores(s, h, m, used, live) && i < |s| && Live(s[i])
    ensures Stores(s[i := s[i].(val := Obj(v))], h, m[s[i].key := v], used, live)
    ensures s[i].key in m && m[s[i].key] == s[i].val.v
  {
    assert Bound(s, i, m);
    var s' := s[i := s[i].(val := Obj(v))];
    Revalue(s, h, i, Obj(v));
    ReplaceMap(s, h, m, i, v);
    assert Keys(s') == Keys(s);
    assert LiveKeys(s') == LiveKeys(s);
    assert m[s[i].key := v].Keys == m.Keys;
    assert |m[s[i].key := v].Keys| == |m[s[i].key := v]|;
  }

  lemma {:induction false} RemoveStores<V>(s: seq<Entry<V>>, h: nat -> nat, m: map<nat, V>, used: nat, live: nat,
                                           i: nat)
    requires Stores(s, h, m, used, live) && i < |s| && Live(s[i])
    ensures live > 0 && Stores(s[i := s[i].(val := Tombstone)], h, m - {s[i].key}, used, live - 1)
    ensures s[i].key in m && m[s[i].key] == s[i].val.v
  {
    assert Bound(s, i, m);
    var s' := s[i := s[i].(val := Tombstone)];
    Revalue(s, h, i, Tombstone);
    RemoveMap(s, h, m, i);
    assert Keys(s') == Keys(s);
    assert LiveKeys(s') == LiveKeys(s)[i := 0];
    UsedUpdate(LiveKeys(s), i, 0);
  }

  // -------------------------------------------------------------------
  // Moving the live entries to another table.
  // -------------------------------------------------------------------

  /** The map so far holds the live entries of the first i slots of the old
      table; the next one is not in it yet. */
  lemma {:induction false} MoveNext<V>(from: seq<Entry<V>>, h: nat -> nat, i: nat, s: seq<Entry<V>>, m: map<nat, V>)
    requires Placed(from, h) && i < |from| && Represents(from[..i], m) && Represents(s, m) && Live(from[i])
    ensures Missing(s, from[i].key) && Represents(from[..i + 1], m[from[i].key := from[i].val.v])
    ensures Used(LiveKeys(from[..i + 1])) == Used(LiveKeys(from[..i])) + 1
  {
    var e, f, f' := from[i], from[..i], from[..i + 1];
    var m' := m[e.key := e.val.v];
    forall j | 0 <= j < |f| ensures !Matches(f[j], e.key) { assert Apart(from, i, j); }
    Unbound(f, m, e.key);
    Unbound(s, m, e.key);
    forall j | 0 <= j < |f'| ensures Bound(f', j, m') {
      if j < i { assert Bound(f, j, m); }
    }
    forall k | k in m' ensures HoldsKey(f', k) {
      if k == e.key {
        assert Live(f'[i]);
      } else {
        HoldsMore(from, i, k, m);
      }
    }
    assert LiveKeys(f')[..i] == LiveKeys(f);
  }

  lemma {:induction false} HoldsMore<V>(from: seq<Entry<V>>, i: nat, k: nat, m: map<nat, V>)
    requires i < |from| && Represents(from[..i], m) && k in m
    ensures HoldsKey(from[..i + 1], k)
  {
    assert HoldsKey(from[..i], k);
    var j :| 0 <= j < i && Live(from[..i][j]) && from[..i][j].key == k;
    assert Live(from[..i + 1][j]);
  }

  lemma {:induction false} MoveNone<V>(from: seq<Entry<V>>, i: nat, m: map<nat, V>)
    requires i < |from| && Represents(from[..i], m) && !Live(from[i])
    ensures Represents(from[..i + 1], m) && Used(LiveKeys(from[..i + 1])) == Used(LiveKeys(from[..i]))
  {
    var f, f' := from[..i], from[..i + 1];
    forall j | 0 <= j < |f'| ensures Bound(f', j, m) {
      if j < i { assert Bound(f, j, m); }
    }
    forall k | k in m ensures HoldsKey(from[..i + 1], k) { HoldsMore(from, i, k, m); }
    assert LiveKeys(from[..i + 1])[..i] == LiveKeys(from[..i]);
  }

  lemma {:induction false} SameMap<V>(s: seq<Entry<V>>, m: map<nat, V>, m': map<nat, V>)
    requires Represents(s, m) && Represents(s, m')
    ensures m == m'
  {
    forall k ensures k in m <==> k in m' {
      Unbound(s, m, k);
      Unbound(s, m', k);
    }
    forall k | k in m ensures m[k] == m'[k] {
      assert HoldsKey(s, k);
      var i :| 0 <= i < |s| && Live(s[i]) && s[i].key == k;
      assert Bound(s, i, m) && Bound(s, i, m');
    }
  }

  /** Live slots are used slots. */
  lemma {:induction false} Few<V>(s: seq<Entry<V>>)
    ensures Used(LiveKeys(s)) <= Used(Keys(s))
  {
    if s != [] {
      var t := s[..|s| - 1];
      assert Keys(s)[..|t|] == Keys(t) && LiveKeys(s)[..|t|] == LiveKeys(t);
      Few(t);
    }
  }

  // -------------------------------------------------------------------
  // The table.
  // -------------------------------------------------------------------

  class Table<V> {
    /** string_ref_hash: a function of the reference. */
    const hash: nat -> nat
    var entries: array<Entry<V>>
    var count: nat
    var slots: nat        // _count
    var capacity: nat
    var loadFactor: nat
    ghost var Model: map<nat, V>

    ghost predicate Valid()
      reads this, entries
    {
      && capacity == entries.Length && PowerOfTwo(capacity) && loadFactor == LoadFactor(capacity)
      && slots <= loadFactor && Stores(entries[..], hash, Model, slots, count)
    }

    /** hash_table_setup, for a capacity that can be rounded up in 32 bits. */
    constructor (hash: nat -> nat, wanted: bv32)
      requires 0 < wanted <= 0x8000_0000
      ensures Valid() && fresh(entries) && Model == map[] && this.hash == hash && Rounded(wanted, capacity)
    {
      var size := RoundedUp(wanted);
      var cells := new Entry<V>[size](_ => Entry(0, Null, 0));
      this.hash := hash;
      entries := cells;
      count, slots, capacity, loadFactor := 0, 0, size, LoadFactor(size);
      Model := map[];
      new;
      StoresNothing(entries[..], hash);
    }

    /** hash_table_clear. */
    method Clear()
      requires Valid()
      modifies this`count, this`slots, this`Model, entries
      ensures Valid() && Model == map[]
    {
      count, slots := 0, 0;
      forall i | 0 <= i < entries.Length { entries[i] := Entry(0, Null, 0); }
      StoresNothing(entries[..], hash);
      Model := map[];
    }

    /** Used slots carry the hash of their key, and some slot is free. */
    ghost predicate Probed()
      reads this, entries
    {
      && capacity == entries.Length && PowerOfTwo(capacity) && Used(Keys(entries[..])) < capacity
      && AllHashed(entries[..], hash)
    }

    lemma {:induction false} Ready()
      requires Valid()
      ensures Probed()
    {
      Doubled(capacity);
    }

    /** __do_lookup: the live entry with the key, if its walk meets one before a
        free slot; and the first tombstone on the way. */
    method DoLookup(key: nat, hash: nat) returns (at: Option<nat>, tombstone: Option<nat>, ghost t: nat)
      requires Probed() && hash == this.hash(key)
      ensures t < entries.Length && Walked(entries[..], this.hash, key, t)
      ensures var end := At(entries.Length, Home(this.hash, key, entries.Length), t);
              if at.Some? then at.value == end && Matches(entries[end], key) else entries[end].key == 0
      ensures FirstTombstone(entries[..], this.hash, key, t, tombstone)
      ensures tombstone.Some? ==> Reusable(entries[..], this.hash, key, tombstone.value)
    {
      hide Used, Walked, Reusable, Reachable, Keys, Chain, FirstTombstone, And, PowerOfTwo;
      var mask := capacity - 1;
      var idx := And(hash, mask);
      MaskIsRemainder(hash, capacity);
      ghost var s := entries[..];
      t := 0;
      WalkStart(s, this.hash, key);
      at, tombstone := None, None;
      while entries[idx].key != 0
        invariant t < capacity && idx == At(capacity, Home(this.hash, key, capacity), t) && Walked(s, this.hash, key, t)
        invariant FirstTombstone(s, this.hash, key, t, tombstone)
        invariant tombstone.Some? ==> Reusable(s, this.hash, key, tombstone.value)
        decreases capacity - t
      {
        var e := entries[idx];
        assert e == s[idx] && Hashed(s[idx], this.hash);
        TombstoneStep(s, this.hash, key, t, tombstone);
        if e.val.Tombstone? {
          if tombstone.None? {
            tombstone := Some(idx);
            WalkReaches(s, this.hash, key, t);
          }
        } else if e.key == key && e.hash == hash {
          at := Some(idx);
          return;
        }
        WalkStep(s, this.hash, key, t);
        NextMask(capacity, idx);
        idx := And(idx + 1, mask);
        t := t + 1;
      }
    }

    /** The first free slot on the walk of a key, as both loops that place an
        entry search it. */
    static method FreeSlot(cells: array<Entry<V>>, ghost h: nat -> nat, key: nat, hash: nat, mask: nat)
        returns (idx: nat)
      requires mask + 1 == cells.Length && PowerOfTwo(cells.Length) && hash == h(key)
               && Used(Keys(cells[..])) < cells.Length
      ensures idx < cells.Length && cells[idx].key == 0 && Reachable(cells[..], h, key, idx)
    {
      ghost var s, n, t := cells[..], cells.Length, 0;
      idx := And(hash, mask);
      MaskIsRemainder(hash, n);
      ghost var home := idx;
      while cells[idx].key != 0
        invariant t < n && idx == At(n, home, t) && Chain(Keys(s), home, t)
        decreases n - t
      {
        ChainGrows(Keys(s), home, t);
        FreeStops(Keys(s), home);
        NextMask(n, idx);
        idx := And(idx + 1, mask);
        t := t + 1;
      }
    }

    /** Writes an entry for a missing key into a dead slot on its walk. */
    static method Place(cells: array<Entry<V>>, idx: nat, e: Entry<V>,
                        ghost h: nat -> nat, ghost m: map<nat, V>, ghost used: nat, ghost live: nat)
      requires Stores(cells[..], h, m, used, live) && idx < cells.Length && !Live(cells[idx])
      requires Live(e) && e.hash == h(e.key) && Missing(cells[..], e.key) && Reachable(cells[..], h, e.key, idx)
      modifies cells
      ensures Stores(cells[..], h, m[e.key := e.val.v], if old(cells[idx].key) == 0 then used + 1 else used, live + 1)
    {
      FillStores(cells[..], h, m, used, live, idx, e.key, e.val.v);
      ghost var s := cells[..];
      cells[idx] := e;
      assert cells[..] == s[idx := e];
    }

    /** The loop of __try_resize: every live entry goes into a new table. */
    method Rehash(size: nat) returns (cells: array<Entry<V>>)
      requires Valid() && PowerOfTwo(size) && capacity < size
      ensures fresh(cells) && cells.Length == size && Stores(cells[..], hash, Model, count, count)
    {
      hide Used;
      cells := new Entry<V>[size](_ => Entry(0, Null, 0));
      var mask := size - 1;
      var i := 0;
      ghost var m: map<nat, V> := map[];
      ghost var s, n := entries[..], 0;
      StoresNothing(cells[..], hash);
      while i < capacity
        invariant i <= capacity == |s| && s == entries[..] && Represents(s[..i], m)
        invariant n == Used(LiveKeys(s[..i])) <= i && Stores(cells[..], hash, m, n, n)
      {
        var e := entries[i];
        assert Hashed(s[i], hash);
        if e.key == 0 || e.val.Tombstone? {
          MoveNone(s, i, m);
        } else {
          var idx := FreeSlot(cells, hash, e.key, e.hash, mask);
          MoveNext(s, hash, i, cells[..], m);
          Place(cells, idx, e, hash, m, n, n);
          m, n := m[e.key := e.val.v], n + 1;
        }
        i := i + 1;
      }
      assert s[..i] == s;
      SameMap(s, m, Model);
    }

    /** __try_resize: makes room for another used slot; tombstones go when the
        table grows. */
    method TryResize()
      requires Valid()
      modifies this`entries, this`slots, this`capacity, this`loadFactor
      ensures Valid() && slots < loadFactor
      ensures capacity == if old(slots < loadFactor) then old(capacity) else 2 * old(capacity)
      ensures slots == if old(slots < loadFactor) then old(slots) else count
      ensures entries == old(entries) || fresh(entries)
    {
      hide Used, Placed, Represents;
      Doubled(capacity);
      if slots < loadFactor { return; }
      Few(entries[..]);
      entries := Rehash(capacity * 2);
      slots := count;
      capacity := capacity * 2;
      loadFactor := LoadFactor(capacity);
    }

    /** hash_table_insert: binds the key, and returns the value it replaces. */
    method Insert(key: nat, v: V) returns (r: Ptr<V>)
      requires Valid() && key != 0
      modifies this, entries
      ensures Valid() && Model == old(Model)[key := v]
      ensures r == if key in old(Model) then Obj(old(Model)[key]) else Null
      ensures entries == old(entries) || fresh(entries)
    {
      hide Placed, Represents, Used, Reachable;
      var hash := this.hash(key);
      Ready();
      var at, tombstone, t := DoLookup(key, hash);
      if at.Some? {
        r := Replace(at.value, v);
        return;
      }
      WalkDecides(entries[..], this.hash, Model, key, t);
      if tombstone.Some? {
        Place(entries, tombstone.value, Entry(key, Obj(v), hash), this.hash, Model, slots, count);
      } else {
        TryResize();
        Append(key, v, hash);
      }
      Model := Model[key := v];
      count := count + 1;
      r := Null;
    }

    /** The case of hash_table_insert that finds the key. */
    method Replace(at: nat, v: V) returns (r: Ptr<V>)
      requires Valid() && at < entries.Length && Live(entries[at])
      modifies this`Model, entries
      ensures Valid() && Model == old(Model)[old(entries[at].key) := v]
      ensures old(entries[at].key) in old(Model) && r == Obj(old(Model)[old(entries[at].key)])
    {
      ghost var s := entries[..];
      ReplaceStores(s, hash, Model, slots, count, at, v);
      r := entries[at].val;
      Model := Model[entries[at].key := v];
      entries[at] := entries[at].(val := Obj(v));
      assert entries[..] == s[at := s[at].(val := Obj(v))];
    }

    /** The case of hash_table_insert that takes a free slot; the caller counts
        the new binding. */
    method Append(key: nat, v: V, hash: nat)
      requires Valid() && slots < loadFactor && key != 0 && hash == this.hash(key) && key !in Model
      modifies this`slots, entries
      ensures slots == old(slots) + 1 && Stores(entries[..], this.hash, Model[key := v], slots, count + 1)
    {
      Doubled(capacity);
      var idx := FreeSlot(entries, this.hash, key, hash, capacity - 1);
      Unbound(entries[..], Model, key);
      Place(entries, idx, Entry(key, Obj(v), hash), this.hash, Model, slots, count);
      slots := slots + 1;
    }

    /** hash_table_remove: unbinds the key, and returns its value. */
    method Remove(key: nat) returns (r: Ptr<V>)
      requires Valid()
      modifies this`count, this`Model, entries
      ensures Valid() && Model == old(Model) - {key}
      ensures r == if key in old(Model) then Obj(old(Model)[key]) else Null
    {
      hide Placed, Represents, Used, Reachable;
      var hash := this.hash(key);
      Ready();
      ghost var s := entries[..];
      var at, _, t := DoLookup(key, hash);
      if at.Some? {
        RemoveStores(s, this.hash, Model, slots, count, at.value);
        r := entries[at.value].val;
        entries[at.value] := entries[at.value].(val := Tombstone);
        assert entries[..] == s[at.value := s[at.value].(val := Tombstone)];
        count := count - 1;
        Model := Model - {key};
      } else {
        WalkDecides(s, this.hash, Model, key, t);
        assert Model - {key} == Model;
        r := Null;
      }
    }

    /** hash_table_lookup. */
    method Lookup(key: nat) returns (r: Ptr<V>)
      requires Valid()
      ensures r == if key in Model then Obj(Model[key]) else Null
    {
      var hash := this.hash(key);
      Ready();
      var at, _, t := DoLookup(key, hash);
      if at.Some? {
        assert Bound(entries[..], at.value, Model);
        r := entries[at.value].val;
      } else {
        WalkDecides(entries[..], this.hash, Model, key, t);
        r := Null;
      }
    }
  }
}
