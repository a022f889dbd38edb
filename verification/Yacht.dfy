/** The open-addressing hash table of file descriptors (src/lib/bus/yacht.c). */
module Yacht {
  import opened Wrappers

  const NO_KEY := -1
  const DELETED := -2
  const NULL := 0
  const DEF_SZ2 := 4
  const MAX_PROBES := 16
  /** 2^32 - 5. */
  const LARGE_PRIME := 4294967291

  function Pow2(k: nat): (r: nat)
    ensures r >= 1
  {
    if k == 0 then 1 else 2 * Pow2(k - 1)
  }

  /** buckets and values; there are 2^bits of each. */
  datatype Table = Table(bits: nat, keys: seq<int>, vals: seq<int>)

  /** A key is an int other than the two special values. */
  predicate IsKey(k: int) {
    -0x8000_0000 <= k < 0x8000_0000 && k != NO_KEY && k != DELETED
  }

  predicate Free(k: int) { k == NO_KEY || k == DELETED }

  predicate Sized(t: Table) {
    t.bits >= 1 && |t.keys| == |t.vals| == Pow2(t.bits)
  }

  /** `hash(key) & mask`: the product fits 64 bits, and masking a two's-complement number
      is the Euclidean remainder by the power of two. */
  function Home(key: int, size: nat): (r: nat)
    requires size > 0
    ensures r < size
  {
    key * LARGE_PRIME % size
  }

  /** `(b + o) & mask`. */
  function Wrap(h: nat, o: nat, size: nat): (r: nat)
    requires h < size && o < size
    ensures r < size
  {
    if h + o < size then h + o else h + o - size
  }

  /** Wrapping by subtraction is masking: the remainder by the table size. */
  lemma WrapIsMask(h: nat, o: nat, size: nat)
    requires h < size && o < size
    ensures Wrap(h, o, size) == (h + o) % size
  {
    var x := h + o;
    var q := x / size;
    assert x == size * q + x % size;
    MulBounds(size, q);
    MulBounds(size, q - 1);
    assert size * (q - 1) == size * q - size;
  }

  /** How many steps after h bucket i is probed. */
  function Dist(h: nat, i: nat, size: nat): (d: nat)
    requires h < size && i < size
    ensures d < size && Wrap(h, d, size) == i
  {
    if h <= i then i - h else i - h + size
  }

  /** The first offset in [o, max) whose bucket holds the key or is free for it. */
  function Probe(keys: seq<int>, key: int, o: nat, max: nat): (r: Option<nat>)
    requires |keys| > 0 && o <= max <= |keys|
    ensures var h := Home(key, |keys|);
            match r
            case Some(p) =>
              && o <= p < max && (keys[Wrap(h, p, |keys|)] == key || Free(keys[Wrap(h, p, |keys|)]))
              && forall q | o <= q < p :: keys[Wrap(h, q, |keys|)] != key && !Free(keys[Wrap(h, q, |keys|)])
            case None =>
              forall q | o <= q < max :: keys[Wrap(h, q, |keys|)] != key && !Free(keys[Wrap(h, q, |keys|)])
    decreases max - o
  {
    if o == max then None
    else
      var k := keys[Wrap(Home(key, |keys|), o, |keys|)];
      if k == key || Free(k) then Some(o) else Probe(keys, key, o + 1, max)
  }

  /** Yacht_Get stops at an empty bucket and also at a tombstone. */
  function Get(t: Table, key: int): Option<int>
    requires Sized(t)
  {
    match Probe(t.keys, key, 0, |t.keys|)
    case None => None
    case Some(o) =>
      var i := Wrap(Home(key, |t.keys|), o, |t.keys|);
      if t.keys[i] == key then Some(t.vals[i]) else None
  }

  /** insert: the new table and the old value, unless no bucket was found in max probes. */
  function Insert(t: Table, max: nat, key: int, val: int): Option<(Table, Option<int>)>
    requires Sized(t) && max <= |t.keys|
  {
    match Probe(t.keys, key, 0, max)
    case None => None
    case Some(o) =>
      var i := Wrap(Home(key, |t.keys|), o, |t.keys|);
      Some((t.(keys := t.keys[i := key], vals := t.vals[i := val]), if t.keys[i] == key then Some(t.vals[i]) else None))
  }

  function Empty(bits: nat): (t: Table)
    ensures bits >= 1 ==> Sized(t)
  {
    Table(bits, seq(Pow2(bits), _ => NO_KEY), seq(Pow2(bits), _ => 0))
  }

  /** Yacht_Init. */
  function Init(sz2: nat): Table {
    Empty(if sz2 == 0 then DEF_SZ2 else sz2)
  }

  /** grow's loop over the first n old buckets; None is its cleanup path. */
  function Rehash(t: Table, n: nat): (r: Option<Table>)
    requires Sized(t) && n <= |t.keys|
    ensures r.Some? ==> Sized(r.value) && r.value.bits == t.bits + 1
  {
    if n == 0 then Some(Empty(t.bits + 1))
    else
      match Rehash(t, n - 1)
      case None => None
      case Some(u) =>
        if Free(t.keys[n - 1]) then Some(u)
        else match Insert(u, |u.keys|, t.keys[n - 1], t.vals[n - 1])
          case None => None
          case Some(p) => Some(p.0)
  }

  function MaxFill(t: Table): (m: nat)
    requires Sized(t)
    ensures 1 <= m <= |t.keys|
  {
    var m := |t.keys| / 2;
    if m > 16 then MAX_PROBES else m
  }

  datatype SetResult = SetResult(ok: bool, table: Table, prior: Option<int>)

  /** Yacht_Set, when at most `mem` growths find memory. */
  function Set(t: Table, key: int, val: int, mem: nat): (r: SetResult)
    requires Sized(t)
    ensures Sized(r.table)
    decreases mem
  {
    match Insert(t, MaxFill(t), key, val)
    case Some(p) => SetResult(true, p.0, p.1)
    case None =>
      if mem == 0 then SetResult(false, t, None)
      else match Rehash(t, |t.keys|)
        case None => SetResult(false, t, None)
        case Some(u) => Set(u, key, val, mem - 1)
  }

  /** The first offset in [o, size) whose bucket holds the key or was never used. */
  function ProbeRemove(keys: seq<int>, key: int, o: nat): (r: Option<nat>)
    requires |keys| > 0 && o <= |keys|
    ensures var h := Home(key, |keys|);
            match r
            case Some(p) =>
              && o <= p < |keys| && (keys[Wrap(h, p, |keys|)] == key || keys[Wrap(h, p, |keys|)] == NO_KEY)
              && forall q | o <= q < p :: keys[Wrap(h, q, |keys|)] != key && keys[Wrap(h, q, |keys|)] != NO_KEY
            case None =>
              forall q | o <= q < |keys| :: keys[Wrap(h, q, |keys|)] != key && keys[Wrap(h, q, |keys|)] != NO_KEY
    decreases |keys| - o
  {
    if o == |keys| then None
    else
      var k := keys[Wrap(Home(key, |keys|), o, |keys|)];
      if k == key || k == NO_KEY then Some(o) else ProbeRemove(keys, key, o + 1)
  }

  datatype Removed = Removed(table: Table, prior: Option<int>)

  /** Yacht_Remove: the bucket becomes empty if the next one is, a tombstone otherwise. A
      caller that wants the old value gets it, and the value is cleared. */
  function Remove(t: Table, key: int, want: bool): (r: Option<Removed>)
    requires Sized(t)
    ensures r.Some? ==> Sized(r.value.table)
  {
    match ProbeRemove(t.keys, key, 0)
    case None => None
    case Some(o) =>
      var size := |t.keys|;
      var i := Wrap(Home(key, size), o, size);
      if t.keys[i] != key then None
      else
        var keys := t.keys[i := if t.keys[Wrap(i, 1, size)] == NO_KEY then NO_KEY else DELETED];
        Some(if want then Removed(Table(t.bits, keys, t.vals[i := NULL]), Some(t.vals[i]))
             else Removed(Table(t.bits, keys, t.vals), None))
  }

  // ---------------------------------------------------------------------------
  // The probing invariant

  /** No bucket between a key's home and its slot, cyclically, is empty. */
  ghost predicate Reachable(keys: seq<int>, i: nat)
    requires i < |keys|
  {
    var h := Home(keys[i], |keys|);
    forall o | 0 <= o < Dist(h, i, |keys|) :: keys[Wrap(h, o, |keys|)] != NO_KEY
  }

  ghost predicate AllReachable(keys: seq<int>) {
    forall i | 0 <= i < |keys| && !Free(keys[i]) :: Reachable(keys, i)
  }

  ghost predicate Keyed(keys: seq<int>) {
    forall i | 0 <= i < |keys| :: Free(keys[i]) || IsKey(keys[i])
  }

  /** Once the table is larger than the range of int, every key sits in its home bucket. */
  ghost predicate Spread(t: Table) {
    t.bits >= 32 ==> forall i | 0 <= i < |t.keys| && !Free(t.keys[i]) :: Home(t.keys[i], |t.keys|) == i
  }

  ghost predicate Valid(t: Table) {
    Sized(t) && Keyed(t.keys) && AllReachable(t.keys) && Spread(t)
  }

  predicate Has(t: Table, key: int) {
    exists i | 0 <= i < |t.keys| :: t.keys[i] == key
  }

  /** Filling a bucket never breaks another key's path. */
  lemma {:induction false} FillKeepsReachable(keys: seq<int>, i: nat, key: int)
    requires AllReachable(keys) && i < |keys| && !Free(key)
    requires var h := Home(key, |keys|);
             forall o | 0 <= o < Dist(h, i, |keys|) :: keys[Wrap(h, o, |keys|)] != NO_KEY
    ensures AllReachable(keys[i := key])
  {
    hide Home;
    var k2 := keys[i := key];
    forall j | 0 <= j < |k2| && !Free(k2[j]) ensures Reachable(k2, j) {
      var h := Home(k2[j], |keys|);
      if j != i { assert Reachable(keys, j); }
      forall o | 0 <= o < Dist(h, j, |keys|) ensures k2[Wrap(h, o, |keys|)] != NO_KEY {
        if j != i { assert keys[Wrap(h, o, |keys|)] != NO_KEY; }
      }
    }
  }

  /** The bucket after one on a key's path is on the path too, or is the key's own. */
  lemma NextOnPath(keys: seq<int>, j: nat, o: nat)
    requires j < |keys| && !Free(keys[j]) && Reachable(keys, j) && o < Dist(Home(keys[j], |keys|), j, |keys|)
    ensures keys[Wrap(Wrap(Home(keys[j], |keys|), o, |keys|), 1, |keys|)] != NO_KEY
  {
    hide Home;
    var h, size := Home(keys[j], |keys|), |keys|;
    assert Wrap(Wrap(h, o, size), 1, size) == Wrap(h, o + 1, size);
  }

  /** Emptying a bucket strands no key if the next bucket is empty, and a tombstone never does. */
  lemma EmptyKeepsReachable(keys: seq<int>, i: nat, mark: int)
    requires AllReachable(keys) && i < |keys| && |keys| > 1
    requires mark == DELETED || (mark == NO_KEY && keys[Wrap(i, 1, |keys|)] == NO_KEY)
    ensures AllReachable(keys[i := mark])
  {
    hide Home;
    var size := |keys|;
    var k2 := keys[i := mark];
    forall j | 0 <= j < size && !Free(k2[j]) ensures Reachable(k2, j) {
      var h := Home(k2[j], size);
      assert Reachable(keys, j);
      forall o | 0 <= o < Dist(h, j, size) ensures k2[Wrap(h, o, size)] != NO_KEY {
        assert keys[Wrap(h, o, size)] != NO_KEY;
        NextOnPath(keys, j, o);
      }
    }
  }

  // ---------------------------------------------------------------------------
  // Multiplying by an odd number spreads keys

  /** If 2^k divides an odd multiple of d, it divides d. */
  lemma {:induction false} OddFactorCancels(d: int, q: int, k: nat) returns (f: int)
    requires d * LARGE_PRIME == Pow2(k) * q
    ensures d == Pow2(k) * f
    decreases k
  {
    if k == 0 {
      f := d;
    } else {
      var p := Pow2(k - 1);
      Regroup(p, q);
      var e := p * q - d * 2147483645;
      assert d == 2 * e;
      f := OddFactorCancels(e, q, k - 1);
      Regroup(p, f);
    }
  }

  lemma Regroup(p: int, q: int)
    ensures 2 * p * q == 2 * (p * q)
  {
  }

  lemma MulBounds(p: nat, e: int)
    ensures e >= 1 ==> p * e >= p
    ensures e <= -1 ==> p * e <= 0 - p
  {
  }

  lemma SameRemainder(a: int, b: int, p: nat) returns (q: int)
    requires p > 0 && a % p == b % p
    ensures a - b == p * q
  {
    q := a / p - b / p;
    assert a == p * (a / p) + a % p && b == p * (b / p) + b % p;
  }

  lemma {:induction false} Pow2Grows(k: nat)
    requires k >= 32
    ensures Pow2(k) >= 0x1_0000_0000
  {
    if k == 32 {
      assert Pow2(8) == 256;
      assert Pow2(16) == 65536;
      assert Pow2(24) == 16777216;
      assert Pow2(32) == 4294967296;
    } else {
      Pow2Grows(k - 1);
    }
  }

  /** Distinct ints have distinct homes in a table of at least 2^32 buckets. */
  lemma {:induction false} HomesDistinct(a: int, b: int, k: nat)
    requires IsKey(a) && IsKey(b) && k >= 32 && Home(a, Pow2(k)) == Home(b, Pow2(k))
    ensures a == b
  {
    Pow2Grows(k);
    var q := SameRemainder(a * LARGE_PRIME, b * LARGE_PRIME, Pow2(k));
    var f := OddFactorCancels(a - b, q, k);
    MulBounds(Pow2(k), f);
  }

  // ---------------------------------------------------------------------------
  // Insertion

  /** insert keeps the invariant. */
  lemma {:induction false} InsertKeepsValid(t: Table, max: nat, key: int, val: int)
    requires Valid(t) && IsKey(key) && 1 <= max <= |t.keys|
    ensures var r := Insert(t, max, key, val); r.Some? ==> Valid(r.value.0)
  {
    hide Home;
    var r := Insert(t, max, key, val);
    if r.Some? {
      var h := Home(key, |t.keys|);
      var o := Probe(t.keys, key, 0, max).value;
      var i := Wrap(h, o, |t.keys|);
      assert Dist(h, i, |t.keys|) == o;
      FillKeepsReachable(t.keys, i, key);
      if t.bits >= 32 { HomeTaken(t, max, key); }
    }
  }

  /** In a table larger than the range of int the home bucket is never taken by another key,
      so the first probe succeeds. */
  lemma HomeTaken(t: Table, max: nat, key: int)
    requires Valid(t) && IsKey(key) && 1 <= max <= |t.keys| && t.bits >= 32
    ensures Probe(t.keys, key, 0, max) == Some(0)
  {
    hide Home;
    var h := Home(key, |t.keys|);
    assert Wrap(h, 0, |t.keys|) == h;
    if !Free(t.keys[h]) { HomesDistinct(key, t.keys[h], t.bits); }
  }

  /** The buckets in use. */
  function Used(keys: seq<int>): nat {
    if keys == [] then 0 else Used(keys[1..]) + if Free(keys[0]) then 0 else 1
  }

  lemma {:induction false} UsedUpdate(keys: seq<int>, i: nat, key: int)
    requires i < |keys|
    ensures Used(keys[i := key]) <= Used(keys) + 1
  {
    if i > 0 {
      assert keys[i := key][1..] == keys[1..][i - 1 := key];
      UsedUpdate(keys[1..], i - 1, key);
    } else {
      assert keys[0 := key][1..] == keys[1..];
    }
  }

  lemma {:induction false} UsedFull(keys: seq<int>)
    requires forall i | 0 <= i < |keys| :: !Free(keys[i])
    ensures Used(keys) == |keys|
  {
    if keys != [] { UsedFull(keys[1..]); }
  }

  lemma {:induction false} UsedNone(keys: seq<int>)
    requires forall i | 0 <= i < |keys| :: Free(keys[i])
    ensures Used(keys) == 0
  {
    if keys != [] { UsedNone(keys[1..]); }
  }

  /** With every bucket probed, insert fails only in a full table. */
  lemma InsertFindsRoom(t: Table, key: int, val: int)
    requires Sized(t) && Used(t.keys) < |t.keys|
    ensures Insert(t, |t.keys|, key, val).Some?
  {
    hide Home;
    var h := Home(key, |t.keys|);
    if Probe(t.keys, key, 0, |t.keys|).None? {
      forall i | 0 <= i < |t.keys| ensures !Free(t.keys[i]) {
        assert Wrap(h, Dist(h, i, |t.keys|), |t.keys|) == i;
      }
      UsedFull(t.keys);
    }
  }

  /** Rehashing into the doubled table never runs out of slots, whatever the old table holds,
      and gives a valid table without tombstones. */
  lemma {:induction false} RehashSucceeds(t: Table, n: nat)
    requires Valid(t) && n <= |t.keys|
    ensures var r := Rehash(t, n);
            r.Some? && Valid(r.value) && Used(r.value.keys) <= n && DELETED !in r.value.keys
  {
    hide Home;
    if n == 0 {
      UsedNone(Empty(t.bits + 1).keys);
    } else {
      RehashSucceeds(t, n - 1);
      var u := Rehash(t, n - 1).value;
      assert |u.keys| == 2 * |t.keys|;
      if !Free(t.keys[n - 1]) {
        InsertFindsRoom(u, t.keys[n - 1], t.vals[n - 1]);
        InsertKeepsValid(u, |u.keys|, t.keys[n - 1], t.vals[n - 1]);
        var h := Home(t.keys[n - 1], |u.keys|);
        UsedUpdate(u.keys, Wrap(h, Probe(u.keys, t.keys[n - 1], 0, |u.keys|).value, |u.keys|), t.keys[n - 1]);
      }
    }
  }

  /** Set keeps the invariant, and succeeds if it may grow to 2^32 buckets. */
  lemma {:induction false} SetSucceeds(t: Table, key: int, val: int, mem: nat)
    requires Valid(t) && IsKey(key)
    ensures Valid(Set(t, key, val, mem).table)
    ensures t.bits + mem >= 32 ==> Set(t, key, val, mem).ok
    decreases mem
  {
    hide Home;
    InsertKeepsValid(t, MaxFill(t), key, val);
    if t.bits >= 32 { HomeTaken(t, MaxFill(t), key); }
    if Insert(t, MaxFill(t), key, val).None? && mem > 0 {
      RehashSucceeds(t, |t.keys|);
      SetSucceeds(Rehash(t, |t.keys|).value, key, val, mem - 1);
    }
  }

  // ---------------------------------------------------------------------------
  // The table as a map

  /** No bucket between a stored key's home and its slot is a tombstone. */
  ghost predicate Clear(keys: seq<int>) {
    forall i | 0 <= i < |keys| && !Free(keys[i]) :: Unmarked(keys, i)
  }

  ghost predicate Unmarked(keys: seq<int>, i: nat)
    requires i < |keys|
  {
    var h := Home(keys[i], |keys|);
    forall o | 0 <= o < Dist(h, i, |keys|) :: keys[Wrap(h, o, |keys|)] != DELETED
  }

  /** The table holds exactly map m, each key once, and no tombstone hides any of them. */
  ghost predicate Represents(t: Table, m: map<int, int>) {
    && Valid(t) && Clear(t.keys)
    && (forall i | 0 <= i < |t.keys| && !Free(t.keys[i]) :: t.keys[i] in m && t.vals[i] == m[t.keys[i]])
    && (forall k | k in m :: IsKey(k) && Has(t, k))
    && (forall i, j | 0 <= i < j < |t.keys| && !Free(t.keys[i]) :: t.keys[i] != t.keys[j])
  }

  /** A probe that ends in a free bucket has shown that the key is absent. */
  lemma ProbeComplete(t: Table, key: int, max: nat)
    requires Valid(t) && Clear(t.keys) && IsKey(key) && max <= |t.keys| && Probe(t.keys, key, 0, max).Some?
    ensures var i := Wrap(Home(key, |t.keys|), Probe(t.keys, key, 0, max).value, |t.keys|);
            Free(t.keys[i]) ==> !Has(t, key)
  {
    hide Home;
    var h, o := Home(key, |t.keys|), Probe(t.keys, key, 0, max).value;
    if Has(t, key) {
      var j :| 0 <= j < |t.keys| && t.keys[j] == key;
      assert Reachable(t.keys, j) && Unmarked(t.keys, j) && t.keys[Wrap(h, Dist(h, j, |t.keys|), |t.keys|)] == key;
    }
  }

  /** Filling the first free bucket of a probe puts no tombstone before anything. */
  lemma FillKeepsClear(keys: seq<int>, i: nat, key: int)
    requires Clear(keys) && i < |keys| && !Free(key)
    requires var h := Home(key, |keys|);
             forall o | 0 <= o < Dist(h, i, |keys|) :: keys[Wrap(h, o, |keys|)] != DELETED
    ensures Clear(keys[i := key])
  {
    hide Home;
    var k2 := keys[i := key];
    forall j | 0 <= j < |k2| && !Free(k2[j]) ensures Unmarked(k2, j) {
      var h := Home(k2[j], |keys|);
      if j != i { assert Unmarked(keys, j); }
      forall o | 0 <= o < Dist(h, j, |keys|) ensures k2[Wrap(h, o, |keys|)] != DELETED {
        if j != i { assert keys[Wrap(h, o, |keys|)] != DELETED; }
      }
    }
  }

  lemma InsertRepresents(t: Table, m: map<int, int>, max: nat, key: int, val: int)
    requires Represents(t, m) && IsKey(key) && 1 <= max <= |t.keys| && Insert(t, max, key, val).Some?
    ensures var (u, prior) := Insert(t, max, key, val).value;
            Represents(u, m[key := val]) && prior == if key in m then Some(m[key]) else None
  {
    hide Home;
    var (u, prior) := Insert(t, max, key, val).value;
    var i := Wrap(Home(key, |t.keys|), Probe(t.keys, key, 0, max).value, |t.keys|);
    InsertKeepsValid(t, max, key, val);
    ProbeComplete(t, key, max);
    assert t.keys[i] == key || Free(t.keys[i]);
    assert Dist(Home(key, |t.keys|), i, |t.keys|) == Probe(t.keys, key, 0, max).value;
    FillKeepsClear(t.keys, i, key);
    hide Clear, Valid;
    forall k | k in m[key := val] ensures IsKey(k) && Has(u, k) {
      if k == key { assert u.keys[i] == k; }
      else { var j :| 0 <= j < |t.keys| && t.keys[j] == k; assert u.keys[j] == k; }
    }
    if t.keys[i] == key { assert key in m; }
    if key in m { assert Has(t, key); }
  }

  /** Yacht_Get agrees with the map. */
  lemma {:induction false} GetRepresents(t: Table, m: map<int, int>, key: int)
    requires Represents(t, m) && IsKey(key)
    ensures Get(t, key) == if key in m then Some(m[key]) else None
  {
    hide Home;
    var p := Probe(t.keys, key, 0, |t.keys|);
    var h := Home(key, |t.keys|);
    if key in m {
      var j :| 0 <= j < |t.keys| && t.keys[j] == key;
      assert Wrap(h, Dist(h, j, |t.keys|), |t.keys|) == j;
    }
    if p.Some? { ProbeComplete(t, key, |t.keys|); }
  }

  /** The part of m whose keys lie in the first n buckets. */
  ghost function Upto(t: Table, m: map<int, int>, n: nat): map<int, int>
    requires n <= |t.keys|
  {
    map k | k in m && k in t.keys[..n] :: m[k]
  }

  lemma UptoNext(t: Table, m: map<int, int>, n: nat)
    requires Represents(t, m) && n < |t.keys|
    ensures Upto(t, m, n + 1) == if Free(t.keys[n]) then Upto(t, m, n) else Upto(t, m, n)[t.keys[n] := t.vals[n]]
  {
    hide Home;
    var k := t.keys[n];
    assert t.keys[..n + 1] == t.keys[..n] + [k];
    KeyInMap(t, m, n);
    assert NO_KEY !in m && DELETED !in m;
    assert Free(k) ==> Upto(t, m, n + 1) == Upto(t, m, n);
    assert !Free(k) ==> Upto(t, m, n + 1) == Upto(t, m, n)[k := t.vals[n]];
  }

  lemma {:induction false} RehashRepresents(t: Table, m: map<int, int>, n: nat)
    requires Represents(t, m) && n <= |t.keys|
    ensures Rehash(t, n).Some? && Represents(Rehash(t, n).value, Upto(t, m, n))
  {
    hide Home;
    if n == 0 {
      RehashSucceeds(t, 0);
    } else {
      RehashRepresents(t, m, n - 1);
      RehashStep(t, m, n - 1, Rehash(t, n - 1).value, Upto(t, m, n - 1));
      UptoNext(t, m, n - 1);
    }
  }

  lemma RehashNone(t: Table)
    requires Sized(t)
    ensures Rehash(t, 0) == Some(Empty(t.bits + 1))
  {
    hide Home, Insert, Empty, Pow2;
  }

  lemma RehashUnfold(t: Table, n: nat)
    requires Sized(t) && 1 <= n <= |t.keys| && Rehash(t, n - 1).Some?
    ensures var u, k := Rehash(t, n - 1).value, t.keys[n - 1];
            && (Free(k) ==> Rehash(t, n) == Some(u))
            && (!Free(k) ==> var r := Insert(u, |u.keys|, k, t.vals[n - 1]);
                             Rehash(t, n) == if r.Some? then Some(r.value.0) else None)
  {
    hide Home;
  }

  lemma KeyInMap(t: Table, m: map<int, int>, i: nat)
    requires Represents(t, m) && i < |t.keys|
    ensures !Free(t.keys[i]) ==> IsKey(t.keys[i]) && t.keys[i] in m && m[t.keys[i]] == t.vals[i]
  {
    hide Home;
  }

  lemma RehashStep(t: Table, m: map<int, int>, n: nat, u: Table, mu: map<int, int>)
    requires Represents(t, m) && n < |t.keys|
    requires Rehash(t, n) == Some(u) && Represents(u, mu)
    ensures var k := t.keys[n];
            && Rehash(t, n + 1).Some?
            && Represents(Rehash(t, n + 1).value, if Free(k) then mu else mu[k := t.vals[n]])
  {
    hide Home;
    RepresentsSized(t, m);
    RepresentsSized(u, mu);
    KeyInMap(t, m, n);
    RehashUnfold(t, n + 1);
    RehashSucceeds(t, n + 1);
    hide Represents, Insert, Rehash, Valid;
    if !Free(t.keys[n]) {
      InsertRepresents(u, mu, |u.keys|, t.keys[n], t.vals[n]);
    }
  }

  lemma RepresentsSized(t: Table, m: map<int, int>)
    requires Represents(t, m)
    ensures Valid(t) && Sized(t) && |t.keys| >= 1
  {
  }

  lemma GrowRepresents(t: Table, m: map<int, int>)
    requires Represents(t, m)
    ensures Rehash(t, |t.keys|).Some? && Represents(Rehash(t, |t.keys|).value, m)
  {
    hide Home, Insert, Rehash, Valid;
    RehashRepresents(t, m, |t.keys|);
    assert t.keys[..|t.keys|] == t.keys;
    assert Upto(t, m, |t.keys|) == m by {
      forall k | k in m ensures k in t.keys { assert Has(t, k); }
    }
  }

  /** Yacht_Set updates the map, whether or not it had to grow, and reports the old value;
      when memory runs out the map is unchanged. */
  lemma {:induction false} SetRepresents(t: Table, m: map<int, int>, key: int, val: int, mem: nat)
    requires Represents(t, m) && IsKey(key)
    ensures var r := Set(t, key, val, mem);
            if r.ok then Represents(r.table, m[key := val]) && r.prior == if key in m then Some(m[key]) else None
            else Represents(r.table, m)
    decreases mem
  {
    RepresentsSized(t, m);
    hide Home, Represents, Insert, Rehash, Valid;
    if Insert(t, MaxFill(t), key, val).Some? {
      InsertRepresents(t, m, MaxFill(t), key, val);
    } else if mem > 0 {
      GrowRepresents(t, m);
      SetRepresents(Rehash(t, |t.keys|).value, m, key, val, mem - 1);
    }
  }

  // ---------------------------------------------------------------------------
  // Removal and tombstones

  /** Remove succeeds exactly if some bucket holds the key, over any tombstones; it clears one
      such bucket and strands no other key. */
  lemma {:induction false} RemoveComplete(t: Table, key: int, want: bool)
    requires Valid(t) && IsKey(key)
    ensures Remove(t, key, want).Some? <==> Has(t, key)
    ensures Remove(t, key, want).Some? ==>
              var u := Remove(t, key, want).value.table;
              Valid(u) && forall k | IsKey(k) && k != key :: Has(u, k) <==> Has(t, k)
  {
    hide Home;
    var h, size := Home(key, |t.keys|), |t.keys|;
    var p := ProbeRemove(t.keys, key, 0);
    if Has(t, key) {
      var j :| 0 <= j < size && t.keys[j] == key;
      assert Reachable(t.keys, j) && Wrap(h, Dist(h, j, size), size) == j;
      assert p.Some?;
    }
    var r := Remove(t, key, want);
    if r.Some? {
      var u, i := r.value.table, Wrap(h, p.value, size);
      EmptyKeepsReachable(t.keys, i, u.keys[i]);
      forall k | IsKey(k) && k != key ensures Has(u, k) <==> Has(t, k) {
        if Has(t, k) { var j :| 0 <= j < size && t.keys[j] == k; assert u.keys[j] == k; }
        if Has(u, k) { var j :| 0 <= j < size && u.keys[j] == k; assert t.keys[j] == k; }
      }
    }
  }

  /** Bucket i is found by Get: it holds the key and no tombstone lies before it. */
  ghost predicate Visible(t: Table, key: int, i: nat)
    requires Sized(t)
  {
    i < |t.keys| && t.keys[i] == key &&
    forall o | 0 <= o < Dist(Home(key, |t.keys|), i, |t.keys|) ::
      t.keys[Wrap(Home(key, |t.keys|), o, |t.keys|)] != DELETED
  }

  /** With tombstones around, Get still finds a key exactly if some bucket that holds it has
      no tombstone between the key's home and itself. */
  lemma {:induction false} GetFindsIff(t: Table, key: int)
    requires Valid(t) && IsKey(key)
    ensures Get(t, key).Some? <==> exists i :: Visible(t, key, i)
  {
    hide Home;
    var h, size := Home(key, |t.keys|), |t.keys|;
    var p := Probe(t.keys, key, 0, size);
    if Get(t, key).Some? {
      var i := Wrap(h, p.value, size);
      assert Dist(h, i, size) == p.value;
      assert Visible(t, key, i);
    }
    if exists i :: Visible(t, key, i) {
      var i :| Visible(t, key, i);
      assert Reachable(t.keys, i) && Wrap(h, Dist(h, i, size), size) == i;
      assert p.Some? && p.value <= Dist(h, i, size);
      assert p.value < Dist(h, i, size) ==> !Free(t.keys[Wrap(h, p.value, size)]);
    }
  }

  /** Two descriptors that share a home bucket: removing the first hides the second from Get,
      although it is still in the table and Remove still finds it. */
  lemma TombstoneHidesExample(a: int, b: int)
    ensures var t0 := Init(0);
            var t1 := Set(t0, 1, a, 0).table;
            var t2 := Set(t1, 17, b, 0).table;
            var t3 := Remove(t2, 1, true);
            && Get(t2, 17) == Some(b)
            && t3.Some? && Has(t3.value.table, 17)
            && Get(t3.value.table, 17) == None && Remove(t3.value.table, 17, true).Some?
  {
    var t0 := Init(0);
    assert Pow2(4) == 16 && Home(1, 16) == 11 && Home(17, 16) == 11;
    assert Probe(t0.keys, 1, 0, 8) == Some(0);
    var t1 := Set(t0, 1, a, 0).table;
    assert t1.keys == t0.keys[11 := 1];
    assert Probe(t1.keys, 17, 1, 8) == Some(1);
    var t2 := Set(t1, 17, b, 0).table;
    assert t2.keys == t1.keys[12 := 17];
    assert Probe(t2.keys, 17, 1, 16) == Some(1);
    assert ProbeRemove(t2.keys, 1, 0) == Some(0);
    var t3 := Remove(t2, 1, true).value.table;
    assert t3.keys == t2.keys[11 := DELETED];
    assert Probe(t3.keys, 17, 0, 16) == Some(0);
    assert ProbeRemove(t3.keys, 17, 1) == Some(1);
    assert t3.keys[12] == 17;
  }

  /** Bucket i lies between the home and the slot of the key stored at j. */
  predicate OnPath(keys: seq<int>, j: nat, i: nat)
    requires i < |keys| && j < |keys|
  {
    !Free(keys[j]) && Dist(Home(keys[j], |keys|), i, |keys|) < Dist(Home(keys[j], |keys|), j, |keys|)
  }

  /** Some other key is stored behind the bucket of this one, on a path that leads over it. */
  predicate Blocks(t: Table, key: int) {
    exists i, j | 0 <= i < |t.keys| && 0 <= j < |t.keys| ::
      t.keys[i] == key && t.keys[j] != key && OnPath(t.keys, j, i)
  }

  lemma PathBucket(keys: seq<int>, j: nat, o: nat)
    requires j < |keys| && !Free(keys[j]) && o < Dist(Home(keys[j], |keys|), j, |keys|)
    ensures OnPath(keys, j, Wrap(Home(keys[j], |keys|), o, |keys|))
  {
    hide Home;
  }

  /** The bucket Remove clears, and what it leaves there. */
  lemma RemoveAt(t: Table, key: int, want: bool) returns (i: nat)
    requires Valid(t) && IsKey(key) && Has(t, key)
    ensures i < |t.keys| && t.keys[i] == key
    ensures Remove(t, key, want).Some?
    ensures var u := Remove(t, key, want).value;
            && Free(u.table.keys[i]) && u.table.keys == t.keys[i := u.table.keys[i]]
            && (t.keys[Wrap(i, 1, |t.keys|)] != NO_KEY ==> u.table.keys[i] == DELETED)
            && u.prior == (if want then Some(t.vals[i]) else None) && (want ==> u.table.vals[i] == NULL)
            && |u.table.vals| == |t.vals| && forall j | 0 <= j < |t.vals| && j != i :: u.table.vals[j] == t.vals[j]
  {
    hide Home;
    RemoveComplete(t, key, want);
    i := Wrap(Home(key, |t.keys|), ProbeRemove(t.keys, key, 0).value, |t.keys|);
  }

  /** A removal that blocks nothing removes the key from the map, tombstone or not. */
  lemma {:induction false} HarmlessRemoval(t: Table, m: map<int, int>, key: int, want: bool)
    requires Represents(t, m) && key in m && !Blocks(t, key)
    ensures Remove(t, key, want).Some?
    ensures Remove(t, key, want).value.prior == if want then Some(m[key]) else None
    ensures Represents(Remove(t, key, want).value.table, m - {key})
  {
    hide Home;
    assert Has(t, key);
    RemoveComplete(t, key, want);
    var i := RemoveAt(t, key, want);
    var u := Remove(t, key, want).value.table;
    forall j | 0 <= j < |u.keys| && !Free(u.keys[j]) ensures Unmarked(u.keys, j) {
      var h := Home(u.keys[j], |u.keys|);
      assert Unmarked(t.keys, j);
      forall o | 0 <= o < Dist(h, j, |u.keys|) ensures u.keys[Wrap(h, o, |u.keys|)] != DELETED {
        PathBucket(t.keys, j, o);
        assert t.keys[Wrap(h, o, |u.keys|)] != DELETED;
      }
    }
    forall k | k in m - {key} ensures IsKey(k) && Has(u, k) { assert Has(t, k); }
  }

  /** A removal that blocks another key hides it: the map still has it, Get does not. */
  lemma {:induction false} BlockingRemoval(t: Table, m: map<int, int>, key: int, want: bool) returns (k: int)
    requires Represents(t, m) && key in m && Blocks(t, key)
    ensures Remove(t, key, want).Some? && k in m && k != key && Get(Remove(t, key, want).value.table, k) == None
  {
    hide Home;
    assert Has(t, key);
    RemoveComplete(t, key, want);
    var i := RemoveAt(t, key, want);
    var u := Remove(t, key, want).value.table;
    var i', j :| && 0 <= i' < |t.keys| && 0 <= j < |t.keys|
                 && t.keys[i'] == key && t.keys[j] != key && OnPath(t.keys, j, i');
    assert i' == i;
    k := t.keys[j];
    var h, size := Home(k, |t.keys|), |t.keys|;
    assert Reachable(t.keys, j);
    NextOnPath(t.keys, j, Dist(h, i, size));
    assert u.keys[Wrap(h, Dist(h, i, size), size)] == DELETED;
    GetFindsIff(u, k);
    hide Represents, Valid, Get, Remove;
    assert forall v | Visible(u, k, v) :: v == j;
  }

  function LookUp(m: map<int, int>, k: int): Option<int> { if k in m then Some(m[k]) else None }

  /** Get agrees with the map on every key. */
  ghost predicate Agrees(t: Table, m: map<int, int>)
    requires Sized(t)
  {
    forall k | IsKey(k) :: Get(t, k) == LookUp(m, k)
  }

  /** From a table that agrees with a map, removing a key leaves one that agrees with the
      smaller map exactly if the key's bucket blocks no other key. */
  lemma {:induction false} RemovalAgreesIff(t: Table, m: map<int, int>, key: int, want: bool)
    requires Represents(t, m) && key in m
    ensures Remove(t, key, want).Some?
    ensures Agrees(Remove(t, key, want).value.table, m - {key}) <==> !Blocks(t, key)
  {
    hide Home;
    if Blocks(t, key) {
      var k := BlockingRemoval(t, m, key, want);
      assert k in m - {key} && IsKey(k);
    } else {
      HarmlessRemoval(t, m, key, want);
      AgreesIfRepresents(Remove(t, key, want).value.table, m - {key});
    }
  }

  lemma AgreesIfRepresents(t: Table, m: map<int, int>)
    requires Represents(t, m)
    ensures Agrees(t, m)
  {
    hide Represents, Get;
    RepresentsSized(t, m);
    forall k | IsKey(k) ensures Get(t, k) == LookUp(m, k) { GetRepresents(t, m, k); }
  }

  /** Two copies of a key: once a tombstone hides 17, setting it again stores it a second time;
      the removal that follows succeeds and clears only the newer copy, and when another key
      fills the bucket before it, Get brings back the older value. */
  lemma StaleValueReturnsExample(a: int, b: int, c: int, d: int)
    ensures var t2 := Set(Set(Init(0), 1, a, 0).table, 17, b, 0).table;
            var t3 := Remove(t2, 1, true).value.table;
            var t4 := Set(t3, 17, c, 0).table;
            Remove(t2, 1, true).Some? && Remove(t4, 17, true).Some? &&
            var t6 := Set(Remove(t4, 17, true).value.table, 33, d, 0).table;
            Get(t4, 17) == Some(c) && Get(t6, 17) == Some(b)
  {
    var t0 := Init(0);
    assert Pow2(4) == 16 && Home(1, 16) == 11 && Home(17, 16) == 11 && Home(33, 16) == 11;
    assert Probe(t0.keys, 1, 0, 8) == Some(0);
    var t1 := Set(t0, 1, a, 0).table;
    assert t1.keys == t0.keys[11 := 1];
    assert Probe(t1.keys, 17, 1, 8) == Some(1);
    var t2 := Set(t1, 17, b, 0).table;
    assert t2 == Table(4, t1.keys[12 := 17], t1.vals[12 := b]);
    assert ProbeRemove(t2.keys, 1, 0) == Some(0);
    var t3 := Remove(t2, 1, true).value.table;
    assert t3 == Table(4, t2.keys[11 := DELETED], t2.vals[11 := NULL]);
    assert Probe(t3.keys, 17, 0, 8) == Some(0);
    var t4 := Set(t3, 17, c, 0).table;
    assert t4 == Table(4, t3.keys[11 := 17], t3.vals[11 := c]);
    assert Probe(t4.keys, 17, 0, 16) == Some(0);
    assert ProbeRemove(t4.keys, 17, 0) == Some(0);
    var t5 := Remove(t4, 17, true).value.table;
    assert t5 == Table(4, t4.keys[11 := DELETED], t4.vals[11 := NULL]);
    assert Probe(t5.keys, 33, 0, 8) == Some(0);
    var t6 := Set(t5, 33, d, 0).table;
    assert t6 == Table(4, t5.keys[11 := 33], t5.vals[11 := d]);
    assert Probe(t6.keys, 17, 1, 16) == Some(1);
  }

  // ---------------------------------------------------------------------------
  // Histories

  datatype Op = SetOp(key: int, val: int, mem: nat) | RemoveOp(key: int, want: bool)

  function Do(t: Table, op: Op): (r: Table)
    requires Sized(t)
    ensures Sized(r)
  {
    match op
    case SetOp(key, val, mem) => Set(t, key, val, mem).table
    case RemoveOp(key, want) => match Remove(t, key, want) case Some(u) => u.table case None => t
  }

  function Exec(sz2: nat, ops: seq<Op>): (t: Table)
    ensures Sized(t)
  {
    if ops == [] then Init(sz2) else Do(Exec(sz2, ops[..|ops| - 1]), ops[|ops| - 1])
  }

  /** What an operation on the table does to the map a caller has in mind. */
  ghost function MapAfter(t: Table, m: map<int, int>, op: Op): map<int, int>
    requires Sized(t)
  {
    match op
    case SetOp(key, val, mem) => if Set(t, key, val, mem).ok then m[key := val] else m
    case RemoveOp(key, _) => m - {key}
  }

  /** The last successful Set of each key that was not removed since. */
  ghost function LastSet(sz2: nat, ops: seq<Op>): map<int, int> {
    if ops == [] then map[]
    else
      var before := ops[..|ops| - 1];
      MapAfter(Exec(sz2, before), LastSet(sz2, before), ops[|ops| - 1])
  }

  ghost predicate Keys(ops: seq<Op>) {
    forall i | 0 <= i < |ops| :: IsKey(ops[i].key)
  }

  /** Over every history, with removals, growth and failed growth, no live key is ever cut off
      from its home; so Remove succeeds exactly if the key is in the table. */
  lemma {:induction false} HistoryValid(sz2: nat, ops: seq<Op>, key: int, want: bool)
    requires IsKey(key) && Keys(ops)
    ensures Valid(Exec(sz2, ops)) && (Remove(Exec(sz2, ops), key, want).Some? <==> Has(Exec(sz2, ops), key))
  {
    hide Home;
    if ops != [] {
      var before, op := ops[..|ops| - 1], ops[|ops| - 1];
      HistoryValid(sz2, before, key, want);
      match op
      case SetOp(k, v, mem) => SetSucceeds(Exec(sz2, before), k, v, mem);
      case RemoveOp(k, w) => RemoveComplete(Exec(sz2, before), k, w);
    }
    RemoveComplete(Exec(sz2, ops), key, want);
  }

  /** At every moment of the history Get agrees with the last Set. */
  ghost predicate AlwaysAgrees(sz2: nat, ops: seq<Op>) {
    Agrees(Exec(sz2, ops), LastSet(sz2, ops)) && (ops != [] ==> AlwaysAgrees(sz2, ops[..|ops| - 1]))
  }

  /** No removal of the history hit a bucket that some other key's path led over. */
  ghost predicate NeverBlocks(sz2: nat, ops: seq<Op>) {
    ops == [] ||
    (var before, op := ops[..|ops| - 1], ops[|ops| - 1];
     NeverBlocks(sz2, before) && (op.RemoveOp? ==> !Blocks(Exec(sz2, before), op.key)))
  }

  lemma InitRepresents(sz2: nat)
    ensures Represents(Init(sz2), map[])
  {
    hide Home, Pow2;
  }

  lemma DoRepresents(t: Table, m: map<int, int>, op: Op)
    requires Represents(t, m) && IsKey(op.key) && (op.RemoveOp? ==> !Blocks(t, op.key))
    ensures Represents(Do(t, op), MapAfter(t, m, op))
  {
    match op
    case SetOp(key, val, mem) =>
      SetRepresents(t, m, key, val, mem);
    case RemoveOp(key, want) =>
      if key in m { HarmlessRemoval(t, m, key, want); }
      else { AbsentRemoval(t, m, key, want); }
      hide Represents, Remove, Set;
  }

  lemma AbsentRemoval(t: Table, m: map<int, int>, key: int, want: bool)
    requires Represents(t, m) && IsKey(key) && key !in m
    ensures Remove(t, key, want).None? && m - {key} == m && !Blocks(t, key)
  {
    hide Home;
    RemoveComplete(t, key, want);
  }

  /** A history that never blocks a key represents its last Sets. */
  lemma {:induction false} HistoryRepresents(sz2: nat, ops: seq<Op>)
    requires Keys(ops) && NeverBlocks(sz2, ops)
    ensures Represents(Exec(sz2, ops), LastSet(sz2, ops)) && AlwaysAgrees(sz2, ops)
  {
    hide Home, Represents, Agrees, Do, Blocks;
    if ops == [] {
      InitRepresents(sz2);
    } else {
      var before := ops[..|ops| - 1];
      HistoryRepresents(sz2, before);
      DoRepresents(Exec(sz2, before), LastSet(sz2, before), ops[|ops| - 1]);
    }
    AgreesIfRepresents(Exec(sz2, ops), LastSet(sz2, ops));
  }

  /** Over every history of Set and Remove, with growth and failed growth: Get returns the last
      value set and not removed, at every moment and for every key, exactly if no removal hit a
      bucket that lay on another stored key's path. */
  lemma {:induction false} HistoryIsMapIff(sz2: nat, ops: seq<Op>)
    requires Keys(ops)
    ensures AlwaysAgrees(sz2, ops) <==> NeverBlocks(sz2, ops)
  {
    if NeverBlocks(sz2, ops) {
      HistoryRepresents(sz2, ops);
    } else {
      hide Home, Represents, Agrees, Set, Blocks, Remove;
      var before, op := ops[..|ops| - 1], ops[|ops| - 1];
      HistoryIsMapIff(sz2, before);
      if NeverBlocks(sz2, before) {
        var t, m := Exec(sz2, before), LastSet(sz2, before);
        HistoryRepresents(sz2, before);
        if op.key in m { RemovalAgreesIff(t, m, op.key, op.want); } else { AbsentRemoval(t, m, op.key, true); }
      }
    }
  }

  /** In particular every history without removals is a map. */
  lemma {:induction false} HistoryIsMap(sz2: nat, ops: seq<Op>)
    requires Keys(ops) && forall i | 0 <= i < |ops| :: ops[i].SetOp?
    ensures AlwaysAgrees(sz2, ops)
  {
    NoRemovals(sz2, ops);
    HistoryIsMapIff(sz2, ops);
  }

  lemma {:induction false} NoRemovals(sz2: nat, ops: seq<Op>)
    requires forall i | 0 <= i < |ops| :: ops[i].SetOp?
    ensures NeverBlocks(sz2, ops)
  {
    if ops != [] { NoRemovals(sz2, ops[..|ops| - 1]); }
  }

  // ---------------------------------------------------------------------------
  // The arrays

  /** insert, in place on a pair of arrays. */
  method InsertInto(b: array<int>, v: array<int>, ghost bits: nat, max: nat, key: int, val: int)
    returns (ok: bool, prior: Option<int>)
    requires b != v && Sized(Table(bits, b[..], v[..])) && max <= b.Length
    modifies b, v
    ensures var r := Insert(old(Table(bits, b[..], v[..])), max, key, val);
            && ok == r.Some?
            && (ok ==> Table(bits, b[..], v[..]) == r.value.0 && prior == r.value.1)
            && (!ok ==> b[..] == old(b[..]) && v[..] == old(v[..]))
  {
    hide Home;
    var h := Home(key, b.Length);
    var o := 0;
    while o < max
      invariant 0 <= o <= max && b[..] == old(b[..]) && v[..] == old(v[..])
      invariant Probe(b[..], key, 0, max) == Probe(b[..], key, o, max)
    {
      var i := Wrap(h, o, b.Length);
      if b[i] == key {
        prior := Some(v[i]);
        v[i] := val;
        assert b[..] == old(b[..])[i := key];
        return true, prior;
      } else if b[i] == NO_KEY || b[i] == DELETED {
        b[i] := key;
        v[i] := val;
        return true, None;
      }
      o := o + 1;
    }
    return false, None;
  }

  class HashTable {
    var buckets: array<int>
    var values: array<int>
    ghost var bits: nat

    ghost function View(): Table
      reads this, buckets, values
    {
      Table(bits, buckets[..], values[..])
    }

    ghost predicate Ok()
      reads this, buckets, values
    {
      buckets != values && Valid(View())
    }

    constructor (sz2: nat)
      ensures Ok() && fresh(buckets) && fresh(values) && View() == Init(sz2)
    {
      var k := if sz2 == 0 then DEF_SZ2 else sz2;
      buckets := new int[Pow2(k)](_ => NO_KEY);
      values := new int[Pow2(k)](_ => 0);
      bits := k;
      new;
      assert View() == Init(sz2);
    }

    /** Yacht_Get. */
    method Lookup(key: int) returns (r: Option<int>)
      requires Ok()
      ensures r == Get(View(), key)
    {
      hide Home;
      var h := Home(key, buckets.Length);
      var o := 0;
      while o < buckets.Length
        invariant 0 <= o <= buckets.Length
        invariant Probe(buckets[..], key, 0, buckets.Length) == Probe(buckets[..], key, o, buckets.Length)
      {
        var i := Wrap(h, o, buckets.Length);
        if buckets[i] == key { return Some(values[i]); }
        if buckets[i] == NO_KEY || buckets[i] == DELETED { return None; }
        o := o + 1;
      }
      return None;
    }

    /** grow: both new arrays are filled before they replace the old ones. */
    method Grow()
      requires Ok()
      modifies this
      ensures Ok() && Rehash(old(View()), old(buckets.Length)) == Some(View())
      ensures fresh(buckets) && fresh(values)
    {
      hide Home;
      hide Rehash, Insert;
      ghost var t := View();
      var nsize := 2 * buckets.Length;
      var nb := new int[nsize](_ => NO_KEY);
      var nv := new int[nsize](_ => 0);
      var i := 0;
      assert Table(bits + 1, nb[..], nv[..]) == Empty(bits + 1);
      RehashNone(t);
      while i < buckets.Length
        invariant 0 <= i <= buckets.Length && nb != nv
        invariant View() == t && unchanged(this) && fresh(nb) && fresh(nv) && nb.Length == nsize == nv.Length
        invariant Rehash(t, i) == Some(Table(bits + 1, nb[..], nv[..]))
      {
        RehashUnfold(t, i + 1);
        RehashSucceeds(t, i + 1);
        var key := buckets[i];
        if key != NO_KEY && key != DELETED {
          var ok, _ := InsertInto(nb, nv, bits + 1, nsize, key, values[i]);
        }
        i := i + 1;
      }
      RehashSucceeds(t, buckets.Length);
      buckets, values, bits := nb, nv, bits + 1;
    }

    /** One attempt of Yacht_Set. */
    method TryInsert(key: int, val: int) returns (ok: bool, prior: Option<int>)
      requires Ok() && IsKey(key)
      modifies buckets, values
      ensures Ok()
      ensures var r := Insert(old(View()), MaxFill(old(View())), key, val);
              && ok == r.Some?
              && (ok ==> (View(), prior) == r.value) && (!ok ==> View() == old(View()))
    {
      hide Home;
      var max := buckets.Length / 2;
      if max > 16 { max := MAX_PROBES; }
      InsertKeepsValid(View(), max, key, val);
      ok, prior := InsertInto(buckets, values, bits, max, key, val);
    }

    /** Yacht_Set: insert, growing up to `mem` times. */
    method Put(key: int, val: int, mem: nat) returns (ok: bool, prior: Option<int>)
      requires Ok() && IsKey(key)
      modifies this, buckets, values
      ensures Ok() && Set(old(View()), key, val, mem) == SetResult(ok, View(), prior)
    {
      hide Home;
      hide Rehash, Insert;
      var left: nat := mem;
      while true
        invariant Ok() && left <= mem && Set(View(), key, val, left) == Set(old(View()), key, val, mem)
        invariant (buckets == old(buckets) && values == old(values)) || (fresh(buckets) && fresh(values))
        decreases left
      {
        ok, prior := TryInsert(key, val);
        if ok { return; }
        if left == 0 { return false, None; }
        Grow();
        left := left - 1;
      }
    }

    /** Yacht_Remove. */
    method Delete(key: int, want: bool) returns (ok: bool, prior: Option<int>)
      requires Ok() && IsKey(key)
      modifies buckets, values
      ensures Ok() && ok == Remove(old(View()), key, want).Some?
      ensures ok ==> Removed(View(), prior) == Remove(old(View()), key, want).value
      ensures !ok ==> View() == old(View())
    {
      hide Home;
      ghost var t := View();
      RemoveComplete(t, key, want);
      var size := buckets.Length;
      var h := Home(key, size);
      var o := 0;
      prior := None;
      while o < size
        invariant 0 <= o <= size && View() == t && prior == None
        invariant ProbeRemove(buckets[..], key, 0) == ProbeRemove(buckets[..], key, o)
      {
        var i := Wrap(h, o, size);
        if buckets[i] == key {
          buckets[i] := if buckets[Wrap(i, 1, size)] == NO_KEY then NO_KEY else DELETED;
          if want {
            prior := Some(values[i]);
            values[i] := NULL;
          }
          assert View() == Remove(t, key, want).value.table;
          return true, prior;
        } else if buckets[i] == NO_KEY {
          return false, None;
        }
        o := o + 1;
      }
      return false, None;
    }
  }
}
