/** Peer-to-peer operation trees: the builder that copies a caller's tree into protobuf form
    and the callback that writes the device's answers back into it
    (src/lib/kinetic_builder.c, src/lib/kinetic_callbacks.c). */
module P2P {
  import opened Wrappers

  const KINETIC_P2P_MAX_NESTING := 1000
  const KINETIC_STATUS_INVALID := -1

  type Bytes = seq<int>

  datatype Peer = Peer(hostname: string, port: int, tls: bool)

  /** KineticP2P_Operation; a null buffer is None. Keys must not be null. */
  datatype Op = Op(peer: Peer, ops: seq<OpData>)
  datatype OpData = OpData(
    key: Bytes, newKey: Option<Bytes>, version: Option<Bytes>, chained: Option<Op>, resultStatus: int)

  /** The protobuf form; `code` is None when the response carries no status code. */
  datatype ProtoOp = ProtoOp(peer: Peer, ops: seq<ProtoData>)
  datatype ProtoData = ProtoData(
    key: Bytes, newKey: Option<Bytes>, version: Option<Bytes>,
    force: Option<bool>, p2pop: Option<ProtoOp>, code: Option<int>)

  // ---------------------------------------------------------------------------
  // Places in a tree

  /** The operation a path of indices leads to. */
  function DataAt(p: Op, path: seq<nat>): Option<OpData>
    decreases p
  {
    if path == [] || path[0] >= |p.ops| then None
    else if |path| == 1 then Some(p.ops[path[0]])
    else match p.ops[path[0]].chained
      case None => None
      case Some(c) => DataAt(c, path[1..])
  }

  function ProtoAt(q: ProtoOp, path: seq<nat>): Option<ProtoData>
    decreases q
  {
    if path == [] || path[0] >= |q.ops| then None
    else if |path| == 1 then Some(q.ops[path[0]])
    else match q.ops[path[0]].p2pop
      case None => None
      case Some(c) => ProtoAt(c, path[1..])
  }

  /** The list of operations a path leads to: the tree itself, or one chained below it. */
  function OpAt(p: Op, path: seq<nat>): Option<Op>
    decreases p
  {
    if path == [] then Some(p)
    else if path[0] >= |p.ops| then None
    else match p.ops[path[0]].chained
      case None => None
      case Some(c) => OpAt(c, path[1..])
  }

  function ProtoOpAt(q: ProtoOp, path: seq<nat>): Option<ProtoOp>
    decreases q
  {
    if path == [] then Some(q)
    else if path[0] >= |q.ops| then None
    else match q.ops[path[0]].p2pop
      case None => None
      case Some(c) => ProtoOpAt(c, path[1..])
  }

  // ---------------------------------------------------------------------------
  // Building

  function Max(a: nat, b: nat): nat { if a < b then b else a }

  function Depth(p: Op): nat
    decreases p, 0
  {
    1 + DepthBelow(p, |p.ops|)
  }

  /** How deep the first n operations nest. */
  function DepthBelow(p: Op, n: nat): nat
    requires n <= |p.ops|
    decreases p, 0, n
  {
    if n == 0 then 0
    else Max(DepthBelow(p, n - 1), match p.ops[n - 1].chained case None => 0 case Some(c) => Depth(c))
  }

  lemma {:induction false} DepthBelowHas(p: Op, n: nat, i: nat)
    requires i < n <= |p.ops| && p.ops[i].chained.Some?
    ensures Depth(p.ops[i].chained.value) <= DepthBelow(p, n)
  {
    if i < n - 1 { DepthBelowHas(p, n - 1, i); }
  }

  lemma {:induction false} DepthBelowReached(p: Op, n: nat) returns (i: nat)
    requires n <= |p.ops| && DepthBelow(p, n) > 0
    ensures i < n && p.ops[i].chained.Some? && Depth(p.ops[i].chained.value) == DepthBelow(p, n)
  {
    var last := match p.ops[n - 1].chained case None => 0 case Some(c) => Depth(c);
    if DepthBelow(p, n - 1) < last || DepthBelow(p, n - 1) == 0 {
      i := n - 1;
    } else {
      i := DepthBelowReached(p, n - 1);
    }
  }

  lemma {:induction false} PathIsShallower(p: Op, path: seq<nat>)
    requires OpAt(p, path).Some?
    ensures |path| < Depth(p)
    decreases p
  {
    if path != [] {
      PathIsShallower(p.ops[path[0]].chained.value, path[1..]);
      DepthBelowHas(p, |p.ops|, path[0]);
    }
  }

  lemma {:induction false} DeepestPath(p: Op, n: nat) returns (path: seq<nat>)
    requires n < Depth(p)
    ensures |path| == n && OpAt(p, path).Some?
    decreases p
  {
    if n == 0 { return []; }
    var i := DepthBelowReached(p, |p.ops|);
    var rest := DeepestPath(p.ops[i].chained.value, n - 1);
    path := [i] + rest;
    assert path[1..] == rest;
  }

  /** The depth is what the nesting limit is about: some path of n steps leads to a chained
      operation exactly if the tree is deeper than n. */
  lemma DepthIsLongestPath(p: Op, n: nat)
    ensures n < Depth(p) <==> exists path: seq<nat> :: |path| == n && OpAt(p, path).Some?
  {
    if n < Depth(p) { var path := DeepestPath(p, n); }
    if path: seq<nat> :| |path| == n && OpAt(p, path).Some? { PathIsShallower(p, path); }
  }

  /** The protobuf copy of a tree. */
  function Built(p: Op): ProtoOp
    decreases p
  {
    ProtoOp(p.peer, seq(|p.ops|, i requires 0 <= i < |p.ops| => BuiltData(p.ops[i])))
  }

  /** The copy of one operation: the device is forced if no version was given. */
  function BuiltData(d: OpData): ProtoData
    decreases d
  {
    ProtoData(d.key, d.newKey, d.version, if d.version.None? then Some(true) else None,
              match d.chained case None => None case Some(c) => Some(Built(c)), None)
  }

  /** build_p2pOp: the copy, exactly if the tree stays within the nesting limit. */
  method BuildP2POp(nestingLevel: nat, p: Op) returns (r: Option<ProtoOp>)
    ensures r == if nestingLevel + Depth(p) <= KINETIC_P2P_MAX_NESTING then Some(Built(p)) else None
    decreases p
  {
    if nestingLevel >= KINETIC_P2P_MAX_NESTING { return None; }
    var ops: seq<ProtoData> := [];
    var i := 0;
    while i < |p.ops|
      invariant 0 <= i <= |p.ops| && nestingLevel + DepthBelow(p, i) < KINETIC_P2P_MAX_NESTING
      invariant ops == Built(p).ops[..i]
    {
      var d := p.ops[i];
      var chain := None;
      if d.chained.Some? {
        chain := BuildP2POp(nestingLevel + 1, d.chained.value);
        if chain.None? {
          DepthBelowHas(p, |p.ops|, i);
          return None;
        }
      }
      ops := ops + [ProtoData(d.key, d.newKey, d.version, if d.version.None? then Some(true) else None, chain, None)];
      i := i + 1;
    }
    assert Built(p).ops[..i] == Built(p).ops;
    r := Some(ProtoOp(p.peer, ops));
  }

  /** The copy has the same shape: at every path there is an operation exactly if there was one
      in the original, with the same keys and version, forced exactly if it has no version,
      and no status yet; every chained list keeps its peer and its length. */
  lemma {:induction false} BuiltMirrors(p: Op, path: seq<nat>)
    ensures match DataAt(p, path)
            case None => ProtoAt(Built(p), path).None?
            case Some(d) =>
              ProtoAt(Built(p), path).Some? &&
              var b := ProtoAt(Built(p), path).value;
              && b.key == d.key && b.newKey == d.newKey && b.version == d.version
              && (b.force == Some(true) <==> d.version.None?) && (b.force.None? <==> d.version.Some?)
              && (b.p2pop.Some? <==> d.chained.Some?) && b.code.None?
    ensures match OpAt(p, path)
            case None => ProtoOpAt(Built(p), path).None?
            case Some(o) =>
              ProtoOpAt(Built(p), path).Some? &&
              ProtoOpAt(Built(p), path).value.peer == o.peer && |ProtoOpAt(Built(p), path).value.ops| == |o.ops|
    decreases p
  {
    if path != [] && path[0] < |p.ops| {
      var d := p.ops[path[0]];
      assert Built(p).ops[path[0]] == BuiltData(d);
      if d.chained.Some? { BuiltMirrors(d.chained.value, path[1..]); }
    }
  }

  // ---------------------------------------------------------------------------
  // Writing the answers back

  /** The status for one answered operation; `table` maps protocol codes to Kinetic statuses. */
  function StatusOf(code: Option<int>, table: int -> int): int {
    match code case None => KINETIC_STATUS_INVALID case Some(c) => table(c)
  }

  /** The tree after the answers `q` are in. */
  function Answered(p: Op, q: ProtoOp, table: int -> int): Op
    decreases p
  {
    Op(p.peer, seq(|p.ops|, i requires 0 <= i < |p.ops| =>
      if i < |q.ops| then AnsweredData(p.ops[i], q.ops[i], table)
      else p.ops[i].(resultStatus := KINETIC_STATUS_INVALID)))
  }

  function AnsweredData(d: OpData, a: ProtoData, table: int -> int): OpData
    decreases d
  {
    d.(resultStatus := StatusOf(a.code, table),
       chained := match (d.chained, a.p2pop)
         case (Some(c), Some(q)) => Some(Answered(c, q, table))
         case _ => d.chained)
  }

  /** Whether the answers contain the list that the operation at `path` belongs to. */
  predicate ListAnswered(q: ProtoOp, path: seq<nat>) {
    path != [] && ProtoOpAt(q, path[..|path| - 1]).Some?
  }

  /** Every operation of the tree keeps its place and everything but its status. The status is the
      one for the code answered at the same path; INVALID if the list it belongs to was answered
      without it or without its code; and what it was before if not even that list was answered. */
  lemma {:induction false} AnsweredAt(p: Op, q: ProtoOp, table: int -> int, path: seq<nat>)
    ensures match DataAt(p, path)
            case None => DataAt(Answered(p, q, table), path).None?
            case Some(d) =>
              DataAt(Answered(p, q, table), path).Some? &&
              var r := DataAt(Answered(p, q, table), path).value;
              && r.key == d.key && r.newKey == d.newKey && r.version == d.version
              && (r.chained.Some? <==> d.chained.Some?)
              && r.resultStatus ==
                   (if ProtoAt(q, path).Some? && ProtoAt(q, path).value.code.Some?
                    then table(ProtoAt(q, path).value.code.value)
                    else if ListAnswered(q, path) then KINETIC_STATUS_INVALID
                    else d.resultStatus)
    decreases p
  {
    if ProtoAt(q, path).Some? { AnsweredIsListed(q, path); }
    if path != [] && path[0] < |p.ops| {
      var d := p.ops[path[0]];
      assert |path| > 1 ==> path[1..][..|path[1..]| - 1] == path[..|path| - 1][1..];
      if |path| > 1 && d.chained.Some? && path[0] < |q.ops| && q.ops[path[0]].p2pop.Some? {
        AnsweredAt(d.chained.value, q.ops[path[0]].p2pop.value, table, path[1..]);
      }
    }
  }

  /** An operation that was answered belongs to a list that was. */
  lemma {:induction false} AnsweredIsListed(q: ProtoOp, path: seq<nat>)
    requires ProtoAt(q, path).Some?
    ensures ListAnswered(q, path)
    decreases q
  {
    if |path| > 1 {
      AnsweredIsListed(q.ops[path[0]].p2pop.value, path[1..]);
      assert path[1..][..|path[1..]| - 1] == path[..|path| - 1][1..];
    }
  }

  ghost predicate SameShape(p: Op, q: ProtoOp) {
    forall path: seq<nat> :: DataAt(p, path).Some? ==> ProtoAt(q, path).Some?
  }

  /** A response of the same shape sets every operation to the status found at its path. */
  lemma SameShapeAnswersAll(p: Op, q: ProtoOp, table: int -> int, path: seq<nat>)
    requires SameShape(p, q) && DataAt(p, path).Some?
    ensures DataAt(Answered(p, q, table), path).Some? && ProtoAt(q, path).Some?
    ensures var r, code := DataAt(Answered(p, q, table), path).value, ProtoAt(q, path).value.code;
            r.resultStatus == if code.Some? then table(code.value) else KINETIC_STATUS_INVALID
  {
    AnsweredAt(p, q, table, path);
    AnsweredIsListed(q, path);
  }

  // ---------------------------------------------------------------------------
  // The caller's tree in memory

  /** The part of an operation that the callback only reads. */
  datatype Fixed = Fixed(key: Bytes, newKey: Option<Bytes>, version: Option<Bytes>)

  /** KineticP2P_Operation as the caller allocated it: a tree, of which only the statuses are
      ever written. `arrays` are the status arrays of the whole tree. */
  class Operation {
    const peer: Peer
    const data: seq<Fixed>
    const chained: seq<Operation?>
    const status: array<int>
    ghost const height: nat
    ghost const arrays: set<array<int>>

    ghost predicate Valid()
      decreases height
    {
      && |data| == |chained| == status.Length && status in arrays
      && (forall i | 0 <= i < |chained| && chained[i] != null ::
            && chained[i].height < height && chained[i].arrays <= arrays
            && status !in chained[i].arrays && chained[i].Valid())
      && (forall i, j | 0 <= i < j < |chained| && chained[i] != null && chained[j] != null ::
            chained[i].arrays !! chained[j].arrays)
    }

    /** The tree as a value. */
    ghost function Value(): Op
      requires Valid()
      reads arrays
      decreases height, 1
    {
      Op(peer, seq(|data|, i requires 0 <= i < |data| reads arrays => ValueAt(i)))
    }

    ghost function ValueAt(i: nat): OpData
      requires Valid() && i < |data|
      reads arrays
      decreases height, 0
    {
      OpData(data[i].key, data[i].newKey, data[i].version,
             if chained[i] == null then None else Some(chained[i].Value()), status[i])
    }

    constructor (peer: Peer, data: seq<Fixed>, chained: seq<Operation?>, status: array<int>,
                 ghost height: nat, ghost arrays: set<array<int>>)
      requires |data| == |chained| == status.Length && status in arrays
      requires forall i | 0 <= i < |chained| && chained[i] != null ::
                 && chained[i].height < height && chained[i].arrays <= arrays
                 && status !in chained[i].arrays && chained[i].Valid()
      requires forall i, j | 0 <= i < j < |chained| && chained[i] != null && chained[j] != null ::
                 chained[i].arrays !! chained[j].arrays
      ensures Valid() && this.arrays == arrays && this.height == height
    {
      this.peer, this.data, this.chained, this.status := peer, data, chained, status;
      this.height, this.arrays := height, arrays;
    }

    /** One iteration of the loop. */
    method PopulateAt(i: nat, q: ProtoOp, table: int -> int)
      requires Valid() && i < |data|
      modifies status, if chained[i] == null then {} else chained[i].arrays
      ensures ValueAt(i) == Answered(old(Value()), q, table).ops[i]
      ensures forall j | 0 <= j < |data| && j != i :: ValueAt(j) == old(ValueAt(j))
      decreases height, 0
    {
      if i < |q.ops| {
        status[i] := if q.ops[i].code.Some? then table(q.ops[i].code.value) else KINETIC_STATUS_INVALID;
        if chained[i] != null && q.ops[i].p2pop.Some? { chained[i].Populate(q.ops[i].p2pop, table); }
      } else {
        status[i] := KINETIC_STATUS_INVALID;
      }
    }

    /** populateP2PStatusCodes. */
    method Populate(q: Option<ProtoOp>, table: int -> int)
      requires Valid()
      modifies arrays
      ensures Value() == match q case None => old(Value()) case Some(a) => Answered(old(Value()), a, table)
      decreases height, 1
    {
      if q.None? { return; }
      ghost var p := Value();
      var i := 0;
      while i < |data|
        invariant 0 <= i <= |data|
        invariant forall j | 0 <= j < i :: ValueAt(j) == Answered(p, q.value, table).ops[j]
        invariant forall j | i <= j < |data| :: ValueAt(j) == p.ops[j]
      {
        PopulateAt(i, q.value, table);
        i := i + 1;
      }
    }
  }
}
