/**
 * Applying committed entries: ordinary entries are merged into one batch per run, membership changes go alone, and the
 * applied index is stored with what it stands for. The reference is one entry at a time, in index order.
 */
module Apply {
  import opened Bytes

  datatype Op = Set(k: Bytes, v: Bytes) | Del(k: Bytes)

  /**
   * The batch bytes of an ordinary entry: none for an empty or short one, or operations, or bytes that do not parse.
   */
  datatype Payload = Nothing | Ops(ops: seq<Op>) | Corrupt

  /** `own` says that this node proposed the entry, `waiter` who waits for it here. */
  datatype Entry =
    | Normal(index: nat, own: bool, waiter: nat, payload: Payload)
    | ConfV1(index: nat, change: Option<nat>)
    | ConfV2(index: nat, change: Option<nat>, own: bool, waiter: nat)

  datatype Disk = Disk(data: map<Bytes, Bytes>, applied: nat, conf: nat)

  /** Applying a membership change, as the raft library computes it. */
  type Changer = (nat, nat) -> nat

  function ApplyOp(data: map<Bytes, Bytes>, op: Op): map<Bytes, Bytes> {
    match op
    case Set(k, v) => data[k := v]
    case Del(k) => data - {k}
  }

  function ApplyOps(data: map<Bytes, Bytes>, ops: seq<Op>): map<Bytes, Bytes> {
    if ops == [] then data else ApplyOp(ApplyOps(data, ops[..|ops| - 1]), ops[|ops| - 1])
  }

  function OpsOf(p: Payload): seq<Op> {
    if p.Ops? then p.ops else []
  }

  /** An entry no replica can apply; the group stops rather than diverge. */
  predicate Poison(e: Entry) {
    match e
    case Normal(_, _, _, p) => p.Corrupt?
    case ConfV1(_, c) => c == None
    case ConfV2(_, c, _, _) => c == None
  }

  /** The reference: one entry, skipped when the state is already at or past it. A poison entry changes nothing. */
  function ApplyOne(next: Changer, d: Disk, e: Entry): Disk {
    if e.index <= d.applied || Poison(e) then d
    else match e
         case Normal(_, _, _, p) => d.(data := ApplyOps(d.data, OpsOf(p)), applied := e.index)
         case ConfV1(_, c) => d.(conf := next(d.conf, c.value), applied := e.index)
         case ConfV2(_, c, _, _) => d.(conf := next(d.conf, c.value), applied := e.index)
  }

  /** No entry above the index is poison. */
  predicate Clean(ents: seq<Entry>, above: nat) {
    forall i :: 0 <= i < |ents| && ents[i].index > above ==> !Poison(ents[i])
  }

  function Fold(next: Changer, d: Disk, ents: seq<Entry>): Disk {
    if ents == [] then d else ApplyOne(next, Fold(next, d, ents[..|ents| - 1]), ents[|ents| - 1])
  }

  ghost predicate Ascending(ents: seq<Entry>) {
    forall i, j :: 0 <= i < j < |ents| ==> ents[i].index < ents[j].index
  }

  lemma {:induction false} ApplyOpsConcat(data: map<Bytes, Bytes>, a: seq<Op>, b: seq<Op>)
    ensures ApplyOps(data, a + b) == ApplyOps(ApplyOps(data, a), b)
  {
    if b == [] {
      assert a + b == a;
    } else {
      ApplyOpsConcat(data, a, b[..|b| - 1]);
      assert (a + b)[..|a + b| - 1] == a + b[..|b| - 1];
    }
  }

  lemma {:induction false} FoldConcat(next: Changer, d: Disk, a: seq<Entry>, b: seq<Entry>)
    ensures Fold(next, d, a + b) == Fold(next, Fold(next, d, a), b)
  {
    if b == [] {
      assert a + b == a;
    } else {
      FoldConcat(next, d, a, b[..|b| - 1]);
      assert (a + b)[..|a + b| - 1] == a + b[..|b| - 1];
    }
  }

  lemma {:induction false} FoldReaches(next: Changer, d: Disk, ents: seq<Entry>)
    requires Clean(ents, d.applied)
    ensures Fold(next, d, ents).applied >= d.applied
    ensures forall i :: 0 <= i < |ents| ==> ents[i].index <= Fold(next, d, ents).applied
  {
    if ents != [] {
      FoldReaches(next, d, ents[..|ents| - 1]);
    }
  }

  lemma {:induction false} FoldSkips(next: Changer, d: Disk, ents: seq<Entry>)
    requires forall i :: 0 <= i < |ents| ==> ents[i].index <= d.applied
    ensures Fold(next, d, ents) == d
  {
    if ents != [] {
      FoldSkips(next, d, ents[..|ents| - 1]);
    }
  }

  /** Crash and replay: from any state on the way, applying the same entries again reaches the same state. */
  lemma ReplayReaches(next: Changer, d: Disk, ents: seq<Entry>, k: nat)
    requires k <= |ents| && Clean(ents[..k], d.applied)
    ensures Fold(next, Fold(next, d, ents[..k]), ents) == Fold(next, d, ents)
  {
    var h, t := ents[..k], ents[k..];
    assert ents == h + t;
    var m := Fold(next, d, h);
    FoldReaches(next, d, h);
    FoldSkips(next, m, h);
    FoldConcat(next, m, h, t);
    FoldConcat(next, d, h, t);
  }

  // ----- a run of ordinary entries as one batch -----

  predicate Run(seg: seq<Entry>) {
    forall i :: 0 <= i < |seg| ==> seg[i].Normal?
  }

  function Merged(seg: seq<Entry>): seq<Op>
    requires Run(seg)
  {
    if seg == [] then [] else Merged(seg[..|seg| - 1]) + OpsOf(seg[|seg| - 1].payload)
  }

  /** One merged batch with the last index equals applying the run one by one. */
  lemma {:induction false} MergedIsFold(next: Changer, d: Disk, seg: seq<Entry>)
    requires Run(seg) && Clean(seg, d.applied) && Ascending(seg) && seg != [] && seg[0].index > d.applied
    ensures Fold(next, d, seg) == d.(data := ApplyOps(d.data, Merged(seg)), applied := seg[|seg| - 1].index)
  {
    var p, e := seg[..|seg| - 1], seg[|seg| - 1];
    ApplyOpsConcat(d.data, Merged(p), OpsOf(e.payload));
    if p != [] {
      MergedIsFold(next, d, p);
    } else {
      assert seg == [e] && Fold(next, d, p) == d && Merged(p) == [];
      assert [] + OpsOf(e.payload) == OpsOf(e.payload);
    }
  }

  /** Waiters to wake: this node's own ordinary entries above the applied index, in index order. */
  function Woken(ents: seq<Entry>, above: nat): seq<nat> {
    if ents == [] then []
    else
      var e := ents[|ents| - 1];
      Woken(ents[..|ents| - 1], above) + if e.Normal? && e.own && e.index > above then [e.waiter] else []
  }

  /** Membership changes above the applied index that carry an identity, for the caller to notify later. */
  function Changes(ents: seq<Entry>, above: nat): seq<(nat, bool)> {
    if ents == [] then []
    else
      var e := ents[|ents| - 1];
      Changes(ents[..|ents| - 1], above) + if e.ConfV2? && e.index > above then [(e.waiter, e.own)] else []
  }

  lemma {:induction false} WokenConcat(a: seq<Entry>, b: seq<Entry>, above: nat)
    ensures Woken(a + b, above) == Woken(a, above) + Woken(b, above)
  {
    if b == [] {
      assert a + b == a;
    } else {
      WokenConcat(a, b[..|b| - 1], above);
      assert (a + b)[..|a + b| - 1] == a + b[..|b| - 1];
    }
  }

  lemma TakeOne(ents: seq<Entry>, i: nat)
    requires i < |ents|
    ensures ents[..i + 1] == ents[..i] + [ents[i]] && ents[..i + 1][..i] == ents[..i]
  {
  }

  // ----- what the reference does, entry by entry and key by key -----

  /** `ops` in order turn `x` into `y`: the last operation on a key decides it, and no other key changes. */
  ghost predicate Written(x: map<Bytes, Bytes>, y: map<Bytes, Bytes>, ops: seq<Op>) {
    && (forall k :: (forall j :: 0 <= j < |ops| ==> ops[j].k != k) ==>
          (k in y <==> k in x) && (k in x && k in y ==> y[k] == x[k]))
    && (forall i :: 0 <= i < |ops| && (forall j :: i < j < |ops| ==> ops[j].k != ops[i].k) ==>
          match ops[i]
          case Set(k, v) => k in y && y[k] == v
          case Del(k) => k !in y)
  }

  lemma {:induction false} OpsWrite(data: map<Bytes, Bytes>, ops: seq<Op>)
    ensures Written(data, ApplyOps(data, ops), ops)
  {
    if ops != [] {
      var n := |ops| - 1;
      var p, x, y := ops[..n], ApplyOps(data, ops[..n]), ApplyOps(data, ops);
      OpsWrite(data, p);
      forall k | forall j :: 0 <= j < |ops| ==> ops[j].k != k
        ensures (k in y <==> k in data) && (k in data && k in y ==> y[k] == data[k])
      {
        assert forall j :: 0 <= j < |p| ==> p[j] == ops[j];
      }
      forall i | 0 <= i < |ops| && forall j :: i < j < |ops| ==> ops[j].k != ops[i].k
        ensures match ops[i] case Set(k, v) => k in y && y[k] == v case Del(k) => k !in y
      {
        if i < n {
          assert p[i] == ops[i] && ops[n].k != ops[i].k;
          assert forall j :: i < j < |p| ==> p[j] == ops[j];
        }
      }
    }
  }

  /** One entry: passed over at or below `above`; else its writes or its membership change, and the index with it. */
  ghost predicate Stepped(next: Changer, above: nat, a: Disk, b: Disk, e: Entry) {
    if e.index <= above then b == a
    else
      && b.applied == e.index
      && match e
         case Normal(_, _, _, p) =>
           !p.Corrupt? && b.conf == a.conf && Written(a.data, b.data, if p.Ops? then p.ops else [])
         case ConfV1(_, c) => c.Some? && b.data == a.data && b.conf == next(a.conf, c.value)
         case ConfV2(_, c, _, _) => c.Some? && b.data == a.data && b.conf == next(a.conf, c.value)
  }

  /** `z` is reached from `d` by taking every entry in turn. */
  ghost predicate Reached(next: Changer, d: Disk, ents: seq<Entry>, z: Disk) {
    exists run: seq<Disk> :: RunOf(next, d, ents, run) && run[|ents|] == z
  }

  ghost predicate RunOf(next: Changer, d: Disk, ents: seq<Entry>, run: seq<Disk>) {
    && |run| == |ents| + 1 && run[0] == d
    && forall i :: 0 <= i < |ents| ==> Stepped(next, d.applied, run[i], run[i + 1], ents[i])
  }

  lemma {:induction false} FoldSteps(next: Changer, d: Disk, ents: seq<Entry>) returns (run: seq<Disk>)
    requires Ascending(ents) && Clean(ents, d.applied)
    ensures RunOf(next, d, ents, run) && run[|ents|] == Fold(next, d, ents)
    ensures run[|ents|].applied
         == if ents == [] || ents[|ents| - 1].index <= d.applied then d.applied else ents[|ents| - 1].index
  {
    hide ApplyOps, OpsOf;
    if ents == [] {
      run := [d];
    } else {
      var n := |ents| - 1;
      var p, e := ents[..n], ents[n];
      var r := FoldSteps(next, d, p);
      var z := ApplyOne(next, r[n], e);
      OneStep(next, d.applied, r[n], e);
      run := r + [z];
      assert forall i :: 0 <= i <= n ==> run[i] == r[i];
      forall i | 0 <= i < |ents|
        ensures Stepped(next, d.applied, run[i], run[i + 1], ents[i])
      {
        if i < n {
          assert p[i] == ents[i] && Stepped(next, d.applied, r[i], r[i + 1], p[i]);
        }
      }
    }
  }

  lemma OneStep(next: Changer, above: nat, d: Disk, e: Entry)
    requires e.index > above ==> !Poison(e) && e.index > d.applied
    requires above <= d.applied
    ensures Stepped(next, above, d, ApplyOne(next, d, e), e)
  {
    hide ApplyOps, Written;
    if e.Normal? {
      OpsWrite(d.data, OpsOf(e.payload));
    }
  }

  /** No entry above the index is one a replica cannot apply: bytes that do not parse, or no change that does. */
  ghost predicate Applicable(ents: seq<Entry>, above: nat) {
    forall i :: 0 <= i < |ents| && ents[i].index > above ==>
      if ents[i].Normal? then !ents[i].payload.Corrupt? else ents[i].change.Some?
  }

  lemma CleanIsApplicable(ents: seq<Entry>, above: nat)
    ensures Clean(ents, above) <==> Applicable(ents, above)
  {
    if Clean(ents, above) {
      forall i | 0 <= i < |ents| && ents[i].index > above
        ensures if ents[i].Normal? then !ents[i].payload.Corrupt? else ents[i].change.Some?
      {
        assert !Poison(ents[i]);
      }
    }
  }

  /** `w` are the waiters of this node's own ordinary entries above the index, one per entry, in index order. */
  ghost predicate Wakes(w: seq<nat>, ents: seq<Entry>, above: nat) {
    exists at: seq<nat> :: WokenAt(w, ents, above, at)
  }

  ghost predicate WokenAt(w: seq<nat>, ents: seq<Entry>, above: nat, at: seq<nat>) {
    && |w| == |at|
    && (forall k :: 0 <= k < |at| ==>
          && at[k] < |ents| && ents[at[k]].Normal? && ents[at[k]].own && ents[at[k]].index > above
          && w[k] == ents[at[k]].waiter)
    && (forall k, l :: 0 <= k < l < |at| ==> at[k] < at[l])
    && (forall i :: 0 <= i < |ents| && ents[i].Normal? && ents[i].own && ents[i].index > above ==> i in at)
  }

  /** `c` are the identities of the membership changes above the index that carry one, in index order. */
  ghost predicate Announces(c: seq<(nat, bool)>, ents: seq<Entry>, above: nat) {
    exists at: seq<nat> :: AnnouncedAt(c, ents, above, at)
  }

  ghost predicate AnnouncedAt(c: seq<(nat, bool)>, ents: seq<Entry>, above: nat, at: seq<nat>) {
    && |c| == |at|
    && (forall k :: 0 <= k < |at| ==>
          && at[k] < |ents| && ents[at[k]].ConfV2? && ents[at[k]].index > above
          && c[k] == (ents[at[k]].waiter, ents[at[k]].own))
    && (forall k, l :: 0 <= k < l < |at| ==> at[k] < at[l])
    && (forall i :: 0 <= i < |ents| && ents[i].ConfV2? && ents[i].index > above ==> i in at)
  }

  lemma WokenNext(w: seq<nat>, p: seq<Entry>, e: Entry, above: nat, at: seq<nat>)
    requires WokenAt(w, p, above, at)
    ensures var mine := e.Normal? && e.own && e.index > above;
            WokenAt(w + if mine then [e.waiter] else [], p + [e], above, if mine then at + [|p|] else at)
  {
    var mine := e.Normal? && e.own && e.index > above;
    var ents, n := p + [e], if mine then at + [|p|] else at;
    forall i | 0 <= i < |ents| && ents[i].Normal? && ents[i].own && ents[i].index > above
      ensures i in n
    {
      if i < |p| {
        var k :| 0 <= k < |at| && at[k] == i;
        assert n[k] == i;
      } else {
        assert n[|at|] == i;
      }
    }
  }

  lemma {:induction false} WokenExactly(ents: seq<Entry>, above: nat) returns (at: seq<nat>)
    ensures WokenAt(Woken(ents, above), ents, above, at)
  {
    at := [];
    if ents != [] {
      hide WokenAt;
      var p, e := ents[..|ents| - 1], ents[|ents| - 1];
      var a := WokenExactly(p, above);
      WokenNext(Woken(p, above), p, e, above, a);
      assert p + [e] == ents;
      at := if e.Normal? && e.own && e.index > above then a + [|p|] else a;
    }
  }

  lemma AnnouncedNext(c: seq<(nat, bool)>, p: seq<Entry>, e: Entry, above: nat, at: seq<nat>)
    requires AnnouncedAt(c, p, above, at)
    ensures var named := e.ConfV2? && e.index > above;
            AnnouncedAt(c + if named then [(e.waiter, e.own)] else [], p + [e], above, if named then at + [|p|] else at)
  {
    var named := e.ConfV2? && e.index > above;
    var ents, n := p + [e], if named then at + [|p|] else at;
    forall i | 0 <= i < |ents| && ents[i].ConfV2? && ents[i].index > above
      ensures i in n
    {
      if i < |p| {
        var k :| 0 <= k < |at| && at[k] == i;
        assert n[k] == i;
      } else {
        assert n[|at|] == i;
      }
    }
  }

  lemma {:induction false} ChangesExactly(ents: seq<Entry>, above: nat) returns (at: seq<nat>)
    ensures AnnouncedAt(Changes(ents, above), ents, above, at)
  {
    at := [];
    if ents != [] {
      hide AnnouncedAt;
      var p, e := ents[..|ents| - 1], ents[|ents| - 1];
      var a := ChangesExactly(p, above);
      AnnouncedNext(Changes(p, above), p, e, above, a);
      assert p + [e] == ents;
      at := if e.ConfV2? && e.index > above then a + [|p|] else a;
    }
  }

  lemma AllTold(ents: seq<Entry>, above: nat)
    ensures Wakes(Woken(ents, above), ents, above) && Announces(Changes(ents, above), ents, above)
  {
    hide Woken, Changes, WokenAt, AnnouncedAt;
    var a := WokenExactly(ents, above);
    var b := ChangesExactly(ents, above);
  }

  lemma AllReached(next: Changer, d: Disk, ents: seq<Entry>)
    requires Ascending(ents) && Clean(ents, d.applied)
    ensures Reached(next, d, ents, Fold(next, d, ents))
  {
    hide Fold, Clean, Ascending, RunOf;
    var run := FoldSteps(next, d, ents);
  }

  class Group {
    const next: Changer
    var disk: Disk
    /** The applied index and members as memory has them; a snapshot reads both under the lock that writes them. */
    var applied: nat
    var conf: nat
    /** Waiters woken so far, in order. */
    var woken: seq<nat>
    /** Some waiter was woken while its entry was not yet in the store. */
    ghost var early: bool
    ghost var log: seq<Disk>
    ghost var durable: nat

    ghost predicate Valid()
      reads this
    {
      && 0 < |log| && durable < |log| && log[|log| - 1] == disk
      && applied == disk.applied && conf == disk.conf && !early
    }

    constructor (next: Changer, d: Disk)
      ensures Valid() && disk == d && this.next == next && log == [d] && woken == []
    {
      this.next, disk, applied, conf, woken := next, d, d.applied, d.conf, [];
      log, durable, early := [d], 0, false;
    }

    /** One store batch and the memory pair, in one critical section; members are synced, ordinary data is not. */
    method Commit(d: Disk, sync: bool)
      requires Valid()
      modifies `disk, `applied, `conf, `log, `durable
      ensures Valid() && disk == d && log == old(log) + [d]
      ensures durable == if sync then |log| - 1 else old(durable)
    {
      disk, applied, conf := d, d.applied, d.conf;
      log := log + [d];
      durable := if sync then |log| - 1 else durable;
    }

    /**
     * applyEntries: merge, commit once, and only then wake the waiters. A payload that does not merge stops the group.
     */
    method ApplyEntries(seg: seq<Entry>) returns (ok: bool)
      requires Valid() && Run(seg) && Ascending(seg) && (seg != [] ==> seg[0].index > applied)
      modifies `disk, `applied, `conf, `log, `durable, `woken, `early
      ensures Valid() && (ok <==> forall i :: 0 <= i < |seg| ==> !Poison(seg[i]))
      ensures !ok ==> disk == old(disk) && log == old(log) && woken == old(woken)
      ensures ok ==> disk == Fold(next, old(disk), seg)
      ensures ok ==> log == if seg == [] then old(log) else old(log) + [disk]
      ensures ok ==> woken == old(woken) + Woken(seg, old(disk).applied)
    {
      hide Fold;
      if |seg| == 0 {
        NothingFolded(next, disk);
        assert woken + Woken([], disk.applied) == woken;
        return true;
      }
      var fine, ops := MergeAll(seg);
      if !fine {
        return false;
      }
      MergedIsFold(next, disk, seg);
      ghost var above := disk.applied;
      var last := seg[|seg| - 1].index;
      Commit(disk.(data := ApplyOps(disk.data, ops), applied := last), false);
      Wake(seg, above);
      ok := true;
    }

    method MergeAll(seg: seq<Entry>) returns (ok: bool, ops: seq<Op>)
      requires Run(seg)
      ensures ok <==> forall k :: 0 <= k < |seg| ==> !Poison(seg[k])
      ensures ok ==> ops == Merged(seg)
    {
      ops := [];
      var i := 0;
      while i < |seg|
        invariant 0 <= i <= |seg| && ops == Merged(seg[..i])
        invariant forall k :: 0 <= k < i ==> !Poison(seg[k])
      {
        TakeOne(seg, i);
        if seg[i].payload.Corrupt? {
          assert Poison(seg[i]);
          return false, [];
        }
        if seg[i].payload.Ops? {
          ops := ops + seg[i].payload.ops;
        }
        i := i + 1;
      }
      assert seg[..i] == seg;
      ok := true;
    }

    method Wake(seg: seq<Entry>, ghost above: nat)
      requires Run(seg) && forall i :: 0 <= i < |seg| ==> above < seg[i].index <= disk.applied
      modifies `woken, `early
      ensures early == old(early)
      ensures woken == old(woken) + Woken(seg, above)
    {
      hide Woken;
      NothingWoken(above);
      assert seg[..0] == [];
      var i := 0;
      while i < |seg|
        invariant 0 <= i <= |seg| && woken == old(woken) + Woken(seg[..i], above) && early == old(early)
      {
        ListsSnoc(seg, i, above);
        if seg[i].own {
          early := early || seg[i].index > disk.applied;
          woken := woken + [seg[i].waiter];
        }
        i := i + 1;
      }
      assert seg[..i] == seg;
    }

    /** A membership change is committed alone, members and applied index together. */
    method ApplyConf(e: Entry) returns (ok: bool)
      requires Valid() && !e.Normal? && e.index > applied
      modifies `disk, `applied, `conf, `log, `durable
      ensures Valid() && (ok <==> !Poison(e))
      ensures ok ==> disk == ApplyOne(next, old(disk), e) && log == old(log) + [disk] && durable == |log| - 1
      ensures !ok ==> disk == old(disk) && log == old(log)
    {
      if e.change == None {
        return false;
      }
      Commit(disk.(conf := next(conf, e.change.value), applied := e.index), true);
      ok := true;
    }

    /** Commit the run gathered so far. */
    method FlushSeg(seg: seq<Entry>, ghost d0: Disk, ghost ents: seq<Entry>, ghost i: nat, ghost from: nat)
      returns (ok: bool)
      requires Valid() && Climbs(next, d0, ents, log, from) && Gathered(next, d0, ents, i, disk, seg)
      modifies `disk, `applied, `conf, `log, `durable, `woken, `early
      ensures Valid() && Climbs(next, d0, ents, log, from) && old(log) <= log
      ensures ok ==> Gathered(next, d0, ents, i, disk, []) && Clean(ents[..i], d0.applied)
      ensures ok ==> woken == old(woken) + Woken(seg, d0.applied)
      ensures !ok ==> !Clean(ents, d0.applied)
    {
      hide Fold, Gathered, Woken, Climbs, Run, Ascending, Clean, Poison;
      GatheredRun(next, d0, ents, i, disk, seg);
      ok := ApplyEntries(seg);
      if ok {
        Flushed(next, d0, ents, i, old(disk), disk, seg);
        if |seg| > 0 {
          ClimbsOn(next, d0, ents, old(log), from, disk, i);
        }
      } else {
        GatheredPoison(next, d0, ents, i, disk, seg);
      }
    }

    /**
     * applyPhase: ordinary entries gather in a run that is committed before any membership change and at the end. The
     * outcome is that of the reference, one entry at a time; every commit stands for a prefix of the entries, so the
     * stored index never drops; waiters wake in index order, after their data. Poison above the index stops the group.
     */
    method ApplyPhase(ents: seq<Entry>) returns (ok: bool, changes: seq<(nat, bool)>)
      requires Valid() && Ascending(ents)
      modifies this
      ensures Valid() && old(log) <= log
      ensures ok <==> Clean(ents, old(disk).applied)
      ensures ok <==> Applicable(ents, old(disk).applied)
      ensures ok ==> Reached(next, old(disk), ents, disk) && disk == Fold(next, old(disk), ents)
      ensures ok ==> old(woken) <= woken && Wakes(woken[|old(woken)|..], ents, old(disk).applied)
      ensures ok ==> Announces(changes, ents, old(disk).applied)
      ensures Climbs(next, old(disk), ents, log, |old(log)|)
    {
      hide Fold, Gathered, Woken, Climbs, Changes, Clean, Poison, Ascending, Reached, Applicable, Wakes, Announces;
      CleanIsApplicable(ents, disk.applied);
      changes, ok := [], true;
      ghost var d0, w0, from := disk, woken, |log|;
      var seg: seq<Entry> := [];
      var i := 0;
      GatherStart(next, d0, ents, log);
      while i < |ents|
        invariant 0 <= i <= |ents| && Valid() && Ascending(ents) && old(log) <= log
        invariant Climbs(next, d0, ents, log, from) && Gathered(next, d0, ents, i, disk, seg)
        invariant woken + Woken(seg, d0.applied) == w0 + Woken(ents[..i], d0.applied)
        invariant changes == Changes(ents[..i], d0.applied)
      {
        var e := ents[i];
        ListsSnoc(ents, i, d0.applied);
        if e.index <= applied {
          GatherSkip(next, d0, ents, i, disk, seg);
        } else if e.Normal? {
          GatherNormal(next, d0, ents, i, disk, seg);
          WokenSnoc(seg, e, d0.applied);
          ghost var one := if e.own then [e.waiter] else [];
          assert woken + (Woken(seg, d0.applied) + one) == (woken + Woken(seg, d0.applied)) + one;
          seg := seg + [e];
        } else {
          GatheredAbove(next, d0, ents, i, disk, seg);
          ok := FlushSeg(seg, d0, ents, i, from);
          if !ok {
            return;
          }
          NothingWoken(d0.applied);
          seg := [];
          GatherConf(next, d0, ents, i, disk);
          ghost var l := log;
          ok := ApplyConf(e);
          if !ok {
            ConfPoison(ents, i, d0.applied);
            return;
          }
          ClimbsOn(next, d0, ents, l, from, disk, i + 1);
          if e.ConfV2? {
            changes := changes + [(e.waiter, e.own)];
          }
        }
        i := i + 1;
      }
      ok := FlushSeg(seg, d0, ents, i, from);
      assert ents[..i] == ents;
      if ok {
        GatherEnd(next, d0, ents, disk);
        AllReached(next, d0, ents);
        AllTold(ents, d0.applied);
        NothingWoken(d0.applied);
      }
    }
  }

  /** Every commit from `from` on stands for a prefix of the entries, and the stored index never drops. */
  ghost predicate Climbs(next: Changer, d0: Disk, ents: seq<Entry>, log: seq<Disk>, from: nat) {
    && 0 < from <= |log|
    && (forall n :: from <= n < |log| ==> IsPrefixState(next, d0, ents, log[n]))
    && (forall m, n :: from - 1 <= m <= n < |log| ==> log[m].applied <= log[n].applied)
  }

  ghost predicate IsPrefixState(next: Changer, d0: Disk, ents: seq<Entry>, d: Disk) {
    exists k :: 0 <= k <= |ents| && Clean(ents[..k], d0.applied) && d == Fold(next, d0, ents[..k])
  }

  /** After `i` entries: `d` is committed and `seg` is gathered, and together they are the reference so far. */
  ghost predicate Gathered(next: Changer, d0: Disk, ents: seq<Entry>, i: nat, d: Disk, seg: seq<Entry>) {
    && i <= |ents| && Run(seg) && Ascending(seg) && d0.applied <= d.applied
    && Fold(next, d, seg) == Fold(next, d0, ents[..i])
    && (seg != [] ==> seg[0].index > d.applied)
    && (forall k :: 0 <= k < |seg| ==> seg[k] in ents && seg[k].index > d0.applied)
    && (forall k :: i <= k < |ents| && ents[k].index > d0.applied ==>
          ents[k].index > d.applied && (seg != [] ==> ents[k].index > seg[|seg| - 1].index))
    && (forall k :: 0 <= k < i && ents[k].index > d0.applied && Poison(ents[k]) ==> ents[k] in seg)
  }

  lemma NothingFolded(next: Changer, d: Disk)
    ensures Fold(next, d, []) == d
  {
  }

  lemma NothingWoken(above: nat)
    ensures Woken([], above) == []
  {
  }

  lemma GatheredRun(next: Changer, d0: Disk, ents: seq<Entry>, i: nat, d: Disk, seg: seq<Entry>)
    requires Gathered(next, d0, ents, i, d, seg)
    ensures Run(seg) && Ascending(seg) && (seg != [] ==> seg[0].index > d.applied) && i <= |ents|
    ensures Woken(seg, d.applied) == Woken(seg, d0.applied)
  {
    hide Fold;
    WokenSame(seg, d0.applied, d.applied);
  }

  lemma {:induction false} WokenSame(seg: seq<Entry>, a: nat, b: nat)
    requires Ascending(seg) && (seg != [] ==> seg[0].index > b) && a <= b
    ensures Woken(seg, a) == Woken(seg, b)
  {
    if seg != [] {
      WokenSame(seg[..|seg| - 1], a, b);
    }
  }

  lemma Flushed(next: Changer, d0: Disk, ents: seq<Entry>, i: nat, d: Disk, n: Disk, seg: seq<Entry>)
    requires Gathered(next, d0, ents, i, d, seg) && n == Fold(next, d, seg)
    requires forall k :: 0 <= k < |seg| ==> !Poison(seg[k])
    ensures Gathered(next, d0, ents, i, n, []) && Clean(ents[..i], d0.applied)
    ensures n == Fold(next, d0, ents[..i]) && n.applied >= d.applied
  {
    hide Poison;
    NothingFolded(next, n);
    NothingFolded(next, d);
    if seg != [] {
      MergedIsFold(next, d, seg);
    }
    hide Fold;
  }

  lemma GatheredPoison(next: Changer, d0: Disk, ents: seq<Entry>, i: nat, d: Disk, seg: seq<Entry>)
    requires Gathered(next, d0, ents, i, d, seg) && exists k :: 0 <= k < |seg| && Poison(seg[k])
    ensures !Clean(ents, d0.applied)
  {
    hide Fold, Poison;
    var k :| 0 <= k < |seg| && Poison(seg[k]);
    var j :| 0 <= j < |ents| && ents[j] == seg[k];
    assert ents[j].index > d0.applied;
  }

  lemma ConfPoison(ents: seq<Entry>, i: nat, above: nat)
    requires i < |ents| && ents[i].index > above && Poison(ents[i])
    ensures !Clean(ents, above)
  {
    hide Poison;
  }

  lemma PrefixState(next: Changer, d0: Disk, ents: seq<Entry>, k: nat)
    requires k <= |ents| && Clean(ents[..k], d0.applied)
    ensures IsPrefixState(next, d0, ents, Fold(next, d0, ents[..k]))
  {
    hide Fold, Clean;
  }

  lemma ClimbsOn(next: Changer, d0: Disk, ents: seq<Entry>, log: seq<Disk>, from: nat, n: Disk, k: nat)
    requires Climbs(next, d0, ents, log, from) && k <= |ents| && Clean(ents[..k], d0.applied)
    requires n == Fold(next, d0, ents[..k]) && n.applied >= log[|log| - 1].applied
    ensures Climbs(next, d0, ents, log + [n], from)
  {
    hide Fold, Clean, IsPrefixState;
    PrefixState(next, d0, ents, k);
    var l := log + [n];
    forall m | from <= m < |l|
      ensures IsPrefixState(next, d0, ents, l[m])
    {
      assert if m < |log| then l[m] == log[m] else l[m] == n;
    }
    forall a, b | from - 1 <= a <= b < |l|
      ensures l[a].applied <= l[b].applied
    {
      if b == |log| && a < b {
        assert log[a].applied <= log[|log| - 1].applied;
      }
    }
  }

  lemma GatherStart(next: Changer, d0: Disk, ents: seq<Entry>, log: seq<Disk>)
    requires 0 < |log|
    ensures Gathered(next, d0, ents, 0, d0, []) && Climbs(next, d0, ents, log, |log|)
    ensures Woken(ents[..0], d0.applied) == [] && Woken([], d0.applied) == [] && Changes(ents[..0], d0.applied) == []
  {
    assert ents[..0] == [];
  }

  lemma ListsSnoc(ents: seq<Entry>, i: nat, above: nat)
    requires i < |ents|
    ensures Woken(ents[..i + 1], above) == Woken(ents[..i], above) +
              if ents[i].Normal? && ents[i].own && ents[i].index > above then [ents[i].waiter] else []
    ensures Changes(ents[..i + 1], above) == Changes(ents[..i], above) +
              if ents[i].ConfV2? && ents[i].index > above then [(ents[i].waiter, ents[i].own)] else []
  {
    TakeOne(ents, i);
  }

  lemma WokenSnoc(seg: seq<Entry>, e: Entry, above: nat)
    ensures Woken(seg + [e], above) == Woken(seg, above) +
              if e.Normal? && e.own && e.index > above then [e.waiter] else []
  {
    assert (seg + [e])[..|seg|] == seg;
  }

  lemma {:induction false} FoldMonotone(next: Changer, d: Disk, ents: seq<Entry>)
    ensures Fold(next, d, ents).applied >= d.applied
  {
    if ents != [] {
      FoldMonotone(next, d, ents[..|ents| - 1]);
    }
  }

  lemma FoldNext(next: Changer, d: Disk, ents: seq<Entry>, i: nat)
    requires i < |ents|
    ensures Fold(next, d, ents[..i + 1]) == ApplyOne(next, Fold(next, d, ents[..i]), ents[i])
  {
    TakeOne(ents, i);
  }

  lemma GatherSkip(next: Changer, d0: Disk, ents: seq<Entry>, i: nat, d: Disk, seg: seq<Entry>)
    requires Gathered(next, d0, ents, i, d, seg) && i < |ents| && ents[i].index <= d.applied
    ensures Gathered(next, d0, ents, i + 1, d, seg) && ents[i].index <= d0.applied
  {
    FoldNext(next, d0, ents, i);
    FoldMonotone(next, d0, ents[..i]);
    hide Fold, Poison;
  }

  lemma GatheredAbove(next: Changer, d0: Disk, ents: seq<Entry>, i: nat, d: Disk, seg: seq<Entry>)
    requires Gathered(next, d0, ents, i, d, seg) && i < |ents| && ents[i].index > d.applied
    ensures ents[i].index > d0.applied
  {
    hide Fold, Poison;
  }

  lemma FoldSnoc(next: Changer, d: Disk, seg: seq<Entry>, e: Entry)
    ensures Fold(next, d, seg + [e]) == ApplyOne(next, Fold(next, d, seg), e)
  {
    assert (seg + [e])[..|seg|] == seg;
  }

  lemma GatherNormal(next: Changer, d0: Disk, ents: seq<Entry>, i: nat, d: Disk, seg: seq<Entry>)
    requires Gathered(next, d0, ents, i, d, seg) && Ascending(ents) && i < |ents| && ents[i].index > d.applied
    requires ents[i].Normal?
    ensures Gathered(next, d0, ents, i + 1, d, seg + [ents[i]]) && ents[i].index > d0.applied
  {
    hide Fold, Poison, ApplyOne;
    var e := ents[i];
    FoldNext(next, d0, ents, i);
    FoldSnoc(next, d, seg, e);
    var s := seg + [e];
    assert s[0] == if seg == [] then e else seg[0];
    forall k | 0 <= k < |s|
      ensures s[k] in ents && s[k].index > d0.applied
    {
      assert if k < |seg| then s[k] == seg[k] else s[k] == e;
    }
    forall k, m | 0 <= k < m < |s|
      ensures s[k].index < s[m].index
    {
      assert s[k] == seg[k];
      if m == |seg| {
        assert seg[k].index <= seg[|seg| - 1].index;
      }
    }
    forall k | 0 <= k < i + 1 && ents[k].index > d0.applied && Poison(ents[k])
      ensures ents[k] in s
    {
      assert k < i ==> ents[k] in seg;
      assert s[|seg|] == e;
    }
  }

  lemma CleanNext(ents: seq<Entry>, i: nat, above: nat)
    requires i < |ents| && Clean(ents[..i], above) && !Poison(ents[i])
    ensures Clean(ents[..i + 1], above)
  {
    hide Poison;
    var p := ents[..i + 1];
    forall k | 0 <= k < |p| && p[k].index > above
      ensures !Poison(p[k])
    {
      assert k < i ==> p[k] == ents[..i][k];
    }
  }

  lemma GatherConf(next: Changer, d0: Disk, ents: seq<Entry>, i: nat, d: Disk)
    requires Gathered(next, d0, ents, i, d, []) && Ascending(ents) && i < |ents| && Clean(ents[..i], d0.applied)
    requires d0.applied < ents[i].index
    ensures ents[i].index > d.applied
    ensures !Poison(ents[i]) ==>
              var n := ApplyOne(next, d, ents[i]);
              && Gathered(next, d0, ents, i + 1, n, []) && Clean(ents[..i + 1], d0.applied)
              && n == Fold(next, d0, ents[..i + 1]) && n.applied >= d.applied
  {
    hide Fold, Poison, Clean;
    FoldNext(next, d0, ents, i);
    NothingFolded(next, d);
    assert ents[i].index > d.applied;
    if !Poison(ents[i]) {
      var n := ApplyOne(next, d, ents[i]);
      NothingFolded(next, n);
      CleanNext(ents, i, d0.applied);
      assert n.applied == ents[i].index;
    }
  }

  lemma GatherEnd(next: Changer, d0: Disk, ents: seq<Entry>, d: Disk)
    requires Gathered(next, d0, ents, |ents|, d, [])
    ensures d == Fold(next, d0, ents)
  {
    assert ents[..|ents|] == ents;
    NothingFolded(next, d);
  }
}
