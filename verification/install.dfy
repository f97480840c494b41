/**
 * Snapshot install on the receiving node: marker, wipe, chunks, closing batch; and the reset of a half-installed group,
 * which is one batch in the store and then the removal of the segment log, which is not in the store.
 * The store is a sequence of atomic batches; a power loss keeps some prefix that includes the last synced batch.
 */
module Install {
  import opened Bytes
  import opened Faults
  import opened Scan
  import SnapStream

  type Data = map<Bytes, Bytes>

  datatype SnapMeta = SnapMeta(index: nat, term: nat, conf: nat)

  /**
   * The group's segment log: the index it starts at, if it holds any entry. While its files are `going`, removed but
   * the removal not yet on disk, a power loss may bring any of them back.
   */
  datatype LogFiles = LogFiles(start: Option<nat>, going: bool)

  /** The shared key space, the raft progress keys of the group being installed, and its segment log. */
  datatype Disk = Disk(data: Data, applied: nat, anchor: Option<SnapMeta>, conf: Option<nat>,
                       marker: Option<SnapMeta>, log: LogFiles)

  // ----- the batches -----

  function MapOf(pairs: seq<KV>): Data {
    if pairs == [] then map[]
    else MapOf(pairs[..|pairs| - 1])[pairs[|pairs| - 1].key := pairs[|pairs| - 1].val]
  }

  function Mark(d: Disk, meta: SnapMeta): Disk {
    d.(marker := Some(meta))
  }

  function Wipe(d: Disk, sc: Scope): Disk {
    d.(data := map k | k in d.data && !sc.Owns(k) :: d.data[k])
  }

  function Put(d: Disk, pairs: seq<KV>): Disk {
    d.(data := d.data + MapOf(pairs))
  }

  /** The closing batch: applied, members, anchor and the removal of the marker, all at once. */
  function Close(d: Disk, meta: SnapMeta): Disk {
    d.(applied := meta.index, conf := Some(meta.conf), anchor := Some(meta), marker := None)
  }

  /** First step of the reset at a restart that finds the marker: the batch; the members are kept on purpose. */
  function Reset(d: Disk): Disk {
    d.(applied := 0, anchor := None, marker := None)
  }

  /** Second step of the reset. */
  function LogGone(d: Disk): Disk {
    d.(log := LogFiles(None, true))
  }

  function Higher(a: nat, b: nat): nat {
    if a < b then b else a
  }

  /**
   * The index raft takes as already applied when the group comes up from an unmarked disk: it seeds its storage with
   * the anchor, or without one just before the first entry of the log, and redelivers only what comes after.
   */
  function ResumesAfter(d: Disk): nat {
    var seed := if d.anchor.Some? then d.anchor.value.index
                else if d.log.start.Some? && d.log.start.value > 0 then d.log.start.value - 1
                else 0;
    Higher(seed, d.applied)
  }

  /** Where the anchor, or without one the log, says raft's storage begins. */
  ghost function Seed(d: Disk): nat {
    match d.anchor
    case Some(a) => a.index
    case None => match d.log.start case Some(first) => (if first == 0 then 0 else first - 1) case None => 0
  }

  // ----- what a reader of the disk may believe -----

  ghost function Own(d: Disk, sc: Scope): Data {
    map k | k in d.data && sc.Owns(k) :: d.data[k]
  }

  ghost function Others(d: Disk, sc: Scope): Data {
    map k | k in d.data && !sc.Owns(k) :: d.data[k]
  }

  /** The group as some node holds it: its keys with the position they correspond to. */
  datatype Whole = Whole(own: Data, applied: nat, anchor: Option<SnapMeta>, conf: Option<nat>)

  ghost function View(d: Disk, sc: Scope): Whole {
    Whole(Own(d, sc), d.applied, d.anchor, d.conf)
  }

  /** What a completed install of `view` must leave. */
  ghost function Copy(view: seq<KV>, sc: Scope, meta: SnapMeta): Whole {
    Whole(MapOf(Select(view, sc, None)), meta.index, Some(meta), Some(meta.conf))
  }

  ghost predicate Emptied(w: Whole) {
    w.own == map[] && w.applied == 0 && w.anchor == None
  }

  /** Raft goes on exactly where the keys stand, whatever a power loss does to files on their way out. */
  predicate Steady(d: Disk) {
    ResumesAfter(d) == d.applied && (d.anchor.Some? || !d.log.going)
  }

  /** An emptied group with a log that does not start at the beginning. */
  ghost predicate Leftover(d: Disk, sc: Scope) {
    Emptied(View(d, sc)) && d.log.start.Some? && d.log.start.value > 1
  }

  /**
   * A disk that may be taken at face value: no marker, and either something known to be whole, with its log, or
   * emptied.
   */
  ghost predicate Trusted(d: Disk, sc: Scope, known: set<Whole>) {
    d.marker == None && ((View(d, sc) in known && Steady(d)) || Emptied(View(d, sc)))
  }

  /** Every disk state a power loss can expose: trusted, or marked as half installed. */
  ghost predicate Safe(d: Disk, sc: Scope, known: set<Whole>) {
    d.marker.Some? || Trusted(d, sc, known)
  }

  // ----- facts about batches -----

  lemma {:induction false} MapOfConcat(a: seq<KV>, b: seq<KV>)
    ensures MapOf(a + b) == MapOf(a) + MapOf(b)
  {
    if b == [] {
      assert a + b == a;
    } else {
      MapOfConcat(a, b[..|b| - 1]);
      assert (a + b)[..|a + b| - 1] == a + b[..|b| - 1];
    }
  }

  lemma {:induction false} MapOfKeys(pairs: seq<KV>, k: Bytes)
    ensures k in MapOf(pairs) <==> exists i :: 0 <= i < |pairs| && pairs[i].key == k
    ensures k in MapOf(pairs) ==> exists i :: 0 <= i < |pairs| && pairs[i] == KV(k, MapOf(pairs)[k])
  {
    if pairs != [] {
      var p := pairs[..|pairs| - 1];
      MapOfKeys(p, k);
      if i :| 0 <= i < |p| && p[i].key == k {
        assert pairs[i].key == k;
      }
      assert pairs[|pairs| - 1].key == k ==> pairs[|pairs| - 1] == KV(k, MapOf(pairs)[k]);
      if k in MapOf(p) && pairs[|pairs| - 1].key != k {
        var j :| 0 <= j < |p| && p[j] == KV(k, MapOf(p)[k]);
        assert pairs[j] == KV(k, MapOf(pairs)[k]);
      }
    }
  }

  /** The sender's group as a map is its view restricted to the keys the group owns. */
  lemma SelectAsMap(view: seq<KV>, sc: Scope, k: Bytes)
    ensures k in MapOf(Select(view, sc, None)) <==> sc.Owns(k) && exists i :: 0 <= i < |view| && view[i].key == k
    ensures k in MapOf(Select(view, sc, None)) ==> KV(k, MapOf(Select(view, sc, None))[k]) in view
  {
    var s := Select(view, sc, None);
    MapOfKeys(s, k);
    if k in MapOf(s) {
      var i :| 0 <= i < |s| && s[i] == KV(k, MapOf(s)[k]);
      SelectMembers(view, sc, None, s[i]);
    }
    if i :| 0 <= i < |view| && view[i].key == k && sc.Owns(k) {
      SelectMembers(view, sc, None, view[i]);
      var j :| 0 <= j < |s| && s[j] == view[i];
      assert s[j].key == k;
    }
  }

  lemma OwnedPairs(view: seq<KV>, sc: Scope, got: seq<KV>)
    requires got <= Select(view, sc, None)
    ensures forall k :: k in MapOf(got) ==> sc.Owns(k)
  {
    forall k | k in MapOf(got)
      ensures sc.Owns(k)
    {
      MapOfKeys(got, k);
      var i :| 0 <= i < |got| && got[i].key == k;
      SelectMembers(view, sc, None, Select(view, sc, None)[i]);
    }
  }

  /** Chunks received so far, on top of a wiped group, never touch another group's keys. */
  lemma PutKeepsOthers(d: Disk, sc: Scope, view: seq<KV>, got: seq<KV>)
    requires got <= Select(view, sc, None)
    ensures Others(Put(d, got), sc) == Others(d, sc)
    ensures Own(d, sc) == map[] ==> Own(Put(d, got), sc) == MapOf(got)
  {
    OwnedPairs(view, sc, got);
    if Own(d, sc) == map[] {
      forall k | k in d.data
        ensures !sc.Owns(k)
      {
        assert sc.Owns(k) ==> k in Own(d, sc);
      }
    }
  }

  lemma WipeKeepsOthers(d: Disk, sc: Scope)
    ensures Others(Wipe(d, sc), sc) == Others(d, sc) && Own(Wipe(d, sc), sc) == map[]
  {
  }

  /** One commit per chunk. */
  ghost function PutStates(d: Disk, chunks: seq<seq<KV>>): (r: seq<Disk>)
    ensures |r| == |chunks|
  {
    if chunks == [] then []
    else
      var n := |chunks| - 1;
      PutStates(d, chunks[..n]) + [Put(d, SnapStream.Concat(chunks[..n]) + chunks[n])]
  }

  /** The disks an install passes through after marking: wiped, then one per chunk, then closed. */
  ghost function InstallStates(d: Disk, sc: Scope, meta: SnapMeta, chunks: seq<seq<KV>>): seq<Disk> {
    var wiped := Wipe(Mark(d, meta), sc);
    [Mark(d, meta), wiped] + PutStates(wiped, chunks) + [Close(Put(wiped, SnapStream.Concat(chunks)), meta)]
  }

  lemma {:induction false} PutStatesMarked(d: Disk, sc: Scope, view: seq<KV>, chunks: seq<seq<KV>>)
    requires SnapStream.Concat(chunks) <= Select(view, sc, None)
    ensures forall j :: 0 <= j < |chunks| ==>
              PutStates(d, chunks)[j].marker == d.marker && Others(PutStates(d, chunks)[j], sc) == Others(d, sc)
  {
    if chunks != [] {
      var n := |chunks| - 1;
      PutStatesMarked(d, sc, view, chunks[..n]);
      PutKeepsOthers(d, sc, view, SnapStream.Concat(chunks));
    }
  }

  /**
   * Crash safety of one install, from any disk and at any step: every disk it exposes before the closing batch is
   * marked, the closing batch makes it an exact copy of the sender's group, and other groups never change.
   */
  lemma InstallCrashSafe(d: Disk, sc: Scope, meta: SnapMeta, view: seq<KV>, chunks: seq<seq<KV>>, j: nat)
    requires SnapStream.Concat(chunks) == Select(view, sc, None)
    requires j < |InstallStates(d, sc, meta, chunks)|
    ensures var s := InstallStates(d, sc, meta, chunks);
            && Others(s[j], sc) == Others(d, sc)
            && (j < |s| - 1 ==> s[j].marker == Some(meta))
            && (j == |s| - 1 ==> s[j].marker == None && View(s[j], sc) == Copy(view, sc, meta))
  {
    var wiped := Wipe(Mark(d, meta), sc);
    WipeKeepsOthers(Mark(d, meta), sc);
    PutStatesMarked(wiped, sc, view, chunks);
    PutKeepsOthers(wiped, sc, view, SnapStream.Concat(chunks));
  }

  /** A restart that finds the marker empties the group and removes its log; one that does not leaves the disk alone. */
  ghost function RestartStates(d: Disk, sc: Scope): seq<Disk> {
    if d.marker.Some? then [Wipe(d, sc), Reset(Wipe(d, sc)), LogGone(Reset(Wipe(d, sc)))] else []
  }

  /**
   * Every disk a restart exposes is marked until the group is empty with applied 0, and in the end its log is gone too.
   * Of these only the one between the two steps of the reset can resume at the wrong place, and it does so exactly if
   * the log left over starts above 1.
   */
  lemma RestartCrashSafe(d: Disk, sc: Scope, j: nat)
    requires j < |RestartStates(d, sc)|
    ensures var s := RestartStates(d, sc);
            && Others(s[j], sc) == Others(d, sc)
            && (j == 0 ==> s[j].marker == d.marker)
            && (j > 0 ==> s[j].marker == None && Emptied(View(s[j], sc)))
            && (j == 1 ==> (ResumesAfter(s[j]) == s[j].applied <==> !(d.log.start.Some? && d.log.start.value > 1)))
            && (j == 2 ==> s[j].log.start == None && ResumesAfter(s[j]) == s[j].applied)
  {
    WipeKeepsOthers(d, sc);
  }

  // ----- a crash between the two steps of the reset -----

  /** What one log entry does to the group's keys. */
  datatype Change = Change(dels: set<Bytes>, sets: Data)

  /** Entries from + 1, from + 2, ... of a history applied to `own`. */
  function Applied(own: Data, hist: seq<Change>, from: nat): Data
    requires from <= |hist|
  {
    if |hist| == from then own
    else Applied(own, hist[..|hist| - 1], from) - hist[|hist| - 1].dels + hist[|hist| - 1].sets
  }

  /**
   * Replaying change by change: what the newest one wrote stands, what it deleted is gone, the rest is as before it.
   */
  lemma NewestChangeStands(own: Data, hist: seq<Change>, from: nat)
    requires from < |hist|
    ensures var (was, now, c) := (Applied(own, hist[..|hist| - 1], from), Applied(own, hist, from), hist[|hist| - 1]);
            && (forall k :: k in c.sets ==> k in now && now[k] == c.sets[k])
            && (forall k :: k in c.dels && k !in c.sets ==> k !in now)
            && (forall k :: k !in c.dels && k !in c.sets ==>
                  (k in now <==> k in was) && (k in now ==> now[k] == was[k]))
    ensures Applied(own, hist[..from], from) == own
  {
  }

  /**
   * Exactly when a crash between the two steps is harmless, whatever the group's history: replaying what raft
   * redelivers on the emptied group gives the state of the whole history if and only if the log left over is empty or
   * starts at 1.
   */
  lemma ResetCrashHarmless(d: Disk, sc: Scope)
    requires d.marker == None && Emptied(View(d, sc))
    ensures Leftover(d, sc) <==> d.log.start.Some? && d.log.start.value > 1
    ensures !Leftover(d, sc) <==>
      forall hist: seq<Change> :: ResumesAfter(d) <= |hist| ==>
        Applied(map[], hist, ResumesAfter(d)) == Applied(map[], hist, 0)
  {
    if Leftover(d, sc) {
      var hist := OnlyFirst(ResumesAfter(d));
      FirstKept(ResumesAfter(d));
      assert Applied(map[], hist, ResumesAfter(d)) == map[];
    }
  }

  /** A history of `n` entries of which only the first does anything. */
  function OnlyFirst(n: nat): (h: seq<Change>)
    ensures |h| == n
  {
    seq(n, i => Change({}, if i == 0 then map[[] := []] else map[]))
  }

  lemma {:induction false} FirstKept(n: nat)
    requires n > 0
    ensures [] in Applied(map[], OnlyFirst(n), 0)
  {
    var h := OnlyFirst(n);
    if n > 1 {
      FirstKept(n - 1);
      assert h[..n - 1] == OnlyFirst(n - 1);
    } else {
      assert h[..0] == [];
    }
  }

  /**
   * The failing input. A group whose log was truncated behind its anchor at 4, so that it starts at 5, is half
   * installed when it restarts; the power fails after the batch and before the log is removed. The next restart finds
   * no marker, takes 1 to 4 as applied to a group with no keys, and their changes are lost without a trace.
   */
  lemma ResetCrashCanLoseState(sc: Scope, d: Disk, meta: SnapMeta)
    requires d.marker == Some(meta) && d.anchor.Some? && d.anchor.value.index == 4 && d.log == LogFiles(Some(5), false)
    ensures var n := RestartStates(d, sc)[1];
            && n.marker == None && n.applied == 0 && ResumesAfter(n) == 4 && Leftover(n, sc)
            && Applied(map[], OnlyFirst(7), 4) == map[] && Applied(map[], OnlyFirst(7), 0) != map[]
  {
    WipeKeepsOthers(d, sc);
    FirstKept(7);
    NothingAfterFirst(7, 4);
  }

  lemma {:induction false} NothingAfterFirst(n: nat, from: nat)
    requires 1 <= from <= n
    ensures Applied(map[], OnlyFirst(n), from) == map[]
  {
    if n > from {
      NothingAfterFirst(n - 1, from);
      assert OnlyFirst(n)[..n - 1] == OnlyFirst(n - 1);
    }
  }

  // ----- the installing node -----

  /** A view whose keys of the group can all be routed and stay within the limits of one transfer, however it is cut. */
  ghost predicate Pullable(view: seq<KV>, sc: Scope) {
    && SnapStream.Routable(view, sc) && |Select(view, sc, None)| < 65_536
    && ChunkBytes(Select(view, sc, None)) <= 274_877_906_944
  }

  /** Some key of the group's families cannot be routed to any group. */
  ghost predicate Misrouted(d: Disk, sc: Scope) {
    sc.filter && exists k :: k in d.data && sc.InFamily(k) && sc.groupOf(k) == None
  }

  /** The keys one range contributes to the wipe: all of it for group 0, only the group's own for a data group. */
  ghost predicate Listed(dels: set<Bytes>, d: Disk, sc: Scope, n: nat)
    requires n <= |sc.ranges|
  {
    forall k :: k in dels <==> k in d.data && Reached(sc, k, n) && (sc.filter ==> sc.groupOf(k) == Some(sc.g))
  }

  ghost predicate Reached(sc: Scope, k: Bytes, n: nat)
    requires n <= |sc.ranges|
  {
    exists i :: 0 <= i < n && In(k, sc.ranges[i])
  }

  /** One range of the wipe. */
  method ListRange(data: Data, sc: Scope, r: KeyRange) returns (ok: bool, dels: set<Bytes>)
    ensures !ok ==> sc.filter && exists k :: k in data && In(k, r) && sc.groupOf(k) == None
    ensures ok ==> forall k :: k in dels <==> k in data && In(k, r) && (sc.filter ==> sc.groupOf(k) == Some(sc.g))
    ensures ok && sc.filter ==> forall k :: k in data && In(k, r) ==> sc.groupOf(k).Some?
  {
    hide Lt;
    var todo := set k | k in data && In(k, r);
    dels := {};
    if !sc.filter {
      return true, todo;
    }
    ghost var all := todo;
    while todo != {}
      invariant todo <= all
      invariant forall k :: k in dels <==> k in all - todo && sc.groupOf(k) == Some(sc.g)
      invariant forall k :: k in all - todo ==> sc.groupOf(k).Some?
    {
      var k :| k in todo;
      if sc.groupOf(k) == None {
        return false, {};
      }
      if sc.groupOf(k) == Some(sc.g) {
        dels := dels + {k};
      }
      todo := todo - {k};
    }
    ok := true;
  }

  /** wipeGroupKeys, before its batch is applied: exactly the group's own keys, or an error on an unroutable key. */
  method ListGroupKeys(d: Disk, sc: Scope) returns (ok: bool, dels: set<Bytes>)
    ensures ok ==> d.(data := d.data - dels) == Wipe(d, sc)
    ensures ok <==> !Misrouted(d, sc)
  {
    hide Lt, In;
    dels := {};
    var i := 0;
    while i < |sc.ranges|
      invariant 0 <= i <= |sc.ranges|
      invariant Listed(dels, d, sc, i)
      invariant sc.filter ==> forall k :: k in d.data && Reached(sc, k, i) ==> sc.groupOf(k).Some?
    {
      var fine, more := ListRange(d.data, sc, sc.ranges[i]);
      if !fine {
        var k :| k in d.data && In(k, sc.ranges[i]) && sc.groupOf(k) == None;
        assert sc.InFamily(k);
        return false, {};
      }
      forall k
        ensures Reached(sc, k, i + 1) <==> Reached(sc, k, i) || In(k, sc.ranges[i])
      {
        ReachedStep(sc, k, i);
      }
      dels := dels + more;
      i := i + 1;
    }
    assert forall k :: Reached(sc, k, |sc.ranges|) <==> sc.InFamily(k);
    ok := true;
  }

  lemma ReachedStep(sc: Scope, k: Bytes, i: nat)
    requires i < |sc.ranges|
    ensures Reached(sc, k, i + 1) <==> Reached(sc, k, i) || In(k, sc.ranges[i])
  {
    hide In;
  }

  /**
   * One data node as far as one group's state goes. `log` is every committed disk state since the last restart,
   * `durable` the index of the last one a Sync commit covers; a power loss falls back to one at or after it.
   */
  class Node {
    const io: Io
    const g: u32
    const groups: u32
    var disk: Disk
    var up: bool
    var applied: nat
    /** The index raft took as applied when the group came up. */
    var resumed: nat
    var conf: Option<nat>
    ghost var log: seq<Disk>
    ghost var durable: nat
    /** Whole group states: those normal operation went through and those some sender pinned for a transfer. */
    ghost var known: set<Whole>
    ghost var others: Data

    ghost function Sc(): Scope
      requires groups > 0
    {
      SnapStream.ScopeOf(g, groups)
    }

    ghost predicate Valid()
      reads this
    {
      && groups > 0 && g <= groups
      && 0 < |log| && durable < |log| && disk == log[|log| - 1]
      && forall i :: 0 <= i < |log| ==> Safe(log[i], Sc(), known) && Others(log[i], Sc()) == others
    }

    constructor (io: Io, g: u32, groups: u32, d: Disk)
      requires groups > 0 && g <= groups && d.marker == None && Steady(d)
      ensures Valid() && up && disk == d && this.g == g && this.groups == groups && this.io == io
      ensures known == {View(d, Sc())} && others == Others(d, Sc())
    {
      hide Others, View, SnapStream.ScopeOf;
      this.io := io;
      this.g, this.groups, disk, up, applied, resumed, conf := g, groups, d, true, d.applied, d.applied, d.conf;
      log, durable := [d], 0;
      known := {View(d, SnapStream.ScopeOf(g, groups))};
      others := Others(d, SnapStream.ScopeOf(g, groups));
    }

    /** One batch: atomic, in order; with `sync` it and everything before it survives a power loss. */
    method Commit(d: Disk, sync: bool) returns (ok: bool)
      requires Valid() && Safe(d, Sc(), known) && Others(d, Sc()) == others
      modifies `disk, `log, `durable, io
      ensures io.failed >= old(io.failed) + if !ok then 1 else 0
      ensures Valid()
      ensures ok ==> disk == d && log == old(log) + [d] && durable == if sync then |log| - 1 else old(durable)
      ensures !ok ==> disk == old(disk) && log == old(log) && durable == old(durable)
    {
      hide Safe, Others, SnapStream.ScopeOf;
      ok := io.Try();
      if ok {
        disk := d;
        log := log + [d];
        durable := if sync then |log| - 1 else durable;
      }
    }

    /** Normal operation: any batch that leaves another whole state, with a log that reaches it. */
    method Work(d: Disk) returns (ok: bool)
      requires Valid() && up && disk.marker == None && d.marker == None && Others(d, Sc()) == others && Steady(d)
      modifies `disk, `log, `durable, `known, `applied, io
      ensures io.failed >= old(io.failed) + if !ok then 1 else 0
      ensures Valid() && known == old(known) + {View(d, Sc())}
      ensures if ok then disk == d && applied == d.applied else disk == old(disk) && applied == old(applied)
    {
      hide Others, View, SnapStream.ScopeOf;
      known := known + {View(d, Sc())};
      ok := Commit(d, false);
      if ok {
        applied := d.applied;
      }
    }

    method WipeGroupKeys() returns (ok: bool)
      requires Valid() && disk.marker.Some?
      modifies `disk, `log, `durable, io
      ensures io.failed >= old(io.failed) + if !ok && !Misrouted(old(disk), Sc()) then 1 else 0
      ensures Valid() && log[0] == old(log[0])
      ensures disk == if ok then Wipe(old(disk), Sc()) else old(disk)
    {
      hide Others, View, SnapStream.ScopeOf, Misrouted;
      var fine, dels := ListGroupKeys(disk, SnapStream.ScopeOf(g, groups));
      if !fine {
        return false;
      }
      WipeKeepsOthers(disk, Sc());
      ok := Commit(disk.(data := disk.data - dels), false);
    }

    /** The chunks that arrived, one NoSync batch each, on top of the wiped group. */
    method PutChunks(chunks: seq<seq<KV>>, ghost view: seq<KV>) returns (ok: bool)
      requires Valid() && disk.marker.Some? && Own(disk, Sc()) == map[]
      requires SnapStream.Concat(chunks) <= Select(view, Sc(), None)
      modifies `disk, `log, `durable, io
      ensures io.failed >= old(io.failed) + if !ok then 1 else 0
      ensures Valid()
      ensures disk.marker == old(disk.marker)
      ensures ok ==> disk == Put(old(disk), SnapStream.Concat(chunks))
    {
      hide Others, View, SnapStream.ScopeOf, Select, Own;
      ghost var start := disk;
      var i := 0;
      PutNothing(disk);
      assert chunks[..0] == [];
      while i < |chunks|
        invariant 0 <= i <= |chunks| && Valid() && start.marker.Some?
        invariant disk == Put(start, SnapStream.Concat(chunks[..i])) && io.failed >= old(io.failed)
      {
        PutOneMore(start, chunks, i);
        ConcatPrefix(chunks, i + 1);
        PutKeepsOthers(start, Sc(), view, SnapStream.Concat(chunks[..i + 1]));
        if chunks[i] != [] {
          var done := Commit(disk.(data := disk.data + MapOf(chunks[i])), false);
          if !done {
            return false;
          }
        }
        i := i + 1;
      }
      assert chunks[..i] == chunks;
      ok := true;
    }

    /**
     * installSnapshot. On success the group is the sender's view, applied stands at the snapshot index and all of it is
     * durable; on any error the marker is still there, or nothing was done, or the close had already happened.
     */
    method InstallSnapshot(views: map<u64, seq<KV>>, chunkBytes: int, id: u64, meta: SnapMeta, down: set<nat>)
      returns (ok: bool)
      requires Valid() && up
      requires forall v :: v in views ==> SnapStream.GoodView(views[v])
      modifies this, io
      ensures !ok && down == {} && id in views && Pullable(views[id], Sc()) && !Misrouted(old(disk), Sc()) ==>
                io.failed > old(io.failed)
      ensures io.failed >= old(io.failed)
      ensures Valid() && others == old(others) && up
      ensures known == old(known) + (if id in views then {Copy(views[id], Sc(), meta)} else {})
      ensures ok ==>
                && id in views && durable == |log| - 1
                && disk.marker == None && View(disk, Sc()) == Copy(views[id], Sc(), meta)
                && applied == meta.index && conf == Some(meta.conf)
      ensures !ok ==> applied == old(applied) && conf == old(conf)
      ensures ok ==> disk.applied == meta.index && disk.anchor == Some(meta) && disk.conf == Some(meta.conf)
      ensures ok ==> ExactCopy(old(disk).data, disk.data, views[id], g, groups)
      ensures !ok && disk != old(disk) && disk.marker == None ==>
                id in views && View(disk, Sc()) == Copy(views[id], Sc(), meta)
      ensures !ok && disk.marker.Some? && disk != old(disk) ==> disk.marker == Some(meta)
    {
      hide Others, View, SnapStream.ScopeOf, Select, Own, Copy, Wipe, ExactCopy, SnapStream.Belongs, Sorted;
      hide SnapStream.Concat;
      hide MapOf, SnapStream.Routable, SnapStream.SmallPair;
      ghost var before := disk;
      NowOthers();
      if id in views {
        known := known + {Copy(views[id], Sc(), meta)};
      }
      MarkKeepsOthers(disk, meta, Sc());
      ok := Commit(Mark(disk, meta), true);
      if !ok {
        return;
      }
      ghost var marked := disk;
      ok := WipeGroupKeys();
      if !ok {
        return;
      }
      WipeKeepsOthers(marked, Sc());
      WipeOnlyData(marked, Sc());
      ghost var wiped := disk;
      var chunks, end := SnapStream.PullSnapshotChunks(views, groups, chunkBytes, g, id, down);
      ghost var view := if id in views then views[id] else [];
      if id !in views {
        return false;
      }
      ok := PutChunks(chunks, view);
      if !ok || end != SnapStream.Pulled {
        return false;
      }
      CloseCopies(wiped, Sc(), meta, view, chunks);
      ok := Commit(Close(disk, meta), true);
      if !ok {
        return;
      }
      ok := io.Try();
      if !ok {
        return;
      }
      applied, conf := meta.index, Some(meta.conf);
      NowOthers();
      CopyIsExact(before, disk, g, groups, meta, views[id]);
    }

    lemma NowOthers()
      requires Valid()
      ensures Others(disk, Sc()) == others
    {
      hide Safe, Others, SnapStream.ScopeOf;
    }

    /** A power loss: any committed state from the last synced one on, with any of the log files that were going. */
    method Crash(ghost at: nat, d: Disk)
      requires Valid() && durable <= at < |log| && d == log[at].(log := d.log)
      requires !d.log.going && (log[at].log.going || d.log.start == log[at].log.start)
      modifies `disk, `up, `log, `durable
      ensures Valid() && !up && disk == d
    {
      hide Others, SnapStream.ScopeOf, Own;
      SameButLog(log[at], d, Sc());
      disk, up := d, false;
      log, durable := [d], 0;
    }

    /** wipeLog: the files go one by one, in the end all; on an error some may be left. Nothing of it is synced. */
    method WipeLog() returns (ok: bool)
      requires Valid() && disk.marker == None && Emptied(View(disk, Sc()))
      modifies `disk, `log, `durable, io
      ensures io.failed >= old(io.failed) + if !ok then 1 else 0
      ensures Valid() && durable == old(durable) && old(log) <= log
      ensures disk == if ok then LogGone(old(disk)) else old(disk).(log := disk.log)
    {
      hide Others, SnapStream.ScopeOf, Own;
      ghost var was := disk;
      var files: nat := *;
      var i := 0;
      while i < files
        invariant Valid() && durable == old(durable) && old(log) <= log
        invariant disk == was.(log := disk.log) && Emptied(View(disk, Sc())) && io.failed >= old(io.failed)
      {
        var left: Option<nat> := *;
        SameButLog(disk, disk.(log := LogFiles(left, true)), Sc());
        var removed := Commit(disk.(log := LogFiles(left, true)), false);
        if !removed {
          return false;
        }
        i := i + 1;
      }
      SameButLog(disk, LogGone(disk), Sc());
      ok := Commit(LogGone(disk), false);
    }

    /** The next use of the log creates its directory anew and syncs its name: what was removed stays removed. */
    method ReopenLog() returns (ok: bool)
      requires Valid()
      modifies `disk, `log, `durable, io
      ensures io.failed >= old(io.failed) + if !ok then 1 else 0
      ensures Valid() && disk == if ok then old(disk).(log := LogFiles(old(disk).log.start, false)) else old(disk)
    {
      hide Others, SnapStream.ScopeOf, Own;
      SameButLog(disk, disk.(log := LogFiles(disk.log.start, false)), Sc());
      ok := Commit(disk.(log := LogFiles(disk.log.start, false)), false);
    }

    /** ResetGroupProgress: the batch first, then the log. */
    method ResetGroupProgress() returns (ok: bool)
      requires Valid() && disk.marker.Some? && Own(disk, Sc()) == map[]
      modifies `disk, `log, `durable, io
      ensures io.failed >= old(io.failed) + if !ok then 1 else 0
      ensures Valid()
      ensures ok ==> disk == LogGone(Reset(old(disk))) && Emptied(View(disk, Sc()))
      ensures ok ==> durable < |log| && log[durable] == Reset(old(disk))
      ensures !ok ==> disk == old(disk) || disk == Reset(old(disk)).(log := disk.log)
    {
      hide Others, SnapStream.ScopeOf, Own;
      ResetEmpties(disk, Sc());
      ok := Commit(Reset(disk), true);
      if ok {
        SameButLog(disk, LogGone(disk), Sc());
        ok := WipeLog();
      }
    }

    /**
     * Restart. Whatever crash came before, a group that comes up has no marker and holds either a whole state or
     * nothing with applied 0; a half-installed one is emptied and its log removed, any other is taken as it is. Raft
     * goes on where the keys stand unless an earlier reset was cut off between its two steps and left a log that starts
     * above 1.
     */
    method Restart() returns (ok: bool)
      requires Valid() && !up
      modifies `disk, `log, `durable, `up, `applied, `resumed, `conf, io
      ensures io.failed >= old(io.failed) + if !ok && !Misrouted(old(disk), Sc()) then 1 else 0
      ensures Valid() && up == ok
      ensures ok ==> Trusted(disk, Sc(), known) && Others(disk, Sc()) == others
      ensures ok ==> applied == disk.applied && conf == disk.conf && resumed == ResumesAfter(disk)
      ensures ok ==> resumed == disk.applied || resumed == Seed(disk)
      ensures ok ==> resumed >= disk.applied && resumed >= Seed(disk)
      ensures ok ==> (resumed == applied <==> !Leftover(disk, Sc()))
      ensures ok && old(disk.marker) == None ==> disk == old(disk)
      ensures ok && old(disk.marker).Some? ==> Emptied(View(disk, Sc())) && disk.log.start == None && resumed == applied
    {
      hide Others, SnapStream.ScopeOf, Wipe, Own;
      applied, resumed := disk.applied, ResumesAfter(disk);
      if disk.marker.Some? {
        WipeKeepsOthers(disk, Sc());
        WipeOnlyData(disk, Sc());
        ok := WipeGroupKeys();
        if !ok {
          return;
        }
        ok := ResetGroupProgress();
        if !ok {
          return;
        }
        applied, resumed := 0, 0;
      }
      conf := disk.conf;
      up, ok := true, true;
    }
  }

  /** Nothing that is believed of a disk, but where raft resumes, depends on its log files. */
  lemma SameButLog(d: Disk, n: Disk, sc: Scope)
    requires n == d.(log := n.log)
    ensures View(n, sc) == View(d, sc) && Others(n, sc) == Others(d, sc)
    ensures Steady(d) && (d.anchor.Some? || n.log.start == d.log.start) && (d.anchor.Some? || !n.log.going) ==>
              Steady(n)
  {
  }

  lemma PutNothing(d: Disk)
    ensures Put(d, SnapStream.Concat([])) == d
  {
    assert d.data + map[] == d.data;
  }

  lemma PutOneMore(d: Disk, chunks: seq<seq<KV>>, i: nat)
    requires i < |chunks|
    ensures Put(d, SnapStream.Concat(chunks[..i + 1])).data
         == Put(d, SnapStream.Concat(chunks[..i])).data + MapOf(chunks[i])
    ensures chunks[i] == [] ==> Put(d, SnapStream.Concat(chunks[..i + 1])) == Put(d, SnapStream.Concat(chunks[..i]))
  {
    SnapStream.ConcatSnoc(chunks[..i], chunks[i]);
    assert chunks[..i + 1] == chunks[..i] + [chunks[i]];
    var a, b := SnapStream.Concat(chunks[..i]), chunks[i];
    MapOfConcat(a, b);
    assert d.data + (MapOf(a) + MapOf(b)) == (d.data + MapOf(a)) + MapOf(b);
    if b == [] {
      assert a + b == a;
    }
  }

  lemma {:induction false} ConcatPrefix(chunks: seq<seq<KV>>, i: nat)
    requires i <= |chunks|
    ensures SnapStream.Concat(chunks[..i]) <= SnapStream.Concat(chunks)
  {
    if i == |chunks| {
      assert chunks[..i] == chunks;
    } else {
      ConcatPrefix(chunks[..|chunks| - 1], i);
      assert chunks[..|chunks| - 1][..i] == chunks[..i];
    }
  }

  /**
   * Key by key: of the keys of group `g` the store now holds exactly those of the sender's view, with their values, and
   * of all other keys it holds what it held before.
   */
  ghost predicate ExactCopy(before: Data, after: Data, view: seq<KV>, g: nat, groups: nat)
    requires groups > 0
  {
    && (forall x :: x in view && SnapStream.Belongs(x.key, g, groups) ==> x.key in after && after[x.key] == x.val)
    && (forall k :: k in after && SnapStream.Belongs(k, g, groups) ==> KV(k, after[k]) in view)
    && (forall k :: !SnapStream.Belongs(k, g, groups) ==> (k in after <==> k in before))
    && (forall k :: !SnapStream.Belongs(k, g, groups) && k in after && k in before ==> after[k] == before[k])
  }

  lemma CopyIsExact(before: Disk, after: Disk, g: nat, groups: nat, meta: SnapMeta, view: seq<KV>)
    requires groups > 0 && Sorted(view)
    requires var sc := SnapStream.ScopeOf(g, groups);
             View(after, sc) == Copy(view, sc, meta) && Others(after, sc) == Others(before, sc)
    ensures ExactCopy(before.data, after.data, view, g, groups)
    ensures after.applied == meta.index && after.anchor == Some(meta) && after.conf == Some(meta.conf)
  {
    hide SnapStream.ScopeOf, SnapStream.Belongs, Select, MapOf, Sorted;
    var sc := SnapStream.ScopeOf(g, groups);
    var m := MapOf(Select(view, sc, None));
    assert m == Own(after, sc);
    forall x | x in view && SnapStream.Belongs(x.key, g, groups)
      ensures x.key in after.data && after.data[x.key] == x.val
    {
      SnapStream.OwnsExactly(x.key, g, groups);
      SelectAsMap(view, sc, x.key);
      var i :| 0 <= i < |view| && view[i] == x;
      assert x.key in m;
      OneValue(view, x, KV(x.key, m[x.key]));
      assert Own(after, sc)[x.key] == after.data[x.key];
    }
    forall k | k in after.data && SnapStream.Belongs(k, g, groups)
      ensures KV(k, after.data[k]) in view
    {
      SnapStream.OwnsExactly(k, g, groups);
      SelectAsMap(view, sc, k);
      assert k in Own(after, sc) && Own(after, sc)[k] == after.data[k];
    }
    forall k | !SnapStream.Belongs(k, g, groups)
      ensures k in after.data <==> k in before.data
      ensures k in after.data && k in before.data ==> after.data[k] == before.data[k]
    {
      SnapStream.OwnsExactly(k, g, groups);
      assert k in after.data <==> k in Others(after, sc);
      assert k in before.data <==> k in Others(before, sc);
      assert k in after.data ==> Others(after, sc)[k] == after.data[k];
      assert k in before.data ==> Others(before, sc)[k] == before.data[k];
    }
  }

  lemma OneValue(view: seq<KV>, x: KV, y: KV)
    requires Sorted(view) && x in view && y in view && x.key == y.key
    ensures x == y
  {
    var i :| 0 <= i < |view| && view[i] == x;
    var j :| 0 <= j < |view| && view[j] == y;
    LtIrreflexive(x.key);
  }

  lemma MarkKeepsOthers(d: Disk, meta: SnapMeta, sc: Scope)
    ensures Others(Mark(d, meta), sc) == Others(d, sc)
  {
  }

  lemma WipeOnlyData(d: Disk, sc: Scope)
    ensures Wipe(d, sc).marker == d.marker
  {
  }

  lemma CloseCopies(wiped: Disk, sc: Scope, meta: SnapMeta, view: seq<KV>, chunks: seq<seq<KV>>)
    requires Own(wiped, sc) == map[] && SnapStream.Concat(chunks) == Select(view, sc, None)
    ensures var d := Close(Put(wiped, SnapStream.Concat(chunks)), meta);
            && View(d, sc) == Copy(view, sc, meta) && Others(d, sc) == Others(wiped, sc) && d.marker == None
  {
    PutKeepsOthers(wiped, sc, view, SnapStream.Concat(chunks));
  }

  lemma ResetEmpties(d: Disk, sc: Scope)
    requires Own(d, sc) == map[]
    ensures Emptied(View(Reset(d), sc)) && Others(Reset(d), sc) == Others(d, sc)
  {
  }
}
