/**
 * Delayed messages: staging, the scheduler that moves due entries in two commits, and recall. The scheduler scans
 * without the lock and moves one entry at a time under it, and a producer waits for the disk after giving up the lock
 * (Settle), so the methods here are the atomic steps; any sequence of calls is an interleaving of a scheduler, recalls,
 * producers, clock ticks and crashes.
 */
module Delay {
  import opened Bytes
  import opened Faults

  const MAX_MOVE_PER_PASS := 512

  datatype Message = Message(id: string, topic: string, body: string)

  /** Where an entry is staged: due time, then the number that makes the key unique. */
  datatype Key = Key(due: int, seqNo: nat)

  predicate Before(a: Key, b: Key) {
    a.due < b.due || (a.due == b.due && a.seqNo < b.seqNo)
  }

  /** A stored entry either decodes to a message or does not. */
  datatype Raw = Good(m: Message) | Bad

  /** A queued message and the staged entry it came from, if any. */
  datatype Queued = Queued(from: Option<Key>, m: Message)

  datatype Disk = Disk(staged: map<Key, Raw>, alloc: nat, queue: seq<Queued>)

  /** Everything ever staged, and the entries that recall and the clean-up of bad entries took out. */
  datatype Ledger = Ledger(ever: map<Key, Raw>, recalled: set<Key>, bad: set<Key>)

  datatype Point = Point(d: Disk, l: Ledger)

  ghost predicate InQueue(d: Disk, k: Key) {
    exists i :: 0 <= i < |d.queue| && d.queue[i].from == Some(k)
  }

  ghost predicate Inv(p: Point, now: int) {
    && (forall k :: k in p.d.staged ==> k in p.l.ever && p.l.ever[k] == p.d.staged[k])
    && (forall k :: k in p.l.ever ==> k.seqNo < p.d.alloc)
    && (forall k :: k in p.l.ever ==> k in p.d.staged || InQueue(p.d, k) || k in p.l.recalled || k in p.l.bad)
    && (forall k :: k in p.l.recalled ==> k in p.l.ever && k !in p.d.staged && !InQueue(p.d, k))
    && (forall k :: k in p.l.bad ==> k in p.l.ever && p.l.ever[k].Bad?)
    && (forall i :: 0 <= i < |p.d.queue| && p.d.queue[i].from.Some? ==>
          var k := p.d.queue[i].from.value;
          k in p.l.ever && p.l.ever[k] == Good(p.d.queue[i].m) && k.due <= now)
  }

  // ----- steps -----

  function Staged(p: Point, k: Key, m: Message): Point {
    Point(p.d.(staged := p.d.staged[k := Good(m)], alloc := k.seqNo + 1), p.l.(ever := p.l.ever[k := Good(m)]))
  }

  lemma StagedInv(p: Point, now: int, k: Key, m: Message)
    requires Inv(p, now) && k.seqNo == p.d.alloc
    ensures Inv(Staged(p, k, m), now) && k !in p.l.ever
  {
    assert forall e :: InQueue(Staged(p, k, m).d, e) <==> InQueue(p.d, e);
  }

  function Enqueued(p: Point, q: Queued): Point {
    p.(d := p.d.(queue := p.d.queue + [q]))
  }

  lemma EnqueuedInv(p: Point, now: int, q: Queued)
    requires Inv(p, now)
    requires q.from.Some? ==>
              q.from.value in p.d.staged && p.d.staged[q.from.value] == Good(q.m) && q.from.value.due <= now
    ensures Inv(Enqueued(p, q), now)
    ensures q.from.Some? ==> InQueue(Enqueued(p, q).d, q.from.value)
  {
    var n := Enqueued(p, q);
    assert n.d.queue[|p.d.queue|] == q;
    forall e
      ensures InQueue(n.d, e) <==> InQueue(p.d, e) || q.from == Some(e)
    {
      if InQueue(p.d, e) {
        var i :| 0 <= i < |p.d.queue| && p.d.queue[i].from == Some(e);
        assert n.d.queue[i].from == Some(e);
      }
    }
  }

  function Unstaged(p: Point, k: Key): Point {
    p.(d := p.d.(staged := p.d.staged - {k}))
  }

  lemma UnstagedInv(p: Point, now: int, k: Key)
    requires Inv(p, now) && InQueue(p.d, k)
    ensures Inv(Unstaged(p, k), now)
  {
    assert forall e :: InQueue(Unstaged(p, k).d, e) <==> InQueue(p.d, e);
  }

  function Scrapped(p: Point, k: Key): Point {
    Unstaged(p, k).(l := p.l.(bad := p.l.bad + {k}))
  }

  lemma ScrappedInv(p: Point, now: int, k: Key)
    requires Inv(p, now) && k in p.l.ever && p.l.ever[k].Bad?
    ensures Inv(Scrapped(p, k), now)
  {
    assert forall e :: InQueue(Scrapped(p, k).d, e) <==> InQueue(p.d, e);
  }

  function Recalled(p: Point, k: Key): Point {
    Unstaged(p, k).(l := p.l.(recalled := p.l.recalled + {k}))
  }

  /** Recall is sound because an entry that is not due cannot have been queued. */
  lemma RecalledInv(p: Point, now: int, k: Key)
    requires Inv(p, now) && k in p.d.staged && k.due > now
    ensures Inv(Recalled(p, k), now)
  {
    assert forall e :: InQueue(Recalled(p, k).d, e) <==> InQueue(p.d, e);
  }

  /**
   * What was promised to callers holds in this state: what they staged was staged, what they recalled is out for good.
   */
  ghost predicate Keeps(p: Point, staged: map<Key, Message>, recalled: set<Key>) {
    && (forall k :: k in staged ==> k in p.l.ever && p.l.ever[k] == Good(staged[k]))
    && recalled <= p.l.recalled
  }

  /** Entries and recalls are never forgotten by a later state. */
  ghost predicate Later(x: Point, y: Point) {
    && (forall k :: k in x.l.ever ==> k in y.l.ever && y.l.ever[k] == x.l.ever[k])
    && x.l.recalled <= y.l.recalled
  }

  lemma KeepsLater(x: Point, y: Point, staged: map<Key, Message>, recalled: set<Key>)
    requires Keeps(x, staged, recalled) && Later(x, y)
    ensures Keeps(y, staged, recalled)
  {
  }

  lemma {:induction false} FirstKey(s: set<Key>) returns (k: Key)
    requires s != {}
    ensures k in s && forall e :: e in s && e != k ==> Before(k, e)
    decreases |s|
  {
    var x :| x in s;
    var rest := s - {x};
    if rest == {} {
      assert forall e :: e in s ==> e == x || e in rest;
      k := x;
    } else {
      var n := FirstKey(rest);
      k := if Before(n, x) then n else x;
      assert forall e :: e in s ==> e == x || e in rest;
    }
  }

  datatype RecallEnd = RecallOk(id: string) | NotLeader | TooLate | NotFound | Undecodable | TopicMismatch | StoreError

  /** The state a producer's batch left, and what the producer is told once that is on disk. */
  datatype Ticket = Ticket(at: nat, what: map<Key, Message>)

  class Scheduler {
    const io: Io
    var disk: Disk
    var now: int
    var leader: bool
    /** The counter as the producer has it cached. */
    var loaded: bool
    var nextSeq: nat
    /** What the scan of the running pass copied and the pass has not reached yet. */
    var dues: seq<(Key, Raw)>
    ghost var ledger: Ledger
    ghost var log: seq<Point>
    ghost var durable: nat
    /** Entries producers were told are staged, and those whose recall succeeded. */
    ghost var promised: map<Key, Message>
    ghost var taken: set<Key>
    /** Producers whose batch is applied and who still wait, outside the lock, for it to be on disk. */
    var issued: nat
    ghost var pending: map<nat, Ticket>

    ghost function Now(): Point
      reads this
    {
      Point(disk, ledger)
    }

    ghost predicate Valid()
      reads this
    {
      && 0 < |log| && durable < |log| && log[|log| - 1] == Now()
      && (forall i :: 0 <= i < |log| ==> Inv(log[i], now))
      && (forall i :: durable <= i < |log| ==> Keeps(log[i], promised, taken))
      && (loaded ==> nextSeq == disk.alloc)
      && (forall i :: 0 <= i < |dues| ==> Copied(dues[i]))
      && (forall t :: t in pending ==> t < issued && pending[t].at < |log|)
      && forall t, i :: t in pending && pending[t].at <= i < |log| ==> Keeps(log[i], pending[t].what, {})
    }

    /** A copy made by the scan: due, and equal to the entry as long as the entry is there. */
    ghost predicate Copied(c: (Key, Raw))
      reads this
    {
      && c.0.due <= now
      && c.0 in ledger.ever && ledger.ever[c.0] == c.1
    }

    constructor (io: Io, staged: map<Key, Raw>, alloc: nat, now: int)
      requires forall k :: k in staged ==> k.seqNo < alloc
      ensures Valid() && disk == Disk(staged, alloc, []) && this.now == now && promised == map[] && taken == {}
      ensures pending == map[] && this.io == io
    {
      this.io := io;
      disk, this.now, leader, loaded, nextSeq, dues := Disk(staged, alloc, []), now, true, false, 0, [];
      ledger := Ledger(staged, {}, {});
      log, durable := [Point(Disk(staged, alloc, []), Ledger(staged, {}, {}))], 0;
      promised, taken, issued, pending := map[], {}, 0, map[];
    }

    lemma NowInv()
      requires Valid()
      ensures Inv(Now(), now) && Keeps(Now(), promised, taken)
    {
      hide Inv, Keeps;
      assert Inv(log[|log| - 1], now) && Keeps(log[|log| - 1], promised, taken);
    }

    method Apply(n: Disk, ghost l: Ledger) returns (ok: bool)
      requires Valid() && Inv(Point(n, l), now) && Later(Now(), Point(n, l))
      requires n.alloc == disk.alloc || !loaded || n.alloc == disk.alloc + 1
      modifies `disk, `ledger, `log, `loaded, `nextSeq, io
      ensures io.failed >= old(io.failed) + if !ok then 1 else 0
      ensures Valid()
      ensures if ok then Now() == Point(n, l) && log == old(log) + [Now()] else Now() == old(Now()) && log == old(log)
      ensures !ok || n.alloc == old(disk).alloc ==> loaded == old(loaded) && nextSeq == old(nextSeq)
    {
      hide Inv, Keeps;
      ok := io.Try();
      if ok {
        NowInv();
        KeepsLater(Now(), Point(n, l), promised, taken);
        forall t | t in pending
          ensures Keeps(Point(n, l), pending[t].what, {})
        {
          KeepsLater(Now(), Point(n, l), pending[t].what, {});
        }
        if n.alloc != disk.alloc {
          loaded, nextSeq := true, n.alloc;
        }
        disk, ledger := n, l;
        log := log + [Point(n, l)];
      }
    }

    method Wait() returns (ok: bool)
      requires Valid()
      modifies `durable, io
      ensures io.failed >= old(io.failed) + if !ok then 1 else 0
      ensures Valid() && durable == if ok then |log| - 1 else old(durable)
    {
      hide Inv, Keeps;
      ok := io.Try();
      durable := if ok then |log| - 1 else durable;
    }

    method ApplySync(n: Disk, ghost l: Ledger) returns (ok: bool)
      requires Valid() && Inv(Point(n, l), now) && Later(Now(), Point(n, l)) && n.alloc == disk.alloc
      modifies `disk, `ledger, `log, `loaded, `nextSeq, `durable, io
      ensures io.failed >= old(io.failed) + if !ok then 1 else 0
      ensures Valid() && (ok ==> Now() == Point(n, l) && durable == |log| - 1)
      ensures Now() == Point(n, l) || Now() == old(Now())
      ensures log == old(log) || log == old(log) + [Now()]
      ensures durable == old(durable) || durable == |log| - 1
    {
      hide Inv, Keeps, Later;
      ok := Apply(n, l);
      if ok {
        ok := Wait();
      }
    }

    /** Time does not run backwards. */
    method Tick(ms: nat)
      requires Valid()
      modifies `now
      ensures Valid() && now == old(now) + ms
    {
      forall i | 0 <= i < |log|
        ensures Inv(log[i], now + ms)
      {
        assert Inv(log[i], now);
      }
      now := now + ms;
    }

    method Crash(ghost at: nat, d: Disk)
      requires Valid() && durable <= at < |log| && d == log[at].d
      modifies `disk, `ledger, `log, `durable, `loaded, `dues, `pending
      ensures Valid() && Now() == old(log[at]) && !loaded && dues == [] && pending == map[]
    {
      hide Inv, Keeps;
      pending := map[];
      disk, ledger := d, log[at].l;
      log, durable, loaded, dues := [log[at]], 0, false, [];
    }

    /** A producer leaves the lock with its batch applied. */
    method Issue(ghost what: map<Key, Message>) returns (t: nat)
      requires Valid() && Keeps(Now(), what, {})
      modifies `issued, `pending
      ensures Valid() && t !in old(pending) && pending == old(pending)[t := Ticket(|log| - 1, what)]
    {
      hide Inv, Keeps;
      t, issued := issued, issued + 1;
      pending := pending[t := Ticket(|log| - 1, what)];
    }

    /** The wait outside the lock: only when it succeeds is the producer told, and then its entry survives a crash. */
    method Settle(t: nat) returns (ok: bool)
      requires Valid() && t in pending
      modifies `durable, `promised, `pending, io
      ensures io.failed >= old(io.failed) + if !ok then 1 else 0
      ensures Valid() && pending == old(pending) - {t}
      ensures ok ==> promised == old(promised) + old(pending)[t].what
      ensures ok ==> old(pending)[t].at <= durable && old(durable) <= durable
      ensures !ok ==> promised == old(promised) && durable == old(durable)
    {
      hide Inv, Keeps;
      ok := io.Try();
      if ok {
        ghost var k := pending[t];
        ghost var from := if durable < k.at then k.at else durable;
        forall i | from <= i < |log|
          ensures Keeps(log[i], promised + k.what, taken)
        {
          PromiseBoth(log[i], promised, k.what, taken);
        }
        durable, promised := from, promised + k.what;
      }
      pending := pending - {t};
    }

    /**
     * A message already due goes straight to its queue; any other gets a fresh key in the same batch as the counter.
     * Both wait for the disk after the lock is given up.
     */
    method AppendDelay(m: Message, deliverAt: int) returns (ok: bool, staged: bool, seqNo: nat, t: nat)
      requires Valid()
      modifies `disk, `ledger, `log, `loaded, `nextSeq, `issued, `pending, io
      ensures io.failed >= old(io.failed) + if !ok && deliverAt > 0 then 1 else 0
      ensures Valid()
      ensures staged ==> ok && deliverAt > now && Key(deliverAt, seqNo) !in old(ledger).ever
      ensures staged ==> Now() == Staged(old(Now()), Key(deliverAt, seqNo), m)
      ensures staged ==>
                && seqNo == old(disk).alloc
                && disk == old(disk).(staged := old(disk).staged[Key(deliverAt, seqNo) := Good(m)], alloc := seqNo + 1)
      ensures ok && !staged ==> 0 < deliverAt <= now && Now() == Enqueued(old(Now()), Queued(None, m))
      ensures ok && !staged ==> disk == old(disk).(queue := old(disk).queue + [Queued(None, m)])
      ensures ok ==>
                var what := if staged then map[Key(deliverAt, seqNo) := m] else map[];
                t !in old(pending) && pending == old(pending)[t := Ticket(|log| - 1, what)]
      ensures !ok ==> Now() == old(Now()) && pending == old(pending)
      ensures deliverAt <= 0 ==> !ok
    {
      hide Inv, Keeps, Later;
      staged, seqNo, t := false, 0, 0;
      if deliverAt <= 0 {
        return false, false, 0, t;
      }
      NowInv();
      if deliverAt <= now {
        EnqueuedInv(Now(), now, Queued(None, m));
        LaterSame(Now(), Enqueued(Now(), Queued(None, m)));
        PromiseNothing(Enqueued(Now(), Queued(None, m)));
        ok := Apply(disk.(queue := disk.queue + [Queued(None, m)]), ledger);
        if ok {
          t := Issue(map[]);
        }
        return;
      }
      seqNo := if loaded then nextSeq else disk.alloc;
      var k := Key(deliverAt, seqNo);
      ghost var n := Staged(Now(), k, m);
      StagedInv(Now(), now, k, m);
      LaterStaged(Now(), k, m);
      PromiseStaged(Now(), k, m);
      ok := Apply(disk.(staged := disk.staged[k := Good(m)], alloc := seqNo + 1), n.l);
      if ok {
        staged := true;
        t := Issue(map[k := m]);
      }
    }

    /** The start of a pass: the first due entries, copied without holding the lock. */
    method BeginPass()
      requires Valid()
      modifies `dues
      ensures Valid()
      ensures !leader ==> dues == []
      ensures |dues| <= 512
      ensures forall i :: 0 <= i < |dues| ==>
                dues[i].0 in disk.staged && disk.staged[dues[i].0] == dues[i].1 && dues[i].0.due <= now
      ensures forall i, j :: 0 <= i < j < |dues| ==>
                dues[i].0.due < dues[j].0.due || (dues[i].0.due == dues[j].0.due && dues[i].0.seqNo < dues[j].0.seqNo)
      ensures leader ==> forall k :: k in disk.staged && k.due <= now ==>
                (exists i :: 0 <= i < |dues| && dues[i].0 == k) ||
                (|dues| == 512 && forall i :: 0 <= i < |dues| ==>
                   dues[i].0.due < k.due || (dues[i].0.due == k.due && dues[i].0.seqNo < k.seqNo))
    {
      hide Inv, Keeps;
      NowInv();
      var found: seq<(Key, Raw)> := [];
      if leader {
        found := ScanDue();
      }
      EntriesEver(Now(), now);
      dues := found;
    }

    method ScanDue() returns (found: seq<(Key, Raw)>)
      ensures |found| <= MAX_MOVE_PER_PASS
      ensures forall i :: 0 <= i < |found| ==>
                found[i].0 in disk.staged && disk.staged[found[i].0] == found[i].1 && found[i].0.due <= now
      ensures forall i, j :: 0 <= i < j < |found| ==> Before(found[i].0, found[j].0)
      ensures forall k :: k in disk.staged && k.due <= now ==>
                (exists i :: 0 <= i < |found| && found[i].0 == k) ||
                (|found| == MAX_MOVE_PER_PASS && forall i :: 0 <= i < |found| ==> Before(found[i].0, k))
    {
      found := [];
      var todo := set k | k in disk.staged && k.due <= now;
      while todo != {} && |found| < MAX_MOVE_PER_PASS
        invariant |found| <= MAX_MOVE_PER_PASS
        invariant forall k :: k in todo ==> k in disk.staged && k.due <= now
        invariant forall i :: 0 <= i < |found| ==>
                  found[i].0 in disk.staged && disk.staged[found[i].0] == found[i].1 && found[i].0.due <= now
        invariant forall i, k :: 0 <= i < |found| && k in todo ==> Before(found[i].0, k)
        invariant forall i, j :: 0 <= i < j < |found| ==> Before(found[i].0, found[j].0)
        invariant forall k :: k in disk.staged && k.due <= now && k !in todo ==>
                  exists i :: 0 <= i < |found| && found[i].0 == k
        decreases todo
      {
        ghost var least := FirstKey(todo);
        var k :| k in todo && forall e :: e in todo && e != k ==> Before(k, e);
        ghost var was := found;
        found := found + [(k, disk.staged[k])];
        assert found[|was|].0 == k;
        assert forall i :: 0 <= i < |was| ==> found[i] == was[i];
        todo := todo - {k};
      }
    }

    /**
     * One entry of the pass, under the lock. The entry is read again first; then the message is queued, and only after
     * that is durable the entry deleted, in a commit of its own. Any error ends the pass.
     */
    method MoveOne() returns (moved: bool, err: bool)
      requires Valid() && dues != []
      modifies `disk, `ledger, `log, `durable, `loaded, `nextSeq, `dues, io
      ensures io.failed >= old(io.failed) + if err then 1 else 0
      ensures Valid()
      ensures var (k, raw) := old(dues[0]);
              && (k !in old(disk).staged ==> !moved && !err && Now() == old(Now()))
              && (moved ==> raw.Good? && InQueue(disk, k))
              && (!err && moved ==> Now() == Unstaged(Enqueued(old(Now()), Queued(Some(k), old(ledger).ever[k].m)), k))
              && (!err && !moved && k in old(disk).staged ==> raw.Bad? && Now() == Scrapped(old(Now()), k))
              && (!err && moved ==>
                    disk == old(disk).(queue := old(disk).queue + [Queued(Some(k), raw.m)],
                                       staged := old(disk).staged - {k}))
              && (!err && !moved && k in old(disk).staged ==> disk == old(disk).(staged := old(disk).staged - {k}))
              && (err ==> disk.staged == old(disk).staged || disk.staged == old(disk).staged - {k})
              && (err ==>
                    || disk.queue == old(disk).queue
                    || (raw.Good? && disk.queue == old(disk).queue + [Queued(Some(k), raw.m)]))
              && (err && raw.Good? && disk.staged != old(disk).staged ==> disk.queue != old(disk).queue)
              && (raw.Good? && disk.staged != old(disk).staged ==>
                    durable < |log| && log[durable].d.queue == disk.queue)
              && (!err && k in old(disk).staged ==> durable == |log| - 1)
      ensures dues == if err then [] else old(dues)[1..]
    {
      hide Inv, Keeps, Later;
      var (k, raw) := dues[0];
      assert Copied(dues[0]);
      ghost var start := Now();
      NowInv();
      var rest := dues[1..];
      if k !in disk.staged {
        dues := rest;
        return false, false;
      }
      EntrySame(Now(), now, k);
      if raw.Bad? {
        ScrappedInv(Now(), now, k);
        LaterSame(Now(), Scrapped(Now(), k));
        var ok := ApplySync(disk.(staged := disk.staged - {k}), ledger.(bad := ledger.bad + {k}));
        moved, err := false, !ok;
      } else {
        moved, err := MoveGood(k, raw.m);
      }
      dues := if err then [] else rest;
    }

    method MoveGood(k: Key, m: Message) returns (moved: bool, err: bool)
      requires Valid() && k in disk.staged && disk.staged[k] == Good(m) && k.due <= now
      modifies `disk, `ledger, `log, `durable, `loaded, `nextSeq, io
      ensures io.failed >= old(io.failed) + if err then 1 else 0
      ensures Valid() && ledger == old(ledger)
      ensures moved ==> InQueue(disk, k)
      ensures !err ==> moved && Now() == Unstaged(Enqueued(old(Now()), Queued(Some(k), m)), k) && durable == |log| - 1
      ensures disk.staged != old(disk).staged ==> durable < |log| && log[durable].d.queue == disk.queue
      ensures || disk == old(disk) || disk == old(disk).(queue := old(disk).queue + [Queued(Some(k), m)])
              || disk == old(disk).(queue := old(disk).queue + [Queued(Some(k), m)], staged := old(disk).staged - {k})
    {
      hide Inv, Keeps, Later;
      ghost var e := Enqueued(Now(), Queued(Some(k), m));
      NowInv();
      EnqueuedInv(Now(), now, Queued(Some(k), m));
      LaterSame(Now(), e);
      var ok := ApplySync(disk.(queue := disk.queue + [Queued(Some(k), m)]), ledger);
      if !ok {
        return false, true;
      }
      UnstagedInv(e, now, k);
      LaterSame(e, Unstaged(e, k));
      StillQueued(e.d, k);
      ok := ApplySync(disk.(staged := disk.staged - {k}), ledger);
      return true, !ok;
    }

    /** Recall: not yet due, still there, same topic; the removal is durable before success is reported. */
    method Recall(topic: string, due: int, seqNo: nat) returns (r: RecallEnd)
      requires Valid()
      modifies `disk, `ledger, `log, `durable, `loaded, `nextSeq, `taken, io
      ensures io.failed >= old(io.failed) + if r.StoreError? then 1 else 0
      ensures Valid()
      ensures r.RecallOk? ==>
                && leader && due > now && Key(due, seqNo) in old(disk).staged
                && old(disk).staged[Key(due, seqNo)].Good? && old(disk).staged[Key(due, seqNo)].m.topic == topic
                && r.id == old(disk).staged[Key(due, seqNo)].m.id
                && Now() == Recalled(old(Now()), Key(due, seqNo)) && taken == old(taken) + {Key(due, seqNo)}
                && disk == old(disk).(staged := old(disk).staged - {Key(due, seqNo)})
      ensures !r.RecallOk? ==> taken == old(taken)
      ensures !r.RecallOk? && !r.StoreError? ==> Now() == old(Now())
      ensures r.TooLate? <==> leader && due <= now
      ensures r.NotFound? <==> leader && due > now && Key(due, seqNo) !in old(disk).staged
    {
      hide Inv, Keeps, Later;
      if !leader {
        return NotLeader;
      }
      if due <= now {
        return TooLate;
      }
      var k := Key(due, seqNo);
      if k !in disk.staged {
        return NotFound;
      }
      if disk.staged[k].Bad? {
        return Undecodable;
      }
      var m := disk.staged[k].m;
      if m.topic != topic {
        return TopicMismatch;
      }
      NowInv();
      RecalledInv(Now(), now, k);
      LaterRecalled(Now(), k);
      ghost var n := Recalled(Now(), k);
      var ok := ApplySync(disk.(staged := disk.staged - {k}), n.l);
      if !ok {
        return StoreError;
      }
      NowInv();
      TakenKept(n, promised, taken, k);
      taken := taken + {k};
      return RecallOk(m.id);
    }
  }

  lemma LaterSame(x: Point, y: Point)
    requires y.l.ever == x.l.ever && x.l.recalled <= y.l.recalled
    ensures Later(x, y)
  {
  }

  lemma LaterStaged(p: Point, k: Key, m: Message)
    requires k !in p.l.ever
    ensures Later(p, Staged(p, k, m))
  {
  }

  lemma LaterRecalled(p: Point, k: Key)
    ensures Later(p, Recalled(p, k))
  {
  }

  lemma PromiseStaged(p: Point, k: Key, m: Message)
    ensures Keeps(Staged(p, k, m), map[k := m], {})
  {
  }

  lemma PromiseNothing(p: Point)
    ensures Keeps(p, map[], {})
  {
  }

  lemma PromiseBoth(p: Point, x: map<Key, Message>, y: map<Key, Message>, taken: set<Key>)
    requires Keeps(p, x, taken) && Keeps(p, y, {})
    ensures Keeps(p, x + y, taken)
  {
  }

  lemma TakenKept(p: Point, promised: map<Key, Message>, taken: set<Key>, k: Key)
    requires Keeps(p, promised, taken) && k in p.l.recalled
    ensures Keeps(p, promised, taken + {k})
  {
  }

  lemma EntriesEver(p: Point, now: int)
    requires Inv(p, now)
    ensures forall k :: k in p.d.staged ==> k in p.l.ever && p.l.ever[k] == p.d.staged[k]
  {
  }

  /** An entry never changes once staged, so the copy the scan made is still what it says. */
  lemma EntrySame(p: Point, now: int, k: Key)
    requires Inv(p, now) && k in p.d.staged
    ensures k in p.l.ever && p.d.staged[k] == p.l.ever[k]
  {
  }

  lemma StillQueued(d: Disk, k: Key)
    requires InQueue(d, k)
    ensures InQueue(d.(staged := d.staged - {k}), k)
  {
  }

  /** In every state: a recalled entry is not queued, and never will be while it stays recalled. */
  lemma RecalledNeverQueued(p: Point, now: int, staged: map<Key, Message>, taken: set<Key>, k: Key)
    requires Inv(p, now) && Keeps(p, staged, taken) && k in taken
    ensures k !in p.d.staged && !InQueue(p.d, k)
  {
  }

  /** In every state: an entry a producer was told is staged is still staged, or queued as it was, or recalled. */
  lemma StagedNeverLost(p: Point, now: int, staged: map<Key, Message>, taken: set<Key>, k: Key)
    requires Inv(p, now) && Keeps(p, staged, taken) && k in staged && k !in p.l.recalled
    ensures (k in p.d.staged && p.d.staged[k] == Good(staged[k]))
         || exists i :: 0 <= i < |p.d.queue| && p.d.queue[i] == Queued(Some(k), staged[k])
  {
    if k !in p.d.staged {
      assert InQueue(p.d, k);
      var i :| 0 <= i < |p.d.queue| && p.d.queue[i].from == Some(k);
      assert p.d.queue[i] == Queued(Some(k), staged[k]);
    }
  }
}
