/**
 * Transactional half messages: staging, the two-phase commit, roll-back, and the checks that reschedule undecided ones
 * and drop them in the end. Every method is one critical section; a commit holds its transaction lock across two of
 * them, so other transactions, the unlocked scan of the check pass and crashes fall in between.
 */
module Txn {
  import opened Bytes
  import opened Faults

  const MAX_CHECK_PER_PASS := 256

  type Tx = nat

  datatype Message = Message(id: string, topic: string, body: string)
  datatype Raw = Good(m: Message) | Bad
  datatype HalfKey = HalfKey(nextCheck: int, tx: Tx)

  /**
   * The reverse index: when the next check is due and how many rounds there were; or something that does not decode.
   */
  datatype Ref = Ref(nextCheck: int, checks: nat) | BadRef

  datatype Queued = Queued(from: Option<Tx>, m: Message)

  /** `strays` are keys in the half family that do not parse. */
  datatype Disk = Disk(half: map<HalfKey, Raw>, idx: map<Tx, Ref>, strays: set<nat>, queue: seq<Queued>)

  datatype How = Committed | RolledBack | Dropped

  /** Everything staged, the commits asked for, the rounds of checks, and how each decided transaction ended. */
  datatype Ledger = Ledger(ever: map<Tx, Message>, asked: set<Tx>, refused: set<Tx>, rounds: map<Tx, nat>,
                           decided: map<Tx, How>)

  datatype Point = Point(d: Disk, l: Ledger)

  ghost predicate InQueue(d: Disk, tx: Tx) {
    exists i :: 0 <= i < |d.queue| && d.queue[i].from == Some(tx)
  }

  /** An undecided transaction has its index entry, its one half key and its rounds; a decided one has nothing left. */
  ghost predicate Sound(p: Point, maxChecks: nat, tx: Tx)
    requires tx in p.l.ever
  {
    if tx in p.l.decided then
      && tx !in p.d.idx
      && match p.l.decided[tx]
         case Committed => tx in p.l.asked && InQueue(p.d, tx)
         case RolledBack => tx in p.l.refused
         case Dropped => tx in p.l.rounds && p.l.rounds[tx] >= maxChecks
    else
      && tx in p.d.idx && p.d.idx[tx].Ref? && tx in p.l.rounds
      && p.l.rounds[tx] == p.d.idx[tx].checks <= maxChecks
      && HalfKey(p.d.idx[tx].nextCheck, tx) in p.d.half
      && p.d.half[HalfKey(p.d.idx[tx].nextCheck, tx)] == Good(p.l.ever[tx])
  }

  /** The half keys of undamaged transactions are exactly those their index entries point at. */
  ghost predicate Keyed(p: Point, damaged: set<Tx>) {
    && (forall k :: k in p.d.half && k.tx !in damaged ==>
          k.tx in p.l.ever && k.tx in p.d.idx && p.d.idx[k.tx].Ref? && p.d.idx[k.tx].nextCheck == k.nextCheck)
    && (forall tx :: tx in p.d.idx && tx !in damaged ==> tx in p.l.ever)
  }

  ghost predicate Asked(p: Point) {
    && (forall i :: 0 <= i < |p.d.queue| && p.d.queue[i].from.Some? ==> p.d.queue[i].from.value in p.l.asked)
    && (forall tx :: tx in p.l.decided ==> tx in p.l.ever)
  }

  /** What is queued for a transaction is the message that was staged for it. */
  ghost predicate Genuine(p: Point, damaged: set<Tx>) {
    forall i :: 0 <= i < |p.d.queue| && p.d.queue[i].from.Some? && p.d.queue[i].from.value !in damaged ==>
      p.d.queue[i].from.value in p.l.ever && p.d.queue[i].m == p.l.ever[p.d.queue[i].from.value]
  }

  /** Rounds never pass the limit, decided or not. */
  ghost predicate Bounded(p: Point, maxChecks: nat, damaged: set<Tx>) {
    forall tx :: tx in p.l.rounds && tx !in damaged ==> tx in p.l.ever && p.l.rounds[tx] <= maxChecks
  }

  ghost predicate Inv(p: Point, maxChecks: nat, damaged: set<Tx>) {
    && (forall tx :: tx in p.l.ever && tx !in damaged ==> Sound(p, maxChecks, tx))
    && Keyed(p, damaged) && Asked(p) && Genuine(p, damaged) && Bounded(p, maxChecks, damaged)
  }

  // ----- steps -----

  function Staged(p: Point, tx: Tx, m: Message, next: int): Point {
    Point(p.d.(half := p.d.half[HalfKey(next, tx) := Good(m)], idx := p.d.idx[tx := Ref(next, 0)]),
          p.l.(ever := p.l.ever[tx := m], rounds := p.l.rounds[tx := 0]))
  }

  lemma SameQueue(p: Point, n: Point)
    requires n.d.queue == p.d.queue
    ensures forall tx :: InQueue(n.d, tx) <==> InQueue(p.d, tx)
  {
  }

  lemma StagedInv(p: Point, maxChecks: nat, damaged: set<Tx>, tx: Tx, m: Message, next: int)
    requires Inv(p, maxChecks, damaged) && tx !in p.l.ever && tx !in damaged
    ensures Inv(Staged(p, tx, m, next), maxChecks, damaged)
  {
    var n := Staged(p, tx, m, next);
    SameQueue(p, n);
    assert tx !in p.l.decided;
    forall t | t in n.l.ever && t !in damaged
      ensures Sound(n, maxChecks, t)
    {
      if t != tx {
        assert Sound(p, maxChecks, t);
      }
    }
  }

  /** Someone calls for a commit; nothing is written yet. */
  function Ask(p: Point, tx: Tx): Point {
    p.(l := p.l.(asked := p.l.asked + {tx}))
  }

  lemma AskInv(p: Point, maxChecks: nat, damaged: set<Tx>, tx: Tx)
    requires Inv(p, maxChecks, damaged)
    ensures Inv(Ask(p, tx), maxChecks, damaged)
  {
    forall t | t in p.l.ever && t !in damaged
      ensures Sound(Ask(p, tx), maxChecks, t)
    {
      assert Sound(p, maxChecks, t);
    }
  }

  /** The message of a commit goes to its queue, the half keys still in place. */
  function Queue(p: Point, tx: Tx, m: Message): Point {
    p.(d := p.d.(queue := p.d.queue + [Queued(Some(tx), m)]))
  }

  lemma QueueInv(p: Point, maxChecks: nat, damaged: set<Tx>, tx: Tx, m: Message)
    requires Inv(p, maxChecks, damaged) && tx in p.l.asked && (tx !in damaged ==> tx in p.l.ever && p.l.ever[tx] == m)
    ensures Inv(Queue(p, tx, m), maxChecks, damaged) && InQueue(Queue(p, tx, m).d, tx)
  {
    var n := Queue(p, tx, m);
    assert n.d.queue[|p.d.queue|] == Queued(Some(tx), m);
    forall t: Tx | InQueue(p.d, t)
      ensures InQueue(n.d, t)
    {
      var i :| 0 <= i < |p.d.queue| && p.d.queue[i].from == Some(t);
      assert n.d.queue[i].from == Some(t);
    }
    forall t | t in n.l.ever && t !in damaged
      ensures Sound(n, maxChecks, t)
    {
      assert Sound(p, maxChecks, t);
    }
  }

  /** Both keys go together, and with them the transaction is decided. */
  function Decide(p: Point, k: HalfKey, how: How): Point {
    Point(p.d.(half := p.d.half - {k}, idx := p.d.idx - {k.tx}),
          if k.tx in p.l.ever && k.tx !in p.l.decided then
            p.l.(decided := p.l.decided[k.tx := how],
                 refused := if how.RolledBack? then p.l.refused + {k.tx} else p.l.refused)
          else p.l)
  }

  lemma DecideInv(p: Point, maxChecks: nat, damaged: set<Tx>, k: HalfKey, how: How)
    requires Inv(p, maxChecks, damaged)
    requires k.tx !in damaged ==>
               && k.tx in p.d.idx && p.d.idx[k.tx].Ref? && p.d.idx[k.tx].nextCheck == k.nextCheck
               && (how.Committed? ==> k.tx in p.l.asked && InQueue(p.d, k.tx))
               && (how.Dropped? ==> p.d.idx[k.tx].checks >= maxChecks)
    ensures Inv(Decide(p, k, how), maxChecks, damaged)
    ensures k.tx !in damaged ==> k.tx in Decide(p, k, how).l.decided && Decide(p, k, how).l.decided[k.tx] == how
  {
    var n := Decide(p, k, how);
    SameQueue(p, n);
    forall t | t in n.l.ever && t !in damaged
      ensures Sound(n, maxChecks, t)
    {
      assert Sound(p, maxChecks, t);
      if t == k.tx {
        assert t !in p.l.decided;
      }
    }
    forall h | h in n.d.half && h.tx !in damaged
      ensures h.tx in n.l.ever && h.tx in n.d.idx && n.d.idx[h.tx].Ref? && n.d.idx[h.tx].nextCheck == h.nextCheck
    {
      assert h.tx in p.d.idx;
    }
  }

  /** A reschedule moves the half key and counts a round. */
  function Moved(p: Point, tx: Tx, r: Ref, next: int, raw: Raw): Point
    requires r.Ref?
  {
    Point(p.d.(half := (p.d.half - {HalfKey(r.nextCheck, tx)})[HalfKey(next, tx) := raw],
               idx := p.d.idx[tx := Ref(next, r.checks + 1)]),
          p.l.(rounds := p.l.rounds[tx := r.checks + 1]))
  }

  lemma MovedInv(p: Point, maxChecks: nat, damaged: set<Tx>, tx: Tx, r: Ref, next: int)
    requires Inv(p, maxChecks, damaged) && tx in p.d.idx && p.d.idx[tx] == r && r.Ref? && r.checks < maxChecks
    requires HalfKey(r.nextCheck, tx) in p.d.half
    ensures Inv(Moved(p, tx, r, next, p.d.half[HalfKey(r.nextCheck, tx)]), maxChecks, damaged)
  {
    var n := Moved(p, tx, r, next, p.d.half[HalfKey(r.nextCheck, tx)]);
    SameQueue(p, n);
    forall t | t in n.l.ever && t !in damaged
      ensures Sound(n, maxChecks, t)
    {
      assert Sound(p, maxChecks, t);
    }
  }

  /** Cleaning up keys of a damaged transaction, or keys of no transaction. */
  function Scrap(p: Point, half: set<HalfKey>, idx: set<Tx>, strays: set<nat>): Point {
    p.(d := p.d.(half := p.d.half - half, idx := p.d.idx - idx, strays := p.d.strays - strays))
  }

  lemma ScrapInv(p: Point, maxChecks: nat, damaged: set<Tx>, half: set<HalfKey>, idx: set<Tx>, strays: set<nat>)
    requires Inv(p, maxChecks, damaged)
    requires (forall k :: k in half ==> k.tx in damaged) && idx <= damaged
    ensures Inv(Scrap(p, half, idx, strays), maxChecks, damaged)
  {
    var n := Scrap(p, half, idx, strays);
    SameQueue(p, n);
    forall t | t in n.l.ever && t !in damaged
      ensures Sound(n, maxChecks, t)
    {
      assert Sound(p, maxChecks, t);
    }
  }

  // ----- what callers were told -----

  ghost predicate Keeps(p: Point, staged: map<Tx, Message>, ended: map<Tx, How>) {
    && (forall tx :: tx in staged ==> tx in p.l.ever && p.l.ever[tx] == staged[tx])
    && (forall tx :: tx in ended ==> tx in p.l.decided && p.l.decided[tx] == ended[tx])
  }

  ghost predicate Later(x: Point, y: Point) {
    && (forall tx :: tx in x.l.ever ==> tx in y.l.ever && y.l.ever[tx] == x.l.ever[tx])
    && (forall tx :: tx in x.l.decided ==> tx in y.l.decided && y.l.decided[tx] == x.l.decided[tx])
  }

  lemma KeepsLater(x: Point, y: Point, staged: map<Tx, Message>, ended: map<Tx, How>)
    requires Keeps(x, staged, ended) && Later(x, y)
    ensures Keeps(y, staged, ended)
  {
  }

  lemma LaterSame(x: Point, y: Point)
    requires y.l.ever == x.l.ever && y.l.decided == x.l.decided
    ensures Later(x, y)
  {
  }

  lemma LaterStaged(p: Point, tx: Tx, m: Message, next: int)
    requires tx !in p.l.ever
    ensures Later(p, Staged(p, tx, m, next))
  {
  }

  lemma LaterDecide(p: Point, k: HalfKey, how: How)
    ensures Later(p, Decide(p, k, how))
  {
  }

  lemma PromiseStaged(p: Point, staged: map<Tx, Message>, ended: map<Tx, How>, tx: Tx, m: Message)
    requires Keeps(p, staged, ended) && tx in p.l.ever && p.l.ever[tx] == m
    ensures Keeps(p, staged[tx := m], ended)
  {
  }

  lemma PromiseEnded(p: Point, staged: map<Tx, Message>, ended: map<Tx, How>, tx: Tx, how: How)
    requires Keeps(p, staged, ended) && tx in p.l.decided && p.l.decided[tx] == how
    ensures Keeps(p, staged, ended[tx := how])
  {
  }

  // ----- the invariant, read by a caller -----

  /** The index says (t, c) for a transaction exactly when its one half key is (t, tx), and then its rounds are c. */
  lemma IndexMatchesHalf(p: Point, maxChecks: nat, damaged: set<Tx>, tx: Tx, t: int)
    requires Inv(p, maxChecks, damaged) && tx !in damaged
    ensures HalfKey(t, tx) in p.d.half <==> tx in p.d.idx && p.d.idx[tx].Ref? && p.d.idx[tx].nextCheck == t
    ensures tx in p.d.idx ==> p.d.idx[tx].Ref? && p.l.rounds[tx] == p.d.idx[tx].checks <= maxChecks
  {
    if tx in p.d.idx {
      assert Sound(p, maxChecks, tx);
    }
  }

  /**
   * A decided transaction has no half key and no index entry; a queued one was asked for; a dropped one used every
   * round.
   */
  lemma DecidedIsFinal(p: Point, maxChecks: nat, damaged: set<Tx>, staged: map<Tx, Message>, ended: map<Tx, How>,
                       tx: Tx)
    requires Inv(p, maxChecks, damaged) && Keeps(p, staged, ended) && tx !in damaged && tx in p.l.decided
    ensures tx !in p.d.idx && forall t :: HalfKey(t, tx) !in p.d.half
    ensures forall i :: 0 <= i < |p.d.queue| && p.d.queue[i].from == Some(tx) ==>
              tx in p.l.asked && tx in p.l.ever && p.d.queue[i].m == p.l.ever[tx]
    ensures p.l.decided[tx].Dropped? ==> p.l.rounds[tx] == maxChecks
  {
    assert Sound(p, maxChecks, tx);
    forall t
      ensures HalfKey(t, tx) !in p.d.half
    {
      assert HalfKey(t, tx) in p.d.half ==> HalfKey(t, tx).tx in p.d.idx;
    }
  }

  /** A transaction a producer staged is undecided with its message intact, or queued, or refused, or out of rounds. */
  lemma StagedNeverLost(p: Point, maxChecks: nat, damaged: set<Tx>, staged: map<Tx, Message>, ended: map<Tx, How>,
                        tx: Tx)
    requires Inv(p, maxChecks, damaged) && Keeps(p, staged, ended) && tx !in damaged && tx in staged
    ensures || (tx in p.d.idx && exists t :: HalfKey(t, tx) in p.d.half && p.d.half[HalfKey(t, tx)] == Good(staged[tx]))
            || (exists i :: 0 <= i < |p.d.queue| && p.d.queue[i] == Queued(Some(tx), staged[tx]))
            || tx in p.l.refused || (tx in p.l.rounds && p.l.rounds[tx] == maxChecks)
  {
    assert Sound(p, maxChecks, tx);
    if i :| 0 <= i < |p.d.queue| && p.d.queue[i].from == Some(tx) {
      assert p.d.queue[i] == Queued(Some(tx), staged[tx]);
    }
  }

  /** Damage from outside: what is stored for one transaction becomes anything. */
  function Damaged(p: Point, tx: Tx, half: map<HalfKey, Raw>, idx: map<Tx, Ref>): Point {
    p.(d := p.d.(half := (map k | k in p.d.half && k.tx != tx :: p.d.half[k]) + half, idx := (p.d.idx - {tx}) + idx))
  }

  lemma DamagedInv(p: Point, maxChecks: nat, damaged: set<Tx>, tx: Tx, half: map<HalfKey, Raw>, idx: map<Tx, Ref>)
    requires Inv(p, maxChecks, damaged) && (forall k :: k in half ==> k.tx == tx) && idx.Keys <= {tx}
    ensures Inv(Damaged(p, tx, half, idx), maxChecks, damaged + {tx})
  {
    var n := Damaged(p, tx, half, idx);
    SameQueue(p, n);
    assert forall t :: t in idx ==> t in idx.Keys;
    forall t | t in n.l.ever && t !in damaged + {tx}
      ensures Sound(n, maxChecks, t)
    {
      assert Sound(p, maxChecks, t);
    }
  }

  lemma MoreDamage(p: Point, maxChecks: nat, damaged: set<Tx>, tx: Tx)
    requires Inv(p, maxChecks, damaged)
    ensures Inv(p, maxChecks, damaged + {tx})
  {
    forall t | t in p.l.ever && t !in damaged + {tx}
      ensures Sound(p, maxChecks, t)
    {
      assert Sound(p, maxChecks, t);
    }
  }

  /** Commits between their two phases: queued, asked for, and the keys still as they were. */
  ghost predicate Held(p: Point, damaged: set<Tx>, open: map<Tx, HalfKey>) {
    forall tx :: tx in open ==>
      && open[tx].tx == tx && InQueue(p.d, tx) && tx in p.l.asked
      && (tx !in damaged ==> tx in p.d.idx && p.d.idx[tx].Ref? && p.d.idx[tx].nextCheck == open[tx].nextCheck)
  }

  lemma HeldSame(p: Point, n: Point, damaged: set<Tx>, open: map<Tx, HalfKey>)
    requires Held(p, damaged, open) && p.d.queue <= n.d.queue && p.l.asked <= n.l.asked
    requires forall tx :: tx in open && tx in p.d.idx ==> tx in n.d.idx && n.d.idx[tx] == p.d.idx[tx]
    ensures Held(n, damaged, open)
  {
    forall tx | tx in open
      ensures InQueue(n.d, tx)
    {
      var i :| 0 <= i < |p.d.queue| && p.d.queue[i].from == Some(tx);
      assert n.d.queue[i].from == Some(tx);
    }
  }

  lemma Facts(p: Point, maxChecks: nat, damaged: set<Tx>, tx: Tx)
    requires Inv(p, maxChecks, damaged) && tx !in damaged
    ensures tx in p.d.idx ==>
              && tx in p.l.ever && tx !in p.l.decided && p.d.idx[tx].Ref? && p.d.idx[tx].checks <= maxChecks
              && HalfKey(p.d.idx[tx].nextCheck, tx) in p.d.half
              && p.d.half[HalfKey(p.d.idx[tx].nextCheck, tx)] == Good(p.l.ever[tx])
    ensures tx !in p.d.idx && tx in p.l.ever ==> tx in p.l.decided
  {
    if tx in p.l.ever {
      assert Sound(p, maxChecks, tx);
    }
  }

  /** One more round was left; the entry now stands at its next time with the round counted. */
  ghost predicate Rescheduled(before: Disk, after: Disk, tx: Tx, next: int, maxChecks: nat) {
    && tx in before.idx && before.idx[tx].Ref? && before.idx[tx].checks < maxChecks
    && tx in after.idx && after.idx[tx] == Ref(next, before.idx[tx].checks + 1)
    && HalfKey(before.idx[tx].nextCheck, tx) in before.half && HalfKey(next, tx) in after.half
    && after.half[HalfKey(next, tx)] == before.half[HalfKey(before.idx[tx].nextCheck, tx)]
    && after.strays == before.strays && after.queue == before.queue
    && (forall k :: k != HalfKey(next, tx) ==>
          (k in after.half <==> k in before.half && k != HalfKey(before.idx[tx].nextCheck, tx))
          && (k in after.half && k in before.half ==> after.half[k] == before.half[k]))
    && (forall t :: t != tx ==> (t in after.idx <==> t in before.idx))
    && (forall t :: t != tx && t in after.idx && t in before.idx ==> after.idx[t] == before.idx[t])
  }

  /** Neither the half key nor the index entry of its transaction any more, and nothing else touched. */
  function Without(d: Disk, k: HalfKey): Disk {
    Disk(d.half - {k}, d.idx - {k.tx}, d.strays, d.queue)
  }

  lemma {:induction false} EarliestKey(s: set<HalfKey>) returns (k: HalfKey)
    requires s != {}
    ensures k in s && forall e :: e in s ==> k.nextCheck <= e.nextCheck
    decreases |s|
  {
    k :| k in s;
    var rest := s - {k};
    assert forall e :: e in s ==> e == k || e in rest;
    if rest != {} {
      var n := EarliestKey(rest);
      k := if n.nextCheck < k.nextCheck then n else k;
    }
  }

  ghost predicate Has(found: seq<(HalfKey, Raw)>, k: HalfKey) {
    exists i :: 0 <= i < |found| && found[i].0 == k
  }

  /**
   * Copies of due entries, earliest first; all of them, or as many as there is room for and no later one before an
   * earlier.
   */
  ghost predicate FirstDue(d: Disk, now: int, found: seq<(HalfKey, Raw)>, room: nat) {
    && |found| <= room
    && (forall i :: 0 <= i < |found| ==>
          found[i].0 in d.half && d.half[found[i].0] == found[i].1 && found[i].0.nextCheck <= now)
    && (forall i, j :: 0 <= i < j < |found| ==> found[i].0.nextCheck <= found[j].0.nextCheck)
    && (forall k :: k in d.half && k.nextCheck <= now ==>
          || Has(found, k)
          || (|found| == room && forall i :: 0 <= i < |found| ==> found[i].0.nextCheck <= k.nextCheck))
  }

  /** Midway through the scan: `todo` is still to be looked at, and nothing in it is earlier than what was found. */
  ghost predicate Collecting(d: Disk, now: int, found: seq<(HalfKey, Raw)>, todo: set<HalfKey>) {
    && (forall k :: k in todo ==> k in d.half && k.nextCheck <= now)
    && (forall i :: 0 <= i < |found| ==>
          found[i].0 in d.half && d.half[found[i].0] == found[i].1 && found[i].0.nextCheck <= now)
    && (forall i, k :: 0 <= i < |found| && k in todo ==> found[i].0.nextCheck <= k.nextCheck)
    && (forall i, j :: 0 <= i < j < |found| ==> found[i].0.nextCheck <= found[j].0.nextCheck)
    && (forall k :: k in d.half && k.nextCheck <= now ==> k in todo || Has(found, k))
  }

  lemma CollectStart(d: Disk, now: int, todo: set<HalfKey>)
    requires todo == set k | k in d.half && k.nextCheck <= now
    ensures Collecting(d, now, [], todo)
  {
  }

  lemma CollectNext(d: Disk, now: int, found: seq<(HalfKey, Raw)>, todo: set<HalfKey>, k: HalfKey)
    requires Collecting(d, now, found, todo) && k in todo && forall e :: e in todo ==> k.nextCheck <= e.nextCheck
    ensures k in d.half && Collecting(d, now, found + [(k, d.half[k])], todo - {k})
  {
    hide Has;
    var n := found + [(k, d.half[k])];
    forall e | e in d.half && e.nextCheck <= now && e !in todo - {k}
      ensures Has(n, e)
    {
      HasSnoc(found, (k, d.half[k]), e);
    }
  }

  lemma HasSnoc(found: seq<(HalfKey, Raw)>, x: (HalfKey, Raw), e: HalfKey)
    ensures Has(found + [x], e) <==> Has(found, e) || x.0 == e
  {
    var n := found + [x];
    assert n[|found|] == x && forall i :: 0 <= i < |found| ==> n[i] == found[i];
  }

  lemma Collected(d: Disk, now: int, found: seq<(HalfKey, Raw)>, todo: set<HalfKey>, room: nat)
    requires Collecting(d, now, found, todo) && |found| <= room && (todo == {} || |found| == room)
    ensures FirstDue(d, now, found, room)
  {
  }

  lemma Copies(d: Disk, now: int, found: seq<(HalfKey, Raw)>, room: nat)
    requires FirstDue(d, now, found, room)
    ensures forall i :: 0 <= i < |found| ==> found[i].0 in d.half && d.half[found[i].0] == found[i].1
  {
  }

  datatype EndResult = Found | NotFound | NotLeader | Failed | Queuing

  class Manager {
    const io: Io
    const maxChecks: nat
    const checkInterval: nat
    var disk: Disk
    var now: int
    var leader: bool
    /** Copies the scan of a check pass made and has not handled yet. */
    var dues: seq<(HalfKey, Raw)>
    /** Transactions whose lock a commit holds between its two phases. */
    var open: map<Tx, HalfKey>
    ghost var ledger: Ledger
    ghost var log: seq<Point>
    ghost var durable: nat
    ghost var damaged: set<Tx>
    /** What producers were told: staged transactions, and decisions that were confirmed. */
    ghost var staged: map<Tx, Message>
    ghost var ended: map<Tx, How>

    ghost function Now(): Point
      reads this
    {
      Point(disk, ledger)
    }

    ghost predicate Valid()
      reads this
    {
      && 0 < |log| && durable < |log| && log[|log| - 1] == Now()
      && (forall i :: 0 <= i < |log| ==> Inv(log[i], maxChecks, damaged))
      && (forall i :: durable <= i < |log| ==> Keeps(log[i], staged, ended))
      && Held(Now(), damaged, open)
      && (forall i :: 0 <= i < |dues| ==> dues[i].1.Bad? ==> dues[i].0.tx in damaged)
    }

    constructor (io: Io, maxChecks: nat, checkInterval: nat, now: int)
      ensures Valid() && disk == Disk(map[], map[], {}, []) && damaged == {} && staged == map[] && ended == map[]
      ensures this.maxChecks == maxChecks && this.checkInterval == checkInterval && this.now == now
      ensures this.io == io
    {
      this.io := io;
      this.maxChecks, this.checkInterval, this.now := maxChecks, checkInterval, now;
      leader, dues, open := true, [], map[];
      disk, ledger := Disk(map[], map[], {}, []), Ledger(map[], {}, {}, map[], map[]);
      log := [Point(Disk(map[], map[], {}, []), Ledger(map[], {}, {}, map[], map[]))];
      durable, damaged, staged, ended := 0, {}, map[], map[];
    }

    lemma NowInv()
      requires Valid()
      ensures Inv(Now(), maxChecks, damaged) && Keeps(Now(), staged, ended)
    {
      hide Inv, Keeps, Held;
      assert Inv(log[|log| - 1], maxChecks, damaged) && Keeps(log[|log| - 1], staged, ended);
    }

    /** Apply and wait; on an error the batch may or may not be there. */
    method Apply(n: Disk, ghost l: Ledger) returns (ok: bool)
      requires Valid() && Inv(Point(n, l), maxChecks, damaged) && Later(Now(), Point(n, l))
      requires Held(Point(n, l), damaged, open)
      modifies `disk, `ledger, `log, `durable, io
      ensures io.failed >= old(io.failed) + if !ok then 1 else 0
      ensures Valid() && (ok ==> Now() == Point(n, l) && durable == |log| - 1)
      ensures Now() == Point(n, l) || Now() == old(Now())
    {
      hide Inv, Keeps, Later, Held;
      var applied: bool := io.Try();
      if !applied {
        return false;
      }
      NowInv();
      KeepsLater(Now(), Point(n, l), staged, ended);
      disk, ledger := n, l;
      log := log + [Point(n, l)];
      ok := io.Try();
      if ok {
        durable := |log| - 1;
      }
    }

    method Tick(ms: nat)
      requires Valid()
      modifies `now
      ensures Valid() && now == old(now) + ms
    {
      now := now + ms;
    }

    method Crash(ghost at: nat, d: Disk)
      requires Valid() && durable <= at < |log| && d == log[at].d
      modifies `disk, `ledger, `log, `durable, `dues, `open
      ensures Valid() && Now() == old(log[at]) && open == map[] && dues == []
    {
      hide Inv, Keeps;
      disk, ledger := d, log[at].l;
      log, durable, dues, open := [log[at]], 0, [], map[];
    }

    /**
     * Something outside this program overwrites the keys of one transaction; nothing is claimed about it from then on.
     */
    method Damage(tx: Tx, half: map<HalfKey, Raw>, idx: map<Tx, Ref>)
      requires Valid() && tx !in open && (forall k :: k in half ==> k.tx == tx) && idx.Keys <= {tx}
      modifies `disk, `log, `durable, `damaged
      ensures Valid() && damaged == old(damaged) + {tx}
    {
      hide Inv, Keeps, Held;
      NowInv();
      DamagedInv(Now(), maxChecks, damaged, tx, half, idx);
      ghost var n := Damaged(Now(), tx, half, idx);
      forall i | 0 <= i < |log|
        ensures Inv(log[i], maxChecks, damaged + {tx})
      {
        MoreDamage(log[i], maxChecks, damaged, tx);
      }
      LaterSame(Now(), n);
      KeepsLater(Now(), n, staged, ended);
      HeldDamage(Now(), n, damaged, tx, open);
      damaged := damaged + {tx};
      disk := disk.(half := (map k | k in disk.half && k.tx != tx :: disk.half[k]) + half,
                    idx := (disk.idx - {tx}) + idx);
      log := log + [n];
    }

    /** Stage: message and index in one batch, under an id no transaction had before. */
    method Stage(m: Message, tx: Tx) returns (ok: bool)
      requires Valid() && tx !in ledger.ever && tx !in damaged && tx !in open
      modifies `disk, `ledger, `log, `durable, `staged, io
      ensures io.failed >= old(io.failed) + if !ok then 1 else 0
      ensures Valid() && ledger.asked == old(ledger.asked)
      ensures ok ==> Now() == Staged(old(Now()), tx, m, now + checkInterval) && staged == old(staged)[tx := m]
      ensures ok ==> disk == old(disk).(half := old(disk).half[HalfKey(now + checkInterval, tx) := Good(m)],
                                        idx := old(disk).idx[tx := Ref(now + checkInterval, 0)])
      ensures !ok ==> staged == old(staged)
    {
      hide Inv, Keeps, Later, Held;
      var next := now + checkInterval;
      ghost var n := Staged(Now(), tx, m, next);
      NowInv();
      StagedInv(Now(), maxChecks, damaged, tx, m, next);
      LaterStaged(Now(), tx, m, next);
      HeldSame(Now(), n, damaged, open);
      ok := Apply(disk.(half := disk.half[HalfKey(next, tx) := Good(m)], idx := disk.idx[tx := Ref(next, 0)]), n.l);
      if ok {
        NowInv();
        PromiseStaged(n, staged, ended, tx, m);
        staged := staged[tx := m];
      }
    }

    /**
     * EndTransaction: a roll-back deletes both keys; a commit queues the message first and keeps the lock (Queuing).
     */
    method End(tx: Tx, commit: bool) returns (r: EndResult)
      requires Valid() && tx !in open
      modifies `disk, `ledger, `log, `durable, `open, `ended, io
      ensures io.failed >= old(io.failed) + if r.Failed? && tx !in damaged then 1 else 0
      ensures Valid()
      ensures r.NotLeader? ==> !leader && tx !in old(disk).idx
      ensures r.NotFound? && tx !in damaged ==> leader && tx !in old(disk).idx && disk == old(disk)
      ensures tx !in old(disk).idx ==> disk == old(disk) && (r.NotFound? || r.NotLeader?)
      ensures ledger.asked == old(ledger.asked) + if commit then {tx} else {}
      ensures r.Found? ==>
                && !commit && open == old(open) && tx in old(disk).idx && old(disk).idx[tx].Ref?
                && Now() == Decide(old(Now()), HalfKey(old(disk).idx[tx].nextCheck, tx), RolledBack)
                && (tx !in damaged ==> ended == old(ended)[tx := RolledBack])
      ensures r.Queuing? ==>
                && commit && tx in old(disk).idx && old(disk).idx[tx].Ref?
                && open == old(open)[tx := HalfKey(old(disk).idx[tx].nextCheck, tx)] && ended == old(ended)
                && InQueue(disk, tx)
      ensures r.Found? ==> disk == Without(old(disk), HalfKey(old(disk).idx[tx].nextCheck, tx))
      ensures r.Queuing? ==>
                && open[tx] in old(disk).half && old(disk).half[open[tx]].Good?
                && disk == old(disk).(queue := old(disk).queue + [Queued(Some(tx), old(disk).half[open[tx]].m)])
      ensures r.Failed? && tx !in damaged ==>
                var k := HalfKey(old(disk).idx[tx].nextCheck, tx);
                || disk == old(disk) || (!commit && disk == Without(old(disk), k))
                || (commit && disk == old(disk).(queue := old(disk).queue + [Queued(Some(tx), old(ledger).ever[tx])]))
      ensures !r.Queuing? ==> open == old(open)
    {
      hide Inv, Keeps, Later, Held;
      if commit {
        Called(tx);
      }
      if tx !in disk.idx {
        return if leader then NotFound else NotLeader;
      }
      NowInv();
      if tx !in damaged {
        Facts(Now(), maxChecks, damaged, tx);
      }
      if disk.idx[tx].BadRef? {
        return Failed;
      }
      var k := HalfKey(disk.idx[tx].nextCheck, tx);
      if k !in disk.half {
        ghost var n := Scrap(Now(), {}, {tx}, {});
        ScrapInv(Now(), maxChecks, damaged, {}, {tx}, {});
        LaterSame(Now(), n);
        HeldSame(Now(), n, damaged, open);
        ScrapIdx(disk, tx);
        var ok := Apply(disk.(idx := disk.idx - {tx}), ledger);
        return if ok then NotFound else Failed;
      }
      if !commit {
        r := RollBack(tx, k);
      } else if disk.half[k].Bad? {
        r := Failed;
      } else {
        r := QueueFirst(tx, k, disk.half[k].m);
      }
    }

    /** A commit was asked for. This writes nothing: it is what the caller did, not what the program does about it. */
    ghost method Called(tx: Tx)
      requires Valid()
      modifies `ledger, `log
      ensures Valid() && Now() == Ask(old(Now()), tx)
    {
      hide Inv, Keeps, Later, Held;
      ghost var n := Ask(Now(), tx);
      NowInv();
      AskInv(Now(), maxChecks, damaged, tx);
      LaterSame(Now(), n);
      KeepsLater(Now(), n, staged, ended);
      HeldSame(Now(), n, damaged, open);
      ledger := n.l;
      log := log + [n];
    }

    method RollBack(tx: Tx, k: HalfKey) returns (r: EndResult)
      requires Valid() && tx !in open && tx in disk.idx && disk.idx[tx].Ref? && k == HalfKey(disk.idx[tx].nextCheck, tx)
      modifies `disk, `ledger, `log, `durable, `ended, io
      ensures io.failed >= old(io.failed) + if r.Failed? then 1 else 0
      ensures Valid() && (r.Found? || r.Failed?) && ledger.asked == old(ledger.asked)
      ensures r.Found? ==> Now() == Decide(old(Now()), k, RolledBack)
      ensures disk == old(disk) || disk == Without(old(disk), k)
      ensures r.Found? ==> disk == Without(old(disk), k)
      ensures r.Found? && tx !in damaged ==> ended == old(ended)[tx := RolledBack]
    {
      hide Inv, Keeps, Later, Held;
      ghost var n := Decide(Now(), k, RolledBack);
      NowInv();
      DecideInv(Now(), maxChecks, damaged, k, RolledBack);
      LaterDecide(Now(), k, RolledBack);
      HeldSame(Now(), n, damaged, open);
      var ok := Apply(disk.(half := disk.half - {k}, idx := disk.idx - {tx}), n.l);
      if !ok {
        return Failed;
      }
      NowInv();
      if tx !in damaged {
        PromiseEnded(n, staged, ended, tx, RolledBack);
      }
      ghost var e := if tx !in damaged then ended[tx := RolledBack] else ended;
      ended := e;
      return Found;
    }

    /** First phase of a commit that was asked for. */
    method QueueFirst(tx: Tx, k: HalfKey, m: Message) returns (r: EndResult)
      requires Valid() && tx !in open && tx in ledger.asked
      requires tx !in damaged ==> tx in ledger.ever && ledger.ever[tx] == m
      requires tx in disk.idx && disk.idx[tx].Ref? && k == HalfKey(disk.idx[tx].nextCheck, tx)
      modifies `disk, `ledger, `log, `durable, `open, io
      ensures io.failed >= old(io.failed) + if r.Failed? then 1 else 0
      ensures Valid() && (r.Queuing? || r.Failed?) && ledger.asked == old(ledger.asked)
      ensures r.Queuing? ==> Now() == Queue(old(Now()), tx, m) && open == old(open)[tx := k] && InQueue(disk, tx)
      ensures disk == old(disk) || disk == old(disk).(queue := old(disk).queue + [Queued(Some(tx), m)])
      ensures r.Queuing? ==> disk == old(disk).(queue := old(disk).queue + [Queued(Some(tx), m)])
      ensures r.Failed? ==> open == old(open)
    {
      hide Inv, Keeps, Later, Held;
      ghost var n := Queue(Now(), tx, m);
      NowInv();
      QueueInv(Now(), maxChecks, damaged, tx, m);
      LaterSame(Now(), n);
      HeldSame(Now(), n, damaged, open);
      var ok := Apply(disk.(queue := disk.queue + [Queued(Some(tx), m)]), n.l);
      if !ok {
        return Failed;
      }
      HeldMore(n, damaged, open, tx, k);
      open := open[tx := k];
      return Queuing;
    }

    /** Second phase of a commit: both keys go and the lock is released; on an error they stay for another try. */
    method EndFinish(tx: Tx) returns (r: EndResult)
      requires Valid() && tx in open
      modifies `disk, `ledger, `log, `durable, `open, `ended, io
      ensures io.failed >= old(io.failed) + if r.Failed? then 1 else 0
      ensures Valid() && (r.Found? || r.Failed?) && open == old(open) - {tx} && ledger.asked == old(ledger.asked)
      ensures r.Found? ==> Now() == Decide(old(Now()), old(open)[tx], Committed)
      ensures r.Found? ==> old(open)[tx].tx == tx && disk == Without(old(disk), old(open)[tx])
      ensures r.Failed? ==> disk == old(disk) || disk == Without(old(disk), old(open)[tx])
      ensures r.Found? && tx !in damaged ==> ended == old(ended)[tx := Committed]
    {
      hide Inv, Keeps, Later, Held;
      var k := open[tx];
      ghost var n := Decide(Now(), k, Committed);
      NowInv();
      HeldDecided(Now(), maxChecks, damaged, open, tx);
      LaterDecide(Now(), k, Committed);
      open := open - {tx};
      var ok := Apply(disk.(half := disk.half - {k}, idx := disk.idx - {tx}), n.l);
      if !ok {
        return Failed;
      }
      NowInv();
      if tx !in damaged {
        PromiseEnded(n, staged, ended, tx, Committed);
      }
      ghost var e := if tx !in damaged then ended[tx := Committed] else ended;
      ended := e;
      return Found;
    }

    /**
     * A pass begins: of the first 256 keys due, in time order, the unparseable ones (`bad`) are deleted and the others
     * copied, all without any lock.
     */
    method BeginPass(bad: set<nat>) returns (ok: bool)
      requires Valid() && bad <= disk.strays && |bad| <= 256
      modifies `disk, `ledger, `log, `durable, `dues, io
      ensures io.failed >= old(io.failed) + if !ok then 1 else 0
      ensures Valid() && ledger.asked == old(ledger.asked)
      ensures !(ok && leader) ==> dues == []
      ensures !leader ==> Now() == old(Now())
      ensures ok && leader ==> FirstDue(old(disk), now, dues, 256 - |bad|)
      ensures ok && leader ==> disk == old(disk).(strays := old(disk).strays - bad)
    {
      hide Inv, Keeps, Later, Held, FirstDue;
      dues := [];
      if !leader {
        return true;
      }
      NowInv();
      var found := ScanDue(MAX_CHECK_PER_PASS - |bad|);
      BadIsDamaged(Now(), maxChecks, damaged);
      Copies(disk, now, found, MAX_CHECK_PER_PASS - |bad|);
      ScrapNothing(disk);
      if bad != {} {
        ghost var n := Scrap(Now(), {}, {}, bad);
        ScrapInv(Now(), maxChecks, damaged, {}, {}, bad);
        LaterSame(Now(), n);
        HeldSame(Now(), n, damaged, open);
        ok := Apply(disk.(strays := disk.strays - bad), ledger);
        if !ok {
          return;
        }
      }
      dues := found;
      ok := true;
    }

    method ScanDue(room: nat) returns (found: seq<(HalfKey, Raw)>)
      ensures FirstDue(disk, now, found, room)
    {
      hide Collecting, FirstDue;
      found := [];
      var todo := set k | k in disk.half && k.nextCheck <= now;
      CollectStart(disk, now, todo);
      while todo != {} && |found| < room
        invariant |found| <= room && Collecting(disk, now, found, todo)
        decreases todo
      {
        ghost var least := EarliestKey(todo);
        var k :| k in todo && forall e :: e in todo ==> k.nextCheck <= e.nextCheck;
        CollectNext(disk, now, found, todo, k);
        found := found + [(k, disk.half[k])];
        todo := todo - {k};
      }
      Collected(disk, now, found, todo, room);
    }

    /**
     * The next entry of the pass, under its lock: an undecodable one is deleted; one decided meanwhile is left alone;
     * one out of rounds is dropped; any other is rescheduled, and only then may its producer be asked (`send`).
     */
    method CheckNext() returns (ok: bool, send: bool)
      requires Valid() && dues != [] && dues[0].0.tx !in open
      modifies `disk, `ledger, `log, `durable, `dues, io
      ensures io.failed >= old(io.failed) + if !ok then 1 else 0
      ensures Valid() && dues == (if ok then old(dues)[1..] else []) && ledger.asked == old(ledger.asked)
      ensures var (k, raw) := old(dues[0]);
              && (raw.Good? && k.tx !in old(disk).idx ==> ok && !send && Now() == old(Now()))
              && (send ==> raw.Good? && Rescheduled(old(disk), disk, k.tx, now + checkInterval, maxChecks))
              && (ok && raw.Good? && k.tx !in damaged && k.tx in old(disk).idx && !send ==>
                    && k.tx in ledger.decided && ledger.decided[k.tx] == Dropped
                    && old(disk).idx[k.tx].checks == maxChecks
                    && disk == Without(old(disk), HalfKey(old(disk).idx[k.tx].nextCheck, k.tx)))
    {
      hide Inv, Keeps, Later, Held;
      var (k, raw) := dues[0];
      var rest := dues[1..];
      send := false;
      if raw.Bad? {
        ok := Discard(k);
      } else {
        ok, send := CheckOne(k);
      }
      dues := if ok then rest else [];
    }

    /** dropLocked: the scanned half key and the index of its transaction. */
    method Discard(k: HalfKey) returns (ok: bool)
      requires Valid() && k.tx in damaged && k.tx !in open
      modifies `disk, `ledger, `log, `durable, io
      ensures io.failed >= old(io.failed) + if !ok then 1 else 0
      ensures Valid() && ledger.asked == old(ledger.asked)
    {
      hide Inv, Keeps, Later, Held;
      ghost var n := Scrap(Now(), {k}, {k.tx}, {});
      NowInv();
      ScrapInv(Now(), maxChecks, damaged, {k}, {k.tx}, {});
      LaterSame(Now(), n);
      HeldSame(Now(), n, damaged, open);
      ScrapBoth(disk, k);
      ok := Apply(disk.(half := disk.half - {k}, idx := disk.idx - {k.tx}), ledger);
    }

    method CheckOne(k: HalfKey) returns (ok: bool, send: bool)
      requires Valid() && k.tx !in open
      modifies `disk, `ledger, `log, `durable, io
      ensures io.failed >= old(io.failed) + if !ok then 1 else 0
      ensures Valid() && ledger.asked == old(ledger.asked)
      ensures k.tx !in old(disk).idx ==> ok && !send && Now() == old(Now())
      ensures send ==> ok && Rescheduled(old(disk), disk, k.tx, now + checkInterval, maxChecks)
      ensures ok && k.tx !in damaged && k.tx in old(disk).idx && !send ==>
                && k.tx in ledger.decided && ledger.decided[k.tx] == Dropped && old(disk).idx[k.tx].checks == maxChecks
                && disk == Without(old(disk), HalfKey(old(disk).idx[k.tx].nextCheck, k.tx))
    {
      hide Inv, Keeps, Later, Held;
      var tx := k.tx;
      if tx !in disk.idx {
        return true, false;
      }
      NowInv();
      if tx !in damaged {
        Facts(Now(), maxChecks, damaged, tx);
      }
      var r := disk.idx[tx];
      if r.BadRef? {
        ok := Discard(k);
        return ok, false;
      }
      var at := HalfKey(r.nextCheck, tx);
      if r.checks >= maxChecks {
        ghost var n := Decide(Now(), at, Dropped);
        DecideInv(Now(), maxChecks, damaged, at, Dropped);
        LaterDecide(Now(), at, Dropped);
        HeldSame(Now(), n, damaged, open);
        ok := Apply(disk.(half := disk.half - {at}, idx := disk.idx - {tx}), n.l);
        return ok, false;
      }
      if at !in disk.half {
        ghost var n := Scrap(Now(), {}, {tx}, {});
        ScrapInv(Now(), maxChecks, damaged, {}, {tx}, {});
        LaterSame(Now(), n);
        HeldSame(Now(), n, damaged, open);
        ScrapIdx(disk, tx);
        ok := Apply(disk.(idx := disk.idx - {tx}), ledger);
        return ok, false;
      }
      var next := now + checkInterval;
      ghost var n := Moved(Now(), tx, r, next, disk.half[at]);
      MovedInv(Now(), maxChecks, damaged, tx, r, next);
      LaterSame(Now(), n);
      HeldSame(Now(), n, damaged, open);
      ok := Apply(disk.(half := (disk.half - {at})[HalfKey(next, tx) := disk.half[at]],
                        idx := disk.idx[tx := Ref(next, r.checks + 1)]), n.l);
      send := ok;
    }
  }

  lemma HeldDamage(p: Point, n: Point, damaged: set<Tx>, tx: Tx, open: map<Tx, HalfKey>)
    requires Held(p, damaged, open) && tx !in open && n.d.queue == p.d.queue && n.l == p.l
    requires forall t :: t != tx ==> (t in n.d.idx <==> t in p.d.idx) && (t in p.d.idx ==> n.d.idx[t] == p.d.idx[t])
    ensures Held(n, damaged + {tx}, open)
  {
    SameQueue(p, n);
  }

  /** A held commit may be finished, and the other held ones stay held. */
  lemma HeldDecided(p: Point, maxChecks: nat, damaged: set<Tx>, open: map<Tx, HalfKey>, tx: Tx)
    requires Inv(p, maxChecks, damaged) && Held(p, damaged, open) && tx in open
    ensures var n := Decide(p, open[tx], Committed);
            && open[tx].tx == tx && Inv(n, maxChecks, damaged)
            && Held(p, damaged, open - {tx}) && Held(n, damaged, open - {tx})
            && (tx !in damaged ==> tx in n.l.decided && n.l.decided[tx] == Committed)
  {
    hide Inv;
    DecideInv(p, maxChecks, damaged, open[tx], Committed);
    HeldSame(p, Decide(p, open[tx], Committed), damaged, open - {tx});
  }

  lemma HeldMore(p: Point, damaged: set<Tx>, open: map<Tx, HalfKey>, tx: Tx, k: HalfKey)
    requires Held(p, damaged, open) && tx in p.d.idx && p.d.idx[tx].Ref? && k == HalfKey(p.d.idx[tx].nextCheck, tx)
    requires InQueue(p.d, tx) && tx in p.l.asked
    ensures Held(p, damaged, open[tx := k])
  {
  }

  lemma ScrapIdx(d: Disk, tx: Tx)
    ensures d.half - {} == d.half && d.strays - {} == d.strays
  {
  }

  lemma ScrapBoth(d: Disk, k: HalfKey)
    ensures d.strays - {} == d.strays
  {
  }

  lemma ScrapNothing(d: Disk)
    ensures d.half - {} == d.half && d.idx - {} == d.idx
  {
  }

  lemma BadIsDamaged(p: Point, maxChecks: nat, damaged: set<Tx>)
    requires Inv(p, maxChecks, damaged)
    ensures forall k :: k in p.d.half && p.d.half[k].Bad? ==> k.tx in damaged
  {
    forall k | k in p.d.half && k.tx !in damaged
      ensures p.d.half[k].Good?
    {
      Facts(p, maxChecks, damaged, k.tx);
    }
  }
}
