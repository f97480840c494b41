/**
 * Pop delivery on one queue: lazy redelivery with leases and back-off, dead-lettering in two phases, filtering, the
 * one-ordered-message lock, batch acknowledgement. Every batch committed is kept in `log`, so that a crash can fall
 * between any two of them. Producing, receiving, acknowledging and changing a deadline hold the queue lock only until
 * their batch is applied and wait for the disk afterwards (Settle), so any other calls may fall in between.
 */
module Deliver {
  import opened Bytes
  import opened Faults
  import opened Queue
  import opened SortedSets

  const SCAN_BUDGET := 1024
  const RETRY_BACKOFF_BASE := 10_000
  const RETRY_BACKOFF_MAX := 300_000

  datatype Verdict = True | False | Unknown

  /** The lease parameters of one receive; `alive` are the owners with a live session, None when nobody can be asked. */
  datatype Lease = Lease(owner: string, maxRenewMs: int, alive: Option<set<string>>) {
    predicate Enabled() {
      owner != "" && maxRenewMs > 0 && alive.Some?
    }
  }

  /** An expired record is renewed instead of redelivered: leases on, budget left, an owner known and still alive. */
  predicate Renewable(l: Lease, r: Inflight, now: int) {
    l.Enabled() && r.renewUntilMs > now && r.owner != "" && r.owner in l.alive.value
  }

  function Renewed(r: Inflight, now: int, invisible: int): Inflight {
    r.(expireAtMs := if now + invisible > r.renewUntilMs then r.renewUntilMs else now + invisible)
  }

  function Pow2(n: nat): nat {
    if n == 0 then 1 else 2 * Pow2(n - 1)
  }

  /** The floor on invisibility of delivery n >= 2: ten seconds doubled per retry, five minutes at most. */
  function Backoff(n: nat): int {
    var d := RETRY_BACKOFF_BASE * Pow2(if n < 2 then 0 else n - 2);
    if d >= RETRY_BACKOFF_MAX then RETRY_BACKOFF_MAX else d
  }

  lemma {:induction false} Pow2Grows(m: nat, n: nat)
    requires m <= n
    ensures Pow2(m) <= Pow2(n)
  {
    if m < n {
      Pow2Grows(m, n - 1);
    }
  }

  method RetryBackoff(attempts: nat) returns (d: int)
    ensures d == Backoff(attempts)
  {
    d := RETRY_BACKOFF_BASE;
    var i := 2;
    while i < attempts
      invariant 2 <= i && (if attempts >= 2 then i <= attempts else i == 2)
      invariant d == RETRY_BACKOFF_BASE * Pow2(i - 2) < RETRY_BACKOFF_MAX
    {
      d := d * 2;
      if d >= RETRY_BACKOFF_MAX {
        Pow2Grows(i - 1, attempts - 2);
        return RETRY_BACKOFF_MAX;
      }
      i := i + 1;
    }
    if d >= RETRY_BACKOFF_MAX {
      return RETRY_BACKOFF_MAX;
    }
  }

  /** The floor for delivery `n`, number by number. */
  ghost function Wait(n: nat): int {
    if n <= 2 then 10_000
    else if n == 3 then 20_000
    else if n == 4 then 40_000
    else if n == 5 then 80_000
    else if n == 6 then 160_000
    else 300_000
  }

  lemma BackoffTable(n: nat)
    ensures Backoff(n) == Wait(n)
  {
    assert Pow2(1) == 2 && Pow2(2) == 4 && Pow2(3) == 8 && Pow2(4) == 16 && Pow2(5) == 32;
    if n >= 7 {
      Pow2Grows(5, n - 2);
    }
  }

  /** One receive call. */
  datatype Call = Call(now: int, invisible: int, maxMsgs: int, maxAttempts: nat, lease: Lease)

  /** The record a delivery leaves: back-off only for unordered redeliveries, ownership only with a lease. */
  function NewRecord(c: Call, attempt: nat, ordered: bool): (r: Inflight)
    ensures r.attempts == attempt && r.ordered == ordered
  {
    var exp := if attempt > 1 && !ordered && Backoff(attempt) > c.invisible then c.now + Backoff(attempt)
               else c.now + c.invisible;
    if c.lease.Enabled() then Inflight(exp, attempt, ordered, c.lease.owner, c.now + c.lease.maxRenewMs)
    else Inflight(exp, attempt, ordered, "", 0)
  }

  datatype Out = Out(offset: nat, message: Message, attempt: nat)

  // ----- what a receive does, in terms of the queue before and after -----

  /**
   * An expired record is its owner's to keep: leases are on, its budget is not used up, and the owner has a session.
   */
  ghost predicate Held(c: Call, r: Inflight) {
    && c.lease.owner != "" && c.lease.maxRenewMs > 0 && c.lease.alive.Some?
    && r.renewUntilMs > c.now && r.owner != "" && r.owner in c.lease.alive.value
  }

  /**
   * The record of a delivery: invisible for as long as the call asks, an unordered retry at least as long as its number
   * calls for; owned by the caller for as long as its lease, or by nobody.
   */
  ghost predicate Leased(c: Call, r: Inflight, n: nat, ordered: bool) {
    && r.attempts == n && r.ordered == ordered
    && r.expireAtMs >= c.now + c.invisible
    && (n <= 1 || ordered ==> r.expireAtMs == c.now + c.invisible)
    && (n > 1 && !ordered ==> r.expireAtMs == c.now + if Wait(n) > c.invisible then Wait(n) else c.invisible)
    && (if c.lease.owner != "" && c.lease.maxRenewMs > 0 && c.lease.alive.Some?
        then r.owner == c.lease.owner && r.renewUntilMs == c.now + c.lease.maxRenewMs
        else r.owner == "" && r.renewUntilMs == 0)
  }

  lemma NewRecordLeased(c: Call, n: nat, ordered: bool)
    ensures Leased(c, NewRecord(c, n, ordered), n, ordered)
  {
    BackoffTable(n);
    hide Backoff, Wait;
  }

  ghost predicate Handed(out: seq<Out>, o: nat) {
    exists i :: 0 <= i < |out| && out[i].offset == o
  }

  /** A message handed out: the stored one, with its next number, due if it was out before, and leased from now on. */
  ghost predicate GivenOut(c: Call, was: Queue, now: Queue, x: Out) {
    && x.offset in was.msgs && x.message == was.msgs[x.offset]
    && x.offset in now.inflight && Leased(c, now.inflight[x.offset], x.attempt, x.message.messageGroup != "")
    && if x.offset in was.inflight then
         var r := was.inflight[x.offset];
         r.expireAtMs <= c.now && !Held(c, r) && x.attempt == r.attempts + 1 <= c.maxAttempts
       else was.cursor <= x.offset < now.cursor && x.attempt == 1
  }

  /** A record that was there and whose message is not handed out: untouched, renewed for its owner, or done with. */
  ghost predicate Left(c: Call, was: Queue, now: Queue, o: nat)
    requires o in was.inflight
  {
    var r := was.inflight[o];
    if r.expireAtMs > c.now then o in now.inflight && now.inflight[o] == r
    else if Held(c, r) then
      && o in now.inflight
      && now.inflight[o].expireAtMs
         == (if c.now + c.invisible > r.renewUntilMs then r.renewUntilMs else c.now + c.invisible)
      && now.inflight[o] == r.(expireAtMs := now.inflight[o].expireAtMs)
    else
      || (o in now.inflight && now.inflight[o] == r)
      || (o !in now.inflight && (o !in was.msgs || (r.attempts >= c.maxAttempts && DeadLettered(now, o))))
  }

  /** One successful receive. */
  ghost predicate Received(c: Call, filter: Message -> Verdict, was: Queue, now: Queue, out: seq<Out>) {
    && now.msgs == was.msgs && was.cursor <= now.cursor
    && (forall i, j :: 0 <= i < j < |out| ==> out[i].offset < out[j].offset)
    && (forall i :: 0 <= i < |out| ==> GivenOut(c, was, now, out[i]))
    && (forall o :: o in was.inflight && !Handed(out, o) ==> Left(c, was, now, o))
    && (forall o :: o in now.inflight ==> o in was.inflight || Handed(out, o))
    && (forall o :: was.cursor <= o < now.cursor && o in was.msgs ==> (Handed(out, o) <==> filter(was.msgs[o]) == True))
  }

  /** The receive batch: records set and deleted, and the new cursor. */
  datatype Batch = Batch(sets: map<nat, Inflight>, dels: set<nat>, cursor: nat)

  function Applied(q: Queue, b: Batch): Queue {
    q.(cursor := b.cursor, inflight := q.inflight + b.sets - b.dels)
  }

  function Deliveries(out: seq<Out>, limit: nat): (h: seq<Delivery>)
    ensures |h| == |out|
  {
    if out == [] then []
    else Deliveries(out[..|out| - 1], limit) + [Delivery(out[|out| - 1].offset, out[|out| - 1].attempt, limit)]
  }

  /** `r` is due for redelivery at this call. */
  predicate Due(c: Call, r: Inflight) {
    r.expireAtMs <= c.now && !Renewable(c.lease, r, c.now)
  }

  /** Every delivery ever made stays made, every ack stays acked, every message produced stays on the account. */
  ghost predicate Later(x: Point, y: Point) {
    && x.a.acked <= y.a.acked && x.a.sent <= y.a.sent
    && forall o: nat :: Tries(x.a.hist, o) <= Tries(y.a.hist, o)
  }

  /** The virtual queue `v`, what the stored one becomes once the batch is applied, keeps the invariant. */
  ghost predicate Virtual(c: Call, q: Queue, a: Account, b: Batch, v: Point, out: seq<Out>) {
    && v.q == Applied(q, b) && Inv(v)
    && v.a == a.(hist := a.hist + Deliveries(out, c.maxAttempts), rejected := v.a.rejected)
    && a.rejected <= v.a.rejected && q.cursor <= b.cursor
    && (b.cursor == q.cursor ==> v.a.rejected == a.rejected)
  }

  /** What the batch and the dead-letter moves made so far may touch. */
  ghost predicate Touches(q0: Queue, q: Queue, b: Batch) {
    && b.sets.Keys !! b.dels
    && q.msgs == q0.msgs && q.cursor == q0.cursor && q0.cursor <= b.cursor
    && (forall o :: o in q.inflight ==> o in q0.inflight && q.inflight[o] == q0.inflight[o])
    && (forall o :: o in b.sets && o < q0.cursor ==> o in q0.inflight)
    && (forall o :: o in b.dels ==> o < q0.cursor && o in q0.inflight)
  }

  ghost predicate Outcomes(c: Call, q0: Queue, q: Queue, b: Batch) {
    forall o :: o in q0.inflight ==> Outcome(c, q0, q, b, o)
  }

  ghost predicate Outs(c: Call, q0: Queue, q: Queue, a: Account, b: Batch, out: seq<Out>) {
    && (forall i, j :: 0 <= i < j < |out| ==> out[i].offset != out[j].offset)
    && (forall i :: 0 <= i < |out| ==> Fresh(c, q0, q, a, b, out[i]))
  }

  /**
   * Half-built batch: `q` is the stored queue now, `q0` the queue when the call began, `v` what the queue will be once
   * the batch is applied.
   */
  ghost predicate Building(c: Call, q0: Queue, q: Queue, a: Account, b: Batch, v: Point, out: seq<Out>) {
    Virtual(c, q, a, b, v, out) && Touches(q0, q, b) && Outcomes(c, q0, q, b) && Outs(c, q0, q, a, b, out)
  }

  /** A message going out carries the next delivery number, and its new record is in the batch. */
  ghost predicate Fresh(c: Call, q0: Queue, q: Queue, a: Account, b: Batch, x: Out) {
    && x.offset in q.msgs && x.message == q.msgs[x.offset]
    && x.attempt == Tries(a.hist, x.offset) + 1
    && x.offset in b.sets && b.sets[x.offset] == NewRecord(c, x.attempt, Ordered(x.message))
    && x.offset < b.cursor && (x.offset in q0.inflight || (q0.cursor <= x.offset && x.attempt == 1))
  }

  /** What one call may do to a record that was there when it began. */
  ghost predicate Outcome(c: Call, q0: Queue, q: Queue, b: Batch, o: nat)
    requires o in q0.inflight
  {
    var r := q0.inflight[o];
    if o in b.dels then Due(c, r) && o !in q0.msgs
    else if o in b.sets then
      || (r.expireAtMs <= c.now && Renewable(c.lease, r, c.now) && b.sets[o] == Renewed(r, c.now, c.invisible))
      || (&& Due(c, r) && o in q0.msgs && r.attempts < c.maxAttempts
          && b.sets[o] == NewRecord(c, r.attempts + 1, r.ordered))
    else if o !in q.inflight then Due(c, r) && o in q0.msgs && r.attempts >= c.maxAttempts && DeadLettered(q, o)
    else true
  }

  lemma DeliveriesSnoc(out: seq<Out>, x: Out, limit: nat)
    ensures Deliveries(out + [x], limit) == Deliveries(out, limit) + [Delivery(x.offset, x.attempt, limit)]
  {
    assert (out + [x])[..|out|] == out;
  }

  lemma {:induction false} TriesWithOut(h: seq<Delivery>, out: seq<Out>, limit: nat, o: nat)
    ensures Tries(h + Deliveries(out, limit), o) >= Tries(h, o)
    ensures (forall i :: 0 <= i < |out| ==> out[i].offset != o) ==> Tries(h + Deliveries(out, limit), o) == Tries(h, o)
  {
    if out == [] {
      assert h + Deliveries(out, limit) == h;
    } else {
      var n := |out| - 1;
      TriesWithOut(h, out[..n], limit, o);
      var d := Delivery(out[n].offset, out[n].attempt, limit);
      TriesSnoc(h + Deliveries(out[..n], limit), d, o);
      assert h + Deliveries(out, limit) == h + Deliveries(out[..n], limit) + [d];
    }
  }

  lemma BuildingStart(c: Call, q: Queue, a: Account)
    requires Inv(Point(q, a))
    ensures Building(c, q, q, a, Batch(map[], {}, q.cursor), Point(q, a), [])
  {
    assert a.hist + Deliveries([], c.maxAttempts) == a.hist;
    assert q.inflight + map[] - {} == q.inflight;
  }

  // ----- one record of the batch at a time -----

  lemma SetOne(c: Call, q0: Queue, q: Queue, b: Batch, o: nat, r: Inflight)
    requires Touches(q0, q, b) && Outcomes(c, q0, q, b) && o in q0.inflight && o !in b.sets && o !in b.dels
    requires Outcome(c, q0, q, b.(sets := b.sets[o := r]), o)
    ensures Touches(q0, q, b.(sets := b.sets[o := r])) && Outcomes(c, q0, q, b.(sets := b.sets[o := r]))
  {
    hide Backoff, Ordered, DeadLettered, NewRecord, Renewable;
    forall e | e in q0.inflight
      ensures Outcome(c, q0, q, b.(sets := b.sets[o := r]), e)
    {
      assert Outcome(c, q0, q, b, e);
    }
  }

  lemma KeepOuts(c: Call, q0: Queue, q: Queue, a: Account, b: Batch, out: seq<Out>, b': Batch)
    requires Outs(c, q0, q, a, b, out) && b.cursor <= b'.cursor
    requires forall o :: o in b.sets ==> o in b'.sets && b'.sets[o] == b.sets[o]
    ensures Outs(c, q0, q, a, b', out)
  {
    hide Tries, NewRecord, Ordered;
    forall i | 0 <= i < |out|
      ensures Fresh(c, q0, q, a, b', out[i])
    {
      assert Fresh(c, q0, q, a, b, out[i]);
    }
  }

  lemma AddOut(c: Call, q0: Queue, q: Queue, a: Account, b: Batch, out: seq<Out>, x: Out)
    requires Outs(c, q0, q, a, b, out) && Fresh(c, q0, q, a, b, x)
    requires forall i :: 0 <= i < |out| ==> out[i].offset != x.offset
    ensures Outs(c, q0, q, a, b, out + [x])
  {
    hide Fresh;
  }

  lemma VirtualRenewal(c: Call, q: Queue, a: Account, b: Batch, v: Point, o: nat, r: Inflight)
    requires Virtual(c, q, a, b, v, []) && o in q.inflight && o !in b.sets && o !in b.dels
    requires r == q.inflight[o].(expireAtMs := r.expireAtMs)
    ensures o in v.q.inflight && Virtual(c, q, a, b.(sets := b.sets[o := r]), Extended(v, o, r.expireAtMs), [])
    ensures NoOrdered(v.q) <==> NoOrdered(Extended(v, o, r.expireAtMs).q)
  {
    hide Inv, NoOrdered, Tries, Numbered, Ordered, Backoff, Deliveries;
    assert v.q.inflight[o] == q.inflight[o];
    ExtendedInv(v, o, r.expireAtMs);
    assert q.inflight + b.sets[o := r] - b.dels == (q.inflight + b.sets - b.dels)[o := r];
  }

  lemma StageRenewal(c: Call, q0: Queue, q: Queue, a: Account, b: Batch, v: Point, o: nat)
    requires Building(c, q0, q, a, b, v, [])
    requires o in q0.inflight && o in q.inflight && o !in b.sets && o !in b.dels && q0.inflight[o].expireAtMs <= c.now
    requires Renewable(c.lease, q0.inflight[o], c.now)
    ensures var r := Renewed(q0.inflight[o], c.now, c.invisible);
            var b' := b.(sets := b.sets[o := r]);
            && o in v.q.inflight
            && Building(c, q0, q, a, b', Extended(v, o, r.expireAtMs), [])
            && (NoOrdered(v.q) <==> NoOrdered(Extended(v, o, r.expireAtMs).q))
  {
    hide Inv, Virtual, NoOrdered, Outcomes, Outs, Fresh, NewRecord, Deliveries, Tries, Backoff, Ordered, Numbered;
    hide DeadLettered;
    var r := Renewed(q0.inflight[o], c.now, c.invisible);
    VirtualRenewal(c, q, a, b, v, o, r);
    SetOne(c, q0, q, b, o, r);
    KeepOuts(c, q0, q, a, b, [], b.(sets := b.sets[o := r]));
  }

  lemma VirtualRedelivery(c: Call, q: Queue, a: Account, b: Batch, v: Point, out: seq<Out>, o: nat, r: Inflight)
    requires Virtual(c, q, a, b, v, out) && o in q.inflight && o !in b.sets && o !in b.dels && o in q.msgs
    requires r.attempts == q.inflight[o].attempts + 1 <= c.maxAttempts && r.ordered == q.inflight[o].ordered
    ensures o in v.q.inflight
    ensures Virtual(c, q, a, b.(sets := b.sets[o := r]), Redelivered(v, o, r, c.maxAttempts),
                    out + [Out(o, q.msgs[o], r.attempts)])
    ensures NoOrdered(v.q) <==> NoOrdered(Redelivered(v, o, r, c.maxAttempts).q)
  {
    hide Inv, NoOrdered, Tries, Numbered, Ordered, Backoff, Deliveries;
    var x := Out(o, q.msgs[o], r.attempts);
    assert v.q.inflight[o] == q.inflight[o];
    RedeliveredInv(v, o, r, c.maxAttempts);
    DeliveriesSnoc(out, x, c.maxAttempts);
    assert q.inflight + b.sets[o := r] - b.dels == (q.inflight + b.sets - b.dels)[o := r];
    assert a.hist + Deliveries(out, c.maxAttempts) + [Delivery(o, r.attempts, c.maxAttempts)]
        == a.hist + Deliveries(out + [x], c.maxAttempts);
  }

  lemma OutsRedelivery(c: Call, q0: Queue, q: Queue, a: Account, b: Batch, out: seq<Out>, o: nat, r: Inflight)
    requires Inv(Point(q, a)) && Outs(c, q0, q, a, b, out) && Touches(q0, q, b)
    requires o in q0.inflight && o in q.inflight && o !in b.sets && o in q.msgs
    requires r == NewRecord(c, q0.inflight[o].attempts + 1, q0.inflight[o].ordered)
    ensures Outs(c, q0, q, a, b.(sets := b.sets[o := r]), out + [Out(o, q.msgs[o], r.attempts)])
  {
    var b' := b.(sets := b.sets[o := r]);
    var x := Out(o, q.msgs[o], r.attempts);
    RecordFacts(Point(q, a), o);
    KeepOuts(c, q0, q, a, b, out, b');
    assert Fresh(c, q0, q, a, b', x) by {
      hide Inv, Tries, Ordered, Backoff;
    }
    NotOutYet(c, q0, q, a, b, out, o);
    AddOut(c, q0, q, a, b', out, x);
    hide Inv, Outs, Fresh, NewRecord, Tries;
  }

  lemma NotOutYet(c: Call, q0: Queue, q: Queue, a: Account, b: Batch, out: seq<Out>, o: nat)
    requires Outs(c, q0, q, a, b, out) && o !in b.sets
    ensures forall i :: 0 <= i < |out| ==> out[i].offset != o
  {
    hide Tries, NewRecord, Ordered;
    forall i | 0 <= i < |out|
      ensures out[i].offset != o
    {
      assert Fresh(c, q0, q, a, b, out[i]);
    }
  }

  lemma StageRedelivery(c: Call, q0: Queue, q: Queue, a: Account, b: Batch, v: Point, out: seq<Out>, o: nat)
    requires Inv(Point(q, a)) && Building(c, q0, q, a, b, v, out)
    requires o in q0.inflight && o in q.inflight && o !in b.sets && o !in b.dels
    requires Due(c, q0.inflight[o]) && o in q.msgs && q0.inflight[o].attempts < c.maxAttempts
    ensures var r := NewRecord(c, q0.inflight[o].attempts + 1, q0.inflight[o].ordered);
            var b' := b.(sets := b.sets[o := r]);
            && o in v.q.inflight
            && Building(c, q0, q, a, b', Redelivered(v, o, r, c.maxAttempts), out + [Out(o, q.msgs[o], r.attempts)])
            && (NoOrdered(v.q) <==> NoOrdered(Redelivered(v, o, r, c.maxAttempts).q))
  {
    hide Inv, Virtual, NoOrdered, Outcomes, Outs, Fresh, NewRecord, Deliveries, Tries, Backoff, Ordered, Numbered;
    hide DeadLettered;
    var r := NewRecord(c, q0.inflight[o].attempts + 1, q0.inflight[o].ordered);
    VirtualRedelivery(c, q, a, b, v, out, o, r);
    OutsRedelivery(c, q0, q, a, b, out, o, r);
    SetOne(c, q0, q, b, o, r);
  }

  lemma RecordFacts(p: Point, o: nat)
    requires Inv(p) && o in p.q.inflight
    ensures p.q.inflight[o].attempts == Tries(p.a.hist, o) >= 1 && o < p.q.cursor <= p.q.next
    ensures o in p.q.msgs ==> Ordered(p.q.msgs[o]) == p.q.inflight[o].ordered
    ensures o !in p.q.msgs ==> o in p.a.purged
  {
    hide Tries, Ordered;
  }

  lemma VirtualOrphan(c: Call, q: Queue, a: Account, b: Batch, v: Point, out: seq<Out>, o: nat)
    requires Virtual(c, q, a, b, v, out) && o in q.inflight && o !in b.sets && o !in b.dels && o !in q.msgs
    ensures Virtual(c, q, a, b.(dels := b.dels + {o}), Removed(v, o), out)
    ensures NoOrdered(Removed(v, o).q) <==> NoOrdered(v.q) || q.inflight[o].ordered
  {
    hide Inv, NoOrdered, Tries, Numbered, Ordered, Backoff, Deliveries;
    assert v.q.inflight[o] == q.inflight[o];
    RecordFacts(v, o);
    RemovedInv(v, o);
    OrphanBelow(v, o);
    assert q.inflight + b.sets - (b.dels + {o}) == q.inflight + b.sets - b.dels - {o};
  }

  lemma StageOrphan(c: Call, q0: Queue, q: Queue, a: Account, b: Batch, v: Point, out: seq<Out>, o: nat)
    requires Inv(Point(q, a)) && Building(c, q0, q, a, b, v, out)
    requires o in q0.inflight && o in q.inflight && o !in b.sets && o !in b.dels
    requires Due(c, q0.inflight[o]) && o !in q.msgs
    ensures Building(c, q0, q, a, b.(dels := b.dels + {o}), Removed(v, o), out)
    ensures NoOrdered(Removed(v, o).q) <==> NoOrdered(v.q) || q0.inflight[o].ordered
  {
    hide Inv, Virtual, NoOrdered, Outcomes, Outs, Fresh, NewRecord, Deliveries, Tries, Backoff, Ordered, Numbered;
    hide DeadLettered;
    RecordFacts(Point(q, a), o);
    VirtualOrphan(c, q, a, b, v, out, o);
    KeepOuts(c, q0, q, a, b, out, b.(dels := b.dels + {o}));
    OrphanOutcomes(c, q0, q, b, o);
  }

  lemma OrphanOutcomes(c: Call, q0: Queue, q: Queue, b: Batch, o: nat)
    requires Touches(q0, q, b) && Outcomes(c, q0, q, b) && o in q0.inflight && o !in b.sets
    requires Due(c, q0.inflight[o]) && o !in q.msgs
    ensures Outcomes(c, q0, q, b.(dels := b.dels + {o}))
  {
    hide Backoff, Ordered, DeadLettered, NewRecord, Renewable;
    forall e | e in q0.inflight
      ensures Outcome(c, q0, q, b.(dels := b.dels + {o}), e)
    {
      assert Outcome(c, q0, q, b, e);
    }
  }

  lemma OrphanBelow(p: Point, o: nat)
    ensures NoOrdered(p.q) ==> NoOrdered(Removed(p, o).q)
  {
  }

  // ----- dead letters: two commits outside the batch -----

  ghost predicate Untouched(q: Queue, b: Batch, o: nat) {
    o in q.inflight && o !in b.sets && o !in b.dels
  }

  /** First phase: the dead letter is stored while the record is still there. */
  lemma StageDead(c: Call, q0: Queue, q: Queue, a: Account, b: Batch, v: Point, out: seq<Out>, o: nat, attempts: nat)
    requires Building(c, q0, q, a, b, v, out) && o in q.msgs
    ensures o in v.q.msgs
    ensures Building(c, q0, DeadAppended(Point(q, a), o, attempts).q, a, b, DeadAppended(v, o, attempts), out)
    ensures NoOrdered(DeadAppended(v, o, attempts).q) <==> NoOrdered(v.q)
  {
    hide Inv, NoOrdered, Outcomes, Outs, Fresh, NewRecord, Deliveries, Tries, Backoff, Ordered, Numbered, DeadLettered;
    var n := DeadAppended(Point(q, a), o, attempts).q;
    DeadAppendedInv(v, o, attempts);
    DeadKeepsOutcomes(c, q0, q, b, n);
    DeadKeepsOuts(c, q0, q, a, b, out, n);
  }

  lemma DeadKeepsOutcomes(c: Call, q0: Queue, q: Queue, b: Batch, n: Queue)
    requires Outcomes(c, q0, q, b) && n == q.(dlq := n.dlq) && q.dlq <= n.dlq
    ensures Outcomes(c, q0, n, b)
  {
    hide Backoff, Ordered, NewRecord, Renewable;
    forall e | e in q0.inflight
      ensures Outcome(c, q0, n, b, e)
    {
      assert Outcome(c, q0, q, b, e);
      if DeadLettered(q, e) {
        var i :| 0 <= i < |q.dlq| && q.dlq[i].origin == e;
        assert n.dlq[i].origin == e;
      }
    }
  }

  lemma DeadKeepsOuts(c: Call, q0: Queue, q: Queue, a: Account, b: Batch, out: seq<Out>, n: Queue)
    requires Outs(c, q0, q, a, b, out) && n.msgs == q.msgs
    ensures Outs(c, q0, n, a, b, out)
  {
    hide Tries, NewRecord, Ordered;
    forall i | 0 <= i < |out|
      ensures Fresh(c, q0, n, a, b, out[i])
    {
      assert Fresh(c, q0, q, a, b, out[i]);
    }
  }

  /** Second phase: the record goes, in a batch of its own. */
  lemma StageDeadDone(c: Call, q0: Queue, q: Queue, a: Account, b: Batch, v: Point, out: seq<Out>, o: nat)
    requires Building(c, q0, q, a, b, v, out) && Untouched(q, b, o) && o in q0.inflight && DeadLettered(q, o)
    requires Due(c, q0.inflight[o]) && o in q.msgs && q0.inflight[o].attempts >= c.maxAttempts
    ensures Building(c, q0, q.(inflight := q.inflight - {o}), a, b, Removed(v, o), out)
    ensures NoOrdered(Removed(v, o).q) <==> NoOrdered(v.q) || q0.inflight[o].ordered
  {
    hide Inv, Virtual, NoOrdered, Outcomes, Outs, Fresh, NewRecord, Deliveries, Tries, Backoff, Ordered, Numbered;
    hide DeadLettered;
    var n := q.(inflight := q.inflight - {o});
    VirtualDeadDone(c, q, a, b, v, out, o);
    DeadDoneOutcomes(c, q0, q, b, o);
    DeadKeepsOuts(c, q0, q, a, b, out, n);
  }

  lemma VirtualDeadDone(c: Call, q: Queue, a: Account, b: Batch, v: Point, out: seq<Out>, o: nat)
    requires Virtual(c, q, a, b, v, out) && Untouched(q, b, o) && DeadLettered(q, o)
    ensures Virtual(c, q.(inflight := q.inflight - {o}), a, b, Removed(v, o), out)
    ensures NoOrdered(Removed(v, o).q) <==> NoOrdered(v.q) || q.inflight[o].ordered
  {
    hide Inv, NoOrdered, Tries, Numbered, Ordered, Backoff, Deliveries;
    assert v.q.inflight[o] == q.inflight[o];
    assert Finished(v, o);
    RemovedInv(v, o);
    OrphanBelow(v, o);
    assert (q.inflight - {o}) + b.sets - b.dels == q.inflight + b.sets - b.dels - {o};
  }

  lemma DeadDoneOutcomes(c: Call, q0: Queue, q: Queue, b: Batch, o: nat)
    requires Touches(q0, q, b) && Outcomes(c, q0, q, b) && Untouched(q, b, o) && o in q0.inflight && DeadLettered(q, o)
    requires Due(c, q0.inflight[o]) && o in q.msgs && q0.inflight[o].attempts >= c.maxAttempts
    ensures Outcomes(c, q0, q.(inflight := q.inflight - {o}), b)
  {
    hide Backoff, Ordered, NewRecord, Renewable;
    var n := q.(inflight := q.inflight - {o});
    forall e | e in q0.inflight
      ensures Outcome(c, q0, n, b, e)
    {
      assert Outcome(c, q0, q, b, e);
      assert DeadLettered(q, e) ==> DeadLettered(n, e);
    }
  }

  // ----- new messages -----

  lemma StageSkip(c: Call, q0: Queue, q: Queue, a: Account, b: Batch, v: Point, out: seq<Out>, o: nat)
    requires Building(c, q0, q, a, b, v, out) && NextStored(v, o)
    ensures Building(c, q0, q, a, b.(cursor := o + 1), Skipped(v, o), out)
    ensures NoOrdered(Skipped(v, o).q) <==> NoOrdered(v.q)
  {
    hide Inv, NoOrdered, Outcomes, Outs, Fresh, NewRecord, Deliveries, Tries, Backoff, Ordered, Numbered, DeadLettered;
    SkippedInv(v, o);
    KeepOuts(c, q0, q, a, b, out, b.(cursor := o + 1));
    CursorOutcomes(c, q0, q, b, o + 1);
  }

  lemma CursorOutcomes(c: Call, q0: Queue, q: Queue, b: Batch, cursor: nat)
    requires Outcomes(c, q0, q, b)
    ensures Outcomes(c, q0, q, b.(cursor := cursor))
  {
    hide Backoff, Ordered, NewRecord, Renewable, DeadLettered;
    forall e | e in q0.inflight
      ensures Outcome(c, q0, q, b.(cursor := cursor), e)
    {
      assert Outcome(c, q0, q, b, e);
    }
  }

  lemma StageDelivery(c: Call, q0: Queue, q: Queue, a: Account, b: Batch, v: Point, out: seq<Out>, o: nat)
    requires Inv(Point(q, a)) && Inv(Point(q0, a)) && Building(c, q0, q, a, b, v, out) && NextStored(v, o)
    requires Ordered(q.msgs[o]) ==> NoOrdered(v.q)
    ensures var r := NewRecord(c, 1, Ordered(q.msgs[o]));
            var n := Delivered(v, o, r, c.maxAttempts);
            && Building(c, q0, q, a, b.(sets := b.sets[o := r], cursor := o + 1), n, out + [Out(o, q.msgs[o], 1)])
            && (NoOrdered(n.q) <==> NoOrdered(v.q) && !r.ordered)
  {
    hide Inv, Virtual, NoOrdered, Outcomes, Outs, Fresh, NewRecord, Tries, Backoff, Ordered, Numbered, DeadLettered;
    NewOffset(c, q0, q, a, b, v, out, o);
    var r := NewRecord(c, 1, Ordered(q.msgs[o]));
    var b' := b.(sets := b.sets[o := r], cursor := o + 1);
    VirtualDelivery(c, q, a, b, v, out, o, r);
    KeepOuts(c, q0, q, a, b, out, b');
    OutsDelivery(c, q0, q, a, b', out, o, r);
    DeliveryOutcomes(c, q0, q, b, o, r);
  }

  /** An offset at or above the cursor has no record anywhere and was never delivered. */
  lemma NewOffset(c: Call, q0: Queue, q: Queue, a: Account, b: Batch, v: Point, out: seq<Out>, o: nat)
    requires Inv(Point(q, a)) && Inv(Point(q0, a)) && Building(c, q0, q, a, b, v, out) && NextStored(v, o)
    ensures o !in q.inflight && o !in q0.inflight && o !in b.dels && o >= q0.cursor && o >= b.cursor && o in q.msgs
    ensures Tries(a.hist, o) == 0
    ensures o !in b.sets
    ensures forall i :: 0 <= i < |out| ==> out[i].offset != o
  {
    hide Tries, Ordered, Numbered, Backoff, Outcomes, Finished, NewRecord;
    assert o in b.sets ==> o in v.q.inflight;
    forall i | 0 <= i < |out|
      ensures out[i].offset != o
    {
      assert Fresh(c, q0, q, a, b, out[i]);
    }
  }

  lemma VirtualDelivery(c: Call, q: Queue, a: Account, b: Batch, v: Point, out: seq<Out>, o: nat, r: Inflight)
    requires Virtual(c, q, a, b, v, out) && NextStored(v, o) && o in q.msgs && o !in b.dels
    requires r.attempts == 1 && r.ordered == Ordered(q.msgs[o]) && (r.ordered ==> NoOrdered(v.q))
    ensures Virtual(c, q, a, b.(sets := b.sets[o := r], cursor := o + 1), Delivered(v, o, r, c.maxAttempts),
                    out + [Out(o, q.msgs[o], 1)])
    ensures NoOrdered(Delivered(v, o, r, c.maxAttempts).q) <==> NoOrdered(v.q) && !r.ordered
  {
    hide Inv, NoOrdered, Tries, Numbered, Ordered, Backoff, Deliveries;
    var x := Out(o, q.msgs[o], 1);
    DeliveredInv(v, o, r, c.maxAttempts);
    DeliveriesSnoc(out, x, c.maxAttempts);
    assert q.inflight + b.sets[o := r] - b.dels == (q.inflight + b.sets - b.dels)[o := r];
    assert a.hist + Deliveries(out, c.maxAttempts) + [Delivery(o, 1, c.maxAttempts)]
        == a.hist + Deliveries(out + [x], c.maxAttempts);
  }

  lemma OutsDelivery(c: Call, q0: Queue, q: Queue, a: Account, b: Batch, out: seq<Out>, o: nat, r: Inflight)
    requires Outs(c, q0, q, a, b, out) && Tries(a.hist, o) == 0 && o in q.msgs && o in b.sets && b.sets[o] == r
    requires r == NewRecord(c, 1, Ordered(q.msgs[o])) && q0.cursor <= o < b.cursor
    requires forall i :: 0 <= i < |out| ==> out[i].offset != o
    ensures Outs(c, q0, q, a, b, out + [Out(o, q.msgs[o], 1)])
  {
    var x := Out(o, q.msgs[o], 1);
    assert Fresh(c, q0, q, a, b, x) by {
      hide Tries, Ordered;
    }
    AddOut(c, q0, q, a, b, out, x);
    hide Outs, Fresh, NewRecord, Tries, Ordered;
  }

  lemma DeliveryOutcomes(c: Call, q0: Queue, q: Queue, b: Batch, o: nat, r: Inflight)
    requires Outcomes(c, q0, q, b) && o !in q0.inflight
    ensures Outcomes(c, q0, q, b.(sets := b.sets[o := r], cursor := o + 1))
  {
    hide Backoff, Ordered, NewRecord, Renewable, DeadLettered;
    forall e | e in q0.inflight
      ensures Outcome(c, q0, q, b.(sets := b.sets[o := r], cursor := o + 1), e)
    {
      assert Outcome(c, q0, q, b, e);
    }
  }

  lemma LaterWithOut(c: Call, q: Queue, a: Account, b: Batch, v: Point, out: seq<Out>)
    requires Virtual(c, q, a, b, v, out)
    ensures Later(Point(q, a), v)
  {
    hide Tries, Inv, Deliveries;
    forall o: nat
      ensures Tries(a.hist, o) <= Tries(v.a.hist, o)
    {
      TriesWithOut(a.hist, out, c.maxAttempts, o);
    }
  }

  /** Numbers handed out in one batch are new: each is one past every delivery of its offset made before. */
  lemma {:induction false} OutIsNew(c: Call, q0: Queue, q: Queue, a: Account, b: Batch, v: Point, out: seq<Out>, i: nat)
    requires Building(c, q0, q, a, b, v, out) && i < |out|
    ensures out[i].attempt == Tries(a.hist, out[i].offset) + 1 == Tries(v.a.hist, out[i].offset)
  {
    hide Tries, Inv, Deliveries, Outcomes, Touches, NewRecord;
    assert Fresh(c, q0, q, a, b, out[i]);
    OutCounted(a.hist, out, c.maxAttempts, i);
  }

  lemma {:induction false} OutCounted(h: seq<Delivery>, out: seq<Out>, limit: nat, i: nat)
    requires i < |out| && forall j, k :: 0 <= j < k < |out| ==> out[j].offset != out[k].offset
    ensures Tries(h + Deliveries(out, limit), out[i].offset) == Tries(h, out[i].offset) + 1
  {
    hide Tries;
    var n := |out| - 1;
    var o := out[i].offset;
    var d := Delivery(out[n].offset, out[n].attempt, limit);
    assert h + Deliveries(out, limit) == h + Deliveries(out[..n], limit) + [d];
    TriesSnoc(h + Deliveries(out[..n], limit), d, o);
    if i < n {
      OutCounted(h, out[..n], limit, i);
    } else {
      TriesWithOut(h, out[..n], limit, o);
    }
  }

  /**
   * What callers were told: the (offset, number) pairs handed to consumers, the offsets confirmed to them as
   * acknowledged, and the messages confirmed to producers as stored.
   */
  datatype Told = Told(hands: set<(nat, nat)>, acks: set<nat>, sent: map<nat, Message>)

  function Both(x: Told, y: Told): Told {
    Told(x.hands + y.hands, x.acks + y.acks, x.sent + y.sent)
  }

  const NOTHING := Told({}, {}, map[])

  /** What was told is in this state. */
  ghost predicate Keeps(p: Point, t: Told) {
    && t.acks <= p.a.acked
    && (forall h :: h in t.hands ==> 1 <= h.1 <= Tries(p.a.hist, h.0))
    && (forall o :: o in t.sent ==> o < |p.a.sent| && p.a.sent[o] == t.sent[o])
  }

  lemma KeepsLater(x: Point, y: Point, t: Told)
    requires Keeps(x, t) && Later(x, y)
    ensures Keeps(y, t)
  {
    hide Tries;
    forall h | h in t.hands
      ensures 1 <= h.1 <= Tries(y.a.hist, h.0)
    {
      assert Tries(x.a.hist, h.0) <= Tries(y.a.hist, h.0);
    }
  }

  lemma KeepsBoth(p: Point, x: Told, y: Told)
    requires Keeps(p, x) && Keeps(p, y)
    ensures Keeps(p, Both(x, y))
  {
    hide Tries;
  }

  lemma LaterRefl(x: Point, y: Point)
    requires x.a.hist == y.a.hist && x.a.acked <= y.a.acked && x.a.sent <= y.a.sent
    ensures Later(x, y)
  {
  }

  /** The numbers a batch hands out are in none of the promises made so far, given or still waited for. */
  lemma HandOut(c: Call, q0: Queue, q: Queue, a: Account, b: Batch, v: Point, out: seq<Out>, t: Told)
    requires Building(c, q0, q, a, b, v, out) && Keeps(Point(q, a), t)
    ensures HandedBy(out) !! t.hands
    ensures Keeps(v, Told(HandedBy(out), {}, map[]))
  {
    hide Tries, Inv, Deliveries, Outcomes, Touches, NewRecord, Outs, Virtual;
    forall i | 0 <= i < |out|
      ensures (out[i].offset, out[i].attempt) !in t.hands
      ensures 1 <= out[i].attempt <= Tries(v.a.hist, out[i].offset)
    {
      OutIsNew(c, q0, q, a, b, v, out, i);
    }
  }

  /** One more dead letter, the message of `o` with all but its message group, and one record less; nothing else. */
  ghost predicate Lettered(was: Queue, now: Queue, o: nat, attempts: nat)
    requires o in was.msgs
  {
    && |now.dlq| == |was.dlq| + 1 && was.dlq <= now.dlq
    && (var d, m := now.dlq[|was.dlq|], was.msgs[o];
        && d.origin == o && d.attempts == attempts
        && d.message.id == m.id && d.message.tag == m.tag && d.message.keys == m.keys && d.message.props == m.props
        && d.message.body == m.body && d.message.messageGroup == "")
    && now.inflight == was.inflight - {o}
    && now.msgs == was.msgs && now.next == was.next && now.cursor == was.cursor
  }

  ghost function HandedBy(out: seq<Out>): set<(nat, nat)> {
    set i | 0 <= i < |out| :: (out[i].offset, out[i].attempt)
  }

  /** Of the records seen, those a call renews: every expired one whose owner still holds it. */
  ghost predicate PicksRenewals(c: Call, q: Queue, renews: seq<nat>, seen: set<nat>) {
    && (forall i, j :: 0 <= i < j < |renews| ==> renews[i] != renews[j])
    && (forall o :: o in renews <==>
          o in seen && o in q.inflight && q.inflight[o].expireAtMs <= c.now && Renewable(c.lease, q.inflight[o], c.now))
  }

  /** ... and those it redelivers: the due ones lowest in offset, as many as the budget allows. */
  ghost predicate PicksReds(c: Call, q: Queue, reds: seq<nat>, seen: set<nat>) {
    && (forall i, j :: 0 <= i < j < |reds| ==> reds[i] < reds[j])
    && (forall o :: o in reds ==> o in seen && o in q.inflight && Due(c, q.inflight[o]))
    && |reds| <= (if c.maxMsgs < 0 then 0 else c.maxMsgs)
    && (forall o :: o in seen && o in q.inflight && Due(c, q.inflight[o]) && o !in reds ==>
          |reds| >= c.maxMsgs && forall i :: 0 <= i < |reds| ==> reds[i] < o)
  }

  lemma RenewalSeen(c: Call, q: Queue, renews: seq<nat>, seen: set<nat>, o: nat)
    requires PicksRenewals(c, q, renews, seen) && o in q.inflight && o !in seen
    ensures var due := q.inflight[o].expireAtMs <= c.now && Renewable(c.lease, q.inflight[o], c.now);
            PicksRenewals(c, q, if due then renews + [o] else renews, seen + {o})
  {
    hide Renewable;
  }

  lemma RedSeen(c: Call, q: Queue, reds: seq<nat>, seen: set<nat>, o: nat)
    requires PicksReds(c, q, reds, seen) && o in q.inflight && forall e :: e in seen ==> e < o
    ensures var due := Due(c, q.inflight[o]) && |reds| < c.maxMsgs;
            PicksReds(c, q, if due then reds + [o] else reds, seen + {o})
  {
    hide Renewable;
    var due := Due(c, q.inflight[o]) && |reds| < c.maxMsgs;
    var r := if due then reds + [o] else reds;
    forall e | e in r
      ensures e in seen + {o} && e in q.inflight && Due(c, q.inflight[e])
    {
      if e in reds {
      } else {
        assert e == o;
      }
    }
    forall i, j | 0 <= i < j < |r|
      ensures r[i] < r[j]
    {
      assert r[i] in reds;
    }
    forall e | e in seen + {o} && e in q.inflight && Due(c, q.inflight[e]) && e !in r
      ensures |r| >= c.maxMsgs && forall i :: 0 <= i < |r| ==> r[i] < e
    {
      assert e !in reds by {
        assert forall x :: x in reds ==> x in r;
      }
      if e == o {
        assert forall i :: 0 <= i < |reds| ==> reds[i] in reds;
      }
    }
    hide Due;
  }

  /** The index in the log of the state an operation left, and what its caller is told once that is on disk. */
  datatype Ticket = Ticket(at: nat, what: Told)

  class Deliverer {
    const io: Io
    var q: Queue
    ghost var a: Account
    /** Every state committed since the last restart; a crash falls back to one at or after `durable`. */
    ghost var log: seq<Point>
    ghost var durable: nat
    ghost var told: Told
    /** Operations whose batch is applied and whose caller still waits, outside the queue lock, for it to be on disk. */
    var issued: nat
    ghost var pending: map<nat, Ticket>

    ghost function Now(): Point
      reads this
    {
      Point(q, a)
    }

    ghost predicate Valid()
      reads this
    {
      && 0 < |log| && durable < |log| && log[|log| - 1] == Now()
      && (forall i :: 0 <= i < |log| ==> Inv(log[i]))
      && (forall i :: durable <= i < |log| ==> Keeps(log[i], told))
      && Tickets()
    }

    /**
     * What a waiting operation will tell its caller is true from its batch on, and no two hand out the same delivery.
     */
    ghost predicate Tickets()
      reads this
    {
      && (forall t :: t in pending ==> t < issued && pending[t].at < |log| && pending[t].what.hands !! told.hands)
      && (forall t, i :: t in pending && pending[t].at <= i < |log| ==> Keeps(log[i], pending[t].what))
      && (forall t, u :: t in pending && u in pending && t != u ==> pending[t].what.hands !! pending[u].what.hands)
    }

    constructor (io: Io)
      ensures this.io == io
      ensures Valid() && q == Queue(map[], 0, 0, map[], []) && told == NOTHING && pending == map[]
    {
      this.io := io;
      q, a := Queue(map[], 0, 0, map[], []), Account([], {}, {}, {}, []);
      log, durable := [Point(Queue(map[], 0, 0, map[], []), Account([], {}, {}, {}, []))], 0;
      told, issued, pending := NOTHING, 0, map[];
    }

    /**
     * What every reachable state, before or after any crash, owes its callers: nothing below the cursor is lost, at
     * most one ordered message is outstanding, what a consumer was told is acknowledged is never inflight again, and
     * what a producer was told is stored is there as it was sent until retention removes it, and a dead letter made of
     * it has its content.
     */
    lemma EveryReachableState(i: nat, o: nat)
      requires Valid() && i < |log|
      ensures o < log[i].q.cursor ==> o in log[i].q.inflight || Finished(log[i], o)
      ensures var r := log[i].q.inflight;
              forall e :: e in r && o in r && r[e].ordered && r[o].ordered ==> e == o
      ensures i >= durable && o in told.acks ==> o in log[i].a.acked && o !in log[i].q.inflight
      ensures i >= durable && o in told.sent ==>
                o in log[i].a.purged || (o in log[i].q.msgs && log[i].q.msgs[o] == told.sent[o])
      ensures i >= durable && o in told.sent ==>
                forall k :: 0 <= k < |log[i].q.dlq| && log[i].q.dlq[k].origin == o ==>
                  var d, m := log[i].q.dlq[k].message, told.sent[o];
                  && d.id == m.id && d.tag == m.tag && d.keys == m.keys && d.props == m.props && d.body == m.body
                  && d.messageGroup == ""
    {
      hide Finished;
      assert Inv(log[i]);
      if i >= durable {
        assert Keeps(log[i], told);
      }
    }

    /** ApplyAsync: the batch is visible in order, but not yet on disk. */
    method Apply(n: Queue, ghost na: Account) returns (ok: bool)
      requires Valid() && Inv(Point(n, na)) && Later(Now(), Point(n, na))
      modifies `q, `a, `log, io
      ensures io.failed >= old(io.failed) + if !ok then 1 else 0
      ensures Valid()
      ensures if ok then Now() == Point(n, na) && log == old(log) + [Now()] else Now() == old(Now()) && log == old(log)
    {
      hide Inv, Keeps, Later;
      ok := io.Try();
      if ok {
        KeepsLater(Now(), Point(n, na), told);
        forall t | t in pending
          ensures Keeps(Point(n, na), pending[t].what)
        {
          KeepsLater(Now(), Point(n, na), pending[t].what);
        }
        q, a := n, na;
        log := log + [Point(n, na)];
      }
    }

    /** Wait: on success everything applied so far survives a crash. */
    method Wait() returns (ok: bool)
      requires Valid()
      modifies `durable, io
      ensures io.failed >= old(io.failed) + if !ok then 1 else 0
      ensures Valid() && durable == if ok then |log| - 1 else old(durable)
    {
      hide Inv, Keeps;
      ok := io.Try();
      durable := if ok then |log| - 1 else durable;
    }

    /** Apply and wait, as the dead-letter phases do. */
    method ApplySync(n: Queue, ghost na: Account) returns (ok: bool)
      requires Valid() && Inv(Point(n, na)) && Later(Now(), Point(n, na))
      modifies `q, `a, `log, `durable, io
      ensures io.failed >= old(io.failed) + if !ok then 1 else 0
      ensures Valid() && (ok ==> Now() == Point(n, na) && durable == |log| - 1)
      ensures Now() == Point(n, na) || Now() == old(Now())
      ensures log == old(log) || log == old(log) + [Now()]
      ensures durable == old(durable) || durable == |log| - 1
    {
      hide Inv, Keeps, Later;
      ok := Apply(n, na);
      if ok {
        ok := Wait();
      }
    }

    /** An operation leaves the lock with its batch applied; `what` is what its caller will be told. */
    method Issue(ghost what: Told) returns (t: nat)
      requires Valid() && Keeps(Now(), what) && what.hands !! told.hands
      requires forall u :: u in pending ==> what.hands !! pending[u].what.hands
      modifies `issued, `pending
      ensures Valid() && t !in old(pending) && pending == old(pending)[t := Ticket(|log| - 1, what)]
    {
      hide Inv, Keeps;
      t, issued := issued, issued + 1;
      pending := pending[t := Ticket(|log| - 1, what)];
    }

    /**
     * The wait outside the lock, however many other operations and crashes came first: on success the batch and all
     * before it survive a crash and the caller is told; on an error it is told nothing.
     */
    method Settle(t: nat) returns (ok: bool)
      requires Valid() && t in pending
      modifies `durable, `told, `pending, io
      ensures io.failed >= old(io.failed) + if !ok then 1 else 0
      ensures Valid() && pending == old(pending) - {t}
      ensures old(pending)[t].what.hands !! old(told).hands
      ensures ok ==> told == Both(old(told), old(pending)[t].what)
      ensures ok ==> old(pending)[t].at <= durable && old(durable) <= durable
      ensures !ok ==> told == old(told) && durable == old(durable)
    {
      hide Inv, Keeps;
      ok := io.Try();
      if ok {
        ghost var k := pending[t];
        ghost var from := if durable < k.at then k.at else durable;
        forall i | from <= i < |log|
          ensures Keeps(log[i], Both(told, k.what))
        {
          KeepsBoth(log[i], told, k.what);
        }
        durable, told := from, Both(told, k.what);
      }
      pending := pending - {t};
    }

    method Produce(m: Message) returns (ok: bool, t: nat)
      requires Valid()
      modifies `q, `a, `log, `issued, `pending, io
      ensures io.failed >= old(io.failed) + if !ok then 1 else 0
      ensures Valid()
      ensures ok ==>
                && Now() == Appended(old(Now()), m) && t !in old(pending)
                && q == old(q).(msgs := old(q).msgs[old(q).next := m], next := old(q).next + 1)
                && pending == old(pending)[t := Ticket(|log| - 1, NOTHING.(sent := map[old(q.next) := m]))]
      ensures !ok ==> Now() == old(Now()) && pending == old(pending)
    {
      hide Inv, Keeps, Later, Valid;
      NowInv();
      AppendedInv(Now(), m);
      LaterAppended(Now(), m);
      ghost var n := Appended(Now(), m);
      ghost var at := q.next;
      ok := Apply(q.(msgs := q.msgs[q.next := m], next := q.next + 1), n.a);
      t := 0;
      if ok {
        t := Issue(NOTHING.(sent := map[at := m]));
      }
    }

    method Retain(gone: set<nat>) returns (ok: bool)
      requires Valid()
      modifies `q, `a, `log, `durable, io
      ensures io.failed >= old(io.failed) + if !ok then 1 else 0
      ensures Valid() && (ok ==> Now() == Purged(old(Now()), gone))
      ensures Now() == Purged(old(Now()), gone) || Now() == old(Now())
      ensures ok ==> q == old(q).(msgs := old(q).msgs - gone) && durable == |log| - 1
    {
      hide Inv, Keeps, Later;
      PurgedInv(Now(), gone);
      LaterRefl(Now(), Purged(Now(), gone));
      ghost var n := Purged(Now(), gone);
      ok := ApplySync(q.(msgs := q.msgs - gone), n.a);
    }

    /** A crash: some committed state from the last durable one on; whoever was waiting is told nothing. */
    method Crash(ghost at: nat, n: Queue)
      requires Valid() && durable <= at < |log| && n == log[at].q
      modifies `q, `a, `log, `durable, `pending
      ensures Valid() && Now() == old(log[at]) && pending == map[]
    {
      hide Inv, Keeps;
      q, a := n, log[at].a;
      log, durable, pending := [log[at]], 0, map[];
    }

    // ----- receive -----

    /** Phase 1: which expired records to renew and which to redeliver, and whether an ordered one is outstanding. */
    method ScanInflight(c: Call) returns (reds: seq<nat>, renews: seq<nat>, orderedBusy: bool)
      ensures PicksRenewals(c, q, renews, q.inflight.Keys) && PicksReds(c, q, reds, q.inflight.Keys)
      ensures orderedBusy <==> !NoOrdered(q)
    {
      hide Renewable, PicksRenewals, PicksReds;
      reds, renews, orderedBusy := [], [], false;
      var offs := InOrder(q.inflight.Keys);
      ghost var seen: set<nat> := {};
      NothingPicked(c, q);
      var i := 0;
      while i < |offs|
        invariant 0 <= i <= |offs|
        invariant forall o :: o in seen <==> o in offs[..i]
        invariant PicksRenewals(c, q, renews, seen) && PicksReds(c, q, reds, seen)
        invariant orderedBusy <==> exists k :: 0 <= k < i && q.inflight[offs[k]].ordered
      {
        var o := offs[i];
        var r := q.inflight[o];
        if r.ordered {
          orderedBusy := true;
        }
        RenewalSeen(c, q, renews, seen, o);
        RedSeen(c, q, reds, seen, o);
        if r.expireAtMs <= c.now {
          if Renewable(c.lease, r, c.now) {
            renews := renews + [o];
          } else if |reds| < c.maxMsgs {
            reds := reds + [o];
          }
        }
        seen := seen + {o};
        assert offs[..i + 1] == offs[..i] + [o];
        i := i + 1;
      }
      assert offs[..i] == offs;
      assert seen == q.inflight.Keys;
      AllScanned(q, offs, orderedBusy);
    }

    /** Phase 1.5: renewals, which keep number and ordered flag and never pass the record's own limit. */
    method StageRenewals(c: Call, renews: seq<nat>) returns (b: Batch, ghost v: Point)
      requires Valid() && PicksRenewals(c, q, renews, q.inflight.Keys)
      ensures Building(c, q, q, a, b, v, []) && b.dels == {} && b.cursor == q.cursor
      ensures forall o :: o in b.sets <==> o in renews
      ensures NoOrdered(v.q) <==> NoOrdered(q)
    {
      hide Inv, NoOrdered, Building, Renewable, Keeps;
      b, v := Batch(map[], {}, q.cursor), Now();
      BuildingStart(c, q, a);
      var i := 0;
      while i < |renews|
        invariant 0 <= i <= |renews|
        invariant Building(c, q, q, a, b, v, []) && b.dels == {} && b.cursor == q.cursor
        invariant forall o :: o in b.sets <==> o in renews[..i]
        invariant NoOrdered(v.q) <==> NoOrdered(q)
      {
        var o := renews[i];
        assert o in renews;
        var r := Renewed(q.inflight[o], c.now, c.invisible);
        StageRenewal(c, q, q, a, b, v, o);
        b := b.(sets := b.sets[o := r]);
        v := Extended(v, o, r.expireAtMs);
        assert renews[..i + 1] == renews[..i] + [o];
        i := i + 1;
      }
      assert renews[..i] == renews;
    }

    /**
     * moveToDLQ: the dead letter first, the record second, each in a batch of its own that is waited for. A record is
     * not deleted before its dead letter is durable.
     */
    method MoveToDLQ(o: nat) returns (ok: bool)
      requires Valid() && o in q.inflight && o in q.msgs
      modifies `q, `a, `log, `durable, io
      ensures io.failed >= old(io.failed) + if !ok then 1 else 0
      ensures Valid() && a == old(a)
      ensures ok ==> Now() == Removed(DeadAppended(old(Now()), o, old(q).inflight[o].attempts), o)
      ensures ok ==> Lettered(old(q), q, o, old(q).inflight[o].attempts) && durable == |log| - 1
      ensures o !in q.inflight ==> durable < |log| && log[durable].q.dlq == q.dlq
      ensures Now() == old(Now()) || Now() == DeadAppended(old(Now()), o, old(q).inflight[o].attempts)
           || Now() == Removed(DeadAppended(old(Now()), o, old(q).inflight[o].attempts), o)
    {
      hide Inv, Keeps, Later;
      var m := q.msgs[o];
      ghost var d := DeadAppended(Now(), o, q.inflight[o].attempts);
      NowInv();
      DeadAppendedInv(Now(), o, q.inflight[o].attempts);
      LaterRefl(Now(), d);
      ok := ApplySync(q.(dlq := q.dlq + [Dead(o, q.inflight[o].attempts, m.(messageGroup := ""))]), a);
      if ok {
        RemovedInv(d, o);
        LaterRefl(d, Removed(d, o));
        ok := ApplySync(q.(inflight := q.inflight - {o}), a);
      }
    }

    lemma NowInv()
      requires Valid()
      ensures Inv(Now()) && Keeps(Now(), told)
    {
      hide Inv, Keeps;
      assert Inv(log[|log| - 1]) && Keeps(log[|log| - 1], told);
    }

    /** Phase 1 continued: clean up orphans, dead-letter what is exhausted, redeliver the rest. */
    method StageReds(c: Call, reds: seq<nat>, b0: Batch, ghost v0: Point, busy0: bool, ghost q0: Queue)
      returns (ok: bool, b: Batch, out: seq<Out>, busy: bool, ghost v: Point)
      requires Valid() && q == q0 && Building(c, q0, q0, a, b0, v0, []) && PicksReds(c, q0, reds, q0.inflight.Keys)
      requires forall o :: o in reds ==> Untouched(q, b0, o)
      requires busy0 <==> !NoOrdered(v0.q)
      modifies `q, `a, `log, `durable, io
      ensures io.failed >= old(io.failed) + if !ok then 1 else 0
      ensures Valid() && a == old(a)
      ensures ok ==> Building(c, q0, q, a, b, v, out) && |out| <= |reds|
      ensures ok ==> b.cursor == b0.cursor && q.cursor == old(q.cursor)
      ensures ok ==> (busy <==> !NoOrdered(v.q))
      ensures ok ==> forall o :: Untouched(q, b, o) <==> o !in reds && Untouched(q0, b0, o)
      ensures ok ==> Rising(out)
    {
      hide Inv, NoOrdered, Building, Renewable, Keeps, NewRecord, DeadLettered, Later;
      b, out, busy, v, ok := b0, [], busy0, v0, true;
      var i := 0;
      while i < |reds|
        invariant 0 <= i <= |reds| && |out| <= i && b.cursor == b0.cursor && q.cursor == old(q.cursor)
        invariant Valid() && a == old(a) && ok && io.failed >= old(io.failed)
        invariant Building(c, q0, q, a, b, v, out)
        invariant forall k :: i <= k < |reds| ==> Untouched(q, b, reds[k]) && reds[k] in q0.inflight
        invariant forall o :: Untouched(q, b, o) <==> o !in reds[..i] && Untouched(q0, b0, o)
        invariant busy <==> !NoOrdered(v.q)
        invariant Rising(out) && forall k :: 0 <= k < |out| ==> out[k].offset in reds[..i]
      {
        var o := reds[i];
        assert o in reds;
        assert reds[..i + 1] == reds[..i] + [o];
        ok, b, out, busy, v := StageRed(c, o, b, out, busy, v, q0);
        if !ok {
          return;
        }
        i := i + 1;
      }
      assert reds[..i] == reds;
    }

    method StageRed(c: Call, o: nat, b0: Batch, out0: seq<Out>, busy0: bool, ghost v0: Point, ghost q0: Queue)
      returns (ok: bool, b: Batch, out: seq<Out>, busy: bool, ghost v: Point)
      requires Valid() && Building(c, q0, q, a, b0, v0, out0) && Untouched(q, b0, o)
      requires o in q0.inflight && Due(c, q0.inflight[o]) && (busy0 <==> !NoOrdered(v0.q))
      modifies `q, `a, `log, `durable, io
      ensures io.failed >= old(io.failed) + if !ok then 1 else 0
      ensures Valid() && a == old(a)
      ensures ok ==> Building(c, q0, q, a, b, v, out) && |out| <= |out0| + 1
      ensures ok ==> out0 <= out && forall k :: |out0| <= k < |out| ==> out[k].offset == o
      ensures ok ==> b.cursor == b0.cursor && q.cursor == old(q.cursor)
      ensures ok ==> (busy <==> !NoOrdered(v.q))
      ensures ok ==> forall e :: Untouched(q, b, e) <==> e != o && Untouched(old(q), b0, e)
    {
      hide Inv, NoOrdered, Building, Renewable, Keeps, NewRecord, DeadLettered, Later, Due;
      b, out, busy, v, ok := b0, out0, busy0, v0, true;
      NowInv();
      RecordSame(c, q0, q, a, b, v, out, o);
      var r := q.inflight[o];
      if o !in q.msgs {
        StageOrphan(c, q0, q, a, b, v, out, o);
        b := b.(dels := b.dels + {o});
        v := Removed(v, o);
        busy := busy && !r.ordered;
      } else if r.attempts >= c.maxAttempts {
        ghost var p := Now();
        ok := MoveToDLQ(o);
        if !ok {
          return;
        }
        StageDead(c, q0, p.q, a, b, v, out, o, r.attempts);
        DeadHere(p, o, r.attempts);
        StageDeadDone(c, q0, DeadAppended(p, o, r.attempts).q, a, b, DeadAppended(v, o, r.attempts), out, o);
        v := Removed(DeadAppended(v, o, r.attempts), o);
        busy := busy && !r.ordered;
      } else {
        StageRedelivery(c, q0, q, a, b, v, out, o);
        var n := NewRecord(c, r.attempts + 1, r.ordered);
        b := b.(sets := b.sets[o := n]);
        v := Redelivered(v, o, n, c.maxAttempts);
        out := out + [Out(o, q.msgs[o], n.attempts)];
      }
    }

    /**
     * Phase 2: new messages from the cursor on. One the filter does not want is passed for good; an ordered one stops
     * the scan, cursor unmoved, while an ordered record is outstanding.
     */
    method StageNew(c: Call, filter: Message -> Verdict, b0: Batch, out0: seq<Out>, busy0: bool, ghost v0: Point,
                    ghost q0: Queue)
      returns (b: Batch, out: seq<Out>, ghost v: Point)
      requires Valid() && Building(c, q0, q, a, b0, v0, out0) && Inv(Point(q0, a))
      requires b0.cursor == q.cursor && |out0| < c.maxMsgs && (busy0 <==> !NoOrdered(v0.q)) && Rising(out0)
      ensures Building(c, q0, q, a, b, v, out) && out0 <= out && |out| <= c.maxMsgs && Rising(out)
      ensures Judged(filter, q, b) && Exhausted(c, filter, q, b, out) && LookedAt(q, b.cursor) <= 1024
      ensures forall e :: Untouched(q, b, e) <==> Untouched(q, b0, e)
    {
      hide Inv, NoOrdered, Building, Keeps, NewRecord, NextStored, Judged, SortedList, Ordered, Exhausted, Blocked,
           LookedAt, Rising, Untouched;
      b, out, v := b0, out0, v0;
      var busy := busy0;
      NowInv();
      NothingJudged(c, filter, q0, q, a, b, v, out);
      var offs := InOrder(set o | o in q.msgs && o >= b.cursor);
      var i := 0;
      while i < |offs| && i < SCAN_BUDGET
        invariant 0 <= i <= |offs| && out0 <= out && |out| < c.maxMsgs
        invariant Building(c, q0, q, a, b, v, out) && Judged(filter, q, b) && Rising(out)
        invariant b.cursor == if i == 0 then q.cursor else offs[i - 1] + 1
        invariant busy <==> !NoOrdered(v.q)
        invariant i <= 1024
        invariant forall e :: Untouched(q, b, e) <==> Untouched(q, b0, e)
      {
        var o := offs[i];
        NextOffset(c, q0, q, a, b, v, out, offs, i);
        var m := q.msgs[o];
        if filter(m) != True {
          StageSkip(c, q0, q, a, b, v, out, o);
          JudgedSkip(filter, q, b, o);
          CursorTouchesNone(q, b, o + 1);
          b := b.(cursor := o + 1);
          v := Skipped(v, o);
        } else if Ordered(m) && busy {
          BuildingInv(c, q0, q, a, b, v, out);
          StoppedBehind(c, filter, q, b, out, o);
          CountLooked(q, b.cursor, offs, i);
          return;
        } else {
          var r := NewRecord(c, 1, Ordered(m));
          NotInflight(q, a, o);
          StageDelivery(c, q0, q, a, b, v, out, o);
          JudgedDelivery(filter, q, b, o, r);
          NewTouchesNone(q, b, o, r);
          RisesOn(c, q0, q, a, b, v, out, Out(o, m, 1));
          b := b.(sets := b.sets[o := r], cursor := o + 1);
          v := Delivered(v, o, r, c.maxAttempts);
          out := out + [Out(o, m, 1)];
          busy := busy || Ordered(m);
          if |out| >= c.maxMsgs {
            StoppedFull(c, filter, q, b, out);
            CountLooked(q, b.cursor, offs, i + 1);
            return;
          }
        }
        i := i + 1;
      }
      CountLooked(q, b.cursor, offs, i);
      StoppedAtEnd(c, filter, q, b, out, offs, i);
    }

    /**
     * One receive, under the queue lock. Every message in `out` carries the next number of its offset, never handed out
     * before nor about to be by a receive that still waits, and goes to the consumer only once the ticket is settled;
     * every record that was there has had exactly what its expiry, its lease and its attempts call for; whatever fails,
     * the invariant holds.
     */
    method ReceiveOnce(c: Call, filter: Message -> Verdict)
      returns (ok: bool, out: seq<Out>, ticket: Option<nat>, ghost base: Queue, ghost b: Batch, ghost reds: seq<nat>)
      requires Valid()
      modifies this, io
      ensures io.failed >= old(io.failed) + if !ok then 1 else 0
      ensures Valid() && told == old(told)
      ensures |out| <= (if c.maxMsgs < 0 then 0 else c.maxMsgs)
      ensures !ok ==> ticket == None
      ensures ticket == None ==> out == [] && pending == old(pending)
      ensures ticket.Some? ==>
                && ticket.value !in old(pending)
                && pending == old(pending)[ticket.value := Ticket(|log| - 1, NOTHING.(hands := HandedBy(out)))]
      ensures HandedBy(out) !! told.hands && forall t :: t in old(pending) ==>
                HandedBy(out) !! old(pending)[t].what.hands
      ensures ok && b == Batch(map[], {}, base.cursor) ==> ticket == None && q == base
      ensures ok ==> Received(c, filter, old(q), q, out)
      ensures ok ==> Building(c, old(q), base, old(a), b, Now(), out) && Judged(filter, base, b)
      ensures ok ==> Handles(c, old(q), base, b, reds) && Exhausted(c, filter, base, b, out)
      ensures ok ==> LookedAt(base, b.cursor) <= 1024
    {
      hide Inv, NoOrdered, Building, Keeps, NewRecord, Judged, Later, PicksReds, PicksRenewals, Due, Ordered,
           DeadLettered, Exhausted, LookedAt, Untouched, Handles, Valid, Received, Rising;
      ghost var q0 := q;
      NowInv();
      var due, renews, busy := ScanInflight(c);
      reds := due;
      var b1, out1;
      ghost var v1: Point;
      b1, v1 := StageRenewals(c, renews);
      RedsUntouched(c, q, b1, due, renews);
      ghost var renewed := b1;
      ok, b1, out1, busy, v1 := StageReds(c, due, b1, v1, busy, q0);
      if !ok {
        return false, [], None, q, b1, due;
      }
      NothingJudged(c, filter, q0, q, a, b1, v1, out1);
      if |out1| < c.maxMsgs {
        b1, out1, v1 := StageNew(c, filter, b1, out1, busy, v1, q0);
      } else {
        StoppedFull(c, filter, q, b1, out1);
        NoneLooked(q);
      }
      AllHandled(c, q0, q, renewed, b1, reds, renews);
      ReceivedBy(c, filter, q0, q, a, b1, v1, out1, reds);
      base, b := q, b1;
      if b1 == Batch(map[], {}, q.cursor) {
        NothingStaged(c, q0, q, a, b1, v1, out1);
        return true, [], None, base, b, due;
      }
      BuildingInv(c, q0, q, a, b1, v1, out1);
      NowInv();
      HandOut(c, q0, q, a, b1, v1, out1, told);
      HandOutWaiting(c, q0, b1, v1, out1);
      ok := Apply(Applied(q, b1), v1.a);
      if !ok {
        return false, [], None, base, b, due;
      }
      var t := Issue(NOTHING.(hands := HandedBy(out1)));
      out, ticket := out1, Some(t);
    }

    lemma HandOutWaiting(c: Call, q0: Queue, b: Batch, v: Point, out: seq<Out>)
      requires Valid() && Building(c, q0, q, a, b, v, out)
      ensures forall t :: t in pending ==> HandedBy(out) !! pending[t].what.hands
    {
      hide Inv, Building, Keeps;
      forall t | t in pending
        ensures HandedBy(out) !! pending[t].what.hands
      {
        assert Keeps(log[|log| - 1], pending[t].what);
        HandOut(c, q0, q, a, b, v, out, pending[t].what);
      }
    }

    // ----- handles: an operation carries the number of the delivery it belongs to -----

    /** The record a handle still speaks for: the one of the newest delivery. */
    predicate Current(o: nat, attempt: nat)
      reads this
    {
      o in q.inflight && q.inflight[o].attempts == attempt
    }

    /** All handles are checked against the same state; two equal ones both pass. */
    method CheckHandles(entries: seq<(nat, nat)>) returns (results: seq<bool>, dels: set<nat>)
      ensures |results| == |entries| && forall i :: 0 <= i < |entries| ==>
                results[i] == Current(entries[i].0, entries[i].1)
      ensures dels == AckedBy(q, entries)
    {
      results, dels := [], {};
      var i := 0;
      assert AckedBy(q, entries[..0]) == {};
      while i < |entries|
        invariant 0 <= i <= |entries| && |results| == i
        invariant forall k :: 0 <= k < i ==> results[k] == Current(entries[k].0, entries[k].1)
        invariant dels == AckedBy(q, entries[..i])
      {
        var hit := entries[i].0 in q.inflight && q.inflight[entries[i].0].attempts == entries[i].1;
        AckedBySnoc(q, entries, i);
        if hit {
          dels := dels + {entries[i].0};
        }
        results := results + [hit];
        i := i + 1;
      }
      assert entries[..i] == entries;
    }

    /**
     * AckBatch, under the queue lock: exactly the current handles are acknowledged, in one batch that the caller waits
     * for; stale ones change nothing.
     */
    method AckBatch(entries: seq<(nat, nat)>) returns (ok: bool, results: seq<bool>, ticket: Option<nat>)
      requires Valid()
      modifies `q, `a, `log, `issued, `pending, io
      ensures io.failed >= old(io.failed) + if !ok then 1 else 0
      ensures Valid()
      ensures |results| == |entries|
      ensures forall i :: 0 <= i < |entries| ==> results[i] == old(Current(entries[i].0, entries[i].1))
      ensures ok ==> Now() == Acked(old(Now()), AckedBy(old(q), entries))
      ensures ok ==> forall o ::
                o in q.inflight <==> o in old(q).inflight && (o, old(q).inflight[o].attempts) !in entries
      ensures ok ==> q == old(q).(inflight := q.inflight)
      ensures ok ==> forall o :: o in q.inflight ==> q.inflight[o] == old(q).inflight[o]
      ensures !ok ==> Now() == old(Now()) && ticket == None
      ensures ticket == None ==> pending == old(pending)
      ensures if ok then ticket == None <==> AckedBy(old(q), entries) == {} else AckedBy(old(q), entries) != {}
      ensures ticket.Some? ==>
                var what := NOTHING.(acks := AckedBy(old(q), entries));
                ticket.value !in old(pending) && pending == old(pending)[ticket.value := Ticket(|log| - 1, what)]
    {
      hide Inv, Keeps, Later, Valid;
      var dels;
      results, dels := CheckHandles(entries);
      NothingAcked(Now());
      if dels == {} {
        return true, results, None;
      }
      NowInv();
      ghost var n := Acked(Now(), dels);
      AckedInv(Now(), dels);
      LaterAcked(Now(), dels);
      ok := Apply(q.(inflight := q.inflight - dels), n.a);
      ticket := None;
      if ok {
        var t := Issue(NOTHING.(acks := dels));
        ticket := Some(t);
      }
    }

    /** Only the newest delivery may move its own deadline; number, ordered flag and ownership stay. */
    method ChangeInvisible(now: int, o: nat, attempt: nat, invisible: int) returns (err: bool, ok: bool, t: nat)
      requires Valid()
      modifies `q, `a, `log, `issued, `pending, io
      ensures io.failed >= old(io.failed) + if err then 1 else 0
      ensures Valid() && (ok ==> !err)
      ensures !err ==> ok == old(Current(o, attempt))
      ensures err ==> old(Current(o, attempt))
      ensures ok ==>
                && Now() == Extended(old(Now()), o, now + invisible) && t !in old(pending)
                && q == old(q).(inflight := old(q).inflight[o := old(q).inflight[o].(expireAtMs := now + invisible)])
                && pending == old(pending)[t := Ticket(|log| - 1, NOTHING)]
      ensures !ok ==> Now() == old(Now()) && pending == old(pending)
    {
      hide Inv, Keeps, Later, Valid;
      t := 0;
      if o !in q.inflight || q.inflight[o].attempts != attempt {
        return false, false, t;
      }
      NowInv();
      ExtendedInv(Now(), o, now + invisible);
      LaterExtended(Now(), o, now + invisible);
      ok := Apply(q.(inflight := q.inflight[o := q.inflight[o].(expireAtMs := now + invisible)]), a);
      err := !ok;
      if ok {
        t := Issue(NOTHING);
      }
    }

    /** The newest delivery may be sent to the dead letters; one whose message is gone only loses its record. */
    method ForwardToDLQ(o: nat, attempt: nat) returns (err: bool, ok: bool)
      requires Valid()
      modifies `q, `a, `log, `durable, io
      ensures io.failed >= old(io.failed) + if err then 1 else 0
      ensures Valid() && (ok ==> !err) && a == old(a)
      ensures !err ==> ok == old(Current(o, attempt))
      ensures !old(Current(o, attempt)) ==> Now() == old(Now()) && !err
      ensures ok && o in old(q).msgs ==>
                Now() == Removed(DeadAppended(old(Now()), o, attempt), o) && Lettered(old(q), q, o, attempt)
      ensures ok ==> durable == |log| - 1
      ensures ok ==> q.inflight == old(q.inflight) - {o} && q.msgs == old(q.msgs) && q.cursor == old(q.cursor)
      ensures ok && o !in old(q).msgs ==> Now() == Removed(old(Now()), o)
      ensures err && o !in old(q).msgs ==> Now() == old(Now()) || Now() == Removed(old(Now()), o)
      ensures err && o in old(q).msgs ==>
                || Now() == old(Now()) || Now() == DeadAppended(old(Now()), o, attempt)
                || Now() == Removed(DeadAppended(old(Now()), o, attempt), o)
    {
      hide Inv, Keeps, Later;
      if o !in q.inflight || q.inflight[o].attempts != attempt {
        return false, false;
      }
      NowInv();
      if o !in q.msgs {
        RecordFacts(Now(), o);
        RemovedInv(Now(), o);
        LaterRefl(Now(), Removed(Now(), o));
        ok := ApplySync(q.(inflight := q.inflight - {o}), a);
      } else {
        ok := MoveToDLQ(o);
      }
      err := !ok;
    }
  }

  /** The offsets a batch of handles acknowledges, all checked against the same state. */
  ghost function AckedBy(q: Queue, entries: seq<(nat, nat)>): set<nat> {
    set i | 0 <= i < |entries| && entries[i].0 in q.inflight && q.inflight[entries[i].0].attempts == entries[i].1 ::
      entries[i].0
  }

  lemma AckedBySnoc(q: Queue, entries: seq<(nat, nat)>, i: nat)
    requires i < |entries|
    ensures var e := entries[i];
            AckedBy(q, entries[..i + 1]) == AckedBy(q, entries[..i]) +
              (if e.0 in q.inflight && q.inflight[e.0].attempts == e.1 then {e.0} else {})
  {
    var p := entries[..i + 1];
    forall o | o in AckedBy(q, entries[..i])
      ensures o in AckedBy(q, p)
    {
      var k :| 0 <= k < i && entries[..i][k].0 == o && o in q.inflight && q.inflight[o].attempts == entries[..i][k].1;
      assert p[k].0 == o;
    }
    assert p[i] == entries[i];
    forall o | o in AckedBy(q, p)
      ensures || o in AckedBy(q, entries[..i])
              || (o == entries[i].0 && o in q.inflight && q.inflight[o].attempts == entries[i].1)
    {
      var k :| 0 <= k <= i && p[k].0 == o && o in q.inflight && q.inflight[o].attempts == p[k].1;
      if k < i {
        assert entries[..i][k] == p[k];
      }
    }
  }

  lemma NothingAcked(p: Point)
    ensures Acked(p, {}) == p
  {
    assert p.q.inflight - {} == p.q.inflight;
    assert p.a.acked + {} == p.a.acked;
  }

  /** Told to a producer once its message is stored. */
  lemma LaterAppended(p: Point, m: Message)
    requires Inv(p)
    ensures Later(p, Appended(p, m)) && Keeps(Appended(p, m), NOTHING.(sent := map[p.q.next := m]))
  {
    hide Tries, Numbered, Ordered, Finished;
  }

  lemma LaterAcked(p: Point, done: set<nat>)
    ensures Later(p, Acked(p, done)) && Keeps(Acked(p, done), NOTHING.(acks := done))
  {
    hide Tries;
  }

  lemma LaterExtended(p: Point, o: nat, expireAtMs: int)
    requires o in p.q.inflight
    ensures Later(p, Extended(p, o, expireAtMs)) && Keeps(Extended(p, o, expireAtMs), NOTHING)
  {
    hide Tries;
  }

  /** Every stored message the cursor passed was delivered if the filter wants it and skipped if not. */
  ghost predicate Judged(filter: Message -> Verdict, q: Queue, b: Batch) {
    forall o :: q.cursor <= o < b.cursor && o in q.msgs ==> (o in b.sets <==> filter(q.msgs[o]) == True)
  }

  /**
   * Which records a call deals with: every expired one whose owner still holds it, and of the others that are due those
   * lowest in offset, as many as it may hand out; no other is touched.
   */
  ghost predicate Handles(c: Call, q0: Queue, q: Queue, b: Batch, reds: seq<nat>) {
    && PicksReds(c, q0, reds, q0.inflight.Keys)
    && forall o :: o in q0.inflight ==>
         (Untouched(q, b, o) <==>
            o !in reds && !(q0.inflight[o].expireAtMs <= c.now && Renewable(c.lease, q0.inflight[o], c.now)))
  }

  // ----- from the batch to the queue after it -----

  lemma RenewableIsHeld(c: Call, r: Inflight)
    ensures Renewable(c.lease, r, c.now) <==> Held(c, r)
  {
  }

  /** Whoever has one more delivery than before is handed out. */
  lemma CountedIsHanded(c: Call, q: Queue, a: Account, b: Batch, v: Point, out: seq<Out>, o: nat)
    requires Virtual(c, q, a, b, v, out) && Tries(v.a.hist, o) > Tries(a.hist, o)
    ensures Handed(out, o)
  {
    hide Inv, Tries, Deliveries;
    TriesWithOut(a.hist, out, c.maxAttempts, o);
  }

  lemma RecordIsHanded(c: Call, q0: Queue, q: Queue, a: Account, b: Batch, v: Point, out: seq<Out>, o: nat)
    requires Inv(Point(q0, a)) && Building(c, q0, q, a, b, v, out) && o in b.sets
    requires o in q0.inflight ==> b.sets[o].attempts > q0.inflight[o].attempts
    ensures Handed(out, o)
  {
    hide Inv, Tries, Deliveries, Outcomes, Outs, Handed;
    assert o !in b.dels && o in v.q.inflight && v.q.inflight[o] == b.sets[o];
    RecordFacts(v, o);
    if o in q0.inflight {
      RecordFacts(Point(q0, a), o);
    } else {
      NotYetTried(Point(q0, a), o);
    }
    CountedIsHanded(c, q, a, b, v, out, o);
  }

  lemma NotYetTried(p: Point, o: nat)
    requires Inv(p) && p.q.cursor <= o
    ensures Tries(p.a.hist, o) == 0 && o !in p.q.inflight
  {
    hide Tries, Numbered, Ordered, Finished;
  }

  lemma OutIsGiven(c: Call, q0: Queue, q: Queue, a: Account, b: Batch, v: Point, out: seq<Out>, i: nat)
    requires Inv(Point(q0, a)) && Building(c, q0, q, a, b, v, out) && i < |out|
    ensures GivenOut(c, q0, Applied(q, b), out[i])
  {
    hide Inv, Virtual, Tries, Deliveries, NewRecord, Backoff, Leased, Renewable, Held, DeadLettered;
    var x := out[i];
    assert Fresh(c, q0, q, a, b, x);
    NewRecordLeased(c, x.attempt, Ordered(x.message));
    if x.offset in q0.inflight {
      var r := q0.inflight[x.offset];
      RecordFacts(Point(q0, a), x.offset);
      RenewableIsHeld(c, r);
      assert Outcome(c, q0, q, b, x.offset);
      NewRecordAttempts(c, x.attempt, Ordered(x.message));
      RenewedAttempts(r, c.now, c.invisible);
    } else {
      NotYetTried(Point(q0, a), x.offset);
    }
  }

  lemma NewRecordAttempts(c: Call, n: nat, ordered: bool)
    ensures NewRecord(c, n, ordered).attempts == n
  {
  }

  lemma RenewedAttempts(r: Inflight, now: int, invisible: int)
    ensures Renewed(r, now, invisible).attempts == r.attempts
  {
  }

  lemma RestIsLeft(c: Call, q0: Queue, q: Queue, a: Account, b: Batch, v: Point, out: seq<Out>, reds: seq<nat>, o: nat)
    requires Inv(Point(q0, a)) && Building(c, q0, q, a, b, v, out) && Handles(c, q0, q, b, reds)
    requires o in q0.inflight && !Handed(out, o)
    ensures Left(c, q0, Applied(q, b), o)
  {
    hide Inv, Virtual, Outs, Tries, Deliveries, NewRecord, Renewable, Held, DeadLettered, PicksReds, Handed;
    var r := q0.inflight[o];
    RenewableIsHeld(c, r);
    assert Outcome(c, q0, q, b, o);
    NewRecordAttempts(c, r.attempts + 1, r.ordered);
    if o in b.sets && b.sets[o].attempts > r.attempts {
      RecordIsHanded(c, q0, q, a, b, v, out, o);
    }
    SameLetters(q, b, o);
  }

  lemma SameLetters(q: Queue, b: Batch, o: nat)
    ensures DeadLettered(Applied(q, b), o) <==> DeadLettered(q, o)
  {
  }

  lemma ReceivedBy(c: Call, filter: Message -> Verdict, q0: Queue, q: Queue, a: Account, b: Batch, v: Point,
                   out: seq<Out>, reds: seq<nat>)
    requires Inv(Point(q0, a)) && Building(c, q0, q, a, b, v, out) && Handles(c, q0, q, b, reds) && Judged(filter, q, b)
    requires Rising(out)
    ensures Received(c, filter, q0, Applied(q, b), out)
  {
    hide Inv, Virtual, Outcomes, Tries, Deliveries, NewRecord, Handles, Left, GivenOut;
    forall i | 0 <= i < |out|
      ensures GivenOut(c, q0, Applied(q, b), out[i])
    {
      OutIsGiven(c, q0, q, a, b, v, out, i);
    }
    forall o | o in q0.inflight && !Handed(out, o)
      ensures Left(c, q0, Applied(q, b), o)
    {
      RestIsLeft(c, q0, q, a, b, v, out, reds, o);
    }
    forall o | o in Applied(q, b).inflight
      ensures o in q0.inflight || Handed(out, o)
    {
      if o !in q0.inflight {
        RecordIsHanded(c, q0, q, a, b, v, out, o);
      }
    }
    forall o | q0.cursor <= o < b.cursor && o in q0.msgs
      ensures Handed(out, o) <==> filter(q0.msgs[o]) == True
    {
      NotYetTried(Point(q0, a), o);
      if o in b.sets {
        RecordIsHanded(c, q0, q, a, b, v, out, o);
      }
      if i :| 0 <= i < |out| && out[i].offset == o {
        assert Fresh(c, q0, q, a, b, out[i]);
      }
    }
  }

  lemma AllHandled(c: Call, q0: Queue, q: Queue, b0: Batch, b: Batch, reds: seq<nat>, renews: seq<nat>)
    requires PicksReds(c, q0, reds, q0.inflight.Keys) && PicksRenewals(c, q0, renews, q0.inflight.Keys)
    requires b0.dels == {} && (forall o :: o in b0.sets <==> o in renews)
    requires forall o :: Untouched(q, b, o) <==> o !in reds && Untouched(q0, b0, o)
    ensures Handles(c, q0, q, b, reds)
  {
    hide PicksReds, Renewable;
  }

  /** How many stored messages a call took or passed over that left the cursor at `cursor`. */
  ghost function LookedAt(q: Queue, cursor: nat): nat {
    |set o | o in q.msgs && q.cursor <= o < cursor|
  }

  lemma NoneLooked(q: Queue)
    ensures LookedAt(q, q.cursor) == 0
  {
  }

  lemma CountLooked(q: Queue, cursor: nat, offs: seq<nat>, i: nat)
    requires SortedList(offs, set o | o in q.msgs && o >= q.cursor)
    requires i <= |offs| && cursor == if i == 0 then q.cursor else offs[i - 1] + 1
    ensures LookedAt(q, cursor) == i
  {
    var s := set o | o in q.msgs && q.cursor <= o < cursor;
    SortedCount(offs[..i], s);
    forall o | o in s
      ensures o in offs[..i]
    {
      assert o in offs;
    }
    ListCovers(offs[..i], s);
  }

  /** A list that holds every member of a set is at least as long as the set is large. */
  lemma {:induction false} ListCovers(offs: seq<nat>, s: set<nat>)
    requires forall o :: o in s ==> o in offs
    ensures |s| <= |offs|
  {
    if offs == [] {
      assert s == {};
    } else {
      var n := |offs| - 1;
      ListCovers(offs[..n], s - {offs[n]});
    }
  }

  /**
   * Why a call stopped taking new messages: enough handed out, none left, enough looked at, or an ordered one must
   * wait.
   */
  ghost predicate Exhausted(c: Call, filter: Message -> Verdict, q: Queue, b: Batch, out: seq<Out>) {
    || |out| >= c.maxMsgs
    || (forall o :: o in q.msgs ==> o < b.cursor)
    || LookedAt(q, b.cursor) == 1024
    || exists o :: Blocked(filter, q, b, o)
  }

  /** The next stored message is wanted and ordered, while an ordered record is outstanding. */
  ghost predicate Blocked(filter: Message -> Verdict, q: Queue, b: Batch, o: nat) {
    && o in q.msgs && b.cursor <= o && (forall e :: b.cursor <= e < o ==> e !in q.msgs)
    && filter(q.msgs[o]) == True && Ordered(q.msgs[o]) && !NoOrdered(Applied(q, b))
  }

  lemma StoppedFull(c: Call, filter: Message -> Verdict, q: Queue, b: Batch, out: seq<Out>)
    requires |out| >= c.maxMsgs
    ensures Exhausted(c, filter, q, b, out)
  {
  }

  lemma StoppedBehind(c: Call, filter: Message -> Verdict, q: Queue, b: Batch, out: seq<Out>, o: nat)
    requires o in q.msgs && b.cursor <= o && (forall e :: b.cursor <= e < o ==> e !in q.msgs)
    requires filter(q.msgs[o]) == True && Ordered(q.msgs[o]) && !NoOrdered(Applied(q, b))
    ensures Exhausted(c, filter, q, b, out)
  {
    hide Ordered, NoOrdered;
    assert Blocked(filter, q, b, o);
  }

  lemma StoppedAtEnd(c: Call, filter: Message -> Verdict, q: Queue, b: Batch, out: seq<Out>, offs: seq<nat>, i: nat)
    requires SortedList(offs, set o | o in q.msgs && o >= q.cursor)
    requires i <= |offs| && (i == |offs| || i == 1024)
    requires b.cursor == if i == 0 then q.cursor else offs[i - 1] + 1
    ensures Exhausted(c, filter, q, b, out)
  {
    if i == |offs| {
      forall o | o in q.msgs
        ensures o < b.cursor
      {
        if o >= q.cursor {
          assert o in offs;
        } else if i > 0 {
          assert offs[i - 1] >= q.cursor;
        }
      }
    } else {
      CountLooked(q, b.cursor, offs, i);
    }
  }

  /** A strictly rising list of members is no longer than the set has members. */
  lemma {:induction false} SortedCount(offs: seq<nat>, s: set<nat>)
    requires (forall i, j :: 0 <= i < j < |offs| ==> offs[i] < offs[j])
    requires (forall i :: 0 <= i < |offs| ==> offs[i] in s)
    ensures |s| >= |offs|
  {
    if offs != [] {
      SortedCount(offs[1..], s - {offs[0]});
    }
  }

  lemma NotInflight(q: Queue, a: Account, o: nat)
    requires Inv(Point(q, a)) && q.cursor <= o
    ensures o !in q.inflight
  {
  }

  lemma NothingJudged(c: Call, filter: Message -> Verdict, q0: Queue, q: Queue, a: Account, b: Batch, v: Point,
                      out: seq<Out>)
    requires Building(c, q0, q, a, b, v, out) && b.cursor == q.cursor
    ensures Judged(filter, q, b)
  {
  }

  lemma JudgedSkip(filter: Message -> Verdict, q: Queue, b: Batch, o: nat)
    requires Judged(filter, q, b) && o in q.msgs && filter(q.msgs[o]) != True && o !in b.sets
    requires forall e :: b.cursor <= e < o ==> e !in q.msgs
    ensures Judged(filter, q, b.(cursor := o + 1))
  {
  }

  lemma JudgedDelivery(filter: Message -> Verdict, q: Queue, b: Batch, o: nat, r: Inflight)
    requires Judged(filter, q, b) && o in q.msgs && filter(q.msgs[o]) == True && b.cursor <= o
    requires forall e :: b.cursor <= e < o ==> e !in q.msgs
    ensures Judged(filter, q, b.(sets := b.sets[o := r], cursor := o + 1))
  {
  }

  /** The next key of the scan is the next stored message after the cursor. */
  lemma NextOffset(c: Call, q0: Queue, q: Queue, a: Account, b: Batch, v: Point, out: seq<Out>, offs: seq<nat>, i: nat)
    requires Building(c, q0, q, a, b, v, out) && i < |offs|
    requires SortedList(offs, set o | o in q.msgs && o >= q.cursor)
    requires b.cursor == if i == 0 then q.cursor else offs[i - 1] + 1
    ensures NextStored(v, offs[i]) && offs[i] in q.msgs && q.cursor <= b.cursor <= offs[i]
    ensures forall e :: b.cursor <= e < offs[i] ==> e !in q.msgs
    ensures offs[i] !in b.sets
  {
    hide Inv, Outcomes, Outs, Deliveries;
    assert offs[i] in set o | o in q.msgs && o >= q.cursor;
    forall e | q.cursor <= e < offs[i] && e in q.msgs
      ensures e < b.cursor
    {
      assert e in set o | o in q.msgs && o >= q.cursor;
      assert e in offs;
      var k :| 0 <= k < |offs| && offs[k] == e;
      assert k < i;
      assert offs[k] <= offs[i - 1];
    }
    SetsBelowCursor(c, q0, q, a, b, v, out, offs[i]);
  }

  /** Offsets rise from one message handed out to the next. */
  ghost predicate Rising(out: seq<Out>) {
    forall i, j :: 0 <= i < j < |out| ==> out[i].offset < out[j].offset
  }

  lemma RisesOn(c: Call, q0: Queue, q: Queue, a: Account, b: Batch, v: Point, out: seq<Out>, x: Out)
    requires Building(c, q0, q, a, b, v, out) && Rising(out) && b.cursor <= x.offset
    ensures Rising(out + [x])
  {
    hide Building;
    OutBelowCursor(c, q0, q, a, b, v, out);
  }

  lemma CursorTouchesNone(q: Queue, b: Batch, cursor: nat)
    ensures forall e :: Untouched(q, b.(cursor := cursor), e) <==> Untouched(q, b, e)
  {
  }

  lemma NewTouchesNone(q: Queue, b: Batch, o: nat, r: Inflight)
    requires o !in q.inflight
    ensures forall e :: Untouched(q, b.(sets := b.sets[o := r], cursor := o + 1), e) <==> Untouched(q, b, e)
  {
  }

  lemma OutBelowCursor(c: Call, q0: Queue, q: Queue, a: Account, b: Batch, v: Point, out: seq<Out>)
    requires Building(c, q0, q, a, b, v, out)
    ensures forall i :: 0 <= i < |out| ==> out[i].offset < b.cursor
  {
    hide Virtual, Outcomes, Touches, Tries, NewRecord;
    forall i | 0 <= i < |out|
      ensures out[i].offset < b.cursor
    {
      assert Fresh(c, q0, q, a, b, out[i]);
    }
  }

  lemma SetsBelowCursor(c: Call, q0: Queue, q: Queue, a: Account, b: Batch, v: Point, out: seq<Out>, o: nat)
    requires Building(c, q0, q, a, b, v, out) && b.cursor <= o
    ensures o !in b.sets
  {
    hide Outcomes, Outs, Deliveries, Tries, Numbered, Finished, Ordered;
    assert o in b.sets ==> o in v.q.inflight;
  }

  lemma RedsUntouched(c: Call, q: Queue, b: Batch, reds: seq<nat>, renews: seq<nat>)
    requires PicksReds(c, q, reds, q.inflight.Keys) && PicksRenewals(c, q, renews, q.inflight.Keys)
    requires b.dels == {} && forall o :: o in b.sets <==> o in renews
    ensures forall o :: o in reds ==> Untouched(q, b, o)
    ensures |reds| <= if c.maxMsgs < 0 then 0 else c.maxMsgs
  {
    hide Renewable;
  }

  lemma NothingStaged(c: Call, q0: Queue, q: Queue, a: Account, b: Batch, v: Point, out: seq<Out>)
    requires Building(c, q0, q, a, b, v, out) && b == Batch(map[], {}, q.cursor)
    ensures out == [] && v == Point(q, a) && Applied(q, b) == q
  {
    hide Inv, Outcomes, Tries, NewRecord;
    assert out != [] ==> Fresh(c, q0, q, a, b, out[0]);
    assert q.inflight + map[] - {} == q.inflight;
    assert a.hist + [] == a.hist;
  }

  lemma BuildingInv(c: Call, q0: Queue, q: Queue, a: Account, b: Batch, v: Point, out: seq<Out>)
    requires Building(c, q0, q, a, b, v, out)
    ensures Inv(v) && v == Point(Applied(q, b), v.a) && Later(Point(q, a), v)
  {
    hide Inv, Outcomes, Outs, Touches, Deliveries;
    LaterWithOut(c, q, a, b, v, out);
  }

  lemma DeadHere(p: Point, o: nat, attempts: nat)
    requires o in p.q.msgs
    ensures DeadLettered(DeadAppended(p, o, attempts).q, o)
  {
    assert DeadAppended(p, o, attempts).q.dlq[|p.q.dlq|].origin == o;
  }

  lemma RecordSame(c: Call, q0: Queue, q: Queue, a: Account, b: Batch, v: Point, out: seq<Out>, o: nat)
    requires Building(c, q0, q, a, b, v, out) && o in q.inflight
    ensures o in q0.inflight && q.inflight[o] == q0.inflight[o]
  {
    hide Virtual, Outcomes, Outs;
  }

  lemma NothingPicked(c: Call, q: Queue)
    ensures PicksRenewals(c, q, [], {}) && PicksReds(c, q, [], {})
  {
  }

  lemma AllScanned(q: Queue, offs: seq<nat>, busy: bool)
    requires SortedList(offs, q.inflight.Keys)
    requires busy <==> exists k :: 0 <= k < |offs| && q.inflight[offs[k]].ordered
    ensures busy <==> !NoOrdered(q)
  {
    if o :| o in q.inflight && q.inflight[o].ordered {
      assert o in q.inflight.Keys;
      var k :| 0 <= k < |offs| && offs[k] == o;
    }
  }
}
