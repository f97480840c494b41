/**
 * One queue as one consumer group sees it: messages, fetch cursor, inflight records and dead letters, with an account
 * of everything that was ever done to each offset, and the steps every operation is made of.
 */
module Queue {
  datatype Message = Message(id: string, tag: string, keys: seq<string>, props: map<string, string>, body: string,
                             messageGroup: string)

  predicate Ordered(m: Message) {
    m.messageGroup != ""
  }

  datatype Inflight = Inflight(expireAtMs: int, attempts: nat, ordered: bool, owner: string, renewUntilMs: int)

  /**
   * A dead letter keeps the message but for its message group, and says where it came from and how often it was tried.
   */
  datatype Dead = Dead(origin: nat, attempts: nat, message: Message)

  datatype Queue = Queue(msgs: map<nat, Message>, next: nat, cursor: nat, inflight: map<nat, Inflight>, dlq: seq<Dead>)

  datatype Delivery = Delivery(offset: nat, number: nat, limit: nat)

  /** What the stored keys no longer show: deliveries made, why an offset left the queue, and every message produced. */
  datatype Account = Account(hist: seq<Delivery>, acked: set<nat>, rejected: set<nat>, purged: set<nat>,
                             sent: seq<Message>)

  datatype Point = Point(q: Queue, a: Account)

  function Tries(h: seq<Delivery>, o: nat): nat {
    if h == [] then 0 else Tries(h[..|h| - 1], o) + if h[|h| - 1].offset == o then 1 else 0
  }

  lemma TriesSnoc(h: seq<Delivery>, d: Delivery, o: nat)
    ensures Tries(h + [d], o) == Tries(h, o) + if d.offset == o then 1 else 0
  {
    assert (h + [d])[..|h|] == h;
  }

  /** Delivery numbers of each offset run 1, 2, 3, ... and none passes the limit in force when it was made. */
  predicate Numbered(h: seq<Delivery>) {
    h == [] ||
    var p, d := h[..|h| - 1], h[|h| - 1];
    Numbered(p) && d.number == Tries(p, d.offset) + 1 && (d.number == 1 || d.number <= d.limit)
  }

  ghost predicate DeadLettered(q: Queue, o: nat) {
    exists i :: 0 <= i < |q.dlq| && q.dlq[i].origin == o
  }

  ghost predicate Finished(p: Point, o: nat) {
    o in p.a.acked || o in p.a.rejected || o in p.a.purged || DeadLettered(p.q, o)
  }

  predicate NoOrdered(q: Queue) {
    forall o :: o in q.inflight ==> !q.inflight[o].ordered
  }

  /** Every offset ever produced is still stored or was purged, and the cursor lies within them. */
  ghost predicate Stored(p: Point) {
    && |p.a.sent| == p.q.next && p.q.cursor <= p.q.next
    && (forall o :: o in p.q.msgs ==> o < p.q.next && p.q.msgs[o] == p.a.sent[o])
    && (forall o: nat :: o < p.q.next ==> o in p.q.msgs || o in p.a.purged)
  }

  /** Nothing below the cursor is lost: it is inflight or finished. */
  ghost predicate Covered(p: Point) {
    forall o: nat :: o < p.q.cursor ==> o in p.q.inflight || Finished(p, o)
  }

  /**
   * Inflight records: below the cursor, flagged as their message is, numbered as the last delivery, one ordered at
   * most.
   */
  ghost predicate Records(p: Point) {
    && (forall o :: o in p.q.inflight ==>
          && o < p.q.cursor && o < |p.a.sent|
          && p.q.inflight[o].ordered == Ordered(p.a.sent[o])
          && p.q.inflight[o].attempts == Tries(p.a.hist, o) >= 1)
    && (forall o, e ::
          o in p.q.inflight && e in p.q.inflight && p.q.inflight[o].ordered && p.q.inflight[e].ordered ==> o == e)
  }

  /**
   * Deliveries: numbered, none at or above the cursor, an ordered one only after all earlier ordered ones are finished.
   */
  ghost predicate History(p: Point) {
    && Numbered(p.a.hist)
    && (forall o: nat :: p.q.cursor <= o ==> Tries(p.a.hist, o) == 0)
    && (forall e: nat, o: nat ::
          e < o < |p.a.sent| && Ordered(p.a.sent[e]) && Ordered(p.a.sent[o]) && Tries(p.a.hist, o) > 0 ==>
                Finished(p, e))
  }

  /** What was acknowledged or rejected stays behind the cursor and is never inflight again. */
  ghost predicate Final(p: Point) {
    forall o :: o in p.a.acked || o in p.a.rejected ==> o < p.q.cursor && o !in p.q.inflight
  }

  /** What a dead letter keeps of the message it was made of: all but the message group. */
  ghost predicate LetterOf(d: Dead, m: Message) {
    && d.message.id == m.id && d.message.tag == m.tag && d.message.keys == m.keys && d.message.props == m.props
    && d.message.body == m.body && d.message.messageGroup == ""
  }

  /** Every dead letter is the message produced at its origin, and was tried at least once. */
  ghost predicate Letters(p: Point) {
    forall i :: 0 <= i < |p.q.dlq| ==>
      p.q.dlq[i].origin < |p.a.sent| && LetterOf(p.q.dlq[i], p.a.sent[p.q.dlq[i].origin])
  }

  ghost predicate Inv(p: Point) {
    Stored(p) && Covered(p) && Records(p) && History(p) && Final(p) && Letters(p)
  }

  // ----- what the invariant says to a consumer -----

  lemma {:induction false} NumberedPrefix(h: seq<Delivery>, i: nat)
    requires Numbered(h) && i <= |h|
    ensures Numbered(h[..i])
  {
    if i < |h| {
      NumberedPrefix(h[..|h| - 1], i);
      assert h[..|h| - 1][..i] == h[..i];
    } else {
      assert h[..i] == h;
    }
  }

  lemma {:induction false} TriesPrefix(h: seq<Delivery>, i: nat, o: nat)
    requires i <= |h|
    ensures Tries(h[..i], o) <= Tries(h, o)
  {
    if i < |h| {
      TriesPrefix(h[..|h| - 1], i, o);
      assert h[..|h| - 1][..i] == h[..i];
    } else {
      assert h[..i] == h;
    }
  }

  /**
   * Delivery numbers of one offset rise one by one in the order the deliveries were made, and stay within the limit.
   */
  lemma NumbersRun(p: Point, i: nat, j: nat)
    requires Inv(p) && i < j < |p.a.hist| && p.a.hist[i].offset == p.a.hist[j].offset
    ensures p.a.hist[i].number == Tries(p.a.hist[..i], p.a.hist[i].offset) + 1
    ensures p.a.hist[i].number < p.a.hist[j].number
    ensures p.a.hist[j].number <= p.a.hist[j].limit
  {
    var h, o := p.a.hist, p.a.hist[i].offset;
    NumberedPrefix(h, i + 1);
    NumberedPrefix(h, j + 1);
    assert h[..i + 1][..i] == h[..i] && h[..j + 1][..j] == h[..j];
    assert Tries(h[..i + 1], o) == Tries(h[..i], o) + 1;
    TriesPrefix(h[..j], i + 1, o);
    assert h[..j][..i + 1] == h[..i + 1];
  }

  /** When an ordered message has been delivered, all earlier ordered ones are finished; at most one is outstanding. */
  lemma OrderedOneAtATime(p: Point, e: nat, o: nat)
    requires Inv(p) && e < o < p.q.next && Ordered(p.a.sent[e]) && Ordered(p.a.sent[o]) && Tries(p.a.hist, o) > 0
    ensures e in p.a.acked || e in p.a.rejected || e in p.a.purged || DeadLettered(p.q, e)
    ensures e in p.q.inflight ==> o !in p.q.inflight
  {
    hide Tries, Numbered, DeadLettered;
    assert o in p.q.inflight ==> p.q.inflight[o].ordered;
  }

  /**
   * Below the cursor no message is lost: it is inflight, or acked, rejected by the filter, purged or dead-lettered, and
   * then with everything it was produced with but its message group.
   */
  lemma NothingLost(p: Point, o: nat)
    requires Inv(p) && o < p.q.cursor
    ensures || o in p.q.inflight || o in p.a.acked || o in p.a.rejected || o in p.a.purged
            || exists i :: 0 <= i < |p.q.dlq| && p.q.dlq[i].origin == o && LetterOf(p.q.dlq[i], p.a.sent[o])
    ensures o in p.q.inflight ==> o !in p.a.acked && o !in p.a.rejected
  {
    hide LetterOf;
  }

  // ----- steps -----

  function WithInflight(p: Point, inflight: map<nat, Inflight>): Point {
    p.(q := p.q.(inflight := inflight))
  }

  function Appended(p: Point, m: Message): Point {
    Point(p.q.(msgs := p.q.msgs[p.q.next := m], next := p.q.next + 1), p.a.(sent := p.a.sent + [m]))
  }

  lemma AppendedInv(p: Point, m: Message)
    requires Inv(p)
    ensures Inv(Appended(p, m))
  {
    hide Tries, Numbered, Ordered;
    assert forall o :: Finished(p, o) ==> Finished(Appended(p, m), o);
  }

  /** Retention deletes messages and nothing else. */
  function Purged(p: Point, gone: set<nat>): Point {
    Point(p.q.(msgs := p.q.msgs - gone), p.a.(purged := p.a.purged + (gone * p.q.msgs.Keys)))
  }

  lemma PurgedInv(p: Point, gone: set<nat>)
    requires Inv(p)
    ensures Inv(Purged(p, gone))
  {
    hide Tries, Numbered, Ordered;
    assert forall o :: Finished(p, o) ==> Finished(Purged(p, gone), o);
  }

  function Extended(p: Point, o: nat, expireAtMs: int): Point
    requires o in p.q.inflight
  {
    WithInflight(p, p.q.inflight[o := p.q.inflight[o].(expireAtMs := expireAtMs)])
  }

  lemma ExtendedInv(p: Point, o: nat, expireAtMs: int)
    requires Inv(p) && o in p.q.inflight
    ensures Inv(Extended(p, o, expireAtMs))
    ensures NoOrdered(Extended(p, o, expireAtMs).q) <==> NoOrdered(p.q)
  {
    hide Tries, Numbered, Ordered;
    var n := Extended(p, o, expireAtMs);
    assert forall e :: Finished(p, e) ==> Finished(n, e);
    assert forall e :: e in n.q.inflight <==> e in p.q.inflight;
    assert forall e :: e in p.q.inflight ==> n.q.inflight[e].ordered == p.q.inflight[e].ordered;
  }

  /** One more delivery of an inflight message: the next number, the same ordered flag. */
  function Redelivered(p: Point, o: nat, r: Inflight, limit: nat): Point
    requires o in p.q.inflight
  {
    Point(p.q.(inflight := p.q.inflight[o := r]), p.a.(hist := p.a.hist + [Delivery(o, r.attempts, limit)]))
  }

  lemma RedeliveredInv(p: Point, o: nat, r: Inflight, limit: nat)
    requires Inv(p) && o in p.q.inflight
    requires r.attempts == p.q.inflight[o].attempts + 1 <= limit && r.ordered == p.q.inflight[o].ordered
    ensures Inv(Redelivered(p, o, r, limit))
    ensures NoOrdered(Redelivered(p, o, r, limit).q) <==> NoOrdered(p.q)
  {
    hide Tries, Numbered, Ordered;
    var n := Redelivered(p, o, r, limit);
    var d := Delivery(o, r.attempts, limit);
    forall e: nat
      ensures Tries(n.a.hist, e) == Tries(p.a.hist, e) + if e == o then 1 else 0
    {
      TriesSnoc(p.a.hist, d, e);
    }
    NumberedSnoc(p.a.hist, d);
    assert forall e :: Finished(p, e) ==> Finished(n, e);
    assert forall e :: e in n.q.inflight <==> e in p.q.inflight;
    assert forall e :: e in p.q.inflight ==> n.q.inflight[e].ordered == p.q.inflight[e].ordered;
  }

  lemma NumberedSnoc(h: seq<Delivery>, d: Delivery)
    requires Numbered(h) && d.number == Tries(h, d.offset) + 1 && (d.number == 1 || d.number <= d.limit)
    ensures Numbered(h + [d])
  {
    assert (h + [d])[..|h|] == h;
  }

  function Removed(p: Point, o: nat): Point {
    WithInflight(p, p.q.inflight - {o})
  }

  /** A record may go once its offset is finished for another reason. */
  lemma RemovedInv(p: Point, o: nat)
    requires Inv(p) && o in p.q.inflight && Finished(p, o)
    ensures Inv(Removed(p, o))
    ensures p.q.inflight[o].ordered ==> NoOrdered(Removed(p, o).q)
    ensures !p.q.inflight[o].ordered ==> (NoOrdered(Removed(p, o).q) <==> NoOrdered(p.q))
  {
    hide Tries, Numbered, Ordered;
    var n := Removed(p, o);
    assert forall e :: Finished(p, e) ==> Finished(n, e);
    if !p.q.inflight[o].ordered && NoOrdered(n.q) {
      assert forall e :: e in p.q.inflight && e != o ==> e in n.q.inflight;
    }
  }

  function DeadAppended(p: Point, o: nat, attempts: nat): Point
    requires o in p.q.msgs
  {
    p.(q := p.q.(dlq := p.q.dlq + [Dead(o, attempts, p.q.msgs[o].(messageGroup := ""))]))
  }

  lemma DeadAppendedInv(p: Point, o: nat, attempts: nat)
    requires Inv(p) && o in p.q.msgs
    ensures Inv(DeadAppended(p, o, attempts)) && Finished(DeadAppended(p, o, attempts), o)
    ensures NoOrdered(DeadAppended(p, o, attempts).q) <==> NoOrdered(p.q)
  {
    hide Tries, Numbered, Ordered;
    var n := DeadAppended(p, o, attempts);
    forall e | DeadLettered(p.q, e)
      ensures DeadLettered(n.q, e)
    {
      var i :| 0 <= i < |p.q.dlq| && p.q.dlq[i].origin == e;
      assert n.q.dlq[i].origin == e;
    }
    assert n.q.dlq[|p.q.dlq|].origin == o;
    assert forall e :: Finished(p, e) ==> Finished(n, e);
  }

  function Acked(p: Point, done: set<nat>): Point {
    Point(p.q.(inflight := p.q.inflight - done), p.a.(acked := p.a.acked + done))
  }

  lemma AckedInv(p: Point, done: set<nat>)
    requires Inv(p) && done <= p.q.inflight.Keys
    ensures Inv(Acked(p, done))
  {
    hide Tries, Numbered, Ordered;
    assert forall e :: Finished(p, e) ==> Finished(Acked(p, done), e);
  }

  /** The next stored message is not for this group: the cursor passes it and everything purged before it. */
  function Skipped(p: Point, o: nat): Point {
    Point(p.q.(cursor := o + 1), p.a.(rejected := p.a.rejected + {o}))
  }

  ghost predicate NextStored(p: Point, o: nat) {
    o in p.q.msgs && p.q.cursor <= o && forall e: nat :: p.q.cursor <= e < o ==> e !in p.q.msgs
  }

  lemma SkippedInv(p: Point, o: nat)
    requires Inv(p) && NextStored(p, o)
    ensures Inv(Skipped(p, o)) && (NoOrdered(Skipped(p, o).q) <==> NoOrdered(p.q))
  {
    hide Tries, Numbered, Ordered;
    var n := Skipped(p, o);
    assert forall e :: Finished(p, e) ==> Finished(n, e);
  }

  function Delivered(p: Point, o: nat, r: Inflight, limit: nat): Point {
    Point(p.q.(cursor := o + 1, inflight := p.q.inflight[o := r]), p.a.(hist := p.a.hist + [Delivery(o, 1, limit)]))
  }

  /** First delivery: an ordered message only while no ordered record is outstanding. */
  lemma DeliveredInv(p: Point, o: nat, r: Inflight, limit: nat)
    requires Inv(p) && NextStored(p, o) && r.attempts == 1 && r.ordered == Ordered(p.q.msgs[o])
    requires r.ordered ==> NoOrdered(p.q)
    ensures Inv(Delivered(p, o, r, limit))
    ensures r.ordered ==> !NoOrdered(Delivered(p, o, r, limit).q)
    ensures !r.ordered ==> (NoOrdered(Delivered(p, o, r, limit).q) <==> NoOrdered(p.q))
  {
    hide Numbered, Ordered, Tries;
    var n := Delivered(p, o, r, limit);
    var d := Delivery(o, 1, limit);
    forall e: nat
      ensures Tries(n.a.hist, e) == Tries(p.a.hist, e) + if e == o then 1 else 0
    {
      TriesSnoc(p.a.hist, d, e);
    }
    NumberedSnoc(p.a.hist, d);
    assert forall e :: Finished(p, e) ==> Finished(n, e);
    assert n.q.inflight[o] == r;
    DeliveredRecords(p, o, r, limit);
    DeliveredInOrder(p, o, r, limit);
    hide Finished, Records;
  }

  lemma DeliveredRecords(p: Point, o: nat, r: Inflight, limit: nat)
    requires Inv(p) && NextStored(p, o) && r.attempts == 1 && r.ordered == Ordered(p.q.msgs[o])
    requires r.ordered ==> NoOrdered(p.q)
    requires forall e: nat :: Tries(Delivered(p, o, r, limit).a.hist, e) == Tries(p.a.hist, e) + if e == o then 1 else 0
    ensures Records(Delivered(p, o, r, limit))
    ensures !r.ordered ==> (NoOrdered(Delivered(p, o, r, limit).q) <==> NoOrdered(p.q))
  {
    hide Numbered, Ordered, Tries, Finished;
    var n := Delivered(p, o, r, limit);
    assert o !in p.q.inflight;
    assert forall e :: e in n.q.inflight <==> e in p.q.inflight || e == o;
    assert forall e :: e in p.q.inflight ==> n.q.inflight[e] == p.q.inflight[e];
  }

  lemma NotOutstanding(p: Point, e: nat)
    requires Records(p) && NoOrdered(p.q) && e < |p.a.sent| && Ordered(p.a.sent[e])
    ensures e !in p.q.inflight
  {
  }

  lemma DeliveredInOrder(p: Point, o: nat, r: Inflight, limit: nat)
    requires Inv(p) && NextStored(p, o) && r.ordered == Ordered(p.q.msgs[o])
    requires r.ordered ==> NoOrdered(p.q)
    ensures p.q.msgs[o] == p.a.sent[o]
    ensures Ordered(p.a.sent[o]) ==> forall e: nat :: e < o && Ordered(p.a.sent[e]) ==> Finished(p, e)
  {
    hide Numbered, Tries, Ordered;
    if Ordered(p.a.sent[o]) {
      forall e: nat | e < o && Ordered(p.a.sent[e])
        ensures Finished(p, e)
      {
        if e < p.q.cursor {
          NotOutstanding(p, e);
        } else {
          assert e !in p.q.msgs;
        }
      }
    }
  }
}
