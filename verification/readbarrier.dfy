/**
 * The read barrier of one group: callers gather in batches, one read-index round runs at a time, and a round is
 * released once the state machine has caught up. Every method is one atomic step of a caller, the round runner, raft or
 * the apply loop; any sequence of calls is an interleaving.
 */
module ReadBarrier {
  import opened Bytes

  /** A batch of callers that share one round; `err` counts only once it is done. */
  datatype Batch = Batch(n: nat, done: bool, ok: bool)

  /** Where the round runner is. */
  datatype Runner =
    | Idle                              // no runner
    | Looking                           // about to claim a batch
    | Leaving                           // found no batch, not yet marked as gone
    | Starting(batch: nat)              // claimed, read-index not yet asked for
    | Waiting(batch: nat, waiter: nat)  // asked, waiting to be released

  /** A request as raft sees it: the asking node and its own waiter number. */
  datatype Request = Request(node: nat, id: nat)

  datatype ReadState = ReadState(req: Request, index: nat)

  ghost predicate UpTo(seen: set<nat>, x: nat) {
    forall c :: c in seen ==> c <= x
  }

  class Group {
    const self: nat
    var leader: bool
    /** Index up to which the local state machine has applied. */
    var applied: nat
    var nextID: nat
    /** Waiters not yet released, and the read index each has; 0 until it is known. */
    var readWaiters: map<nat, nat>
    var released: set<nat>
    var batches: map<nat, Batch>
    var nextBatch: nat
    var brNext: Option<nat>
    var brRunning: bool
    var runner: Runner
    /** Highest index any write confirmed to any client has reached, anywhere in the cluster. */
    ghost var confirmed: nat
    /** What was confirmed when the request of each waiter went to raft, and when each caller joined its batch. */
    ghost var askedAt: map<nat, nat>
    ghost var joined: map<nat, set<nat>>

    /** Batches, what their members saw confirmed, and what a batch done without error has promised them. */
    ghost predicate BatchesOk()
      reads `batches, `nextBatch, `joined, `confirmed, `applied
    {
      && (forall b :: b in batches ==> b < nextBatch)
      && joined.Keys == batches.Keys
      && (forall b :: b in joined ==> UpTo(joined[b], confirmed))
      && (forall b :: b in joined && batches[b].done && batches[b].ok ==> UpTo(joined[b], applied))
    }

    ghost predicate WaitersOk()
      reads `askedAt, `nextID, `confirmed, `readWaiters, `released, `applied
    {
      && (forall w :: w in askedAt ==> w <= nextID && askedAt[w] <= confirmed)
      && (forall w :: w in readWaiters ==> w in askedAt && w !in released)
      && (forall w :: w in readWaiters && readWaiters[w] != 0 ==> readWaiters[w] >= askedAt[w])
      && (forall w :: w in released ==> w in askedAt && askedAt[w] <= applied)
    }

    /** The batch being served is not the one being joined, and its request went out after its last member joined. */
    ghost predicate RunnerOk()
      reads this
    {
      && (brNext.Some? ==> brNext.value in batches && !batches[brNext.value].done)
      && (runner.Starting? || runner.Waiting? ==>
            && runner.batch in joined && runner.batch in batches
            && !batches[runner.batch].done && brNext != Some(runner.batch))
      && (runner.Waiting? ==> runner.waiter in askedAt && UpTo(joined[runner.batch], askedAt[runner.waiter]))
      && (brRunning <==> !runner.Idle?)
    }

    ghost predicate Valid()
      reads this
    {
      BatchesOk() && WaitersOk() && RunnerOk()
    }

    constructor (self: nat)
      ensures Valid() && this.self == self && batches == map[]
    {
      this.self, leader, applied, nextID, readWaiters, released := self, false, 0, 0, map[], {};
      batches, nextBatch, brNext, brRunning, runner := map[], 0, None, false, Idle;
      confirmed, askedAt, joined := 0, map[], map[];
    }

    /** A write is confirmed to some client. */
    ghost method Confirm(index: nat)
      requires Valid() && index >= confirmed
      modifies `confirmed
      ensures Valid()
    {
      confirmed := index;
    }

    method OpenBatch()
      requires Valid()
      modifies `batches, `nextBatch, `brNext, `joined
      ensures Valid() && brNext.Some?
      ensures if old(brNext).Some? then brNext == old(brNext) && joined == old(joined) && batches == old(batches)
              else && brNext == Some(old(nextBatch)) && old(nextBatch) !in old(joined)
                   && joined == old(joined)[old(nextBatch) := {}]
    {
      assert forall b :: b in joined ==> b in batches.Keys;
      if brNext == None {
        batches := batches[nextBatch := Batch(0, false, false)];
        joined := joined[nextBatch := {}];
        brNext := Some(nextBatch);
        nextBatch := nextBatch + 1;
      }
    }

    /** readBarrier, up to the wait: join the gathering batch, start a runner if there is none. */
    method Join() returns (b: nat)
      requires Valid()
      modifies `batches, `nextBatch, `brNext, `brRunning, `runner, `joined
      ensures Valid()
      ensures brNext == Some(b) && b in batches && !batches[b].done
      ensures b in joined && confirmed in joined[b]
      ensures b in old(joined) ==> joined[b] == old(joined)[b] + {confirmed}
      ensures brRunning && (old(runner).Idle? ==> runner.Looking?) && (!old(runner).Idle? ==> runner == old(runner))
    {
      hide UpTo, Group.BatchesOk, Group.WaitersOk;
      OpenBatch();
      b := brNext.value;
      AddMember(b);
      if !brRunning {
        brRunning, runner := true, Looking;
      }
    }

    method AddMember(b: nat)
      requires Valid() && brNext == Some(b)
      modifies `batches, `joined
      ensures Valid() && b in old(joined) && b in batches && !batches[b].done
      ensures joined == old(joined)[b := old(joined)[b] + {confirmed}]
    {
      assert b in batches.Keys;
      batches := batches[b := batches[b].(n := batches[b].n + 1)];
      joined := joined[b := joined[b] + {confirmed}];
    }

    /** claimBatch: take the gathering batch, after which nobody can join it any more. */
    method ClaimBatch()
      requires Valid() && runner.Looking?
      modifies `runner, `brNext
      ensures Valid()
      ensures if old(brNext) == None then runner == Leaving && brNext == None
              else runner == Starting(old(brNext).value) && brNext == None
    {
      if brNext == None {
        runner := Leaving;
      } else {
        runner := Starting(brNext.value);
        brNext := None;
      }
    }

    /**
     * The runner marks itself as gone; a caller that joined since it looked has no runner (nothing is claimed of it).
     */
    method Leave()
      requires Valid() && runner.Leaving?
      modifies `runner, `brRunning
      ensures Valid() && !brRunning
    {
      runner, brRunning := Idle, false;
    }

    /** readIndexOnce, first half: refuse when not leader, else register a waiter and ask raft. */
    method AskReadIndex() returns (w: nat)
      requires Valid() && runner.Starting?
      modifies `runner, `batches, `nextID, `readWaiters, `askedAt
      ensures Valid()
      ensures old(leader) ==> w == old(nextID) + 1 && runner == Waiting(old(runner).batch, w)
      ensures old(leader) ==> askedAt == old(askedAt)[w := confirmed]
      ensures !old(leader) ==>
                var k := old(runner).batch;
                runner == Looking && batches == old(batches)[k := old(batches)[k].(done := true, ok := false)]
    {
      w := 0;
      if !leader {
        Finish(runner.batch, false);
        return;
      }
      nextID := nextID + 1;
      w := nextID;
      readWaiters := readWaiters[w := 0];
      askedAt := askedAt[w := confirmed];
      runner := Waiting(runner.batch, w);
    }

    method Finish(b: nat, ok: bool)
      requires Valid() && (runner.Starting? || runner.Waiting?) && runner.batch == b
      requires ok ==> b in joined && UpTo(joined[b], applied)
      modifies `runner, `batches
      ensures Valid() && runner == Looking
      ensures batches == old(batches)[b := old(batches)[b].(done := true, ok := ok)]
    {
      batches := batches[b := batches[b].(done := true, ok := ok)];
      runner := Looking;
    }

    /**
     * One read state comes back. Raft guarantees an index no lower than anything confirmed when the request was made
     * (section 6.4 of the Raft dissertation by Ongaro); a request of another node or of a waiter that gave up is
     * ignored.
     */
    method StepReadState(rs: ReadState)
      requires Valid()
      requires rs.req.node == self && rs.req.id in askedAt ==> rs.index >= askedAt[rs.req.id]
      modifies `readWaiters, `released
      ensures Valid()
      ensures rs.req.node != self || rs.req.id !in old(readWaiters) ==>
                readWaiters == old(readWaiters) && released == old(released)
      ensures rs.req.node == self && rs.req.id in old(readWaiters) ==>
                if applied >= rs.index then
                  released == old(released) + {rs.req.id} && readWaiters == old(readWaiters) - {rs.req.id}
                else released == old(released) && readWaiters == old(readWaiters)[rs.req.id := rs.index]
    {
      var id := rs.req.id;
      if rs.req.node != self || id !in readWaiters {
        return;
      }
      readWaiters := readWaiters[id := rs.index];
      if applied >= rs.index {
        released := released + {id};
        readWaiters := readWaiters - {id};
      }
    }

    /** The apply loop has applied up to `index`. */
    method Apply(index: nat)
      requires Valid() && index >= applied
      modifies `applied
      ensures Valid() && applied == index
    {
      applied := index;
    }

    /** notifyReadWaiters: release every waiter whose index is known and reached; an unknown one (0) stays. */
    method NotifyReadWaiters()
      requires Valid()
      modifies `readWaiters, `released
      ensures Valid()
      ensures var was := old(readWaiters);
              released == old(released) + set w | w in was && was[w] != 0 && was[w] <= applied
      ensures readWaiters.Keys == old(readWaiters).Keys - (released - old(released))
      ensures forall w :: w in readWaiters ==> readWaiters[w] == old(readWaiters)[w]
    {
      var go := set w | w in readWaiters && readWaiters[w] != 0 && readWaiters[w] <= applied;
      released := released + go;
      readWaiters := readWaiters - go;
    }

    /** The round ends well: the waiter was released. */
    method RoundReleased()
      requires Valid() && runner.Waiting? && runner.waiter in released
      modifies `runner, `batches
      ensures Valid() && runner == Looking
      ensures batches == old(batches)[old(runner).batch := old(batches)[old(runner).batch].(done := true, ok := true)]
    {
      Finish(runner.batch, true);
    }

    /** The round ends badly: time is up, or raft refused the request; the waiter is taken out. */
    method RoundFailed()
      requires Valid() && runner.Waiting?
      modifies `runner, `batches, `readWaiters
      ensures Valid() && runner == Looking
      ensures old(runner).waiter !in readWaiters
      ensures batches == old(batches)[old(runner).batch := old(batches)[old(runner).batch].(done := true, ok := false)]
    {
      readWaiters := readWaiters - {runner.waiter};
      Finish(runner.batch, false);
    }

    method LoseOrGainLead(l: bool)
      requires Valid()
      modifies `leader
      ensures Valid()
    {
      leader := l;
    }

    /**
     * What the barrier promises: once a batch is done without error, the local state holds every write that was
     * confirmed before any of its callers joined.
     */
    lemma BarrierHolds(b: nat, confirmedBefore: nat)
      requires Valid() && b in joined && confirmedBefore in joined[b]
      requires batches[b].done && batches[b].ok
      ensures confirmedBefore <= applied
    {
      assert b in batches.Keys;
      assert UpTo(joined[b], applied);
    }
  }
}
