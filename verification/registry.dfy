/**
 * Pinned snapshot views: created, borrowed chunk by chunk, renewed by borrowing, revoked past a hard age, collected.
 * Closing a view happens outside the lock, so a view taken out of the table is first `closing` and only later `closed`.
 */
module Registry {
  const HARD_TTL_FACTOR := 10

  datatype Entry = Entry(created: int, bornAt: int, refs: nat, revoked: bool, g: nat, index: nat)

  /** A borrow count per view; views never mentioned have none. */
  function Loans(l: map<nat, nat>, id: nat): nat {
    if id in l then l[id] else 0
  }

  class SnapRegistry {
    const ttl: int
    var nextID: nat
    var views: map<nat, Entry>
    /** Taken out of the table, Close not called yet; then Close called. */
    var closing: set<nat>
    var closed: set<nat>
    /** Borrows handed out and not yet given back. */
    ghost var loans: map<nat, nat>

    /**
     * Every id ever given out is in exactly one place; borrow counts are right; only a borrowed view can be revoked.
     */
    ghost predicate Valid()
      reads this
    {
      && ttl > 0
      && closing !! closed && closing !! views.Keys && closed !! views.Keys
      && (forall id: nat :: 1 <= id <= nextID <==> id in views || id in closing || id in closed)
      && (forall id :: id in views ==> views[id].refs == Loans(loans, id) && (views[id].revoked ==> views[id].refs > 0))
      && (forall id :: id !in views ==> Loans(loans, id) == 0)
    }

    constructor (ttl: int)
      requires ttl > 0
      ensures Valid() && views == map[] && nextID == 0 && this.ttl == ttl
    {
      this.ttl, nextID, views, closing, closed, loans := ttl, 0, map[], {}, {}, map[];
    }

    method Create(g: nat, index: nat, now: int) returns (id: nat)
      requires Valid()
      modifies this
      ensures Valid() && id == old(nextID) + 1 == nextID && id !in old(views) && id !in closed && id !in closing
      ensures views == old(views)[id := Entry(now, now, 0, false, g, index)]
      ensures closed == old(closed) && closing == old(closing) && loans == old(loans)
    {
      nextID := nextID + 1;
      id := nextID;
      views := views[id := Entry(now, now, 0, false, g, index)];
    }

    /** Borrow: refused once the view is gone or revoked; otherwise it restarts the soft clock, never the hard one. */
    method Get(id: nat, now: int) returns (ok: bool)
      requires Valid()
      modifies `views, `loans
      ensures Valid()
      ensures ok <==> id in old(views) && !old(views)[id].revoked
      ensures ok ==> views == old(views)[id := old(views)[id].(refs := old(views)[id].refs + 1, created := now)]
      ensures ok ==> Loans(loans, id) == Loans(old(loans), id) + 1 && id !in closed && id !in closing
      ensures !ok ==> views == old(views) && loans == old(loans)
    {
      if id !in views || views[id].revoked {
        return false;
      }
      var e := views[id];
      views := views[id := e.(refs := e.refs + 1, created := now)];
      loans := loans[id := Loans(loans, id) + 1];
      ok := true;
    }

    /**
     * Give a borrow back; the last one on a revoked view takes it out. With no borrow outstanding it changes nothing.
     */
    method Put(id: nat)
      requires Valid()
      modifies `views, `closing, `loans
      ensures Valid()
      ensures Loans(old(loans), id) == 0 ==> views == old(views) && closing == old(closing) && loans == old(loans)
      ensures Loans(old(loans), id) > 0 ==> id in old(views) && Loans(loans, id) == Loans(old(loans), id) - 1
      ensures Loans(old(loans), id) > 0 ==>
                if Loans(loans, id) == 0 && old(views)[id].revoked then
                  views == old(views) - {id} && closing == old(closing) + {id}
                else views == old(views)[id := old(views)[id].(refs := Loans(loans, id))] && closing == old(closing)
    {
      if id in views && views[id].refs > 0 {
        loans := loans[id := Loans(loans, id) - 1];
        var e := views[id].(refs := views[id].refs - 1);
        if e.refs == 0 && e.revoked {
          views := views - {id};
          closing := closing + {id};
        } else {
          views := views[id := e];
        }
      }
    }

    method Release(id: nat)
      requires Valid()
      modifies `views, `closing
      ensures Valid()
      ensures if id in old(views) && Loans(loans, id) == 0 then
                views == old(views) - {id} && closing == old(closing) + {id}
              else views == old(views) && closing == old(closing)
    {
      if id in views && views[id].refs == 0 {
        views := views - {id};
        closing := closing + {id};
      }
    }

    /** The Close that follows, once per view. */
    method FinishClose(id: nat)
      requires Valid() && id in closing
      modifies `closing, `closed
      ensures Valid() && id !in old(closed) && Loans(loans, id) == 0
      ensures closed == old(closed) + {id} && closing == old(closing) - {id}
    {
      closing := closing - {id};
      closed := closed + {id};
    }

    /**
     * GCOnce: unborrowed views past either age go, borrowed ones past the hard age are revoked, all others stay. So a
     * view at or past the hard age is out of the table or revoked when this returns.
     */
    method GCOnce(now: int) returns (n: nat)
      requires Valid()
      modifies `views, `closing
      ensures Valid()
      ensures views == Swept(old(views), old(views).Keys, ttl, now)
      ensures closing == old(closing) + Taken(old(views), old(views).Keys, ttl, now)
      ensures n == |Taken(old(views), old(views).Keys, ttl, now)|
      ensures forall id :: id in views ==> id in old(views)
      ensures forall id :: id in old(views) ==>
                var e := old(views)[id];
                var tooOld := now - e.bornAt >= 10 * ttl;
                && (id !in views <==> e.refs == 0 && (now - e.created >= ttl || tooOld || e.revoked))
                && (id in views ==> views[id] == e.(revoked := e.revoked || tooOld))
      ensures closing == old(closing) + (old(views).Keys - views.Keys) && n == |old(views).Keys - views.Keys|
      ensures forall id :: id in old(views) && OverHard(old(views)[id], ttl, now) ==>
                id in closing || (id in views && views[id].revoked && Loans(loans, id) > 0)
    {
      hide Swept, Taken, OverHard;
      ghost var was := views;
      n := Sweep(now);
      SweptExactly(was, ttl, now);
    }

    method Sweep(now: int) returns (n: nat)
      modifies `views, `closing
      ensures views == Swept(old(views), old(views).Keys, ttl, now)
      ensures closing == old(closing) + Taken(old(views), old(views).Keys, ttl, now)
      ensures n == |Taken(old(views), old(views).Keys, ttl, now)|
    {
      hide Swept, Taken;
      n := 0;
      var todo := views.Keys;
      ghost var v0 := views;
      ghost var done, taken: set<nat> := {}, {};
      SweptNothing(v0, ttl, now);
      while todo != {}
        invariant todo <= v0.Keys && done == v0.Keys - todo && v0 == old(views)
        invariant views == Swept(v0, done, ttl, now)
        invariant taken == Taken(v0, done, ttl, now) && n == |taken|
        invariant closing == old(closing) + taken
        decreases |todo|
      {
        var id :| id in todo;
        assert id in v0.Keys;
        SweptOne(v0, done, ttl, now, id);
        todo := todo - {id};
        done := done + {id};
        if Collectable(views[id], ttl, now) {
          taken := taken + {id};
          views := views - {id};
          closing := closing + {id};
          n := n + 1;
        } else {
          views := views[id := views[id].(revoked := views[id].revoked || OverHard(views[id], ttl, now))];
        }
      }
      assert done == v0.Keys;
    }
  }

  predicate OverHard(e: Entry, ttl: int, now: int) {
    now - e.bornAt >= ttl * HARD_TTL_FACTOR
  }

  /** What a collection removes. */
  predicate Collectable(e: Entry, ttl: int, now: int) {
    e.refs == 0 && (now - e.created >= ttl || OverHard(e, ttl, now) || e.revoked)
  }

  ghost function Taken(views: map<nat, Entry>, done: set<nat>, ttl: int, now: int): set<nat> {
    set id | id in views && id in done && Collectable(views[id], ttl, now)
  }

  /** The table once the ids in `done` have been looked at. */
  ghost function Swept(views: map<nat, Entry>, done: set<nat>, ttl: int, now: int): map<nat, Entry> {
    map id | id in views && id !in Taken(views, done, ttl, now) ::
      if id in done then views[id].(revoked := views[id].revoked || OverHard(views[id], ttl, now)) else views[id]
  }

  /** View by view: what one collection takes and what it does to the rest. */
  lemma SweptExactly(views: map<nat, Entry>, ttl: int, now: int)
    ensures var s, t := Swept(views, views.Keys, ttl, now), Taken(views, views.Keys, ttl, now);
            && t == views.Keys - s.Keys
            && (forall id :: id in s ==> id in views)
            && (forall id :: id in views ==>
                  var e := views[id];
                  var tooOld := now - e.bornAt >= 10 * ttl;
                  && (OverHard(e, ttl, now) <==> tooOld)
                  && (id in t <==> e.refs == 0 && (now - e.created >= ttl || tooOld || e.revoked))
                  && (id in s <==> id !in t)
                  && (id in s ==> s[id] == e.(revoked := e.revoked || tooOld)))
  {
  }

  lemma SweptNothing(views: map<nat, Entry>, ttl: int, now: int)
    ensures Taken(views, {}, ttl, now) == {} && Swept(views, {}, ttl, now) == views
  {
  }

  lemma SweptOne(views: map<nat, Entry>, done: set<nat>, ttl: int, now: int, id: nat)
    requires id in views && id !in done
    ensures var e, s := views[id], Swept(views, done, ttl, now);
            && id in s && s[id] == e && id !in Taken(views, done, ttl, now)
            && Taken(views, done + {id}, ttl, now) ==
                 Taken(views, done, ttl, now) + (if Collectable(e, ttl, now) then {id} else {})
            && Swept(views, done + {id}, ttl, now) ==
                 if Collectable(e, ttl, now) then s - {id}
                 else s[id := e.(revoked := e.revoked || OverHard(e, ttl, now))]
  {
  }
}
