/**
 * Batched log appends: messages are written one by one, synced together once if any of them needs it, and only then
 * answered; a snapshot message closes the batch before it and is handled alone. What happened is a trace of events.
 */
module AppendBatch {
  import opened Faults

  /** A reply that raft wants sent once its message is stored: to a peer, or back to this node's own raft. */
  datatype Resp = Resp(id: nat, toSelf: bool)

  /**
   * One MsgStorageAppend: whether raft wants it durable, whether it carries a snapshot, and the replies it asks for.
   */
  datatype Msg = Msg(mustSync: bool, snapshot: bool, responses: seq<Resp>)

  function Ids(rs: seq<Resp>, toSelf: bool): seq<nat> {
    if rs == [] then []
    else Ids(rs[..|rs| - 1], toSelf) + if rs[|rs| - 1].toSelf == toSelf then [rs[|rs| - 1].id] else []
  }

  /** The replies of a message as they go out: to peers first, then to itself, each kind in the order asked for. */
  function Sent(m: Msg): seq<nat> {
    Ids(m.responses, false) + Ids(m.responses, true)
  }

  /**
   * `out` is what `rs` asks for, each reply once: `pos` says which of `rs` the k-th one is. All replies to peers come
   * before all those to itself, and each kind keeps its order.
   */
  ghost predicate Delivers(rs: seq<Resp>, out: seq<nat>, pos: seq<nat>) {
    && |out| == |pos| == |rs|
    && (forall k :: 0 <= k < |pos| ==> pos[k] < |rs| && out[k] == rs[pos[k]].id)
    && (forall k, l :: 0 <= k < l < |pos| ==> Precedes(rs, pos[k], pos[l]))
  }

  ghost predicate Precedes(rs: seq<Resp>, a: nat, b: nat) {
    a < |rs| && b < |rs| && if rs[a].toSelf == rs[b].toSelf then a < b else rs[b].toSelf
  }

  /** The positions of one kind, in order. */
  ghost function Where(rs: seq<Resp>, toSelf: bool): seq<nat> {
    if rs == [] then []
    else Where(rs[..|rs| - 1], toSelf) + if rs[|rs| - 1].toSelf == toSelf then [|rs| - 1] else []
  }

  lemma {:induction false} WhereAre(rs: seq<Resp>, toSelf: bool)
    ensures var w := Where(rs, toSelf);
            && |w| == |Ids(rs, toSelf)|
            && (forall k :: 0 <= k < |w| ==>
                  w[k] < |rs| && rs[w[k]].toSelf == toSelf && rs[w[k]].id == Ids(rs, toSelf)[k])
            && (forall k, l :: 0 <= k < l < |w| ==> w[k] < w[l])
    ensures |Where(rs, toSelf)| + |Where(rs, !toSelf)| == |rs|
  {
    if rs != [] {
      WhereAre(rs[..|rs| - 1], toSelf);
    }
  }

  /** Sending peers first drops and repeats nothing and changes no order but that between the two kinds. */
  lemma SentDelivers(m: Msg) returns (pos: seq<nat>)
    ensures Delivers(m.responses, Sent(m), pos)
  {
    hide Ids, Where;
    WhereAre(m.responses, false);
    WhereAre(m.responses, true);
    pos := Where(m.responses, false) + Where(m.responses, true);
  }

  /** A permutation: nothing asked for is missing, and nothing goes out twice. */
  lemma DeliversAll(rs: seq<Resp>, out: seq<nat>, pos: seq<nat>, i: nat)
    requires Delivers(rs, out, pos) && i < |rs|
    ensures exists k :: 0 <= k < |pos| && pos[k] == i
  {
    if i !in pos {
      DistinctWithin(pos, UpTo(|rs|) - {i});
    }
  }

  lemma {:induction false} DistinctWithin(pos: seq<nat>, s: set<nat>)
    requires (forall k :: 0 <= k < |pos| ==> pos[k] in s) && (forall k, l :: 0 <= k < l < |pos| ==> pos[k] != pos[l])
    ensures |pos| <= |s|
  {
    if pos != [] {
      DistinctWithin(pos[1..], s - {pos[0]});
    }
  }

  ghost function UpTo(n: nat): (s: set<nat>)
    ensures |s| == n && forall k :: k in s <==> 0 <= k < n
  {
    if n == 0 then {} else UpTo(n - 1) + {n - 1}
  }

  datatype Event = Wrote(i: nat) | Synced | Installed(i: nat) | Replied(i: nat, r: nat)

  type Trace = seq<Event>

  /** The replies to message `i` in a trace are those it asked for, all of them, each once, peers first. */
  ghost predicate InFull(t: Trace, i: nat, rs: seq<Resp>) {
    exists at: seq<nat>, out: seq<nat>, pos: seq<nat> :: RepliedAt(t, i, at, out) && Delivers(rs, out, pos)
  }

  /** The replies to message `i` stand at the positions `at` and nowhere else, and are `out` in this order. */
  ghost predicate RepliedAt(t: Trace, i: nat, at: seq<nat>, out: seq<nat>) {
    && |at| == |out|
    && (forall k :: 0 <= k < |at| ==> at[k] < |t| && t[at[k]] == Replied(i, out[k]))
    && (forall k, l :: 0 <= k < l < |at| ==> at[k] < at[l])
    && (forall p :: 0 <= p < |t| && t[p].Replied? && t[p].i == i ==> p in at)
  }

  /** The replies of a trace, in the order they went out. */
  function Replies(t: Trace): seq<(nat, nat)> {
    if t == [] then []
    else
      var e := t[|t| - 1];
      Replies(t[..|t| - 1]) + if e.Replied? then [(e.i, e.r)] else []
  }

  function Pairs(i: nat, rs: seq<nat>): (p: seq<(nat, nat)>) {
    if rs == [] then [] else Pairs(i, rs[..|rs| - 1]) + [(i, rs[|rs| - 1])]
  }

  /** Each of the first `n` messages answered once, in order, but for installs a shutdown cut off. */
  function Expected(batch: seq<Msg>, n: nat, cut: set<nat>): seq<(nat, nat)>
    requires n <= |batch|
  {
    if n == 0 then [] else Expected(batch, n - 1, cut) + Part(batch, n - 1, cut)
  }

  function Part(batch: seq<Msg>, i: nat, cut: set<nat>): seq<(nat, nat)>
    requires i < |batch|
  {
    if i in cut then [] else Pairs(i, Sent(batch[i]))
  }

  lemma ExpectedStep(batch: seq<Msg>, n: nat, cut: set<nat>)
    requires n <= |batch|
    ensures Expected(batch, n, cut) == if n == 0 then [] else Expected(batch, n - 1, cut) + Part(batch, n - 1, cut)
  {
    hide Part;
  }

  /** How many syncs a trace took. */
  function Syncs(t: Trace): nat {
    if t == [] then 0 else Syncs(t[..|t| - 1]) + if t[|t| - 1].Synced? then 1 else 0
  }

  ghost function Demand(m: Msg, fsync: bool): nat {
    if fsync && m.mustSync then 1 else 0
  }

  /** Messages of the first `n` whose writes raft wants on disk before they are vouched for. */
  ghost function Demands(batch: seq<Msg>, fsync: bool, n: nat): nat
    requires n <= |batch|
  {
    if n == 0 then 0 else Demands(batch, fsync, n - 1) + Demand(batch[n - 1], fsync)
  }

  function Snapshots(batch: seq<Msg>, n: nat): nat
    requires n <= |batch|
  {
    if n == 0 then 0 else Snapshots(batch, n - 1) + if batch[n - 1].snapshot then 1 else 0
  }

  ghost predicate WrittenBefore(t: Trace, i: nat, p: nat) {
    exists w :: 0 <= w < p && w < |t| && t[w] == Wrote(i)
  }

  /** Message `i` was written, and synced after that. */
  ghost predicate SyncedBefore(t: Trace, i: nat, p: nat) {
    exists w, s :: 0 <= w < s < p && s < |t| && t[w] == Wrote(i) && t[s] == Synced
  }

  /** The snapshot of message `i` was installed, and the message written after that. */
  ghost predicate InstalledBefore(t: Trace, i: nat, p: nat) {
    exists v, w :: 0 <= v < w < p && w < |t| && t[v] == Installed(i) && t[w] == Wrote(i)
  }

  /** What must have happened before message `i` may be answered at position `p`. */
  ghost predicate Earned(t: Trace, batch: seq<Msg>, fsync: bool, i: nat, p: nat) {
    && i < |batch| && WrittenBefore(t, i, p)
    && (batch[i].snapshot ==> InstalledBefore(t, i, p))
    && (fsync && batch[i].mustSync ==> SyncedBefore(t, i, p))
  }

  ghost predicate Durable(t: Trace, batch: seq<Msg>, fsync: bool) {
    forall p :: 0 <= p < |t| && t[p].Replied? ==> Earned(t, batch, fsync, t[p].i, p)
  }

  /** A snapshot is installed after every earlier reply, and nothing later is written before its own replies are out. */
  ghost predicate Split(t: Trace, batch: seq<Msg>) {
    && (forall p, q :: 0 <= p < q < |t| && t[p].Installed? && t[q].Replied? ==> t[q].i >= t[p].i)
    && (forall p, q ::
          0 <= p < q < |t| && t[p].Wrote? && t[q].Replied? && t[q].i < |batch| && batch[t[q].i].snapshot ==>
            t[p].i <= t[q].i)
  }

  /** Messages below `start` are answered, those from there to `i` written and waiting; `need` says a sync is due. */
  ghost predicate Midway(t: Trace, batch: seq<Msg>, fsync: bool, start: nat, i: nat, need: bool, cut: set<nat>) {
    && start <= i <= |batch|
    && Replies(t) == Expected(batch, start, cut)
    && Durable(t, batch, fsync) && Split(t, batch)
    && (forall j :: 0 <= j < start && j !in cut ==> Earned(t, batch, fsync, j, |t|))
    && (forall j :: start <= j < i ==> !batch[j].snapshot && WrittenBefore(t, j, |t|))
    && (forall p :: 0 <= p < |t| && t[p].Wrote? ==> t[p].i < i)
    && (forall p :: 0 <= p < |t| && t[p].Installed? ==> t[p].i < start)
    && (forall p :: 0 <= p < |t| && t[p].Replied? ==> t[p].i < start)
    && (forall j :: start <= j < i && fsync && batch[j].mustSync ==> need)
    && (forall j :: j in cut ==> j < start && batch[j].snapshot)
  }

  // ----- the replies of one message -----

  function Of(ps: seq<(nat, nat)>, i: nat): seq<nat> {
    if ps == [] then [] else Of(ps[..|ps| - 1], i) + if ps[|ps| - 1].0 == i then [ps[|ps| - 1].1] else []
  }

  lemma {:induction false} OfConcat(a: seq<(nat, nat)>, b: seq<(nat, nat)>, i: nat)
    ensures Of(a + b, i) == Of(a, i) + Of(b, i)
  {
    if b == [] {
      assert a + b == a;
    } else {
      OfConcat(a, b[..|b| - 1], i);
      assert (a + b)[..|a + b| - 1] == a + b[..|b| - 1];
    }
  }

  lemma {:induction false} OfPairs(n: nat, rs: seq<nat>, i: nat)
    ensures Of(Pairs(n, rs), i) == if n == i then rs else []
  {
    if rs != [] {
      OfPairs(n, rs[..|rs| - 1], i);
      OfConcat(Pairs(n, rs[..|rs| - 1]), [(n, rs[|rs| - 1])], i);
      assert [(n, rs[|rs| - 1])][..0] == [];
    }
  }

  lemma {:induction false} OfExpected(batch: seq<Msg>, n: nat, cut: set<nat>, i: nat)
    requires n <= |batch|
    ensures Of(Expected(batch, n, cut), i) == if i < n && i !in cut then Sent(batch[i]) else []
  {
    hide Sent, Expected, Pairs, Of;
    ExpectedStep(batch, n, cut);
    if n > 0 {
      OfExpected(batch, n - 1, cut, i);
      OfPairs(n - 1, Sent(batch[n - 1]), i);
      OfNothing(i);
      OfConcat(Expected(batch, n - 1, cut), Part(batch, n - 1, cut), i);
    } else {
      OfNothing(i);
    }
  }

  lemma OfNothing(i: nat)
    ensures Of([], i) == []
  {
  }

  lemma OfReply(p: Trace, e: Event, i: nat)
    ensures Of(Replies(p + [e]), i) == Of(Replies(p), i) + if e.Replied? && e.i == i then [e.r] else []
  {
    RepliesSnoc(p, e);
    var x := if e.Replied? then [(e.i, e.r)] else [];
    OfConcat(Replies(p), x, i);
    assert x != [] ==> x[..0] == [];
  }

  lemma StandNext(p: Trace, e: Event, i: nat, at: seq<nat>, out: seq<nat>)
    requires RepliedAt(p, i, at, out)
    ensures var mine := e.Replied? && e.i == i;
            RepliedAt(p + [e], i, if mine then at + [|p|] else at, out + if mine then [e.r] else [])
  {
    var t := p + [e];
    var mine := e.Replied? && e.i == i;
    var at', out' := if mine then at + [|p|] else at, out + if mine then [e.r] else [];
    assert forall k :: 0 <= k < |p| ==> t[k] == p[k];
    forall q | 0 <= q < |t| && t[q].Replied? && t[q].i == i
      ensures q in at'
    {
      if q == |p| {
        assert at'[|at|] == q;
      } else {
        var k :| 0 <= k < |at| && at[k] == q;
        assert at'[k] == q;
      }
    }
  }

  lemma {:induction false} RepliesStand(t: Trace, i: nat) returns (at: seq<nat>)
    ensures RepliedAt(t, i, at, Of(Replies(t), i))
  {
    hide RepliedAt, Of, Replies;
    if t == [] {
      at := [];
      NoneStand(i);
    } else {
      var p, e := t[..|t| - 1], t[|t| - 1];
      assert t == p + [e];
      var a := RepliesStand(p, i);
      OfReply(p, e, i);
      StandNext(p, e, i, a, Of(Replies(p), i));
      at := if e.Replied? && e.i == i then a + [|p|] else a;
    }
  }

  lemma NoneStand(i: nat)
    ensures RepliedAt([], i, [], Of(Replies([]), i))
  {
  }

  lemma RepliesInFull(t: Trace, batch: seq<Msg>, cut: set<nat>)
    requires Replies(t) == Expected(batch, |batch|, cut)
    ensures forall i :: 0 <= i < |batch| && i !in cut ==> InFull(t, i, batch[i].responses)
    ensures forall p :: 0 <= p < |t| && t[p].Replied? ==> t[p].i !in cut
  {
    forall i | 0 <= i < |batch| && i !in cut
      ensures InFull(t, i, batch[i].responses)
    {
      var at := RepliesStand(t, i);
      OfExpected(batch, |batch|, cut, i);
      var pos := SentDelivers(batch[i]);
    }
    forall p | 0 <= p < |t| && t[p].Replied?
      ensures t[p].i !in cut
    {
      var at := RepliesStand(t, t[p].i);
      OfExpected(batch, |batch|, cut, t[p].i);
    }
  }

  /** Replies go out message by message. */
  ghost predicate InOrder(t: Trace) {
    forall p, q :: 0 <= p < q < |t| && t[p].Replied? && t[q].Replied? ==> t[p].i <= t[q].i
  }

  ghost predicate Rising(ps: seq<(nat, nat)>) {
    forall a, b :: 0 <= a < b < |ps| ==> ps[a].0 <= ps[b].0
  }

  lemma {:induction false} PairsAll(i: nat, rs: seq<nat>)
    ensures forall k :: 0 <= k < |Pairs(i, rs)| ==> Pairs(i, rs)[k].0 == i
  {
    if rs != [] {
      PairsAll(i, rs[..|rs| - 1]);
    }
  }

  lemma {:induction false} ExpectedRises(batch: seq<Msg>, n: nat, cut: set<nat>)
    requires n <= |batch|
    ensures Rising(Expected(batch, n, cut))
    ensures forall k :: 0 <= k < |Expected(batch, n, cut)| ==> Expected(batch, n, cut)[k].0 < n
  {
    hide Sent, Expected, Pairs;
    ExpectedStep(batch, n, cut);
    if n > 0 {
      ExpectedRises(batch, n - 1, cut);
      PairsAll(n - 1, Sent(batch[n - 1]));
    }
  }

  lemma {:induction false} RepliesOrder(t: Trace)
    requires Rising(Replies(t))
    ensures InOrder(t)
    ensures forall p :: 0 <= p < |t| && t[p].Replied? ==> exists k :: 0 <= k < |Replies(t)| && Replies(t)[k].0 == t[p].i
  {
    if t != [] {
      var p, e := t[..|t| - 1], t[|t| - 1];
      var rs := Replies(p);
      assert Replies(t)[..|rs|] == rs;
      assert forall a, b :: 0 <= a < b < |rs| ==> rs[a] == Replies(t)[a] && rs[b] == Replies(t)[b];
      RepliesOrder(p);
      assert e.Replied? ==> Replies(t)[|rs|].0 == e.i;
      forall q | 0 <= q < |t| && t[q].Replied?
        ensures exists k :: 0 <= k < |Replies(t)| && Replies(t)[k].0 == t[q].i
        ensures e.Replied? ==> t[q].i <= e.i
      {
        if q < |p| {
          assert p[q] == t[q];
          var k :| 0 <= k < |rs| && rs[k].0 == p[q].i;
          assert Replies(t)[k].0 == t[q].i;
        }
      }
      forall a, b | 0 <= a < b < |t| && t[a].Replied? && t[b].Replied?
        ensures t[a].i <= t[b].i
      {
        if b < |p| {
          assert p[a] == t[a] && p[b] == t[b];
        }
      }
    }
  }

  lemma PrefixRises(a: seq<(nat, nat)>, b: seq<(nat, nat)>)
    requires a <= b && Rising(b)
    ensures Rising(a)
  {
    assert forall i :: 0 <= i < |a| ==> a[i] == b[i];
  }

  /** Whatever stops the batch, the replies so far went out message by message, and only to messages there are. */
  lemma SafeOrder(t: Trace, batch: seq<Msg>, fsync: bool, cut: set<nat>)
    requires SafeSoFar(t, batch, fsync, cut)
    ensures forall p :: 0 <= p < |t| && t[p].Replied? ==> t[p].i < |batch|
    ensures forall p, q :: 0 <= p < q < |t| && t[p].Replied? && t[q].Replied? ==> t[p].i <= t[q].i
  {
    hide Replies, Expected, Split, WrittenBefore, SyncedBefore;
    ExpectedRises(batch, |batch|, cut);
    PrefixRises(Replies(t), Expected(batch, |batch|, cut));
    RepliesOrder(t);
  }

  // ----- one event more -----

  lemma EarnedStays(t: Trace, e: Event, batch: seq<Msg>, fsync: bool, i: nat, p: nat)
    requires Earned(t, batch, fsync, i, p)
    ensures Earned(t + [e], batch, fsync, i, p)
  {
    var n := t + [e];
    var w :| 0 <= w < p && w < |t| && t[w] == Wrote(i);
    assert n[w] == t[w];
    if fsync && batch[i].mustSync {
      var v, s :| 0 <= v < s < p && s < |t| && t[v] == Wrote(i) && t[s] == Synced;
      assert n[v] == t[v] && n[s] == t[s];
    }
    if batch[i].snapshot {
      var v, x :| 0 <= v < x < p && x < |t| && t[v] == Installed(i) && t[x] == Wrote(i);
      assert n[v] == t[v] && n[x] == t[x];
    }
  }

  lemma DurableSnoc(t: Trace, e: Event, batch: seq<Msg>, fsync: bool)
    requires Durable(t, batch, fsync)
    requires e.Replied? ==> Earned(t, batch, fsync, e.i, |t|)
    ensures Durable(t + [e], batch, fsync)
  {
    var n := t + [e];
    forall p | 0 <= p < |n| && n[p].Replied?
      ensures Earned(n, batch, fsync, n[p].i, p)
    {
      EarnedStays(t, e, batch, fsync, n[p].i, p);
    }
  }

  lemma SplitSnoc(t: Trace, e: Event, batch: seq<Msg>)
    requires Split(t, batch)
    requires e.Replied? ==> forall p :: 0 <= p < |t| && t[p].Installed? ==> t[p].i <= e.i
    requires e.Replied? && e.i < |batch| && batch[e.i].snapshot ==> forall p :: 0 <= p < |t| && t[p].Wrote? ==>
              t[p].i <= e.i
    ensures Split(t + [e], batch)
  {
  }

  lemma RepliesSnoc(t: Trace, e: Event)
    ensures Replies(t + [e]) == Replies(t) + if e.Replied? then [(e.i, e.r)] else []
    ensures Syncs(t + [e]) == Syncs(t) + if e.Synced? then 1 else 0
  {
    assert (t + [e])[..|t|] == t;
  }

  lemma WrittenStays(t: Trace, e: Event, j: nat)
    requires WrittenBefore(t, j, |t|)
    ensures WrittenBefore(t + [e], j, |t + [e]|)
  {
    var w :| 0 <= w < |t| && t[w] == Wrote(j);
    assert (t + [e])[w] == t[w];
  }

  lemma EarnedLater(t: Trace, e: Event, batch: seq<Msg>, fsync: bool, i: nat)
    requires Earned(t, batch, fsync, i, |t|)
    ensures Earned(t + [e], batch, fsync, i, |t| + 1)
  {
    EarnedStays(t, e, batch, fsync, i, |t|);
    var n := t + [e];
    var w :| 0 <= w < |t| && w < |n| && n[w] == Wrote(i);
    if fsync && batch[i].mustSync {
      var v, s :| 0 <= v < s < |t| && s < |n| && n[v] == Wrote(i) && n[s] == Synced;
    }
    if batch[i].snapshot {
      var v, x :| 0 <= v < x < |t| && x < |n| && n[v] == Installed(i) && n[x] == Wrote(i);
    }
  }

  lemma AllEarnedLater(t: Trace, e: Event, batch: seq<Msg>, fsync: bool, n: nat, cut: set<nat>)
    requires forall m :: 0 <= m < n && m !in cut ==> Earned(t, batch, fsync, m, |t|)
    ensures forall m :: 0 <= m < n && m !in cut ==> Earned(t + [e], batch, fsync, m, |t + [e]|)
  {
    hide Earned;
    forall m | 0 <= m < n && m !in cut
      ensures Earned(t + [e], batch, fsync, m, |t + [e]|)
    {
      EarnedLater(t, e, batch, fsync, m);
    }
  }

  lemma WroteOne(t: Trace, batch: seq<Msg>, fsync: bool, start: nat, i: nat, need: bool, cut: set<nat>)
    requires Midway(t, batch, fsync, start, i, need, cut) && i < |batch| && !batch[i].snapshot
    ensures Midway(t + [Wrote(i)], batch, fsync, start, i + 1, need || (fsync && batch[i].mustSync), cut)
  {
    hide Durable, Replies, Expected, WrittenBefore, Earned;
    var e := Wrote(i);
    var n := t + [e];
    AllEarnedLater(t, e, batch, fsync, start, cut);
    DurableSnoc(t, e, batch, fsync);
    RepliesSnoc(t, e);
    SplitSnoc(t, e, batch);
    hide Split;
    forall j | start <= j < i + 1
      ensures WrittenBefore(n, j, |n|)
    {
      if j < i {
        WrittenStays(t, e, j);
      } else {
        JustWritten(t, i);
      }
    }
  }

  lemma JustWritten(t: Trace, i: nat)
    ensures WrittenBefore(t + [Wrote(i)], i, |t + [Wrote(i)]|)
  {
    assert (t + [Wrote(i)])[|t|] == Wrote(i);
  }

  /** After a sync every waiting message has earned its replies. */
  lemma SyncedAll(t: Trace, batch: seq<Msg>, fsync: bool, start: nat, i: nat, need: bool, cut: set<nat>)
    requires Midway(t, batch, fsync, start, i, need, cut)
    ensures Midway(t + [Synced], batch, fsync, start, i, need, cut)
    ensures var n := t + [Synced]; forall j :: start <= j < i ==> Earned(n, batch, fsync, j, |n|)
  {
    var e := Synced;
    var n := t + [e];
    AllEarnedLater(t, e, batch, fsync, start, cut);
    DurableSnoc(t, e, batch, fsync);
    RepliesSnoc(t, e);
    SplitSnoc(t, e, batch);
    forall j | start <= j < i
      ensures WrittenBefore(n, j, |n|) && Earned(n, batch, fsync, j, |n|)
    {
      WrittenStays(t, e, j);
      var w :| 0 <= w < |t| && t[w] == Wrote(j);
      assert n[w] == Wrote(j) && n[|t|] == Synced;
    }
    hide Split, Durable, Replies, Expected, Earned, WrittenBefore;
  }

  lemma EarnedUnsynced(t: Trace, batch: seq<Msg>, fsync: bool, start: nat, i: nat, need: bool, cut: set<nat>)
    requires Midway(t, batch, fsync, start, i, need, cut) && !need
    ensures forall j :: start <= j < i ==> Earned(t, batch, fsync, j, |t|)
  {
  }

  /** Part of the way through answering message `j`: the first `k` of its replies are out. */
  ghost predicate Answering(t: Trace, batch: seq<Msg>, fsync: bool, j: nat, k: nat, i: nat, cut: set<nat>) {
    && j <= i <= |batch| && (j < i ==> k <= |Sent(batch[j])|) && (j == i ==> k == 0)
    && Replies(t) == Expected(batch, j, cut) + (if j < i then Pairs(j, Sent(batch[j])[..k]) else [])
    && Durable(t, batch, fsync) && Split(t, batch)
    && (forall m :: 0 <= m < i && m !in cut ==> Earned(t, batch, fsync, m, |t|))
    && (forall p :: 0 <= p < |t| && t[p].Wrote? ==> t[p].i < i)
    && (forall p :: 0 <= p < |t| && t[p].Installed? ==> t[p].i <= j)
    && (forall p :: 0 <= p < |t| && t[p].Replied? ==> t[p].i <= j)
    && (forall m :: j < m < i ==> !batch[m].snapshot)
    && (j < i && batch[j].snapshot ==> i == j + 1)
    && (forall m :: m in cut ==> m < j && batch[m].snapshot)
  }

  lemma PairsSnoc(x: seq<(nat, nat)>, j: nat, rs: seq<nat>, k: nat)
    requires k < |rs|
    ensures x + Pairs(j, rs[..k]) + [(j, rs[k])] == x + Pairs(j, rs[..k + 1])
  {
    assert rs[..k + 1][..k] == rs[..k];
  }

  lemma AnsweredOne(t: Trace, batch: seq<Msg>, fsync: bool, j: nat, k: nat, i: nat, cut: set<nat>)
    requires Answering(t, batch, fsync, j, k, i, cut) && j < i && k < |Sent(batch[j])|
    ensures Answering(t + [Replied(j, Sent(batch[j])[k])], batch, fsync, j, k + 1, i, cut)
  {
    hide Durable, Replies, Expected, Earned, Pairs;
    var rs := Sent(batch[j]);
    var e := Replied(j, rs[k]);
    DurableSnoc(t, e, batch, fsync);
    RepliesSnoc(t, e);
    SplitSnoc(t, e, batch);
    hide Split;
    AllEarnedLater(t, e, batch, fsync, i, cut);
    PairsSnoc(Expected(batch, j, cut), j, rs, k);
  }

  lemma AnsweredAll(t: Trace, batch: seq<Msg>, fsync: bool, j: nat, i: nat, cut: set<nat>)
    requires j < i <= |batch| && Answering(t, batch, fsync, j, |Sent(batch[j])|, i, cut)
    ensures Answering(t, batch, fsync, j + 1, 0, i, cut)
  {
    hide Durable, Replies, Earned, Split, Expected, Sent, Pairs;
    var rs := Sent(batch[j]);
    assert rs[..|rs|] == rs;
    var next := Expected(batch, j + 1, cut);
    assert next == Expected(batch, j, cut) + Pairs(j, rs) by {
      ExpectedStep(batch, j + 1, cut);
    }
    if j + 1 < i {
      NothingYet(j + 1, Sent(batch[j + 1]));
    }
    assert next + [] == next;
  }

  lemma NothingYet(j: nat, rs: seq<nat>)
    ensures Pairs(j, rs[..0]) == []
  {
  }

  lemma AnswerStart(t: Trace, batch: seq<Msg>, fsync: bool, start: nat, i: nat, need: bool, cut: set<nat>)
    requires Midway(t, batch, fsync, start, i, need, cut)
    requires forall j :: start <= j < i ==> Earned(t, batch, fsync, j, |t|)
    ensures Answering(t, batch, fsync, start, 0, i, cut)
  {
    hide Durable, Replies, Earned, Expected;
    if start < i {
      assert Sent(batch[start])[..0] == [];
      assert Pairs(start, []) == [];
    }
    assert Expected(batch, start, cut) + [] == Expected(batch, start, cut);
  }

  lemma AnswerEnd(t: Trace, batch: seq<Msg>, fsync: bool, i: nat, cut: set<nat>)
    requires Answering(t, batch, fsync, i, 0, i, cut) && (forall p :: 0 <= p < |t| && t[p].Installed? ==> t[p].i < i)
    requires forall p :: 0 <= p < |t| && t[p].Replied? ==> t[p].i < i
    ensures Midway(t, batch, fsync, i, i, false, cut)
  {
    hide Durable, Replies, Earned, Expected;
    assert Expected(batch, i, cut) + [] == Expected(batch, i, cut);
  }

  // ----- snapshots -----

  function Alone(i: nat, sync: bool): Trace {
    [Installed(i), Wrote(i)] + if sync then [Synced] else []
  }

  lemma SnapshotDurable(t: Trace, batch: seq<Msg>, fsync: bool, i: nat, sync: bool, cut: set<nat>)
    requires Durable(t, batch, fsync) && Split(t, batch)
    requires forall m :: 0 <= m < i && m !in cut ==> Earned(t, batch, fsync, m, |t|)
    ensures forall m :: 0 <= m < i && m !in cut ==> Earned(t + Alone(i, sync), batch, fsync, m, |t + Alone(i, sync)|)
    ensures Durable(t + Alone(i, sync), batch, fsync) && Split(t + Alone(i, sync), batch)
    ensures Replies(t + Alone(i, sync)) == Replies(t)
    ensures Syncs(t + Alone(i, sync)) == Syncs(t) + if sync then 1 else 0
  {
    hide Durable, Split, Replies, Syncs, Earned;
    var a, b := t + [Installed(i)], t + [Installed(i)] + [Wrote(i)];
    DurableSnoc(t, Installed(i), batch, fsync);
    DurableSnoc(a, Wrote(i), batch, fsync);
    DurableSnoc(b, Synced, batch, fsync);
    AllEarnedLater(t, Installed(i), batch, fsync, i, cut);
    AllEarnedLater(a, Wrote(i), batch, fsync, i, cut);
    AllEarnedLater(b, Synced, batch, fsync, i, cut);
    SplitSnoc(t, Installed(i), batch);
    SplitSnoc(a, Wrote(i), batch);
    SplitSnoc(b, Synced, batch);
    RepliesSnoc(t, Installed(i));
    RepliesSnoc(a, Wrote(i));
    RepliesSnoc(b, Synced);
    assert t + Alone(i, sync) == if sync then b + [Synced] else b;
  }

  lemma AloneEarned(t: Trace, batch: seq<Msg>, fsync: bool, i: nat)
    requires i < |batch|
    ensures var n := t + Alone(i, fsync && batch[i].mustSync); Earned(n, batch, fsync, i, |n|)
  {
    var sync := fsync && batch[i].mustSync;
    var n := t + Alone(i, sync);
    assert n[|t|] == Installed(i) && n[|t| + 1] == Wrote(i);
    assert sync ==> n[|t| + 2] == Synced;
  }

  /** A snapshot message, installed, written and synced if it must be, has earned its replies. */
  lemma SnapshotEarned(t: Trace, batch: seq<Msg>, fsync: bool, i: nat, cut: set<nat>)
    requires Midway(t, batch, fsync, i, i, false, cut) && i < |batch| && batch[i].snapshot
    ensures Answering(t + Alone(i, fsync && batch[i].mustSync), batch, fsync, i, 0, i + 1, cut)
    ensures Syncs(t + Alone(i, fsync && batch[i].mustSync))
         == Syncs(t) + if fsync && batch[i].mustSync then 1 else 0
  {
    hide Durable, Split, Replies, Expected, Earned, WrittenBefore, Syncs;
    SnapshotDurable(t, batch, fsync, i, fsync && batch[i].mustSync, cut);
    AloneEarned(t, batch, fsync, i);
    assert Sent(batch[i])[..0] == [] && Pairs(i, []) == [];
    assert Expected(batch, i, cut) + [] == Expected(batch, i, cut);
  }

  lemma {:induction false} CutLater(batch: seq<Msg>, n: nat, cut: set<nat>, i: nat)
    requires n <= i < |batch|
    ensures Expected(batch, n, cut + {i}) == Expected(batch, n, cut)
  {
    hide Expected, Pairs, Sent;
    ExpectedStep(batch, n, cut);
    ExpectedStep(batch, n, cut + {i});
    if n > 0 {
      CutLater(batch, n - 1, cut, i);
    }
  }

  /** An install cut off by a shutdown: no reply for this message, and the batch goes on. */
  lemma SnapshotCut(t: Trace, batch: seq<Msg>, fsync: bool, i: nat, cut: set<nat>)
    requires Midway(t, batch, fsync, i, i, false, cut) && i < |batch| && batch[i].snapshot
    ensures Midway(t, batch, fsync, i + 1, i + 1, false, cut + {i})
  {
    hide Durable, Split, Replies, Earned, Expected, WrittenBefore, Part;
    NothingForCut(batch, i, cut);
    assert forall m :: m in cut + {i} ==> m in cut || m == i;
  }

  lemma NothingForCut(batch: seq<Msg>, i: nat, cut: set<nat>)
    requires i < |batch|
    ensures Expected(batch, i + 1, cut + {i}) == Expected(batch, i, cut)
  {
    hide Expected, Sent, Pairs;
    CutLater(batch, i, cut, i);
    ExpectedStep(batch, i + 1, cut + {i});
    assert Part(batch, i, cut + {i}) == [];
  }

  lemma {:induction false} ExpectedGrows(batch: seq<Msg>, m: nat, n: nat, cut: set<nat>)
    requires m <= n <= |batch|
    ensures Expected(batch, m, cut) <= Expected(batch, n, cut)
  {
    hide Expected, Part;
    if m < n {
      ExpectedStep(batch, n, cut);
      ExpectedGrows(batch, m, n - 1, cut);
    }
  }

  /** What holds even if the group stops in the middle: nothing unearned, nothing out of order, nothing twice. */
  ghost predicate SafeSoFar(t: Trace, batch: seq<Msg>, fsync: bool, cut: set<nat>) {
    Durable(t, batch, fsync) && Split(t, batch) && Replies(t) <= Expected(batch, |batch|, cut)
  }

  /** An event that answers nothing keeps what holds even if the group stops. */
  lemma SafeOn(t: Trace, e: Event, batch: seq<Msg>, fsync: bool, cut: set<nat>)
    requires SafeSoFar(t, batch, fsync, cut) && !e.Replied?
    ensures SafeSoFar(t + [e], batch, fsync, cut)
  {
    hide Expected, Earned, Replies;
    DurableSnoc(t, e, batch, fsync);
    RepliesSnoc(t, e);
  }

  lemma MidwaySafe(t: Trace, batch: seq<Msg>, fsync: bool, start: nat, i: nat, need: bool, cut: set<nat>)
    requires Midway(t, batch, fsync, start, i, need, cut)
    ensures SafeSoFar(t, batch, fsync, cut)
  {
    ExpectedGrows(batch, start, |batch|, cut);
  }

  lemma StartMidway(batch: seq<Msg>, fsync: bool)
    ensures Midway([], batch, fsync, 0, 0, false, {})
  {
  }

  lemma NoSyncs()
    ensures Syncs([]) == 0
  {
  }

  lemma NextSnapshot(batch: seq<Msg>, i: nat)
    requires i < |batch|
    ensures Snapshots(batch, i + 1) == Snapshots(batch, i) + if batch[i].snapshot then 1 else 0
  {
  }

  lemma {:induction false} MoreSnapshots(batch: seq<Msg>)
    ensures Snapshots(batch, 0) == 0
    ensures forall i :: 0 <= i <= |batch| ==> Snapshots(batch, i) <= Snapshots(batch, |batch|)
  {
    var i := |batch|;
    while i > 0
      invariant 0 <= i <= |batch|
      invariant forall j :: i <= j <= |batch| ==>
                Snapshots(batch, i) <= Snapshots(batch, j) <= Snapshots(batch, |batch|)
    {
      i := i - 1;
    }
  }

  lemma {:induction false} MoreDemands(batch: seq<Msg>, fsync: bool, n: nat)
    requires n <= |batch|
    ensures Demands(batch, fsync, n) <= Demands(batch, fsync, |batch|)
    ensures n > 0 ==> Demands(batch, fsync, n) == Demands(batch, fsync, n - 1) + Demand(batch[n - 1], fsync)
    decreases |batch| - n
  {
    if n < |batch| {
      MoreDemands(batch, fsync, n + 1);
    }
  }

  datatype Install = Fine | ShutDown | Failed

  class AppendStage {
    const io: Io
    const fsync: bool
    var trace: Trace
    /** The process gave up: a write, a sync or an install failed for good. */
    var halted: bool
    /** Snapshot messages whose install a shutdown cut off. */
    var cut: set<nat>

    constructor (io: Io, fsync: bool)
      ensures this.io == io && this.fsync == fsync && !halted
    {
      this.io, this.fsync, trace, halted, cut := io, fsync, [], false, {};
    }

    /** One entry batch in the log; only what is there leaves its mark. */
    method Write(i: nat) returns (ok: bool)
      modifies `trace, io
      ensures io.failed == old(io.failed) + if ok then 0 else 1
      ensures trace == if ok then old(trace) + [Wrote(i)] else old(trace)
    {
      ok := io.Try();
      if ok {
        trace := trace + [Wrote(i)];
      }
    }

    method Sync() returns (ok: bool)
      modifies `trace, io
      ensures io.failed == old(io.failed) + if ok then 0 else 1
      ensures trace == if ok then old(trace) + [Synced] else old(trace)
    {
      ok := io.Try();
      if ok {
        trace := trace + [Synced];
      }
    }

    /** Fetch and install a snapshot; a shutdown may cut it off, which is nobody's failure. */
    method InstallOne(i: nat) returns (outcome: Install)
      modifies `trace, io
      ensures io.failed == old(io.failed) + if outcome.Failed? then 1 else 0
      ensures trace == if outcome.Fine? then old(trace) + [Installed(i)] else old(trace)
    {
      var shutDown: bool := *;
      if shutDown {
        return ShutDown;
      }
      var ok := io.Try();
      if !ok {
        return Failed;
      }
      trace := trace + [Installed(i)];
      return Fine;
    }

    /** Close the part of the batch gathered so far: one sync if any message needs it, then every reply in order. */
    method Flush(batch: seq<Msg>, start: nat, end: nat, need: bool)
      requires !halted && Midway(trace, batch, fsync, start, end, need, cut)
      modifies `trace, `halted, io
      ensures io.failed >= old(io.failed) + if halted then 1 else 0
      ensures halted ==> SafeSoFar(trace, batch, fsync, cut)
      ensures !halted ==> Midway(trace, batch, fsync, end, end, false, cut)
      ensures Syncs(trace) <= Syncs(old(trace)) + if need && start < end then 1 else 0
    {
      hide Midway, Answering, Earned, SafeSoFar, Syncs;
      MidwaySafe(trace, batch, fsync, start, end, need, cut);
      if start >= end {
        MidwayEmpty(trace, batch, fsync, start, end, need, cut);
        return;
      }
      if need {
        SyncedAll(trace, batch, fsync, start, end, need, cut);
        RepliesSnoc(trace, Synced);
        var ok := Sync();
        if !ok {
          halted := true;
          return;
        }
      } else {
        EarnedUnsynced(trace, batch, fsync, start, end, need, cut);
      }
      AnswerStart(trace, batch, fsync, start, end, need, cut);
      OnlyBelow(trace, batch, fsync, start, end, need, cut);
      ghost var t0 := trace;
      Answer(batch, start, end);
      AnswerEnd(trace, batch, fsync, end, cut);
    }

    /** Inside deliverResponses: the peers' replies are picked out and sent, then its own are stepped one by one. */
    method DeliverOrder(m: Msg) returns (out: seq<nat>, ghost pos: seq<nat>)
      ensures out == Sent(m) && Delivers(m.responses, out, pos)
    {
      var rs := m.responses;
      assert rs[..|rs|] == rs;
      out := [];
      var i := 0;
      while i < |rs|
        invariant 0 <= i <= |rs| && out == Ids(rs[..i], false)
      {
        assert rs[..i + 1][..i] == rs[..i];
        if !rs[i].toSelf {
          out := out + [rs[i].id];
        }
        i := i + 1;
      }
      i := 0;
      while i < |rs|
        invariant 0 <= i <= |rs| && out == Ids(rs, false) + Ids(rs[..i], true)
      {
        assert rs[..i + 1][..i] == rs[..i];
        if rs[i].toSelf {
          out := out + [rs[i].id];
        }
        i := i + 1;
      }
      pos := SentDelivers(m);
    }

    /** deliverResponses for the messages from `start` to `end`. */
    method Answer(batch: seq<Msg>, start: nat, end: nat)
      requires start <= end <= |batch| && Answering(trace, batch, fsync, start, 0, end, cut)
      requires forall p :: 0 <= p < |trace| ==>
                (trace[p].Installed? ==> trace[p].i < end) && (trace[p].Replied? ==> trace[p].i < end)
      modifies `trace
      ensures Answering(trace, batch, fsync, end, 0, end, cut) && Syncs(trace) == Syncs(old(trace))
      ensures forall p :: 0 <= p < |trace| ==>
                (trace[p].Installed? ==> trace[p].i < end) && (trace[p].Replied? ==> trace[p].i < end)
    {
      hide Answering, Syncs, Sent;
      var j := start;
      while j < end
        invariant start <= j <= end && Answering(trace, batch, fsync, j, 0, end, cut)
        invariant Syncs(trace) == Syncs(old(trace))
        invariant forall p :: 0 <= p < |trace| ==>
                  (trace[p].Installed? ==> trace[p].i < end) && (trace[p].Replied? ==> trace[p].i < end)
      {
        var out, _ := DeliverOrder(batch[j]);
        var k := 0;
        while k < |out|
          invariant 0 <= k <= |out| && out == Sent(batch[j]) && Answering(trace, batch, fsync, j, k, end, cut)
          invariant Syncs(trace) == Syncs(old(trace))
          invariant forall p :: 0 <= p < |trace| ==>
                    (trace[p].Installed? ==> trace[p].i < end) && (trace[p].Replied? ==> trace[p].i < end)
        {
          AnsweredOne(trace, batch, fsync, j, k, end, cut);
          RepliesSnoc(trace, Replied(j, out[k]));
          trace := trace + [Replied(j, out[k])];
          k := k + 1;
        }
        AnsweredAll(trace, batch, fsync, j, end, cut);
        j := j + 1;
      }
    }

    /** What appendOnce stores: the snapshot, then the entries, then the sync raft may require. */
    method StoreOne(batch: seq<Msg>, i: nat) returns (outcome: Install)
      requires i < |batch| && SafeSoFar(trace, batch, fsync, cut)
      modifies `trace, io
      ensures SafeSoFar(trace, batch, fsync, cut) && Syncs(trace) <= Syncs(old(trace)) + Demand(batch[i], fsync)
      ensures outcome.Fine? ==> trace == old(trace) + Alone(i, fsync && batch[i].mustSync)
      ensures outcome.ShutDown? ==> trace == old(trace)
      ensures io.failed >= old(io.failed) + if outcome.Failed? then 1 else 0
    {
      hide SafeSoFar, Syncs;
      ghost var start := trace;
      outcome := InstallOne(i);
      if !outcome.Fine? {
        return;
      }
      SafeOn(start, Installed(i), batch, fsync, cut);
      RepliesSnoc(start, Installed(i));
      var ok := Write(i);
      if !ok {
        return Failed;
      }
      SafeOn(start + [Installed(i)], Wrote(i), batch, fsync, cut);
      RepliesSnoc(start + [Installed(i)], Wrote(i));
      if fsync && batch[i].mustSync {
        SafeOn(trace, Synced, batch, fsync, cut);
        RepliesSnoc(trace, Synced);
        ok := Sync();
        if !ok {
          return Failed;
        }
      }
      assert trace == start + Alone(i, fsync && batch[i].mustSync);
    }

    /** appendOnce for a message with a snapshot: install, write, sync if raft requires it, and only then answer. */
    method AppendOnce(batch: seq<Msg>, i: nat)
      requires !halted && i < |batch| && batch[i].snapshot && Midway(trace, batch, fsync, i, i, false, cut)
      modifies `trace, `halted, `cut, io
      ensures io.failed >= old(io.failed) + if halted then 1 else 0
      ensures halted ==> SafeSoFar(trace, batch, fsync, cut)
      ensures !halted ==> Midway(trace, batch, fsync, i + 1, i + 1, false, cut)
      ensures Syncs(trace) <= Syncs(old(trace)) + Demand(batch[i], fsync)
      ensures cut == old(cut) || (cut == old(cut) + {i} && trace == old(trace))
    {
      hide Midway, Answering, SafeSoFar, Syncs;
      MidwaySafe(trace, batch, fsync, i, i, false, cut);
      SnapshotCut(trace, batch, fsync, i, cut);
      SnapshotEarned(trace, batch, fsync, i, cut);
      OnlyBelow(trace, batch, fsync, i, i, false, cut);
      var outcome := StoreOne(batch, i);
      if outcome.ShutDown? {
        cut := cut + {i};
        return;
      }
      if outcome.Failed? {
        halted := true;
        return;
      }
      Answer(batch, i, i + 1);
      AnswerEnd(trace, batch, fsync, i + 1, cut);
    }

    /**
     * appendBatch. Unless the group stops, every message is answered exactly once and in order, but for installs a
     * shutdown cut off; whatever happens, no reply goes out before what it vouches for is written and, where raft
     * required it in fsync mode, synced; and snapshots split the batch.
     */
    method AppendBatch(batch: seq<Msg>)
      requires !halted
      modifies this, io
      ensures io.failed >= old(io.failed) + if halted then 1 else 0
      ensures SafeSoFar(trace, batch, fsync, cut)
      ensures !halted ==> forall i :: 0 <= i < |batch| && i !in cut ==> InFull(trace, i, batch[i].responses)
      ensures forall p :: 0 <= p < |trace| && trace[p].Replied? ==> trace[p].i < |batch|
      ensures !halted ==> forall p :: 0 <= p < |trace| && trace[p].Replied? ==> trace[p].i !in cut
      ensures forall p, q :: 0 <= p < q < |trace| && trace[p].Replied? && trace[q].Replied? ==> trace[p].i <= trace[q].i
      ensures !halted ==> forall i :: 0 <= i < |batch| && i !in cut ==> Earned(trace, batch, fsync, i, |trace|)
      ensures Syncs(trace) <= 2 * Snapshots(batch, |batch|) + 1
      ensures Syncs(trace) <= Demands(batch, fsync, |batch|)
      ensures forall i :: i in cut ==> i < |batch| && batch[i].snapshot
    {
      hide Midway, Answering, SafeSoFar, Replies, Expected, Earned, Syncs, Snapshots, InFull, Demands;
      NoSyncs();
      MoreSnapshots(batch);
      trace, cut := [], {};
      var start, need := 0, false;
      StartMidway(batch, fsync);
      var i := 0;
      while i < |batch|
        invariant 0 <= start <= i <= |batch| && !halted && io.failed >= old(io.failed)
        invariant Midway(trace, batch, fsync, start, i, need, cut)
        invariant forall j :: j in cut ==> j < |batch| && batch[j].snapshot
        invariant Syncs(trace) <= 2 * Snapshots(batch, i)
        invariant Syncs(trace) + (if need then 1 else 0) <= Demands(batch, fsync, i)
      {
        NextSnapshot(batch, i);
        MoreDemands(batch, fsync, i + 1);
        MidwaySafe(trace, batch, fsync, start, i, need, cut);
        if batch[i].snapshot {
          Flush(batch, start, i, need);
          if halted {
            SafeOrder(trace, batch, fsync, cut);
            return;
          }
          AppendOnce(batch, i);
          if halted {
            SafeOrder(trace, batch, fsync, cut);
            return;
          }
          start, need := i + 1, false;
        } else {
          SafeOrder(trace, batch, fsync, cut);
          WroteOne(trace, batch, fsync, start, i, need, cut);
          RepliesSnoc(trace, Wrote(i));
          var ok := Write(i);
          if !ok {
            halted := true;
            return;
          }
          if fsync && batch[i].mustSync {
            need := true;
          }
        }
        i := i + 1;
      }
      Flush(batch, start, i, need);
      if !halted {
        MidwaySafe(trace, batch, fsync, i, i, false, cut);
        MidwayReplies(trace, batch, fsync, i, cut);
        RepliesInFull(trace, batch, cut);
      }
      SafeOrder(trace, batch, fsync, cut);
    }
  }

  lemma MidwayEmpty(t: Trace, batch: seq<Msg>, fsync: bool, start: nat, i: nat, need: bool, cut: set<nat>)
    requires Midway(t, batch, fsync, start, i, need, cut) && start >= i
    ensures Midway(t, batch, fsync, i, i, false, cut)
  {
  }

  lemma MidwayReplies(t: Trace, batch: seq<Msg>, fsync: bool, i: nat, cut: set<nat>)
    requires Midway(t, batch, fsync, i, i, false, cut)
    ensures i <= |batch| && Replies(t) == Expected(batch, i, cut)
    ensures forall j :: 0 <= j < i && j !in cut ==> Earned(t, batch, fsync, j, |t|)
  {
  }

  /** So far only messages below `start` were installed or answered. */
  lemma OnlyBelow(t: Trace, batch: seq<Msg>, fsync: bool, start: nat, i: nat, need: bool, cut: set<nat>)
    requires Midway(t, batch, fsync, start, i, need, cut)
    ensures start <= i <= |batch|
    ensures forall p :: 0 <= p < |t| ==> (t[p].Installed? ==> t[p].i < start) && (t[p].Replied? ==> t[p].i < start)
  {
  }
}
