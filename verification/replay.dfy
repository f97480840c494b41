/**
 * What a segmented log means: records are replayed in order, an entry replaces everything at or above its index, the
 * last HardState wins. Whole-segment reclaim is judged against this meaning.
 */
module Replay {
  import opened Bytes
  import opened Frame

  /** The scan's running result: collected entries, index of the last entry record (0: none), newest HardState. */
  datatype State = State(ents: seq<Entry>, last: nat, hs: Option<HardState>)

  const NO_BOUND: nat := 0x1_0000_0000_0000_0000

  function CutFrom(ents: seq<Entry>, idx: nat): (r: seq<Entry>)
    ensures r <= ents
  {
    if ents == [] || ents[|ents| - 1].index < idx then ents else CutFrom(ents[..|ents| - 1], idx)
  }

  function Step(st: State, r: Rec): State {
    match r
    case Hs(h) => st.(hs := Some(h))
    case Ent(e) => State((if e.index <= st.last then CutFrom(st.ents, e.index) else st.ents) + [e], e.index, st.hs)
  }

  function Replayed(h: seq<Rec>): State {
    if h == [] then State([], 0, None) else Step(Replayed(h[..|h| - 1]), h[|h| - 1])
  }

  /** Replay on top of a state already reached. */
  function ReplayOn(st: State, h: seq<Rec>): State
    decreases |h|
  {
    if h == [] then st else ReplayOn(Step(st, h[0]), h[1..])
  }

  lemma {:induction false} ReplayOnConcat(a: seq<Rec>, b: seq<Rec>)
    ensures Replayed(a + b) == ReplayOn(Replayed(a), b)
    decreases |b|
  {
    if b == [] {
      assert a + b == a;
    } else {
      var a' := a + [b[0]];
      assert a'[..|a'| - 1] == a;
      assert a + b == a' + b[1..];
      ReplayOnConcat(a', b[1..]);
    }
  }

  // ----- last writer wins -----

  /** Entry record `i` survives when no later entry record has its index or a lower one. */
  ghost predicate Survives(h: seq<Rec>, i: nat)
    requires i < |h|
  {
    h[i].Ent? && forall j :: i < j < |h| && h[j].Ent? ==> h[j].e.index > h[i].e.index
  }

  /** The entries of `h` below `m` that no later entry record of `h` replaces, found from the newest backwards. */
  function Surviving(h: seq<Rec>, m: nat): seq<Entry> {
    if h == [] then [] else
    var p, r := h[..|h| - 1], h[|h| - 1];
    if r.Ent? && r.e.index < m then Surviving(p, r.e.index) + [r.e] else Surviving(p, m)
  }

  ghost predicate Ascending(ents: seq<Entry>) {
    forall i, j :: 0 <= i < j < |ents| ==> ents[i].index < ents[j].index
  }

  lemma {:induction false} ReplayedAscending(h: seq<Rec>)
    ensures Ascending(Replayed(h).ents)
    ensures Replayed(h).ents == [] ==> Replayed(h).last == 0
    ensures Replayed(h).ents != [] ==>
              Replayed(h).last == Replayed(h).ents[|Replayed(h).ents| - 1].index
  {
    if h != [] {
      var p, r := h[..|h| - 1], h[|h| - 1];
      ReplayedAscending(p);
      if r.Ent? && r.e.index <= Replayed(p).last {
        CutFromKeeps(Replayed(p).ents, r.e.index);
      }
    }
  }

  lemma {:induction false} CutFromKeeps(ents: seq<Entry>, idx: nat)
    requires Ascending(ents)
    ensures forall i :: 0 <= i < |ents| ==> (ents[i].index < idx <==> i < |CutFrom(ents, idx)|)
  {
    if ents != [] && ents[|ents| - 1].index >= idx {
      CutFromKeeps(ents[..|ents| - 1], idx);
    }
  }

  lemma {:induction false} CutTwice(ents: seq<Entry>, a: nat, b: nat)
    ensures a <= b ==> CutFrom(CutFrom(ents, b), a) == CutFrom(ents, a)
  {
    if ents != [] && ents[|ents| - 1].index >= b {
      CutTwice(ents[..|ents| - 1], a, b);
    }
  }

  lemma {:induction false} SurvivingIsCut(h: seq<Rec>, m: nat)
    ensures Surviving(h, m) == CutFrom(Replayed(h).ents, m)
  {
    if h != [] {
      var p, r := h[..|h| - 1], h[|h| - 1];
      var ents := Replayed(p).ents;
      if r.Hs? {
        SurvivingIsCut(p, m);
      } else {
        SurvivingIsCut(p, r.e.index);
        ReplayedAscending(p);
        if r.e.index > Replayed(p).last {
          assert CutFrom(ents, r.e.index) == ents;
        }
        assert Replayed(h).ents == CutFrom(ents, r.e.index) + [r.e];
        assert (CutFrom(ents, r.e.index) + [r.e])[..|CutFrom(ents, r.e.index)|] == CutFrom(ents, r.e.index);
        if r.e.index >= m {
          SurvivingIsCut(p, m);
          CutTwice(ents, m, r.e.index);
        }
      }
    }
  }

  /** The forward replay of Open computes exactly the surviving entries. */
  lemma ReplayIsLastWriterWins(h: seq<Rec>)
    ensures Replayed(h).ents == Surviving(h, NO_BOUND)
  {
    SurvivingIsCut(h, NO_BOUND);
  }

  lemma {:induction false} SurvivingMembers(h: seq<Rec>, m: nat, e: Entry)
    ensures e in Surviving(h, m) <==> exists i :: 0 <= i < |h| && h[i] == Ent(e) && Survives(h, i) && e.index < m
  {
    if h != [] {
      var n := |h| - 1;
      var p, r := h[..n], h[n];
      var m' := if r.Ent? && r.e.index < m then r.e.index else m;
      SurvivingMembers(p, m', e);
      if e in Surviving(p, m') {
        var i :| 0 <= i < |p| && p[i] == Ent(e) && Survives(p, i) && e.index < m';
        if r.Hs? || r.e.index > e.index {
          assert Survives(h, i) && h[i] == Ent(e);
        }
      }
      if r == Ent(e) && e.index < m {
        assert Survives(h, n);
      }
      if i :| 0 <= i < |h| && h[i] == Ent(e) && Survives(h, i) && e.index < m {
        if i < n {
          assert p[i] == Ent(e) && Survives(p, i);
          assert r.Ent? ==> r.e.index > e.index;
        }
      }
    }
  }

  /** Pointwise: an entry is in the recovered log exactly when some record of it survives, and they come in order. */
  lemma ReplayedMembers(h: seq<Rec>, e: Entry)
    ensures e in Replayed(h).ents <==> exists i :: 0 <= i < |h| && h[i] == Ent(e) && Survives(h, i)
    ensures Ascending(Replayed(h).ents)
  {
    ReplayIsLastWriterWins(h);
    ReplayedAscending(h);
    SurvivingMembers(h, NO_BOUND, e);
  }

  /** Index of the last entry record, 0 when there is none. */
  function Last(h: seq<Rec>): nat {
    if h == [] then 0 else if h[|h| - 1].Ent? then h[|h| - 1].e.index else Last(h[..|h| - 1])
  }

  function LastHs(h: seq<Rec>): Option<HardState> {
    if h == [] then None else if h[|h| - 1].Hs? then Some(h[|h| - 1].h) else LastHs(h[..|h| - 1])
  }

  lemma {:induction false} ReplayedLast(h: seq<Rec>)
    ensures Replayed(h).last == Last(h) && Replayed(h).hs == LastHs(h)
  {
    if h != [] {
      ReplayedLast(h[..|h| - 1]);
    }
  }

  /**
   * `hs` is the newest HardState of a history as its records have it: one of them says so and none after it is another.
   */
  ghost predicate NewestIs(h: seq<Rec>, hs: Option<HardState>) {
    match hs
    case None => forall i :: 0 <= i < |h| ==> h[i].Ent?
    case Some(x) => exists i :: 0 <= i < |h| && h[i] == Hs(x) && forall j :: i < j < |h| ==> h[j].Ent?
  }

  /** What replay ends with is the newest HardState written, field for field. */
  lemma {:induction false} ReplayedHs(h: seq<Rec>)
    ensures NewestIs(h, Replayed(h).hs) && NewestIs(h, LastHs(h))
  {
    ReplayedLast(h);
    if h != [] {
      var p, n := h[..|h| - 1], |h| - 1;
      ReplayedHs(p);
      ReplayedLast(p);
      if h[n].Hs? {
        assert h[n] == Hs(h[n].h);
      } else if LastHs(p).Some? {
        var i :| 0 <= i < |p| && p[i] == Hs(LastHs(p).value) && forall j :: i < j < |p| ==> p[j].Ent?;
        assert h[i] == p[i] && forall j :: i < j < |h| ==> j == n || h[j] == p[j];
      } else {
        assert forall j :: 0 <= j < |h| ==> j == n || h[j] == p[j];
      }
    }
  }

  lemma {:induction false} LastConcat(a: seq<Rec>, b: seq<Rec>)
    ensures Last(a + b) == if HasEntry(b) then Last(b) else Last(a)
    ensures LastHs(a + b) == if LastHs(b).Some? then LastHs(b) else LastHs(a)
  {
    if b == [] {
      assert a + b == a;
    } else {
      LastConcat(a, b[..|b| - 1]);
      assert (a + b)[..|a + b| - 1] == a + b[..|b| - 1];
    }
  }

  predicate HasEntry(h: seq<Rec>) {
    exists i :: 0 <= i < |h| && h[i].Ent?
  }

  // ----- segments -----

  type Segs = map<nat, seq<Rec>>

  /** The records of all segments numbered below `n`, in segment order. */
  function Flat(segs: Segs, n: nat): seq<Rec> {
    if n == 0 then [] else Flat(segs, n - 1) + (if n - 1 in segs then segs[n - 1] else [])
  }

  lemma {:induction false} FlatSame(a: Segs, b: Segs, n: nat)
    requires forall s :: 0 <= s < n ==> (s in a <==> s in b) && (s in a ==> a[s] == b[s])
    ensures Flat(a, n) == Flat(b, n)
  {
    if n > 0 {
      FlatSame(a, b, n - 1);
    }
  }

  lemma {:induction false} FlatSkip(a: Segs, lo: nat, hi: nat)
    requires lo <= hi && forall s :: lo <= s < hi ==> s !in a || a[s] == []
    ensures Flat(a, hi) == Flat(a, lo)
  {
    if lo < hi {
      FlatSkip(a, lo, hi - 1);
    }
  }

  /**
   * No entry record skips an index above both the last one before it and `floor`, the point below which segments may
   * already have been reclaimed; the first entry record of all may start anywhere.
   */
  predicate GapFree(h: seq<Rec>, floor: nat) {
    h == [] ||
    var p, r := h[..|h| - 1], h[|h| - 1];
    && GapFree(p, floor)
    && (r.Ent? ==>
          && r.e.index >= 1
          && (r.e.index <= floor + 1 || r.e.index <= Last(p) + 1 || !HasEntry(p)))
  }

  /** `kept` is `segs` without some segments, each of which ends at or below `upto`. */
  ghost predicate Reclaimed(segs: Segs, kept: Segs, upto: nat) {
    && (forall s :: s in kept ==> s in segs && kept[s] == segs[s])
    && (forall s :: s in segs && s !in kept ==> Last(segs[s]) <= upto)
  }

  function Above(ents: seq<Entry>, upto: nat): seq<Entry> {
    if ents == [] then []
    else Above(ents[..|ents| - 1], upto) + (if ents[|ents| - 1].index > upto then [ents[|ents| - 1]] else [])
  }

  lemma {:induction false} AboveBounded(h: seq<Rec>, m: nat, upto: nat)
    requires m <= upto + 1
    ensures Above(Surviving(h, m), upto) == []
  {
    if h != [] {
      var p, r := h[..|h| - 1], h[|h| - 1];
      if r.Ent? && r.e.index < m {
        AboveBounded(p, r.e.index, upto);
        assert (Surviving(p, r.e.index) + [r.e])[..|Surviving(p, r.e.index)|] == Surviving(p, r.e.index);
      } else {
        AboveBounded(p, m, upto);
      }
    }
  }

  lemma {:induction false} NoEntryNoneSurvive(h: seq<Rec>, m: nat)
    requires !HasEntry(h)
    ensures Surviving(h, m) == []
  {
    if h != [] {
      assert forall i :: 0 <= i < |h| ==> !h[i].Ent?;
      assert !HasEntry(h[..|h| - 1]);
      NoEntryNoneSurvive(h[..|h| - 1], m);
    }
  }

  /** Either every index still wanted is at or below upto, or the records before this point end above it. */
  ghost predicate Settled(h: seq<Rec>, m: nat, upto: nat) {
    m <= upto + 1 || !HasEntry(h) || Last(h) > upto
  }

  /** One segment that both histories hold, taken record by record from its end. */
  lemma {:induction false} SameSuffix(a: seq<Rec>, b: seq<Rec>, seg: seq<Rec>, m: nat, upto: nat, floor: nat)
    returns (m': nat)
    requires floor <= upto && GapFree(a + seg, floor) && Settled(a + seg, m, upto)
    requires HasEntry(b) ==> HasEntry(a)
    ensures Settled(a, m', upto)
    ensures Above(Surviving(a, m'), upto) == Above(Surviving(b, m'), upto) ==>
              Above(Surviving(a + seg, m), upto) == Above(Surviving(b + seg, m), upto)
    decreases |seg|
  {
    hide GapFree, HasEntry, Settled, Last, Surviving, Above;
    if seg == [] {
      assert a + seg == a && b + seg == b;
      return m;
    }
    var n := |seg| - 1;
    var p, r := seg[..n], seg[n];
    assert a + seg == (a + p) + [r] && b + seg == (b + p) + [r];
    SettledBefore(a + p, r, m, upto, floor, a + seg);
    m' := SameSuffix(a, b, p, Lowered(r, m), upto, floor);
    if Above(Surviving(a, m'), upto) == Above(Surviving(b, m'), upto) {
      SameStep(a + p, b + p, r, m, upto);
    }
  }

  /** The bound that records before `r` must stay under, once `r` has been taken into account. */
  function Lowered(r: Rec, m: nat): nat {
    if r.Ent? && r.e.index < m then r.e.index else m
  }

  lemma SameStep(a: seq<Rec>, b: seq<Rec>, r: Rec, m: nat, upto: nat)
    requires Above(Surviving(a, Lowered(r, m)), upto) == Above(Surviving(b, Lowered(r, m)), upto)
    ensures Above(Surviving(a + [r], m), upto) == Above(Surviving(b + [r], m), upto)
  {
    assert (a + [r])[..|a|] == a && (b + [r])[..|b|] == b;
    if r.Ent? && r.e.index < m {
      var sa, sb := Surviving(a, r.e.index), Surviving(b, r.e.index);
      assert (sa + [r.e])[..|sa|] == sa && (sb + [r.e])[..|sb|] == sb;
    }
  }

  lemma SettledBefore(p: seq<Rec>, r: Rec, m: nat, upto: nat, floor: nat, h: seq<Rec>)
    requires h == p + [r] && floor <= upto && GapFree(h, floor) && Settled(h, m, upto)
    ensures GapFree(p, floor)
    ensures Settled(p, Lowered(r, m), upto)
  {
    assert h[..|h| - 1] == p && h[|h| - 1] == r;
    assert HasEntry(p) ==> HasEntry(h) by {
      assert forall i :: 0 <= i < |p| ==> p[i] == h[i];
    }
  }

  lemma {:induction false} FlatHasEntry(segs: Segs, kept: Segs, n: nat)
    requires forall s :: s in kept ==> s in segs && kept[s] == segs[s]
    ensures HasEntry(Flat(kept, n)) ==> HasEntry(Flat(segs, n))
  {
    if n > 0 {
      FlatHasEntry(segs, kept, n - 1);
      var k0, s0 := Flat(kept, n - 1), Flat(segs, n - 1);
      if HasEntry(Flat(kept, n)) {
        var i :| 0 <= i < |Flat(kept, n)| && Flat(kept, n)[i].Ent?;
        if i < |k0| {
          assert k0[i].Ent?;
          var j :| 0 <= j < |s0| && s0[j].Ent?;
          assert Flat(segs, n)[j].Ent?;
        } else {
          assert Flat(segs, n)[|s0| + (i - |k0|)].Ent?;
        }
      }
    }
  }

  /** A reclaimed segment adds nothing above upto that a later record does not replace. */
  lemma {:induction false} DroppedSegment(a: seq<Rec>, seg: seq<Rec>, m: nat, upto: nat, floor: nat)
    requires floor <= upto && GapFree(a + seg, floor) && Settled(a + seg, m, upto) && Last(seg) <= upto
    ensures GapFree(a, floor)
    ensures Settled(a, m, upto)
    ensures Above(Surviving(a + seg, m), upto) == Above(Surviving(a, m), upto)
  {
    GapFreePrefix(a, seg, floor);
    LastConcat(a, seg);
    if HasEntry(seg) {
      assert HasEntry(a + seg) by {
        var i :| 0 <= i < |seg| && seg[i].Ent?;
        assert (a + seg)[|a| + i].Ent?;
      }
      AboveBounded(a + seg, m, upto);
      AboveBounded(a, m, upto);
    } else {
      NoEntryAppended(a, seg, m);
      if HasEntry(a) {
        var i :| 0 <= i < |a| && a[i].Ent?;
        assert (a + seg)[i].Ent?;
      }
    }
  }

  lemma {:induction false} GapFreePrefix(a: seq<Rec>, b: seq<Rec>, floor: nat)
    requires GapFree(a + b, floor)
    ensures GapFree(a, floor)
  {
    if b == [] {
      assert a + b == a;
    } else {
      assert (a + b)[..|a + b| - 1] == a + b[..|b| - 1];
      GapFreePrefix(a, b[..|b| - 1], floor);
    }
  }

  lemma {:induction false} NoEntryAppended(a: seq<Rec>, b: seq<Rec>, m: nat)
    requires !HasEntry(b)
    ensures Surviving(a + b, m) == Surviving(a, m)
  {
    if b == [] {
      assert a + b == a;
    } else {
      assert !b[|b| - 1].Ent?;
      assert (a + b)[..|a + b| - 1] == a + b[..|b| - 1];
      NoEntryAppended(a, b[..|b| - 1], m);
    }
  }

  lemma {:induction false} ReclaimBelow(segs: Segs, kept: Segs, n: nat, m: nat, upto: nat, floor: nat)
    requires Reclaimed(segs, kept, upto) && floor <= upto
    requires GapFree(Flat(segs, n), floor) && Settled(Flat(segs, n), m, upto)
    ensures Above(Surviving(Flat(segs, n), m), upto) == Above(Surviving(Flat(kept, n), m), upto)
  {
    hide GapFree, HasEntry, Settled, Last, Surviving, Above;
    if n > 0 {
      var a, b := Flat(segs, n - 1), Flat(kept, n - 1);
      if n - 1 !in segs {
        assert n - 1 !in kept;
        assert Flat(segs, n) == a && Flat(kept, n) == b;
        ReclaimBelow(segs, kept, n - 1, m, upto, floor);
      } else if n - 1 in kept {
        FlatHasEntry(segs, kept, n - 1);
        var m' := SameSuffix(a, b, segs[n - 1], m, upto, floor);
        GapFreePrefix(a, segs[n - 1], floor);
        ReclaimBelow(segs, kept, n - 1, m', upto, floor);
      } else {
        assert Flat(kept, n) == b;
        DroppedSegment(a, segs[n - 1], m, upto, floor);
        ReclaimBelow(segs, kept, n - 1, m, upto, floor);
      }
    }
  }

  /**
   * Reclaim safety: with no index gap and the tail above `upto`, deleting any subset of the segments that end at or
   * below `upto`, even one holding the record that overwrote an older suffix, leaves every entry above `upto` as it
   * was.
   */
  lemma ReclaimKeepsEntriesAbove(segs: Segs, kept: Segs, n: nat, upto: nat, floor: nat)
    requires Reclaimed(segs, kept, upto) && floor <= upto
    requires GapFree(Flat(segs, n), floor)
    requires Last(Flat(segs, n)) > upto
    ensures Above(Replayed(Flat(kept, n)).ents, upto) == Above(Replayed(Flat(segs, n)).ents, upto)
  {
    ReplayIsLastWriterWins(Flat(segs, n));
    ReplayIsLastWriterWins(Flat(kept, n));
    ReclaimBelow(segs, kept, n, NO_BOUND, upto, floor);
  }

  lemma NoneAbove(h: seq<Rec>, upto: nat)
    ensures Above(Replayed(h).ents, upto) == [] <==> Last(h) <= upto
  {
    ReplayedAscending(h);
    ReplayedLast(h);
    AboveEmpty(Replayed(h).ents, upto);
  }

  lemma {:induction false} AboveEmpty(ents: seq<Entry>, upto: nat)
    requires Ascending(ents)
    ensures Above(ents, upto) == [] <==> ents == [] || ents[|ents| - 1].index <= upto
  {
    if ents != [] {
      AboveEmpty(ents[..|ents| - 1], upto);
    }
  }

  /**
   * Exactly when one reclaim leaves the entries above `upto` as they were: the tail of the whole log lies above `upto`,
   * or the tail of what is kept does not.
   */
  lemma ReclaimExact(segs: Segs, kept: Segs, n: nat, upto: nat, floor: nat)
    requires Reclaimed(segs, kept, upto) && floor <= upto
    requires GapFree(Flat(segs, n), floor)
    ensures Above(Replayed(Flat(kept, n)).ents, upto) == Above(Replayed(Flat(segs, n)).ents, upto)
      <==> Last(Flat(segs, n)) > upto || Last(Flat(kept, n)) <= upto
  {
    hide *;
    if Last(Flat(segs, n)) > upto {
      ReclaimKeepsEntriesAbove(segs, kept, n, upto, floor);
    } else {
      NoneAbove(Flat(segs, n), upto);
      NoneAbove(Flat(kept, n), upto);
    }
  }

  /**
   * What a caller can look at beforehand: the tail is above `upto`, or no segment but the newest can tell the
   * difference.
   */
  ghost predicate Harmless(segs: Segs, top: nat, upto: nat)
    requires top in segs
  {
    Last(Flat(segs, top + 1)) > upto || HasEntry(segs[top]) || forall s :: s in segs ==> Last(segs[s]) <= upto
  }

  /**
   * Exactly when reclaim is safe beforehand: every choice of segments that may be deleted, the newest excepted, leaves
   * the entries above `upto` as they were if and only if the tail is above `upto`, or the newest segment holds an
   * entry, or no segment ends above `upto`.
   */
  lemma ReclaimSafeExactly(segs: Segs, top: nat, upto: nat, floor: nat)
    requires top in segs && (forall s :: s in segs ==> s <= top) && floor <= upto
    requires GapFree(Flat(segs, top + 1), floor)
    ensures Harmless(segs, top, upto) <==>
      forall kept: Segs :: Reclaimed(segs, kept, upto) && top in kept ==>
        Above(Replayed(Flat(kept, top + 1)).ents, upto) == Above(Replayed(Flat(segs, top + 1)).ents, upto)
  {
    hide Flat, Last, GapFree, Above, Replayed, HasEntry;
    forall kept: Segs | Reclaimed(segs, kept, upto) && top in kept
      ensures Harmless(segs, top, upto) ==>
        Above(Replayed(Flat(kept, top + 1)).ents, upto) == Above(Replayed(Flat(segs, top + 1)).ents, upto)
    {
      ReclaimExact(segs, kept, top + 1, upto, floor);
      TopLast(segs, top);
      TopLast(kept, top);
      if forall s :: s in segs ==> Last(segs[s]) <= upto {
        LastBounded(kept, top + 1, upto);
      }
    }
    if !Harmless(segs, top, upto) {
      var all := MostReclaimed(segs, top, upto);
      ReclaimExact(segs, all, top + 1, upto, floor);
    }
  }

  lemma TopLast(segs: Segs, top: nat)
    requires top in segs
    ensures Last(Flat(segs, top + 1)) == if HasEntry(segs[top]) then Last(segs[top]) else Last(Flat(segs, top))
  {
    LastConcat(Flat(segs, top), segs[top]);
  }

  lemma {:induction false} LastBounded(segs: Segs, n: nat, upto: nat)
    requires forall s :: s in segs ==> Last(segs[s]) <= upto
    ensures Last(Flat(segs, n)) <= upto
  {
    if n > 0 {
      LastBounded(segs, n - 1, upto);
      LastConcat(Flat(segs, n - 1), if n - 1 in segs then segs[n - 1] else []);
    }
  }

  /** Every segment that may go is gone, and what is left ends above `upto`. */
  lemma MostReclaimed(segs: Segs, top: nat, upto: nat) returns (kept: Segs)
    requires top in segs && (forall s :: s in segs ==> s <= top) && !HasEntry(segs[top])
    requires exists s :: s in segs && Last(segs[s]) > upto
    ensures Reclaimed(segs, kept, upto) && top in kept && Last(Flat(kept, top + 1)) > upto
  {
    kept := map s | s in segs && (s == top || Last(segs[s]) > upto) :: segs[s];
    var s :| s in segs && Last(segs[s]) > upto;
    LastNeedsEntry(segs[top]);
    LastAbove(kept, top, s, upto);
    TopLast(kept, top);
  }

  lemma {:induction false} LastAbove(segs: Segs, n: nat, s: nat, upto: nat)
    requires s < n && s in segs && forall k :: k in segs && k < n ==> Last(segs[k]) > upto
    ensures Last(Flat(segs, n)) > upto
  {
    if s < n - 1 {
      LastAbove(segs, n - 1, s, upto);
    }
    var seg := if n - 1 in segs then segs[n - 1] else [];
    LastNeedsEntry(seg);
    LastConcat(Flat(segs, n - 1), seg);
  }

  lemma GapFreeTake(a: seq<Rec>, seg: seq<Rec>, j: nat, floor: nat)
    requires GapFree(a + seg, floor) && j <= |seg|
    ensures GapFree(a + seg[..j], floor)
  {
    hide GapFree;
    assert seg[..j] + seg[j..] == seg;
    assert a + seg == (a + seg[..j]) + seg[j..];
    GapFreePrefix(a + seg[..j], seg[j..], floor);
  }

  lemma {:induction false} GapFreeRaise(h: seq<Rec>, lo: nat, hi: nat)
    requires lo <= hi && GapFree(h, lo)
    ensures GapFree(h, hi)
  {
    if h != [] {
      GapFreeRaise(h[..|h| - 1], lo, hi);
    }
  }

  /** Swapping what comes before a segment for something whose tail differs only below the floor opens no gap. */
  lemma {:induction false} GapFreeSwap(a: seq<Rec>, b: seq<Rec>, seg: seq<Rec>, floor: nat)
    requires GapFree(a + seg, floor) && GapFree(b, floor)
    requires Last(a) == Last(b) || Last(a) <= floor
    requires HasEntry(b) ==> HasEntry(a)
    ensures GapFree(b + seg, floor)
  {
    if seg == [] {
      assert b + seg == b;
    } else {
      var n := |seg| - 1;
      var p := seg[..n];
      assert (a + seg)[..|a + seg| - 1] == a + p && (b + seg)[..|b + seg| - 1] == b + p;
      GapFreeSwap(a, b, p, floor);
      LastConcat(a, p);
      LastConcat(b, p);
      HasEntryConcat(a, p);
      HasEntryConcat(b, p);
    }
  }

  lemma HasEntryConcat(a: seq<Rec>, b: seq<Rec>)
    ensures HasEntry(a + b) <==> HasEntry(a) || HasEntry(b)
  {
    if HasEntry(a) {
      var i :| 0 <= i < |a| && a[i].Ent?;
      assert (a + b)[i].Ent?;
    }
    if HasEntry(b) {
      var i :| 0 <= i < |b| && b[i].Ent?;
      assert (a + b)[|a| + i].Ent?;
    }
    if i :| 0 <= i < |a + b| && (a + b)[i].Ent? {
      assert if i < |a| then a[i].Ent? else b[i - |a|].Ent?;
    }
  }

  lemma {:induction false} LastNeedsEntry(h: seq<Rec>)
    ensures !HasEntry(h) ==> Last(h) == 0
  {
    if h != [] {
      assert !HasEntry(h) ==> !HasEntry(h[..|h| - 1]) && !h[|h| - 1].Ent?;
      LastNeedsEntry(h[..|h| - 1]);
    }
  }

  /** A history from which segments ending at or below the floor are gone still has no gap above the floor. */
  lemma {:induction false} GapFreeReclaimed(segs: Segs, kept: Segs, n: nat, floor: nat)
    requires Reclaimed(segs, kept, floor) && GapFree(Flat(segs, n), floor)
    ensures GapFree(Flat(kept, n), floor)
    ensures Last(Flat(segs, n)) == Last(Flat(kept, n)) || Last(Flat(segs, n)) <= floor
  {
    hide GapFree, HasEntry, Last;
    if n > 0 {
      var a, b := Flat(segs, n - 1), Flat(kept, n - 1);
      if n - 1 !in segs {
        assert n - 1 !in kept;
        assert Flat(segs, n) == a && Flat(kept, n) == b;
        GapFreeReclaimed(segs, kept, n - 1, floor);
      } else {
        var seg := segs[n - 1];
        GapFreePrefix(a, seg, floor);
        GapFreeReclaimed(segs, kept, n - 1, floor);
        LastConcat(a, seg);
        LastConcat(b, seg);
        if n - 1 in kept {
          FlatHasEntry(segs, kept, n - 1);
          GapFreeSwap(a, b, seg, floor);
        } else {
          assert Flat(kept, n) == b;
          LastNeedsEntry(seg);
        }
      }
    } else {
      assert Flat(segs, 0) == Flat(kept, 0);
    }
  }

  function E(index: u64, term: u64): Rec {
    Ent(Entry(index, term, []))
  }

  lemma ReplayPair(p: seq<Rec>, r: Rec)
    ensures Replayed(p + [r]) == Step(Replayed(p), r)
  {
    assert (p + [r])[..|p|] == p;
  }

  const OLD_SUFFIX: seq<Rec> := [E(1, 1), E(2, 1), E(3, 1)]
  const REWRITE: seq<Rec> := [E(2, 2)]
  const AFTER_GAP: seq<Rec> := [E(5, 2)]

  lemma OldSuffixReplayed()
    ensures Replayed(OLD_SUFFIX) == State([E(1, 1).e, E(2, 1).e, E(3, 1).e], 3, None)
  {
    ReplayPair([], E(1, 1));
    ReplayPair([E(1, 1)], E(2, 1));
    ReplayPair([E(1, 1), E(2, 1)], E(3, 1));
    assert [] + [E(1, 1)] == [E(1, 1)] && [E(1, 1)] + [E(2, 1)] == [E(1, 1), E(2, 1)];
    assert [E(1, 1), E(2, 1)] + [E(3, 1)] == OLD_SUFFIX;
  }

  lemma RewriteReplayed()
    ensures Replayed(OLD_SUFFIX + REWRITE) == State([E(1, 1).e, E(2, 2).e], 2, None)
  {
    OldSuffixReplayed();
    ReplayPair(OLD_SUFFIX, E(2, 2));
    var e := Replayed(OLD_SUFFIX).ents;
    assert e[..2] == [E(1, 1).e, E(2, 1).e] && e[..2][..1] == [E(1, 1).e];
    assert CutFrom(e, 2) == CutFrom(e[..2], 2) == CutFrom(e[..2][..1], 2) == [E(1, 1).e];
  }

  lemma ThreeSegments(a: seq<Rec>, b: seq<Rec>, c: seq<Rec>)
    ensures Flat(map[1 := a, 2 := b, 3 := c], 4) == a + b + c
    ensures Flat(map[1 := a, 3 := c], 4) == a + c
  {
    var segs: Segs, kept: Segs := map[1 := a, 2 := b, 3 := c], map[1 := a, 3 := c];
    FlatSkip(segs, 0, 1);
    FlatSkip(kept, 0, 1);
    assert Flat(segs, 2) == Flat(segs, 1) + a == a && Flat(kept, 2) == Flat(kept, 1) + a == a;
    assert Flat(segs, 3) == a + b && Flat(kept, 3) == a + [] == a;
  }

  lemma OldSuffixGapFree()
    ensures GapFree(OLD_SUFFIX + REWRITE, 0) && HasEntry(OLD_SUFFIX + REWRITE)
    ensures Last(REWRITE) == 2 && Last(OLD_SUFFIX + REWRITE) == 2
  {
    var e1, e2, e3 := Entry(1, 1, []), Entry(2, 1, []), Entry(3, 1, []);
    GapFreeSnoc([], e1, 0);
    GapFreeSnoc([E(1, 1)], e2, 0) by {
      assert [] + [Ent(e1)] == [E(1, 1)];
    }
    GapFreeSnoc([E(1, 1), E(2, 1)], e3, 0) by {
      assert [E(1, 1)] + [Ent(e2)] == [E(1, 1), E(2, 1)];
    }
    GapFreeSnoc(OLD_SUFFIX, Entry(2, 2, []), 0) by {
      assert [E(1, 1), E(2, 1)] + [Ent(e3)] == OLD_SUFFIX;
    }
    assert (OLD_SUFFIX + REWRITE)[0].Ent?;
  }

  /**
   * Three segments, the newest still without entries, no gap, the tail at `upto`: deleting the segment that overwrote
   * entry 2 brings the old entry 3 back.
   */
  lemma ReclaimNeedsTailAbove()
    ensures var segs: Segs := map[1 := OLD_SUFFIX, 2 := REWRITE, 3 := []];
            var kept: Segs := map[1 := OLD_SUFFIX, 3 := []];
            && Reclaimed(segs, kept, 2) && GapFree(Flat(segs, 4), 0) && Last(Flat(segs, 4)) == 2
            && !Harmless(segs, 3, 2)
            && E(3, 1).e in Replayed(Flat(kept, 4)).ents && E(3, 1).e !in Replayed(Flat(segs, 4)).ents
  {
    var segs: Segs := map[1 := OLD_SUFFIX, 2 := REWRITE, 3 := []];
    ThreeSegments(OLD_SUFFIX, REWRITE, []);
    OldSuffixReplayed();
    RewriteReplayed();
    OldSuffixGapFree();
    assert OLD_SUFFIX + REWRITE + [] == OLD_SUFFIX + REWRITE && OLD_SUFFIX + [] == OLD_SUFFIX;
    assert Replayed(OLD_SUFFIX).ents[2] == E(3, 1).e;
    assert Last(segs[1]) == 3;
    hide Flat, Replayed, GapFree;
  }

  /** So does an index gap in the newest segment, even with the tail above `upto`. */
  lemma ReclaimNeedsNoGap()
    ensures var segs: Segs := map[1 := OLD_SUFFIX, 2 := REWRITE, 3 := AFTER_GAP];
            var kept: Segs := map[1 := OLD_SUFFIX, 3 := AFTER_GAP];
            && Reclaimed(segs, kept, 2) && Last(Flat(segs, 4)) > 2 && !GapFree(Flat(segs, 4), 0)
            && E(3, 1).e in Replayed(Flat(kept, 4)).ents && E(3, 1).e !in Replayed(Flat(segs, 4)).ents
  {
    var h := OLD_SUFFIX + REWRITE;
    ThreeSegments(OLD_SUFFIX, REWRITE, AFTER_GAP);
    OldSuffixReplayed();
    RewriteReplayed();
    OldSuffixGapFree();
    ReplayPair(OLD_SUFFIX, E(5, 2));
    ReplayPair(h, E(5, 2));
    assert Replayed(OLD_SUFFIX + AFTER_GAP).ents[2] == E(3, 1).e;
    assert Replayed(h + AFTER_GAP).ents == [E(1, 1).e, E(2, 2).e, E(5, 2).e];
    assert (h + AFTER_GAP)[..|h|] == h && (h + AFTER_GAP)[|h|] == E(5, 2);
    hide Flat, Replayed;
  }

  // ----- HardState -----

  /** The newest segment below `n` that holds a HardState record. */
  function HsSeg(segs: Segs, n: nat): (r: Option<nat>)
    ensures r.Some? ==> r.value < n && r.value in segs && LastHs(segs[r.value]).Some?
  {
    if n == 0 then None
    else if n - 1 in segs && LastHs(segs[n - 1]).Some? then Some(n - 1)
    else HsSeg(segs, n - 1)
  }

  lemma {:induction false} FlatLastHs(segs: Segs, n: nat)
    ensures LastHs(Flat(segs, n)) ==
            match HsSeg(segs, n) case None => None case Some(s) => LastHs(segs[s])
  {
    if n > 0 {
      FlatLastHs(segs, n - 1);
      LastConcat(Flat(segs, n - 1), if n - 1 in segs then segs[n - 1] else []);
    }
  }

  lemma {:induction false} HsSegKept(segs: Segs, kept: Segs, n: nat)
    requires forall s :: s in kept ==> s in segs && kept[s] == segs[s]
    ensures HsSeg(segs, n) == None ==> HsSeg(kept, n) == None
    ensures HsSeg(segs, n).Some? && HsSeg(segs, n).value in kept ==> HsSeg(kept, n) == HsSeg(segs, n)
    ensures HsSeg(segs, n).Some? && HsSeg(segs, n).value !in kept ==>
              HsSeg(kept, n) == HsSeg(kept, HsSeg(segs, n).value)
  {
    if n > 0 {
      HsSegKept(segs, kept, n - 1);
    }
  }

  /**
   * Exactly what reclaim does to the HardState: it stays when the newest segment holding one is kept; when that
   * segment is deleted, the log falls back to what the kept segments before it hold, possibly nothing.
   */
  lemma ReclaimHardState(segs: Segs, kept: Segs, n: nat)
    requires forall s :: s in kept ==> s in segs && kept[s] == segs[s]
    ensures match HsSeg(segs, n)
            case None => Replayed(Flat(segs, n)).hs == Replayed(Flat(kept, n)).hs == None
            case Some(s) =>
              && (s in kept ==> Replayed(Flat(kept, n)).hs == Replayed(Flat(segs, n)).hs)
              && (s !in kept ==> Replayed(Flat(kept, n)).hs == Replayed(Flat(kept, s)).hs)
  {
    ReplayedLast(Flat(segs, n));
    ReplayedLast(Flat(kept, n));
    FlatLastHs(segs, n);
    FlatLastHs(kept, n);
    HsSegKept(segs, kept, n);
    if HsSeg(segs, n).Some? {
      var s := HsSeg(segs, n).value;
      ReplayedLast(Flat(kept, s));
      FlatLastHs(kept, s);
    }
  }

  lemma TwoSegments(a: seq<Rec>, b: seq<Rec>)
    ensures Flat(map[1 := a, 2 := b], 3) == a + b
    ensures Flat(map[2 := b], 3) == b
  {
    var segs: Segs, kept: Segs := map[1 := a, 2 := b], map[2 := b];
    FlatSkip(segs, 0, 1);
    FlatSkip(kept, 0, 2);
    assert Flat(segs, 2) == Flat(segs, 1) + segs[1] == a;
    assert Flat(kept, 3) == Flat(kept, 2) + kept[2] == b;
  }

  lemma GapFreeSnoc(p: seq<Rec>, e: Entry, floor: nat)
    requires GapFree(p, floor) && 1 <= e.index && (e.index <= Last(p) + 1 || !HasEntry(p))
    ensures GapFree(p + [Ent(e)], floor)
  {
    assert (p + [Ent(e)])[..|p|] == p;
  }

  const BEFORE_ROTATION: seq<Rec> := [Hs(HardState(7, 1, 0)), E(1, 7)]
  const AFTER_ROTATION: seq<Rec> := [E(2, 7)]

  lemma BeforeRotation()
    ensures GapFree(BEFORE_ROTATION, 0) && Last(BEFORE_ROTATION) == 1
    ensures LastHs(BEFORE_ROTATION) == Some(HardState(7, 1, 0))
  {
    var h := [Hs(HardState(7, 1, 0))];
    assert h[..0] == [];
    assert GapFree(h, 0);
    assert !HasEntry(h);
    GapFreeSnoc(h, Entry(1, 7, []), 0);
    LastConcat(h, [E(1, 7)]);
    assert [E(1, 7)][..0] == [];
    assert h + [E(1, 7)] == BEFORE_ROTATION;
  }

  /**
   * The newest HardState can be lost. A crash in a rotation, after the next segment was created and before its copy of
   * the HardState was written, leaves segment 2 empty and newest; once entry 2 is in it, segment 1 may be reclaimed
   * up to index 1, with no gap and the tail above, and with it the only HardState.
   */
  lemma InterruptedRotationCanLoseHardState()
    ensures var segs: Segs := map[1 := BEFORE_ROTATION, 2 := AFTER_ROTATION];
            var kept: Segs := map[2 := AFTER_ROTATION];
            && Reclaimed(segs, kept, 1) && GapFree(Flat(segs, 3), 0) && Last(Flat(segs, 3)) > 1
            && Replayed(Flat(segs, 3)).hs == Some(HardState(7, 1, 0))
            && Replayed(Flat(kept, 3)).hs == None
  {
    hide Flat, Replayed;
    TwoSegments(BEFORE_ROTATION, AFTER_ROTATION);
    BeforeRotation();
    GapFreeSnoc(BEFORE_ROTATION, Entry(2, 7, []), 0);
    LastConcat(BEFORE_ROTATION, AFTER_ROTATION);
    assert AFTER_ROTATION[..0] == [];
    assert AFTER_ROTATION[0].Ent?;
    ReplayedLast(BEFORE_ROTATION + AFTER_ROTATION);
    ReplayedLast(AFTER_ROTATION);
  }
}
