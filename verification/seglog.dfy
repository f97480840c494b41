/**
 * The segmented append log of one raft group: opening a directory, appending, rotating and reclaiming segments.
 * The disk is part of the object; every state it passes through is kept in `trail`, so that a power loss can be taken
 * at any step of any method, not only between calls.
 */
module SegLog {
  import opened Bytes
  import opened Faults
  import opened Frame
  import opened Replay
  import opened SegDisk
  import opened SegScan
  import opened SortedSets

  // ----- steps of the disk -----

  ghost function WithTop(m: Moment, f: File, recs: seq<Rec>, synced: nat): Moment {
    m.(dir := m.dir.(files := m.dir.files[m.top := f]), segs := m.segs[m.top := recs], synced := synced)
  }

  lemma TopSound(c: Codec, m: Moment, f: File, recs: seq<Rec>, synced: nat)
    requires Sound(c, m) && AllFit(c, recs) && synced <= |recs| && Open(c, f, recs, synced)
    ensures Sound(c, WithTop(m, f, recs, synced))
    ensures WithTop(m, f, recs, synced).History() == Flat(m.segs, m.top) + recs
  {
    TopOld(c, m, f, recs, synced);
    TopHistory(m, f, recs, synced);
    hide GapFree, Open, SoundOld, AllFit, Flat;
  }

  lemma TopOld(c: Codec, m: Moment, f: File, recs: seq<Rec>, synced: nat)
    requires Sound(c, m) && AllFit(c, recs)
    ensures AllSegsFit(c, WithTop(m, f, recs, synced).segs) && SoundOld(c, WithTop(m, f, recs, synced))
  {
    hide GapFree, Frames, Open, Last, Sealed, Flat, Fits;
  }

  lemma TopHistory(m: Moment, f: File, recs: seq<Rec>, synced: nat)
    ensures WithTop(m, f, recs, synced).History() == Flat(m.segs, m.top) + recs
  {
    FlatSame(m.segs, WithTop(m, f, recs, synced).segs, m.top);
  }

  /** The next segment exists but its name is not yet on disk. */
  ghost function WithNext(m: Moment): Moment {
    m.(dir := m.dir.(files := m.dir.files[m.top + 1 := File([], 0, false, false)]),
       segs := m.segs[m.top + 1 := []], top := m.top + 1, synced := 0)
  }

  lemma NextSound(c: Codec, m: Moment)
    requires Sound(c, m) && m.top in m.dir.files && Sealed(c, m.dir.files[m.top], m.segs[m.top])
    ensures Sound(c, WithNext(m)) && WithNext(m).History() == m.History()
    ensures Flat(WithNext(m).segs, m.top + 1) == m.History()
  {
    NextOld(c, m);
    NextHistory(c, m);
    EmptyOpen(c);
    hide GapFree, SoundOld, Open, Flat, Sealed;
  }

  lemma NextOld(c: Codec, m: Moment)
    requires Sound(c, m) && m.top in m.dir.files && Sealed(c, m.dir.files[m.top], m.segs[m.top])
    ensures AllSegsFit(c, WithNext(m).segs) && SoundOld(c, WithNext(m))
  {
    hide GapFree, Frames, Open, Last, Flat, Fits;
  }

  lemma NextHistory(c: Codec, m: Moment)
    requires Sound(c, m)
    ensures WithNext(m).History() == m.History() == Flat(WithNext(m).segs, m.top + 1)
  {
    hide GapFree, SoundOld, Open;
    var n := WithNext(m);
    FlatSame(m.segs, n.segs, m.top + 1);
    assert Flat(n.segs, n.top + 1) == Flat(n.segs, n.top) + [];
  }

  lemma EmptyOpen(c: Codec)
    ensures Open(c, File([], 0, false, false), [], 0)
    ensures Open(c, File([], 0, false, true), [], 0)
  {
    var none: seq<Rec> := [];
    assert none[..0] == none;
    assert Frames(c, [])[..0] + Zeros(0) == [];
    assert ShapeAs(c, [], [], 0, 0, 0);
  }

  ghost function WithFloor(m: Moment, upto: nat): Moment {
    m.(floor := if upto > m.floor then upto else m.floor)
  }

  lemma FloorSound(c: Codec, m: Moment, upto: nat)
    requires Sound(c, m)
    ensures Sound(c, WithFloor(m, upto))
  {
    hide Frames, Open, Sealed, Flat;
  }

  ghost function Without(m: Moment, s: nat): Moment
    requires s in m.dir.files
  {
    m.(dir := Dir(m.dir.files - {s}, m.dir.gone[s := m.dir.files[s].data]))
  }

  lemma RemoveSound(c: Codec, m: Moment, s: nat)
    requires Sound(c, m) && s in m.dir.files && s != m.top && Last(m.segs[s]) <= m.floor
    ensures Sound(c, Without(m, s))
  {
    hide Frames, Open, GapFree, Flat, Last, FrameOf;
  }

  /** The newest file of a directory; an empty one is opened with segment 1. */
  ghost predicate Newest(files: set<nat>, t: nat) {
    if files == {} then t == 1 else t in files && forall s :: s in files ==> s <= t
  }

  /** What stands after a power loss: the survivors, all of them on disk, with what was meant to be in them. */
  ghost function AfterLoss(m: Moment, after: map<nat, Bytes>, t: nat): Moment
    requires m.top in m.segs && forall s :: s in after ==> s in m.segs
  {
    var files := map s | s in after ::
      File(after[s], |after[s]|, s != m.top || (s in m.dir.files && m.dir.files[s].exact), true);
    var segs := (map s | s in after :: m.segs[s]);
    var segs := if after == map[] then map[t := []] else segs;
    Moment(Dir(files, map[]), segs, t,
      if t == m.top && t in after then m.synced else if t in segs then |segs[t]| else 0, m.floor)
  }

  lemma LossFiles(c: Codec, m: Moment, after: map<nat, Bytes>)
    requires Sound(c, m) && Lost(m.dir, after)
    ensures forall s :: s in after ==> s in m.segs && s <= m.top && AllFit(c, m.segs[s])
    ensures forall s :: s in after && s != m.top ==> after[s] == Frames(c, m.segs[s])
  {
    forall s | s in after
      ensures s in m.segs && s <= m.top && (s != m.top ==> after[s] == Frames(c, m.segs[s]))
    {
      if s != m.top {
        OlderFile(c, m, after, s);
      }
    }
  }

  lemma LossOld(c: Codec, m: Moment, after: map<nat, Bytes>, t: nat)
    requires m.top in m.segs && m.synced <= |m.segs[m.top]| && Newest(after.Keys, t)
    requires forall s :: s in after ==> s in m.segs && s <= m.top && AllFit(c, m.segs[s])
    requires forall s :: s in after && s != m.top ==> after[s] == Frames(c, m.segs[s])
    ensures var n := AfterLoss(m, after, t);
            AllSegsFit(c, n.segs) && t in n.segs && n.synced <= |n.segs[t]| && SoundOld(c, n)
  {
    hide Frames, GapFree, Flat, Last, Fits;
    if after == map[] {
      assert after.Keys == {};
    } else {
      var s :| s in after;
      assert s in after.Keys;
    }
  }

  lemma LossTop(c: Codec, m: Moment, after: map<nat, Bytes>, t: nat)
    requires Sound(c, m) && Lost(m.dir, after) && t in after && t in m.segs
    requires t != m.top ==> after[t] == Frames(c, m.segs[t])
    requires forall s :: s in after ==> s in m.segs
    ensures var n := AfterLoss(m, after, t);
            n.synced <= |n.segs[t]| && AllFit(c, n.segs[t]) && Open(c, n.dir.files[t], n.segs[t], n.synced)
  {
    hide GapFree, Flat, Last, FrameOf, Frames;
    var n := AfterLoss(m, after, t);
    if t == m.top {
      var f := m.dir.files[t];
      LeftKeepsShape(c, f, m.segs[t], m.synced, after[t]);
      ShapeLength(c, after[t], m.segs[t], m.synced);
    } else {
      var r := m.segs[t];
      assert r[..|r|] == r;
      assert Frames(c, r)[..|Frames(c, r)|] + Zeros(0) == Frames(c, r);
      assert ShapeAs(c, after[t], r, |r|, |Frames(c, r)|, 0);
    }
  }

  lemma ShapeLength(c: Codec, data: Bytes, recs: seq<Rec>, synced: nat)
    requires AllFit(c, recs) && synced <= |recs| && Shape(c, data, recs, synced)
    ensures |Frames(c, recs[..synced])| <= |data|
  {
    hide Frames;
  }

  lemma EmptyGapFree(floor: nat)
    ensures GapFree([], floor)
  {
  }

  lemma EmptyLast()
    ensures Last([]) == 0
  {
  }

  /** The segments a power loss takes away were reclaimed before, or hold nothing yet. */
  lemma LossDrops(c: Codec, m: Moment, after: map<nat, Bytes>)
    requires Sound(c, m) && Lost(m.dir, after)
    ensures forall s :: s in m.segs && s !in after ==> Last(m.segs[s]) <= m.floor
  {
    hide GapFree, Frames, FrameOf, Left, Last, Shape, Flat;
    EmptyLast();
    forall s | s in m.segs && s !in after
      ensures Last(m.segs[s]) <= m.floor
    {
      if s == m.top {
        assert s in m.dir.files ==> !m.dir.files[s].named;
        assert m.segs[s] == [];
      } else {
        assert s !in m.dir.files;
      }
    }
  }

  /** A power loss opens no index gap: what it takes was reclaimed before, or is the end of the log. */
  lemma LossGapless(c: Codec, m: Moment, after: map<nat, Bytes>, t: nat)
    requires Sound(c, m) && Lost(m.dir, after) && Newest(after.Keys, t) && Gapless(m)
    requires m.top in m.segs && forall s :: s in after ==> s in m.segs && s <= m.top
    ensures Gapless(AfterLoss(m, after, t))
  {
    hide GapFree, Sound, Lost, Last, AfterLoss;
    var n := AfterLoss(m, after, t);
    LossSegs(m, after, t);
    if after == map[] {
      FlatSkip(n.segs, 0, t + 1);
      assert n.History() == [];
      EmptyGapFree(m.floor);
    } else {
      var s :| s in after;
      assert s in after.Keys;
      LossDrops(c, m, after);
      assert Reclaimed(m.segs, n.segs, m.floor);
      GapFreeReclaimed(m.segs, n.segs, m.top + 1, m.floor);
      FlatSkip(n.segs, t + 1, m.top + 1);
    }
  }

  lemma LossSegs(m: Moment, after: map<nat, Bytes>, t: nat)
    requires m.top in m.segs && forall s :: s in after ==> s in m.segs
    ensures var n := AfterLoss(m, after, t);
            && n.segs == (if after == map[] then map[t := []] else map s | s in after :: m.segs[s])
            && n.top == t && n.floor == m.floor
  {
  }

  /** Any power loss from any sound state leaves a sound state, in which everything that survived is on disk. */
  lemma LossSound(c: Codec, m: Moment, after: map<nat, Bytes>, t: nat)
    requires Sound(c, m) && Lost(m.dir, after) && Newest(after.Keys, t)
    ensures m.top in m.segs && forall s :: s in after ==> s in m.segs && s <= m.top
    ensures Sound(c, AfterLoss(m, after, t))
    ensures forall s :: s in after ==> after[s] == AfterLoss(m, after, t).dir.files[s].data
  {
    LossFiles(c, m, after);
    LossOld(c, m, after, t);
    if after != map[] {
      var s :| s in after;
      assert s in after.Keys;
      if t != m.top {
        OlderFile(c, m, after, t);
      }
      LossTop(c, m, after, t);
    }
    hide Frames, GapFree, Flat, Last, FrameOf, Open, SoundOld, Lost, Newest;
    if after == map[] {
      assert after.Keys == {};
      assert AfterLoss(m, after, t).segs == map[t := []];
    }
  }

  // ----- what callers see of a run -----

  /**
   * `b` is reached from `a` by writing and syncing: nothing written is taken back, nothing synced is unsynced, and a
   * newest segment that holds a synced HardState goes on holding one for as long as it is the newest.
   */
  ghost predicate Grows(a: Moment, b: Moment) {
    && a.top in a.segs && a.synced <= |a.segs[a.top]|
    && b.top in b.segs && b.synced <= |b.segs[b.top]|
    && a.History() <= b.History()
    && Durable(a) <= Durable(b)
    && a.floor <= b.floor
    && a.top <= b.top
    && (a.top == b.top && Anchored(a) ==> Anchored(b))
  }

  ghost predicate Chain(trail: seq<Moment>, lo: nat) {
    forall i :: lo <= i < |trail| - 1 ==> Grows(trail[i], trail[i + 1])
  }

  lemma {:induction false} ChainGrows(trail: seq<Moment>, lo: nat, i: nat)
    requires Chain(trail, lo) && lo < i < |trail|
    ensures Grows(trail[lo], trail[i])
  {
    assert Grows(trail[i - 1], trail[i - 1 + 1]);
    if i > lo + 1 {
      ChainGrows(trail, lo, i - 1);
    }
  }

  function EntRecs(ents: seq<Entry>): (r: seq<Rec>)
    ensures |r| == |ents|
  {
    if ents == [] then [] else EntRecs(ents[..|ents| - 1]) + [Ent(ents[|ents| - 1])]
  }

  function HsRecs(hs: Option<HardState>): seq<Rec> {
    match hs case Some(h) => [Hs(h)] case None => []
  }

  /** One round: the HardState first, then the entries. */
  function Records(hs: Option<HardState>, ents: seq<Entry>): seq<Rec> {
    HsRecs(hs) + EntRecs(ents)
  }

  lemma {:induction false} EntRecsLast(ents: seq<Entry>)
    ensures LastHs(EntRecs(ents)) == None
    ensures HasEntry(EntRecs(ents)) <==> ents != []
    ensures ents != [] ==> Last(EntRecs(ents)) == ents[|ents| - 1].index
  {
    if ents != [] {
      EntRecsLast(ents[..|ents| - 1]);
      assert EntRecs(ents)[|ents| - 1].Ent?;
    }
  }

  lemma RecordsLast(hs: Option<HardState>, ents: seq<Entry>, h: seq<Rec>)
    ensures Last(h + Records(hs, ents)) == if ents != [] then ents[|ents| - 1].index else Last(h)
    ensures LastHs(h + Records(hs, ents)) == if hs.Some? then hs else LastHs(h)
  {
    hide HasEntry, Last, LastHs, EntRecs;
    var a, b := HsRecs(hs), EntRecs(ents);
    LastConcat(h, a);
    LastConcat(h + a, b);
    assert h + Records(hs, ents) == (h + a) + b;
    EntRecsLast(ents);
    HsHasNoEntry(hs);
  }

  lemma HsHasNoEntry(hs: Option<HardState>)
    ensures !HasEntry(HsRecs(hs)) && LastHs(HsRecs(hs)) == hs && Last(HsRecs(hs)) == 0
  {
  }

  lemma AssembleStart(c: Codec, hs: Option<HardState>, ents: seq<Entry>)
    requires AllFit(c, Records(hs, ents))
    ensures AllFit(c, Records(hs, ents[..0])) && Records(hs, ents[..0]) == HsRecs(hs)
    ensures hs.Some? ==> Fits(c, Hs(hs.value))
    ensures hs.Some? ==> Frames(c, Records(hs, ents[..0])) == FrameOf(c, REC_HARD_STATE, Payload(c, Hs(hs.value)))
    ensures hs == None ==> Frames(c, Records(hs, ents[..0])) == []
  {
    assert Records(hs, ents[..0]) == HsRecs(hs);
    if hs.Some? {
      assert Records(hs, ents)[0] == Hs(hs.value);
      FrameAlone(c, Hs(hs.value));
    }
  }

  lemma AssembleStep(c: Codec, hs: Option<HardState>, ents: seq<Entry>, i: nat)
    requires AllFit(c, Records(hs, ents)) && i < |ents|
    ensures Fits(c, Ent(ents[i]))
    ensures AllFit(c, Records(hs, ents[..i])) && AllFit(c, Records(hs, ents[..i + 1]))
    ensures Frames(c, Records(hs, ents[..i + 1]))
         == Frames(c, Records(hs, ents[..i])) + FrameOf(c, REC_ENTRY, Payload(c, Ent(ents[i])))
  {
    hide Frames, FrameOf, Fits;
    EntRecsPrefix(ents, i);
    assert Records(hs, ents)[|HsRecs(hs)| + i] == Ent(ents[i]);
    assert Records(hs, ents[..i]) == Records(hs, ents)[..|HsRecs(hs)| + i];
    assert Records(hs, ents[..i + 1]) == Records(hs, ents[..i]) + [Ent(ents[i])];
    FrameAlone(c, Ent(ents[i]));
    FramesConcat(c, Records(hs, ents[..i]), [Ent(ents[i])]);
  }

  /** The frame buffer of one Append, in the order Append builds it. */
  method Assemble(c: Codec, hs: Option<HardState>, ents: seq<Entry>) returns (buf: Bytes)
    requires AllFit(c, Records(hs, ents))
    ensures buf == Frames(c, Records(hs, ents))
  {
    hide Frames, FrameOf, AllFit, Records;
    buf := [];
    AssembleStart(c, hs, ents);
    if hs.Some? {
      buf := buf + FrameOf(c, REC_HARD_STATE, Payload(c, Hs(hs.value)));
    }
    var i := 0;
    while i < |ents|
      invariant 0 <= i <= |ents|
      invariant AllFit(c, Records(hs, ents[..i]))
      invariant buf == Frames(c, Records(hs, ents[..i]))
    {
      AssembleStep(c, hs, ents, i);
      buf := buf + FrameOf(c, REC_ENTRY, Payload(c, Ent(ents[i])));
      i := i + 1;
    }
    assert ents[..i] == ents;
  }

  lemma FrameAlone(c: Codec, r: Rec)
    requires Fits(c, r)
    ensures AllFit(c, [r]) && Frames(c, [r]) == FrameOf(c, TypeOf(r), Payload(c, r))
  {
    assert Frames(c, [r]) == FrameOf(c, TypeOf(r), Payload(c, r)) + Frames(c, [r][1..]);
  }

  lemma {:induction false} EntRecsPrefix(ents: seq<Entry>, i: nat)
    requires i <= |ents|
    ensures EntRecs(ents[..i]) == EntRecs(ents)[..i]
    ensures i < |ents| ==>
              EntRecs(ents[..i + 1]) == EntRecs(ents[..i]) + [Ent(ents[i])] && EntRecs(ents)[i] == Ent(ents[i])
  {
    if i < |ents| {
      EntRecsPrefix(ents[..|ents| - 1], i);
      assert ents[..|ents| - 1][..i] == ents[..i];
      assert ents[..i + 1][..i] == ents[..i];
      if i + 1 < |ents| {
        assert ents[..|ents| - 1][..i + 1] == ents[..i + 1];
      }
    } else {
      assert ents[..i] == ents;
    }
  }

  // ----- steps on the newest segment -----

  /** The newest segment holds all its frames, is named on disk and may still grow. */
  ghost predicate Writable(c: Codec, m: Moment) {
    && Sound(c, m)
    && m.top in m.dir.files
    && m.dir.files[m.top] == File(Frames(c, m.segs[m.top]), m.dir.files[m.top].durable, false, true)
  }

  ghost function WithWrite(c: Codec, m: Moment, recs: seq<Rec>, n: nat): Moment
    requires Writable(c, m) && AllFit(c, recs) && n <= |Frames(c, recs)|
  {
    var f := m.dir.files[m.top];
    WithTop(m, f.(data := f.data + Frames(c, recs)[..n]), m.segs[m.top] + recs, m.synced)
  }

  /** A write, complete or cut short by an error after `n` bytes. */
  lemma WriteSound(c: Codec, m: Moment, recs: seq<Rec>, n: nat)
    requires Writable(c, m) && AllFit(c, recs) && n <= |Frames(c, recs)|
    ensures Sound(c, WithWrite(c, m, recs, n)) && Grows(m, WithWrite(c, m, recs, n))
    ensures WithWrite(c, m, recs, n).History() == m.History() + recs
    ensures n == |Frames(c, recs)| ==> Writable(c, WithWrite(c, m, recs, n))
  {
    SoundFits(c, m);
    WriteTop(c, m, recs, n);
    if n == |Frames(c, recs)| {
      WriteWhole(c, m, recs, n);
    }
    var f := m.dir.files[m.top];
    WriteDurable(m, f.(data := f.data + Frames(c, recs)[..n]), recs);
    if Anchored(m) {
      WriteAnchored(m, f.(data := f.data + Frames(c, recs)[..n]), recs);
    }
    hide GapFree, SoundOld, Fits, FrameOf, Frames, Flat, Open, Durable, Sound, Anchored;
  }

  lemma WriteAnchored(m: Moment, f: File, recs: seq<Rec>)
    requires Anchored(m)
    ensures Anchored(WithTop(m, f, m.segs[m.top] + recs, m.synced))
  {
    assert (m.segs[m.top] + recs)[..m.synced] == m.segs[m.top][..m.synced];
  }

  /** Once everything in the newest segment is synced, a HardState anywhere in it will do. */
  lemma SyncAnchors(m: Moment, f: File)
    requires m.top in m.segs && m.synced <= |m.segs[m.top]|
    ensures var s := WithTop(m, f, m.segs[m.top], |m.segs[m.top]|);
            && (LastHs(m.segs[m.top]).Some? <==> Anchored(s)) && (Anchored(m) ==> Anchored(s))
  {
    var r := m.segs[m.top];
    assert r[..|r|] == r;
    if Anchored(m) {
      PrefixHs(r, m.synced, |r|);
    }
  }

  lemma WriteTop(c: Codec, m: Moment, recs: seq<Rec>, n: nat)
    requires Writable(c, m) && AllFit(c, recs) && n <= |Frames(c, recs)|
    ensures Sound(c, WithWrite(c, m, recs, n))
    ensures WithWrite(c, m, recs, n).History() == m.History() + recs
  {
    hide GapFree, SoundOld, Fits, FrameOf, Frames, Shape;
    var f, was := m.dir.files[m.top], m.segs[m.top];
    WriteOpen(c, f, was, recs, m.synced, n);
    assert m.History() + recs == Flat(m.segs, m.top) + (was + recs) by {
      FlatTop(m.segs, m.top);
    }
    hide Flat;
    TopSound(c, m, f.(data := f.data + Frames(c, recs)[..n]), was + recs, m.synced);
  }

  lemma WriteWhole(c: Codec, m: Moment, recs: seq<Rec>, n: nat)
    requires Writable(c, m) && AllFit(c, recs) && n == |Frames(c, recs)|
    requires Sound(c, WithWrite(c, m, recs, n))
    ensures Writable(c, WithWrite(c, m, recs, n))
  {
    hide GapFree, Sound, Fits, FrameOf, Frames;
    SoundFits(c, m);
    FramesConcat(c, m.segs[m.top], recs);
    assert Frames(c, recs)[..n] == Frames(c, recs);
  }

  lemma WriteDurable(m: Moment, f: File, recs: seq<Rec>)
    requires m.top in m.segs && m.synced <= |m.segs[m.top]|
    ensures Durable(WithTop(m, f, m.segs[m.top] + recs, m.synced)) == Durable(m)
  {
    FlatSame(m.segs, WithTop(m, f, m.segs[m.top] + recs, m.synced).segs, m.top);
    assert (m.segs[m.top] + recs)[..m.synced] == m.segs[m.top][..m.synced];
  }

  lemma WriteOpen(c: Codec, f: File, was: seq<Rec>, recs: seq<Rec>, synced: nat, n: nat)
    requires AllFit(c, was) && AllFit(c, recs) && synced <= |was| && n <= |Frames(c, recs)|
    requires Open(c, f, was, synced) && f.data == Frames(c, was) && !f.exact && f.named
    ensures AllFit(c, was + recs)
    ensures Open(c, f.(data := f.data + Frames(c, recs)[..n]), was + recs, synced)
  {
    hide Fits, FrameOf, Frames;
    FramesConcat(c, was, recs);
    FramesPrefix(c, was, synced);
    var all := Frames(c, was + recs);
    var k := |f.data| + n;
    assert (was + recs)[..synced] == was[..synced];
    assert f.data + Frames(c, recs)[..n] == all[..k] + Zeros(0);
    assert ShapeAs(c, f.data + Frames(c, recs)[..n], was + recs, synced, k, 0);
  }

  lemma WholeOpen(c: Codec, recs: seq<Rec>, synced: nat, durable: nat, exact: bool)
    requires AllFit(c, recs) && synced <= |recs|
    requires |Frames(c, recs[..synced])| <= durable <= |Frames(c, recs)|
    ensures Open(c, File(Frames(c, recs), durable, exact, true), recs, synced)
  {
    hide Fits, FrameOf, Frames;
    var all := Frames(c, recs);
    assert all[..|all|] + Zeros(0) == all;
    assert ShapeAs(c, all, recs, synced, |all|, 0);
  }

  /** fsync of the newest segment; `exact` when its length was first cut to the logical end. */
  ghost function WithSync(c: Codec, m: Moment, exact: bool): Moment
    requires Writable(c, m)
  {
    var r := m.segs[m.top];
    WithTop(m, File(Frames(c, r), |Frames(c, r)|, exact, true), r, |r|)
  }

  lemma SyncSound(c: Codec, m: Moment, exact: bool)
    requires Writable(c, m)
    ensures var s := WithSync(c, m, exact);
            && Sound(c, s) && s.History() == m.History() && Durable(s) == s.History() && Grows(m, s)
            && (!exact ==> Writable(c, s))
            && (exact ==> Sealed(c, s.dir.files[s.top], s.segs[s.top]))
  {
    hide GapFree, SoundOld, Fits, FrameOf, Frames, Shape;
    var r := m.segs[m.top];
    assert r[..|r|] == r;
    WholeOpen(c, r, |r|, |Frames(c, r)|, exact);
    TopSound(c, m, File(Frames(c, r), |Frames(c, r)|, exact, true), r, |r|);
    FlatSame(m.segs, WithSync(c, m, exact).segs, m.top);
    DurableBelow(m);
    SyncAnchors(m, File(Frames(c, r), |Frames(c, r)|, exact, true));
    hide Anchored;
  }

  lemma DurableBelow(m: Moment)
    requires m.top in m.segs && m.synced <= |m.segs[m.top]|
    ensures Durable(m) <= m.History()
  {
    assert m.segs[m.top][..m.synced] <= m.segs[m.top];
  }

  lemma NextGrows(c: Codec, m: Moment)
    requires Sound(c, m) && m.top in m.dir.files && Sealed(c, m.dir.files[m.top], m.segs[m.top])
    ensures Grows(m, WithNext(m))
  {
    NextSound(c, m);
    DurableBelow(m);
    assert Durable(WithNext(m)) == m.History();
  }

  ghost function WithName(m: Moment): Moment
    requires m.top in m.dir.files && m.top in m.segs
  {
    WithTop(m, m.dir.files[m.top].(named := true), m.segs[m.top], m.synced)
  }

  /** fsync of the directory. */
  lemma NameSound(c: Codec, m: Moment)
    requires Sound(c, m) && m.top in m.dir.files
    ensures Sound(c, WithName(m)) && WithName(m).History() == m.History() && Grows(m, WithName(m))
    ensures m.dir.files[m.top] == File([], 0, false, false) ==> Writable(c, WithName(m))
  {
    hide GapFree, SoundOld, Fits, FrameOf, Shape;
    TopSound(c, m, m.dir.files[m.top].(named := true), m.segs[m.top], m.synced);
    FlatSame(m.segs, WithName(m).segs, m.top);
  }

  // ----- records still visible to this process -----

  /** The records Open found plus those written since: `missing` are the segments that were not there at Open. */
  ghost function Seen(m: Moment, missing: set<nat>): seq<Rec> {
    Flat(m.segs - missing, m.top + 1)
  }

  lemma SeenTop(m: Moment, missing: set<nat>, f: File, recs: seq<Rec>, synced: nat)
    requires m.top in m.segs && m.top !in missing
    ensures Seen(m, missing) == Flat(m.segs - missing, m.top) + m.segs[m.top]
    ensures Seen(WithTop(m, f, recs, synced), missing) == Flat(m.segs - missing, m.top) + recs
  {
    FlatSame(m.segs - missing, WithTop(m, f, recs, synced).segs - missing, m.top);
  }

  lemma SeenNext(m: Moment, missing: set<nat>)
    requires m.top in m.segs && m.top + 1 !in missing
    ensures Seen(WithNext(m), missing) == Seen(m, missing)
  {
    var n := WithNext(m);
    FlatSame(m.segs - missing, n.segs - missing, m.top + 1);
    assert Flat(n.segs - missing, n.top + 1) == Flat(n.segs - missing, n.top) + [];
  }

  /** Closed segments with an index at or above their last entry record: too high is safe, too low would not be. */
  ghost predicate Registers(segMax: map<nat, nat>, m: Moment) {
    && (forall s :: s in segMax <==> s in m.dir.files && s != m.top)
    && (forall s :: s in segMax ==> s in m.segs && Last(m.segs[s]) <= segMax[s])
  }

  /** The newest segment, which reclaim never touches, holds a HardState if any segment read or written does. */
  ghost predicate Covers(m: Moment, missing: set<nat>) {
    m.top in m.segs && (LastHs(Seen(m, missing)).Some? ==> LastHs(m.segs[m.top]).Some?)
  }

  /** Same floor, and if no segment was gone before, none is now. */
  ghost predicate Kin(a: Moment, b: Moment) {
    b.floor == a.floor && (a.segs.Keys <= a.dir.files.Keys ==> b.segs.Keys <= b.dir.files.Keys)
  }

  /** A log just created in an empty directory. */
  ghost predicate FreshLog(m: Moment, missing: set<nat>, floor: nat) {
    && missing == {} && m.floor == floor && m.top == 1 && m.segs == map[1 := []]
    && 1 in m.dir.files && Seen(m, missing) == [] && m.History() == []
  }

  lemma KinSame(m: Moment)
    ensures Kin(m, m)
  {
  }

  lemma KinTrans(a: Moment, b: Moment, d: Moment)
    requires Kin(a, b) && Kin(b, d)
    ensures Kin(a, d)
  {
  }

  lemma WriteKin(c: Codec, m: Moment, recs: seq<Rec>, n: nat)
    requires Writable(c, m) && AllFit(c, recs) && n <= |Frames(c, recs)|
    ensures Kin(m, WithWrite(c, m, recs, n))
  {
    hide Frames, Sound;
    SoundFits(c, m);
  }

  lemma SyncKin(c: Codec, m: Moment)
    requires Writable(c, m)
    ensures Kin(m, WithSync(c, m, false))
  {
    hide Frames, Sound;
    SoundFits(c, m);
    Syncing(c, m, false);
  }

  lemma RotatedKin(a: Moment, b: Moment, recs: seq<Rec>, missing: set<nat>)
    requires Rotated(a, b, recs, missing)
    ensures Kin(a, b)
  {
    hide Flat, Durable, Seen;
  }

  /** What is on disk, segment by segment. */
  ghost function OnDisk(m: Moment): Segs {
    map s | s in m.segs && s in m.dir.files :: m.segs[s]
  }

  /** Every new moment of `trail` is one step of growth after the one before it. */
  ghost predicate Advanced(before: seq<Moment>, trail: seq<Moment>) {
    0 < |before| && before <= trail && Chain(trail, |before| - 1)
  }

  lemma AdvancedTrans(a: seq<Moment>, b: seq<Moment>, d: seq<Moment>)
    requires Advanced(a, b) && Advanced(b, d)
    ensures Advanced(a, d)
  {
    hide Grows;
  }

  lemma AdvancedByOne(a: seq<Moment>, m: Moment)
    requires 0 < |a| && Grows(a[|a| - 1], m)
    ensures Advanced(a, a + [m])
  {
    hide Grows;
  }

  lemma AdvancedSame(a: seq<Moment>)
    requires 0 < |a|
    ensures Advanced(a, a)
  {
  }

  // ----- runs without index gaps -----

  /** If `recs` leave no gap after the log as it stood, no moment since then has one. */
  ghost predicate KeepsGapless(before: seq<Moment>, trail: seq<Moment>, recs: seq<Rec>) {
    0 < |before| &&
    var m := before[|before| - 1];
    GapFree(m.History() + recs, m.floor) ==> forall i :: |before| - 1 <= i < |trail| ==> Gapless(trail[i])
  }

  /** A run that writes no more than `recs` and a copy of the HardState has no gap if `recs` leave none. */
  lemma AdvancedGapless(before: seq<Moment>, trail: seq<Moment>, recs: seq<Rec>, hs: Option<HardState>)
    requires Advanced(before, trail)
    requires trail[|trail| - 1].History() <= before[|before| - 1].History() + recs + HsRecs(hs)
    ensures KeepsGapless(before, trail, recs)
  {
    hide GapFree, Flat, Durable, Anchored;
    var m, lo := before[|before| - 1], |before| - 1;
    assert trail[lo] == m;
    if GapFree(m.History() + recs, m.floor) {
      HsKeepsGapFree(m.History() + recs, hs, m.floor);
      forall i | lo <= i < |trail|
        ensures Gapless(trail[i])
      {
        if i > lo {
          ChainGrows(trail, lo, i);
        }
        if i < |trail| - 1 {
          ChainGrows(trail, i, |trail| - 1);
        }
        MomentGapless(trail[i], m.History() + recs + HsRecs(hs), m.floor);
      }
    }
  }

  lemma MomentGapless(b: Moment, h: seq<Rec>, floor: nat)
    requires GapFree(h, floor) && b.History() <= h && floor <= b.floor
    ensures Gapless(b)
  {
    hide GapFree, Flat;
    var g := b.History();
    assert g + h[|g|..] == h;
    GapFreePrefix(g, h[|g|..], floor);
    GapFreeRaise(g, floor, b.floor);
  }

  lemma HsKeepsGapFree(h: seq<Rec>, hs: Option<HardState>, floor: nat)
    requires GapFree(h, floor)
    ensures GapFree(h + HsRecs(hs), floor)
  {
    match hs {
      case Some(_) => assert (h + HsRecs(hs))[..|h|] == h;
      case None => assert h + HsRecs(hs) == h;
    }
  }

  class Log {
    const io: Io
    const c: Codec
    const segMaxBytes: nat
    var dir: Dir
    var active: bool
    var activeSeq: nat
    var activeSize: nat
    var lastIndex: nat
    var lastHS: Option<HardState>
    var segMax: map<nat, nat>
    /** Every state of the disk so far; the last one is the present. */
    ghost var trail: seq<Moment>
    ghost var missing: set<nat>
    /** An operation has failed; by contract the object is not used again before a restart. */
    ghost var failed: bool

    ghost function Now(): Moment
      requires 0 < |trail|
      reads this
    {
      trail[|trail| - 1]
    }

    ghost predicate Valid()
      reads this
    {
      && Codes(c)
      && 0 < |trail|
      && Now().dir == dir
      && forall i :: 0 <= i < |trail| ==> Sound(c, trail[i])
    }

    /** The newest segment is the active one of this object. */
    ghost predicate Attached()
      reads this
    {
      && Valid()
      && active
      && Writable(c, Now())
      && activeSeq == Now().top
      && activeSize == |Frames(c, Now().segs[activeSeq])|
      && (forall s :: s in missing ==> s < activeSeq)
    }

    ghost function Visible(): seq<Rec>
      reads this
    {
      if trail == [] then [] else Seen(Now(), missing)
    }

    ghost predicate Ready()
      reads this
    {
      && Attached()
      && !failed
      && lastIndex == Last(Visible())
      && lastHS == LastHs(Visible())
      && (lastHS.Some? ==> Fits(c, Hs(lastHS.value)))
      && Registers(segMax, Now())
    }

    /** An empty disk. */
    constructor (io: Io, c: Codec, segMaxBytes: nat)
      requires Codes(c)
      ensures Valid() && !active && this.c == c && this.segMaxBytes == segMaxBytes
      ensures dir.files == map[] && Now().History() == [] && Now().floor == 0 && Openable() && Gapless(Now())
      ensures missing == {} && !failed && this.io == io
    {
      this.io := io;
      this.c, this.segMaxBytes := c, segMaxBytes;
      dir := Dir(map[], map[]);
      active, activeSeq, activeSize, lastIndex, lastHS, segMax := false, 0, 0, 0, None, map[];
      trail := [Moment(Dir(map[], map[]), map[1 := []], 1, 0, 0)];
      missing, failed := {}, false;
      new;
      EmptySound(c);
    }

    method Commit(d: Dir, ghost m: Moment)
      requires Valid() && m.dir == d && Sound(c, m)
      modifies `dir, `trail
      ensures Valid() && trail == old(trail) + [m] && Now() == m
      ensures Grows(old(Now()), m) ==> Advanced(old(trail), trail)
    {
      hide Sound, Grows;
      dir := d;
      trail := trail + [m];
      if Grows(old(Now()), m) {
        AdvancedByOne(old(trail), m);
      }
    }

    /** WriteAt at the logical end; an error may leave any part of the buffer in the file. */
    method WriteActive(buf: Bytes, ghost recs: seq<Rec>) returns (ok: bool)
      requires Attached() && AllFit(c, recs) && buf == Frames(c, recs)
      modifies `dir, `trail, `activeSize, io
      ensures io.failed >= old(io.failed) + if !ok then 1 else 0
      ensures Valid() && Advanced(old(trail), trail)
      ensures Now().History() == old(Now().History()) + recs
      ensures ok ==> Attached() && Now() == WithWrite(c, old(Now()), recs, |buf|)
      ensures activeSize == if ok then old(activeSize) + |buf| else old(activeSize)
    {
      hide Sound, Grows, Writable, Frames, AllFit, GapFree, Advanced;
      ghost var m := Now();
      ok := io.Try();
      var n: nat := |buf|;
      if !ok {
        n :| 0 <= n <= |buf|;
      }
      WriteSound(c, m, recs, n);
      Writing(c, m, recs, n);
      var f := dir.files[activeSeq];
      assert f.data[..activeSize] == f.data;
      f := f.(data := f.data[..activeSize] + buf[..n]);
      Commit(dir.(files := dir.files[activeSeq := f]), WithWrite(c, m, recs, n));
      if ok {
        activeSize := activeSize + n;
      }
    }

    /** fsync of the active segment. */
    method SyncActive() returns (ok: bool)
      requires Attached()
      modifies `dir, `trail, io
      ensures io.failed >= old(io.failed) + if !ok then 1 else 0
      ensures Attached() && Advanced(old(trail), trail)
      ensures Now() == if ok then WithSync(c, old(Now()), false) else old(Now())
    {
      hide Sound, Grows, Writable, Frames, AllFit, Advanced;
      ghost var m := Now();
      ok := io.Try();
      if ok {
        SyncSound(c, m, false);
        Syncing(c, m, false);
        var f := dir.files[activeSeq];
        Commit(dir.(files := dir.files[activeSeq := f.(durable := |f.data|)]), WithSync(c, m, false));
      } else {
        AdvancedSame(trail);
      }
    }

    /** Cut the old segment to its logical end, fsync it fully, close it. */
    method Seal() returns (ok: bool)
      requires Attached()
      modifies `dir, `trail, `active, io
      ensures io.failed >= old(io.failed) + if !ok then 1 else 0
      ensures Valid() && Advanced(old(trail), trail)
      ensures Now() == if ok then WithSync(c, old(Now()), true) else old(Now())
      ensures ok ==> !active
    {
      hide Sound, Grows, Writable, Frames, AllFit, Advanced;
      ghost var m := Now();
      ok := io.Try();
      if ok {
        SyncSound(c, m, true);
        Syncing(c, m, true);
        var f := dir.files[activeSeq];
        Commit(dir.(files := dir.files[activeSeq := f.(durable := |f.data|, exact := true)]), WithSync(c, m, true));
        active := false;
      } else {
        AdvancedSame(trail);
      }
    }

    /** Create the next segment and fsync the directory before anything depends on it. */
    method OpenNext() returns (ok: bool)
      requires Valid() && !active && activeSeq == Now().top && (forall s :: s in missing ==> s < activeSeq)
      requires activeSeq in dir.files && Sound(c, Now()) && Sealed(c, dir.files[activeSeq], Now().segs[activeSeq])
      modifies `dir, `trail, `active, `activeSeq, `activeSize, io
      ensures Valid() && Advanced(old(trail), trail)
      ensures Now().History() == old(Now().History())
      ensures ok ==> Attached() && Now() == WithName(WithNext(old(Now())))
      ensures io.failed >= old(io.failed) + if !ok then 1 else 0
    {
      hide Sound, Grows, Writable, Frames, AllFit, Advanced, Sealed;
      ghost var m := Now();
      AdvancedSame(trail);
      ok := io.Try();
      if !ok {
        return;
      }
      NextSound(c, m);
      NextGrows(c, m);
      Commit(dir.(files := dir.files[activeSeq + 1 := File([], 0, false, false)]), WithNext(m));
      ok := io.Try();
      if !ok {
        return;
      }
      ghost var t := trail;
      NameSound(c, WithNext(m));
      Commit(dir.(files := dir.files[activeSeq + 1 := File([], 0, false, true)]), WithName(WithNext(m)));
      AdvancedTrans(old(trail), t, trail);
      NothingFramed(c);
      active, activeSeq, activeSize := true, activeSeq + 1, 0;
    }

    /** The newest HardState goes first into the new segment and is synced at once. */
    method CopyHardState() returns (ok: bool)
      requires Attached() && (lastHS.Some? ==> Fits(c, Hs(lastHS.value)))
      modifies `dir, `trail, `activeSize, io
      ensures io.failed >= old(io.failed) + if !ok then 1 else 0
      ensures Valid() && Advanced(old(trail), trail)
      ensures Now().History() == old(Now().History()) || Now().History() == old(Now().History()) + HsRecs(lastHS)
      ensures ok ==> Attached() && Now().dir.files.Keys == old(Now().dir.files.Keys)
      ensures ok ==> Copied(old(Now()), Now(), HsRecs(lastHS), missing)
    {
      hide Sound, Grows, Writable, Frames, AllFit, Advanced, GapFree, Seen, Flat;
      AdvancedSame(trail);
      ghost var m := Now();
      if lastHS == None {
        assert m.segs[m.top] + HsRecs(lastHS) == m.segs[m.top] by { SoundFits(c, m); }
        assert Seen(m, missing) + [] == Seen(m, missing);
        return true;
      }
      SoundFits(c, m);
      FrameAlone(c, Hs(lastHS.value));
      var buf := FrameOf(c, REC_HARD_STATE, Payload(c, Hs(lastHS.value)));
      ok := WriteActive(buf, [Hs(lastHS.value)]);
      if !ok {
        return;
      }
      ghost var t := trail;
      ghost var w := Now();
      ok := SyncActive();
      AdvancedTrans(old(trail), t, trail);
      if ok {
        CopiedBy(c, m, [Hs(lastHS.value)], |buf|, missing);
      } else {
      }
    }

    /** The old segment is sealed before the new one exists. */
    method StartNext() returns (ok: bool)
      requires Attached()
      modifies `dir, `trail, `active, `activeSeq, `activeSize, io
      ensures io.failed >= old(io.failed) + if !ok then 1 else 0
      ensures Valid() && Advanced(old(trail), trail)
      ensures Now().History() == old(Now().History())
      ensures ok ==> Attached() && Now() == WithName(WithNext(WithSync(c, old(Now()), true)))
    {
      hide Sound, Grows, Writable, Frames, AllFit, Advanced, Sealed, Flat, WithSync, WithNext, WithName;
      ghost var m := Now();
      SealedBy(c, m);
      ok := Seal();
      if !ok {
        return;
      }
      ghost var t := trail;
      ok := OpenNext();
      AdvancedTrans(old(trail), t, trail);
    }

    /** Rotation once the active segment is full; the old one may be reclaimed only after everything else is done. */
    method MaybeRotate() returns (ok: bool)
      requires Ready()
      modifies this, io
      ensures io.failed >= old(io.failed) + if !ok then 1 else 0
      ensures Valid() && Advanced(old(trail), trail)
      ensures failed == old(failed) && missing == old(missing)
      ensures lastIndex == old(lastIndex) && lastHS == old(lastHS)
      ensures Now().History() == old(Now().History()) || Now().History() == old(Now().History()) + HsRecs(lastHS)
      ensures old(activeSize) < segMaxBytes ==> ok && Ready() && trail == old(trail) && segMax == old(segMax)
      ensures ok && old(activeSize) >= segMaxBytes ==>
                && Ready()
                && Rotated(old(Now()), Now(), HsRecs(lastHS), missing)
                && segMax == old(segMax)[old(activeSeq) := lastIndex]
      ensures !ok ==> segMax == old(segMax)
      ensures ok && Covers(old(Now()), missing) ==> Covers(Now(), missing)
      ensures ok && (Anchored(old(Now())) || (old(activeSize) >= segMaxBytes && lastHS.Some?)) ==> Anchored(Now())
      ensures ok ==> Kin(old(Now()), Now())
    {
      hide Kin, Anchored;
      hide Sound, Grows, Writable, Frames, AllFit, Advanced, GapFree, Sealed, Flat, Last, LastHs, HasEntry;
      hide Seen, Registers, Copied, WithSync, WithNext, WithName;
      AdvancedSame(trail);
      KinSame(Now());
      if activeSize < segMaxBytes {
        return true;
      }
      ghost var m := Now();
      var oldSeq, oldMaxIndex := activeSeq, lastIndex;
      ok := StartNext();
      if !ok {
        return;
      }
      ghost var t := trail;
      ok := CopyHardState();
      AdvancedTrans(old(trail), t, trail);
      if !ok {
        return;
      }
      NextHasFile(WithSync(c, m, true));
      RotatedBy(c, m, Now(), HsRecs(lastHS), missing);
      HsAdds(Seen(m, missing), lastHS);
      HsHasNoEntry(lastHS);
      RotatedKin(m, Now(), HsRecs(lastHS), missing);
      if Anchored(m) {
        AnchoredSeen(m, missing);
      }
      if lastHS.Some? {
        RotatedAnchors(m, Now(), lastHS, missing);
      }
      segMax := segMax[oldSeq := oldMaxIndex];
      RotatedRegisters(c, m, Now(), missing, old(segMax), segMax, lastIndex);
    }

    /** Write one round and bring the bookkeeping up to what is now in the file. */
    method WriteRound(hs: Option<HardState>, ents: seq<Entry>) returns (ok: bool)
      requires Ready() && AllFit(c, Records(hs, ents))
      modifies `dir, `trail, `activeSize, `lastIndex, `lastHS, io
      ensures io.failed >= old(io.failed) + if !ok then 1 else 0
      ensures Valid() && Advanced(old(trail), trail)
      ensures Now().History() == old(Now().History()) + Records(hs, ents)
      ensures ok ==>
                && Ready()
                && Visible() == old(Visible()) + Records(hs, ents)
                && lastHS == (if hs.Some? then hs else old(lastHS))
                && activeSize == old(activeSize) + |Frames(c, Records(hs, ents))|
                && (Covers(old(Now()), missing) || hs.Some? ==> Covers(Now(), missing))
                && (Anchored(old(Now())) ==> Anchored(Now()))
                && Kin(old(Now()), Now())
    {
      hide Kin, Anchored;
      hide Sound, Grows, Writable, Frames, Advanced, GapFree, Flat, Seen, Registers, Records, Last, LastHs, AllFit;
      hide Covers;
      AdvancedSame(trail);
      ghost var m := Now();
      ghost var recs := Records(hs, ents);
      var buf := Assemble(c, hs, ents);
      RecordsLast(hs, ents, Visible());
      HsFits(c, hs, ents);
      if |buf| > 0 {
        SoundFits(c, m);
        ok := WriteActive(buf, recs);
        if !ok {
          return;
        }
        WriteSeen(c, m, recs, |buf|, missing, segMax);
        WriteCovers(c, m, recs, |buf|, missing);
        RecordsLast(hs, ents, []);
        assert [] + recs == recs;
        WriteKin(c, m, recs, |buf|);
      } else {
        EmptyRound(c, recs);
        NoRecords(hs, ents);
        KinSame(m);
        assert m.History() + recs == m.History() && Visible() + recs == Visible();
        ok := true;
      }
      if hs.Some? {
        lastHS := hs;
      }
      if |ents| > 0 {
        lastIndex := ents[|ents| - 1].index;
      }
    }

    method WriteAndSync(hs: Option<HardState>, ents: seq<Entry>, sync: bool) returns (ok: bool)
      requires Ready() && AllFit(c, Records(hs, ents))
      modifies `dir, `trail, `activeSize, `lastIndex, `lastHS, io
      ensures io.failed >= old(io.failed) + if !ok then 1 else 0
      ensures Valid() && Advanced(old(trail), trail)
      ensures Now().History() == old(Now().History()) + Records(hs, ents)
      ensures ok ==>
                && Ready()
                && Visible() == old(Visible()) + Records(hs, ents)
                && lastHS == (if hs.Some? then hs else old(lastHS))
                && activeSize == old(activeSize) + |Frames(c, Records(hs, ents))|
                && (sync ==> Durable(Now()) == Now().History())
                && (Covers(old(Now()), missing) || hs.Some? ==> Covers(Now(), missing))
                && (Anchored(old(Now())) ==> Anchored(Now()))
                && Kin(old(Now()), Now())
    {
      hide Kin, Covers, Anchored, WithSync, Durable;
      hide Sound, Grows, Writable, Frames, Advanced, GapFree, Flat, Seen, Registers, Records, Last, LastHs, AllFit;
      ok := WriteRound(hs, ents);
      ghost var t, w := trail, Now();
      KinSame(w);
      if ok && sync {
        SyncReady(c, w, missing, segMax);
        SyncKin(c, w);
        ok := SyncActive();
        AdvancedTrans(old(trail), t, trail);
        KinTrans(old(Now()), w, Now());
      }
    }

    method Append(hs: Option<HardState>, ents: seq<Entry>, sync: bool) returns (ok: bool)
      requires Valid() && !failed && (active ==> Ready())
      requires AllFit(c, Records(hs, ents))
      modifies this, io
      ensures io.failed >= old(io.failed) + if !ok && old(active) then 1 else 0
      ensures Valid() && Advanced(old(trail), trail) && missing == old(missing)
      ensures !old(active) ==> !ok && trail == old(trail)
      ensures failed <==> old(active) && !ok
      ensures Now().History()
           <= old(Now().History()) + Records(hs, ents) + HsRecs(if hs.Some? then hs else old(lastHS))
      ensures ok ==>
                var full := old(activeSize) + |Frames(c, Records(hs, ents))| >= segMaxBytes;
                && Ready()
                && Visible() == old(Visible()) + Records(hs, ents) + (if full then HsRecs(lastHS) else [])
                && lastHS == (if hs.Some? then hs else old(lastHS))
                && (full || sync ==> Durable(Now()) == Now().History())
                && segMax == if full then old(segMax)[old(activeSeq) := lastIndex] else old(segMax)
      ensures ok ==> Replayed(Visible()) == ReplayOn(old(Replayed(Visible())), Records(hs, ents))
      ensures ok && (Covers(old(Now()), old(missing)) || hs.Some?) ==> Covers(Now(), missing)
      ensures ok && Anchored(old(Now())) ==> Anchored(Now())
      ensures ok && (Covers(old(Now()), old(missing)) || hs.Some?) && Durable(Now()) == Now().History() ==>
                lastHS.Some? ==> Anchored(Now())
      ensures ok ==> Kin(old(Now()), Now())
      ensures KeepsGapless(old(trail), trail, Records(hs, ents))
    {
      hide Kin, Anchored, KeepsGapless;
      hide Sound, Grows, Writable, Frames, Advanced, GapFree, Flat, Seen, Registers, Records, Last, LastHs, AllFit;
      hide Covers;
      hide WithSync, Durable, Replayed, ReplayOn;
      AdvancedSame(trail);
      if !active {
        AdvancedGapless(trail, trail, Records(hs, ents), None);
        return false;
      }
      ok := WriteAndSync(hs, ents, sync);
      ghost var t, w := trail, Now();
      if !ok {
        AdvancedGapless(old(trail), trail, Records(hs, ents), None);
        failed := true;
        return;
      }
      ok := MaybeRotate();
      AdvancedTrans(old(trail), t, trail);
      AdvancedGapless(old(trail), trail, Records(hs, ents), lastHS);
      failed := !ok;
      if ok {
        KinTrans(old(Now()), w, Now());
        RoundReplayed(old(Visible()), hs, ents);
        SoundFits(c, Now());
        if Covers(Now(), missing) && lastHS.Some? && Durable(Now()) == Now().History() {
          SyncedAnchored(Now(), missing);
        }
      }
    }

    /** The periodic flush. */
    method Sync() returns (ok: bool)
      requires Valid() && !failed && (active ==> Ready())
      modifies `dir, `trail, `failed, io
      ensures io.failed >= old(io.failed) + if !ok && old(active) then 1 else 0
      ensures Valid() && Advanced(old(trail), trail) && Now().History() == old(Now().History())
      ensures !old(active) ==> !ok && trail == old(trail)
      ensures failed <==> old(active) && !ok
      ensures ok ==> Ready() && Visible() == old(Visible()) && Durable(Now()) == Now().History()
      ensures ok && (Anchored(old(Now())) || (Covers(old(Now()), missing) && lastHS.Some?)) ==> Anchored(Now())
      ensures KeepsGapless(old(trail), trail, [])
    {
      hide Anchored, Covers, KeepsGapless;
      hide Sound, Grows, Writable, Frames, Advanced, Flat, Seen, Registers, Last, LastHs, WithSync, Durable;
      AdvancedSame(trail);
      if !active {
        AdvancedGapless(trail, trail, [], None);
        return false;
      }
      SyncReady(c, Now(), missing, segMax);
      ok := SyncActive();
      AdvancedGapless(old(trail), trail, [], None);
      failed := !ok;
      SoundFits(c, Now());
      if ok && Covers(Now(), missing) && lastHS.Some? {
        SyncedAnchored(Now(), missing);
      }
    }

    method Close()
      requires Valid()
      modifies `active
      ensures Valid() && !active
    {
      hide Sound;
      active := false;
    }

    method RemoveSegment(s: nat) returns (ok: bool)
      requires Ready() && s in segMax && segMax[s] <= Now().floor
      modifies `dir, `trail, `segMax, io
      ensures io.failed >= old(io.failed) + if !ok then 1 else 0
      ensures Ready() && Advanced(old(trail), trail) && Visible() == old(Visible())
      ensures s in old(Now()).dir.files
      ensures Now() == if ok then Without(old(Now()), s) else old(Now())
      ensures segMax == if ok then old(segMax) - {s} else old(segMax)
    {
      hide Sound, Grows, Writable, Frames, Advanced, Flat, Seen, Registers, Last, LastHs, GapFree, Trimmed;
      AdvancedSame(trail);
      RegisteredFile(segMax, Now(), s);
      ok := io.Try();
      if ok {
        RemoveReady(c, Now(), s, missing, segMax);
        Commit(Dir(dir.files - {s}, dir.gone[s := dir.files[s].data]), Without(Now(), s));
        segMax := segMax - {s};
      }
    }

    /**
     * Delete closed segments registered at or below `upto`, in any order, stopping at the first error. Exactly when the
     * entries above `upto` on disk stay as they were, and when the HardState does, is what TruncatedWell says.
     */
    method TruncateTo(upto: nat) returns (ok: bool, deleted: set<nat>)
      requires Ready()
      modifies `dir, `trail, `segMax, io
      ensures io.failed >= old(io.failed) + if !ok then 1 else 0
      ensures Valid() && Ready() && Advanced(old(trail), trail)
      ensures Visible() == old(Visible()) && Now().History() == old(Now().History())
      ensures Reclaims(old(segMax), old(dir.files), segMax, dir.files, upto, deleted, ok)
      ensures Trimmed(old(Now()), Now(), upto)
      ensures TruncatedWell(old(Now()), Now(), upto)
      ensures KeepsGapless(old(trail), trail, [])
    {
      hide Sound, Grows, Writable, Frames, Advanced, Flat, Seen, Registers, Last, LastHs, GapFree, Trimmed;
      hide TruncatedWell;
      hide Anchored, KeepsGapless;
      ghost var m := Now();
      FloorReady(c, m, upto, missing, segMax);
      Commit(dir, WithFloor(m, upto));
      deleted := {};
      var todo := segMax.Keys;
      TrimmedNone(m, upto);
      while todo != {}
        invariant todo <= segMax.Keys && io.failed >= old(io.failed)
        invariant Ready() && Advanced(old(trail), trail) && missing == old(missing)
        invariant Visible() == old(Visible()) && Now().History() == old(Now().History())
        invariant deleted <= old(segMax).Keys && segMax == old(segMax) - deleted
        invariant dir.files == old(dir.files) - deleted
        invariant forall s :: s in deleted ==> old(segMax)[s] <= upto
        invariant forall s :: s in segMax && s !in todo ==> segMax[s] > upto
        invariant Now().floor >= upto && Trimmed(m, Now(), upto) && Now().synced == m.synced
      {
        var s :| s in todo;
        todo := todo - {s};
        if segMax[s] <= upto {
          ghost var t, n := trail, Now();
          ok := RemoveSegment(s);
          AdvancedTrans(old(trail), t, trail);
          if !ok {
            TruncatedBy(m, Now(), upto);
            AdvancedGapless(old(trail), trail, [], None);
            return;
          }
          RegisteredFile(old(segMax) - deleted, n, s);
          TrimmedStep(m, n, s, upto);
          deleted := deleted + {s};
        }
      }
      TruncatedBy(m, Now(), upto);
      AdvancedGapless(old(trail), trail, [], None);
      ok := true;
    }

    /**
     * A power loss at moment `at`, during or between calls, that leaves the files `after`, the newest being `t`;
     * `sealed` says that even the newest had been cut to its length and synced before.
     */
    method PowerLoss(ghost at: nat, after: map<nat, Bytes>, t: nat, sealed: bool)
      requires Valid() && at < |trail| && Lost(trail[at].dir, after) && Newest(after.Keys, t)
      requires t in after ==>
                 sealed == (t != trail[at].top || (t in trail[at].dir.files && trail[at].dir.files[t].exact))
      modifies this
      ensures Valid() && !active && !failed
      ensures old(trail[at]).top in old(trail[at]).segs && forall s :: s in after ==> s in old(trail[at]).segs
      ensures trail == [AfterLoss(old(trail[at]), after, t)]
      ensures dir.files.Keys == after.Keys && Openable()
      ensures Anchored(old(trail[at])) ==> Anchored(Now())
      ensures Gapless(old(trail[at])) ==> Gapless(Now())
    {
      hide Sound, Lost, Newest, Anchored, Gapless;
      ghost var m := trail[at];
      LossSound(c, m, after, t);
      if Anchored(m) {
        LossAnchored(c, m, after, t);
      }
      if Gapless(m) {
        LossGapless(c, m, after, t);
      }
      LossDir(c, m, after, t, sealed);
      dir := Dir(map s | s in after :: File(after[s], |after[s]|, s != t || sealed, true), map[]);
      trail := [AfterLoss(m, after, t)];
      active, failed := false, false;
    }

    /** All names are on disk and the newest file, if any, is the one written last. */
    ghost predicate Openable()
      requires 0 < |trail|
      reads this
    {
      && (forall s :: s in dir.files ==> dir.files[s].named)
      && (if dir.files == map[] then Now().top == 1 && Now().segs == map[1 := []] else Now().top in dir.files)
    }

    /** The files as read at Open: one whose length was never fixed may show a zero tail. */
    method ReadFiles() returns (files: map<nat, Bytes>)
      requires Valid() && (forall s :: s in dir.files ==> dir.files[s].named)
      ensures files.Keys == dir.files.Keys && Lost(dir, files)
    {
      hide Sound;
      var z: nat := *;
      files := map s | s in dir.files :: if dir.files[s].exact then dir.files[s].data else dir.files[s].data + Zeros(z);
      forall s | s in files
        ensures Left(dir.files[s], files[s])
      {
        var f := dir.files[s];
        if !f.exact {
          DurableWithin(c, Now(), s);
          assert f.data[..|f.data|] == f.data;
          assert LeftAs(f, files[s], |f.data|, z);
        }
      }
    }

    /** First use of a directory: the file, then its name. */
    method CreateFirst() returns (ok: bool)
      requires Valid() && dir.files == map[] && Now().top == 1 && Now().segs == map[1 := []]
      modifies `dir, `trail, io
      ensures io.failed >= old(io.failed) + if !ok then 1 else 0
      ensures Valid() && Now().History() == [] && Now().top == 1 && Now().segs == map[1 := []]
      ensures Now().floor == old(Now()).floor
      ensures ok ==> Writable(c, Now()) && dir.files == map[1 := File([], 0, false, true)]
    {
      hide Sound, Writable, Grows, Advanced;
      ghost var m := Now();
      FirstSound(c, m);
      ok := io.Try();
      if ok {
        Commit(dir.(files := dir.files[1 := File([], 0, false, false)]), WithTop(m, File([], 0, false, false), [], 0));
        ok := io.Try();
        if ok {
          Commit(dir.(files := dir.files[1 := File([], 0, false, true)]), WithTop(m, File([], 0, false, true), [], 0));
        }
      }
    }

    /** The disk is ready to be written and `sc` describes what is on it. */
    ghost predicate Loaded(sc: DirScan)
      reads this
    {
      && Valid()
      && Writable(c, Now())
      && activeSeq == Now().top
      && activeSize == |Frames(c, Now().segs[activeSeq])|
      && (forall s :: s in missing ==> s < activeSeq)
      && sc.Scanned? && sc.st == Replayed(Visible()) && Registers(sc.segMax, Now())
    }

    method OpenEmpty(sc: DirScan) returns (ok: bool)
      requires Valid() && dir.files == map[] && Now().top == 1 && Now().segs == map[1 := []]
      requires sc.Scanned? && sc.st == Replayed([]) && sc.segMax == map[]
      modifies `dir, `trail, `missing, `activeSeq, `activeSize, io
      ensures io.failed >= old(io.failed) + if !ok then 1 else 0
      ensures Valid() && Now().History() == [] == old(Durable(Now())) && old(Now()).History() == []
      ensures Now().floor == old(Now()).floor
      ensures ok ==> Loaded(sc) && missing == {} && Now().top == 1 && Now().segs == map[1 := []]
      ensures ok ==> FreshLog(Now(), missing, old(Now()).floor)
    {
      hide Sound, Writable, Grows, Advanced, Frames, Replayed, Flat, Registers, Seen, Durable, AllFit;
      SoundFits(c, Now());
      NewHistory(Now());
      ok := CreateFirst();
      if ok {
        missing := {};
        activeSeq, activeSize := 1, 0;
        NewReady(c, Now());
      }
    }

    /** The newest segment: its bad tail is cut off and writing continues after the last good frame. */
    method ReopenLast(files: map<nat, Bytes>, sc: DirScan, last: nat) returns (ok: bool)
      requires Valid() && last == Now().top && Now().top in dir.files && Lost(dir, files)
      requires files.Keys == dir.files.Keys
      requires sc.Scanned? && sc.good == ScanOf(c, files[Now().top]).good
      requires sc.st == Replayed(Flat(Contents(c, files), Now().top + 1))
      requires sc.segMax == map s | s in files && s != Now().top :: Last(ScanOf(c, files[s]).recs)
      modifies `dir, `trail, `missing, `activeSeq, `activeSize, io
      ensures io.failed >= old(io.failed) + if !ok then 1 else 0
      ensures Valid() && (!ok ==> Now() == old(Now())) && Now().floor == old(Now()).floor
      ensures ok ==> Loaded(sc)
      ensures ok ==> Durable(old(Now())) <= Now().History() <= old(Now().History())
      ensures ok ==> missing == Now().segs.Keys - old(dir).files.Keys
      ensures Anchored(old(Now())) ==> Anchored(Now())
    {
      hide Anchored;
      hide Sound, Writable, Grows, Advanced, Frames, ScanOf, Flat, Damaged, Lost, Registers, Seen, Last, Durable;
      hide AllFit, Replayed;
      ghost var m := Now();
      SoundFits(c, m);
      ghost var j := CrashRecovery(c, m, files);
      Reopened(c, m, files, j, sc.good);
      ok := io.Try();
      if !ok {
        return;
      }
      activeSeq := last;
      var d := dir.files[activeSeq].durable;
      var f := File(files[activeSeq][..sc.good], if d < sc.good then d else sc.good, false, true);
      ghost var gone := m.segs.Keys - m.dir.files.Keys;
      ReopenedReady(c, m, files, j, f, gone, sc.segMax);
      Commit(dir.(files := dir.files[activeSeq := f]), WithTop(m, f, m.segs[m.top][..j], m.synced));
      missing := gone;
      activeSize := sc.good;
      if Anchored(m) {
        CutAnchored(m, f, j);
      }
    }

    /** Read and replay everything; a sound directory is never refused. */
    method ScanFiles() returns (files: map<nat, Bytes>, seqs: seq<nat>, sc: DirScan)
      requires Valid() && (forall s :: s in dir.files ==> dir.files[s].named)
      ensures files.Keys == dir.files.Keys && Lost(dir, files) && SortedList(seqs, dir.files.Keys)
      ensures sc.Scanned? && sc.st == Replayed(Flat(Contents(c, files), Below(seqs, |seqs|)))
      ensures seqs == [] ==> sc.segMax == map[]
      ensures seqs != [] ==>
                var t := seqs[|seqs| - 1];
                t in files && sc.good == ScanOf(c, files[t]).good
                && sc.segMax == map s | s in files && s != t :: Last(ScanOf(c, files[s]).recs)
    {
      hide Sound, Frames, ScanOf, Replayed, Flat, Damaged, Lost, Last;
      files := ReadFiles();
      seqs := InOrder(dir.files.Keys);
      sc := ScanDir(c, files, seqs);
      if sc.Refused? {
        ghost var j := CrashRecovery(c, Now(), files);
        assert false;
      }
    }

    /**
     * Open a directory as a restart finds it. It is never refused; the log and HardState returned are the replay of
     * what is on disk, which is everything written up to some point at or after the last sync.
     */
    method Open() returns (r: Option<State>)
      requires Valid() && !active
      requires Openable()
      modifies this, io
      ensures io.failed >= old(io.failed) + if r == None then 1 else 0
      ensures Valid()
      ensures Durable(old(Now())) <= Now().History() <= old(Now().History()) && Now().floor == old(Now()).floor
      ensures Gapless(old(Now())) ==> Gapless(Now())
      ensures 0 < |trail| && (r.Some? ==> !failed)
      ensures r.Some? ==> Ready() && r.value == Replayed(Visible())
      ensures r.Some? ==> missing == Now().segs.Keys - old(dir).files.Keys - {Now().top}
      ensures r.Some? ==> ReadsBack(c, old(Now()), r.value)
      ensures old(dir).files == map[] && r.Some? ==> FreshLog(Now(), missing, old(Now()).floor)
      ensures Anchored(old(Now())) ==> Anchored(Now()) && (r.Some? ==> r.value.hs.Some? && Covers(Now(), missing))
    {
      hide FreshLog, Anchored, Covers;
      hide Sound, Writable, Grows, Advanced, Frames, ScanOf, Replayed, Flat, Damaged, Lost, Registers, Seen, Last;
      hide LastHs;
      hide Durable, AllFit, SortedList, Contents, GapFree;
      failed := false;
      ghost var m := Now();
      SoundFits(c, m);
      DurableBelow(m);
      var files, seqs, sc := ScanFiles();
      var ok := Attach(files, seqs, sc);
      if Gapless(m) {
        MomentGapless(Now(), m.History(), m.floor);
      }
      if !ok {
        return None;
      }
      ok := Start(sc);
      ReadsBackBy(c, m, files, seqs, sc.st);
      return if ok then Some(sc.st) else None;
    }

    /** Position on the newest segment, creating the first one in an empty directory. */
    method Attach(files: map<nat, Bytes>, seqs: seq<nat>, sc: DirScan) returns (ok: bool)
      requires Valid() && Openable()
      requires files.Keys == dir.files.Keys && Lost(dir, files) && SortedList(seqs, dir.files.Keys)
      requires sc.Scanned? && sc.st == Replayed(Flat(Contents(c, files), Below(seqs, |seqs|)))
      requires seqs == [] ==> sc.segMax == map[]
      requires seqs != [] ==>
                 var t := seqs[|seqs| - 1];
                 t in files && sc.good == ScanOf(c, files[t]).good
                 && sc.segMax == map s | s in files && s != t :: Last(ScanOf(c, files[s]).recs)
      modifies `dir, `trail, `missing, `activeSeq, `activeSize, io
      ensures io.failed >= old(io.failed) + if !ok then 1 else 0
      ensures Valid() && Now().floor == old(Now()).floor
      ensures Durable(old(Now())) <= Now().History() <= old(Now().History())
      ensures seqs != [] ==> seqs[|seqs| - 1] == old(Now()).top
      ensures ok ==> Loaded(sc) && missing == Now().segs.Keys - old(dir).files.Keys - {Now().top}
      ensures old(dir).files == map[] && ok ==> FreshLog(Now(), missing, old(Now()).floor)
      ensures Anchored(old(Now())) ==> Anchored(Now())
    {
      hide Anchored;
      hide Sound, Writable, Grows, Advanced, Frames, ScanOf, Replayed, Flat, Damaged, Lost, Registers, Seen, Last;
      hide LastHs;
      hide Durable, AllFit, SortedList, FreshLog;
      SoundFits(c, Now());
      DurableBelow(Now());
      if |seqs| == 0 {
        NoFiles(dir.files, seqs);
        NothingBelow(c, files);
        NotAnchored(Now());
        ok := OpenEmpty(sc);
      } else {
        LastIsTop(c, Now(), seqs);
        SomeFile(dir.files, seqs);
        ok := ReopenLast(files, sc, seqs[|seqs| - 1]);
      }
    }

    /** The last steps of Open: the bookkeeping, then preallocation, which may fail. */
    method Start(sc: DirScan) returns (ok: bool)
      requires Loaded(sc) && !active && !failed
      modifies `segMax, `lastIndex, `lastHS, `active, io
      ensures io.failed >= old(io.failed) + if !ok then 1 else 0
      ensures Valid() && (ok ==> Ready())
      ensures Anchored(Now()) ==> sc.st.hs.Some? && Covers(Now(), missing)
    {
      hide Anchored, Covers;
      hide Sound, Writable, Grows, Frames, Replayed, Flat, Registers, Seen, Last, LastHs, AllFit;
      segMax := sc.segMax;
      lastIndex, lastHS := sc.st.last, sc.st.hs;
      ReplayedLast(Visible());
      VisibleFits(c, Now(), missing);
      if Anchored(Now()) {
        AnchoredSeen(Now(), missing);
      }
      ok := io.Try();
      active := ok;
    }
  }

  /** `st` is the replay of a directory that a crash at `m` can leave. */
  ghost predicate ReadsBack(c: Codec, m: Moment, st: State) {
    exists files: map<nat, Bytes> ::
      Lost(m.dir, files) && files.Keys == m.dir.files.Keys && st == Replayed(Flat(Contents(c, files), m.top + 1))
  }

  lemma ReadsBackBy(c: Codec, m: Moment, files: map<nat, Bytes>, seqs: seq<nat>, st: State)
    requires Lost(m.dir, files) && files.Keys == m.dir.files.Keys && SortedList(seqs, files.Keys)
    requires seqs != [] ==> seqs[|seqs| - 1] == m.top
    requires st == Replayed(Flat(Contents(c, files), Below(seqs, |seqs|)))
    ensures ReadsBack(c, m, st)
  {
    hide ScanOf, Lost, Replayed;
    if seqs == [] {
      assert files.Keys == {};
      ContentsKeys(c, files);
      FlatSkip(Contents(c, files), 0, m.top + 1);
    }
    assert st == Replayed(Flat(Contents(c, files), m.top + 1));
  }

  lemma LossDir(c: Codec, m: Moment, after: map<nat, Bytes>, t: nat, sealed: bool)
    requires Sound(c, m) && Lost(m.dir, after) && Newest(after.Keys, t)
    requires t in after ==> sealed == (t != m.top || (t in m.dir.files && m.dir.files[t].exact))
    requires forall s :: s in after ==> s in m.segs && s <= m.top
    ensures AfterLoss(m, after, t).dir
         == Dir(map s | s in after :: File(after[s], |after[s]|, s != t || sealed, true), map[])
    ensures var n := AfterLoss(m, after, t);
            if after == map[] then n.top == 1 && n.segs == map[1 := []] else n.top in after
  {
    hide Frames, Flat, GapFree, Last, Shape;
    forall s | s in after
      ensures s <= t
    {
      assert s in after.Keys;
    }
    if after == map[] {
      assert after.Keys == {};
    } else {
      var s :| s in after;
      assert s in after.Keys;
    }
  }

  /** Reading the files of a disk a power loss left is again something that power loss could have left. */
  lemma LostTwice(c: Codec, m: Moment, after: map<nat, Bytes>, t: nat, files: map<nat, Bytes>)
    requires Sound(c, m) && Lost(m.dir, after) && (forall s :: s in after ==> s in m.segs)
    requires Lost(AfterLoss(m, after, t).dir, files) && files.Keys == AfterLoss(m, after, t).dir.files.Keys
    ensures Lost(m.dir, files) && files.Keys == after.Keys
  {
    hide Frames, Flat, GapFree, Last, Shape, AllSegsFit;
    var n := AfterLoss(m, after, t);
    assert n.dir.files.Keys == after.Keys;
    forall s | s in files
      ensures s in after && (s in m.dir.files ==> Left(m.dir.files[s], files[s]))
      ensures s !in m.dir.files ==> files[s] == after[s]
    {
      assert s in files.Keys;
      assert Left(n.dir.files[s], files[s]);
      if s in m.dir.files && !n.dir.files[s].exact {
        LeftTwice(m.dir.files[s], after[s], files[s]);
      }
    }
    forall s | s in after
      ensures s in files
    {
      assert s in after.Keys;
    }
  }

  lemma LeftTwice(f: File, b: Bytes, d: Bytes)
    requires !f.exact && Left(f, b) && Left(File(b, |b|, false, true), d)
    ensures Left(f, d)
  {
    var k: nat, z: nat :| LeftAs(f, b, k, z);
    var k2: nat, z2: nat :| LeftAs(File(b, |b|, false, true), d, k2, z2);
    assert b[..k2] == b && Zeros(z) + Zeros(z2) == Zeros(z + z2);
    assert LeftAs(f, d, k, z + z2);
  }

  /**
   * The whole story: take a power loss at any moment of any run and reopen. The log returned is the replay of a prefix
   * of everything written that holds everything synced, as far as reclaimed segments allow (RecoversTo says how far);
   * and if the newest segment held a synced HardState, it still does, and it is the HardState of that prefix.
   */
  method Restart(l: Log, ghost at: nat, after: map<nat, Bytes>, t: nat, sealed: bool)
    returns (r: Option<State>, ghost j: nat)
    requires l.Valid() && at < |l.trail| && Lost(l.trail[at].dir, after) && Newest(after.Keys, t)
    requires t in after ==>
               sealed == (t != l.trail[at].top || (t in l.trail[at].dir.files && l.trail[at].dir.files[t].exact))
    modifies l, l.io
    ensures l.io.failed >= old(l.io.failed) + if r == None then 1 else 0
    ensures l.Valid() && (r.Some? ==> l.Ready())
    ensures r.Some? ==> RecoversTo(old(l.trail[at]), r.value, j, after.Keys)
    ensures Anchored(old(l.trail[at])) ==> Anchored(l.Now()) && (r.Some? ==> Covers(l.Now(), l.missing))
    ensures Gapless(old(l.trail[at])) ==> Gapless(l.Now())
  {
    hide Anchored, Covers, Gapless;
    hide Sound, Lost, Newest, Flat, Replayed, Above, Last, Contents, Durable, RecoversTo, ReadsBack;
    ghost var m := l.trail[at];
    l.PowerLoss(at, after, t, sealed);
    r := l.Open();
    j := 0;
    if r.Some? {
      j := ReadAfterLoss(l.c, m, after, t, r.value);
    }
  }

  lemma ReadAfterLoss(c: Codec, m: Moment, after: map<nat, Bytes>, t: nat, st: State) returns (j: nat)
    requires Codes(c) && Sound(c, m) && Lost(m.dir, after) && Newest(after.Keys, t)
    requires m.top in m.segs && forall s :: s in after ==> s in m.segs
    requires ReadsBack(c, AfterLoss(m, after, t), st)
    ensures RecoversTo(m, st, j, after.Keys)
  {
    hide Sound, Lost, Newest, Flat, Replayed, Contents, Durable, RecoversTo;
    var n := AfterLoss(m, after, t);
    var files: map<nat, Bytes> :|
      Lost(n.dir, files) && files.Keys == n.dir.files.Keys && st == Replayed(Flat(Contents(c, files), n.top + 1));
    LostTwice(c, m, after, t, files);
    LossFiles(c, m, after);
    ContentsKeys(c, files);
    SameHeight(Contents(c, files), t, m.top);
    j := RecoveredLog(c, m, files);
  }

  lemma ContentsKeys(c: Codec, files: map<nat, Bytes>)
    ensures Contents(c, files).Keys == files.Keys
  {
  }

  /** Counting up to the newest segment is the same as counting up to any number above it. */
  lemma SameHeight(segs: Segs, t: nat, top: nat)
    requires Newest(segs.Keys, t) && forall s :: s in segs ==> s <= top
    ensures Flat(segs, t + 1) == Flat(segs, top + 1)
  {
    hide Flat;
    if segs.Keys == {} {
      assert forall x :: x in segs ==> x in segs.Keys;
      FlatSkip(segs, 0, t + 1);
      FlatSkip(segs, 0, top + 1);
    } else {
      assert t in segs.Keys;
      assert forall x :: x in segs ==> x in segs.Keys && x <= t;
      FlatSkip(segs, t + 1, top + 1);
    }
  }

  lemma NotAnchored(m: Moment)
    requires m.segs == map[1 := []]
    ensures !Anchored(m)
  {
  }

  /** Cutting a bad tail off the newest segment leaves what was synced. */
  lemma CutAnchored(m: Moment, f: File, j: nat)
    requires Anchored(m) && m.synced <= j <= |m.segs[m.top]|
    ensures Anchored(WithTop(m, f, m.segs[m.top][..j], m.synced))
  {
    assert m.segs[m.top][..j][..m.synced] == m.segs[m.top][..m.synced];
  }

  /** A power loss leaves the newest segment, if it holds a synced HardState, and that HardState in it. */
  lemma LossAnchored(c: Codec, m: Moment, after: map<nat, Bytes>, t: nat)
    requires Sound(c, m) && Lost(m.dir, after) && Newest(after.Keys, t) && Anchored(m)
    requires forall s :: s in after ==> s in m.segs && s <= m.top
    ensures t == m.top && Anchored(AfterLoss(m, after, t))
  {
    hide Flat, Frames, GapFree, Open, SoundOld, Left;
    TopMayBeGone(c, m, after);
    EmptyHasNoHs();
    var r := m.segs[m.top][..m.synced];
    assert |m.segs[m.top]| >= |r| > 0;
    assert m.top in after.Keys && t in after;
  }

  lemma NewHistory(m: Moment)
    requires m.top == 1 && m.segs == map[1 := []] && m.synced == 0
    ensures m.History() == [] && Durable(m) == []
  {
    FlatSkip(m.segs, 0, 2);
    FlatSkip(m.segs, 0, 1);
  }

  // ----- opening -----

  lemma DurableWithin(c: Codec, m: Moment, s: nat)
    requires Sound(c, m) && s in m.dir.files
    ensures m.dir.files[s].durable <= |m.dir.files[s].data|
  {
    hide Frames, Flat, GapFree, Shape, Last;
  }

  lemma FirstSound(c: Codec, m: Moment)
    requires Sound(c, m) && m.dir.files == map[] && m.top == 1 && m.segs == map[1 := []]
    ensures var a, b := WithTop(m, File([], 0, false, false), [], 0), WithTop(m, File([], 0, false, true), [], 0);
            && Sound(c, a) && Sound(c, b) && Writable(c, b)
            && a.History() == [] && b.History() == [] && m.History() == []
            && a.segs == m.segs && b.segs == m.segs
  {
    EmptyOpen(c);
    FlatSkip(m.segs, 0, 1);
    assert Flat(m.segs, 1) + [] == [];
    EmptyGapFree(m.floor);
    TopSound(c, m, File([], 0, false, false), [], 0);
    TopSound(c, m, File([], 0, false, true), [], 0);
  }

  lemma SomeFile(files: map<nat, File>, seqs: seq<nat>)
    requires SortedList(seqs, files.Keys) && seqs != []
    ensures files != map[]
  {
    assert seqs[0] in files.Keys;
  }

  lemma NoFiles(files: map<nat, File>, seqs: seq<nat>)
    requires SortedList(seqs, files.Keys) && seqs == []
    ensures files == map[]
  {
    if s :| s in files {
      assert s in files.Keys;
    }
  }

  lemma NewReady(c: Codec, m: Moment)
    requires m.segs == map[1 := []] && m.top == 1 && m.dir.files.Keys == {1}
    ensures Seen(m, {}) == [] && Registers(map[], m) && AllFit(c, m.segs[1]) && Frames(c, m.segs[1]) == []
  {
    FlatSkip(m.segs - {}, 0, 2);
  }

  lemma LastIsTop(c: Codec, m: Moment, seqs: seq<nat>)
    requires Sound(c, m) && (m.dir.files != map[] ==> m.top in m.dir.files)
    requires SortedList(seqs, m.dir.files.Keys) && seqs != []
    ensures seqs[|seqs| - 1] == m.top && m.top in m.dir.files
  {
    hide Frames, Flat, GapFree, Shape, Last, Open;
    SomeFile(m.dir.files, seqs);
    assert m.top in m.dir.files.Keys;
    var k :| 0 <= k < |seqs| && seqs[k] == m.top;
    var t := seqs[|seqs| - 1];
    assert t in m.dir.files.Keys;
    assert t in m.dir.files;
  }

  /** The newest segment after the bad tail has been cut off. */
  lemma Reopened(c: Codec, m: Moment, files: map<nat, Bytes>, j: nat, good: nat)
    requires Sound(c, m) && m.top in m.dir.files && m.top in files && m.synced <= j <= |m.segs[m.top]|
    requires good == |Frames(c, m.segs[m.top][..j])| && Frames(c, m.segs[m.top][..j]) <= files[m.top]
    ensures var d := m.dir.files[m.top].durable;
            var f := File(files[m.top][..good], if d < good then d else good, false, true);
            var n := WithTop(m, f, m.segs[m.top][..j], m.synced);
            && Sound(c, n) && Writable(c, n) && n.segs == CutAt(m, j)
            && Durable(m) <= n.History() <= m.History()
            && AllFit(c, n.segs[n.top]) && good == |Frames(c, n.segs[n.top])|
  {
    var recs := m.segs[m.top];
    var d := m.dir.files[m.top].durable;
    var durable := if d < good then d else good;
    var cut := recs[..j];
    hide SoundOld, Shape, Flat, GapFree, FrameOf, Fits;
    assert cut[..m.synced] == recs[..m.synced];
    assert files[m.top][..good] == Frames(c, cut);
    FramesPrefix(c, cut, m.synced);
    hide Frames;
    WholeOpen(c, cut, m.synced, durable, false);
    TopSound(c, m, File(Frames(c, cut), durable, false, true), cut, m.synced);
    CutHistory(m, j);
  }

  lemma FlatTop(segs: Segs, t: nat)
    requires t in segs
    ensures Flat(segs, t + 1) == Flat(segs, t) + segs[t]
  {
  }

  /** What Open hands back and registers is what the reopened disk holds. */
  lemma ReopenedReady(c: Codec, m: Moment, files: map<nat, Bytes>, j: nat, f: File, missing: set<nat>,
                      segMax: map<nat, nat>)
    requires Sound(c, m) && m.top in m.dir.files && files.Keys == m.dir.files.Keys && m.synced <= j <= |m.segs[m.top]|
    requires forall s :: s in files ==> s in CutAt(m, j) && ScanOf(c, files[s]).recs == CutAt(m, j)[s]
    requires missing == m.segs.Keys - m.dir.files.Keys
    requires segMax == map s | s in files && s != m.top :: Last(ScanOf(c, files[s]).recs)
    ensures var n := WithTop(m, f, m.segs[m.top][..j], m.synced);
            && Seen(n, missing) == Flat(Contents(c, files), m.top + 1)
            && Registers(segMax, n)
            && (forall s :: s in missing ==> s < m.top)
  {
    hide Frames, Flat, GapFree, Shape, Last, ScanOf, Fits;
    var n := WithTop(m, f, m.segs[m.top][..j], m.synced);
    forall s | 0 <= s < m.top + 1
      ensures s in n.segs - missing <==> s in Contents(c, files)
      ensures s in Contents(c, files) ==> (n.segs - missing)[s] == Contents(c, files)[s]
    {
      if s in files {
        assert s in files.Keys;
      }
    }
    FlatSame(n.segs - missing, Contents(c, files), m.top + 1);
    forall s | s in files
      ensures s in m.dir.files
    {
      assert s in files.Keys;
    }
    forall s | s in m.dir.files
      ensures s in files
    {
      assert s in files.Keys;
    }
  }

  lemma VisibleFits(c: Codec, m: Moment, missing: set<nat>)
    requires Sound(c, m)
    ensures LastHs(Seen(m, missing)).Some? ==> Fits(c, Hs(LastHs(Seen(m, missing)).value))
  {
    hide SoundOld, Frames, GapFree, Shape, Fits;
    FlatLastHs(m.segs - missing, m.top + 1);
    var r := HsSeg(m.segs - missing, m.top + 1);
    if r.Some? {
      LastHsFits(c, m.segs[r.value]);
    }
  }

  lemma {:induction false} LastHsFits(c: Codec, h: seq<Rec>)
    requires AllFit(c, h)
    ensures LastHs(h).Some? ==> Fits(c, Hs(LastHs(h).value))
  {
    hide Fits;
    if h != [] {
      LastHsFits(c, h[..|h| - 1]);
    }
  }


  // ----- reclaim -----

  /**
   * What TruncateTo promises of the disk: entries above `upto` unchanged as long as the tail lies above it, and the
   * HardState unchanged as long as the active segment holds one.
   */
  ghost predicate Trimmed(a: Moment, b: Moment, upto: nat) {
    && b.segs == a.segs && b.top == a.top
    && (forall s :: s in b.dir.files ==> s in a.dir.files)
    && (forall s :: s in a.dir.files && s !in b.dir.files ==> s != a.top && s in a.segs && Last(a.segs[s]) <= upto)
  }

  /** Only closed segments registered at or below `upto` are deleted, all of them when nothing failed. */
  ghost predicate Reclaims(segMax: map<nat, nat>, files: map<nat, File>, newMax: map<nat, nat>, newFiles: map<nat,
                           File>,
                           upto: nat, deleted: set<nat>, all: bool)
  {
    && (forall s :: s in deleted ==> s in segMax && segMax[s] <= upto)
    && (all ==> forall s :: s in segMax && segMax[s] <= upto ==> s in deleted)
    && newMax == segMax - deleted && newFiles == files - deleted
  }

  lemma TrimmedNone(m: Moment, upto: nat)
    ensures Trimmed(m, WithFloor(m, upto), upto)
  {
  }

  lemma TrimmedStep(a: Moment, b: Moment, s: nat, upto: nat)
    requires Trimmed(a, b, upto) && s in b.dir.files && s != b.top && s in b.segs && Last(b.segs[s]) <= upto
    ensures Trimmed(a, Without(b, s), upto)
  {
    hide Last;
  }

  ghost function OnDiskState(m: Moment): State {
    Replayed(Flat(OnDisk(m), m.top + 1))
  }

  function Higher(a: nat, b: nat): nat {
    if a < b then b else a
  }

  /**
   * What a reclaim up to `upto` did to what is on disk, whichever of its segments it has deleted so far. With no index
   * gap the entries above it (and above what earlier reclaims were allowed to take) are unchanged exactly if the tail
   * was above it or is not now; the HardState is unchanged if the segment that holds it is still there, as the newest
   * always is.
   */
  ghost predicate TruncatedWell(a: Moment, b: Moment, upto: nat) {
    var u := Higher(upto, a.floor);
    && (GapFree(Flat(OnDisk(a), a.top + 1), u) ==>
          var kept := Above(OnDiskState(b).ents, u) == Above(OnDiskState(a).ents, u);
          kept <==> OnDiskState(a).last > u || OnDiskState(b).last <= u)
    && (HsPresent(OnDisk(a), a.top + 1, OnDisk(b).Keys) ==> OnDiskState(b).hs == OnDiskState(a).hs)
    && (a.top in a.dir.files && a.top in a.segs && LastHs(a.segs[a.top]).Some? ==>
          OnDiskState(b).hs == OnDiskState(a).hs == LastHs(a.segs[a.top]))
    && (Anchored(a) ==> Anchored(b))
  }

  lemma TruncatedBy(a: Moment, b: Moment, upto: nat)
    requires Trimmed(a, b, upto) && b.synced == a.synced
    ensures TruncatedWell(a, b, upto)
  {
    hide Frames, Last, Flat, GapFree, Above, Replayed, LastHs, HsPresent, OnDisk;
    if GapFree(Flat(OnDisk(a), a.top + 1), Higher(upto, a.floor)) {
      TruncateKeepsEntries(a, b, upto);
    }
    TruncateKeepsHardState(a, b, upto);
    ReplayedLast(Flat(OnDisk(a), a.top + 1));
    ReplayedLast(Flat(OnDisk(b), b.top + 1));
  }

  /** Exactly when a reclaim keeps the entries above `upto` that are on disk. */
  lemma TruncateKeepsEntries(a: Moment, b: Moment, upto: nat)
    requires Trimmed(a, b, upto) && GapFree(Flat(OnDisk(a), a.top + 1), Higher(upto, a.floor))
    ensures var u := Higher(upto, a.floor);
            var kept := Above(OnDiskState(b).ents, u) == Above(OnDiskState(a).ents, u);
            kept <==> Last(Flat(OnDisk(a), a.top + 1)) > u || Last(Flat(OnDisk(b), b.top + 1)) <= u
  {
    hide Last, Flat, GapFree, Above, Replayed, OnDisk, Trimmed, Reclaimed;
    var u := Higher(upto, a.floor);
    TrimmedReclaimed(a, b, upto, u);
    ReclaimExact(OnDisk(a), OnDisk(b), a.top + 1, u, u);
  }

  lemma TrimmedReclaimed(a: Moment, b: Moment, upto: nat, u: nat)
    requires Trimmed(a, b, upto) && upto <= u
    ensures Reclaimed(OnDisk(a), OnDisk(b), u) && a.top == b.top
  {
    hide Last;
  }

  /**
   * Seen from before the call: whatever a reclaim up to `upto` goes on to delete, the entries above it are kept if and
   * only if the tail is above it, or the active segment holds an entry, or no segment on disk ends above it.
   */
  lemma TruncateSafeExactly(c: Codec, a: Moment, upto: nat)
    requires Sound(c, a) && a.top in a.dir.files
    requires GapFree(Flat(OnDisk(a), a.top + 1), Higher(upto, a.floor))
    ensures var u := Higher(upto, a.floor);
            && a.top in OnDisk(a)
            && (Harmless(OnDisk(a), a.top, u) <==>
                 forall kept: Segs :: Reclaimed(OnDisk(a), kept, u) && a.top in kept ==>
                   Above(Replayed(Flat(kept, a.top + 1)).ents, u) == Above(OnDiskState(a).ents, u))
  {
    hide Frames, Open, Sealed, Last, Flat, GapFree, Above, Replayed, Harmless;
    var u := Higher(upto, a.floor);
    ReclaimSafeExactly(OnDisk(a), a.top, u, u);
  }

  /** If no append skipped an index, what is on disk has no gap either, above any point a reclaim may be asked for. */
  lemma OnDiskGapFree(c: Codec, a: Moment, upto: nat)
    requires Sound(c, a) && Gapless(a)
    ensures GapFree(Flat(OnDisk(a), a.top + 1), Higher(upto, a.floor))
  {
    hide Frames, Last, Flat, GapFree, Open, Sealed;
    EmptyLast();
    GapFreeReclaimed(a.segs, OnDisk(a), a.top + 1, a.floor);
    GapFreeRaise(Flat(OnDisk(a), a.top + 1), a.floor, Higher(upto, a.floor));
  }

  /** A reclaim keeps the HardState on disk if the segment that holds it stays, and the active one always does. */
  lemma TruncateKeepsHardState(a: Moment, b: Moment, upto: nat)
    requires Trimmed(a, b, upto)
    ensures HsPresent(OnDisk(a), a.top + 1, OnDisk(b).Keys) ==> OnDiskState(b).hs == OnDiskState(a).hs
    ensures a.top in a.dir.files && a.top in a.segs && LastHs(a.segs[a.top]).Some? ==>
              OnDiskState(b).hs == OnDiskState(a).hs == LastHs(a.segs[a.top])
  {
    hide Last, Flat, LastHs, Replayed;
    ReclaimHardState(OnDisk(a), OnDisk(b), a.top + 1);
    if a.top in a.dir.files && a.top in a.segs && LastHs(a.segs[a.top]).Some? {
      TopHoldsHs(OnDisk(a), a.top);
      ReplayedLast(Flat(OnDisk(a), a.top + 1));
      FlatLastHs(OnDisk(a), a.top + 1);
    }
  }

  lemma TopHoldsHs(segs: Segs, t: nat)
    requires t in segs && LastHs(segs[t]).Some?
    ensures HsSeg(segs, t + 1) == Some(t)
  {
  }

  lemma FloorReady(c: Codec, m: Moment, upto: nat, missing: set<nat>, segMax: map<nat, nat>)
    requires Writable(c, m) && Registers(segMax, m)
    ensures var n := WithFloor(m, upto);
            && Sound(c, n) && Writable(c, n) && Registers(segMax, n) && Grows(m, n) && n.dir == m.dir
            && Seen(n, missing) == Seen(m, missing) && n.History() == m.History()
  {
    FloorSound(c, m, upto);
    SoundFits(c, m);
    hide Frames, Sound, Flat;
  }

  lemma RegisteredFile(segMax: map<nat, nat>, m: Moment, s: nat)
    requires Registers(segMax, m) && s in segMax
    ensures s in m.dir.files && s != m.top && s in m.segs && Last(m.segs[s]) <= segMax[s]
  {
    hide Last;
  }

  lemma RemoveReady(c: Codec, m: Moment, s: nat, missing: set<nat>, segMax: map<nat, nat>)
    requires Writable(c, m) && Registers(segMax, m) && s in segMax && s in m.dir.files && segMax[s] <= m.floor
    ensures var n := Without(m, s);
            && Sound(c, n) && Writable(c, n) && Registers(segMax - {s}, n) && Grows(m, n)
            && Seen(n, missing) == Seen(m, missing) && n.History() == m.History() && n.top == m.top && n.segs == m.segs
  {
    hide Frames, Sound, Flat, Last;
    RemoveSound(c, m, s);
    SoundFits(c, m);
  }


  lemma HsFits(c: Codec, hs: Option<HardState>, ents: seq<Entry>)
    requires AllFit(c, Records(hs, ents))
    ensures hs.Some? ==> Fits(c, Hs(hs.value))
  {
    if hs.Some? {
      assert Records(hs, ents)[0] == Hs(hs.value);
    }
  }

  /** A HardState repeated at rotation changes nothing, so a round adds exactly its own records. */
  lemma RoundReplayed(h: seq<Rec>, hs: Option<HardState>, ents: seq<Entry>)
    ensures var g := h + Records(hs, ents);
            && Replayed(g) == ReplayOn(Replayed(h), Records(hs, ents))
            && Replayed(g + HsRecs(LastHs(g))) == Replayed(g)
            && g + [] == g
  {
    var g := h + Records(hs, ents);
    ReplayOnConcat(h, Records(hs, ents));
    ReplayedLast(g);
    if LastHs(g).Some? {
      assert (g + HsRecs(LastHs(g)))[..|g|] == g;
    } else {
      assert g + HsRecs(LastHs(g)) == g;
    }
  }

  lemma NoRecords(hs: Option<HardState>, ents: seq<Entry>)
    ensures Records(hs, ents) == [] ==> hs == None
  {
  }

  lemma EmptyRound(c: Codec, recs: seq<Rec>)
    requires AllFit(c, recs) && Frames(c, recs) == []
    ensures recs == []
  {
  }

  /** A complete write keeps the registered segments and extends what is seen. */
  lemma WriteSeen(c: Codec, m: Moment, recs: seq<Rec>, n: nat, missing: set<nat>, segMax: map<nat, nat>)
    requires Writable(c, m) && AllFit(c, recs) && n <= |Frames(c, recs)|
    requires m.top !in missing && Registers(segMax, m)
    ensures Seen(WithWrite(c, m, recs, n), missing) == Seen(m, missing) + recs
    ensures Registers(segMax, WithWrite(c, m, recs, n))
  {
    hide Frames, FrameOf, Sound, Flat, Fits, Last;
    SoundFits(c, m);
    var f := m.dir.files[m.top];
    SeenTop(m, missing, f.(data := f.data + Frames(c, recs)[..n]), m.segs[m.top] + recs, m.synced);
    var below := Flat(m.segs - missing, m.top);
    assert below + (m.segs[m.top] + recs) == below + m.segs[m.top] + recs;
  }

  lemma WriteCovers(c: Codec, m: Moment, recs: seq<Rec>, n: nat, missing: set<nat>)
    requires Writable(c, m) && AllFit(c, recs) && n <= |Frames(c, recs)| && m.top !in missing
    ensures Covers(m, missing) || LastHs(recs).Some? ==> Covers(WithWrite(c, m, recs, n), missing)
    ensures Anchored(m) ==> Anchored(WithWrite(c, m, recs, n))
  {
    hide Frames, FrameOf, Sound, Flat, Fits;
    SoundFits(c, m);
    var f, seg, before := m.dir.files[m.top], m.segs[m.top], Flat(m.segs - missing, m.top);
    SeenTop(m, missing, f.(data := f.data + Frames(c, recs)[..n]), seg + recs, m.synced);
    LastConcat(before, seg);
    LastConcat(seg, recs);
    LastConcat(before, seg + recs);
    if Anchored(m) {
      WriteAnchored(m, f.(data := f.data + Frames(c, recs)[..n]), recs);
    }
  }

  lemma SyncReady(c: Codec, m: Moment, missing: set<nat>, segMax: map<nat, nat>)
    requires Writable(c, m) && Registers(segMax, m)
    ensures var s := WithSync(c, m, false);
            Seen(s, missing) == Seen(m, missing) && Registers(segMax, s) && s.History() == m.History()
            && s.top == m.top && Durable(s) == s.History() && (Covers(m, missing) ==> Covers(s, missing))
            && (Anchored(m) ==> Anchored(s))
  {
    hide Frames, FrameOf, Sound, Flat, Fits, Last;
    Syncing(c, m, false);
    SyncSound(c, m, false);
  }


  // ----- rotation -----

  lemma NothingFramed(c: Codec)
    ensures Frames(c, []) == []
  {
  }

  /** `b` is `a` with `recs` appended to its newest segment, everything synced. */
  ghost predicate Copied(a: Moment, b: Moment, recs: seq<Rec>, missing: set<nat>) {
    && a.top in a.segs
    && b.top == a.top && b.floor == a.floor && b.segs == a.segs[a.top := a.segs[a.top] + recs]
    && (recs != [] ==> b.synced == |b.segs[b.top]|)
    && (recs == [] ==> b.synced == a.synced)
    && b.History() == a.History() + recs
    && Seen(b, missing) == Seen(a, missing) + recs
  }

  lemma CopiedBy(c: Codec, m: Moment, recs: seq<Rec>, n: nat, missing: set<nat>)
    requires Writable(c, m) && AllFit(c, recs) && n == |Frames(c, recs)| && recs != [] && m.top !in missing
    requires Writable(c, WithWrite(c, m, recs, n)) && WithWrite(c, m, recs, n).History() == m.History() + recs
    ensures Copied(m, WithSync(c, WithWrite(c, m, recs, n), false), recs, missing)
    ensures WithSync(c, WithWrite(c, m, recs, n), false).dir.files.Keys == m.dir.files.Keys
  {
    hide Frames, FrameOf, Sound, Flat, Fits;
    SoundFits(c, m);
    var w := WithWrite(c, m, recs, n);
    var f := m.dir.files[m.top];
    SeenTop(m, missing, f.(data := f.data + Frames(c, recs)[..n]), m.segs[m.top] + recs, m.synced);
    Syncing(c, w, false);
    var below := Flat(m.segs - missing, m.top);
    assert below + (m.segs[m.top] + recs) == below + m.segs[m.top] + recs;
  }

  /** `b` is `a` followed by a fresh segment that holds `recs`, all synced. */
  ghost predicate Rotated(a: Moment, b: Moment, recs: seq<Rec>, missing: set<nat>) {
    && b.top == a.top + 1 && b.floor == a.floor && b.segs == a.segs[b.top := recs] && b.synced == |recs|
    && b.dir.files.Keys == a.dir.files.Keys + {b.top}
    && b.History() == a.History() + recs
    && Seen(b, missing) == Seen(a, missing) + recs
    && Durable(b) == b.History()
  }

  /** The newest HardState, copied first into the new segment and synced, is there to stay. */
  lemma RotatedAnchors(a: Moment, b: Moment, hs: Option<HardState>, missing: set<nat>)
    requires Rotated(a, b, HsRecs(hs), missing) && hs.Some?
    ensures Anchored(b)
  {
    hide Flat, Durable, Seen;
    assert HsRecs(hs)[..1] == HsRecs(hs);
  }

  lemma AnchoredSeen(m: Moment, missing: set<nat>)
    requires Anchored(m) && m.top !in missing
    ensures LastHs(m.segs[m.top]).Some? && LastHs(Seen(m, missing)).Some? && Covers(m, missing)
  {
    var r := m.segs[m.top];
    assert r[..|r|] == r;
    PrefixHs(r, m.synced, |r|);
    SeenTop(m, missing, File([], 0, false, false), r, m.synced);
    LastConcat(Flat(m.segs - missing, m.top), r);
  }

  lemma SyncedAnchored(m: Moment, missing: set<nat>)
    requires m.top in m.segs && m.synced <= |m.segs[m.top]| && Durable(m) == m.History()
    requires Covers(m, missing) && LastHs(Seen(m, missing)).Some?
    ensures Anchored(m)
  {
    hide Seen;
    var r := m.segs[m.top];
    assert |Durable(m)| == |Flat(m.segs, m.top)| + m.synced && |m.History()| == |Flat(m.segs, m.top)| + |r|;
    assert r[..m.synced] == r;
  }

  lemma SealedBy(c: Codec, m: Moment)
    requires Writable(c, m)
    ensures Sound(c, WithSync(c, m, true)) && WithSync(c, m, true).History() == m.History()
    ensures var s := WithSync(c, m, true);
            s.top == m.top && s.top in s.dir.files && Sealed(c, s.dir.files[s.top], s.segs[s.top])
  {
    SyncSound(c, m, true);
    hide Frames, FrameOf, Flat, Sound, Fits;
    SoundFits(c, m);
  }

  lemma NextHasFile(m: Moment)
    ensures WithNext(m).top in WithNext(m).dir.files && WithNext(m).top in WithNext(m).segs
  {
  }

  lemma RotatedBy(c: Codec, m: Moment, b: Moment, recs: seq<Rec>, missing: set<nat>)
    requires Writable(c, m) && (forall s :: s in missing ==> s <= m.top)
    requires var n := WithNext(WithSync(c, m, true)); n.top in n.dir.files && Copied(WithName(n), b, recs, missing)
    requires b.dir.files.Keys == WithName(WithNext(WithSync(c, m, true))).dir.files.Keys
    ensures Rotated(m, b, recs, missing)
  {
    hide Frames, FrameOf, Fits, Sound;
    SoundFits(c, m);
    Syncing(c, m, true);
    var s := WithSync(c, m, true);
    var n := WithNext(s);
    SeenNext(s, missing);
    var none: seq<Rec> := [];
    assert none + recs == recs;
    var w := WithName(n);
    assert w.segs == n.segs;
    assert b.segs == m.segs[b.top := recs];
    assert recs[..|recs|] == recs;
    assert b.synced == |recs|;
    assert b.dir.files.Keys == m.dir.files.Keys + {b.top};
    FlatSame(m.segs, b.segs, b.top);
    assert Durable(b) == b.History();
  }

  lemma HsAdds(h: seq<Rec>, hs: Option<HardState>)
    requires hs == LastHs(h)
    ensures Last(h + HsRecs(hs)) == Last(h) && LastHs(h + HsRecs(hs)) == hs
  {
    RecordsLast(hs, [], h);
    assert Records(hs, []) == HsRecs(hs);
  }

  lemma RotatedRegisters(c: Codec, a: Moment, b: Moment, missing: set<nat>,
                         before: map<nat, nat>, after: map<nat, nat>, last: nat)
    requires Sound(c, a) && Writable(c, a) && Registers(before, a) && last == Last(Seen(a, missing))
    requires a.top !in missing
    requires exists recs :: Rotated(a, b, recs, missing)
    requires after == before[a.top := last]
    ensures Registers(after, b)
  {
    hide Frames, FrameOf, Fits, Last, Flat, GapFree, Open, Sealed;
    SeenTop(a, missing, a.dir.files[a.top], a.segs[a.top], a.synced);
    LastOfTail(Flat(a.segs - missing, a.top), a.segs[a.top]);
  }

  lemma LastOfTail(h: seq<Rec>, seg: seq<Rec>)
    ensures Last(seg) <= Last(h + seg)
  {
    LastConcat(h, seg);
    LastNeedsEntry(seg);
  }


  lemma EmptySound(c: Codec)
    ensures Sound(c, Moment(Dir(map[], map[]), map[1 := []], 1, 0, 0))
    ensures Moment(Dir(map[], map[]), map[1 := []], 1, 0, 0).History() == []
  {
    var m := Moment(Dir(map[], map[]), map[1 := []], 1, 0, 0);
    FlatSkip(m.segs, 0, 2);
  }

  /** What Writable says of the file being written. */
  lemma Writing(c: Codec, m: Moment, recs: seq<Rec>, n: nat)
    requires Writable(c, m) && AllFit(c, recs) && n <= |Frames(c, recs)|
    ensures m.top in m.dir.files && m.top in m.segs && AllFit(c, m.segs[m.top])
    ensures m.dir.files[m.top].data == Frames(c, m.segs[m.top])
    ensures WithWrite(c, m, recs, n).dir.files
         == m.dir.files[m.top := m.dir.files[m.top].(data := Frames(c, m.segs[m.top]) + Frames(c, recs)[..n])]
    ensures WithWrite(c, m, recs, n).dir.gone == m.dir.gone
    ensures n == |Frames(c, recs)| ==>
              && WithWrite(c, m, recs, n).top == m.top
              && AllFit(c, WithWrite(c, m, recs, n).segs[m.top])
              && |Frames(c, WithWrite(c, m, recs, n).segs[m.top])| == |Frames(c, m.segs[m.top])| + n
  {
    hide Sound, FrameOf, Fits;
    assert AllFit(c, m.segs[m.top]) by { SoundFits(c, m); }
    FramesConcat(c, m.segs[m.top], recs);
  }

  lemma SoundFits(c: Codec, m: Moment)
    requires Sound(c, m)
    ensures m.top in m.segs && AllFit(c, m.segs[m.top]) && m.synced <= |m.segs[m.top]|
  {
  }

  lemma Syncing(c: Codec, m: Moment, exact: bool)
    requires Writable(c, m)
    ensures m.top in m.dir.files && m.top in m.segs && AllFit(c, m.segs[m.top])
    ensures m.dir.files[m.top].data == Frames(c, m.segs[m.top]) && !m.dir.files[m.top].exact && m.dir.files[m.top].named
    ensures var f := m.dir.files[m.top];
            WithSync(c, m, exact).dir == m.dir.(files := m.dir.files[m.top := f.(durable := |f.data|, exact := exact)])
    ensures WithSync(c, m, exact).top == m.top && WithSync(c, m, exact).segs == m.segs
  {
    hide Sound, FrameOf, Fits, Frames;
    SoundFits(c, m);
    assert m.segs[m.top := m.segs[m.top]] == m.segs;
  }
}
