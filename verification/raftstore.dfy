/**
 * The raft log of one group as the rest of a node sees it: the segment log behind a cache, the legacy keys of the
 * store it replaced, the truncation anchor, and the one-time migration from the old place to the new one.
 */
module RaftLogs {
  import opened Bytes
  import opened Faults
  import opened Frame
  import opened Replay
  import opened RaftCache
  import SegDisk
  import SegScan
  import opened SegLog

  // ----- one batch against the replayed log -----

  ghost predicate Tidy(st: State) {
    && Ascending(st.ents)
    && st.last == if st.ents == [] then 0 else st.ents[|st.ents| - 1].index
  }

  lemma CutAbove(ents: seq<Entry>, i: nat)
    requires ents != [] ==> ents[|ents| - 1].index < i
    ensures CutFrom(ents, i) == ents
  {
  }

  /** Replaying an ascending batch record by record is one cut at its first index and one append. */
  lemma {:induction false} BatchReplayed(st: State, batch: seq<Entry>)
    requires Tidy(st) && Ascending(batch)
    ensures ReplayOn(st, EntRecs(batch)).ents == Overwritten(st.ents, batch)
    ensures ReplayOn(st, EntRecs(batch)).last == if batch == [] then st.last else batch[|batch| - 1].index
    ensures ReplayOn(st, EntRecs(batch)).hs == st.hs
  {
    hide CutFrom;
    if batch != [] {
      var p, e := batch[..|batch| - 1], batch[|batch| - 1];
      BatchReplayed(st, p);
      SegScan.ReplayOnSnoc(st, EntRecs(p), Ent(e));
      CutAbove(st.ents, st.last + 1);
      if p == [] {
        if e.index > st.last {
          CutAbove(st.ents, e.index);
        }
        assert batch == [e];
      } else {
        assert batch == p + [e];
        assert CutFrom(st.ents, p[0].index) + batch == CutFrom(st.ents, p[0].index) + p + [e];
      }
    }
  }

  lemma HsThenBatch(st: State, hs: Option<HardState>, batch: seq<Entry>)
    requires Tidy(st) && Ascending(batch)
    ensures var r := ReplayOn(st, Records(hs, batch));
            && r.ents == Overwritten(st.ents, batch)
            && r.hs == (if hs.Some? then hs else st.hs)
  {
    match hs {
      case None =>
        assert Records(hs, batch) == EntRecs(batch);
        BatchReplayed(st, batch);
      case Some(h) =>
        assert Records(hs, batch)[0] == Hs(h) && Records(hs, batch)[1..] == EntRecs(batch);
        BatchReplayed(Step(st, Hs(h)), batch);
    }
  }

  lemma TidyReplay(h: seq<Rec>)
    ensures Tidy(Replayed(h))
  {
    ReplayedAscending(h);
  }

  // ----- what lies above a point -----

  lemma {:induction false} AboveConcat(a: seq<Entry>, b: seq<Entry>, upto: nat)
    ensures Above(a + b, upto) == Above(a, upto) + Above(b, upto)
  {
    if b == [] {
      assert a + b == a;
    } else {
      AboveConcat(a, b[..|b| - 1], upto);
      assert (a + b)[..|a + b| - 1] == a + b[..|b| - 1];
    }
  }

  lemma {:induction false} AboveAscending(ents: seq<Entry>, upto: nat)
    requires Ascending(ents)
    ensures Ascending(Above(ents, upto))
    ensures forall i :: 0 <= i < |Above(ents, upto)| ==>
              Above(ents, upto)[i] in ents && Above(ents, upto)[i].index > upto
  {
    if ents != [] {
      AboveAscending(ents[..|ents| - 1], upto);
    }
  }

  lemma AboveSnoc(p: seq<Entry>, e: Entry, upto: nat)
    ensures Above(p + [e], upto) == if e.index > upto then Above(p, upto) + [e] else Above(p, upto)
  {
    assert (p + [e])[..|p|] == p;
  }

  lemma CutSnoc(p: seq<Entry>, e: Entry, i: nat)
    requires e.index >= i
    ensures CutFrom(p + [e], i) == CutFrom(p, i)
  {
    assert (p + [e])[..|p|] == p;
  }

  lemma {:induction false} CutCommutes(ents: seq<Entry>, i: nat, upto: nat)
    requires Ascending(ents)
    ensures Above(CutFrom(ents, i), upto) == CutFrom(Above(ents, upto), i)
  {
    hide CutFrom, Above;
    if ents == [] {
      NothingAbove(upto);
      CutAbove([], i);
    } else {
      var p, e := ents[..|ents| - 1], ents[|ents| - 1];
      assert ents == p + [e];
      if e.index >= i {
        CutCommutes(p, i, upto);
        CutSnoc(p, e, i);
        AboveSnoc(p, e, upto);
        CutSnoc(Above(p, upto), e, i);
      } else {
        CutAbove(ents, i);
        AboveAscending(ents, upto);
        var a := Above(ents, upto);
        assert a != [] ==> a[|a| - 1] in ents;
        CutAbove(a, i);
      }
    }
  }

  lemma NothingAbove(upto: nat)
    ensures Above([], upto) == []
  {
  }

  /** Two logs that agree above a point still agree above it after the same batch. */
  lemma SameBatchSameLog(a: seq<Entry>, b: seq<Entry>, batch: seq<Entry>, upto: nat)
    requires Ascending(a) && Ascending(b) && Above(a, upto) == Above(b, upto)
    ensures Above(Overwritten(a, batch), upto) == Above(Overwritten(b, batch), upto)
  {
    if batch != [] {
      CutCommutes(a, batch[0].index, upto);
      CutCommutes(b, batch[0].index, upto);
      AboveConcat(CutFrom(a, batch[0].index), batch, upto);
      AboveConcat(CutFrom(b, batch[0].index), batch, upto);
    }
  }

  lemma OverwrittenAscending(a: seq<Entry>, batch: seq<Entry>)
    requires Ascending(a) && Ascending(batch)
    ensures Ascending(Overwritten(a, batch))
  {
    if batch != [] {
      CutFromKeeps(a, batch[0].index);
    }
  }

  lemma {:induction false} AboveTwice(ents: seq<Entry>, lo: nat, hi: nat)
    requires lo <= hi
    ensures Above(Above(ents, lo), hi) == Above(ents, hi)
  {
    hide Above;
    if ents == [] {
      NothingAbove(lo);
      NothingAbove(hi);
    } else {
      var p, e := ents[..|ents| - 1], ents[|ents| - 1];
      assert ents == p + [e];
      AboveTwice(p, lo, hi);
      AboveSnoc(p, e, lo);
      AboveSnoc(p, e, hi);
      AboveSnoc(Above(p, lo), e, hi);
    }
  }

  lemma {:induction false} DropIsAbove(ents: seq<Entry>, upto: nat)
    requires Ascending(ents)
    ensures Above(DropUpTo(ents, upto), upto) == Above(ents, upto)
    ensures Ascending(DropUpTo(ents, upto))
    ensures forall i :: 0 <= i < |DropUpTo(ents, upto)| ==> DropUpTo(ents, upto)[i].index > upto
  {
    hide Above, Ascending;
    if ents == [] || ents[0].index > upto {
      AllAbove(ents, upto);
    } else {
      DropFirst(ents, upto);
      DropIsAbove(ents[1..], upto);
    }
  }

  lemma AllAbove(ents: seq<Entry>, upto: nat)
    requires Ascending(ents) && (ents == [] || ents[0].index > upto)
    ensures forall i :: 0 <= i < |ents| ==> ents[i].index > upto
  {
  }

  lemma DropFirst(ents: seq<Entry>, upto: nat)
    requires Ascending(ents) && ents != [] && ents[0].index <= upto
    ensures Ascending(ents[1..]) && Above(ents[1..], upto) == Above(ents, upto)
  {
    AboveConcat([ents[0]], ents[1..], upto);
    assert ents == [ents[0]] + ents[1..];
    assert [ents[0]][..0] == [];
  }

  // ----- no gaps -----

  predicate Consecutive(ents: seq<Entry>) {
    && (ents != [] ==> ents[0].index >= 1)
    && forall i :: 0 <= i < |ents| - 1 ==> ents[i + 1].index == ents[i].index + 1
  }

  lemma {:induction false} ConsecutiveAscends(ents: seq<Entry>)
    requires Consecutive(ents)
    ensures Ascending(ents)
    ensures forall i :: 0 <= i < |ents| ==> ents[i].index == ents[0].index + i
  {
    if |ents| > 1 {
      var n := |ents| - 1;
      ConsecutiveAscends(ents[..n]);
      assert ents[..n][n - 1].index == ents[..n][0].index + (n - 1);
      assert ents[n - 1 + 1].index == ents[n - 1].index + 1;
    }
  }

  /** What a caller of Persist owes: consecutive entries that start no later than one past the tail. */
  lemma {:induction false} BatchHasNoGap(h: seq<Rec>, hs: Option<HardState>, ents: seq<Entry>, floor: nat)
    requires GapFree(h, floor) && Consecutive(ents)
    requires ents != [] ==> ents[0].index <= Last(h) + 1 || !HasEntry(h)
    ensures GapFree(h + Records(hs, ents), floor)
  {
    hide HasEntry;
    var g := h + HsRecs(hs);
    assert GapFree(g, floor) by {
      if hs.Some? {
        assert g[..|h|] == h;
      } else {
        assert g == h;
      }
    }
    HsHasNoEntry(hs);
    LastConcat(h, HsRecs(hs));
    HasEntryConcat(h, HsRecs(hs));
    EntsHaveNoGap(g, ents, floor);
    assert h + Records(hs, ents) == g + EntRecs(ents);
  }

  lemma {:induction false} EntsHaveNoGap(g: seq<Rec>, ents: seq<Entry>, floor: nat)
    requires GapFree(g, floor) && Consecutive(ents)
    requires ents != [] ==> ents[0].index <= Last(g) + 1 || !HasEntry(g)
    ensures GapFree(g + EntRecs(ents), floor)
  {
    hide HasEntry, GapFree;
    if ents == [] {
      assert g + EntRecs(ents) == g;
    } else {
      var n := |ents| - 1;
      var p := ents[..n];
      EntsHaveNoGap(g, p, floor);
      EntRecsLast(p);
      LastConcat(g, EntRecs(p));
      if p == [] {
        assert g + EntRecs(p) == g;
      }
      ConsecutiveAscends(ents);
      GapFreeSnoc(g + EntRecs(p), ents[n], floor);
      assert g + EntRecs(ents) == (g + EntRecs(p)) + [Ent(ents[n])];
    }
  }

  // ----- the store -----

  const MIGRATE_CHUNK_ENTRIES := 1024

  const NO_HARD_STATE: HardState := HardState(0, 0, 0)

  /** What Load answers. */
  datatype Loaded = Loaded(hs: HardState, ents: seq<Entry>)

  /** A HardState never written is answered as an empty one. */
  function OrEmpty(hs: Option<HardState>): HardState {
    match hs case Some(h) => h case None => NO_HARD_STATE
  }

  /** `answer` is the HardState `had`, unchanged, or the empty one if there was none. */
  ghost predicate Answers(answer: HardState, had: Option<HardState>) {
    if had.Some? then Some(answer) == had else answer == HardState(0, 0, 0)
  }

  /** The keys of the old place; a group is unmigrated as long as any of them exists. */
  datatype Legacy = Legacy(hs: Option<HardState>, ents: seq<Entry>) {
    predicate Pending() {
      hs.Some? || ents != []
    }
  }

  /** The store at one instant of a migration. */
  datatype Instant = Instant(legacy: Legacy, disk: SegDisk.Moment)

  /**
   * Whatever a power loss at this instant leaves, a restarted Load answers what `was` held: from the legacy keys while
   * any of them exists, and they are untouched; from the segment log after that.
   */
  ghost predicate RestartsAs(c: Codec, s: Instant, was: Legacy) {
    if s.legacy != Legacy(None, []) then s.legacy == was
    else forall after: map<nat, Bytes>, st: State ::
      SegDisk.Lost(s.disk.dir, after) && st == ReadState(c, s.disk, after) ==>
        st.ents == was.ents && ReadsHs(st.hs, was.hs)
  }

  /** A HardState read back is the one that was there; where there was none, none or an empty one is read. */
  ghost predicate ReadsHs(read: Option<HardState>, had: Option<HardState>) {
    if had.Some? then read == had else read == None || read == Some(HardState(0, 0, 0))
  }

  ghost function ReadState(c: Codec, m: SegDisk.Moment, after: map<nat, Bytes>): State {
    Replayed(Flat(SegDisk.Contents(c, after), m.top + 1))
  }

  /** A log all of whose records are synced, and none of whose segments is gone, reads back in full after any loss. */
  lemma SyncedReadsBack(c: Codec, m: SegDisk.Moment, after: map<nat, Bytes>)
    requires SegDisk.Codes(c) && SegDisk.Sound(c, m) && SegDisk.Lost(m.dir, after)
    requires SegDisk.Durable(m) == m.History() && m.segs.Keys <= m.dir.files.Keys
    ensures ReadState(c, m, after) == Replayed(m.History())
  {
    var j := SegDisk.RecoveredLog(c, m, after);
    NamesSurvive(c, m, after);
    hide Flat, Replayed, SegDisk.Durable, SegDisk.Contents, SegDisk.Sound, Above, Last;
    var h := Flat(SegDisk.CutAt(m, j), m.top + 1);
    assert SegDisk.Durable(m) <= h <= m.History();
    assert h == m.History();
  }

  lemma NamesSurvive(c: Codec, m: SegDisk.Moment, after: map<nat, Bytes>)
    requires SegDisk.Sound(c, m) && SegDisk.Lost(m.dir, after) && m.segs.Keys <= m.dir.files.Keys
    ensures m.segs.Keys <= after.Keys + {m.top}
  {
    hide Flat, Frames, Last, GapFree, SegDisk.Left, SegDisk.Shape;
    forall s | s in m.segs.Keys && s != m.top
      ensures s in after.Keys
    {
      assert s in m.dir.files.Keys;
    }
  }

  /**
   * After reclaims up to `m.floor` and a sync, a restart of a log without index gaps loads every entry above it that
   * the log held exactly if the log ended above it or what is read does not; and any restart loads the HardState if the
   * newest segment holds a synced one.
   */
  lemma TruncatedReadsBack(c: Codec, m: SegDisk.Moment, after: map<nat, Bytes>)
    requires SegDisk.Codes(c) && SegDisk.Sound(c, m) && SegDisk.Lost(m.dir, after)
    requires SegDisk.Durable(m) == m.History()
    ensures SegDisk.Gapless(m) ==>
              var st, all := ReadState(c, m, after), Replayed(m.History());
              var kept := Above(st.ents, m.floor) == Above(all.ents, m.floor);
              (kept <==> Last(m.History()) > m.floor || st.last <= m.floor)
    ensures SegDisk.Anchored(m) ==> ReadState(c, m, after).hs == Replayed(m.History()).hs
  {
    var j := SegDisk.RecoveredLog(c, m, after);
    hide Flat, Replayed, SegDisk.Durable, SegDisk.Contents, SegDisk.Sound, Above, Last;
    var h := Flat(SegDisk.CutAt(m, j), m.top + 1);
    assert SegDisk.Durable(m) <= h <= m.History();
    assert h == m.History();
  }

  /** The cache shows what the segment log replays to, except that entries at or below `trimmed` may be gone. */
  ghost predicate Mirrors(ents: seq<Entry>, hs: Option<HardState>, h: seq<Rec>, trimmed: nat) {
    && Ascending(ents)
    && hs == LastHs(h)
    && Above(ents, trimmed) == Above(Replayed(h).ents, trimmed)
  }

  lemma MirrorsOpen(h: seq<Rec>)
    ensures Mirrors(Replayed(h).ents, Replayed(h).hs, h, 0)
  {
    ReplayedAscending(h);
    ReplayedLast(h);
  }

  lemma MirrorsBatch(ents: seq<Entry>, hs: Option<HardState>, h: seq<Rec>, trimmed: nat,
                     newHs: Option<HardState>, batch: seq<Entry>, g: seq<Rec>)
    requires Mirrors(ents, hs, h, trimmed) && Ascending(batch)
    requires Replayed(g) == ReplayOn(Replayed(h), Records(newHs, batch))
    ensures Mirrors(Overwritten(ents, batch), if newHs.Some? then newHs else hs, g, trimmed)
    ensures Replayed(g).ents == Overwritten(Replayed(h).ents, batch)
    ensures Replayed(g).hs == if newHs.Some? then newHs else Replayed(h).hs
  {
    hide Replayed, ReplayOn, Above, Overwritten, LastHs, Records;
    TidyReplay(h);
    assert Ascending(Replayed(h).ents);
    HsThenBatch(Replayed(h), newHs, batch);
    SameBatchSameLog(ents, Replayed(h).ents, batch, trimmed);
    OverwrittenAscending(ents, batch);
    ReplayedLast(h);
    ReplayedLast(g);
  }

  lemma MirrorsTrim(ents: seq<Entry>, hs: Option<HardState>, h: seq<Rec>, trimmed: nat, upto: nat)
    requires Mirrors(ents, hs, h, trimmed)
    ensures Mirrors(DropUpTo(ents, upto), hs, h, if upto > trimmed then upto else trimmed)
  {
    hide Replayed, Above, DropUpTo, LastHs;
    var t := if upto > trimmed then upto else trimmed;
    DropIsAbove(ents, upto);
    AboveTwice(DropUpTo(ents, upto), upto, t);
    AboveTwice(ents, upto, t);
    AboveTwice(ents, trimmed, t);
    AboveTwice(Replayed(h).ents, trimmed, t);
  }

  class RaftStore {
    const io: Io
    const c: Codec
    const segMaxBytes: nat
    var log: Log
    /** The segment log has been isOpen in this process. */
    var isOpen: bool
    var cache: LogRecovered
    var legacy: Legacy
    var anchor: Option<nat>
    /** The highest point truncated to in this process. */
    ghost var trimmed: nat

    ghost predicate Valid()
      reads this, log, cache, cache.arr, set l | l in cache.loans :: l.arr
    {
      && SegDisk.Codes(c) && log.c == c && log.segMaxBytes == segMaxBytes && log.io == io
      && log.Valid() && 0 < |log.trail| && cache.Valid()
      && (if isOpen then log.Ready() && !log.failed && Mirrors(cache.Ents(), cache.hs, log.Visible(), trimmed)
          else !log.active && log.Openable())
    }

    constructor (io: Io, c: Codec, segMaxBytes: nat, legacy: Legacy)
      requires SegDisk.Codes(c)
      ensures Valid() && fresh(log) && fresh(cache) && fresh(cache.arr) && !isOpen && this.legacy == legacy
      ensures this.io == io && this.c == c && this.segMaxBytes == segMaxBytes && anchor == None
      ensures log.dir.files == map[]
    {
      hide Log.Valid, Log.Ready, Log.Attached, Log.Openable, Log.Visible;
      this.io, this.c, this.segMaxBytes, this.legacy := io, c, segMaxBytes, legacy;
      log := new Log(io, c, segMaxBytes);
      cache := new LogRecovered(None, []);
      isOpen, anchor, trimmed := false, None, 0;
    }

    /** getLog: open once, seed the cache with what was read. */
    method GetLog() returns (ok: bool)
      requires Valid()
      modifies this, log, io
      ensures io.failed >= old(io.failed) + if !ok then 1 else 0
      ensures log == old(log) && log.Valid() && legacy == old(legacy) && anchor == old(anchor)
      ensures ok ==> Valid() && isOpen
      ensures old(isOpen) ==> ok && cache == old(cache) && trimmed == old(trimmed) && log.trail == old(log.trail)
      ensures !old(isOpen) && ok ==>
                fresh(cache) && fresh(cache.arr) && trimmed == 0 && cache.loans == {}
                && cache.Ents() == Replayed(log.Visible()).ents && cache.hs == Replayed(log.Visible()).hs
      ensures !old(isOpen) && ok && old(log.dir).files == map[] ==>
                FreshLog(log.Now(), log.missing, old(log.Now()).floor)
      ensures 0 < |log.trail| && (SegDisk.Anchored(old(log.Now())) ==> SegDisk.Anchored(log.Now()))
      ensures SegDisk.Gapless(old(log.Now())) ==> SegDisk.Gapless(log.Now())
      ensures !old(isOpen) && ok && SegDisk.Anchored(old(log.Now())) ==> cache.hs.Some?
    {
      hide SegDisk.Anchored, SegDisk.Gapless, Covers;
      hide Log.Valid, Log.Ready, Log.Attached, Log.Openable, Log.Visible, Log.Now;
      hide Mirrors, FreshLog, Replayed, SegDisk.Durable, ReadsBack, SegDisk.Codes;
      if isOpen {
        return true;
      }
      var r := log.Open();
      if r == None {
        return false;
      }
      cache := new LogRecovered(r.value.hs, r.value.ents);
      MirrorsOpen(log.Visible());
      isOpen, trimmed, ok := true, 0, true;
    }

    /** Append to the segment log, then bring the cache to the same point. */
    method Persist(hs: Option<HardState>, ents: seq<Entry>, sync: bool, growth: nat) returns (ok: bool)
      requires Valid() && isOpen && Ascending(ents)
      requires AllFit(c, Records(hs, ents))
      modifies this, log, cache, cache.arr, io
      ensures io.failed >= old(io.failed) + if !ok then 1 else 0
      ensures log == old(log) && cache == old(cache) && log.Valid() && cache.Valid()
      ensures legacy == old(legacy) && anchor == old(anchor) && trimmed == old(trimmed)
      ensures cache.loans == old(cache.loans) && (cache.arr == old(cache.arr) || fresh(cache.arr))
      ensures Advanced(old(log.trail), log.trail) && KeepsGapless(old(log.trail), log.trail, Records(hs, ents))
      ensures ok ==> Valid() && isOpen
      ensures ok ==> cache.Ents() == Overwritten(old(cache.Ents()), ents)
      ensures ok ==> cache.hs == if hs.Some? then hs else old(cache.hs)
      ensures ok ==> Replayed(log.Visible()).ents == Overwritten(old(Replayed(log.Visible()).ents), ents)
      ensures ok ==> Replayed(log.Visible()).hs == if hs.Some? then hs else old(Replayed(log.Visible()).hs)
      ensures ok ==> log.missing == old(log.missing) && Kin(old(log.Now()), log.Now())
      ensures ok && SegDisk.Anchored(old(log.Now())) ==> SegDisk.Anchored(log.Now())
      ensures ok && (Covers(old(log.Now()), old(log.missing)) || hs.Some?) ==>
                Covers(log.Now(), log.missing) && (sync && cache.hs.Some? ==> SegDisk.Anchored(log.Now()))
      ensures ok && sync ==> SegDisk.Durable(log.Now()) == log.Now().History()
    {
      hide Log.Valid, Log.Ready, Log.Attached, Log.Openable, Log.Visible, Log.Now;
      hide Mirrors, Replayed, ReplayOn, Records, AllFit, Overwritten, Kin, Covers, SegDisk.Durable, SegDisk.Anchored;
      hide KeepsGapless;
      ghost var h := log.Visible();
      NewestHs(log);
      ok := log.Append(hs, ents, sync);
      if !ok {
        return;
      }
      NewestHs(log);
      MirrorsBatch(cache.Ents(), cache.hs, h, trimmed, hs, ents, log.Visible());
      MirrorsHs(cache.Ents(), cache.hs, h, trimmed);
      cache.Merge(hs, ents, growth);
    }

    /**
     * Load answers from the legacy keys while they exist; else it opens the log if need be and lends the cached slice.
     * With either goes the snapshot anchor.
     */
    method Load() returns (ok: bool, r: Loaded, a: array<Entry>, from: nat, n: nat, snap: Option<nat>)
      requires Valid()
      modifies this, log, cache, io
      ensures io.failed >= old(io.failed) + if !ok then 1 else 0
      ensures log == old(log) && log.Valid() && legacy == old(legacy) && anchor == old(anchor)
      ensures ok ==> Valid() && from + n <= a.Length && a[from..from + n] == r.ents && snap == anchor
      ensures legacy != Legacy(None, []) ==>
                && ok && Answers(r.hs, legacy.hs) && r.ents == legacy.ents
                && fresh(a) && log.trail == old(log.trail) && isOpen == old(isOpen)
      ensures ok && legacy == Legacy(None, []) ==>
                && isOpen && r.ents == cache.Ents() && Loan(a, from, r.ents) in cache.loans
                && Above(r.ents, trimmed) == Above(Replayed(log.Visible()).ents, trimmed)
                && (exists hs: Option<HardState> :: NewestIs(log.Visible(), hs) && Answers(r.hs, hs))
      ensures old(isOpen) ==>
                ok && cache == old(cache) && old(cache.loans) <= cache.loans && log.trail == old(log.trail)
    {
      hide Log.Valid, Log.Ready, Log.Attached, Log.Openable, Log.Visible, Log.Now;
      hide Replayed, LastHs, Intact, FreshLog, SegDisk.Anchored, RaftStore.Valid, LogRecovered.Valid, Above;
      from, n, snap, r := 0, 0, anchor, Loaded(NO_HARD_STATE, []);
      if legacy.Pending() {
        r, a, n := LoadLegacy();
        return true, r, a, 0, n, anchor;
      }
      ok := GetLog();
      if !ok {
        a := new Entry[0];
        return;
      }
      r, a, from, n := LendCached();
    }

    method LoadLegacy() returns (r: Loaded, a: array<Entry>, n: nat)
      requires Valid()
      ensures Valid() && log.Valid() && fresh(a) && n <= a.Length && a[0..n] == r.ents
      ensures Answers(r.hs, legacy.hs) && r.ents == legacy.ents
    {
      hide Log.Valid, Log.Ready, Log.Attached, Log.Openable, Log.Visible, Log.Now, Intact;
      var e := legacy.ents;
      a := new Entry[|e|](i requires 0 <= i < |e| => e[i]);
      r, n := Loaded(OrEmpty(legacy.hs), legacy.ents), |e|;
    }

    method LendCached() returns (r: Loaded, a: array<Entry>, from: nat, n: nat)
      requires Valid() && isOpen
      modifies cache
      ensures Valid() && from + n <= a.Length && a[from..from + n] == r.ents && old(cache.loans) <= cache.loans
      ensures r.ents == cache.Ents() && Loan(a, from, r.ents) in cache.loans
      ensures Above(r.ents, trimmed) == Above(Replayed(log.Visible()).ents, trimmed)
      ensures exists hs: Option<HardState> :: NewestIs(log.Visible(), hs) && Answers(r.hs, hs)
    {
      hide Log.Valid, Log.Ready, Log.Attached, Log.Openable, Log.Visible, Log.Now;
      hide Replayed, LastHs, Intact;
      a, from, n := cache.Lend();
      r := Loaded(OrEmpty(cache.hs), a[from..from + n]);
      MirrorsHs(cache.Ents(), cache.hs, log.Visible(), trimmed);
      ReplayedHs(log.Visible());
      assert NewestIs(log.Visible(), cache.hs) && Answers(r.hs, cache.hs);
    }

    /** Narrow the cached view to what lies above the truncation point. */
    method TrimCache(upto: nat)
      requires Valid() && isOpen
      modifies `trimmed, cache
      ensures Valid() && cache.Ents() == DropUpTo(old(cache.Ents()), upto)
      ensures forall i :: 0 <= i < |cache.Ents()| ==> cache.Ents()[i].index > upto
    {
      hide Log.Valid, Log.Ready, Log.Attached, Log.Openable, Log.Visible, Log.Now;
      hide Mirrors, DropUpTo, Ascending, Intact;
      MirrorsTrim(cache.Ents(), cache.hs, log.Visible(), trimmed, upto);
      MirrorsAscends(cache.Ents(), cache.hs, log.Visible(), trimmed);
      DropIsAbove(cache.Ents(), upto);
      cache.Trim(upto);
      trimmed := if upto > trimmed then upto else trimmed;
    }

    method ReclaimLog(upto: nat) returns (ok: bool)
      requires Valid() && isOpen
      modifies log, io
      ensures io.failed >= old(io.failed) + if !ok then 1 else 0
      ensures Valid() && log.Visible() == old(log.Visible()) && cache.Ents() == old(cache.Ents())
      ensures SegLog.Trimmed(old(log.Now()), log.Now(), upto) && TruncatedWell(old(log.Now()), log.Now(), upto)
      ensures KeepsGapless(old(log.trail), log.trail, [])
    {
      hide Log.Valid, Log.Ready, Log.Attached, Log.Openable, Log.Visible, Log.Now;
      hide Reclaims, SegLog.Trimmed, Mirrors, Intact, TruncatedWell, KeepsGapless;
      ghost var deleted;
      ok, deleted := log.TruncateTo(upto);
    }

    method Reclaim(upto: nat) returns (ok: bool)
      requires Valid() && isOpen
      modifies log, cache, `trimmed, io
      ensures io.failed >= old(io.failed) + if !ok then 1 else 0
      ensures Valid() && log.Visible() == old(log.Visible())
      ensures cache.Ents() == if ok then DropUpTo(old(cache.Ents()), upto) else old(cache.Ents())
      ensures SegLog.Trimmed(old(log.Now()), log.Now(), upto) && TruncatedWell(old(log.Now()), log.Now(), upto)
      ensures KeepsGapless(old(log.trail), log.trail, [])
    {
      hide Log.Valid, Log.Ready, Log.Attached, Log.Openable, Log.Visible, Log.Now;
      hide SegLog.Trimmed, Mirrors, DropUpTo, Intact, LogRecovered.Valid, RaftStore.Valid, TruncatedWell, KeepsGapless;
      ok := ReclaimLog(upto);
      if ok {
        TrimCache(upto);
      }
    }

    /** Refused unless the snapshot anchor covers the point; then segments are reclaimed and the cache narrowed. */
    method TruncateLog(upto: nat) returns (ok: bool)
      requires Valid() && isOpen
      modifies log, cache, `trimmed, io
      ensures io.failed >= old(io.failed) + if !ok && anchor.Some? && upto <= anchor.value then 1 else 0
      ensures Valid() && log.Visible() == old(log.Visible())
      ensures ok ==> anchor.Some? && upto <= anchor.value
      ensures cache.Ents() == if ok then DropUpTo(old(cache.Ents()), upto) else old(cache.Ents())
      ensures if anchor.Some? && upto <= anchor.value then
                SegLog.Trimmed(old(log.Now()), log.Now(), upto) && TruncatedWell(old(log.Now()), log.Now(), upto)
              else log.trail == old(log.trail)
      ensures log.trail == old(log.trail) || KeepsGapless(old(log.trail), log.trail, [])
    {
      hide Log.Valid, Log.Ready, Log.Attached, Log.Openable, Log.Visible, Log.Now;
      hide SegLog.Trimmed, Mirrors, DropUpTo, Intact, LogRecovered.Valid, RaftStore.Valid, TruncatedWell, KeepsGapless;
      if anchor == None || anchor.value < upto {
        return false;
      }
      ok := Reclaim(upto);
    }

    /** The old log in chunks: the HardState with the first, a sync with the last. */
    method PersistChunks(hs: HardState, ents: seq<Entry>, growth: nat) returns (ok: bool)
      requires Valid() && isOpen && FreshLog(log.Now(), log.missing, 0) && trimmed == 0
      requires cache.Ents() == [] && Replayed(log.Visible()).ents == []
      requires Ascending(ents) && AllFit(c, Records(Some(hs), ents))
      modifies this, log, cache, cache.arr, io
      ensures io.failed >= old(io.failed) + if !ok then 1 else 0
      ensures log == old(log) && log.Valid() && legacy == old(legacy) && anchor == old(anchor)
      ensures ok ==> Valid() && isOpen && Moved(log.Now(), cache.Ents(), cache.hs, hs, ents)
      ensures ok ==> SegDisk.Anchored(log.Now())
    {
      hide SegDisk.Anchored;
      hide Log.Valid, Log.Ready, Log.Attached, Log.Openable, Log.Visible, Log.Now;
      hide Mirrors, FreshLog, Replayed, GapFree, Records, AllFit, Overwritten, Kin, Covers, SegDisk.Durable, Ascending;
      hide Intact, Advanced, KeepsGapless;
      var i := 0;
      LogFacts(log);
      FreshIsWhole(log.Now(), log.missing);
      FreshCovers(log.Now(), log.missing);
      assert ents[..0] == [];
      ok := false;
      while true
        invariant 0 <= i <= |ents| && (i > 0 || ok ==> Replayed(log.Visible()).hs == Some(hs) && cache.hs == Some(hs))
        invariant i > 0 ==> ok
        invariant io.failed >= old(io.failed)
        invariant i == 0 ==> !ok
        invariant Valid() && isOpen && log == old(log) && legacy == old(legacy) && anchor == old(anchor) && trimmed == 0
        invariant cache == old(cache) && (cache.arr == old(cache.arr) || fresh(cache.arr))
        invariant Partly(log.Now(), log.missing, ents, i) && cache.Ents() == ents[..i]
        invariant log.Visible() == Seen(log.Now(), log.missing) && Covers(log.Now(), log.missing)
        decreases |ents| - i
      {
        var end := if i + MIGRATE_CHUNK_ENTRIES < |ents| then i + MIGRATE_CHUNK_ENTRIES else |ents|;
        var chunkHs := if i == 0 then Some(hs) else None;
        var last := end == |ents|;
        LogFacts(log);
        ChunkReady(c, hs, ents, i, end);
        ghost var m := log.Now();
        ok := Persist(chunkHs, ents[i..end], last, growth);
        if !ok {
          return;
        }
        LogFacts(log);
        ChunkDone(m, log.Now(), log.missing, ents, i, end);
        i := end;
        if last {
          break;
        }
      }
      AllMoved(log.Now(), log.missing, ents, hs);
    }

    /** Wipe what an earlier attempt left, then write the old log into a fresh segment log. */
    method CopyLegacy(growth: nat) returns (ok: bool)
      requires Valid() && Ascending(legacy.ents) && AllFit(c, Records(Some(OrEmpty(legacy.hs)), legacy.ents))
      modifies this, io
      ensures io.failed >= old(io.failed) + if !ok then 1 else 0
      ensures legacy == old(legacy) && log.Valid()
      ensures ok ==> Valid() && isOpen && Moved(log.Now(), cache.Ents(), cache.hs, OrEmpty(legacy.hs), legacy.ents)
      ensures ok ==> SegDisk.Codes(c) && SegDisk.Sound(c, log.Now()) && SegDisk.Anchored(log.Now())
    {
      hide SegDisk.Anchored;
      hide Log.Valid, Log.Ready, Log.Attached, Log.Openable, Log.Visible, Log.Now;
      hide Mirrors, FreshLog, Replayed, GapFree, Records, AllFit, Ascending, Intact, Moved;
      log := new Log(io, c, segMaxBytes);
      isOpen := false;
      ok := GetLog();
      if ok {
        LogFacts(log);
        NothingSeen(log.Now(), log.missing);
        ok := PersistChunks(OrEmpty(legacy.hs), legacy.ents, growth);
        LogFacts(log);
      }
    }

    /**
     * One-time migration. Whatever step a power loss interrupts, a restarted Load answers what it would have answered
     * before: from the legacy keys until the batch that deletes them, from a fully synced segment log after it.
     * `steps` are the states the store and the segment files pass through.
     */
    method MigrateLog(growth: nat) returns (ok: bool, ghost steps: seq<Instant>)
      requires Valid()
      requires legacy != Legacy(None, []) ==>
                Ascending(legacy.ents) && AllFit(c, Records(Some(OrEmpty(legacy.hs)), legacy.ents))
      modifies this, io
      ensures io.failed >= old(io.failed) + if !ok then 1 else 0
      ensures old(legacy) == Legacy(None, []) ==>
                ok && steps == [] && log == old(log) && legacy == old(legacy) && isOpen == old(isOpen)
      ensures old(legacy) != Legacy(None, []) ==> forall k :: 0 <= k < |steps| ==> RestartsAs(c, steps[k], old(legacy))
      ensures old(legacy) != Legacy(None, []) && !ok ==> legacy == old(legacy)
      ensures old(legacy) != Legacy(None, []) && ok ==>
                && Valid() && isOpen && SegDisk.Anchored(log.Now())
                && cache.Ents() == old(legacy).ents && ReadsHs(cache.hs, old(legacy).hs)
                && legacy == Legacy(None, [])
                && steps == [Instant(old(legacy), old(log.Now()))] + Instants(old(legacy), log.trail)
                            + [Instant(Legacy(None, []), log.Now())]
    {
      hide Log.Valid, Log.Ready, Log.Attached, Log.Openable, Log.Visible, Log.Now;
      hide Mirrors, AllFit, Records, RestartsAs, Ascending, Intact, Moved, Instants, SegDisk.Anchored;
      hide SegDisk.Sound, SegDisk.Codes, Replayed, ReadsHs, OrEmpty;
      if !legacy.Pending() {
        return true, [];
      }
      var was := legacy;
      steps := [Instant(was, log.Now())];
      PendingRestarts(c, was, [log.Now()]);
      ok := io.Try();
      if !ok {
        return;
      }
      ok := CopyLegacy(growth);
      steps := steps + Instants(was, log.trail);
      PendingRestarts(c, was, log.trail);
      if !ok {
        return;
      }
      ok := io.Try();
      if !ok {
        return;
      }
      legacy := Legacy(None, []);
      MovedRestarts(c, log.Now(), cache.Ents(), cache.hs, was);
      steps := steps + [Instant(legacy, log.Now())];
    }
  }

  // ----- migration -----

  lemma NewestHs(l: Log)
    requires l.Ready()
    ensures l.active
    ensures l.lastHS == LastHs(l.Visible())
  {
  }

  lemma MirrorsHs(ents: seq<Entry>, hs: Option<HardState>, h: seq<Rec>, trimmed: nat)
    requires Mirrors(ents, hs, h, trimmed)
    ensures hs == LastHs(h)
  {
  }

  lemma FreshCovers(m: SegDisk.Moment, missing: set<nat>)
    requires FreshLog(m, missing, 0)
    ensures Covers(m, missing)
  {
  }

  lemma LogFacts(l: Log)
    requires l.Valid()
    ensures SegDisk.Sound(l.c, l.Now()) && l.Visible() == Seen(l.Now(), l.missing)
    ensures l.Now().top in l.Now().segs && l.Now().synced <= |l.Now().segs[l.Now().top]|
  {
    hide SegDisk.SoundOld, GapFree, SegDisk.Open, Frames, Flat;
    assert SegDisk.Sound(l.c, l.trail[|l.trail| - 1]);
  }

  ghost function Instants(l: Legacy, trail: seq<SegDisk.Moment>): (r: seq<Instant>)
    ensures |r| == |trail|
    ensures forall k :: 0 <= k < |trail| ==> r[k] == Instant(l, trail[k])
  {
    seq(|trail|, k requires 0 <= k < |trail| => Instant(l, trail[k]))
  }

  lemma PendingRestarts(c: Codec, l: Legacy, trail: seq<SegDisk.Moment>)
    requires l.Pending()
    ensures forall k :: 0 <= k < |trail| ==> RestartsAs(c, Instants(l, trail)[k], l)
    ensures |trail| == 1 ==> Instants(l, trail) == [Instant(l, trail[0])]
  {
  }

  /** The first `i` entries are in the log, and nothing has been reclaimed. */
  ghost predicate Partly(m: SegDisk.Moment, missing: set<nat>, ents: seq<Entry>, i: nat)
    requires i <= |ents|
  {
    && missing == {} && m.floor == 0 && m.segs.Keys <= m.dir.files.Keys
    && Seen(m, missing) == m.History()
    && Replayed(m.History()).ents == ents[..i]
  }

  /** Everything is in the log and synced. */
  ghost predicate Moved(m: SegDisk.Moment, cached: seq<Entry>, cachedHs: Option<HardState>, hs: HardState,
                        ents: seq<Entry>) {
    && cached == ents && cachedHs == Some(hs)
    && m.top in m.segs && m.synced <= |m.segs[m.top]|
    && SegDisk.Durable(m) == m.History() && m.segs.Keys <= m.dir.files.Keys
    && Replayed(m.History()).ents == ents && Replayed(m.History()).hs == Some(hs)
  }

  lemma SeenAll(m: SegDisk.Moment)
    ensures Seen(m, {}) == m.History()
  {
    FlatSame(m.segs - {}, m.segs, m.top + 1);
  }

  lemma FreshIsWhole(m: SegDisk.Moment, missing: set<nat>)
    requires FreshLog(m, missing, 0)
    ensures Partly(m, missing, [], 0) && forall ents: seq<Entry> :: Partly(m, missing, ents, 0)
  {
  }

  lemma MirrorsAscends(ents: seq<Entry>, hs: Option<HardState>, h: seq<Rec>, trimmed: nat)
    requires Mirrors(ents, hs, h, trimmed)
    ensures Ascending(ents)
  {
  }

  lemma NothingSeen(m: SegDisk.Moment, missing: set<nat>)
    requires FreshLog(m, missing, 0)
    ensures Replayed(Seen(m, missing)).ents == []
  {
  }

  lemma ChunkReady(c: Codec, hs: HardState, ents: seq<Entry>, i: nat, end: nat)
    requires i <= end <= |ents| && Ascending(ents) && AllFit(c, Records(Some(hs), ents))
    ensures var chunkHs := if i == 0 then Some(hs) else None;
            && Ascending(ents[i..end])
            && AllFit(c, Records(chunkHs, ents[i..end]))
  {
    hide Fits;
    ChunkFits(c, hs, ents, i, end);
  }

  lemma ChunkFits(c: Codec, hs: HardState, ents: seq<Entry>, i: nat, end: nat)
    requires i <= end <= |ents| && AllFit(c, Records(Some(hs), ents))
    ensures AllFit(c, Records(if i == 0 then Some(hs) else None, ents[i..end]))
  {
    hide Fits;
    var all := Records(Some(hs), ents);
    var chunk := ents[i..end];
    var part := Records(if i == 0 then Some(hs) else None, chunk);
    var shift := if i == 0 then 0 else i + 1;
    forall k | 0 <= k < |part|
      ensures Fits(c, part[k])
    {
      var n := if i == 0 then k - 1 else k;
      if n >= 0 {
        EntRecsPrefix(chunk, n);
        EntRecsPrefix(ents, i + n);
        assert part[k] == Ent(ents[i + n]) == all[1 + i + n];
      } else {
        assert part[k] == all[0];
      }
    }
  }

  lemma ChunkDone(m: SegDisk.Moment, n: SegDisk.Moment, missing: set<nat>, ents: seq<Entry>, i: nat, end: nat)
    requires i <= end <= |ents| && Partly(m, missing, ents, i) && Kin(m, n) && Ascending(ents)
    requires Replayed(Seen(n, missing)).ents == Overwritten(Replayed(Seen(m, missing)).ents, ents[i..end])
    ensures Partly(n, missing, ents, end)
    ensures Overwritten(ents[..i], ents[i..end]) == ents[..end]
  {
    hide Replayed, Flat;
    SeenAll(n);
    if i < end {
      CutAbove(ents[..i], ents[i].index);
    }
    assert ents[..i] + ents[i..end] == ents[..end];
  }

  lemma AllMoved(m: SegDisk.Moment, missing: set<nat>, ents: seq<Entry>, hs: HardState)
    requires Partly(m, missing, ents, |ents|)
    ensures Replayed(m.History()).ents == ents && m.segs.Keys <= m.dir.files.Keys && Seen(m, missing) == m.History()
  {
    assert ents[..|ents|] == ents;
  }

  /** Once everything is in the segment log and synced, the legacy keys are no longer needed. */
  lemma MovedRestarts(c: Codec, m: SegDisk.Moment, cached: seq<Entry>, cachedHs: Option<HardState>, l: Legacy)
    requires SegDisk.Codes(c) && SegDisk.Sound(c, m) && Moved(m, cached, cachedHs, OrEmpty(l.hs), l.ents)
    ensures RestartsAs(c, Instant(Legacy(None, []), m), l)
    ensures cached == l.ents && ReadsHs(cachedHs, l.hs)
  {
    hide Replayed, SegDisk.Durable, SegDisk.Sound, SegDisk.Lost, ReadState;
    forall after: map<nat, Bytes>, st: State | SegDisk.Lost(m.dir, after) && st == ReadState(c, m, after)
      ensures st.ents == l.ents && ReadsHs(st.hs, l.hs)
    {
      SyncedReadsBack(c, m, after);
    }
  }
}
