/**
 * What the segment files of one log look like on disk, what a power loss may leave of them, and that recovery from any
 * state the log passes through gives back a prefix of what was written that holds everything that was synced.
 */
module SegDisk {
  import opened Bytes
  import opened Frame
  import opened Replay

  /**
   * A segment file: its bytes up to the logical end, how many of them an fsync covers, whether its length was cut to
   * that end and synced (until then a zero tail may follow), and whether a directory fsync covers its name.
   */
  datatype File = File(data: Bytes, durable: nat, exact: bool, named: bool)

  /** The directory; `gone` are removed files whose removal a power loss may undo. */
  datatype Dir = Dir(files: map<nat, File>, gone: map<nat, Bytes>)

  ghost predicate LeftAs(f: File, b: Bytes, k: nat, z: nat) {
    f.durable <= k <= |f.data| && b == f.data[..k] + Zeros(z)
  }

  ghost predicate Left(f: File, b: Bytes) {
    if f.exact then b == f.data else exists k: nat, z: nat :: LeftAs(f, b, k, z)
  }

  /** `after` is a directory that a power loss can leave of `d`. */
  ghost predicate Lost(d: Dir, after: map<nat, Bytes>) {
    && (forall s :: s in after ==> s in d.files || s in d.gone)
    && (forall s :: s in d.files && d.files[s].named ==> s in after)
    && (forall s :: s in after && s in d.files ==> Left(d.files[s], after[s]))
    && (forall s :: s in after && s !in d.files ==> after[s] == d.gone[s])
  }

  /**
   * A file survives every power loss exactly if its name is on disk, however much of it is synced. Only the Open that
   * creates the first segment syncs its name, and only the rotation that creates a later one: if the process dies in
   * between and is started again without a power loss, that file is found, appended to and synced, and may still be
   * lost.
   */
  lemma SurvivesIfNamed(d: Dir, s: nat)
    requires s in d.files && forall x :: x in d.files ==> d.files[x].durable <= |d.files[x].data|
    ensures d.files[s].named <==> forall after: map<nat, Bytes> :: Lost(d, after) ==> s in after
  {
    if !d.files[s].named {
      var after := map x | x in d.files && x != s :: d.files[x].data;
      forall x | x in after
        ensures Left(d.files[x], after[x])
      {
        var b := after[x];
        assert b == b[..|b|] + Zeros(0);
        assert LeftAs(d.files[x], b, |b|, 0);
      }
      assert Lost(d, after);
    }
  }

  /**
   * The disk at one instant with what it stands for: the records of every segment since the log was opened, the newest
   * segment, how many of its records are synced, and the highest index handed to TruncateTo.
   */
  datatype Moment = Moment(dir: Dir, segs: Segs, top: nat, synced: nat, floor: nat) {
    function History(): seq<Rec> {
      Flat(segs, top + 1)
    }
  }

  ghost predicate Codes(c: Codec) {
    c.RoundTrips() && c.DetectsCuts()
  }

  ghost predicate ShapeAs(c: Codec, data: Bytes, recs: seq<Rec>, synced: nat, k: nat, z: nat)
    requires AllFit(c, recs) && synced <= |recs|
  {
    |Frames(c, recs[..synced])| <= k <= |Frames(c, recs)| && data == Frames(c, recs)[..k] + Zeros(z)
  }

  /** The bytes of a segment being written: a cut of the intended frames no shorter than the synced ones, then zeros. */
  ghost predicate Shape(c: Codec, data: Bytes, recs: seq<Rec>, synced: nat)
    requires AllFit(c, recs) && synced <= |recs|
  {
    exists k: nat, z: nat :: ShapeAs(c, data, recs, synced, k, z)
  }

  ghost predicate Sealed(c: Codec, f: File, recs: seq<Rec>)
    requires AllFit(c, recs)
  {
    f == File(Frames(c, recs), |Frames(c, recs)|, true, true)
  }

  ghost predicate Open(c: Codec, f: File, recs: seq<Rec>, synced: nat)
    requires AllFit(c, recs) && synced <= |recs|
  {
    && |Frames(c, recs[..synced])| <= f.durable <= |f.data|
    && Shape(c, f.data, recs, synced)
    && (f.exact ==> f.data == Frames(c, recs))
    && (!f.named ==> recs == [])
  }

  ghost predicate AllSegsFit(c: Codec, segs: Segs) {
    forall s :: s in segs ==> AllFit(c, segs[s])
  }

  /** Segments older than the newest one. */
  ghost predicate SoundOld(c: Codec, m: Moment)
    requires AllSegsFit(c, m.segs)
  {
    && (forall s :: s in m.dir.files && s != m.top ==> s in m.segs && s < m.top && Sealed(c, m.dir.files[s], m.segs[s]))
    && (forall s :: s in m.dir.gone ==>
          s in m.segs && s < m.top && s !in m.dir.files && m.dir.gone[s] == Frames(c, m.segs[s]))
    && (forall s :: s in m.segs ==> s <= m.top)
    && (forall s :: s in m.segs && s !in m.dir.files && s != m.top ==> Last(m.segs[s]) <= m.floor)
  }

  ghost predicate Sound(c: Codec, m: Moment) {
    && AllSegsFit(c, m.segs)
    && m.top in m.segs && m.synced <= |m.segs[m.top]|
    && SoundOld(c, m)
    && (if m.top in m.dir.files then Open(c, m.dir.files[m.top], m.segs[m.top], m.synced) else m.segs[m.top] == [])
  }

  /** No append so far has skipped an index above the floor. */
  ghost predicate Gapless(m: Moment) {
    GapFree(m.History(), m.floor)
  }

  // ----- recovery -----

  lemma CutOfCut(data: Bytes, full: Bytes, k: nat, z: nat, k2: nat, z2: nat) returns (k3: nat, z3: nat)
    requires k <= |full| && data == full[..k] + Zeros(z) && k2 <= |data|
    ensures k3 <= |full| && data[..k2] + Zeros(z2) == full[..k3] + Zeros(z3)
    ensures k3 == if k2 <= k then k2 else k
  {
    if k2 <= k {
      k3, z3 := k2, z2;
      assert data[..k2] == full[..k2];
    } else {
      k3, z3 := k, k2 - k + z2;
      assert data[..k2] == full[..k] + Zeros(k2 - k);
      assert Zeros(k2 - k) + Zeros(z2) == Zeros(z3);
    }
  }

  /** What a power loss leaves of a segment being written has again the shape of one. */
  lemma LeftKeepsShape(c: Codec, f: File, recs: seq<Rec>, synced: nat, b: Bytes)
    requires AllFit(c, recs) && synced <= |recs| && Open(c, f, recs, synced) && Left(f, b)
    ensures Shape(c, b, recs, synced)
    ensures f.exact ==> b == Frames(c, recs)
  {
    hide Frames;
    if !f.exact {
      var k, z :| ShapeAs(c, f.data, recs, synced, k, z);
      var k2: nat, z2: nat :| LeftAs(f, b, k2, z2);
      var k3, z3 := CutOfCut(f.data, Frames(c, recs), k, z, k2, z2);
      assert ShapeAs(c, b, recs, synced, k3, z3);
    }
  }

  /** Scanning a segment that was being written finds every synced record, and a prefix of the rest. */
  lemma ScanShape(c: Codec, data: Bytes, recs: seq<Rec>, synced: nat) returns (j: nat)
    requires Codes(c) && AllFit(c, recs) && synced <= |recs| && Shape(c, data, recs, synced)
    ensures synced <= j <= |recs|
    ensures ScanOf(c, data).recs == recs[..j] && ScanOf(c, data).good == |Frames(c, recs[..j])|
    ensures Frames(c, recs[..j]) <= data
    ensures data == Frames(c, recs) ==> j == |recs| && ScanOf(c, data).clean
  {
    hide Frames, ScanOf, GapFree;
    if data == Frames(c, recs) {
      j := |recs|;
      ScanFrames(c, recs, []);
      assert recs[..j] == recs && Frames(c, recs) + [] == data;
      return;
    }
    var k: nat, z: nat :| ShapeAs(c, data, recs, synced, k, z);
    j := ScanCut(c, recs, k, z);
    WholeInCovers(c, recs, synced, k);
  }

  /** What a scan of each file of a directory finds. */
  function Contents(c: Codec, files: map<nat, Bytes>): Segs {
    map s | s in files :: ScanOf(c, files[s]).recs
  }

  /** Some file other than the newest holds a frame that does not read: Open takes this for real damage. */
  ghost predicate Damaged(c: Codec, files: map<nat, Bytes>) {
    exists s, t :: s in files && t in files && s < t && !ScanOf(c, files[s]).clean
  }

  lemma ScanSealed(c: Codec, recs: seq<Rec>)
    requires Codes(c) && AllFit(c, recs)
    ensures ScanOf(c, Frames(c, recs)) == Scan(recs, |Frames(c, recs)|, true)
  {
    hide Frames, ScanOf;
    ScanFrames(c, recs, []);
    assert Frames(c, recs) + [] == Frames(c, recs);
  }

  lemma OlderFile(c: Codec, m: Moment, after: map<nat, Bytes>, s: nat)
    requires Sound(c, m) && Lost(m.dir, after) && s in after && s != m.top
    ensures s in m.segs && s < m.top && after[s] == Frames(c, m.segs[s])
  {
    hide Frames, GapFree, Open, Flat, Last;
  }

  /** The segments as written, the newest one cut after `j` records. */
  function CutAt(m: Moment, j: nat): Segs
    requires m.top in m.segs && j <= |m.segs[m.top]|
  {
    m.segs[m.top := m.segs[m.top][..j]]
  }

  /** Every record known to be on disk: the older segments and the synced part of the newest. */
  function Durable(m: Moment): seq<Rec>
    requires m.top in m.segs && m.synced <= |m.segs[m.top]|
  {
    Flat(m.segs, m.top) + m.segs[m.top][..m.synced]
  }

  lemma CutHistory(m: Moment, j: nat)
    requires m.top in m.segs && m.synced <= j <= |m.segs[m.top]|
    ensures Flat(CutAt(m, j), m.top + 1) == Flat(m.segs, m.top) + m.segs[m.top][..j]
    ensures Durable(m) <= Flat(CutAt(m, j), m.top + 1) <= m.History()
  {
    FlatSame(m.segs, CutAt(m, j), m.top);
    assert m.segs[m.top][..m.synced] <= m.segs[m.top][..j];
  }

  /**
   * Recovery at any crash point. Whatever a power loss leaves, no segment but the newest is damaged, and the records
   * found are those written up to some point at or after the last sync, minus whole segments ending at or below the
   * floor.
   */
  lemma CrashRecovery(c: Codec, m: Moment, after: map<nat, Bytes>) returns (j: nat)
    requires Codes(c) && Sound(c, m) && Lost(m.dir, after)
    ensures !Damaged(c, after)
    ensures m.synced <= j <= |m.segs[m.top]|
    ensures forall s :: s in after ==> s in CutAt(m, j) && ScanOf(c, after[s]).recs == CutAt(m, j)[s]
    ensures m.top in after ==>
              && ScanOf(c, after[m.top]).good == |Frames(c, m.segs[m.top][..j])|
              && Frames(c, m.segs[m.top][..j]) <= after[m.top]
    ensures forall s :: s in CutAt(m, j) && s !in after ==> Last(CutAt(m, j)[s]) <= m.floor
  {
    hide Frames, ScanOf, GapFree, Flat, FrameOf;
    forall s | s in after && s != m.top
      ensures s in m.segs && s < m.top && ScanOf(c, after[s]) == Scan(m.segs[s], |after[s]|, true)
    {
      OlderFile(c, m, after, s);
      ScanSealed(c, m.segs[s]);
    }
    if m.top in after {
      var f := m.dir.files[m.top];
      LeftKeepsShape(c, f, m.segs[m.top], m.synced, after[m.top]);
      j := ScanShape(c, after[m.top], m.segs[m.top], m.synced);
    } else {
      j := 0;
      assert m.segs[m.top] == [];
    }
  }

  /** The newest segment holds a synced HardState: neither a power loss nor a reclaim can take it. */
  ghost predicate Anchored(m: Moment) {
    m.top in m.segs && m.synced <= |m.segs[m.top]| && LastHs(m.segs[m.top][..m.synced]).Some?
  }

  /** Of the segments `present`, the one the newest HardState of `segs` is in, if there is one, is among them. */
  ghost predicate HsPresent(segs: Segs, n: nat, present: set<nat>) {
    HsSeg(segs, n).Some? ==> HsSeg(segs, n).value in present
  }

  /**
   * `st` is the replay of a prefix of everything written at `m`, cut after `j` records of the newest segment: a prefix
   * that holds everything synced. Once segments have been reclaimed, and with no index gap in that prefix, the entries
   * above the floor are those of the prefix exactly if it ends above the floor or what is read does not; and the
   * HardState is that of the prefix if the segment holding it is still there, as it is whenever the newest segment held
   * a synced one. With every segment still present all of it holds outright.
   */
  ghost predicate RecoversTo(m: Moment, st: State, j: nat, present: set<nat>) {
    && m.top in m.segs && m.synced <= j <= |m.segs[m.top]|
    && var h := Flat(CutAt(m, j), m.top + 1);
    && Durable(m) <= h <= m.History()
    && (GapFree(h, m.floor) ==>
          (Above(st.ents, m.floor) == Above(Replayed(h).ents, m.floor) <==> Last(h) > m.floor || st.last <= m.floor))
    && (HsPresent(CutAt(m, j), m.top + 1, present) ==> st.hs == Replayed(h).hs)
    && (Anchored(m) ==> st.hs == Replayed(h).hs && st.hs.Some?)
    && (m.segs.Keys <= present + {m.top} ==> st == Replayed(h))
  }

  lemma RecoveredLog(c: Codec, m: Moment, after: map<nat, Bytes>) returns (j: nat)
    requires Codes(c) && Sound(c, m) && Lost(m.dir, after)
    ensures RecoversTo(m, Replayed(Flat(Contents(c, after), m.top + 1)), j, after.Keys)
  {
    hide Flat, Contents, Replayed, Above, Last, LastHs, Sound, Lost, Durable, ScanOf, Reclaimed, Damaged, GapFree;
    hide HsPresent, Anchored;
    j := CrashRecovery(c, m, after);
    TopMayBeGone(c, m, after);
    CutHistory(m, j);
    ContentsReclaimed(c, m, after, j);
    if GapFree(Flat(CutAt(m, j), m.top + 1), m.floor) {
      AboveRecovered(m, j, Contents(c, after));
    }
    HsRecovered(c, m, j, after);
  }

  /** Only a newest segment without records can lose its name. */
  lemma TopMayBeGone(c: Codec, m: Moment, after: map<nat, Bytes>)
    requires Sound(c, m) && Lost(m.dir, after)
    ensures m.top in m.segs && m.synced <= |m.segs[m.top]| && (m.top !in after ==> m.segs[m.top] == [])
  {
    hide GapFree, Frames, Flat, Last, Left;
  }

  lemma PrefixHs(h: seq<Rec>, i: nat, j: nat)
    requires i <= j <= |h| && LastHs(h[..i]).Some?
    ensures LastHs(h[..j]).Some?
  {
    assert h[..i] + h[i..j] == h[..j];
    LastConcat(h[..i], h[i..j]);
  }

  lemma HsRecovered(c: Codec, m: Moment, j: nat, after: map<nat, Bytes>)
    requires m.top in m.segs && m.synced <= j <= |m.segs[m.top]| && (m.top !in after ==> m.segs[m.top] == [])
    requires forall s :: s in after ==> s in CutAt(m, j) && ScanOf(c, after[s]).recs == CutAt(m, j)[s]
    ensures var st, h := Replayed(Flat(Contents(c, after), m.top + 1)), Flat(CutAt(m, j), m.top + 1);
            && (HsPresent(CutAt(m, j), m.top + 1, after.Keys) ==> st.hs == Replayed(h).hs)
            && (Anchored(m) ==> st.hs == Replayed(h).hs && st.hs.Some?)
  {
    hide ScanOf, Flat, Replayed, LastHs;
    var segs, got := CutAt(m, j), Contents(c, after);
    ReclaimHardState(segs, got, m.top + 1);
    if Anchored(m) {
      PrefixHs(m.segs[m.top], m.synced, j);
      assert LastHs(segs[m.top]).Some?;
      assert HsSeg(segs, m.top + 1) == Some(m.top);
      EmptyHasNoHs();
      ReplayedLast(Flat(segs, m.top + 1));
      FlatLastHs(segs, m.top + 1);
    }
  }

  lemma EmptyHasNoHs()
    ensures LastHs([]) == None
  {
  }

  lemma AboveRecovered(m: Moment, j: nat, got: Segs)
    requires m.top in m.segs && j <= |m.segs[m.top]|
    requires Reclaimed(CutAt(m, j), got, m.floor) && GapFree(Flat(CutAt(m, j), m.top + 1), m.floor)
    ensures var h, st := Flat(CutAt(m, j), m.top + 1), Replayed(Flat(got, m.top + 1));
            Above(st.ents, m.floor) == Above(Replayed(h).ents, m.floor) <==> Last(h) > m.floor || st.last <= m.floor
  {
    hide *;
    ReclaimExact(CutAt(m, j), got, m.top + 1, m.floor, m.floor);
    ReplayedLast(Flat(got, m.top + 1));
  }

  /** A log without gaps has none in any of its prefixes. */
  lemma GaplessCut(m: Moment, j: nat)
    requires m.top in m.segs && m.synced <= j <= |m.segs[m.top]| && Gapless(m)
    ensures GapFree(Flat(CutAt(m, j), m.top + 1), m.floor)
  {
    hide GapFree;
    GapFreeTake(Flat(m.segs, m.top), m.segs[m.top], j, m.floor);
    FlatSame(m.segs, CutAt(m, j), m.top);
  }

  lemma ContentsReclaimed(c: Codec, m: Moment, after: map<nat, Bytes>, j: nat)
    requires m.top in m.segs && j <= |m.segs[m.top]| && (m.top !in after ==> m.segs[m.top] == [])
    requires forall s :: s in after ==> s in CutAt(m, j) && ScanOf(c, after[s]).recs == CutAt(m, j)[s]
    requires forall s :: s in CutAt(m, j) && s !in after ==> Last(CutAt(m, j)[s]) <= m.floor
    ensures Reclaimed(CutAt(m, j), Contents(c, after), m.floor)
    ensures m.segs.Keys <= after.Keys + {m.top} ==>
              Flat(Contents(c, after), m.top + 1) == Flat(CutAt(m, j), m.top + 1)
  {
    hide ScanOf, Last;
    if m.segs.Keys <= after.Keys + {m.top} {
      forall s | 0 <= s < m.top
        ensures s in CutAt(m, j) <==> s in Contents(c, after)
      {
        if s in CutAt(m, j) {
          assert s in m.segs.Keys;
        }
      }
      FlatSame(CutAt(m, j), Contents(c, after), m.top);
    }
  }
}
