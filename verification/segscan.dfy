/**
 * Reading a log directory back: the loops of Open over segments and frames, proved against the replay of all records.
 */
module SegScan {
  import opened Bytes
  import opened Frame
  import opened Replay
  import opened SegDisk
  import opened SortedSets

  /** One good frame at `off`: the scan of the rest continues after it. */
  lemma ScanAt(c: Codec, data: Bytes, off: nat)
    requires off < |data|
    ensures var f := ReadFrame(c, data[off..]);
            var s := ScanOf(c, data[off..]);
            if f.Torn? || Decode(c, f.typ, f.payload).Undecodable? then s == Scan([], 0, false)
            else
              var m := Decode(c, f.typ, f.payload);
              var t := ScanOf(c, data[off + f.n..]);
              s == Scan((if m.Record? then [m.r] else []) + t.recs, f.n + t.good, t.clean)
  {
    hide ReadFrame, Decode;
    var f := ReadFrame(c, data[off..]);
    if f.Good? {
      assert data[off..][f.n..] == data[off + f.n..];
    }
  }

  /** One segment file, frame by frame, on top of the state reached so far. */
  method ScanSegment(c: Codec, data: Bytes, start: State) returns (st: State, off: nat, clean: bool, last: nat)
    ensures st == ReplayOn(start, ScanOf(c, data).recs)
    ensures off == ScanOf(c, data).good && clean == ScanOf(c, data).clean
    ensures last == Last(ScanOf(c, data).recs)
  {
    hide ReadFrame, Decode, ScanOf, ReplayOn, Last, Step;
    st, off, clean, last := start, 0, true, 0;
    ghost var seen: seq<Rec> := [];
    assert data[0..] == data;
    ScanNothing(c, start);
    while off < |data|
      invariant off <= |data| && clean
      invariant ScanOf(c, data).recs == seen + ScanOf(c, data[off..]).recs
      invariant ScanOf(c, data).good == off + ScanOf(c, data[off..]).good
      invariant ScanOf(c, data).clean == ScanOf(c, data[off..]).clean
      invariant st == ReplayOn(start, seen)
      invariant last == Last(seen)
    {
      ScanAt(c, data, off);
      var f := ReadFrame(c, data[off..]);
      if f.Torn? {
        clean := false;
        break;
      }
      var m := Decode(c, f.typ, f.payload);
      if m.Undecodable? {
        clean := false;
        break;
      }
      if m.Record? {
        SeenSnoc(start, seen, m.r);
        st := Step(st, m.r);
        if m.r.Ent? {
          last := m.r.e.index;
        }
        seen := seen + [m.r];
      }
      off := off + f.n;
    }
    assert seen + [] == seen;
    if clean {
      assert data[off..] == [];
    }
  }

  lemma ScanNothing(c: Codec, start: State)
    ensures ScanOf(c, []) == Scan([], 0, true)
    ensures ReplayOn(start, []) == start && Last([]) == 0
  {
  }

  lemma SeenSnoc(start: State, seen: seq<Rec>, r: Rec)
    ensures ReplayOn(start, seen + [r]) == Step(ReplayOn(start, seen), r)
    ensures Last(seen + [r]) == if r.Ent? then r.e.index else Last(seen)
    ensures forall rest: seq<Rec> :: seen + ([r] + rest) == (seen + [r]) + rest
  {
    ReplayOnSnoc(start, seen, r);
    assert (seen + [r])[..|seen|] == seen;
  }

  lemma {:induction false} ReplayOnSnoc(st: State, h: seq<Rec>, r: Rec)
    ensures ReplayOn(st, h + [r]) == Step(ReplayOn(st, h), r)
    decreases |h|
  {
    if h != [] {
      assert (h + [r])[1..] == h[1..] + [r];
      ReplayOnSnoc(Step(st, h[0]), h[1..], r);
    }
  }

  datatype DirScan = Refused | Scanned(st: State, segMax: map<nat, nat>, good: nat, clean: bool)

  ghost function Below(seqs: seq<nat>, i: nat): nat
    requires i <= |seqs|
  {
    if i == 0 then 0 else seqs[i - 1] + 1
  }

  /** Replaying one more segment of the list moves the state past its number. */
  lemma NextInList(c: Codec, files: map<nat, Bytes>, seqs: seq<nat>, i: nat)
    requires SortedList(seqs, files.Keys) && i < |seqs|
    ensures seqs[i] in files && Below(seqs, i) <= seqs[i]
    ensures Flat(Contents(c, files), Below(seqs, i + 1))
         == Flat(Contents(c, files), Below(seqs, i)) + ScanOf(c, files[seqs[i]]).recs
  {
    hide ScanOf;
    var s, lo := seqs[i], Below(seqs, i);
    forall x | lo <= x < s
      ensures x !in Contents(c, files)
    {
      if x in files {
        assert x in files.Keys;
        var k :| 0 <= k < |seqs| && seqs[k] == x;
        assert false;
      }
    }
    FlatSkip(Contents(c, files), lo, s);
  }

  /**
   * Open's scan: refuses exactly when a segment other than the newest holds a frame that does not read; otherwise the
   * state is the replay of all records read, in segment order, and every closed segment gets its last entry index.
   */
  method ScanDir(c: Codec, files: map<nat, Bytes>, seqs: seq<nat>) returns (r: DirScan)
    requires SortedList(seqs, files.Keys)
    ensures r.Refused? <==> Damaged(c, files)
    ensures r.Scanned? ==> r.st == Replayed(Flat(Contents(c, files), Below(seqs, |seqs|)))
    ensures r.Scanned? && seqs != [] ==>
              var t := seqs[|seqs| - 1];
              && r.good == ScanOf(c, files[t]).good && r.clean == ScanOf(c, files[t]).clean
              && r.segMax == map s | s in files && s != t :: Last(ScanOf(c, files[s]).recs)
    ensures r.Scanned? && seqs == [] ==> r.good == 0 && r.clean && r.segMax == map[]
  {
    hide ScanOf, ReplayOn, Replayed, Flat, Last, Damaged;
    var st, good, clean := State([], 0, None), 0, true;
    var segMax: map<nat, nat> := map[];
    var i := 0;
    NothingBelow(c, files);
    while i < |seqs|
      invariant 0 <= i <= |seqs|
      invariant st == Replayed(Flat(Contents(c, files), Below(seqs, i)))
      invariant i > 0 ==> good == ScanOf(c, files[seqs[i - 1]]).good && clean == ScanOf(c, files[seqs[i - 1]]).clean
      invariant i == 0 ==> good == 0 && clean
      invariant forall k :: 0 <= k < i && k < |seqs| - 1 ==> ScanOf(c, files[seqs[k]]).clean
      invariant Registered(c, files, seqs, i, segMax)
    {
      var s := seqs[i];
      NextInList(c, files, seqs, i);
      var last;
      ghost var before := Flat(Contents(c, files), Below(seqs, i));
      st, good, clean, last := ScanSegment(c, files[s], st);
      ReplayOnConcat(before, ScanOf(c, files[s]).recs);
      if i < |seqs| - 1 {
        if !clean {
          DamagedAt(c, files, seqs, i);
          return Refused;
        }
        segMax := segMax[s := last];
      }
      i := i + 1;
    }
    NotDamaged(c, files, seqs);
    RegisteredAll(c, files, seqs, segMax);
    return Scanned(st, segMax, good, clean);
  }

  /** The closed segments among the first `i` of the list are registered with their last entry index. */
  ghost predicate Registered(c: Codec, files: map<nat, Bytes>, seqs: seq<nat>, i: nat, segMax: map<nat, nat>)
    requires SortedList(seqs, files.Keys) && i <= |seqs|
  {
    && (forall k :: 0 <= k < i && k < |seqs| - 1 ==> seqs[k] in segMax)
    && (forall s :: s in segMax ==>
          s in files && s != seqs[|seqs| - 1] && segMax[s] == Last(ScanOf(c, files[s]).recs))
  }

  lemma RegisteredAll(c: Codec, files: map<nat, Bytes>, seqs: seq<nat>, segMax: map<nat, nat>)
    requires SortedList(seqs, files.Keys) && (seqs == [] ==> segMax == map[])
    requires seqs != [] ==> Registered(c, files, seqs, |seqs|, segMax)
    ensures seqs != [] ==> segMax == map s | s in files && s != seqs[|seqs| - 1] :: Last(ScanOf(c, files[s]).recs)
  {
    hide ScanOf, Last;
    if seqs != [] {
      forall s | s in files && s != seqs[|seqs| - 1]
        ensures s in segMax
      {
        assert s in files.Keys;
        var k :| 0 <= k < |seqs| && seqs[k] == s;
      }
    }
  }

  lemma DamagedAt(c: Codec, files: map<nat, Bytes>, seqs: seq<nat>, i: nat)
    requires SortedList(seqs, files.Keys) && i < |seqs| - 1 && !ScanOf(c, files[seqs[i]]).clean
    ensures Damaged(c, files)
  {
    assert seqs[i] in files && seqs[|seqs| - 1] in files && seqs[i] < seqs[|seqs| - 1];
  }

  lemma NothingBelow(c: Codec, files: map<nat, Bytes>)
    ensures Flat(Contents(c, files), 0) == [] && Replayed([]) == State([], 0, None)
  {
  }

  lemma NotDamaged(c: Codec, files: map<nat, Bytes>, seqs: seq<nat>)
    requires SortedList(seqs, files.Keys)
    requires forall k :: 0 <= k < |seqs| - 1 ==> ScanOf(c, files[seqs[k]]).clean
    ensures !Damaged(c, files)
  {
    hide ScanOf;
    forall s, t | s in files && t in files && s < t
      ensures ScanOf(c, files[s]).clean
    {
      assert s in files.Keys && t in files.Keys;
      var i :| 0 <= i < |seqs| && seqs[i] == s;
      var j :| 0 <= j < |seqs| && seqs[j] == t;
    }
  }
}
