/**
 * Record frames of the segment log: 4-byte length, 4-byte checksum, then a type byte and the payload.
 * The checksum and the two message encodings are parameters; only the properties named here are used of them.
 */
module Frame {
  import opened Bytes

  const REC_ENTRY: byte := 1
  const REC_HARD_STATE: byte := 2
  const HEADER_LEN: nat := 8
  const MAX_FRAME_LEN: nat := 67_108_864

  datatype Entry = Entry(index: u64, term: u64, data: Bytes)
  datatype HardState = HardState(term: u64, vote: u64, commit: u64)

  datatype Rec = Ent(e: Entry) | Hs(h: HardState)

  datatype Codec = Codec(
    crc: Bytes -> u32,
    putEntry: Entry -> Bytes,
    getEntry: Bytes -> Option<Entry>,
    putHardState: HardState -> Bytes,
    getHardState: Bytes -> Option<HardState>)
  {
    ghost predicate RoundTrips() {
      && (forall e :: getEntry(putEntry(e)) == Some(e))
      && (forall h :: getHardState(putHardState(h)) == Some(h))
    }

    /** A frame that a power loss cut short, whether followed by nothing or by zeros, no longer passes the check. */
    ghost predicate DetectsCuts() {
      forall typ: byte, payload: Bytes, k: nat, z: nat ::
        CutRejected(this, typ, payload, k, z)
    }
  }

  function Payload(c: Codec, r: Rec): Bytes {
    match r
    case Ent(e) => c.putEntry(e)
    case Hs(h) => c.putHardState(h)
  }

  function TypeOf(r: Rec): byte {
    if r.Ent? then REC_ENTRY else REC_HARD_STATE
  }

  predicate Fits(c: Codec, r: Rec) {
    1 + |Payload(c, r)| <= MAX_FRAME_LEN
  }

  /** appendFrame. */
  function FrameOf(c: Codec, typ: byte, payload: Bytes): (f: Bytes)
    requires 1 + |payload| <= MAX_FRAME_LEN
    ensures |f| == HEADER_LEN + 1 + |payload|
  {
    var body := [typ] + payload;
    U32(|body|) + U32(c.crc(body)) + body
  }

  datatype Read = Torn | Good(typ: byte, payload: Bytes, n: nat)

  function ReadFrame(c: Codec, buf: Bytes): (r: Read)
    ensures r.Good? ==> HEADER_LEN < r.n <= |buf|
  {
    if |buf| < HEADER_LEN then Torn else
    var ln := ReadU32(buf[0..4]);
    if ln == 0 || ln > MAX_FRAME_LEN || ln > |buf| - HEADER_LEN then Torn else
    var body := buf[HEADER_LEN..HEADER_LEN + ln];
    if c.crc(body) != ReadU32(buf[4..8]) then Torn else
    Good(body[0], body[1..], HEADER_LEN + ln)
  }

  function Zeros(n: nat): (z: Bytes)
    ensures |z| == n
    ensures forall i :: 0 <= i < n ==> z[i] == 0
  {
    seq(n, _ => 0)
  }

  ghost predicate CutRejected(c: Codec, typ: byte, payload: Bytes, k: nat, z: nat) {
    1 + |payload| <= MAX_FRAME_LEN && k < HEADER_LEN + 1 + |payload| ==>
      var f := FrameOf(c, typ, payload);
      f <= f[..k] + Zeros(z) || ReadFrame(c, f[..k] + Zeros(z)) == Torn
  }

  /** What a frame says is read back, whatever follows it. */
  lemma ReadWrittenFrame(c: Codec, typ: byte, payload: Bytes, rest: Bytes)
    requires 1 + |payload| <= MAX_FRAME_LEN
    ensures ReadFrame(c, FrameOf(c, typ, payload) + rest) == Good(typ, payload, HEADER_LEN + 1 + |payload|)
  {
    hide ReadU32, U32;
    var body := [typ] + payload;
    var buf := FrameOf(c, typ, payload) + rest;
    U32RoundTrip(|body|);
    U32RoundTrip(c.crc(body));
    assert buf[0..4] == U32(|body|);
    assert buf[4..8] == U32(c.crc(body));
    assert buf[8..8 + |body|] == body;
    assert body[1..] == payload;
  }

  /** Where everything stands in a frame, and that the checksum covers the type byte with the payload. */
  lemma FrameLayout(c: Codec, r: Rec)
    requires 1 + |Payload(c, r)| <= 67_108_864
    ensures Fits(c, r)
    ensures var p := if r.Ent? then c.putEntry(r.e) else c.putHardState(r.h);
            var f := FrameOf(c, TypeOf(r), Payload(c, r));
            var typ: byte := if r.Ent? then 1 else 2;
            && |f| == 9 + |p| && f[8] == typ && f[9..] == p
            && f[0..4] == BE(1 + |p|, 4) && f[4..8] == BE(c.crc([typ] + p), 4)
  {
    hide BE;
    var p := if r.Ent? then c.putEntry(r.e) else c.putHardState(r.h);
    var typ: byte := if r.Ent? then 1 else 2;
    var body := [typ] + p;
    assert |BE(|body|, 4)| == 4 == |BE(c.crc(body), 4)|;
    assert FrameOf(c, typ, p) == BE(|body|, 4) + BE(c.crc(body), 4) + body;
  }

  /** The other way round: nothing is taken for a record but bytes that writing that record gives, checksum and all. */
  lemma ReadIsWritten(c: Codec, buf: Bytes)
    requires ReadFrame(c, buf).Good?
    ensures var r := ReadFrame(c, buf);
            && 1 + |r.payload| <= 67_108_864 && r.n == 9 + |r.payload| && r.n <= |buf|
            && buf[..r.n] == FrameOf(c, r.typ, r.payload)
  {
    hide ReadU32, U32;
    var r := ReadFrame(c, buf);
    U32OfRead(buf[0..4]);
    U32OfRead(buf[4..8]);
    assert buf[8..r.n] == [r.typ] + r.payload;
    assert buf[..r.n] == buf[0..4] + buf[4..8] + buf[8..r.n];
  }

  lemma U32OfRead(b: Bytes)
    requires |b| == 4
    ensures U32(ReadU32(b)) == b
  {
    FromBERoundTrip(b);
  }

  /** A frame cut short with nothing after it is rejected by its length field alone. */
  lemma CutFrameIsTorn(c: Codec, typ: byte, payload: Bytes, k: nat)
    requires 1 + |payload| <= MAX_FRAME_LEN && k < HEADER_LEN + 1 + |payload|
    ensures ReadFrame(c, FrameOf(c, typ, payload)[..k]) == Torn
  {
    hide ReadU32, U32;
    if k >= HEADER_LEN {
      var buf := FrameOf(c, typ, payload)[..k];
      U32RoundTrip(1 + |payload|);
      assert buf[0..4] == U32(1 + |payload|);
    }
  }

  lemma ZerosAreTorn(c: Codec, z: nat)
    ensures ReadFrame(c, Zeros(z)) == Torn
  {
    if z >= HEADER_LEN {
      var b := Zeros(z)[0..4];
      assert b == [0, 0, 0, 0];
      assert FromBE([0]) == 0 by { assert FromBE([0]) == 256 * FromBE([0][..0]) + 0; }
      assert [0, 0][..1] == [0] && [0, 0, 0][..2] == [0, 0] && [0, 0, 0, 0][..3] == [0, 0, 0];
      assert FromBE([0, 0]) == 0;
      assert FromBE([0, 0, 0]) == 0;
    }
  }

  // ----- scanning a segment -----

  /** What one good frame means to the scan; a type it does not know is skipped. */
  datatype Meaning = Record(r: Rec) | Skipped | Undecodable

  function Decode(c: Codec, typ: byte, payload: Bytes): Meaning {
    if typ == REC_ENTRY then
      match c.getEntry(payload)
      case Some(e) => Record(Ent(e))
      case None => Undecodable
    else if typ == REC_HARD_STATE then
      match c.getHardState(payload)
      case Some(h) => Record(Hs(h))
      case None => Undecodable
    else Skipped
  }

  /** Records up to the first frame that does not read; `clean` when there is none. */
  datatype Scan = Scan(recs: seq<Rec>, good: nat, clean: bool)

  function ScanOf(c: Codec, buf: Bytes): (s: Scan)
    ensures s.good <= |buf|
    ensures s.clean ==> s.good == |buf|
    decreases |buf|
  {
    if buf == [] then Scan([], 0, true) else
    var r := ReadFrame(c, buf);
    if r.Torn? then Scan([], 0, false) else
    var m := Decode(c, r.typ, r.payload);
    if m.Undecodable? then Scan([], 0, false) else
    var rest := ScanOf(c, buf[r.n..]);
    Scan((if m.Record? then [m.r] else []) + rest.recs, r.n + rest.good, rest.clean)
  }

  /** A good frame of a type this version does not know is stepped over. */
  lemma ForeignFrameSkipped(c: Codec, typ: byte, payload: Bytes, rest: Bytes)
    requires 1 + |payload| <= 67_108_864 && typ != 1 && typ != 2
    ensures var s, r := ScanOf(c, FrameOf(c, typ, payload) + rest), ScanOf(c, rest);
            s.recs == r.recs && s.good == 9 + |payload| + r.good && s.clean == r.clean
  {
    hide FrameOf, ReadFrame;
    ReadWrittenFrame(c, typ, payload, rest);
    var buf := FrameOf(c, typ, payload) + rest;
    assert buf[9 + |payload|..] == rest;
  }

  /** A good frame of a known type whose payload cannot be decoded ends the scan in front of it. */
  lemma UndecodableStops(c: Codec, typ: byte, payload: Bytes, rest: Bytes)
    requires 1 + |payload| <= 67_108_864
    requires (typ == 1 && c.getEntry(payload) == None) || (typ == 2 && c.getHardState(payload) == None)
    ensures ScanOf(c, FrameOf(c, typ, payload) + rest) == Scan([], 0, false)
  {
    hide FrameOf, ReadFrame;
    ReadWrittenFrame(c, typ, payload, rest);
  }

  predicate AllFit(c: Codec, recs: seq<Rec>) {
    forall i :: 0 <= i < |recs| ==> Fits(c, recs[i])
  }

  function Frames(c: Codec, recs: seq<Rec>): Bytes
    requires AllFit(c, recs)
  {
    if recs == [] then []
    else FrameOf(c, TypeOf(recs[0]), Payload(c, recs[0])) + Frames(c, recs[1..])
  }

  lemma {:induction false} FramesConcat(c: Codec, a: seq<Rec>, b: seq<Rec>)
    requires AllFit(c, a) && AllFit(c, b)
    ensures AllFit(c, a + b)
    ensures Frames(c, a + b) == Frames(c, a) + Frames(c, b)
  {
    hide FrameOf, Payload;
    if a == [] {
      assert a + b == b;
    } else {
      FramesConcat(c, a[1..], b);
      assert (a + b)[1..] == a[1..] + b;
      var f := FrameOf(c, TypeOf(a[0]), Payload(c, a[0]));
      assert f + (Frames(c, a[1..]) + Frames(c, b)) == (f + Frames(c, a[1..])) + Frames(c, b);
    }
  }

  lemma FramesPrefix(c: Codec, recs: seq<Rec>, j: nat)
    requires AllFit(c, recs) && j <= |recs|
    ensures Frames(c, recs[..j]) <= Frames(c, recs)
  {
    FramesConcat(c, recs[..j], recs[j..]);
    assert recs[..j] + recs[j..] == recs;
  }

  /** One frame read off the front of a buffer. */
  lemma ScanStep(c: Codec, r: Rec, rest: Bytes)
    requires c.RoundTrips() && Fits(c, r)
    ensures var f := FrameOf(c, TypeOf(r), Payload(c, r));
            ScanOf(c, f + rest) == Scan([r] + ScanOf(c, rest).recs, |f| + ScanOf(c, rest).good, ScanOf(c, rest).clean)
  {
    hide FrameOf, ReadFrame;
    var f := FrameOf(c, TypeOf(r), Payload(c, r));
    ReadWrittenFrame(c, TypeOf(r), Payload(c, r), rest);
    assert (f + rest)[|f|..] == rest;
    assert Decode(c, TypeOf(r), Payload(c, r)) == Record(r);
  }

  /** A segment whose length is exact reads back as what was written. */
  lemma {:induction false} ScanFrames(c: Codec, recs: seq<Rec>, tail: Bytes)
    requires c.RoundTrips() && AllFit(c, recs)
    requires tail == [] || ReadFrame(c, tail).Torn?
    ensures ScanOf(c, Frames(c, recs) + tail) == Scan(recs, |Frames(c, recs)|, tail == [])
  {
    hide FrameOf, ReadFrame;
    if recs == [] {
      assert Frames(c, recs) + tail == tail;
    } else {
      ScanFrames(c, recs[1..], tail);
      ScanStep(c, recs[0], Frames(c, recs[1..]) + tail);
      assert Frames(c, recs) + tail
          == FrameOf(c, TypeOf(recs[0]), Payload(c, recs[0])) + (Frames(c, recs[1..]) + tail);
      assert [recs[0]] + recs[1..] == recs;
    }
  }

  /** How many whole frames lie in the first `k` bytes. */
  function WholeIn(c: Codec, recs: seq<Rec>, k: nat): (j: nat)
    requires AllFit(c, recs)
    ensures j <= |recs|
  {
    if recs == [] then 0 else
    var n := |FrameOf(c, TypeOf(recs[0]), Payload(c, recs[0]))|;
    if k < n then 0 else 1 + WholeIn(c, recs[1..], k - n)
  }

  /** The frames whose bytes all lie below `k` are counted by WholeIn. */
  lemma {:induction false} WholeInCovers(c: Codec, recs: seq<Rec>, d: nat, k: nat)
    requires AllFit(c, recs) && d <= |recs| && |Frames(c, recs[..d])| <= k
    ensures d <= WholeIn(c, recs, k)
  {
    hide FrameOf, Payload;
    if d > 0 {
      assert recs[..d][1..] == recs[1..][..d - 1];
      WholeInCovers(c, recs[1..], d - 1, k - |FrameOf(c, TypeOf(recs[0]), Payload(c, recs[0]))|);
    }
  }

  lemma ScanTorn(c: Codec, buf: Bytes)
    requires ReadFrame(c, buf).Torn?
    ensures ScanOf(c, buf).recs == [] && ScanOf(c, buf).good == 0
  {
  }

  /** The cut falls inside the first frame: it is lost, unless the zeros that follow happen to complete it. */
  lemma ScanCutFirst(c: Codec, r: Rec, k: nat, z: nat) returns (j: nat)
    requires c.RoundTrips() && c.DetectsCuts() && Fits(c, r)
    requires k < |FrameOf(c, TypeOf(r), Payload(c, r))|
    ensures var f := FrameOf(c, TypeOf(r), Payload(c, r));
            && j <= 1
            && ScanOf(c, f[..k] + Zeros(z)).recs == (if j == 0 then [] else [r])
            && ScanOf(c, f[..k] + Zeros(z)).good == (if j == 0 then 0 else |f|)
            && (j == 1 ==> f <= f[..k] + Zeros(z))
  {
    hide FrameOf, ReadFrame, Decode, ScanOf;
    var f := FrameOf(c, TypeOf(r), Payload(c, r));
    var buf := f[..k] + Zeros(z);
    assert CutRejected(c, TypeOf(r), Payload(c, r), k, z);
    if f <= buf {
      var w := |buf| - |f|;
      assert buf == f + Zeros(w);
      ZerosAreTorn(c, w);
      ScanTorn(c, Zeros(w));
      ScanStep(c, r, Zeros(w));
      return 1;
    } else {
      ScanTorn(c, buf);
      return 0;
    }
  }

  /**
   * Torn-tail recovery: whatever prefix of the written frames a power loss left, with zeros or nothing after it, the
   * scan returns the first j records for some j that counts every frame wholly inside that prefix, and stops there.
   */
  lemma {:induction false} ScanCut(c: Codec, recs: seq<Rec>, k: nat, z: nat) returns (j: nat)
    requires c.RoundTrips() && c.DetectsCuts() && AllFit(c, recs)
    requires k <= |Frames(c, recs)|
    ensures WholeIn(c, recs, k) <= j <= |recs|
    ensures ScanOf(c, Frames(c, recs)[..k] + Zeros(z)).recs == recs[..j]
    ensures ScanOf(c, Frames(c, recs)[..k] + Zeros(z)).good == |Frames(c, recs[..j])|
    ensures Frames(c, recs[..j]) <= Frames(c, recs)[..k] + Zeros(z)
    decreases |recs|, z
  {
    hide FrameOf, ReadFrame, Decode, ScanOf;
    var buf := Frames(c, recs)[..k] + Zeros(z);
    if recs == [] {
      assert buf == Zeros(z);
      ZerosAreTorn(c, z);
      ScanTorn(c, buf);
      return 0;
    }
    var f := FrameOf(c, TypeOf(recs[0]), Payload(c, recs[0]));
    if k < |f| {
      assert Frames(c, recs)[..k] == f[..k];
      j := ScanCutFirst(c, recs[0], k, z);
      assert recs[..1] == [recs[0]] && recs[..0] == [];
      assert Frames(c, [recs[0]]) == f + Frames(c, [recs[0]][1..]);
    } else {
      var rest := Frames(c, recs[1..])[..k - |f|] + Zeros(z);
      assert Frames(c, recs)[..k] == f + Frames(c, recs[1..])[..k - |f|];
      assert buf == f + rest;
      var i := ScanCut(c, recs[1..], k - |f|, z);
      ScanStep(c, recs[0], rest);
      j := i + 1;
      assert recs[..j][1..] == recs[1..][..i];
      assert [recs[0]] + recs[1..][..i] == recs[..j];
      assert Frames(c, recs[..j]) == f + Frames(c, recs[1..][..i]);
    }
  }

  // ----- the assumption on the checksum can be met -----

  /** One past the last nonzero byte. */
  function Extent(b: Bytes): (n: nat)
    ensures n <= |b|
    ensures n > 0 ==> b[n - 1] != 0
    ensures forall i :: n <= i < |b| ==> b[i] == 0
  {
    if b == [] then 0 else if b[|b| - 1] != 0 then |b| else Extent(b[..|b| - 1])
  }

  function ExtentSum(b: Bytes): u32 {
    if Extent(b) == 0 then 0xFFFF_FFFF else Extent(b) % 0xFFFF_FFFF
  }

  lemma ZeroTailWord(b: Bytes)
    requires |b| == 4 && b[3] == 0
    ensures ReadU32(b) != 0xFFFF_FFFF
  {
    assert FromBE(b) == 256 * FromBE(b[..3]) + b[3];
  }

  /** The cut lies in the body: if the body read back has the same extent, nothing was lost. */
  lemma SameExtent(body: Bytes, got: Bytes, k: nat)
    requires |got| == |body| && k <= |body| && Extent(got) == Extent(body)
    requires forall i :: 0 <= i < k ==> got[i] == body[i]
    requires forall i :: k <= i < |got| ==> got[i] == 0
    ensures got == body
  {
    hide Extent;
    ZeroBeyond(body, got, k);
  }

  /** Where the pieces of a cut frame lie in the buffer that is read. */
  lemma CutLayout(h1: Bytes, h2: Bytes, body: Bytes, k: nat, z: nat)
    requires |h1| == 4 && |h2| == 4 && HEADER_LEN <= k < HEADER_LEN + |body|
    ensures var buf := (h1 + h2 + body)[..k] + Zeros(z);
            && buf[0..4] == h1 && buf[4..8] == h2
            && (forall i :: 0 <= i < k - HEADER_LEN ==> buf[HEADER_LEN + i] == body[i])
            && (forall i :: k <= i < |buf| ==> buf[i] == 0)
  {
    var f := h1 + h2 + body;
    assert f[0..4] == h1 && f[4..8] == h2 && f[8..] == body;
  }

  /** What the reader has checked of a frame it accepts. */
  lemma Accepted(c: Codec, buf: Bytes)
    requires ReadFrame(c, buf).Good?
    ensures var n := ReadFrame(c, buf).n;
            && n == HEADER_LEN + ReadU32(buf[0..4])
            && c.crc(buf[HEADER_LEN..n]) == ReadU32(buf[4..8])
  {
    hide ReadU32;
  }

  lemma CutHeaderDetected(c: Codec, f: Bytes, k: nat, z: nat)
    requires forall b: Bytes :: c.crc(b) == ExtentSum(b)
    requires k <= |f| && k < HEADER_LEN
    ensures ReadFrame(c, f[..k] + Zeros(z)).Torn?
  {
    hide ReadFrame, ReadU32;
    var buf := f[..k] + Zeros(z);
    if ReadFrame(c, buf).Good? {
      Accepted(c, buf);
      var got := buf[HEADER_LEN..ReadFrame(c, buf).n];
      assert Extent(got) == 0;
      ZeroTailWord(buf[4..8]);
      assert false;
    }
  }

  lemma CutBodyDetected(c: Codec, body: Bytes, k: nat, z: nat)
    requires forall b: Bytes :: c.crc(b) == ExtentSum(b)
    requires 1 <= |body| <= MAX_FRAME_LEN && HEADER_LEN <= k < HEADER_LEN + |body|
    ensures var f := U32(|body|) + U32(c.crc(body)) + body;
            f <= f[..k] + Zeros(z) || ReadFrame(c, f[..k] + Zeros(z)).Torn?
  {
    hide ReadFrame, ReadU32, U32, Extent;
    var h1, h2 := U32(|body|), U32(c.crc(body));
    var buf := (h1 + h2 + body)[..k] + Zeros(z);
    if ReadFrame(c, buf).Good? {
      var n := ReadFrame(c, buf).n;
      var got := buf[HEADER_LEN..n];
      Accepted(c, buf);
      CutLayout(h1, h2, body, k, z);
      U32RoundTrip(|body|);
      U32RoundTrip(c.crc(body));
      assert ExtentSum(got) == ExtentSum(body);
      SameExtent(body, got, k - HEADER_LEN);
      assert buf[..n] == buf[0..4] + buf[4..8] + got;
    }
  }

  lemma ExtentSumDetects(c: Codec, typ: byte, payload: Bytes, k: nat, z: nat)
    requires forall b: Bytes :: c.crc(b) == ExtentSum(b)
    ensures CutRejected(c, typ, payload, k, z)
  {
    hide ReadFrame, U32, ExtentSum;
    if 1 + |payload| <= MAX_FRAME_LEN && k < HEADER_LEN + 1 + |payload| {
      if k < HEADER_LEN {
        CutHeaderDetected(c, FrameOf(c, typ, payload), k, z);
      } else {
        CutBodyDetected(c, [typ] + payload, k, z);
      }
    }
  }

  /** Two strings of the same extent that agree up to `k`, one of them zero from `k` on, agree. */
  lemma ZeroBeyond(a: Bytes, b: Bytes, k: nat)
    requires |a| == |b| && k <= |a| && Extent(a) == Extent(b)
    requires forall i :: k <= i < |b| ==> b[i] == 0
    ensures forall i :: k <= i < |a| ==> a[i] == 0
  {
  }

  /** A codec with the two assumed properties exists, so the recovery results are not empty. */
  lemma CodecsExist(c: Codec) returns (d: Codec)
    requires c.RoundTrips()
    ensures d == c.(crc := ExtentSum)
    ensures d.RoundTrips() && d.DetectsCuts()
  {
    d := c.(crc := ExtentSum);
    forall typ: byte, payload: Bytes, k: nat, z: nat
      ensures CutRejected(d, typ, payload, k, z)
    {
      ExtentSumDetects(d, typ, payload, k, z);
    }
  }
}
