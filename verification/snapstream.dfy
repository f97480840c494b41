/** Snapshot transfer: the key families of a group, the wire formats, and the fetch loop that pulls a view in chunks. */
module SnapStream {
  import opened Bytes
  import opened Scan
  import Keys

  // ----- key families -----

  /** A range that starts at a family prefix and ends after everything with that prefix. */
  function RangeOf(prefix: Bytes): (r: KeyRange)
    requires prefix != [] && prefix[|prefix| - 1] < 255
    ensures r.lower == prefix && Some(r.upper) == PrefixUpperBound(prefix)
  {
    BumpLastByte(prefix, |prefix| - 1);
    KeyRange(prefix, prefix[..|prefix| - 1] + [prefix[|prefix| - 1] + 1])
  }

  function MetaRanges(): seq<KeyRange> {
    [RangeOf(Keys.DELAY), RangeOf(Keys.DELAYALLOC), RangeOf(Keys.HALF), RangeOf(Keys.HALFIDX), RangeOf(Keys.META)]
  }

  function DataRanges(): seq<KeyRange> {
    [RangeOf(Keys.ALLOC), RangeOf(Keys.CURSOR), RangeOf(Keys.INFLIGHT), RangeOf(Keys.KEYIDX), RangeOf(Keys.MSG)]
  }

  /** Ranges fit for one cursor: ascending, and no family prefix is empty. */
  ghost predicate WellFormed(rs: seq<KeyRange>) {
    Ascending(rs) && forall i :: 0 <= i < |rs| ==> rs[i].lower != []
  }

  /** Group 0 owns the global families whole; a data group owns the per-queue keys routed to it. */
  function ScopeOf(g: nat, groups: nat): Scope
    requires groups > 0
  {
    if g == Keys.META_GROUP then Scope(MetaRanges(), false, g, k => Keys.KeyGroupOf(k, groups))
    else Scope(DataRanges(), true, g, k => Keys.KeyGroupOf(k, groups))
  }

  lemma RangeNonEmpty(p: Bytes)
    requires p != [] && p[|p| - 1] < 255
    ensures Lt(RangeOf(p).lower, RangeOf(p).upper)
  {
    PrefixRange(p, p);
  }

  lemma FirstByteOrders(p: Bytes, q: Bytes)
    requires |p| > 1 && p[|p| - 1] < 255 && q != [] && q[|q| - 1] < 255 && p[0] < q[0]
    ensures Le(RangeOf(p).upper, RangeOf(q).lower)
  {
  }

  /** "x/" ends before "xy": the separator's successor is a digit, below every letter. */
  lemma SiblingOrders(x: Bytes, tail: Bytes)
    requires tail != [] && tail[0] > 48 && tail[|tail| - 1] < 255
    ensures (x + [SLASH])[|x|] < 255 && (x + tail)[|x + tail| - 1] < 255
    ensures Le(RangeOf(x + [SLASH]).upper, RangeOf(x + tail).lower)
  {
    LtAfterCommonPrefix(x, [48], tail);
    assert (x + [SLASH])[..|x|] + [48] == x + [48];
  }

  lemma DelayFamilies()
    ensures Le(RangeOf(Keys.DELAY).upper, RangeOf(Keys.DELAYALLOC).lower)
  {
    hide Lt, PrefixUpperBound;
    var x, tail := [100, 101, 108, 97, 121], [97, 108, 108, 111, 99];
    SiblingOrders(x, tail);
    assert x + [SLASH] == Keys.DELAY && x + tail == Keys.DELAYALLOC;
  }

  lemma HalfFamilies()
    ensures Le(RangeOf(Keys.HALF).upper, RangeOf(Keys.HALFIDX).lower)
  {
    hide Lt, PrefixUpperBound;
    var x, tail := [104, 97, 108, 102], [105, 100, 120, 47];
    SiblingOrders(x, tail);
    assert x + [SLASH] == Keys.HALF && x + tail == Keys.HALFIDX;
  }

  lemma MetaRangesAscend()
    ensures WellFormed(MetaRanges())
  {
    hide Lt, PrefixUpperBound;
    RangeNonEmpty(Keys.DELAY);
    RangeNonEmpty(Keys.DELAYALLOC);
    RangeNonEmpty(Keys.HALF);
    RangeNonEmpty(Keys.HALFIDX);
    RangeNonEmpty(Keys.META);
    DelayFamilies();
    FirstByteOrders(Keys.DELAYALLOC, Keys.HALF);
    HalfFamilies();
    FirstByteOrders(Keys.HALFIDX, Keys.META);
    AdjacentAscend(MetaRanges());
  }

  lemma DataRangesAscend()
    ensures WellFormed(DataRanges())
  {
    hide Lt, PrefixUpperBound;
    RangeNonEmpty(Keys.ALLOC);
    RangeNonEmpty(Keys.CURSOR);
    RangeNonEmpty(Keys.INFLIGHT);
    RangeNonEmpty(Keys.KEYIDX);
    RangeNonEmpty(Keys.MSG);
    FirstByteOrders(Keys.ALLOC, Keys.CURSOR);
    FirstByteOrders(Keys.CURSOR, Keys.INFLIGHT);
    FirstByteOrders(Keys.INFLIGHT, Keys.KEYIDX);
    FirstByteOrders(Keys.KEYIDX, Keys.MSG);
    AdjacentAscend(DataRanges());
  }

  lemma ScopeAscends(g: nat, groups: nat)
    requires groups > 0
    ensures WellFormed(ScopeOf(g, groups).ranges)
  {
    hide MetaRanges, DataRanges, WellFormed;
    MetaRangesAscend();
    DataRangesAscend();
  }

  lemma {:induction false} DataFamilyHasPrefix(k: Bytes)
    ensures Keys.Parse(k).Some? ==> exists i :: 0 <= i < |DataRanges()| && In(k, DataRanges()[i])
  {
    PrefixRange(Keys.ALLOC, k);
    PrefixRange(Keys.CURSOR, k);
    PrefixRange(Keys.INFLIGHT, k);
    PrefixRange(Keys.KEYIDX, k);
    PrefixRange(Keys.MSG, k);
    if Keys.Parse(k).Some? {
      assert In(k, DataRanges()[0]) || In(k, DataRanges()[1]) || In(k, DataRanges()[2])
             || In(k, DataRanges()[3]) || In(k, DataRanges()[4]);
    }
  }

  /** The groups partition the data keys: every key of a queue is owned by the queue's group and by no other. */
  lemma DataKeyHasOneOwner(d: Keys.DataKey, groups: nat, g: nat)
    requires groups > 0 && d.Valid() && 1 <= g
    ensures ScopeOf(g, groups).Owns(d.Encode()) <==> g == Keys.GroupForQueue(d.Queue(), groups)
  {
    Keys.KeysOfQueueShareItsGroup(d, groups);
    Keys.ParseEncode(d);
    DataFamilyHasPrefix(d.Encode());
  }

  // ----- who owns which key, byte by byte -----

  /** delay/, delayalloc, half/, halfidx/, meta/ */
  ghost predicate GlobalKey(k: Bytes) {
    || [100, 101, 108, 97, 121, 47] <= k
    || [100, 101, 108, 97, 121, 97, 108, 108, 111, 99] <= k
    || [104, 97, 108, 102, 47] <= k
    || [104, 97, 108, 102, 105, 100, 120, 47] <= k
    || [109, 101, 116, 97, 47] <= k
  }

  /** alloc/, cursor/, inflight/, keyidx/, msg/ */
  ghost predicate QueueKey(k: Bytes) {
    || [97, 108, 108, 111, 99, 47] <= k
    || [99, 117, 114, 115, 111, 114, 47] <= k
    || [105, 110, 102, 108, 105, 103, 104, 116, 47] <= k
    || [107, 101, 121, 105, 100, 120, 47] <= k
    || [109, 115, 103, 47] <= k
  }

  /** A data key of a queue that is routed to group `g`. */
  ghost predicate RoutedTo(k: Bytes, g: nat, groups: nat)
    requires groups > 0
  {
    exists d: Keys.DataKey :: d.Valid() && d.Encode() == k && Keys.GroupForQueue(d.Queue(), groups) == g
  }

  /** The keys group `g` is made of. */
  ghost predicate Belongs(k: Bytes, g: nat, groups: nat)
    requires groups > 0
  {
    if g == 0 then GlobalKey(k) else RoutedTo(k, g, groups)
  }

  lemma InMetaRanges(k: Bytes)
    ensures (exists i :: 0 <= i < |MetaRanges()| && In(k, MetaRanges()[i])) <==> GlobalKey(k)
  {
    hide Lt, PrefixUpperBound;
    PrefixRange(Keys.DELAY, k);
    PrefixRange(Keys.DELAYALLOC, k);
    PrefixRange(Keys.HALF, k);
    PrefixRange(Keys.HALFIDX, k);
    PrefixRange(Keys.META, k);
    var r := MetaRanges();
    assert GlobalKey(k) ==> In(k, r[0]) || In(k, r[1]) || In(k, r[2]) || In(k, r[3]) || In(k, r[4]);
  }

  lemma InDataRanges(k: Bytes)
    ensures (exists i :: 0 <= i < |DataRanges()| && In(k, DataRanges()[i])) <==> QueueKey(k)
  {
    hide Lt, PrefixUpperBound;
    PrefixRange(Keys.ALLOC, k);
    PrefixRange(Keys.CURSOR, k);
    PrefixRange(Keys.INFLIGHT, k);
    PrefixRange(Keys.KEYIDX, k);
    PrefixRange(Keys.MSG, k);
    var r := DataRanges();
    assert QueueKey(k) ==> In(k, r[0]) || In(k, r[1]) || In(k, r[2]) || In(k, r[3]) || In(k, r[4]);
  }

  /**
   * Group 0 owns the keys of the five global families and nothing else; any other group the queue keys routed to it.
   */
  lemma OwnsExactly(k: Bytes, g: nat, groups: nat)
    requires groups > 0
    ensures ScopeOf(g, groups).InFamily(k) <==> if g == 0 then GlobalKey(k) else QueueKey(k)
    ensures ScopeOf(g, groups).Owns(k) <==> Belongs(k, g, groups)
  {
    hide MetaRanges, DataRanges, Keys.Parse, Keys.GroupForQueue;
    InMetaRanges(k);
    InDataRanges(k);
    if g > 0 {
      RoutedExactly(k, g, groups);
    }
  }

  lemma RoutedExactly(k: Bytes, g: nat, groups: nat)
    requires groups > 0
    ensures QueueKey(k) && Keys.KeyGroupOf(k, groups) == Some(g) <==> RoutedTo(k, g, groups)
  {
    hide DataRanges, Keys.Parse, Keys.GroupForQueue, Keys.DataKey.Encode;
    if Keys.KeyGroupOf(k, groups) == Some(g) {
      Keys.EncodeParse(k);
      var d := Keys.Parse(k).value;
      assert d.Valid() && d.Encode() == k && Keys.GroupForQueue(d.Queue(), groups) == g;
    }
    if d: Keys.DataKey :| d.Valid() && d.Encode() == k && Keys.GroupForQueue(d.Queue(), groups) == g {
      Keys.KeysOfQueueShareItsGroup(d, groups);
      DataFamilyHasPrefix(k);
      InDataRanges(k);
    }
  }

  /** Delayed and half messages are group 0's, whatever their times and ids; no data group owns one. */
  lemma GlobalKeysAreGroup0s(due: u64, n: u64, tx: Bytes, groups: nat, g: nat)
    requires groups > 0 && g > 0
    ensures ScopeOf(0, groups).Owns(Keys.DelayKey(due, n)) && ScopeOf(0, groups).Owns(Keys.HalfKey(due, tx))
    ensures !ScopeOf(g, groups).Owns(Keys.DelayKey(due, n)) && !ScopeOf(g, groups).Owns(Keys.HalfKey(due, tx))
  {
    hide ScopeOf, RoutedTo, U64;
    OwnsExactly(Keys.DelayKey(due, n), 0, groups);
    OwnsExactly(Keys.HalfKey(due, tx), 0, groups);
    GlobalOrQueue(Keys.DelayKey(due, n), g, groups);
    GlobalOrQueue(Keys.HalfKey(due, tx), g, groups);
    assert Keys.DELAY <= Keys.DelayKey(due, n) && Keys.HALF <= Keys.HalfKey(due, tx);
  }

  /** No key of the global families is any data group's, and no queue key is group 0's. */
  lemma GlobalOrQueue(k: Bytes, g: nat, groups: nat)
    requires groups > 0 && g > 0
    ensures GlobalKey(k) ==> !ScopeOf(g, groups).Owns(k)
    ensures QueueKey(k) ==> !ScopeOf(0, groups).Owns(k)
  {
    hide ScopeOf, RoutedTo;
    OwnsExactly(k, g, groups);
    OwnsExactly(k, 0, groups);
    RoutedIsQueue(k, g, groups);
    if GlobalKey(k) {
      GlobalNotQueue(k);
    }
  }

  lemma RoutedIsQueue(k: Bytes, g: nat, groups: nat)
    requires groups > 0
    ensures RoutedTo(k, g, groups) ==> QueueKey(k)
  {
    hide Keys.KeyGroupOf, RoutedTo;
    RoutedExactly(k, g, groups);
  }

  lemma GlobalNotQueue(k: Bytes)
    requires GlobalKey(k)
    ensures !QueueKey(k)
  {
    assert |k| >= 2 && (k[0] == 100 || k[0] == 104 || (k[0] == 109 && k[1] == 101));
  }

  // ----- chunk format: [4B key length][key][4B value length][value] repeated -----

  predicate Small(b: Bytes) {
    |b| < 0x1_0000_0000
  }

  predicate SmallPair(x: KV) {
    Small(x.key) && Small(x.val)
  }

  function EncodePair(x: KV): Bytes
    requires SmallPair(x)
  {
    U32(|x.key|) + x.key + (U32(|x.val|) + x.val)
  }

  function EncodeChunk(pairs: seq<KV>): (b: Bytes)
    requires forall i :: 0 <= i < |pairs| ==> SmallPair(pairs[i])
  {
    if pairs == [] then [] else EncodePair(pairs[0]) + EncodeChunk(pairs[1..])
  }

  lemma {:induction false} EncodeChunkSnoc(pairs: seq<KV>, x: KV)
    requires forall i :: 0 <= i < |pairs| ==> SmallPair(pairs[i])
    requires SmallPair(x)
    ensures EncodeChunk(pairs + [x]) == EncodeChunk(pairs) + EncodePair(x)
  {
    hide EncodePair;
    if pairs == [] {
      assert EncodeChunk([x]) == EncodePair(x) + EncodeChunk([]);
    } else {
      EncodeChunkSnoc(pairs[1..], x);
      assert (pairs + [x])[1..] == pairs[1..] + [x];
    }
  }

  /** What the budget counts is what goes over the wire. */
  lemma {:induction false} ChunkBytesAreBytes(pairs: seq<KV>)
    requires forall i :: 0 <= i < |pairs| ==> SmallPair(pairs[i])
    ensures ChunkBytes(pairs) == |EncodeChunk(pairs)|
  {
    if pairs != [] {
      var n := |pairs| - 1;
      ChunkBytesAreBytes(pairs[..n]);
      EncodeChunkSnoc(pairs[..n], pairs[n]);
      assert pairs == pairs[..n] + [pairs[n]];
    }
  }

  /** One length-prefixed field; None when the buffer is cut short. */
  function TakeField(b: Bytes): (r: Option<(Bytes, Bytes)>)
    ensures r.Some? ==> |r.value.1| < |b| && Small(r.value.0) && b == U32(|r.value.0|) + r.value.0 + r.value.1
  {
    if |b| < 4 then None
    else
      var n := ReadU32(b[..4]);
      if |b| - 4 < n then None
      else
        FromBERoundTrip(b[..4]);
        assert b == b[..4] + b[4..4 + n] + b[4 + n..];
        Some((b[4..4 + n], b[4 + n..]))
  }

  lemma TakeFieldOf(f: Bytes, rest: Bytes)
    requires Small(f)
    ensures TakeField(U32(|f|) + f + rest) == Some((f, rest))
  {
    U32RoundTrip(|f|);
    var b := U32(|f|) + f + rest;
    assert b[..4] == U32(|f|) && b[4..4 + |f|] == f && b[4 + |f|..] == rest;
  }

  /** What a chunk holds; None as soon as a length runs past the end. */
  function DecodeChunk(b: Bytes): (r: Option<seq<KV>>)
    decreases |b|
  {
    if b == [] then Some([])
    else match TakeField(b)
         case None => None
         case Some((k, b1)) =>
           match TakeField(b1)
           case None => None
           case Some((v, b2)) =>
             Prepend([KV(k, v)], DecodeChunk(b2))
  }

  function Prepend(s: seq<KV>, r: Option<seq<KV>>): Option<seq<KV>> {
    match r
    case None => None
    case Some(rest) => Some(s + rest)
  }

  lemma PrependSnoc(s: seq<KV>, x: KV, r: Option<seq<KV>>)
    ensures Prepend(s, Prepend([x], r)) == Prepend(s + [x], r)
  {
    if r.Some? {
      assert s + ([x] + r.value) == s + [x] + r.value;
    }
  }

  /** Decoding the buffer as the receiver does, field by field from the front. */
  method ComputeDecodeChunk(buf: Bytes) returns (r: Option<seq<KV>>)
    ensures r == DecodeChunk(buf)
  {
    hide TakeField;
    var out: seq<KV> := [];
    var b := buf;
    assert forall rest: seq<KV> :: [] + rest == rest;
    while b != []
      invariant DecodeChunk(buf) == Prepend(out, DecodeChunk(b))
      decreases |b|
    {
      var f1 := TakeField(b);
      if f1 == None {
        return None;
      }
      var f2 := TakeField(f1.value.1);
      if f2 == None {
        return None;
      }
      PrependSnoc(out, KV(f1.value.0, f2.value.0), DecodeChunk(f2.value.1));
      out := out + [KV(f1.value.0, f2.value.0)];
      b := f2.value.1;
    }
    assert out + [] == out;
    return Some(out);
  }

  lemma DecodePair(x: KV, rest: Bytes)
    requires SmallPair(x)
    ensures DecodeChunk(EncodePair(x) + rest) == Prepend([x], DecodeChunk(rest))
  {
    hide TakeField, U32;
    var b1 := U32(|x.val|) + x.val + rest;
    TakeFieldOf(x.key, b1);
    TakeFieldOf(x.val, rest);
    assert EncodePair(x) + rest == U32(|x.key|) + x.key + b1;
  }

  lemma {:induction false} DecodeEncodeChunk(pairs: seq<KV>)
    requires forall i :: 0 <= i < |pairs| ==> SmallPair(pairs[i])
    ensures DecodeChunk(EncodeChunk(pairs)) == Some(pairs)
  {
    hide EncodePair;
    if pairs != [] {
      DecodeEncodeChunk(pairs[1..]);
      DecodePair(pairs[0], EncodeChunk(pairs[1..]));
      assert [pairs[0]] + pairs[1..] == pairs;
    }
  }

  lemma EncodePairOf(k: Bytes, v: Bytes)
    requires SmallPair(KV(k, v))
    ensures EncodePair(KV(k, v)) == U32(|k|) + k + (U32(|v|) + v)
  {
  }

  /** A chunk that decodes is the encoding of what was read: nothing is silently dropped. */
  lemma {:induction false} EncodeDecodeChunk(b: Bytes)
    requires DecodeChunk(b).Some?
    ensures forall i :: 0 <= i < |DecodeChunk(b).value| ==> SmallPair(DecodeChunk(b).value[i])
    ensures EncodeChunk(DecodeChunk(b).value) == b
    decreases |b|
  {
    hide TakeField, U32, EncodePair;
    if b != [] {
      var (k, b1) := TakeField(b).value;
      var (v, b2) := TakeField(b1).value;
      EncodeDecodeChunk(b2);
      var rest := DecodeChunk(b2).value;
      assert ([KV(k, v)] + rest)[1..] == rest;
      assert EncodeChunk([KV(k, v)] + rest) == EncodePair(KV(k, v)) + EncodeChunk(rest);
      EncodePairOf(k, v);
      assert b == U32(|k|) + k + (U32(|v|) + v + b2);
      assert (U32(|k|) + k + (U32(|v|) + v)) + b2 == b;
    }
  }

  /** Where everything stands in a chunk: both lengths in front of what they count, keys before values. */
  lemma ChunkLayout(pairs: seq<KV>)
    requires pairs != []
    requires forall i :: 0 <= i < |pairs| ==> |pairs[i].key| < 0x1_0000_0000 && |pairs[i].val| < 0x1_0000_0000
    ensures forall i :: 0 <= i < |pairs| ==> SmallPair(pairs[i])
    ensures EncodeChunk([]) == []
    ensures var (b, k, v) := (EncodeChunk(pairs), |pairs[0].key|, |pairs[0].val|);
            && |b| >= 8 + k + v && b[8 + k + v..] == EncodeChunk(pairs[1..])
            && b[..4] == BE(k, 4) && b[4..4 + k] == pairs[0].key
            && b[4 + k..8 + k] == BE(v, 4) && b[8 + k..8 + k + v] == pairs[0].val
  {
    hide BE, EncodePair;
    EncodePairOf(pairs[0].key, pairs[0].val);
    FourParts(BE(|pairs[0].key|, 4), pairs[0].key, BE(|pairs[0].val|, 4), pairs[0].val, EncodeChunk(pairs[1..]));
  }

  lemma FourParts(a: Bytes, k: Bytes, b: Bytes, v: Bytes, rest: Bytes)
    requires |a| == 4 == |b|
    ensures var s := a + k + (b + v) + rest;
            && s[..4] == a && s[4..4 + |k|] == k && s[4 + |k|..8 + |k|] == b && s[8 + |k|..8 + |k| + |v|] == v
            && s[8 + |k| + |v|..] == rest
  {
  }

  // ----- request: [4B group][8B snapshot id][4B cursor length][cursor] -----

  datatype FetchReq = FetchReq(g: u32, id: u64, cursor: Bytes)

  function EncodeReq(r: FetchReq): Bytes
    requires Small(r.cursor)
  {
    U32(r.g) + (U64(r.id) + (U32(|r.cursor|) + r.cursor))
  }

  function DecodeReq(b: Bytes): Option<FetchReq> {
    if |b| < 16 then None
    else
      var n := ReadU32(b[12..16]);
      if |b| - 16 < n then None
      else Some(FetchReq(ReadU32(b[..4]), ReadU64(b[4..12]), b[16..16 + n]))
  }

  lemma DecodeEncodeReq(r: FetchReq)
    requires Small(r.cursor)
    ensures DecodeReq(EncodeReq(r)) == Some(r)
  {
    U32RoundTrip(r.g);
    U64RoundTrip(r.id);
    U32RoundTrip(|r.cursor|);
    var b := EncodeReq(r);
    assert b[..4] == U32(r.g) && b[4..12] == U64(r.id) && b[12..16] == U32(|r.cursor|);
    assert b[16..16 + |r.cursor|] == r.cursor;
  }

  lemma ReqLayout(r: FetchReq)
    requires |r.cursor| < 0x1_0000_0000
    ensures Small(r.cursor)
    ensures var b := EncodeReq(r);
            && |b| == 16 + |r.cursor| && b[..4] == BE(r.g, 4) && b[4..12] == BE(r.id, 8)
            && b[12..16] == BE(|r.cursor|, 4) && b[16..] == r.cursor
  {
    hide BE;
    assert EncodeReq(r) == BE(r.g, 4) + (BE(r.id, 8) + (BE(|r.cursor|, 4) + r.cursor));
  }

  // ----- response: [1B done][4B next cursor length][next cursor][chunk] -----

  datatype FetchResp = FetchResp(done: bool, next: Bytes, chunk: Bytes)

  function EncodeResp(r: FetchResp): Bytes
    requires Small(r.next)
  {
    [if r.done then 1 else 0] + (U32(|r.next|) + r.next + r.chunk)
  }

  function DecodeResp(b: Bytes): Option<FetchResp> {
    if |b| < 5 then None
    else match TakeField(b[1..])
         case None => None
         case Some((next, chunk)) => Some(FetchResp(b[0] == 1, next, chunk))
  }

  lemma DecodeEncodeResp(r: FetchResp)
    requires Small(r.next)
    ensures DecodeResp(EncodeResp(r)) == Some(r)
  {
    TakeFieldOf(r.next, r.chunk);
    assert EncodeResp(r)[1..] == U32(|r.next|) + r.next + r.chunk;
  }

  lemma RespLayout(r: FetchResp)
    requires |r.next| < 0x1_0000_0000
    ensures Small(r.next)
    ensures var (b, n) := (EncodeResp(r), |r.next|);
            && |b| == 5 + n + |r.chunk| && b[0] == (if r.done then 1 else 0) && b[1..5] == BE(n, 4)
            && b[5..5 + n] == r.next && b[5 + n..] == r.chunk
  {
    hide BE;
    assert EncodeResp(r) == [if r.done then 1 else 0] + (BE(|r.next|, 4) + r.next + r.chunk);
  }

  // ----- the fetch handler -----

  const SNAPSHOT_CHUNK_KEYS := 1048576
  const MAX_SNAPSHOT_CHUNKS := 65536
  const MAX_SNAPSHOT_BYTES := 274877906944

  ghost predicate GoodView(view: seq<KV>) {
    Sorted(view) && forall i :: 0 <= i < |view| ==> SmallPair(view[i])
  }

  /** Serve one chunk of a pinned view. None stands for any error reply. */
  method HandleFetchSnapshot(views: map<u64, seq<KV>>, groups: u32, chunkBytes: int, payload: Bytes)
    returns (resp: Option<Bytes>)
    requires groups > 0
    requires forall id :: id in views ==> GoodView(views[id])
    ensures resp.Some? ==> DecodeReq(payload).Some?
    ensures resp.Some? ==>
              var req := DecodeReq(payload).value;
              && req.id in views && req.g <= groups
              && DecodeResp(resp.value).Some?
              && Serves(views[req.id], ScopeOf(req.g, groups), req.cursor, DecodeResp(resp.value).value)
              && WithinBudget(DecodeResp(resp.value).value, chunkBytes)
    ensures resp == None && DecodeReq(payload).Some? ==>
              var req := DecodeReq(payload).value;
              req.id in views && req.g <= groups ==> !Routable(views[req.id], ScopeOf(req.g, groups))
  {
    hide Scan.Select, ScopeOf, ChunkBytes, DecodeReq, DecodeResp, EncodeResp, EncodeChunk, DecodeChunk, SmallPair;
    hide Sorted, U32, U64;
    var req := DecodeReq(payload);
    if req == None || req.value.g > groups || req.value.id !in views {
      return None;
    }
    var FetchReq(g, id, cursor) := req.value;
    var view, sc := views[id], ScopeOf(g, groups);
    ScopeAscends(g, groups);
    var pairs, last, done, end := ScanGroupKeys(view, sc, Some(cursor), SNAPSHOT_CHUNK_KEYS, chunkBytes);
    if end.BadKey? || end == BadBudget {
      return None;
    }
    ChunkIsSmall(view, sc, Some(cursor), pairs);
    NextIsSmall(pairs);
    var r := FetchResp(done, last, EncodeChunk(pairs));
    DecodeEncodeResp(r);
    DecodeEncodeChunk(pairs);
    ServedWithin(pairs, done, last, Scan.Select(view, sc, Some(cursor)), chunkBytes);
    return Some(EncodeResp(r));
  }

  /**
   * A chunk is no larger than the budgets want: without its last pair it is below both, and one that is not the last
   * reached one of them.
   */
  ghost predicate WithinBudget(r: FetchResp, chunkBytes: int) {
    match DecodeChunk(r.chunk)
    case None => false
    case Some(pairs) =>
      && |pairs| <= 1_048_576
      && (!r.done ==> |pairs| == 1_048_576 || |r.chunk| >= chunkBytes)
      && (|pairs| > 1 ==> ChunkBytes(pairs[..|pairs| - 1]) < chunkBytes)
  }

  lemma {:induction false} ServedWithin(pairs: seq<KV>, done: bool, last: Bytes, left: seq<KV>, chunkBytes: int)
    requires forall i :: 0 <= i < |pairs| ==> SmallPair(pairs[i])
    requires !done ==> Cut(pairs, last, left, SNAPSHOT_CHUNK_KEYS, chunkBytes)
    requires done && pairs != [] ==> |pairs| < SNAPSHOT_CHUNK_KEYS && ChunkBytes(pairs) < chunkBytes
    ensures WithinBudget(FetchResp(done, last, EncodeChunk(pairs)), chunkBytes)
  {
    hide SmallPair, EncodeChunk, DecodeChunk, ChunkBytes, LastKey, Cut;
    DecodeEncodeChunk(pairs);
    ChunkBytesAreBytes(pairs);
    CutBytes(pairs, done, last, left, chunkBytes);
  }

  lemma {:induction false} CutBytes(pairs: seq<KV>, done: bool, last: Bytes, left: seq<KV>, chunkBytes: int)
    requires !done ==> Cut(pairs, last, left, SNAPSHOT_CHUNK_KEYS, chunkBytes)
    requires done && pairs != [] ==> |pairs| < SNAPSHOT_CHUNK_KEYS && ChunkBytes(pairs) < chunkBytes
    ensures |pairs| <= 1_048_576 && (!done ==> |pairs| == 1_048_576 || ChunkBytes(pairs) >= chunkBytes)
    ensures |pairs| > 1 ==> ChunkBytes(pairs[..|pairs| - 1]) < chunkBytes
  {
    hide LastKey;
  }

  lemma ChunkIsSmall(view: seq<KV>, sc: Scope, from: Option<Bytes>, pairs: seq<KV>)
    requires GoodView(view) && pairs <= Select(view, sc, from)
    ensures forall i :: 0 <= i < |pairs| ==> SmallPair(pairs[i])
  {
    forall i | 0 <= i < |pairs|
      ensures SmallPair(pairs[i])
    {
      SelectMembers(view, sc, from, Select(view, sc, from)[i]);
    }
  }

  lemma NextIsSmall(pairs: seq<KV>)
    requires forall i :: 0 <= i < |pairs| ==> SmallPair(pairs[i])
    ensures Small(LastKey(pairs))
  {
  }

  /** No key of the group's families is unparseable; holds for every store written through the key builders. */
  ghost predicate Routable(view: seq<KV>, sc: Scope) {
    forall k :: !Unroutable(view, sc, k)
  }

  /**
   * The reply carries a prefix of what is left after the cursor: all of it when done, otherwise at least one pair and
   * its last key.
   */
  ghost predicate Serves(view: seq<KV>, sc: Scope, cursor: Bytes, r: FetchResp) {
    var left := Select(view, sc, Some(cursor));
    match DecodeChunk(r.chunk)
    case None => false
    case Some(pairs) =>
      && pairs <= left
      && (r.done ==> pairs == left)
      && (!r.done ==> pairs != []) && r.next == LastKey(pairs)
  }

  // ----- the pull loop -----

  datatype PullEnd = Pulled | TooManyChunks | TooManyBytes | FetchFailed | BadReply | CursorStuck

  /** Chunks in arrival order; one NoSync batch each. */
  function Concat(chunks: seq<seq<KV>>): seq<KV> {
    if chunks == [] then [] else Concat(chunks[..|chunks| - 1]) + chunks[|chunks| - 1]
  }

  function TotalBytes(chunks: seq<seq<KV>>): nat {
    if chunks == [] then 0 else TotalBytes(chunks[..|chunks| - 1]) + ChunkBytes(chunks[|chunks| - 1])
  }

  datatype Fetched = Got(pairs: seq<KV>, done: bool, next: Bytes) | Failed(end: PullEnd)

  /** One round trip of the pull loop: encode the cursor, fetch, decode, and check that the cursor moved. */
  method FetchChunk(views: map<u64, seq<KV>>, groups: u32, chunkBytes: int, g: u32, id: u64, cursor: Option<Bytes>,
                    down: bool)
    returns (r: Fetched)
    requires groups > 0 && g <= groups && (cursor.Some? ==> Small(cursor.value))
    requires forall v :: v in views ==> GoodView(views[v])
    ensures r.Got? ==> id in views && Fits(views[id], ScopeOf(g, groups), cursor, r)
    ensures r.Failed? ==> r.end == FetchFailed
    ensures down ==> r.Failed?
    ensures r.Failed? && !down && id in views ==> !Routable(views[id], ScopeOf(g, groups))
  {
    hide Scan.Select, ScopeOf, DecodeReq, DecodeResp, EncodeReq, DecodeChunk, Sorted, Unroutable, SmallPair, Lt;
    if down {
      return Failed(FetchFailed);
    }
    var c := if cursor.Some? then cursor.value else [];
    DecodeEncodeReq(FetchReq(g, id, c));
    var raw := HandleFetchSnapshot(views, groups, chunkBytes, EncodeReq(FetchReq(g, id, c)));
    if raw == None {
      return Failed(FetchFailed);
    }
    ghost var view, sc := views[id], ScopeOf(g, groups);
    FirstCursor(view, g, groups, cursor);
    var resp := DecodeResp(raw.value);
    if resp == None {
      return Failed(BadReply);
    }
    var FetchResp(done, next, chunk) := resp.value;
    if !done && cursor.Some? {
      CursorAdvances(view, sc, cursor, next, DecodeChunk(chunk).value);
      if Le(next, cursor.value) {
        return Failed(CursorStuck);
      }
    }
    var pairs := ComputeDecodeChunk(chunk);
    if pairs == None {
      return Failed(BadReply);
    }
    ChunkIsSmall(view, sc, cursor, pairs.value);
    NextIsSmall(pairs.value);
    return Got(pairs.value, done, next);
  }

  /** The first request carries a cursor of zero bytes; it means the same as no cursor. */
  lemma FirstCursor(view: seq<KV>, g: nat, groups: nat, cursor: Option<Bytes>)
    requires groups > 0
    ensures var c := if cursor.Some? then cursor.value else [];
            Select(view, ScopeOf(g, groups), Some(c)) == Select(view, ScopeOf(g, groups), cursor)
  {
    ScopeAscends(g, groups);
    SelectFromEmptyCursor(view, ScopeOf(g, groups));
  }

  /** What one successful round trip brings, in terms of what is still missing after the cursor. */
  ghost predicate Fits(view: seq<KV>, sc: Scope, cursor: Option<Bytes>, r: Fetched)
    requires r.Got?
  {
    var left := Select(view, sc, cursor);
    && r.pairs <= left
    && (r.done ==> r.pairs == left)
    && (!r.done ==> Small(r.next) && r.pairs != [] && r.next == LastKey(r.pairs))
  }

  lemma NoBytes()
    ensures ChunkBytes([]) == 0
  {
  }

  lemma ConcatSnoc(chunks: seq<seq<KV>>, c: seq<KV>)
    ensures Concat(chunks + [c]) == Concat(chunks) + c
    ensures TotalBytes(chunks + [c]) == TotalBytes(chunks) + ChunkBytes(c)
  {
    assert (chunks + [c])[..|chunks|] == chunks;
  }

  /** The chunks so far and what is left after the cursor make up the sender's keys of the group. */
  ghost predicate Pulling(chunks: seq<seq<KV>>, view: seq<KV>, sc: Scope, cursor: Option<Bytes>) {
    && Concat(chunks) + Select(view, sc, cursor) == Select(view, sc, None)
    && |chunks| <= |Concat(chunks)|
  }

  lemma PullStep(chunks: seq<seq<KV>>, view: seq<KV>, sc: Scope, cursor: Option<Bytes>, r: Fetched)
    requires Sorted(view) && Pulling(chunks, view, sc, cursor) && r.Got? && Fits(view, sc, cursor, r)
    ensures TotalBytes(chunks + [r.pairs]) == TotalBytes(chunks) + ChunkBytes(r.pairs)
    ensures Concat(chunks + [r.pairs]) <= Select(view, sc, None)
    ensures r.done ==> Concat(chunks + [r.pairs]) == Select(view, sc, None)
    ensures !r.done ==> Pulling(chunks + [r.pairs], view, sc, Some(r.next))
  {
    hide Scan.Select;
    var left := Select(view, sc, cursor);
    ConcatSnoc(chunks, r.pairs);
    assert left == r.pairs + left[|r.pairs|..];
    if !r.done {
      SelectResume(view, sc, cursor, |r.pairs|);
    }
  }

  /**
   * Pull a snapshot from the node that holds the view. `down` lists the requests the network loses.
   * Success means the chunks are exactly the sender's keys of the group, in order, each once.
   */
  method PullSnapshotChunks(views: map<u64, seq<KV>>, groups: u32, chunkBytes: int, g: u32, id: u64, down: set<nat>)
    returns (chunks: seq<seq<KV>>, end: PullEnd)
    requires groups > 0 && g <= groups
    requires forall v :: v in views ==> GoodView(views[v])
    ensures id !in views ==> chunks == [] && end == FetchFailed
    ensures id in views ==> Concat(chunks) <= Select(views[id], ScopeOf(g, groups), None)
    ensures end == Pulled ==> id in views && Concat(chunks) == Select(views[id], ScopeOf(g, groups), None)
    ensures end == Pulled ==> forall x :: x in Concat(chunks) <==> x in views[id] && Belongs(x.key, g, groups)
    ensures end == Pulled ==> Sorted(Concat(chunks))
    ensures end == Pulled ==> |chunks| <= 65_536 && TotalBytes(chunks) <= 274_877_906_944
    ensures end == Pulled ==> forall t :: 1 <= t <= |chunks| ==> t !in down
    ensures end == TooManyChunks ==> id in views && |Select(views[id], ScopeOf(g, groups), None)| >= 65_536
    ensures end == TooManyBytes ==>
              id in views && ChunkBytes(Select(views[id], ScopeOf(g, groups), None)) > 274_877_906_944
    ensures end != CursorStuck && end != BadReply
    ensures end == FetchFailed && id in views && down == {} ==> !Routable(views[id], ScopeOf(g, groups))
  {
    hide Scan.Select, ScopeOf, ChunkBytes, Fits, Concat, Routable, TotalBytes, Belongs, Sorted, SmallPair, Small;
    chunks := [];
    var cursor: Option<Bytes> := None;
    var nbytes, tries := 0, 0;
    ghost var sc := ScopeOf(g, groups);
    ghost var view := if id in views then views[id] else [];
    PullStart(view, sc);
    while true
      invariant tries == |chunks| <= MAX_SNAPSHOT_CHUNKS && nbytes == TotalBytes(chunks)
      invariant cursor.Some? ==> Small(cursor.value)
      invariant Pulling(chunks, view, sc, cursor)
      invariant id !in views ==> chunks == []
      invariant nbytes <= MAX_SNAPSHOT_BYTES
      invariant forall t :: 1 <= t <= |chunks| ==> t !in down
      decreases MAX_SNAPSHOT_CHUNKS - tries
    {
      tries := tries + 1;
      if tries > MAX_SNAPSHOT_CHUNKS {
        return chunks, TooManyChunks;
      }
      var r := FetchChunk(views, groups, chunkBytes, g, id, cursor, tries in down);
      if r.Failed? {
        return chunks, r.end;
      }
      PullStep(chunks, view, sc, cursor, r);
      NextFits(view, sc, cursor, r);
      chunks := chunks + [r.pairs];
      nbytes := nbytes + ChunkBytes(r.pairs);
      NoBytes();
      if r.pairs != [] && nbytes > MAX_SNAPSHOT_BYTES {
        TotalWithin(chunks, Select(view, sc, None));
        return chunks, TooManyBytes;
      }
      if r.done {
        PulledKeys(view, g, groups);
        return chunks, Pulled;
      }
      cursor := Some(r.next);
    }
  }

  lemma {:induction false} TotalIsConcat(chunks: seq<seq<KV>>)
    ensures TotalBytes(chunks) == ChunkBytes(Concat(chunks))
  {
    if chunks != [] {
      var n := |chunks| - 1;
      TotalIsConcat(chunks[..n]);
      BytesConcat(Concat(chunks[..n]), chunks[n]);
    }
  }

  lemma {:induction false} BytesConcat(a: seq<KV>, b: seq<KV>)
    ensures ChunkBytes(a + b) == ChunkBytes(a) + ChunkBytes(b)
  {
    if b == [] {
      assert a + b == a;
    } else {
      BytesConcat(a, b[..|b| - 1]);
      assert (a + b)[..|a + b| - 1] == a + b[..|b| - 1];
    }
  }

  lemma TotalWithin(chunks: seq<seq<KV>>, all: seq<KV>)
    requires Concat(chunks) <= all
    ensures TotalBytes(chunks) <= ChunkBytes(all)
  {
    hide ChunkBytes;
    TotalIsConcat(chunks);
    var c := Concat(chunks);
    BytesConcat(c, all[|c|..]);
    assert all == c + all[|c|..];
  }

  lemma PulledKeys(view: seq<KV>, g: nat, groups: nat)
    requires groups > 0 && Sorted(view)
    ensures forall x :: x in Select(view, ScopeOf(g, groups), None) <==> x in view && Belongs(x.key, g, groups)
    ensures Sorted(Select(view, ScopeOf(g, groups), None))
  {
    hide Select, ScopeOf, Belongs, Sorted;
    forall x
      ensures x in Select(view, ScopeOf(g, groups), None) <==> x in view && Belongs(x.key, g, groups)
    {
      SelectMembers(view, ScopeOf(g, groups), None, x);
      OwnsExactly(x.key, g, groups);
    }
    SelectSorted(view, ScopeOf(g, groups), None);
  }

  lemma PullStart(view: seq<KV>, sc: Scope)
    ensures Pulling([], view, sc, None)
    ensures TotalBytes([]) == 0
  {
    assert [] + Select(view, sc, None) == Select(view, sc, None);
  }

  lemma NextFits(view: seq<KV>, sc: Scope, cursor: Option<Bytes>, r: Fetched)
    requires r.Got? && Fits(view, sc, cursor, r)
    ensures !r.done ==> Small(r.next)
  {
  }

  /** The receiver's guard against a cursor that does not move never fires against this sender. */
  lemma CursorAdvances(view: seq<KV>, sc: Scope, cursor: Option<Bytes>, next: Bytes, pairs: seq<KV>)
    requires cursor.Some? && pairs != [] && pairs <= Select(view, sc, cursor) && next == LastKey(pairs)
    ensures !Le(next, cursor.value)
  {
    SelectMembers(view, sc, cursor, Select(view, sc, cursor)[|pairs| - 1]);
    LtAsymmetric(cursor.value, next);
  }
}
