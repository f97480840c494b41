/** The key schema of the store and the routing of data keys to raft groups. */
module Keys {
  import opened Bytes

  // Key family prefixes, as bytes.
  const MSG: Bytes := [109, 115, 103, 47]                                 // msg/
  const ALLOC: Bytes := [97, 108, 108, 111, 99, 47]                       // alloc/
  const CURSOR: Bytes := [99, 117, 114, 115, 111, 114, 47]                // cursor/
  const INFLIGHT: Bytes := [105, 110, 102, 108, 105, 103, 104, 116, 47]   // inflight/
  const KEYIDX: Bytes := [107, 101, 121, 105, 100, 120, 47]               // keyidx/
  const DELAY: Bytes := [100, 101, 108, 97, 121, 47]                      // delay/
  const DELAYALLOC: Bytes := [100, 101, 108, 97, 121, 97, 108, 108, 111, 99] // delayalloc
  const HALF: Bytes := [104, 97, 108, 102, 47]                            // half/
  const HALFIDX: Bytes := [104, 97, 108, 102, 105, 100, 120, 47]          // halfidx/
  const META: Bytes := [109, 101, 116, 97, 47]                            // meta/

  const SEP: Bytes := [SLASH]

  /** Topic and group names never contain the separator. */
  predicate Name(n: Bytes) {
    SLASH !in n
  }

  datatype QueueId = QueueId(topic: Bytes, queue: u32)

  /** A data key in decoded form; every data key belongs to one queue. */
  datatype DataKey =
    | Msg(topic: Bytes, queue: u32, offset: u64)
    | Alloc(topic: Bytes, queue: u32)
    | Cursor(group: Bytes, topic: Bytes, queue: u32)
    | Inflight(group: Bytes, topic: Bytes, queue: u32, offset: u64)
    | KeyIdx(topic: Bytes, key: Bytes, storeMs: u64, queue: u32, offset: u64)
  {
    /** Names are free of separators; the business key of KeyIdx is arbitrary. */
    predicate Valid() {
      Name(topic) && ((Cursor? || Inflight?) ==> Name(group))
    }

    function Queue(): QueueId { QueueId(topic, queue) }

    /** The key builders. */
    function Encode(): (k: Bytes) {
      match this
      case Msg(t, q, o) => MSG + (t + SEP + (U32(q) + U64(o)))
      case Alloc(t, q) => ALLOC + (t + SEP + U32(q))
      case Cursor(g, t, q) => CURSOR + (g + SEP + (t + SEP + U32(q)))
      case Inflight(g, t, q, o) => INFLIGHT + (g + SEP + (t + SEP + (U32(q) + U64(o))))
      case KeyIdx(t, key, ms, q, o) => KEYIDX + (t + SEP + (key + SEP + (U64(ms) + U32(q) + U64(o))))
    }
  }

  function CutPrefix(k: Bytes, p: Bytes): (r: Option<Bytes>)
    ensures r.Some? <==> HasPrefix(k, p)
    ensures r.Some? ==> k == p + r.value
  {
    if HasPrefix(k, p) then Some(k[|p|..]) else None
  }

  /** A name up to the first separator and exactly `tail` bytes after it. */
  function SplitTail(rest: Bytes, tail: nat): (r: Option<(Bytes, Bytes)>)
    ensures r.Some? ==> Name(r.value.0) && |r.value.1| == tail && rest == r.value.0 + SEP + r.value.1
  {
    var i := IndexOf(rest, SLASH);
    if i == |rest| || |rest| - i - 1 != tail then None
    else
      assert rest == rest[..i] + SEP + rest[i + 1..];
      Some((rest[..i], rest[i + 1..]))
  }

  /** A name up to the first separator and everything after it. */
  function SplitName(rest: Bytes): (r: Option<(Bytes, Bytes)>)
    ensures r.Some? ==> Name(r.value.0) && rest == r.value.0 + SEP + r.value.1
  {
    var i := IndexOf(rest, SLASH);
    if i == |rest| then None
    else
      assert rest == rest[..i] + SEP + rest[i + 1..];
      Some((rest[..i], rest[i + 1..]))
  }

  function ParseMsg(k: Bytes): (r: Option<DataKey>)
    ensures r.Some? ==> r.value.Msg?
  {
    match CutPrefix(k, MSG)
    case None => None
    case Some(rest) =>
      match SplitTail(rest, 12)
      case None => None
      case Some((topic, bin)) => Some(Msg(topic, ReadU32(bin[..4]), ReadU64(bin[4..])))
  }

  function ParseAlloc(k: Bytes): (r: Option<DataKey>)
    ensures r.Some? ==> r.value.Alloc?
  {
    match CutPrefix(k, ALLOC)
    case None => None
    case Some(rest) =>
      match SplitTail(rest, 4)
      case None => None
      case Some((topic, bin)) => Some(Alloc(topic, ReadU32(bin)))
  }

  function ParseCursor(k: Bytes): (r: Option<DataKey>)
    ensures r.Some? ==> r.value.Cursor?
  {
    match CutPrefix(k, CURSOR)
    case None => None
    case Some(rest) =>
      match SplitName(rest)
      case None => None
      case Some((group, rest2)) =>
        match SplitTail(rest2, 4)
        case None => None
        case Some((topic, bin)) => Some(Cursor(group, topic, ReadU32(bin)))
  }

  function ParseInflight(k: Bytes): (r: Option<DataKey>)
    ensures r.Some? ==> r.value.Inflight?
  {
    match CutPrefix(k, INFLIGHT)
    case None => None
    case Some(rest) =>
      match SplitName(rest)
      case None => None
      case Some((group, rest2)) =>
        match SplitTail(rest2, 12)
        case None => None
        case Some((topic, bin)) => Some(Inflight(group, topic, ReadU32(bin[..4]), ReadU64(bin[4..])))
  }

  /** The business key may contain separators, so the fixed-width tail is located from the end. */
  function ParseKeyIdx(k: Bytes): (r: Option<DataKey>)
    ensures r.Some? ==> r.value.KeyIdx?
  {
    match CutPrefix(k, KEYIDX)
    case None => None
    case Some(rest) =>
      match SplitName(rest)
      case None => None
      case Some((topic, rest2)) =>
        if |rest2| < 21 || rest2[|rest2| - 21] != SLASH then None
        else
          var bin := rest2[|rest2| - 20..];
          Some(KeyIdx(topic, rest2[..|rest2| - 21], ReadU64(bin[..8]), ReadU32(bin[8..12]), ReadU64(bin[12..])))
  }

  /** Dispatch on the key family, as the snapshot scan does. None is a key the scan must not skip over. */
  function Parse(k: Bytes): (r: Option<DataKey>) {
    if HasPrefix(k, MSG) then ParseMsg(k)
    else if HasPrefix(k, ALLOC) then ParseAlloc(k)
    else if HasPrefix(k, KEYIDX) then ParseKeyIdx(k)
    else if HasPrefix(k, CURSOR) then ParseCursor(k)
    else if HasPrefix(k, INFLIGHT) then ParseInflight(k)
    else None
  }

  lemma SplitOf(name: Bytes, tail: Bytes)
    requires Name(name)
    ensures SplitTail(name + SEP + tail, |tail|) == Some((name, tail))
    ensures SplitName(name + SEP + tail) == Some((name, tail))
  {
    var rest := name + SEP + tail;
    IndexOfAfter(name, SLASH, tail);
    assert rest[..|name|] == name && rest[|name| + 1..] == tail;
  }

  lemma Ints(q: u32, o: u64)
    ensures var bin := U32(q) + U64(o);
            |bin| == 12 && ReadU32(bin[..4]) == q && ReadU64(bin[4..]) == o
  {
    U32RoundTrip(q);
    U64RoundTrip(o);
    var bin := U32(q) + U64(o);
    assert bin[..4] == U32(q) && bin[4..] == U64(o);
  }

  lemma Dispatch(k: Bytes)
    ensures HasPrefix(k, MSG) ==> Parse(k) == ParseMsg(k)
    ensures HasPrefix(k, ALLOC) ==> Parse(k) == ParseAlloc(k)
    ensures HasPrefix(k, KEYIDX) ==> Parse(k) == ParseKeyIdx(k)
    ensures HasPrefix(k, CURSOR) ==> Parse(k) == ParseCursor(k)
    ensures HasPrefix(k, INFLIGHT) ==> Parse(k) == ParseInflight(k)
  {
    if k != [] {
      var c := k[0];
      assert MSG[0] == 109 && ALLOC[0] == 97 && KEYIDX[0] == 107 && CURSOR[0] == 99 && INFLIGHT[0] == 105;
    }
  }

  /** Every builder is undone by the family dispatch and its parser, for separator-free names. */
  lemma ParseEncode(d: DataKey)
    requires d.Valid()
    ensures Parse(d.Encode()) == Some(d)
  {
    Dispatch(d.Encode());
    match d {
      case Msg(t, q, o) => ParseEncodeMsg(t, q, o);
      case Alloc(t, q) => ParseEncodeAlloc(t, q);
      case Cursor(g, t, q) => ParseEncodeCursor(g, t, q);
      case Inflight(g, t, q, o) => ParseEncodeInflight(g, t, q, o);
      case KeyIdx(t, key, ms, q, o) => ParseEncodeKeyIdx(t, key, ms, q, o);
    }
  }

  lemma ParseEncodeMsg(t: Bytes, q: u32, o: u64)
    requires Name(t)
    ensures ParseMsg(Msg(t, q, o).Encode()) == Some(Msg(t, q, o))
  {
    var bin := U32(q) + U64(o);
    SplitOf(t, bin);
    Ints(q, o);
    assert (MSG + (t + SEP + bin))[|MSG|..] == t + SEP + bin;
  }

  lemma ParseEncodeAlloc(t: Bytes, q: u32)
    requires Name(t)
    ensures ParseAlloc(Alloc(t, q).Encode()) == Some(Alloc(t, q))
  {
    SplitOf(t, U32(q));
    U32RoundTrip(q);
    assert (ALLOC + (t + SEP + U32(q)))[|ALLOC|..] == t + SEP + U32(q);
  }

  lemma ParseEncodeCursor(g: Bytes, t: Bytes, q: u32)
    requires Name(g) && Name(t)
    ensures ParseCursor(Cursor(g, t, q).Encode()) == Some(Cursor(g, t, q))
  {
    SplitOf(t, U32(q));
    SplitOf(g, t + SEP + U32(q));
    U32RoundTrip(q);
    assert (CURSOR + (g + SEP + (t + SEP + U32(q))))[|CURSOR|..] == g + SEP + (t + SEP + U32(q));
  }

  lemma ParseEncodeInflight(g: Bytes, t: Bytes, q: u32, o: u64)
    requires Name(g) && Name(t)
    ensures ParseInflight(Inflight(g, t, q, o).Encode()) == Some(Inflight(g, t, q, o))
  {
    var bin := U32(q) + U64(o);
    SplitOf(t, bin);
    SplitOf(g, t + SEP + bin);
    Ints(q, o);
    assert (INFLIGHT + (g + SEP + (t + SEP + bin)))[|INFLIGHT|..] == g + SEP + (t + SEP + bin);
  }

  lemma ParseEncodeKeyIdx(t: Bytes, key: Bytes, ms: u64, q: u32, o: u64)
    requires Name(t)
    ensures ParseKeyIdx(KeyIdx(t, key, ms, q, o).Encode()) == Some(KeyIdx(t, key, ms, q, o))
  {
    var k := KeyIdx(t, key, ms, q, o).Encode();
    var bin := U64(ms) + U32(q) + U64(o);
    var rest2 := key + SEP + bin;
    SplitOf(t, rest2);
    assert k[|KEYIDX|..] == t + SEP + rest2;
    assert rest2[|rest2| - 21] == SLASH;
    assert rest2[|rest2| - 20..] == bin && rest2[..|rest2| - 21] == key;
    assert bin[..8] == U64(ms) && bin[8..12] == U32(q) && bin[12..] == U64(o);
    U64RoundTrip(ms);
    U32RoundTrip(q);
    U64RoundTrip(o);
  }

  lemma IntsBack(bin: Bytes)
    requires |bin| == 12
    ensures U32(ReadU32(bin[..4])) + U64(ReadU64(bin[4..])) == bin
  {
    FromBERoundTrip(bin[..4]);
    FromBERoundTrip(bin[4..]);
  }

  /** A key the parser accepts is the encoding of what it returns: no two byte strings share a meaning. */
  lemma EncodeParse(k: Bytes)
    requires Parse(k).Some?
    ensures Parse(k).value.Valid() && Parse(k).value.Encode() == k
  {
    if HasPrefix(k, MSG) {
      var (t, bin) := SplitTail(CutPrefix(k, MSG).value, 12).value;
      IntsBack(bin);
    } else if HasPrefix(k, ALLOC) {
      var (t, bin) := SplitTail(CutPrefix(k, ALLOC).value, 4).value;
      FromBERoundTrip(bin);
    } else if HasPrefix(k, KEYIDX) {
      EncodeParseKeyIdx(k);
    } else if HasPrefix(k, CURSOR) {
      var (g, rest) := SplitName(CutPrefix(k, CURSOR).value).value;
      var (t, bin) := SplitTail(rest, 4).value;
      FromBERoundTrip(bin);
    } else {
      var (g, rest) := SplitName(CutPrefix(k, INFLIGHT).value).value;
      var (t, bin) := SplitTail(rest, 12).value;
      IntsBack(bin);
    }
  }

  lemma Back8(b: Bytes)
    requires |b| == 8
    ensures U64(ReadU64(b)) == b
  {
    FromBERoundTrip(b);
  }

  lemma Back4(b: Bytes)
    requires |b| == 4
    ensures U32(ReadU32(b)) == b
  {
    FromBERoundTrip(b);
  }

  lemma EncodeParseKeyIdx(k: Bytes)
    requires HasPrefix(k, KEYIDX) && ParseKeyIdx(k).Some?
    ensures ParseKeyIdx(k).value.Valid() && ParseKeyIdx(k).value.Encode() == k
  {
    hide U32, U64, ReadU32, ReadU64, IndexOf;
    var (t, rest) := SplitName(CutPrefix(k, KEYIDX).value).value;
    var bin := rest[|rest| - 20..];
    Back8(bin[..8]);
    Back4(bin[8..12]);
    Back8(bin[12..]);
    assert bin == bin[..8] + bin[8..12] + bin[12..];
    assert rest == rest[..|rest| - 21] + SEP + bin;
  }

  // ----- routing -----

  const META_GROUP: nat := 0

  function FnvStep(h: bv32, b: byte): bv32 {
    (h ^ (b as bv32)) * 16777619
  }

  function Fnv1a(h: bv32, s: Bytes): bv32
    decreases |s|
  {
    if s == [] then h else Fnv1a(FnvStep(h, s[0]), s[1..])
  }

  /** The data group of a queue: FNV-1a over the topic and the big-endian queue id, mapped onto 1..groups. */
  function GroupForQueue(q: QueueId, groups: nat): (g: nat)
    requires groups > 0
    ensures 1 <= g <= groups
  {
    1 + (Fnv1a(2166136261, q.topic + U32(q.queue)) as int) % groups
  }

  /** Published test vectors of 32-bit FNV-1a: "", "a" and "foo". */
  lemma FnvVectors()
    ensures Fnv1a(2166136261, []) == 0x811c9dc5
    ensures Fnv1a(2166136261, [97]) == 0xe40c292c
    ensures Fnv1a(2166136261, [102, 111, 111]) == 0xa9f37ed7
  {
    var a := FnvStep(2166136261, 102);
    var b := FnvStep(a, 111);
    assert FnvStep(b, 111) == 0xa9f37ed7;
    assert Fnv1a(b, [111]) == 0xa9f37ed7;
    assert [111, 111][1..] == [111];
    assert Fnv1a(a, [111, 111]) == 0xa9f37ed7;
    assert [102, 111, 111][1..] == [111, 111];
  }

  /**
   * The on-disk contract of the mapping: the hash runs over the topic and then the four bytes of the queue id, highest
   * first, and its remainder counts from group 1.
   */
  lemma GroupByHash(q: QueueId, groups: nat, a: byte, b: byte, c: byte, d: byte)
    requires groups > 0 && q.queue == ((a * 256 + b) * 256 + c) * 256 + d
    ensures GroupForQueue(q, groups) == 1 + (Fnv1a(0x811c9dc5, q.topic + [a, b, c, d]) as int) % groups
  {
    assert BE(q.queue, 4) == [a, b, c, d] by {
      assert q.queue / 256 == (a * 256 + b) * 256 + c;
      assert q.queue / 256 / 256 == a * 256 + b;
      assert q.queue / 256 / 256 / 256 == a;
      assert BE(a, 1) == BE(a / 256, 0) + [a] == [a];
      assert BE(a * 256 + b, 2) == [a] + [b];
      assert BE((a * 256 + b) * 256 + c, 3) == [a] + [b] + [c];
    }
  }

  /** Two values of the mapping onto 16 groups, for queues 0 and 1 of a topic "a". */
  lemma GroupVectors()
    ensures GroupForQueue(QueueId([97], 0), 16) == 13 && GroupForQueue(QueueId([97], 1), 16) == 16
  {
    hide FnvStep, Fnv1a, GroupForQueue;
    QueueOfA(0, 4135620588);
    QueueOfA(1, 4152398207);
  }

  lemma QueueOfA(n: byte, hash: nat)
    requires (n == 0 && hash == 4135620588) || (n == 1 && hash == 4152398207)
    ensures GroupForQueue(QueueId([97], n), 16) == 1 + hash % 16
  {
    hide FnvStep, Fnv1a, GroupForQueue;
    GroupByHash(QueueId([97], n), 16, 0, 0, 0, n);
    assert [97] + [0, 0, 0, n] == [97, 0, 0, 0, n];
    FnvOf5(97, 0, 0, 0, n);
    FnvSteps();
  }

  lemma FnvSteps()
    ensures FnvStep(FnvStep(FnvStep(FnvStep(0x811c9dc5, 97), 0), 0), 0) == 0xf5e1d3e4
    ensures FnvStep(0xf5e1d3e4, 0) as int == 4135620588 && FnvStep(0xf5e1d3e4, 1) as int == 4152398207
  {
    assert FnvStep(0x811c9dc5, 97) == 0xe40c292c;
    assert FnvStep(0xe40c292c, 0) == 0x2b24d044;
    assert FnvStep(0x2b24d044, 0) == 0x2ef3db0c;
    assert FnvStep(0x2ef3db0c, 0) == 0xf5e1d3e4;
    assert FnvStep(0xf5e1d3e4, 0) == 4135620588;
    assert FnvStep(0xf5e1d3e4, 1) == 4152398207;
  }

  lemma FnvOf5(a: byte, b: byte, c: byte, d: byte, e: byte)
    ensures Fnv1a(0x811c9dc5, [a, b, c, d, e])
         == FnvStep(FnvStep(FnvStep(FnvStep(FnvStep(0x811c9dc5, a), b), c), d), e)
  {
    hide FnvStep;
    var s := [a, b, c, d, e];
    assert s[1..] == [b, c, d, e] && s[1..][1..] == [c, d, e];
    assert [c, d, e][1..] == [d, e] && [d, e][1..] == [e] && [e][1..] == [];
    var h2 := FnvStep(FnvStep(0x811c9dc5, a), b);
    assert Fnv1a(h2, [c, d, e]) == Fnv1a(FnvStep(h2, c), [d, e]);
    assert Fnv1a(FnvStep(FnvStep(h2, c), d), [e]) == FnvStep(FnvStep(FnvStep(h2, c), d), e);
  }

  /** The group a data key is routed to, or None when the key cannot be parsed. */
  function KeyGroupOf(k: Bytes, groups: nat): (r: Option<nat>)
    requires groups > 0
    ensures r.Some? ==> 1 <= r.value <= groups
  {
    match Parse(k)
    case None => None
    case Some(d) => Some(GroupForQueue(d.Queue(), groups))
  }

  /** Every data key of a queue is routed to the queue's group, so exactly one group in 1..groups owns it. */
  lemma KeysOfQueueShareItsGroup(d: DataKey, groups: nat)
    requires groups > 0 && d.Valid()
    ensures KeyGroupOf(d.Encode(), groups) == Some(GroupForQueue(d.Queue(), groups))
  {
    ParseEncode(d);
  }

  // ----- time-ordered families -----

  function DelayKey(dueMs: u64, seqNo: u64): Bytes {
    DELAY + (U64(dueMs) + U64(seqNo))
  }

  function HalfKey(nextCheckMs: u64, txId: Bytes): Bytes {
    HALF + (U64(nextCheckMs) + txId)
  }

  /** [DELAY, DelayKey(now+1, 0)) holds exactly the entries due at or before now. */
  lemma DelayScanIsDue(dueMs: u64, seqNo: u64, now: u64)
    requires now + 1 < 0x1_0000_0000_0000_0000
    ensures Le(DELAY, DelayKey(dueMs, seqNo))
    ensures Lt(DelayKey(dueMs, seqNo), DelayKey(now + 1, 0)) <==> dueMs <= now
  {
    Pow256Values();
    PrefixRange(DELAY, DelayKey(dueMs, seqNo));
    LtAfterCommonPrefix(DELAY, U64(dueMs) + U64(seqNo), U64(now + 1) + U64(0));
    if dueMs != now + 1 {
      TimeOrder(dueMs, now + 1, U64(seqNo), U64(0));
    } else {
      LtAfterCommonPrefix(U64(dueMs), U64(seqNo), U64(0));
      BEOrder(seqNo, 0, 8);
    }
  }

  /** [HALF, HalfKey(now+1, "")) holds exactly the half messages due for a check at or before now. */
  lemma HalfScanIsDue(nextCheckMs: u64, txId: Bytes, now: u64)
    requires now + 1 < 0x1_0000_0000_0000_0000
    ensures Le(HALF, HalfKey(nextCheckMs, txId))
    ensures Lt(HalfKey(nextCheckMs, txId), HalfKey(now + 1, [])) <==> nextCheckMs <= now
  {
    Pow256Values();
    PrefixRange(HALF, HalfKey(nextCheckMs, txId));
    LtAfterCommonPrefix(HALF, U64(nextCheckMs) + txId, U64(now + 1) + []);
    if nextCheckMs != now + 1 {
      TimeOrder(nextCheckMs, now + 1, txId, []);
    } else {
      LtAfterCommonPrefix(U64(nextCheckMs), txId, []);
    }
  }

  // ----- scans of one queue -----

  /** Keys with a prefix in common sort by the number that follows it. */
  lemma TailOrder(p: Bytes, a: u64, b: u64, s: Bytes, t: Bytes)
    requires a != b
    ensures Lt(p + (U64(a) + s), p + (U64(b) + t)) <==> a < b
  {
    LtAfterCommonPrefix(p, U64(a) + s, U64(b) + t);
    TimeOrder(a, b, s, t);
  }

  /** What lies between two keys with a prefix has that prefix. */
  lemma PrefixConvex(p: Bytes, x: Bytes, k: Bytes, y: Bytes)
    requires HasPrefix(x, p) && HasPrefix(y, p) && Le(x, k) && Le(k, y)
    ensures HasPrefix(k, p)
  {
    PrefixRange(p, x);
    PrefixRange(p, y);
    PrefixRange(p, k);
    LeTrans(p, x, k);
    if PrefixUpperBound(p).Some? {
      LeLtTrans(k, y, PrefixUpperBound(p).value);
    }
  }

  /** The messages of a queue sort by offset. */
  lemma MsgKeysSort(t: Bytes, q: u32, a: u64, b: u64)
    requires a != b
    ensures Lt(Msg(t, q, a).Encode(), Msg(t, q, b).Encode()) <==> a < b
  {
    hide Lt, U32, U64;
    var p := MSG + (t + SEP + U32(q));
    TailOrder(p, a, b, [], []);
    assert Msg(t, q, a).Encode() == p + (U64(a) + []) && Msg(t, q, b).Encode() == p + (U64(b) + []);
  }

  /** So do the inflight records of a queue and group. */
  lemma InflightKeysSort(g: Bytes, t: Bytes, q: u32, a: u64, b: u64)
    requires a != b
    ensures Lt(Inflight(g, t, q, a).Encode(), Inflight(g, t, q, b).Encode()) <==> a < b
  {
    hide Lt, U32, U64;
    var p := INFLIGHT + (g + SEP + (t + SEP + U32(q)));
    TailOrder(p, a, b, [], []);
    assert Inflight(g, t, q, a).Encode() == p + (U64(a) + []) && Inflight(g, t, q, b).Encode() == p + (U64(b) + []);
  }

  /** Index entries of one business key sort by the time the message was stored. */
  lemma KeyIdxSortsByTime(t: Bytes, key: Bytes, a: u64, q: u32, o: u64, b: u64, r: u32, n: u64)
    requires a != b
    ensures Lt(KeyIdx(t, key, a, q, o).Encode(), KeyIdx(t, key, b, r, n).Encode()) <==> a < b
  {
    hide Lt, U32, U64;
    TailOrder(KEYIDX + (t + SEP + (key + SEP)), a, b, U32(q) + U64(o), U32(r) + U64(n));
    KeyIdxLayout(t, key, a, q, o);
    KeyIdxLayout(t, key, b, r, n);
  }

  lemma KeyIdxLayout(t: Bytes, key: Bytes, ms: u64, q: u32, o: u64)
    ensures KeyIdx(t, key, ms, q, o).Encode() == KEYIDX + (t + SEP + (key + SEP)) + (U64(ms) + (U32(q) + U64(o)))
  {
    hide U32, U64;
    var tail := U32(q) + U64(o);
    assert U64(ms) + U32(q) + U64(o) == U64(ms) + tail;
    assert key + SEP + (U64(ms) + tail) == (key + SEP) + (U64(ms) + tail);
  }

  /** Between two messages of a queue lie only messages of that queue, with the offsets in between. */
  lemma MsgKeysContiguous(t: Bytes, q: u32, a: u64, b: u64, d: DataKey)
    requires Name(t) && d.Valid()
    requires Le(Msg(t, q, a).Encode(), d.Encode()) && Le(d.Encode(), Msg(t, q, b).Encode())
    ensures d.Msg? && d.topic == t && d.queue == q && a <= d.offset <= b
  {
    var p := MSG + (t + SEP + U32(q));
    var x, k, y := Msg(t, q, a).Encode(), d.Encode(), Msg(t, q, b).Encode();
    assert x == p + U64(a) && y == p + U64(b);
    PrefixConvex(p, x, k, y);
    MsgOfPrefix(t, q, d);
    if d.offset < a {
      MsgKeysSort(t, q, d.offset, a);
      LtAsymmetric(k, x);
    }
    if d.offset > b {
      MsgKeysSort(t, q, b, d.offset);
      LtAsymmetric(y, k);
    }
  }

  lemma ParseMsgOf(t: Bytes, bin: Bytes)
    requires Name(t)
    ensures ParseMsg(MSG + (t + SEP + bin)) ==
            if |bin| == 12 then Some(Msg(t, ReadU32(bin[..4]), ReadU64(bin[4..]))) else None
  {
    hide U32, U64, ReadU32, ReadU64;
    var rest := t + SEP + bin;
    assert (MSG + rest)[|MSG|..] == rest;
    IndexOfAfter(t, SLASH, bin);
    assert rest[..|t|] == t && rest[|t| + 1..] == bin;
  }

  lemma MsgOfPrefix(t: Bytes, q: u32, d: DataKey)
    requires Name(t) && d.Valid() && HasPrefix(d.Encode(), MSG + (t + SEP + U32(q)))
    ensures d.Msg? && d.topic == t && d.queue == q
  {
    hide U64, ReadU32, ReadU64, BE, DataKey.Encode, Parse, ParseMsg;
    var p, k := MSG + (t + SEP + U32(q)), d.Encode();
    var z := k[|p|..];
    assert k == MSG + (t + SEP + (U32(q) + z));
    ParseEncode(d);
    Dispatch(k);
    ParseMsgOf(t, U32(q) + z);
    assert (U32(q) + z)[..4] == U32(q);
    U32RoundTrip(q);
  }

  lemma TimeOrder(a: u64, b: u64, s: Bytes, t: Bytes)
    requires a != b
    ensures Lt(U64(a) + s, U64(b) + t) <==> a < b
  {
    Pow256Values();
    BEOrder(a, b, 8);
    U64RoundTrip(a);
    U64RoundTrip(b);
    LtBeforeSuffix(U64(a), U64(b), s, t);
  }
}
