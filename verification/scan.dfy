/** Resumable, chunk-limited enumeration of the wanted keys of a sorted view. */
module Scan {
  import opened Bytes

  datatype KV = KV(key: Bytes, val: Bytes)
  datatype KeyRange = KeyRange(lower: Bytes, upper: Bytes)

  /** What a pinned view iterates: strictly ascending keys. */
  ghost predicate Sorted(view: seq<KV>) {
    forall i, j :: 0 <= i < j < |view| ==> Lt(view[i].key, view[j].key)
  }

  /** Ascending, pairwise disjoint, nonempty ranges: what makes a single cursor enough. */
  ghost predicate Ascending(rs: seq<KeyRange>) {
    && (forall i :: 0 <= i < |rs| ==> Lt(rs[i].lower, rs[i].upper))
    && (forall i, j :: 0 <= i < j < |rs| ==> Le(rs[i].upper, rs[j].lower))
  }

  predicate In(k: Bytes, r: KeyRange) {
    Le(r.lower, k) && Lt(k, r.upper)
  }

  /** The key families of a group; within them, when `filter` is set, only the keys routed to `g` are its own. */
  datatype Scope = Scope(ranges: seq<KeyRange>, filter: bool, g: nat, groupOf: Bytes -> Option<nat>) {
    predicate InFamily(k: Bytes) {
      exists i :: 0 <= i < |ranges| && In(k, ranges[i])
    }

    predicate Owns(k: Bytes) {
      InFamily(k) && (filter ==> groupOf(k) == Some(g))
    }
  }

  predicate Above(from: Option<Bytes>, k: Bytes) {
    from.Some? ==> Lt(from.value, k)
  }

  /** The pairs that the scope owns and that lie after the cursor, in key order. */
  ghost function Select(view: seq<KV>, sc: Scope, from: Option<Bytes>): (r: seq<KV>) {
    if view == [] then []
    else
      var x := view[|view| - 1];
      Select(view[..|view| - 1], sc, from) + if sc.Owns(x.key) && Above(from, x.key) then [x] else []
  }

  lemma {:induction false} SelectMembers(view: seq<KV>, sc: Scope, from: Option<Bytes>, x: KV)
    ensures x in Select(view, sc, from) <==> x in view && sc.Owns(x.key) && Above(from, x.key)
  {
    if view != [] {
      SelectMembers(view[..|view| - 1], sc, from, x);
      assert view == view[..|view| - 1] + [view[|view| - 1]];
    }
  }

  lemma {:induction false} SelectSorted(view: seq<KV>, sc: Scope, from: Option<Bytes>)
    requires Sorted(view)
    ensures Sorted(Select(view, sc, from))
  {
    if view != [] {
      var v := view[..|view| - 1];
      SelectSorted(v, sc, from);
      var s := Select(v, sc, from);
      forall i | 0 <= i < |s|
        ensures Lt(s[i].key, view[|view| - 1].key)
      {
        SelectMembers(v, sc, from, s[i]);
        var j :| 0 <= j < |v| && v[j] == s[i];
      }
    }
  }

  lemma {:induction false} SelectSkip(view: seq<KV>, sc: Scope, from: Option<Bytes>, i: nat, j: nat)
    requires i <= j <= |view|
    requires forall m :: i <= m < j ==> !(sc.Owns(view[m].key) && Above(from, view[m].key))
    ensures Select(view[..j], sc, from) == Select(view[..i], sc, from)
  {
    if i < j {
      SelectSkip(view, sc, from, i, j - 1);
      assert view[..j][..j - 1] == view[..j - 1];
    }
  }

  lemma SelectStep(view: seq<KV>, sc: Scope, from: Option<Bytes>, i: nat)
    requires i < |view|
    ensures Select(view[..i + 1], sc, from)
            == Select(view[..i], sc, from) + if sc.Owns(view[i].key) && Above(from, view[i].key) then [view[i]] else []
  {
    assert view[..i + 1][..i] == view[..i];
  }

  lemma {:induction false} SelectPrefix(view: seq<KV>, sc: Scope, from: Option<Bytes>, i: nat)
    requires i <= |view|
    ensures Select(view[..i], sc, from) <= Select(view, sc, from)
    decreases |view| - i
  {
    if i < |view| {
      SelectPrefix(view, sc, from, i + 1);
      SelectStep(view, sc, from, i);
    } else {
      assert view[..i] == view;
    }
  }

  /** Resuming after the m-th selected key selects exactly the rest: nothing repeated, nothing lost. */
  lemma {:induction false} SelectResume(view: seq<KV>, sc: Scope, from: Option<Bytes>, m: nat)
    requires Sorted(view)
    requires 1 <= m <= |Select(view, sc, from)|
    ensures var s := Select(view, sc, from); Select(view, sc, Some(s[m - 1].key)) == s[m..]
  {
    var n := |view| - 1;
    var x, v, s := view[n], view[..n], Select(view, sc, from);
    var s' := Select(v, sc, from);
    if m <= |s'| {
      SelectResume(v, sc, from, m);
      SelectMembers(v, sc, from, s'[m - 1]);
      var j :| 0 <= j < |v| && v[j] == s'[m - 1];
      assert Lt(s[m - 1].key, x.key);
      if from.Some? {
        LtTrans(from.value, s[m - 1].key, x.key);
      }
    } else {
      forall i | 0 <= i < |view|
        ensures !Above(Some(x.key), view[i].key)
      {
        LtIrreflexive(x.key);
        if i < n {
          LtAsymmetric(view[i].key, x.key);
        }
      }
      SelectSkip(view, sc, Some(x.key), 0, |view|);
      assert view[..|view|] == view && view[..0] == [];
    }
  }

  /** A cursor of zero bytes, which is what a first request carries, excludes nothing. */
  lemma {:induction false} SelectFromEmptyCursor(view: seq<KV>, sc: Scope)
    requires forall i :: 0 <= i < |sc.ranges| ==> sc.ranges[i].lower != []
    ensures Select(view, sc, Some([])) == Select(view, sc, None)
  {
    if view != [] {
      SelectFromEmptyCursor(view[..|view| - 1], sc);
    }
  }

  /** Index of the first key at or above `lower`. */
  function Seek(view: seq<KV>, lower: Bytes): (i: nat)
    ensures i <= |view|
    ensures forall j :: 0 <= j < i ==> Lt(view[j].key, lower)
    ensures i < |view| ==> !Lt(view[i].key, lower)
  {
    if view == [] || !Lt(view[0].key, lower) then 0 else 1 + Seek(view[1..], lower)
  }

  lemma SeekAfter(view: seq<KV>, lower: Bytes, j: nat)
    requires Sorted(view) && Seek(view, lower) <= j < |view|
    ensures Le(lower, view[j].key)
  {
    var i := Seek(view, lower);
    LtTotal(lower, view[i].key);
    if i < j && lower != view[i].key {
      LtTrans(lower, view[i].key, view[j].key);
    }
  }

  datatype ScanEnd = Complete | BadBudget | BadKey(key: Bytes) | ChunkFull

  function PairBytes(x: KV): nat {
    8 + |x.key| + |x.val|
  }

  function ChunkBytes(s: seq<KV>): nat {
    if s == [] then 0 else ChunkBytes(s[..|s| - 1]) + PairBytes(s[|s| - 1])
  }

  lemma ChunkBytesSnoc(s: seq<KV>, x: KV)
    ensures ChunkBytes(s + [x]) == ChunkBytes(s) + PairBytes(x)
  {
    assert (s + [x])[..|s|] == s;
  }

  lemma InItsFamily(sc: Scope, ri: nat, k: Bytes)
    requires ri < |sc.ranges| && In(k, sc.ranges[ri])
    ensures sc.InFamily(k)
  {
  }

  /** The outer loop has finished the ranges before `ri` and every key before position `p`. */
  ghost predicate Scanned(view: seq<KV>, rs: seq<KeyRange>, from: Option<Bytes>, ri: nat, p: nat, skipped: bool)
    requires ri <= |rs| && p <= |view|
  {
    && (forall j, r :: p <= j < |view| && 0 <= r < ri && In(view[j].key, rs[r]) ==> !Above(from, view[j].key))
    && (p > 0 ==> ri > 0 && Lt(view[p - 1].key, rs[ri - 1].upper))
    && (p > 0 && from.Some? && !skipped ==> Lt(from.value, rs[ri - 1].upper))
    && (skipped && from.Some? ==> p > 0 && Le(from.value, view[p - 1].key))
  }

  /** Nothing wanted lies between the scan position and the point where range `ri` starts. */
  lemma RangeStart(view: seq<KV>, sc: Scope, from: Option<Bytes>, ri: nat, p: nat, skipped: bool, lower: Bytes)
    requires Sorted(view) && Ascending(sc.ranges) && ri < |sc.ranges| && p <= |view|
    requires Scanned(view, sc.ranges, from, ri, p, skipped)
    requires lower == sc.ranges[ri].lower ||
             (from.Some? && !skipped && Le(sc.ranges[ri].lower, from.value) && lower == from.value)
    ensures p <= Seek(view, lower)
    ensures Select(view[..Seek(view, lower)], sc, from) == Select(view[..p], sc, from)
    ensures skipped && from.Some? ==> Seek(view, lower) > 0 && Le(from.value, view[Seek(view, lower) - 1].key)
  {
    var rs, i := sc.ranges, Seek(view, lower);
    if p > 0 {
      if lower != rs[ri].lower {
        LtLeTrans(from.value, rs[ri - 1].upper, rs[ri].lower);
        LtLeTrans(from.value, rs[ri].lower, from.value);
        LtIrreflexive(from.value);
      }
      LtLeTrans(view[p - 1].key, rs[ri - 1].upper, lower);
      if i < p {
        SeekAfter(view, lower, p - 1);
        LeLtTrans(lower, view[p - 1].key, lower);
        LtIrreflexive(lower);
      }
    }
    forall j | p <= j < i
      ensures !(sc.Owns(view[j].key) && Above(from, view[j].key))
    {
      NotYet(view[j].key, rs, from, ri, lower);
    }
    SelectSkip(view, sc, from, p, i);
    if skipped && from.Some? && p < i {
      LeLtTrans(from.value, view[p - 1].key, view[i - 1].key);
    }
  }

  lemma ScanStart(view: seq<KV>, sc: Scope, from: Option<Bytes>)
    ensures Select(view[..0], sc, from) == [] && Scanned(view, sc.ranges, from, 0, 0, false)
  {
  }

  lemma NotYet(k: Bytes, rs: seq<KeyRange>, from: Option<Bytes>, ri: nat, lower: Bytes)
    requires Ascending(rs) && ri < |rs| && Lt(k, lower)
    requires lower == rs[ri].lower || from == Some(lower)
    ensures Above(from, k) ==> forall r :: ri <= r < |rs| ==> !In(k, rs[r])
  {
    LtAsymmetric(k, lower);
    if lower == rs[ri].lower {
      forall r | ri <= r < |rs| && In(k, rs[r])
        ensures false
      {
        if r > ri {
          LtLeTrans(rs[ri].lower, rs[ri].upper, rs[r].lower);
          LtLeTrans(lower, rs[r].lower, k);
        }
      }
    }
  }

  /** Past the end of range `ri`: every remaining key is at or above its upper bound. */
  lemma RangeDone(view: seq<KV>, rs: seq<KeyRange>, from: Option<Bytes>, ri: nat, p: nat, i: nat, was: bool,
                  skipped: bool)
    requires Sorted(view) && ri < |rs| && p <= i <= |view|
    requires Scanned(view, rs, from, ri, p, was)
    requires i < |view| ==> !Lt(view[i].key, rs[ri].upper)
    requires i > 0 ==> Lt(view[i - 1].key, rs[ri].upper)
    requires from.Some? && !skipped ==> Lt(from.value, rs[ri].upper)
    requires skipped && from.Some? ==> i > 0 && Le(from.value, view[i - 1].key)
    ensures Scanned(view, rs, from, ri + 1, i, skipped)
  {
    forall j, r | i <= j < |view| && 0 <= r < ri + 1 && In(view[j].key, rs[r])
      ensures !Above(from, view[j].key)
    {
      if r == ri && i < j {
        LtTrans(view[i].key, view[j].key, rs[ri].upper);
      }
    }
  }

  /** A whole range at or before the cursor is passed over. */
  lemma SkipRange(view: seq<KV>, rs: seq<KeyRange>, from: Option<Bytes>, ri: nat, p: nat)
    requires Sorted(view) && Ascending(rs) && ri < |rs| && p <= |view| && from.Some?
    requires Scanned(view, rs, from, ri, p, false)
    requires Le(rs[ri].upper, from.value)
    ensures p == 0 && Scanned(view, rs, from, ri + 1, p, false)
  {
    if p > 0 {
      LtLeTrans(from.value, rs[ri - 1].upper, rs[ri].lower);
      LtTrans(from.value, rs[ri].lower, rs[ri].upper);
      LtLeTrans(from.value, rs[ri].upper, from.value);
      LtIrreflexive(from.value);
    }
    forall j, r | p <= j < |view| && 0 <= r < ri + 1 && In(view[j].key, rs[r])
      ensures !Above(from, view[j].key)
    {
      if r == ri {
        LtLeTrans(view[j].key, rs[ri].upper, from.value);
        LtAsymmetric(view[j].key, from.value);
      }
    }
  }

  /** After the last range nothing wanted is left. */
  lemma AllScanned(view: seq<KV>, sc: Scope, from: Option<Bytes>, p: nat, skipped: bool)
    requires p <= |view| && Scanned(view, sc.ranges, from, |sc.ranges|, p, skipped)
    ensures Select(view[..p], sc, from) == Select(view, sc, from)
  {
    SelectSkip(view, sc, from, p, |view|);
    assert view[..|view|] == view;
  }

  function LastKey(pairs: seq<KV>): Bytes {
    if pairs == [] then [] else pairs[|pairs| - 1].key
  }

  /** The callback state of one enumeration: what was collected and whether the cursor key was passed. */
  datatype Progress = Progress(pairs: seq<KV>, last: Bytes, n: int, bytes: int, skipped: bool) {
    ghost predicate Valid(budget: int, maxBytes: int) {
      && n == |pairs| < budget && bytes == ChunkBytes(pairs) && last == LastKey(pairs)
      && (pairs != [] ==> bytes < maxBytes)
    }
  }

  /**
   * The chunk is a nonempty prefix of what was asked for, cut at the first pair that uses up one of the two budgets.
   */
  ghost predicate Cut(pairs: seq<KV>, last: Bytes, all: seq<KV>, budget: int, maxBytes: int) {
    && pairs != [] && pairs <= all && last == LastKey(pairs)
    && (|pairs| == budget || ChunkBytes(pairs) >= maxBytes)
    && |pairs| <= budget && (|pairs| > 1 ==> ChunkBytes(pairs[..|pairs| - 1]) < maxBytes)
  }

  lemma OneMore(pairs: seq<KV>, x: KV, all: seq<KV>, budget: int, maxBytes: int)
    requires pairs + [x] <= all && |pairs| < budget && (pairs != [] ==> ChunkBytes(pairs) < maxBytes)
    ensures ChunkBytes(pairs + [x]) == ChunkBytes(pairs) + PairBytes(x) && LastKey(pairs + [x]) == x.key
    ensures ChunkBytes(pairs + [x]) >= maxBytes || |pairs| + 1 == budget ==>
              Cut(pairs + [x], x.key, all, budget, maxBytes)
  {
    assert (pairs + [x])[..|pairs|] == pairs;
    ChunkBytesSnoc(pairs, x);
  }

  ghost predicate Unroutable(view: seq<KV>, sc: Scope, k: Bytes) {
    && sc.filter && sc.InFamily(k) && sc.groupOf(k) == None
    && exists i :: 0 <= i < |view| && view[i].key == k
  }

  datatype StepEnd = Next | Stop(end: ScanEnd)

  /**
   * Scan one range from `lower` with the collecting callback of the fetch handler inlined:
   * skip the cursor key itself, skip keys of other groups, collect until a budget is hit.
   */
  method ScanRange(view: seq<KV>, sc: Scope, from: Option<Bytes>, ghost ri: nat, lower: Bytes, upper: Bytes,
                   budget: int, maxBytes: int, was: Progress)
    returns (now: Progress, ghost i: nat, end: StepEnd)
    requires Sorted(view) && ri < |sc.ranges| && upper == sc.ranges[ri].upper && was.Valid(budget, maxBytes)
    requires Le(sc.ranges[ri].lower, lower) && Lt(lower, upper)
    requires was.pairs == Select(view[..Seek(view, lower)], sc, from)
    requires from.Some? && !was.skipped ==> Le(from.value, lower)
    requires was.skipped && from.Some? ==> Seek(view, lower) > 0 && Le(from.value, view[Seek(view, lower) - 1].key)
    ensures Seek(view, lower) <= i <= |view|
    ensures was.skipped ==> now.skipped
    ensures end == Next ==>
              && now.Valid(budget, maxBytes) && now.pairs == Select(view[..i], sc, from)
              && (i < |view| ==> !Lt(view[i].key, upper)) && (i > 0 ==> Lt(view[i - 1].key, upper))
              && (now.skipped && from.Some? ==> i > 0 && Le(from.value, view[i - 1].key))
    ensures end != Next && (end.end == Complete || end.end == ChunkFull) ==>
              Cut(now.pairs, now.last, Select(view, sc, from), budget, maxBytes)
    ensures end != Next && end.end.BadKey? ==> Unroutable(view, sc, end.end.key)
    ensures end != Next ==> end.end != BadBudget
  {
    hide Lt, Select, ChunkBytes, Seek, Scope.InFamily, Cut;
    now := was;
    var k := Seek(view, lower);
    i := k;
    if k > 0 {
      LtTrans(view[k - 1].key, lower, upper);
    }
    while k < |view| && Lt(view[k].key, upper)
      invariant Seek(view, lower) <= k <= |view| && i == k
      invariant now.Valid(budget, maxBytes) && now.pairs == Select(view[..k], sc, from)
      invariant k > 0 ==> Lt(view[k - 1].key, upper)
      invariant was.skipped ==> now.skipped
      invariant now.skipped && from.Some? ==> k > 0 && Le(from.value, view[k - 1].key)
      invariant from.Some? && !now.skipped ==> Le(from.value, lower)
    {
      var x := view[k];
      KeyAfterCursor(view, from, lower, k, now.skipped);
      SelectStep(view, sc, from, k);
      SeekAfter(view, lower, k);
      LeTrans(sc.ranges[ri].lower, lower, x.key);
      InItsFamily(sc, ri, x.key);
      k := k + 1;
      i := k;
      if from.Some? && !now.skipped && x.key == from.value {
        LtIrreflexive(x.key);
        now := now.(skipped := true);
        continue;
      }
      now := now.(skipped := true);
      if sc.filter {
        var kg := sc.groupOf(x.key);
        if kg == None {
          assert view[k - 1].key == x.key;
          return now, i, Stop(BadKey(x.key));
        }
        if kg.value != sc.g {
          continue;
        }
      }
      SelectPrefix(view, sc, from, k);
      OneMore(now.pairs, x, Select(view, sc, from), budget, maxBytes);
      now := Progress(now.pairs + [x], x.key, now.n, now.bytes + PairBytes(x), true);
      if now.bytes >= maxBytes {
        return now, i, Stop(ChunkFull);
      }
      now := now.(n := now.n + 1);
      if now.n >= budget {
        return now, i, Stop(Complete);
      }
    }
    return now, i, Next;
  }

  lemma KeyAfterCursor(view: seq<KV>, from: Option<Bytes>, lower: Bytes, k: nat, skipped: bool)
    requires Sorted(view) && Seek(view, lower) <= k < |view|
    requires from.Some? && !skipped ==> Le(from.value, lower)
    requires skipped && from.Some? ==> k > 0 && Le(from.value, view[k - 1].key)
    ensures from.Some? ==> Le(from.value, view[k].key) && (skipped ==> Lt(from.value, view[k].key))
  {
    if from.Some? {
      if skipped {
        LeLtTrans(from.value, view[k - 1].key, view[k].key);
      } else {
        SeekAfter(view, lower, k);
        LeTrans(from.value, lower, view[k].key);
      }
    }
  }

  /** Enumerate the scope after the cursor `from` until `budget` keys or `maxBytes` bytes are collected. */
  method ScanGroupKeys(view: seq<KV>, sc: Scope, from: Option<Bytes>, budget: int, maxBytes: int)
    returns (pairs: seq<KV>, last: Bytes, done: bool, end: ScanEnd)
    requires Sorted(view) && Ascending(sc.ranges)
    ensures end == BadBudget <==> budget <= 0
    ensures end.BadKey? ==> Unroutable(view, sc, end.key)
    ensures done ==> end == Complete && pairs == Select(view, sc, from) && last == LastKey(pairs)
    ensures done && pairs != [] ==> |pairs| < budget && ChunkBytes(pairs) < maxBytes
    ensures (end == Complete || end == ChunkFull) && !done ==>
              Cut(pairs, last, Select(view, sc, from), budget, maxBytes)
  {
    hide Lt, Seek, Scanned, Select;
    if budget <= 0 {
      return [], [], false, BadBudget;
    }
    var now := Progress([], [], 0, 0, false);
    var rs := sc.ranges;
    ghost var p: nat := 0;
    ScanStart(view, sc, from);
    for ri := 0 to |rs|
      invariant now.Valid(budget, maxBytes)
      invariant p <= |view| && now.pairs == Select(view[..p], sc, from)
      invariant Scanned(view, rs, from, ri, p, now.skipped)
    {
      var lower := rs[ri].lower;
      if from.Some? && !now.skipped {
        if Le(rs[ri].upper, from.value) {
          SkipRange(view, rs, from, ri, p);
          continue;
        }
        LtTotal(rs[ri].upper, from.value);
        LtTotal(rs[ri].lower, from.value);
        if Le(rs[ri].lower, from.value) {
          lower := from.value;
        }
      }
      RangeStart(view, sc, from, ri, p, now.skipped, lower);
      var next, i, stop := ScanRange(view, sc, from, ri, lower, rs[ri].upper, budget, maxBytes, now);
      if stop != Next {
        return next.pairs, next.last, false, stop.end;
      }
      RangeDone(view, rs, from, ri, p, i, now.skipped, next.skipped);
      p, now := i, next;
    }
    AllScanned(view, sc, from, p, now.skipped);
    return now.pairs, now.last, true, Complete;
  }

  /** Adjacent ranges in order make all of them ordered. */
  lemma {:induction false} AdjacentAscend(rs: seq<KeyRange>)
    requires forall i :: 0 <= i < |rs| ==> Lt(rs[i].lower, rs[i].upper)
    requires forall i :: 0 < i < |rs| ==> Le(rs[i - 1].upper, rs[i].lower)
    ensures Ascending(rs)
  {
    if rs != [] {
      var n := |rs| - 1;
      AdjacentAscend(rs[..n]);
      forall i | 0 <= i < n
        ensures Le(rs[i].upper, rs[n].lower)
      {
        if i < n - 1 {
          var q := rs[..n];
          assert Le(q[i].upper, q[n - 1].lower);
          LeLtTrans(rs[i].upper, rs[n - 1].lower, rs[n - 1].upper);
          LeTrans(rs[i].upper, rs[n - 1].upper, rs[n].lower);
        }
      }
      forall i, j | 0 <= i < j < |rs|
        ensures Le(rs[i].upper, rs[j].lower)
      {
        if j < n {
          var q := rs[..n];
          assert Le(q[i].upper, q[j].lower);
        }
      }
    }
  }
}
