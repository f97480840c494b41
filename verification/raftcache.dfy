/**
 * The in-memory copy of a group's log that Load hands out. A slice is a window of a shared backing array, so an append
 * may write into memory an earlier caller can still see; what keeps that caller safe is where it may write.
 */
module RaftCache {
  import opened Bytes
  import opened Frame
  import opened Replay

  /** A slice header as handed to a caller, with what it showed at that time. */
  datatype Loan = Loan(arr: array<Entry>, off: nat, contents: seq<Entry>)

  ghost predicate Intact(l: Loan)
    reads l.arr
  {
    l.off + |l.contents| <= l.arr.Length && l.arr[l.off..l.off + |l.contents|] == l.contents
  }

  /** The log after a batch whose first index cuts what is there. */
  function Overwritten(ents: seq<Entry>, batch: seq<Entry>): seq<Entry> {
    if batch == [] then ents else CutFrom(ents, batch[0].index) + batch
  }

  function DropUpTo(ents: seq<Entry>, upto: nat): (r: seq<Entry>)
    ensures |r| <= |ents| && r == ents[|ents| - |r|..]
  {
    if ents == [] || ents[0].index > upto then ents else DropUpTo(ents[1..], upto)
  }

  lemma SliceOfSlice<T>(s: seq<T>, a: nat, b: nat, c: nat)
    requires a <= b <= c <= |s|
    ensures s[a..c][b - a..] == s[b..c]
  {
  }

  lemma SliceJoin<T>(s: seq<T>, a: nat, b: nat, c: nat)
    requires a <= b <= c <= |s|
    ensures s[a..c] == s[a..b] + s[b..c]
  {
  }

  class LogRecovered {
    var hs: Option<HardState>
    var arr: array<Entry>
    var off: nat
    var len: nat
    ghost var loans: set<Loan>

    /** Every loan still shows what it showed, and none reaches past the live end of the array in use. */
    ghost predicate Valid()
      reads this, arr, set l | l in loans :: l.arr
    {
      && off + len <= arr.Length
      && forall l :: l in loans ==> Intact(l) && (l.arr == arr ==> l.off + |l.contents| <= off + len)
    }

    function Ents(): seq<Entry>
      requires off + len <= arr.Length
      reads this, arr
    {
      arr[off..off + len]
    }

    constructor (hs: Option<HardState>, ents: seq<Entry>)
      ensures Valid() && fresh(arr) && this.hs == hs && Ents() == ents && loans == {}
    {
      this.hs := hs;
      arr := new Entry[|ents|](i requires 0 <= i < |ents| => ents[i]);
      off, len, loans := 0, |ents|, {};
    }

    /** Load: the slice header as it stands; the elements stay shared. */
    method Lend() returns (a: array<Entry>, from: nat, n: nat)
      requires Valid()
      modifies `loans
      ensures Valid() && from + n <= a.Length && a[from..from + n] == Ents()
      ensures loans == old(loans) + {Loan(a, from, Ents())}
    {
      a, from, n := arr, off, len;
      loans := loans + {Loan(arr, off, Ents())};
    }

    /** Where the batch's first index cuts, walking back from the end. */
    method FindCut(first: nat) returns (cut: nat)
      requires Valid()
      ensures Valid() && Ents() == old(Ents())
      ensures cut <= len == |Ents()| && CutFrom(Ents(), first) == Ents()[..cut]
    {
      hide Intact;
      cut := len;
      var e := Ents();
      assert e[..cut] == e;
      while cut > 0 && arr[off + cut - 1].index >= first
        invariant cut <= len && e == Ents()
        invariant CutFrom(e, first) == CutFrom(e[..cut], first)
      {
        assert e[..cut][..cut - 1] == e[..cut - 1];
        cut := cut - 1;
      }
    }

    /** A cut moves the kept part to a new array; the old one is left to whoever holds a slice of it. */
    method CutTail(cut: nat, extra: nat)
      requires Valid() && cut < len
      modifies `arr, `off, `len
      ensures Valid() && fresh(arr) && Ents() == old(Ents())[..cut] && arr.Length == cut + extra
    {
      var e := Ents();
      var kept := new Entry[cut + extra](i requires 0 <= i < cut + extra => if i < cut then e[i] else e[0]);
      arr, off, len := kept, 0, cut;
    }

    /** append: in place while the capacity lasts, else into a larger array. */
    method AppendAll(batch: seq<Entry>, growth: nat)
      requires Valid()
      modifies this, arr
      ensures Valid() && hs == old(hs) && loans == old(loans) && (arr == old(arr) || fresh(arr))
      ensures Ents() == old(Ents()) + batch
    {
      hide Intact;
      var e := Ents();
      if off + len + |batch| <= arr.Length {
        var i := 0;
        while i < |batch|
          invariant 0 <= i <= |batch| && off + len + |batch| <= arr.Length
          invariant Valid() && arr == old(arr) && off == old(off) && len == old(len) && loans == old(loans)
          invariant hs == old(hs)
          invariant Ents() == e && arr[off + len..off + len + i] == batch[..i]
        {
          WriteBeyond(i, batch[i]);
          i := i + 1;
        }
        len := len + |batch|;
        SliceJoin(arr[..], off, off + old(len), off + len);
      } else {
        Grow(batch, growth);
      }
    }

    method Grow(batch: seq<Entry>, growth: nat)
      requires Valid() && batch != []
      modifies `arr, `off, `len
      ensures Valid() && fresh(arr) && Ents() == old(Ents()) + batch
    {
      var all := Ents() + batch;
      var n := |all| + growth;
      arr := new Entry[n](i requires 0 <= i < n => if i < |all| then all[i] else all[0]);
      off, len := 0, |all|;
    }

    /** One write past the live end cannot be seen through any loan. */
    method WriteBeyond(i: nat, x: Entry)
      requires Valid() && off + len + i < arr.Length
      modifies arr
      ensures Valid() && Ents() == old(Ents())
      ensures arr[off + len + i] == x
      ensures arr[off + len..off + len + i] == old(arr[off + len..off + len + i])
    {
      arr[off + len + i] := x;
    }

    /** The cache side of Persist. */
    method Merge(newHs: Option<HardState>, batch: seq<Entry>, growth: nat)
      requires Valid()
      modifies this, arr
      ensures Valid() && loans == old(loans) && (arr == old(arr) || fresh(arr))
      ensures hs == if newHs.Some? then newHs else old(hs)
      ensures Ents() == Overwritten(old(Ents()), batch)
    {
      hide Intact, CutFrom;
      if newHs.Some? {
        hs := newHs;
      }
      if |batch| > 0 {
        MergeEntries(batch, growth);
      }
    }

    method MergeEntries(batch: seq<Entry>, growth: nat)
      requires Valid() && |batch| > 0
      modifies this, arr
      ensures Valid() && loans == old(loans) && hs == old(hs) && (arr == old(arr) || fresh(arr))
      ensures Ents() == CutFrom(old(Ents()), batch[0].index) + batch
    {
      hide LogRecovered.Valid, LogRecovered.Ents, CutFrom;
      var cut := FindCut(batch[0].index);
      if cut < len {
        CutTail(cut, |batch|);
      }
      AppendAll(batch, growth);
    }

    method FindStart(upto: nat) returns (cut: nat)
      requires Valid()
      ensures cut <= len && DropUpTo(Ents(), upto) == Ents()[cut..]
    {
      hide Intact;
      cut := 0;
      var e := Ents();
      assert e[cut..] == e;
      while cut < len && arr[off + cut].index <= upto
        invariant cut <= len && e == Ents()
        invariant DropUpTo(e, upto) == DropUpTo(e[cut..], upto)
      {
        assert e[cut..][1..] == e[cut + 1..];
        cut := cut + 1;
      }
    }

    /** The cache side of TruncateLog: the window starts later, nothing is written. */
    method Trim(upto: nat)
      requires Valid()
      modifies `off, `len
      ensures Valid() && Ents() == DropUpTo(old(Ents()), upto)
    {
      hide DropUpTo, Intact;
      var cut := FindStart(upto);
      ghost var e := Ents();
      off, len := off + cut, len - cut;
      SliceOfSlice(arr[..], off - cut, off, off + len);
      assert Ents() == e[cut..];
    }
  }
}
