// The cache of the most recent valid records (SeqState in storage_list.rs).
module SeqStates {
  import opened Wrappers
  import opened Elements
  import opened Log

  type Slots = seq<Option<Rec>>

  /** The value of a SeqState. */
  datatype Cache = Cache(next: Option<SeqNo>, last: Slots, needsGc: bool)

  function Rank(slot: Option<Rec>): nat {
    match slot
    case None => 0
    case Some(r) => r.seqNo
  }

  predicate Sorted(slots: Slots) {
    forall i, j :: 0 <= i < j < |slots| ==> Rank(slots[i]) <= Rank(slots[j])
  }

  predicate Empty(slots: Slots) {
    forall k :: 0 <= k < |slots| ==> slots[k].None?
  }

  function EmptySlots(n: nat): Slots {
    seq(n, _ => None)
  }

  /** The slots every record of which has at least the sequence number `s`, and none of which is free. */
  predicate AllAtLeast(slots: Slots, s: SeqNo) {
    forall k :: 0 <= k < |slots| ==> slots[k].Some? && s <= slots[k].value.seqNo
  }

  ghost predicate Distinct(slots: Slots) {
    forall i, j :: 0 <= i < j < |slots| && slots[i].Some? ==> slots[i] != slots[j]
  }

  /** `slots` holds the records of `recs` with the highest sequence numbers, as many as fit, in
      ascending order behind the free slots. */
  ghost predicate IsTopK(recs: set<Rec>, slots: Slots) {
    && Sorted(slots)
    && Distinct(slots)
    && (forall k :: 0 <= k < |slots| && slots[k].Some? ==> slots[k].value in recs)
    && (forall r :: r in recs ==> Some(r) in slots || AllAtLeast(slots, r.seqNo))
  }

  function Highest(slots: Slots): Option<Rec> {
    if slots == [] then None else slots[|slots| - 1]
  }

  /** The checked increment of the highest sequence number. */
  function NextAfter(slots: Slots): Option<SeqNo> {
    match Highest(slots)
    case None => Some(2)
    case Some(r) => if r.seqNo < MAX_SEQ then Some(r.seqNo + 1) else None
  }

  /** What inserting `rec` does to a cache. The order among equal sequence numbers is left open. */
  ghost predicate Inserted(c: Cache, rec: Rec, c': Cache)
    requires 0 < |c.last|
  {
    if c.last[0].Some? && rec.seqNo < c.last[0].value.seqNo then
      c' == c
    else
      && Sorted(c'.last)
      && multiset(c'.last) == multiset(c.last[0 := Some(rec)])
      && c'.next == NextAfter(c'.last)
      && c'.needsGc
  }

  // ---- the cache keeps the top K ----

  lemma {:induction false} CountOfDistinct(slots: Slots, x: Option<Rec>)
    requires Distinct(slots) && x.Some?
    ensures multiset(slots)[x] <= 1
  {
    if slots != [] {
      var front, last := slots[..|slots| - 1], slots[|slots| - 1];
      assert slots == front + [last];
      CountOfDistinct(front, x);
      if x in front && x == last {
        assert false;
      }
      assert multiset(front)[x] == 0 <==> x !in front;
    }
  }

  lemma CountTwice(slots: Slots, i: nat, j: nat)
    requires i < j < |slots| && slots[i] == slots[j]
    ensures 2 <= multiset(slots)[slots[i]]
  {
    assert slots == slots[..j] + [slots[j]] + slots[j + 1..];
    assert slots[..j][i] in multiset(slots[..j]);
  }

  lemma SameLength(a: Slots, b: Slots)
    requires multiset(a) == multiset(b)
    ensures |a| == |b|
  {
    assert |multiset(a)| == |a| && |multiset(b)| == |b|;
  }

  lemma InsertKeepsDistinct(slots: Slots, rec: Rec, slots': Slots)
    requires 0 < |slots| && Distinct(slots) && Some(rec) !in slots
    requires multiset(slots') == multiset(slots[0 := Some(rec)])
    ensures Distinct(slots')
  {
    forall i, j | 0 <= i < j < |slots'| && slots'[i].Some? ensures slots'[i] != slots'[j] {
      if slots'[i] == slots'[j] {
        CountTwice(slots', i, j);
        CountOfDistinct(slots, slots'[i]);
      }
    }
  }

  lemma MembersAfterInsert(slots: Slots, rec: Rec, slots': Slots, x: Option<Rec>)
    requires 0 < |slots| && multiset(slots') == multiset(slots[0 := Some(rec)])
    ensures x in slots' ==> x in slots || x == Some(rec)
    ensures x in slots && x != slots[0] ==> x in slots'
    ensures Some(rec) in slots'
  {
    var updated := slots[0 := Some(rec)];
    assert x in slots' <==> x in multiset(updated);
    assert updated[0] in multiset(updated);
    assert Some(rec) in multiset(slots');
    if x in slots && x != slots[0] {
      var k :| 0 <= k < |slots| && slots[k] == x;
      assert updated[k] == x;
    }
  }

  /** One insertion of a record not seen before, early return included. */
  lemma InsertKeepsTopK(recs: set<Rec>, c: Cache, rec: Rec, c': Cache)
    requires 0 < |c.last| && IsTopK(recs, c.last) && rec !in recs
    requires Inserted(c, rec, c')
    ensures |c'.last| == |c.last| && IsTopK(recs + {rec}, c'.last)
  {
    var low := c.last[0];
    if low.Some? && rec.seqNo < low.value.seqNo {
      assert AllAtLeast(c.last, rec.seqNo);
    } else {
      SameLength(c'.last, c.last[0 := Some(rec)]);
      InsertKeepsDistinct(c.last, rec, c'.last);
      forall k | 0 <= k < |c'.last| && c'.last[k].Some? ensures c'.last[k].value in recs + {rec} {
        MembersAfterInsert(c.last, rec, c'.last, c'.last[k]);
      }
      forall r | r in recs + {rec} ensures Some(r) in c'.last || AllAtLeast(c'.last, r.seqNo) {
        MembersAfterInsert(c.last, rec, c'.last, Some(r));
        if Some(r) !in c'.last {
          CoverageKept(recs, c, rec, c', r);
        }
      }
    }
  }

  lemma CoverageKept(recs: set<Rec>, c: Cache, rec: Rec, c': Cache, r: Rec)
    requires 0 < |c.last| && IsTopK(recs, c.last)
    requires c.last[0].Some? ==> c.last[0].value.seqNo <= rec.seqNo
    requires multiset(c'.last) == multiset(c.last[0 := Some(rec)])
    requires r in recs && Some(r) !in c'.last
    ensures AllAtLeast(c'.last, r.seqNo)
  {
    MembersAfterInsert(c.last, rec, c'.last, Some(r));
    assert c.last[0].Some? && r.seqNo <= c.last[0].value.seqNo;
    forall k | 0 <= k < |c'.last| ensures c'.last[k].Some? && r.seqNo <= c'.last[k].value.seqNo {
      MembersAfterInsert(c.last, rec, c'.last, c'.last[k]);
    }
  }

  ghost function SetOf(recs: seq<Rec>): set<Rec> {
    set r | r in recs
  }

  /** After any sequence of insertions into an empty cache, early returns included, the cache holds the
      top K of everything inserted, and the next sequence number is one above the highest of all. */
  lemma {:induction false} InsertionsKeepTopK(recs: seq<Rec>, caches: seq<Cache>, k: nat)
    requires 0 < k && |caches| == |recs| + 1 && caches[0] == Cache(None, EmptySlots(k), false)
    requires forall i, j :: 0 <= i < j < |recs| ==> recs[i] != recs[j]
    requires forall i :: 0 <= i < |recs| ==> 0 < |caches[i].last| && Inserted(caches[i], recs[i], caches[i + 1])
    ensures var c := caches[|recs|];
      && |c.last| == k && IsTopK(SetOf(recs), c.last)
      && (recs != [] ==>
           && Highest(c.last).Some? && Highest(c.last).value in recs
           && c.next == NextAfter(c.last) && c.needsGc
           && forall r :: r in recs ==> r.seqNo <= Highest(c.last).value.seqNo)
  {
    hide IsTopK, Inserted;
    if recs == [] {
      assert IsTopK(SetOf(recs), EmptySlots(k)) by { EmptyIsTopK(k); }
    } else {
      var n := |recs| - 1;
      var front, rec := recs[..n], recs[n];
      InsertionsKeepTopK(front, caches[..n + 1], k);
      assert caches[..n + 1][n] == caches[n];
      assert Inserted(caches[n], rec, caches[n + 1]);
      InsertKeepsTopK(SetOf(front), caches[n], rec, caches[n + 1]);
      assert SetOf(recs) == SetOf(front) + {rec};
      forall r | r in recs
        ensures Highest(caches[n + 1].last).Some? && Highest(caches[n + 1].last).value in recs
        ensures r.seqNo <= Highest(caches[n + 1].last).value.seqNo
      {
        NextIsAboveAll(SetOf(recs), caches[n + 1].last, r);
      }
      InsertedCounts(SetOf(front), caches[n], rec, caches[n + 1]);
    }
  }

  lemma EmptyIsTopK(k: nat)
    ensures IsTopK(SetOf([]), EmptySlots(k))
  {
  }

  lemma InsertedCounts(recs: set<Rec>, c: Cache, rec: Rec, c': Cache)
    requires 0 < |c.last| && Inserted(c, rec, c') && IsTopK(recs, c.last)
    requires recs != {} ==> c.next == NextAfter(c.last) && c.needsGc
    ensures c'.next == NextAfter(c'.last) && c'.needsGc
  {
    if c.last[0].Some? {
      assert c.last[0].value in recs;
    }
  }

  /** The next sequence number is above every record seen, kept or not. */
  lemma NextIsAboveAll(recs: set<Rec>, slots: Slots, r: Rec)
    requires IsTopK(recs, slots) && 0 < |slots| && r in recs
    ensures Highest(slots).Some? && r.seqNo <= Highest(slots).value.seqNo
    ensures Highest(slots).value in recs
  {
    if Some(r) in slots {
      var k :| 0 <= k < |slots| && slots[k] == Some(r);
      assert Rank(slots[k]) <= Rank(slots[|slots| - 1]);
    }
  }

  lemma NothingToCache(slots: Slots)
    requires IsTopK({}, slots)
    ensures Highest(slots).None?
  {
  }

  // ---- the top K is determined ----

  ghost function SlotSet(slots: Slots): set<Option<Rec>> {
    set k | 0 <= k < |slots| :: slots[k]
  }

  lemma {:induction false} SlotSetSize(slots: Slots)
    requires Distinct(slots) && forall k :: 0 <= k < |slots| ==> slots[k].Some?
    ensures |SlotSet(slots)| == |slots|
  {
    if slots != [] {
      var front, last := slots[..|slots| - 1], slots[|slots| - 1];
      SlotSetSize(front);
      assert last !in SlotSet(front);
      assert SlotSet(slots) == SlotSet(front) + {last};
    }
  }

  lemma {:induction false} SlotSetBound(slots: Slots)
    ensures |SlotSet(slots)| <= |slots|
  {
    if slots != [] {
      var front, last := slots[..|slots| - 1], slots[|slots| - 1];
      SlotSetBound(front);
      assert SlotSet(slots) == SlotSet(front) + {last};
    }
  }

  lemma TopKNotAbove(recs: set<Rec>, a: Slots, b: Slots, k: nat)
    requires IsTopK(recs, a) && IsTopK(recs, b) && |a| == |b| && k < |a|
    ensures Rank(a[k]) <= Rank(b[k])
  {
    if Rank(b[k]) < Rank(a[k]) {
      var upper := a[k..];
      assert forall m :: 0 <= m < |upper| ==> upper[m] == a[k + m] && Rank(a[k]) <= Rank(upper[m]);
      SlotSetSize(upper);
      SlotSetBound(b[k + 1..]);
      forall x | x in SlotSet(upper) ensures x in SlotSet(b[k + 1..]) {
        assert x in b by {
          assert !AllAtLeast(b, x.value.seqNo) by {
            assert Rank(b[k]) < x.value.seqNo;
          }
        }
        var m :| 0 <= m < |b| && b[m] == x;
        assert k < m;
        assert b[k + 1..][m - k - 1] == x;
      }
      SubsetSize(SlotSet(upper), SlotSet(b[k + 1..]));
      assert false;
    }
  }

  lemma SubsetSize<T>(a: set<T>, b: set<T>)
    requires a <= b
    ensures |a| <= |b|
  {
    assert b == a + (b - a);
  }

  /** Any two top-K selections of the same records agree on the sequence numbers, slot by slot; with
      distinct sequence numbers they agree on the records. */
  lemma TopKIsUnique(recs: set<Rec>, a: Slots, b: Slots)
    requires IsTopK(recs, a) && IsTopK(recs, b) && |a| == |b|
    ensures forall k :: 0 <= k < |a| ==> Rank(a[k]) == Rank(b[k])
    ensures DistinctSeqs(recs) ==> a == b
  {
    forall k | 0 <= k < |a| ensures Rank(a[k]) == Rank(b[k]) {
      TopKNotAbove(recs, a, b, k);
      TopKNotAbove(recs, b, a, k);
    }
    if DistinctSeqs(recs) {
      assert forall k :: 0 <= k < |a| ==> a[k] == b[k];
    }
  }

  ghost predicate DistinctSeqs(recs: set<Rec>) {
    forall r, r' :: r in recs && r' in recs && r.seqNo == r'.seqNo ==> r == r'
  }

  /** `r` is the valid record with the highest sequence number, and the only one with it. */
  ghost predicate IsLatest(recs: set<Rec>, r: Rec) {
    r in recs && forall r' :: r' in recs ==> r'.seqNo < r.seqNo || r' == r
  }

  lemma HighestIsNoneIff(recs: set<Rec>, slots: Slots)
    requires IsTopK(recs, slots) && 0 < |slots|
    ensures Highest(slots).None? <==> recs == {}
  {
    forall r | r in recs ensures Highest(slots).Some? {
      NextIsAboveAll(recs, slots, r);
    }
  }

  lemma HighestIsLatest(recs: set<Rec>, slots: Slots)
    requires IsTopK(recs, slots) && DistinctSeqs(recs) && 0 < |slots|
    ensures Highest(slots).None? <==> recs == {}
    ensures Highest(slots).Some? ==> IsLatest(recs, Highest(slots).value)
  {
    forall r | r in recs ensures Highest(slots).Some? && r.seqNo <= Highest(slots).value.seqNo {
      NextIsAboveAll(recs, slots, r);
    }
  }

  // ---- the class ----

  function InsertSorted(slots: Slots, x: Option<Rec>): (r: Slots)
    requires Sorted(slots)
    ensures Sorted(r) && multiset(r) == multiset(slots) + multiset{x}
  {
    if slots == [] then [x]
    else
      var front, last := slots[..|slots| - 1], slots[|slots| - 1];
      assert slots == front + [last];
      if Rank(last) <= Rank(x) then slots + [x]
      else AppendLargest(InsertSorted(front, x), front, x, last)
  }

  function AppendLargest(r: Slots, front: Slots, x: Option<Rec>, last: Option<Rec>): (r': Slots)
    requires Sorted(r) && multiset(r) == multiset(front) + multiset{x}
    requires Rank(x) <= Rank(last) && forall k :: 0 <= k < |front| ==> Rank(front[k]) <= Rank(last)
    ensures Sorted(r') && multiset(r') == multiset(front + [last]) + multiset{x}
  {
    assert forall k :: 0 <= k < |r| ==> r[k] in multiset(r);
    r + [last]
  }

  function SortedSlots(slots: Slots): (r: Slots)
    ensures Sorted(r) && multiset(r) == multiset(slots)
  {
    if slots == [] then []
    else
      assert slots == slots[..|slots| - 1] + [slots[|slots| - 1]];
      InsertSorted(SortedSlots(slots[..|slots| - 1]), slots[|slots| - 1])
  }

  /** The library's unstable sort: ascending, and a permutation. */
  method SortUnstable(a: array<Option<Rec>>)
    modifies a
    ensures Sorted(a[..])
    ensures multiset(a[..]) == multiset(old(a[..]))
  {
    var sorted := SortedSlots(a[..]);
    SameLength(sorted, a[..]);
    forall i | 0 <= i < a.Length {
      a[i] := sorted[i];
    }
    assert a[..] == sorted;
  }

  class SeqState {
    var nextSeq: Option<SeqNo>
    var lastRecords: array<Option<Rec>>
    var needsGc: bool

    ghost predicate Valid()
      reads this, lastRecords
    {
      0 < lastRecords.Length && Sorted(lastRecords[..])
    }

    ghost function Value(): Cache
      reads this, lastRecords
    {
      Cache(nextSeq, lastRecords[..], needsGc)
    }

    constructor (keptRecords: nat)
      requires 0 < keptRecords
      ensures Valid() && fresh(lastRecords)
      ensures Value() == Cache(None, EmptySlots(keptRecords), false)
    {
      nextSeq := None;
      lastRecords := new Option<Rec>[keptRecords](_ => None);
      needsGc := false;
    }

    predicate InitialScanCompleted()
      reads this
    {
      nextSeq.Some?
    }

    function HighestSeen(): (r: Option<Rec>)
      requires Valid()
      reads this, lastRecords
      ensures r == Highest(lastRecords[..])
    {
      lastRecords[lastRecords.Length - 1]
    }

    /** The first slot with the lowest sequence number, free slots counting as zero. */
    method Lowest() returns (m: nat)
      requires 0 < lastRecords.Length
      ensures m < lastRecords.Length
      ensures forall k :: 0 <= k < lastRecords.Length ==> Rank(lastRecords[m]) <= Rank(lastRecords[k])
      ensures forall k :: 0 <= k < m ==> Rank(lastRecords[m]) < Rank(lastRecords[k])
    {
      m := 0;
      var i := 1;
      while i < lastRecords.Length
        invariant m < i <= lastRecords.Length
        invariant forall k :: 0 <= k < i ==> Rank(lastRecords[m]) <= Rank(lastRecords[k])
        invariant forall k :: 0 <= k < m ==> Rank(lastRecords[m]) < Rank(lastRecords[k])
      {
        if Rank(lastRecords[i]) < Rank(lastRecords[m]) {
          m := i;
        }
        i := i + 1;
      }
    }

    /** Put a valid record into the lowest slot, unless it is older than all that is kept. */
    method InsertGood(rec: Rec)
      requires Valid()
      modifies this, lastRecords
      ensures Valid() && lastRecords == old(lastRecords)
      ensures Inserted(old(Value()), rec, Value())
      ensures old(AllAbove(lastRecords[..], rec.seqNo)) ==> Value() == old(Value())
      ensures !old(AllAbove(lastRecords[..], rec.seqNo)) ==> InsertedAndCounted(rec, Value())
    {
      hide Sorted, Inserted, Rank, AllAbove, InsertedAndCounted;
      ghost var c := Value();
      var m := Lowest();
      LowestIsFirst(c.last, m);
      var lowest := lastRecords[m];
      if lowest.Some? && rec.seqNo < lowest.value.seqNo {
        NotInserted(c, rec);
        InsertCounts(c, rec, c);
        return;
      }
      lastRecords[m] := Some(rec);
      ghost var updated := lastRecords[..];
      assert updated == c.last[0 := Some(rec)];
      SortUnstable(lastRecords);
      assert multiset(lastRecords[..]) == multiset(updated);
      var next := lastRecords[lastRecords.Length - 1];
      if next.None? {
        nextSeq := Some(2);
      } else if next.value.seqNo < MAX_SEQ {
        nextSeq := Some(next.value.seqNo + 1);
      } else {
        nextSeq := None;
      }
      needsGc := true;
      InsertedIntro(c, rec, Value());
      InsertCounts(c, rec, Value());
    }
  }

  /** Every slot holds a record with a higher number than `s`. */
  ghost predicate AllAbove(slots: Slots, s: SeqNo) {
    forall k :: 0 <= k < |slots| ==> slots[k].Some? && s < slots[k].value.seqNo
  }

  /** The record is cached, a collection is pending, and the next number is one more than that of the last
      slot, if there is one more. */
  ghost predicate InsertedAndCounted(rec: Rec, c: Cache) {
    && Some(rec) in c.last && c.needsGc
    && c.last[|c.last| - 1].Some?
    && var highest := c.last[|c.last| - 1].value.seqNo;
       && (forall k :: 0 <= k < |c.last| && c.last[k].Some? ==> c.last[k].value.seqNo <= highest)
       && c.next == if highest == 0xFFFF_FFFF then None else Some(highest + 1)
  }

  /** An insertion is a no-op exactly if every slot holds a higher number. */
  lemma InsertCounts(c: Cache, rec: Rec, c': Cache)
    requires 0 < |c.last| && Sorted(c.last) && Inserted(c, rec, c')
    ensures if AllAbove(c.last, rec.seqNo) then c' == c else InsertedAndCounted(rec, c')
  {
    if c.last[0].Some? && rec.seqNo < c.last[0].value.seqNo {
      forall k | 0 <= k < |c.last| ensures c.last[k].Some? && rec.seqNo < c.last[k].value.seqNo {
        assert Rank(c.last[0]) <= Rank(c.last[k]);
      }
    } else {
      MembersAfterInsert(c.last, rec, c'.last, Some(rec));
      var i :| 0 <= i < |c'.last| && c'.last[i] == Some(rec);
      forall k | 0 <= k < |c'.last| ensures Rank(c'.last[k]) <= Rank(c'.last[|c'.last| - 1]) {
      }
    }
  }

  lemma LowestIsFirst(slots: Slots, m: nat)
    requires Sorted(slots) && m < |slots| && forall k :: 0 <= k < m ==> Rank(slots[m]) < Rank(slots[k])
    ensures m == 0
  {
    assert Rank(slots[0]) <= Rank(slots[m]);
  }

  lemma NotInserted(c: Cache, rec: Rec)
    requires 0 < |c.last| && c.last[0].Some? && rec.seqNo < c.last[0].value.seqNo
    ensures Inserted(c, rec, c)
  {
  }

  lemma InsertedIntro(c: Cache, rec: Rec, c': Cache)
    requires 0 < |c.last| && !(c.last[0].Some? && rec.seqNo < c.last[0].value.seqNo)
    requires Sorted(c'.last) && multiset(c'.last) == multiset(c.last[0 := Some(rec)])
    requires c'.next == NextAfter(c'.last) && c'.needsGc
    ensures Inserted(c, rec, c')
  {
  }
}
