// Garbage collection on the log: removing, oldest first, every entry outside the cached records.
module Collect {
  import opened Wrappers
  import opened Elements
  import opened Log
  import opened SeqStates

  predicate Covers(slot: Option<Rec>, n: nat) {
    slot.Some? && slot.value.start <= n <= slot.value.end
  }

  /** Index `n` lies in the range of a cached record. */
  predicate InRange(slots: Slots, n: nat) {
    exists k :: 0 <= k < |slots| && Covers(slots[k], n)
  }

  /** The collector keeps what decodes and lies in a cached range. */
  ghost predicate Kept(items: seq<Item>, slots: Slots, n: nat)
    requires n < |items|
  {
    !items[n].Junk? && InRange(slots, n)
  }

  /** What is left of the first `n` entries. */
  ghost function Survivors(items: seq<Item>, slots: Slots, n: nat): (s: seq<Item>)
    requires n <= |items|
    ensures |s| <= n
  {
    if n == 0 then []
    else Survivors(items, slots, n - 1) + (if Kept(items, slots, n - 1) then [items[n - 1]] else [])
  }

  /** The queue after the collector has dealt with the first `n` entries. */
  ghost function Swept(items: seq<Item>, slots: Slots, n: nat): seq<Item>
    requires n <= |items|
  {
    Survivors(items, slots, n) + items[n..]
  }

  /** Where index `i` of the original queue is found after `n` steps. */
  ghost function Place(items: seq<Item>, slots: Slots, n: nat, i: nat): nat
    requires n <= |items|
  {
    if i < n then |Survivors(items, slots, i)| else i - n + |Survivors(items, slots, n)|
  }

  ghost function Relocate(items: seq<Item>, slots: Slots, n: nat, slot: Option<Rec>): Option<Rec>
    requires n <= |items|
  {
    match slot
    case None => None
    case Some(r) => Some(Rec(r.seqNo, Place(items, slots, n, r.start), Place(items, slots, n, r.end)))
  }

  ghost function Relocated(items: seq<Item>, slots: Slots, n: nat): (s: Slots)
    requires n <= |items|
    ensures |s| == |slots|
  {
    seq(|slots|, k requires 0 <= k < |slots| => Relocate(items, slots, n, slots[k]))
  }

  /** Every cached range is a valid record. */
  ghost predicate AllGood(items: seq<Item>, slots: Slots) {
    forall k :: 0 <= k < |slots| && slots[k].Some? ==> IsGood(items, slots[k].value)
  }

  // ---- one removal ----

  function ShiftSlot(slot: Option<Rec>, p: nat): Option<Rec> {
    match slot
    case None => None
    case Some(r) => Some(ShiftDown(r, p))
  }

  function ShiftSlots(slots: Slots, p: nat): (s: Slots)
    ensures |s| == |slots|
  {
    seq(|slots|, k requires 0 <= k < |slots| => ShiftSlot(slots[k], p))
  }

  predicate NoneStartsAt(slots: Slots, p: nat) {
    forall k :: 0 <= k < |slots| && slots[k].Some? ==> slots[k].value.start != p
  }

  lemma ShiftKeepsDistinct(items: seq<Item>, slots: Slots, p: nat)
    requires AllGood(items, slots) && Distinct(slots) && NoneStartsAt(slots, p)
    ensures Distinct(ShiftSlots(slots, p))
  {
    var s' := ShiftSlots(slots, p);
    forall i, j | 0 <= i < j < |s'| && s'[i].Some? ensures s'[i] != s'[j] {
      assert slots[i] != slots[j];
      if slots[j].Some? {
        GoodRecordsNeverOverlap(items, slots[i].value, slots[j].value);
      }
    }
  }

  lemma ShiftKeepsMember(items: seq<Item>, slots: Slots, p: nat, r: Rec)
    requires p < |items| && NothingOpen(items, p)
    requires IsGood(Without(items, p), r)
    requires Some(ShiftUp(r, p)) in slots || AllAtLeast(slots, r.seqNo)
    ensures Some(r) in ShiftSlots(slots, p) || AllAtLeast(ShiftSlots(slots, p), r.seqNo)
  {
    hide Good, NothingOpen;
    RemoveJoinsNothing(items, p, r);
    if Some(ShiftUp(r, p)) in slots {
      var k :| 0 <= k < |slots| && slots[k] == Some(ShiftUp(r, p));
      assert ShiftSlots(slots, p)[k] == Some(r);
    }
  }

  /** Removing an entry in front of which nothing is open, and at which no cached record starts,
      leaves the cached records the top K. */
  lemma RemoveKeepsTopK(items: seq<Item>, slots: Slots, p: nat)
    requires p < |items| && NothingOpen(items, p)
    requires IsTopK(GoodRecords(items), slots) && NoneStartsAt(slots, p)
    ensures IsTopK(GoodRecords(Without(items, p)), ShiftSlots(slots, p))
  {
    hide Good, NothingOpen;
    var rest, s' := Without(items, p), ShiftSlots(slots, p);
    ShiftKeepsDistinct(items, slots, p);
    forall k | 0 <= k < |s'| && s'[k].Some? ensures s'[k].value in GoodRecords(rest) {
      RemoveKeeps(items, p, slots[k].value);
    }
    forall r | r in GoodRecords(rest) ensures Some(r) in s' || AllAtLeast(s', r.seqNo) {
      RemoveJoinsNothing(items, p, r);
      assert ShiftUp(r, p) in GoodRecords(items);
      ShiftKeepsMember(items, slots, p, r);
    }
  }

  // ---- the sweep, with exact ranges ----

  lemma {:induction false} SurvivorsMonotone(items: seq<Item>, slots: Slots, i: nat, n: nat)
    requires i <= n <= |items|
    ensures |Survivors(items, slots, i)| <= |Survivors(items, slots, n)| <= |Survivors(items, slots, i)| + n - i
    ensures i < n && Kept(items, slots, i) ==> |Survivors(items, slots, i)| < |Survivors(items, slots, n)|
  {
    if i < n {
      SurvivorsMonotone(items, slots, i, n - 1);
    }
  }

  lemma GoodIsKept(items: seq<Item>, slots: Slots, k: nat, n: nat)
    requires AllGood(items, slots)
    requires k < |slots| && Covers(slots[k], n)
    ensures n < |items| && Kept(items, slots, n)
  {
  }

  /** Where the collector removes something, what it has kept so far is a row of whole records. */
  lemma {:induction false} SurvivorsAreClosed(items: seq<Item>, slots: Slots, n: nat)
    requires n <= |items| && AllGood(items, slots) && !InRange(slots, n)
    ensures NothingOpen(Survivors(items, slots, n), |Survivors(items, slots, n)|)
  {
    hide Crc, Bytes;
    if n > 0 {
      var s := Survivors(items, slots, n);
      if InRange(slots, n - 1) {
        var k :| 0 <= k < |slots| && Covers(slots[k], n - 1);
        GoodIsKept(items, slots, k, n - 1);
        assert slots[k].value.end == n - 1;
        assert s[|s| - 1] == items[n - 1];
        assert s[|s| - 1].End?;
      } else {
        SurvivorsAreClosed(items, slots, n - 1);
        assert s == Survivors(items, slots, n - 1);
      }
    }
  }

  lemma SweepStep(items: seq<Item>, slots: Slots, n: nat)
    requires n < |items|
    ensures Kept(items, slots, n) ==> Swept(items, slots, n + 1) == Swept(items, slots, n)
    ensures !Kept(items, slots, n) ==>
              Swept(items, slots, n + 1) == Without(Swept(items, slots, n), |Survivors(items, slots, n)|)
  {
    assert items[n..] == [items[n]] + items[n + 1..];
  }

  lemma PlaceStep(items: seq<Item>, slots: Slots, n: nat, i: nat)
    requires n < |items|
    ensures Kept(items, slots, n) ==> Place(items, slots, n + 1, i) == Place(items, slots, n, i)
    ensures !Kept(items, slots, n) && i < n ==> Place(items, slots, n + 1, i) == Place(items, slots, n, i)
    ensures !Kept(items, slots, n) && n < i ==> Place(items, slots, n + 1, i) == Place(items, slots, n, i) - 1
  {
  }

  lemma RelocateStep(items: seq<Item>, slots: Slots, n: nat, k: nat)
    requires n < |items| && AllGood(items, slots) && k < |slots| && slots[k].Some?
    ensures Kept(items, slots, n) ==>
              Relocate(items, slots, n + 1, slots[k]) == Relocate(items, slots, n, slots[k])
    ensures !Kept(items, slots, n) ==>
              && Relocate(items, slots, n, slots[k]).value.start != |Survivors(items, slots, n)|
              && Relocate(items, slots, n + 1, slots[k])
                   == ShiftSlot(Relocate(items, slots, n, slots[k]), |Survivors(items, slots, n)|)
  {
    var r := slots[k].value;
    PlaceStep(items, slots, n, r.start);
    PlaceStep(items, slots, n, r.end);
    if !Kept(items, slots, n) {
      if r.start <= n <= r.end {
        GoodIsKept(items, slots, k, n);
      }
      if r.end < n {
        GoodIsKept(items, slots, k, r.start);
        GoodIsKept(items, slots, k, r.end);
        SurvivorsMonotone(items, slots, r.start, n);
        SurvivorsMonotone(items, slots, r.end, n);
      }
    }
  }

  lemma RelocatedStep(items: seq<Item>, slots: Slots, n: nat)
    requires n < |items| && AllGood(items, slots)
    ensures Kept(items, slots, n) ==> Relocated(items, slots, n + 1) == Relocated(items, slots, n)
    ensures !Kept(items, slots, n) ==>
              && NoneStartsAt(Relocated(items, slots, n), |Survivors(items, slots, n)|)
              && Relocated(items, slots, n + 1)
                   == ShiftSlots(Relocated(items, slots, n), |Survivors(items, slots, n)|)
  {
    hide AllGood, Kept, Place;
    forall k | 0 <= k < |slots| && slots[k].Some?
      ensures Kept(items, slots, n) ==> Relocated(items, slots, n + 1)[k] == Relocated(items, slots, n)[k]
      ensures !Kept(items, slots, n) ==>
                && Relocated(items, slots, n)[k].value.start != |Survivors(items, slots, n)|
                && Relocated(items, slots, n + 1)[k]
                     == ShiftSlots(Relocated(items, slots, n), |Survivors(items, slots, n)|)[k]
    {
      RelocateStep(items, slots, n, k);
    }
  }

  lemma {:induction false} ExactSweepKeepsTopK(items: seq<Item>, slots: Slots, n: nat)
    requires n <= |items| && IsTopK(GoodRecords(items), slots)
    ensures IsTopK(GoodRecords(Swept(items, slots, n)), Relocated(items, slots, n))
  {
    hide Good, Kept, Distinct, Sorted, Place;
    if n == 0 {
      assert Swept(items, slots, 0) == items;
      SweepStart(items, slots);
    } else {
      ExactSweepKeepsTopK(items, slots, n - 1);
      assert AllGood(items, slots);
      SweepStep(items, slots, n - 1);
      RelocatedStep(items, slots, n - 1);
      if !Kept(items, slots, n - 1) {
        RemovedIsClosed(items, slots, n - 1);
        RemoveKeepsTopK(Swept(items, slots, n - 1), Relocated(items, slots, n - 1),
                        |Survivors(items, slots, n - 1)|);
      }
    }
  }

  lemma SweepStart(items: seq<Item>, slots: Slots)
    ensures Relocated(items, slots, 0) == slots
  {
  }

  lemma RemovedIsClosed(items: seq<Item>, slots: Slots, n: nat)
    requires n < |items| && AllGood(items, slots) && !Kept(items, slots, n)
    ensures NothingOpen(Swept(items, slots, n), |Survivors(items, slots, n)|)
  {
    if InRange(slots, n) {
      var k :| 0 <= k < |slots| && Covers(slots[k], n);
      GoodIsKept(items, slots, k, n);
    }
    SurvivorsAreClosed(items, slots, n);
    var s, g := Survivors(items, slots, n), Swept(items, slots, n);
    assert g[..|s|] == s[..|s|];
    NothingOpenTransfer(s, g, |s|);
  }

  /** `r` is a record of `items` with the entries `w`. */
  ghost predicate Holds(items: seq<Item>, r: Rec, w: seq<Item>) {
    IsGood(items, r) && Slice(items, r) == w
  }

  lemma RemoveHolds(items: seq<Item>, p: nat, r: Rec, w: seq<Item>)
    requires p < |items| && NothingOpen(items, p) && r.start != p && Holds(items, r, w)
    ensures Holds(Without(items, p), ShiftDown(r, p), w)
  {
    hide Crc, Bytes;
    RemoveKeeps(items, p, r);
  }

  lemma {:induction false} ExactSweepKeepsContent(items: seq<Item>, slots: Slots, n: nat, k: nat, w: seq<Item>)
    requires n <= |items| && AllGood(items, slots) && k < |slots| && slots[k].Some?
    requires Holds(items, slots[k].value, w)
    ensures Holds(Swept(items, slots, n), Relocate(items, slots, n, slots[k]).value, w)
  {
    hide Holds, AllGood, Place, Kept, NothingOpen;
    if n == 0 {
      assert Swept(items, slots, 0) == items;
      SweepStart(items, slots);
      assert Relocated(items, slots, 0)[k] == slots[k];
    } else {
      ExactSweepKeepsContent(items, slots, n - 1, k, w);
      SweepStep(items, slots, n - 1);
      RelocateStep(items, slots, n - 1, k);
      if !Kept(items, slots, n - 1) {
        RemovedIsClosed(items, slots, n - 1);
        RemoveHolds(Swept(items, slots, n - 1), |Survivors(items, slots, n - 1)|,
                    Relocate(items, slots, n - 1, slots[k]).value, w);
      }
    }
  }

  lemma {:induction false} ExactSweepJoinsNothing(items: seq<Item>, slots: Slots, n: nat, r: Rec)
    requires n <= |items| && AllGood(items, slots)
    requires IsGood(Swept(items, slots, n), r)
    ensures exists o :: IsGood(items, o) && o.seqNo == r.seqNo && Slice(items, o) == Slice(Swept(items, slots, n), r)
  {
    hide Good, Kept;
    if n == 0 {
      assert Swept(items, slots, 0) == items;
    } else {
      SweepStep(items, slots, n - 1);
      if Kept(items, slots, n - 1) {
        ExactSweepJoinsNothing(items, slots, n - 1, r);
      } else {
        var before, p := Swept(items, slots, n - 1), |Survivors(items, slots, n - 1)|;
        RemovedIsClosed(items, slots, n - 1);
        RemoveJoinsNothing(before, p, r);
        ExactSweepJoinsNothing(items, slots, n - 1, ShiftUp(r, p));
      }
    }
  }

  lemma {:induction false} ExactSweepKeepsDistinct(items: seq<Item>, slots: Slots, n: nat)
    requires n <= |items| && AllGood(items, slots) && DistinctSeqs(GoodRecords(items))
    ensures DistinctSeqs(GoodRecords(Swept(items, slots, n)))
  {
    hide Good, Kept;
    if n == 0 {
      assert Swept(items, slots, 0) == items;
    } else {
      ExactSweepKeepsDistinct(items, slots, n - 1);
      SweepStep(items, slots, n - 1);
      if !Kept(items, slots, n - 1) {
        var before, p := Swept(items, slots, n - 1), |Survivors(items, slots, n - 1)|;
        RemovedIsClosed(items, slots, n - 1);
        forall r | r in GoodRecords(Without(before, p))
          ensures ShiftUp(r, p) in GoodRecords(before) && ShiftDown(ShiftUp(r, p), p) == r
        {
          RemoveJoinsNothing(before, p, r);
        }
      }
    }
  }

  // ---- the finished sweep ----

  /** Every index of the queue lies in the range of a cached record. */
  ghost predicate Tiled(items: seq<Item>, slots: Slots) {
    forall q :: 0 <= q < |items| ==> InRange(slots, q)
  }

  lemma {:induction false} SurvivorsAreTiled(items: seq<Item>, slots: Slots, n: nat, q: nat)
    requires n <= |items| && AllGood(items, slots) && q < |Survivors(items, slots, n)|
    ensures InRange(Relocated(items, slots, n), q)
  {
    hide Good;
    var s := Relocated(items, slots, n);
    if q < |Survivors(items, slots, n - 1)| {
      SurvivorsAreTiled(items, slots, n - 1, q);
      var k :| 0 <= k < |slots| && Covers(Relocated(items, slots, n - 1)[k], q);
      RelocateStep(items, slots, n - 1, k);
      assert Covers(s[k], q);
    } else {
      var k :| 0 <= k < |slots| && Covers(slots[k], n - 1);
      LastIsCovered(items, slots, n, k);
      assert Covers(s[k], q);
    }
  }

  lemma LastIsCovered(items: seq<Item>, slots: Slots, n: nat, k: nat)
    requires 0 < n <= |items| && k < |slots| && Covers(slots[k], n - 1) && Kept(items, slots, n - 1)
    ensures Covers(Relocate(items, slots, n, slots[k]), |Survivors(items, slots, n)| - 1)
  {
    SurvivorsMonotone(items, slots, slots[k].value.start, n - 1);
    PlaceStep(items, slots, n - 1, slots[k].value.start);
    PlaceStep(items, slots, n - 1, slots[k].value.end);
  }

  lemma ExactSweepIsTiled(items: seq<Item>, slots: Slots)
    requires AllGood(items, slots)
    ensures Tiled(Swept(items, slots, |items|), Relocated(items, slots, |items|))
  {
    var g := Swept(items, slots, |items|);
    assert g == Survivors(items, slots, |items|);
    forall q | 0 <= q < |g| ensures InRange(Relocated(items, slots, |items|), q) {
      SurvivorsAreTiled(items, slots, |items|, q);
    }
  }

  /** In a tiled queue there is no valid record besides the cached ones. */
  lemma TiledHasNoOthers(items: seq<Item>, slots: Slots, r: Rec)
    requires AllGood(items, slots) && Tiled(items, slots) && IsGood(items, r)
    ensures Some(r) in slots
  {
    hide Crc, Bytes;
    assert InRange(slots, r.start);
    var k :| 0 <= k < |slots| && Covers(slots[k], r.start);
    if slots[k].value != r {
      GoodRecordsNeverOverlap(items, slots[k].value, r);
    }
  }

  /** A fresh scan of a tiled queue finds room for all its records. */
  lemma FreshScanOfTiled(items: seq<Item>, slots: Slots, found: Slots)
    requires IsTopK(GoodRecords(items), slots) && Tiled(items, slots)
    requires IsTopK(GoodRecords(items), found) && |found| == |slots|
    ensures Tiled(items, found)
  {
    hide Good, Sorted, Distinct;
    forall q | 0 <= q < |items| ensures InRange(found, q) {
      assert InRange(slots, q);
      var k :| 0 <= k < |slots| && Covers(slots[k], q);
      AllKept(items, slots, found, slots[k].value);
      var m :| 0 <= m < |found| && found[m] == slots[k];
    }
  }

  lemma AllKept(items: seq<Item>, slots: Slots, found: Slots, r: Rec)
    requires IsTopK(GoodRecords(items), slots) && Tiled(items, slots)
    requires IsTopK(GoodRecords(items), found) && |found| == |slots|
    requires r in GoodRecords(items)
    ensures Some(r) in found
  {
    hide Good;
    if Some(r) !in found {
      assert AllAtLeast(found, r.seqNo);
      forall x | x in SlotSet(found) ensures x in SlotSet(slots) {
        TiledHasNoOthers(items, slots, x.value);
      }
      SlotSetSize(found);
      SlotSetBound(slots);
      TiledHasNoOthers(items, slots, r);
      assert Some(r) in SlotSet(slots) - SlotSet(found);
      SubsetSize(SlotSet(found) + {Some(r)}, SlotSet(slots));
    }
  }

  /** Collecting again, from whatever a fresh scan finds, changes nothing. */
  lemma {:induction false} CollectTiledIsNop(items: seq<Item>, slots: Slots, n: nat)
    requires n <= |items| && AllGood(items, slots) && Tiled(items, slots)
    ensures Swept(items, slots, n) == items
  {
    if n > 0 {
      CollectTiledIsNop(items, slots, n - 1);
      assert InRange(slots, n - 1);
      var k :| 0 <= k < |slots| && Covers(slots[k], n - 1);
      GoodIsKept(items, slots, k, n - 1);
      SweepStep(items, slots, n - 1);
    }
  }

  // ---- the sweep, with the ranges as they are cached ----

  /** The cached range of the newest record may reach one index past the end of the queue. */
  function Trimmed(slots: Slots, n: nat): Slots {
    if 0 < |slots| && Highest(slots).Some? && 0 < n && Highest(slots).value.end == n
    then slots[|slots| - 1 := Some(Highest(slots).value.(end := n - 1))]
    else slots
  }

  lemma TrimmedSameRange(items: seq<Item>, slots: Slots, n: nat)
    requires n < |items|
    ensures InRange(Trimmed(slots, |items|), n) <==> InRange(slots, n)
  {
    var t := Trimmed(slots, |items|);
    assert forall k :: 0 <= k < |slots| ==> (Covers(t[k], n) <==> Covers(slots[k], n));
    if InRange(slots, n) {
      var k :| 0 <= k < |slots| && Covers(slots[k], n);
      assert Covers(t[k], n);
    }
  }

  /** Sweeping with the cached ranges is sweeping with the exact ones. */
  lemma {:induction false} TrimmedSameSweep(items: seq<Item>, slots: Slots, n: nat)
    requires n <= |items|
    ensures Survivors(items, Trimmed(slots, |items|), n) == Survivors(items, slots, n)
    ensures Swept(items, Trimmed(slots, |items|), n) == Swept(items, slots, n)
  {
    if n > 0 {
      TrimmedSameSweep(items, slots, n - 1);
      TrimmedSameRange(items, slots, n - 1);
    }
  }

  /** After every step of the collector, the cached records, at their new places, are still the
      ones a fresh scan finds. */
  lemma SweepKeepsTopK(items: seq<Item>, slots: Slots, n: nat)
    requires n <= |items| && IsTopK(GoodRecords(items), Trimmed(slots, |items|))
    ensures IsTopK(GoodRecords(Swept(items, slots, n)), Relocated(items, Trimmed(slots, |items|), n))
  {
    hide IsTopK, GoodRecords, Trimmed, Swept, Relocated;
    TrimmedSameSweep(items, slots, n);
    ExactSweepKeepsTopK(items, Trimmed(slots, |items|), n);
  }

  /** The entries of a cached record are carried along unchanged. */
  lemma SweepKeepsContent(items: seq<Item>, slots: Slots, n: nat, k: nat, w: seq<Item>)
    requires n <= |items| && AllGood(items, Trimmed(slots, |items|)) && k < |slots|
    requires Trimmed(slots, |items|)[k].Some? && Holds(items, Trimmed(slots, |items|)[k].value, w)
    ensures var exact := Trimmed(slots, |items|);
      Holds(Swept(items, slots, n), Relocate(items, exact, n, exact[k]).value, w)
  {
    hide Holds, AllGood, Swept;
    TrimmedSameSweep(items, slots, n);
    ExactSweepKeepsContent(items, Trimmed(slots, |items|), n, k, w);
  }

  /** Whatever is good after any number of steps was good, entry for entry, before the collection. */
  lemma SweepJoinsNothing(items: seq<Item>, slots: Slots, n: nat, r: Rec)
    requires n <= |items| && AllGood(items, Trimmed(slots, |items|))
    requires IsGood(Swept(items, slots, n), r)
    ensures exists o :: IsGood(items, o) && o.seqNo == r.seqNo && Slice(items, o) == Slice(Swept(items, slots, n), r)
  {
    hide Good, AllGood, Swept, Trimmed;
    TrimmedSameSweep(items, slots, n);
    ExactSweepJoinsNothing(items, Trimmed(slots, |items|), n, r);
  }

  /** Distinct sequence numbers stay distinct: no removal copies a record. */
  lemma SweepKeepsDistinct(items: seq<Item>, slots: Slots, n: nat)
    requires n <= |items| && AllGood(items, Trimmed(slots, |items|)) && DistinctSeqs(GoodRecords(items))
    ensures DistinctSeqs(GoodRecords(Swept(items, slots, n)))
  {
    hide AllGood, Swept, Trimmed, GoodRecords;
    TrimmedSameSweep(items, slots, n);
    ExactSweepKeepsDistinct(items, Trimmed(slots, |items|), n);
  }

  /** A finished collection leaves the cached records, back to back and in their old order, and
      nothing else. */
  lemma FinishedSweepIsTiled(items: seq<Item>, slots: Slots)
    requires AllGood(items, Trimmed(slots, |items|))
    ensures Tiled(Swept(items, slots, |items|), Relocated(items, Trimmed(slots, |items|), |items|))
  {
    hide AllGood, Swept, Trimmed, Relocated;
    TrimmedSameSweep(items, slots, |items|);
    ExactSweepIsTiled(items, Trimmed(slots, |items|));
  }

  /** After a collection and a reboot, what a fresh scan finds lets the next collection change nothing. */
  lemma RebootAndCollectIsNop(items: seq<Item>, slots: Slots, found: Slots)
    requires IsTopK(GoodRecords(items), Trimmed(slots, |items|))
    requires IsTopK(GoodRecords(Swept(items, slots, |items|)), found) && |found| == |slots|
    ensures var g := Swept(items, slots, |items|); Swept(g, found, |g|) == g
  {
    hide Good, Sorted, Distinct, Swept, Trimmed, Kept, Place;
    var g, exact := Swept(items, slots, |items|), Trimmed(slots, |items|);
    TrimmedSameLength(slots, |items|);
    SweepKeepsTopK(items, slots, |items|);
    FinishedSweepIsTiled(items, slots);
    FreshScanOfTiled(g, Relocated(items, exact, |items|), found);
    CollectTiledIsNop(g, found, |g|);
  }

  lemma TrimmedSameLength(slots: Slots, n: nat)
    ensures |Trimmed(slots, n)| == |slots|
  {
  }

  // ---- what is removed ----

  /** Index `q` holds an element that decodes, in the range of some slot. */
  ghost predicate Wanted(items: seq<Item>, slots: Slots, q: nat)
    requires q < |items|
  {
    && (items[q].Start? || items[q].Data? || items[q].End?)
    && exists k :: 0 <= k < |slots| && slots[k].Some? && slots[k].value.start <= q && q <= slots[k].value.end
  }

  ghost function CountWanted(items: seq<Item>, slots: Slots, n: nat): nat
    requires n <= |items|
  {
    if n == 0 then 0 else CountWanted(items, slots, n - 1) + (if Wanted(items, slots, n - 1) then 1 else 0)
  }

  lemma {:induction false} SurvivorsAreWanted(items: seq<Item>, slots: Slots, n: nat)
    requires n <= |items|
    ensures |Survivors(items, slots, n)| == CountWanted(items, slots, n)
    ensures forall q :: 0 <= q < n && Wanted(items, slots, q) ==>
              && CountWanted(items, slots, q) < |Survivors(items, slots, n)|
              && Survivors(items, slots, n)[CountWanted(items, slots, q)] == items[q]
  {
    hide InRange;
    if n > 0 {
      SurvivorsAreWanted(items, slots, n - 1);
      KeptIsWanted(items, slots, n - 1);
    }
  }

  lemma KeptIsWanted(items: seq<Item>, slots: Slots, q: nat)
    requires q < |items|
    ensures Kept(items, slots, q) <==> Wanted(items, slots, q)
  {
    if Wanted(items, slots, q) {
      var k :| 0 <= k < |slots| && slots[k].Some? && slots[k].value.start <= q && q <= slots[k].value.end;
      assert Covers(slots[k], q);
    }
  }

  /** From any cache whatever, a collection keeps exactly the elements that decode and lie in a cached
      range, both ends included, in the order they had. */
  lemma SweepKeepsWanted(items: seq<Item>, slots: Slots)
    ensures var g := Swept(items, slots, |items|);
      && |g| == CountWanted(items, slots, |items|)
      && forall q :: 0 <= q < |items| && Wanted(items, slots, q) ==>
           CountWanted(items, slots, q) < |g| && g[CountWanted(items, slots, q)] == items[q]
  {
    hide Survivors, Wanted;
    SurvivorsAreWanted(items, slots, |items|);
    SweepBounds(items, slots, |items|);
  }

  // ---- the loop ----

  lemma SweepBounds(items: seq<Item>, slots: Slots, n: nat)
    requires n <= |items|
    ensures |Swept(items, slots, n)| == |Survivors(items, slots, n)| + |items| - n
    ensures n < |items| ==> Swept(items, slots, n)[|Survivors(items, slots, n)|] == items[n]
    ensures n == 0 ==> Swept(items, slots, n) == items && |Survivors(items, slots, n)| == 0
    ensures n == |items| ==> Swept(items, slots, n) == Survivors(items, slots, n)
  {
  }

  /** One step of the collector's loop, with the sizes of what is kept. */
  lemma SweepOne(items: seq<Item>, slots: Slots, n: nat, size: Item -> nat)
    requires n < |items|
    ensures var g, p := Swept(items, slots, n), |Survivors(items, slots, n)|;
      if !items[n].Junk? && InRange(slots, n) then
        && Swept(items, slots, n + 1) == g
        && |Survivors(items, slots, n + 1)| == p + 1
        && Total(size, Survivors(items, slots, n + 1)) == Total(size, Survivors(items, slots, n)) + size(items[n])
      else
        && p < |g|
        && Swept(items, slots, n + 1) == g[..p] + g[p + 1..]
        && |Survivors(items, slots, n + 1)| == p
        && Total(size, Survivors(items, slots, n + 1)) == Total(size, Survivors(items, slots, n))
  {
    var s := Survivors(items, slots, n);
    SweepBounds(items, slots, n);
    SweepStep(items, slots, n);
    assert (s + [items[n]])[..|s|] == s;
    assert s + [] == s;
  }
}
