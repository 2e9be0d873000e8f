// What a boot finds: after a completed write, a write or a collection cut short at any element, and
// after corruption.
module Recovery {
  import opened Wrappers
  import opened Elements
  import opened Log
  import opened SeqStates
  import opened Collect
  import opened NodeSpec
  import opened ListSpec

  // ---- after a write ----

  /** Cut before its last push, a write changes nothing for a fresh scan, whatever precedes it. */
  lemma InterruptedWriteIsInvisible(items: seq<Item>, w: seq<Item>, n: nat, k: nat, c: Cache)
    requires IsRecord(w) && n < |w|
    ensures Scanned(items + w[..n], k, c) <==> Scanned(items, k, c)
  {
    hide Good, IsRecord, IsTopK;
    InterruptedWrite(items, w, n);
  }

  /** Complete, it gives a fresh scan what the scan before it gave, with the new record inserted. */
  lemma CompletedWriteIsInserted(items: seq<Item>, w: seq<Item>, k: nat, c: Cache, c': Cache, inserted: Cache)
    requires IsRecord(w) && 0 < k && Scanned(items, k, c) && Scanned(items + w, k, c')
    requires Inserted(c, Appended(items, w), inserted)
    ensures |inserted.last| == k && forall m :: 0 <= m < k ==> Rank(c'.last[m]) == Rank(inserted.last[m])
    ensures DistinctSeqs(GoodRecords(items + w)) ==> c'.last == inserted.last
  {
    hide Crc, Bytes, IsTopK, Inserted;
    CompletedWrite(items, w);
    NewRecordIsNew(items, w);
    InsertKeepsTopK(GoodRecords(items), c, Appended(items, w), inserted);
    TopKIsUnique(GoodRecords(items + w), c'.last, inserted.last);
  }

  lemma NewRecordIsNew(items: seq<Item>, w: seq<Item>)
    requires IsRecord(w)
    ensures Appended(items, w) !in GoodRecords(items)
  {
    hide Crc, Bytes;
  }

  /** A list that has just started over the storage that `v` was served from. */
  ghost predicate FreshList(v: ListV, w: ListV) {
    && w.items == v.items
    && w.cache == EmptyCache(|v.cache.last|)
    && AllWellFormed(w.nodes)
    && forall i :: 0 <= i < |w.nodes| ==> w.nodes[i].state.Initial?
  }

  ghost predicate SameKind(a: Node, b: Node) {
    a.key == b.key && a.codec == b.codec
  }

  /** Write, reboot, read: a node whose key was written gets exactly the written value, every other
      node is non-resident. */
  lemma RebootRoundTrip(v: ListV, v': ListV, w: ListV, w': ListV, i: nat)
    requires ListInv(v) && Coherent(v.cache, v.items) && Writes(v, v') && v.cache.next.value < MAX_SEQ
    requires FreshList(v', w) && Reads(w, w') && i < |w.nodes|
    ensures forall j :: 0 <= j < |v.nodes| && Initialised(v.nodes[j].state) && SameKind(v.nodes[j], w.nodes[i]) ==>
              w'.nodes[i] == w.nodes[i].(state := ValidNoWriteNeeded, data := v.nodes[j].data)
    ensures (forall j :: 0 <= j < |v.nodes| && Initialised(v.nodes[j].state) ==> v.nodes[j].key != w.nodes[i].key) ==>
              w'.nodes[i] == w.nodes[i].(state := NonResident)
  {
    hide Coherent, Writes, LatestPayload, Written, EntryFor, Healthy, Durable, Populated;
    WritesKeepsInv(v, v');
    forall j | 0 <= j < |v.nodes| && Initialised(v.nodes[j].state) && SameKind(v.nodes[j], w.nodes[i])
      ensures w'.nodes[i] == w.nodes[i].(state := ValidNoWriteNeeded, data := v.nodes[j].data)
    {
      assert WellFormed(v.nodes[j]);
      WrittenIsFound(v.nodes, j);
    }
    if forall j :: 0 <= j < |v.nodes| && Initialised(v.nodes[j].state) ==> v.nodes[j].key != w.nodes[i].key {
      NotWritten(v.nodes, w.nodes[i].key);
    }
  }

  // ---- after a collection ----

  /** Cut after any number of its steps, a collection from a coherent cache, the too long range of the
      newest record included, leaves a storage in which a fresh scan finds the same sequence number in
      every slot and counts on from the same one. With distinct numbers, each record has the entries it
      had before. */
  lemma CollectionIsCrashSafe(items: seq<Item>, slots: Slots, n: nat, c: Cache, k: nat)
    requires n <= |items| && IsTopK(GoodRecords(items), Trimmed(slots, |items|))
    requires Scanned(Swept(items, slots, n), |slots|, c) && k < |slots|
    ensures c.next == NextSeq(slots)
    ensures c.last[k].Some? <==> slots[k].Some?
    ensures slots[k].Some? ==>
              && c.last[k].value.seqNo == slots[k].value.seqNo
              && Trimmed(slots, |items|)[k].Some? && IsGood(items, Trimmed(slots, |items|)[k].value)
    ensures slots[k].Some? && DistinctSeqs(GoodRecords(items)) ==>
              Holds(Swept(items, slots, n), c.last[k].value, Slice(items, Trimmed(slots, |items|)[k].value))
  {
    hide Good, Kept, Place, Holds, IsTopK, Swept, GoodRecords;
    var g, exact := Swept(items, slots, n), Trimmed(slots, |items|);
    SweepKeepsTopK(items, slots, n);
    TopKIsUnique(GoodRecords(g), c.last, Relocated(items, exact, n));
    SameNumbers(items, slots, n, c.last);
    if slots[k].Some? {
      TopKIsGood(items, exact, k);
      if DistinctSeqs(GoodRecords(items)) {
        SliceHolds(items, exact[k].value);
        SweepKeepsContent(items, slots, n, k, Slice(items, exact[k].value));
        SweepKeepsDistinct(items, slots, n);
      }
    }
  }

  lemma TopKIsGood(items: seq<Item>, slots: Slots, k: nat)
    requires IsTopK(GoodRecords(items), slots) && k < |slots| && slots[k].Some?
    ensures AllGood(items, slots)
    ensures IsGood(items, slots[k].value) && slots[k].value.start < slots[k].value.end < |items|
  {
    hide Crc, Bytes;
  }

  /** A slot's number is what a relocation keeps, and all that the next number depends on. */
  lemma SameNumbers(items: seq<Item>, slots: Slots, n: nat, found: Slots)
    requires n <= |items| && |found| == |slots|
    requires forall k :: 0 <= k < |slots| ==> Rank(found[k]) == Rank(Relocated(items, Trimmed(slots, |items|), n)[k])
    ensures NextSeq(found) == NextSeq(slots)
    ensures forall k :: 0 <= k < |slots| ==> Rank(found[k]) == Rank(slots[k])
    ensures forall k :: 0 <= k < |slots| ==> (found[k].Some? <==> slots[k].Some?)
    ensures forall k :: 0 <= k < |slots| ==> (Trimmed(slots, |items|)[k].Some? <==> slots[k].Some?)
  {
    hide Place;
    forall k | 0 <= k < |slots|
      ensures Rank(found[k]) == Rank(slots[k]) && (found[k].Some? <==> slots[k].Some?)
    {
      var exact := Trimmed(slots, |items|);
      assert Rank(Relocated(items, exact, n)[k]) == Rank(exact[k]) == Rank(slots[k]);
    }
  }

  lemma SweepKeepsOrder(items: seq<Item>, slots: Slots, n: nat, k: nat, m: nat)
    requires n <= |items| && AllGood(items, slots) && k < |slots| && m < |slots| && slots[k].Some? && slots[m].Some?
    requires slots[k].value.end < slots[m].value.start
    ensures Relocated(items, slots, n)[k].value.end < Relocated(items, slots, n)[m].value.start
  {
    var a, b := slots[k].value, slots[m].value;
    IsGoodRange(items, a);
    IsGoodRange(items, b);
    GoodIsKept(items, slots, k, a.end);
    if a.end < n {
      var upTo := if b.start < n then b.start else n;
      SurvivorsMonotone(items, slots, a.end, upTo);
    }
  }

  /** A finished collection from a coherent cache, the too long range of the newest record included,
      leaves precisely the cached records, one behind the other: every index is in one of them, no two
      share an index, they follow each other in the order they had, and each has the entries it had. */
  lemma CollectionIsExact(items: seq<Item>, slots: Slots)
    requires IsTopK(GoodRecords(items), Trimmed(slots, |items|))
    ensures var g, exact := Swept(items, slots, |items|), Trimmed(slots, |items|);
      var s := Relocated(items, exact, |items|);
      && Tiled(g, s)
      && (forall k :: 0 <= k < |slots| && exact[k].Some? ==>
            IsGood(items, exact[k].value) && Holds(g, s[k].value, Slice(items, exact[k].value)))
      && (forall k, m :: 0 <= k < |slots| && 0 <= m < |slots| && k != m && exact[k].Some? && exact[m].Some? ==>
            if exact[k].value.end < exact[m].value.start then s[k].value.end < s[m].value.start
            else s[m].value.end < s[k].value.start)
  {
    hide Good, Kept, Place, Sorted, Holds, Tiled, Swept;
    var exact := Trimmed(slots, |items|);
    assert AllGood(items, exact);
    FinishedSweepIsTiled(items, slots);
    forall k | 0 <= k < |slots| && exact[k].Some?
      ensures var r := exact[k].value;
        && IsGood(items, r) && r.start < r.end < |items|
        && Holds(Swept(items, slots, |items|), Relocated(items, exact, |items|)[k].value, Slice(items, r))
    {
      IsGoodRange(items, exact[k].value);
      SliceHolds(items, exact[k].value);
      SweepKeepsContent(items, slots, |items|, k, Slice(items, exact[k].value));
    }
    forall k, m | 0 <= k < |slots| && 0 <= m < |slots| && k != m && exact[k].Some? && exact[m].Some?
      ensures var s := Relocated(items, exact, |items|);
        if exact[k].value.end < exact[m].value.start then s[k].value.end < s[m].value.start
        else s[m].value.end < s[k].value.start
    {
      assert exact[k] != exact[m];
      GoodRecordsNeverOverlap(items, exact[k].value, exact[m].value);
      IsGoodRange(items, exact[m].value);
      IsGoodRange(items, exact[k].value);
      if exact[k].value.end < exact[m].value.start {
        SweepKeepsOrder(items, exact, |items|, k, m);
      } else {
        SweepKeepsOrder(items, exact, |items|, m, k);
      }
    }
  }

  lemma SweptRecords(items: seq<Item>, slots: Slots)
    requires AllGood(items, Trimmed(slots, |items|))
    ensures AllGood(Swept(items, slots, |items|), Relocated(items, Trimmed(slots, |items|), |items|))
  {
    hide Good, Kept, Place, Swept, Trimmed;
    var exact := Trimmed(slots, |items|);
    TrimmedSameLength(slots, |items|);
    forall k | 0 <= k < |exact| && exact[k].Some?
      ensures IsGood(Swept(items, slots, |items|), Relocated(items, exact, |items|)[k].value)
    {
      IsGoodRange(items, exact[k].value);
      SliceHolds(items, exact[k].value);
      SweepKeepsContent(items, slots, |items|, k, Slice(items, exact[k].value));
    }
  }

  /** From any cache of valid records, a finished collection keeps a record's number if and only if that
      record is cached: all others are lost. */
  lemma CollectionKeepsIff(items: seq<Item>, slots: Slots, r: Rec)
    requires AllGood(items, Trimmed(slots, |items|)) && DistinctSeqs(GoodRecords(items)) && r in GoodRecords(items)
    ensures Some(r) in Trimmed(slots, |items|)
       <==> exists r' :: r' in GoodRecords(Swept(items, slots, |items|)) && r'.seqNo == r.seqNo
  {
    hide Good, Kept, Place, Swept, Trimmed, Tiled;
    var g, exact := Swept(items, slots, |items|), Trimmed(slots, |items|);
    var s := Relocated(items, exact, |items|);
    SweptRecords(items, slots);
    FinishedSweepIsTiled(items, slots);
    if Some(r) in exact {
      var k :| 0 <= k < |exact| && exact[k] == Some(r);
      assert s[k].value in GoodRecords(g) && s[k].value.seqNo == r.seqNo;
    }
    if r' :| r' in GoodRecords(g) && r'.seqNo == r.seqNo {
      TiledHasNoOthers(g, s, r');
      var k :| 0 <= k < |s| && s[k] == Some(r');
      assert exact[k].value in GoodRecords(items);
    }
  }

  lemma SliceHolds(items: seq<Item>, r: Rec)
    requires IsGood(items, r) && r.start < r.end < |items|
    ensures Holds(items, r, Slice(items, r))
  {
    hide Good;
  }

  lemma IsGoodRange(items: seq<Item>, r: Rec)
    requires IsGood(items, r)
    ensures r.start < r.end < |items|
  {
    hide Crc, Bytes;
  }

  lemma DistinctOfHealthy(items: seq<Item>)
    requires Healthy(items)
    ensures DistinctSeqs(GoodRecords(items))
  {
  }

  // ---- after corruption ----

  /** The valid records that no corruption has touched. */
  ghost function Intact(items: seq<Item>, bad: set<nat>): set<Rec> {
    set r | r in GoodRecords(items) && Untouched(r, bad)
  }

  /** Making any set of elements undecodable costs a fresh scan the records that contain one of them
      and no others. With distinct numbers among the rest, it falls back to the highest untouched record. */
  lemma BootFallsBack(items: seq<Item>, bad: set<nat>, after: seq<Item>, k: nat, c: Cache)
    requires Corrupted(items, bad, after) && 0 < k && Scanned(after, k, c)
    ensures IsTopK(Intact(items, bad), c.last)
    ensures Highest(c.last).None? <==> Intact(items, bad) == {}
    ensures Highest(c.last).Some? && DistinctSeqs(Intact(items, bad)) ==>
              var r := Highest(c.last).value;
              && IsLatest(Intact(items, bad), r)
              && r.start < r.end < |items|
              && LatestPayload(after) == Some(items[r.start + 1..r.end])
  {
    hide Good, IsTopK;
    assert GoodRecords(after) == Intact(items, bad) by {
      forall r ensures r in GoodRecords(after) <==> r in Intact(items, bad) {
        CorruptionIsIsolated(items, bad, after, r);
      }
    }
    HighestIsNoneIff(GoodRecords(after), c.last);
    if Highest(c.last).Some? && DistinctSeqs(Intact(items, bad)) {
      HighestIsLatest(GoodRecords(after), c.last);
      LatestPayloadIs(after, Highest(c.last).value);
      UntouchedPayload(items, bad, after, Highest(c.last).value);
    }
  }

  lemma UntouchedPayload(items: seq<Item>, bad: set<nat>, after: seq<Item>, r: Rec)
    requires Corrupted(items, bad, after) && Untouched(r, bad) && r.start < r.end < |items|
    ensures after[r.start + 1..r.end] == items[r.start + 1..r.end]
  {
  }
}
