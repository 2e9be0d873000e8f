// The scan loop, entry by entry: how each entry changes the valid records seen so far.
module Scan {
  import opened Wrappers
  import opened Elements
  import opened Log
  import opened SeqStates
  import opened ListSpec

  lemma OpenIsUnique(items: seq<Item>, i: nat, j: nat, p: nat)
    requires OpenAt(items, i, p) && OpenAt(items, j, p)
    ensures i == j
  {
  }

  lemma OpenInPrefix(items: seq<Item>, i: nat, p: nat)
    requires p <= |items|
    ensures OpenAt(items[..p], i, p) <==> OpenAt(items, i, p)
  {
    assert forall k :: 0 <= k < p ==> items[..p][k] == items[k];
    if OpenAt(items[..p], i, p) {
      forall k | i < k < p ensures items[k].Data? {
        assert items[..p][k].Data?;
      }
    }
  }

  lemma BytesOfPush(items: seq<Item>, i: nat, p: nat)
    requires i <= p < |items| && items[p].Data?
    ensures Bytes(items[i..p + 1]) == Bytes(items[i..p]) + items[p].keyVal
  {
    assert items[i..p + 1][..p - i] == items[i..p];
  }

  /** An entry other than an end changes nothing. */
  lemma ScanOther(items: seq<Item>, p: nat)
    requires p < |items| && !items[p].End?
    ensures GoodRecords(items[..p + 1]) == GoodRecords(items[..p])
  {
    assert items[..p + 1] == items[..p] + [items[p]];
    PushWithoutEnd(items[..p], [items[p]]);
  }

  /** An end that no open record matches is skipped. */
  lemma ScanEndRejected(items: seq<Item>, p: nat)
    requires p < |items| && items[p].End?
    requires forall i: nat :: OpenAt(items, i, p) ==> items[p] != End(items[i].seqNo, Crc(Bytes(items[i + 1..p])))
    ensures GoodRecords(items[..p + 1]) == GoodRecords(items[..p])
  {
    hide Crc, Bytes;
    var pre := items[..p];
    assert items[..p + 1] == pre + [items[p]];
    forall r ensures r in GoodRecords(pre + [items[p]]) <==> r in GoodRecords(pre) {
      PushKeeps(pre, [items[p]], r);
      if IsGood(pre + [items[p]], r) && p <= r.end {
        EndClosesOpen(pre, items[p], r.start);
        OpenInPrefix(items, r.start, p);
        assert pre[r.start + 1..] == items[r.start + 1..p];
      }
    }
  }

  /** The end of the open record, with the right checksum, adds that record. */
  lemma ScanEndAccepted(items: seq<Item>, p: nat, i: nat)
    requires p < |items| && OpenAt(items, i, p)
    requires items[p] == End(items[i].seqNo, Crc(Bytes(items[i + 1..p])))
    ensures GoodRecords(items[..p + 1]) == GoodRecords(items[..p]) + {Rec(items[i].seqNo, i, p)}
    ensures Rec(items[i].seqNo, i, p) !in GoodRecords(items[..p])
  {
    hide Crc, Bytes;
    var pre, added := items[..p], Rec(items[i].seqNo, i, p);
    assert items[..p + 1] == pre + [items[p]];
    OpenInPrefix(items, i, p);
    assert pre[i + 1..] == items[i + 1..p];
    EndClosesOpen(pre, items[p], i);
    forall r ensures r in GoodRecords(pre + [items[p]]) <==> r in GoodRecords(pre) || r == added {
      PushKeeps(pre, [items[p]], r);
      if IsGood(pre + [items[p]], r) && p <= r.end {
        EndClosesOpen(pre, items[p], r.start);
        OpenIsUnique(pre, r.start, i, p);
      }
    }
  }

  // ---- the state of the scan ----

  /** What the scan knows after the first `p` entries: the valid records among them, and the record
      that is still open. */
  ghost predicate ScanState(items: seq<Item>, p: nat, c: Cache, current: Option<(SeqNo, nat)>, crc: u32) {
    && p <= |items|
    && 0 < |c.last|
    && IsTopK(GoodRecords(items[..p]), c.last)
    && c.next == (if Highest(c.last).None? then None else NextAfter(c.last))
    && (c.needsGc <==> Highest(c.last).Some?)
    && (current.None? ==> NothingOpen(items, p))
    && (current.Some? ==>
         && OpenAt(items, current.value.1, p)
         && items[current.value.1] == Start(current.value.0)
         && crc == Update(CRC_INIT, Bytes(items[current.value.1 + 1..p])))
  }

  /** The scan has got as far as `p`. */
  ghost predicate ScannedUpTo(items: seq<Item>, p: nat, c: Cache) {
    exists current, crc :: ScanState(items, p, c, current, crc)
  }

  /** The scan has stopped somewhere. */
  ghost predicate PartlyScanned(items: seq<Item>, c: Cache) {
    exists p, current, crc :: ScanState(items, p, c, current, crc)
  }

  lemma ScanStarts(items: seq<Item>, k: nat, crc: u32)
    requires 0 < k
    ensures ScanState(items, 0, EmptyCache(k), None, crc)
  {
    assert items[..0] == [];
  }

  lemma ScanStepOther(items: seq<Item>, p: nat, c: Cache, current: Option<(SeqNo, nat)>, crc: u32)
    requires ScanState(items, p, c, current, crc) && p < |items|
    ensures items[p].Junk? ==> ScanState(items, p + 1, c, None, crc)
    ensures items[p].Start? ==> ScanState(items, p + 1, c, Some((items[p].seqNo, p)), CRC_INIT)
    ensures items[p].Data? && current.None? ==> ScanState(items, p + 1, c, None, crc)
  {
    hide Good, IsTopK, Crc;
    if !items[p].End? {
      ScanOther(items, p);
    }
    if items[p].Data? && current.None? {
      StillNothingOpen(items, p);
    }
  }

  lemma StillNothingOpen(items: seq<Item>, p: nat)
    requires p < |items| && items[p].Data? && NothingOpen(items, p)
    ensures NothingOpen(items, p + 1)
  {
    var q := p + 1;
    forall i: nat ensures !OpenAt(items, i, q) {
      assert !OpenAt(items, i, p);
    }
  }

  lemma ScanStepData(items: seq<Item>, p: nat, c: Cache, current: Option<(SeqNo, nat)>, crc: u32)
    requires ScanState(items, p, c, current, crc) && p < |items| && items[p].Data? && current.Some?
    ensures ScanState(items, p + 1, c, current, Update(crc, items[p].keyVal))
  {
    hide Good, IsTopK, Crc, CrcStep;
    ScanOther(items, p);
    BytesOfPush(items, current.value.1 + 1, p);
    UpdateAppend(CRC_INIT, Bytes(items[current.value.1 + 1..p]), items[p].keyVal);
  }

  /** The scan accepts the end at `p`. */
  predicate Accepts(item: Item, current: Option<(SeqNo, nat)>, crc: u32)
    requires item.End?
  {
    current.Some? && current.value.0 == item.seqNo && item.calcCrc == Finalize(crc)
  }

  lemma ScanStepEnd(items: seq<Item>, p: nat, c: Cache, current: Option<(SeqNo, nat)>, crc: u32, c': Cache)
    requires ScanState(items, p, c, current, crc) && p < |items| && items[p].End?
    requires if Accepts(items[p], current, crc)
             then Inserted(c, Rec(items[p].seqNo, current.value.1, p), c') else c' == c
    ensures ScanState(items, p + 1, c', None, CRC_INIT) && |c'.last| == |c.last|
  {
    hide Good, IsTopK, Bytes, Update;
    if Accepts(items[p], current, crc) {
      ScanEndAccepted(items, p, current.value.1);
      InsertKeepsTopK(GoodRecords(items[..p]), c, Rec(items[p].seqNo, current.value.1, p), c');
      TopKIsSorted(GoodRecords(items[..p]), c.last);
      InsertedNext(c, Rec(items[p].seqNo, current.value.1, p), c');
    } else {
      forall i: nat | OpenAt(items, i, p) ensures items[p] != End(items[i].seqNo, Crc(Bytes(items[i + 1..p]))) {
        if current.Some? {
          OpenIsUnique(items, i, current.value.1, p);
        }
      }
      ScanEndRejected(items, p);
    }
  }

  lemma TopKIsSorted(recs: set<Rec>, slots: Slots)
    requires IsTopK(recs, slots)
    ensures Sorted(slots)
  {
  }

  /** At the end of the queue the scan is complete, once an empty result has been marked. */
  lemma ScanEnds(items: seq<Item>, c: Cache, current: Option<(SeqNo, nat)>, crc: u32)
    requires ScanState(items, |items|, c, current, crc)
    ensures Scanned(items, |c.last|, if Highest(c.last).None? then c.(next := Some(1)) else c)
  {
    assert items[..|items|] == items;
  }

  lemma InsertedNext(c: Cache, rec: Rec, c': Cache)
    requires 0 < |c.last| && Sorted(c.last) && Inserted(c, rec, c')
    requires c.next == (if Highest(c.last).None? then None else NextAfter(c.last))
    requires c.needsGc <==> Highest(c.last).Some?
    ensures Highest(c'.last).Some? && c'.next == NextAfter(c'.last) && c'.needsGc
  {
    if c.last[0].Some? && rec.seqNo < c.last[0].value.seqNo {
      assert Rank(c.last[0]) <= Rank(c.last[|c.last| - 1]);
    } else {
      SameLength(c'.last, c.last[0 := Some(rec)]);
      MembersAfterInsert(c.last, rec, c'.last, Some(rec));
      var k :| 0 <= k < |c'.last| && c'.last[k] == Some(rec);
      assert Rank(c'.last[k]) <= Rank(c'.last[|c'.last| - 1]);
    }
  }
}
