// Hydration from the latest record (extract_all): which stretch of the queue is read, and what a
// read, finished or not, amounts to.
module Reading {
  import opened Wrappers
  import opened Elements
  import opened Log
  import opened SeqStates
  import opened Collect
  import opened NodeSpec
  import opened ListSpec
  import opened Scan

  /** What extraction accepts as the record it was sent to, ending at `e`. */
  ghost predicate Extractable(items: seq<Item>, r: Rec, e: nat) {
    && e < |items|
    && OpenAt(items, r.start, e)
    && items[r.start] == Start(r.seqNo)
    && items[e].End? && items[e].seqNo == r.seqNo
  }

  ghost predicate RunOfData(items: seq<Item>, from: nat, payload: seq<Item>) {
    && from + |payload| <= |items|
    && payload == items[from..from + |payload|]
    && forall k :: from <= k < from + |payload| ==> items[k].Data?
  }

  /** The bytes a completed read has gone through: those of the scan, if there was one, and those up to
      the end of the latest record, if there is one. */
  ghost predicate ReadThrough(size: Item -> nat, items: seq<Item>, scanned: bool, latest: Option<Rec>, total: nat) {
    var scan := if scanned then Total(size, items) else 0;
    match latest
    case None => total == scan
    case Some(r) => exists e: nat :: Extractable(items, r, e) && total == scan + Total(size, items[..e + 1])
  }

  function OrNone(payload: Option<seq<Item>>): seq<Item> {
    if payload.Some? then payload.value else []
  }

  lemma CoherentIsEmpty(c: Cache, items: seq<Item>)
    requires Coherent(c, items) && c.next.None?
    ensures c == EmptyCache(|c.last|)
  {
    assert c.last == EmptySlots(|c.last|);
  }

  /** What a populated coherent cache points at is the latest valid record, and extraction from it
      can only end at its end. */
  lemma CachedLatest(c: Cache, items: seq<Item>, c': Cache)
    requires Healthy(items) && Coherent(c, items)
    requires if c.next.Some? then c' == c else Scanned(items, |c.last|, c')
    ensures Populated(c, items, c')
    ensures Highest(c'.last).None? <==> LatestPayload(items).None?
    ensures Highest(c'.last).Some? ==> LatestPayload(items).Some? && ExtractsLatest(items, Highest(c'.last).value)
  {
    hide Good, IsTopK;
    PopulatedIsCoherent(c, items, c');
    var exact := Trimmed(c'.last, |items|);
    LatestOfTopK(items, exact);
    if Highest(exact).Some? {
      ExtractableEnds(items, Highest(c'.last).value, Highest(exact).value);
    }
  }

  ghost predicate ExtractsLatest(items: seq<Item>, latest: Rec) {
    && LatestPayload(items).Some?
    && (exists e: nat :: Extractable(items, latest, e))
    && (forall e: nat :: Extractable(items, latest, e) ==> items[latest.start + 1..e] == LatestPayload(items).value)
    && RunOfData(items, latest.start + 1, LatestPayload(items).value)
    && latest.start + 1 + |LatestPayload(items).value| < |items|
    && items[latest.start + 1 + |LatestPayload(items).value|].End?
  }

  lemma ExtractableEnds(items: seq<Item>, latest: Rec, exact: Rec)
    requires IsGood(items, exact) && exact.start == latest.start && exact.seqNo == latest.seqNo
    requires exact.start < exact.end < |items| && LatestPayload(items) == Some(items[exact.start + 1..exact.end])
    ensures ExtractsLatest(items, latest)
  {
    hide Crc, Bytes;
    assert Extractable(items, latest, exact.end);
  }

  lemma PrefixOfRun(items: seq<Item>, from: nat, payload: seq<Item>, all: seq<Item>)
    requires RunOfData(items, from, payload) && RunOfData(items, from, all)
    requires from + |all| < |items| && items[from + |all|].End?
    ensures |payload| <= |all| && payload == all[..|payload|]
  {
    assert !items[from + |all|].Data?;
    forall k | 0 <= k < |payload| ensures payload[k] == all[k] {
      assert payload[k] == items[from + k] == all[k];
    }
  }

  /** Reading, except that nodes without data are still waiting. */
  ghost predicate ReadsAlmost(v: ListV, v': ListV) {
    && Populated(v.cache, v.items, v'.cache) && v'.items == v.items
    && if LatestPayload(v.items).Some? then AllHydrated(v.nodes, v'.nodes, LatestPayload(v.items).value)
       else v'.nodes == v.nodes
  }

  /** A failed read has stopped in the scan, or while extracting. */
  ghost predicate ReadFails(v: ListV, v': ListV) {
    || (v'.nodes == v.nodes && v'.items == v.items && PartlyScanned(v.items, v'.cache))
    || exists n :: ReadsPartly(v, v', n)
  }

  lemma ReadsIntro(v: ListV, mid: ListV, v': ListV)
    requires ReadsAlmost(v, mid)
    requires v'.cache == mid.cache && v'.items == mid.items && |v'.nodes| == |mid.nodes|
    requires forall k :: 0 <= k < |mid.nodes| ==> v'.nodes[k] == MarkedNonResident(mid.nodes[k])
    ensures Reads(v, v')
  {
    hide Hydrated;
  }

  ghost predicate PartlyHydrated(before: seq<Node>, after: seq<Node>, payload: seq<Item>) {
    exists n :: 0 <= n <= |payload| && AllHydrated(before, after, payload[..n])
  }

  lemma PrefixOfLatest(items: seq<Item>, latest: Rec, payload: seq<Item>)
    requires ExtractsLatest(items, latest)
    requires payload == [] || RunOfData(items, latest.start + 1, payload)
    ensures |payload| <= |LatestPayload(items).value| && payload == LatestPayload(items).value[..|payload|]
  {
    hide LatestPayload;
    if payload != [] {
      PrefixOfRun(items, latest.start + 1, payload, LatestPayload(items).value);
    }
  }

  lemma ReadsPartlyIntro(v: ListV, v': ListV)
    requires Populated(v.cache, v.items, v'.cache) && v'.items == v.items
    requires LatestPayload(v.items).Some? && PartlyHydrated(v.nodes, v'.nodes, LatestPayload(v.items).value)
    ensures ReadFails(v, v')
  {
    hide Hydrated, Populated, LatestPayload, PartlyScanned;
    var all := LatestPayload(v.items).value;
    var n :| 0 <= n <= |all| && AllHydrated(v.nodes, v'.nodes, all[..n]);
    assert ReadsPartly(v, v', n);
  }
}
