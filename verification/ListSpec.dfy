// What the operations of a storage list do (storage_list.rs), as relations between values of the
// list, and the invariants they keep.
module ListSpec {
  import opened Wrappers
  import opened Elements
  import opened KeyValue
  import opened Log
  import opened SeqStates
  import opened Collect
  import opened NodeSpec

  /** A list: its attached nodes in list order, its cache, and the storage it is served from. */
  datatype ListV = ListV(nodes: seq<Node>, cache: Cache, items: seq<Item>)

  // ---- what the storage holds ----

  /** Data elements of the latest valid record of the storage, if there is exactly one latest. */
  ghost function LatestPayload(items: seq<Item>): Option<seq<Item>> {
    if exists r :: IsLatest(GoodRecords(items), r) then
      var r :| IsLatest(GoodRecords(items), r);
      Some(items[r.start + 1..r.end])
    else None
  }

  lemma LatestPayloadIs(items: seq<Item>, r: Rec)
    requires IsLatest(GoodRecords(items), r)
    ensures r.start < r.end < |items| && LatestPayload(items) == Some(items[r.start + 1..r.end])
  {
    hide Crc, Bytes;
  }

  /** Payload of the record that a cache points at. */
  lemma LatestOfTopK(items: seq<Item>, slots: Slots)
    requires IsTopK(GoodRecords(items), slots) && DistinctSeqs(GoodRecords(items)) && 0 < |slots|
    ensures Highest(slots).None? ==> LatestPayload(items) == None
    ensures Highest(slots).Some? ==>
              && IsGood(items, Highest(slots).value)
              && Highest(slots).value.start < Highest(slots).value.end < |items|
              && LatestPayload(items) == Some(items[Highest(slots).value.start + 1..Highest(slots).value.end])
  {
    hide Good;
    HighestIsLatest(GoodRecords(items), slots);
    if Highest(slots).Some? {
      LatestPayloadIs(items, Highest(slots).value);
    }
  }

  lemma SlicePayload(items: seq<Item>, r: Rec)
    requires r.start < r.end < |items|
    ensures Slice(items, r)[1..r.end - r.start] == items[r.start + 1..r.end]
  {
    var a, b := Slice(items, r)[1..r.end - r.start], items[r.start + 1..r.end];
    assert |a| == |b| == r.end - r.start - 1;
    forall k | 0 <= k < |a| ensures a[k] == b[k] {
      assert a[k] == Slice(items, r)[k + 1] == items[r.start + 1 + k];
    }
  }

  /** Latest records with the same entries have the same payload. */
  lemma SameLatest(items: seq<Item>, r: Rec, items': seq<Item>, r': Rec)
    requires IsLatest(GoodRecords(items), r) && IsLatest(GoodRecords(items'), r')
    requires r.start < r.end < |items| && r'.start < r'.end < |items'|
    requires Slice(items, r) == Slice(items', r')
    ensures LatestPayload(items) == LatestPayload(items')
  {
    hide Good;
    LatestPayloadIs(items, r);
    LatestPayloadIs(items', r');
    assert |Slice(items, r)| == |Slice(items', r')|;
    SlicePayload(items, r);
    SlicePayload(items', r');
  }

  /** No two valid records share a sequence number, and the next one can still be counted up to. */
  ghost predicate Healthy(items: seq<Item>) {
    && DistinctSeqs(GoodRecords(items))
    && forall r :: r in GoodRecords(items) ==> r.seqNo < MAX_SEQ
  }

  // ---- durability ----

  /** A node that needs no write holds exactly the value of the first entry for its key. */
  ghost predicate Clean(n: Node, latest: Option<seq<Item>>) {
    n.state.ValidNoWriteNeeded? ==>
      && latest.Some?
      && EntryFor(latest.value, n.key).Some?
      && n.codec.decode(EntryFor(latest.value, n.key).value) == n.data
  }

  ghost predicate Durable(nodes: seq<Node>, items: seq<Item>) {
    forall i :: 0 <= i < |nodes| ==> Clean(nodes[i], LatestPayload(items))
  }

  /** The latest valid record gives a node with this key and codec the value `v`. */
  ghost predicate StoredIn(items: seq<Item>, key: Key, codec: Codec, v: Value) {
    && LatestPayload(items).Some?
    && EntryFor(LatestPayload(items).value, key).Some?
    && codec.decode(EntryFor(LatestPayload(items).value, key).value) == Some(v)
  }

  // ---- the cache ----

  function NextSeq(slots: Slots): Option<SeqNo> {
    if Highest(slots).None? then Some(1) else NextAfter(slots)
  }

  predicate NoStart(items: seq<Item>, s: SeqNo) {
    forall k :: 0 <= k < |items| ==> items[k] != Start(s)
  }

  /** Either nothing is cached, or the cache is what a fresh scan would find. Without a pending
      collection its ranges are exact. */
  ghost predicate Coherent(c: Cache, items: seq<Item>) {
    && 0 < |c.last|
    && (c.next.None? ==> Empty(c.last) && !c.needsGc)
    && (c.next.Some? ==>
         && IsTopK(GoodRecords(items), Trimmed(c.last, |items|))
         && c.next == NextSeq(c.last)
         && (c.needsGc ==> Highest(c.last).Some?)
         && (!c.needsGc ==> Trimmed(c.last, |items|) == c.last))
  }

  /** With a record cached and no collection pending, no aborted write has left a start behind that
      carries the next sequence number. */
  ghost predicate NextUnused(c: Cache, items: seq<Item>) {
    c.next.Some? && !c.needsGc && Highest(c.last).Some? ==> NoStart(items, c.next.value)
  }

  /** What a completed scan of `items` leaves in a cache of `k` slots that was empty. */
  ghost predicate Scanned(items: seq<Item>, k: nat, c: Cache) {
    && |c.last| == k
    && IsTopK(GoodRecords(items), c.last)
    && c.next == NextSeq(c.last)
    && (c.needsGc <==> Highest(c.last).Some?)
  }

  /** What a completed scan says about the next number. */
  lemma ScannedIsLatest(items: seq<Item>, k: nat, c: Cache)
    requires Scanned(items, k, c) && 0 < k
    ensures match Highest(c.last)
            case None => GoodRecords(items) == {} && c.next == Some(1) && !c.needsGc
            case Some(latest) =>
              && latest in GoodRecords(items)
              && (forall other :: other in GoodRecords(items) ==> other.seqNo <= latest.seqNo)
              && c.next == (if latest.seqNo == 0xFFFF_FFFF then None else Some(latest.seqNo + 1))
              && c.needsGc
  {
    hide IsGood;
    HighestIsNoneIff(GoodRecords(items), c.last);
    forall other | other in GoodRecords(items) ensures other.seqNo <= Highest(c.last).value.seqNo {
      NextIsAboveAll(GoodRecords(items), c.last, other);
    }
  }

  function EmptyCache(k: nat): Cache {
    Cache(None, EmptySlots(k), false)
  }

  // ---- the operations ----

  /** The cache after `get_or_populate_latest`. */
  ghost predicate Populated(c: Cache, items: seq<Item>, c': Cache) {
    if c.next.Some? then c' == c else Scanned(items, |c.last|, c')
  }

  /** `process_reads` returns Ok. */
  ghost predicate Reads(v: ListV, v': ListV) {
    && Populated(v.cache, v.items, v'.cache)
    && v'.items == v.items
    && |v'.nodes| == |v.nodes|
    && forall i :: 0 <= i < |v.nodes| ==> v'.nodes[i] == ReadNode(v.nodes[i], LatestPayload(v.items))
  }

  /** `process_reads` fails while extracting: some entries have been dealt with. */
  ghost predicate ReadsPartly(v: ListV, v': ListV, n: nat) {
    && Populated(v.cache, v.items, v'.cache)
    && v'.items == v.items
    && |v'.nodes| == |v.nodes|
    && LatestPayload(v.items).Some? && n <= |LatestPayload(v.items).value|
    && forall i :: 0 <= i < |v.nodes| ==> v'.nodes[i] == Hydrated(v.nodes[i], LatestPayload(v.items).value[..n])
  }

  /** The record that a write with sequence number `s` pushes. */
  ghost function RecordFor(nodes: seq<Node>, s: SeqNo): seq<Item>
    requires AllWellFormed(nodes)
  {
    [Start(s)] + Written(nodes) + [End(s, Crc(Bytes(Written(nodes))))]
  }

  predicate NeedsWriting(nodes: seq<Node>, c: Cache) {
    (exists i :: 0 <= i < |nodes| && nodes[i].state.NeedsWrite?) || Highest(c.last).None?
  }

  predicate NoneInitial(nodes: seq<Node>) {
    forall i :: 0 <= i < |nodes| ==> !nodes[i].state.Initial?
  }

  /** `process_writes` gets as far as pushing. */
  predicate MayWrite(v: ListV) {
    v.cache.next.Some? && !v.cache.needsGc && NoneInitial(v.nodes) && NeedsWriting(v.nodes, v.cache)
  }

  /** `process_writes` has written and verified a record. */
  ghost predicate Writes(v: ListV, v': ListV) {
    && AllWellFormed(v.nodes) && 0 < |v.cache.last| && MayWrite(v)
    && var s := v.cache.next.value;
       && v'.items == v.items + RecordFor(v.nodes, s)
       && Inserted(v.cache, Rec(s, |v.items|, |v'.items|), v'.cache)
       && |v'.nodes| == |v.nodes|
       && forall i :: 0 <= i < |v.nodes| ==> v'.nodes[i] == Flushed(v.nodes[i])
  }

  /** `process_writes` fails after `n` pushes, verification included. */
  ghost predicate WriteFails(v: ListV, v': ListV, n: nat) {
    && AllWellFormed(v.nodes) && MayWrite(v)
    && v'.nodes == v.nodes && v'.cache == v.cache
    && n <= |RecordFor(v.nodes, v.cache.next.value)|
    && v'.items == v.items + RecordFor(v.nodes, v.cache.next.value)[..n]
  }

  ghost predicate WriteAborts(v: ListV, v': ListV) {
    exists n :: WriteFails(v, v', n)
  }

  // ---- what the operations keep ----

  /** Invariant of a list in every state, collections and failed operations included. */
  ghost predicate ListInv(v: ListV) {
    && AllWellFormed(v.nodes)
    && UniqueKeys(v.nodes)
    && 0 < |v.cache.last|
    && Healthy(v.items)
    && Durable(v.nodes, v.items)
  }

  lemma TrimmedExact(items: seq<Item>, slots: Slots)
    requires IsTopK(GoodRecords(items), slots)
    ensures Trimmed(slots, |items|) == slots
  {
    hide Crc, Bytes;
  }

  lemma ScannedIsCoherent(items: seq<Item>, k: nat, c: Cache)
    requires 0 < k && Healthy(items) && Scanned(items, k, c)
    ensures c.next.Some? && Coherent(c, items)
  {
    hide Good;
    TrimmedExact(items, c.last);
    if Highest(c.last).Some? {
      assert c.last[|c.last| - 1].value in GoodRecords(items);
    }
  }

  lemma PopulatedIsCoherent(c: Cache, items: seq<Item>, c': Cache)
    requires Healthy(items) && Coherent(c, items) && Populated(c, items, c')
    ensures c'.next.Some? && Coherent(c', items) && |c'.last| == |c.last|
  {
    hide Good;
    if c.next.None? {
      ScannedIsCoherent(items, |c.last|, c');
    }
  }

  lemma ReadNodeIsClean(n: Node, latest: Option<seq<Item>>)
    requires WellFormed(n) && Clean(n, latest)
    ensures var n' := ReadNode(n, latest);
      n'.key == n.key && WellFormed(n') && Clean(n', latest) && !n'.state.Initial?
  {
  }

  /** Reading keeps the list's invariant, and after it every node has been decided. */
  lemma ReadsKeepsInv(v: ListV, v': ListV)
    requires ListInv(v) && Coherent(v.cache, v.items) && Reads(v, v')
    ensures ListInv(v') && Coherent(v'.cache, v'.items) && v'.cache.next.Some? && NoneInitial(v'.nodes)
    ensures NextUnused(v.cache, v.items) ==> NextUnused(v'.cache, v'.items)
  {
    hide Good;
    PopulatedIsCoherent(v.cache, v.items, v'.cache);
    forall i | 0 <= i < |v.nodes|
      ensures v'.nodes[i].key == v.nodes[i].key && WellFormed(v'.nodes[i])
      ensures Clean(v'.nodes[i], LatestPayload(v.items)) && !v'.nodes[i].state.Initial?
    {
      ReadNodeIsClean(v.nodes[i], LatestPayload(v.items));
    }
  }

  lemma HydratedIsClean(n: Node, payload: seq<Item>, k: nat)
    requires WellFormed(n) && Clean(n, Some(payload)) && k <= |payload|
    ensures var n' := Hydrated(n, payload[..k]); n'.key == n.key && WellFormed(n') && Clean(n', Some(payload))
  {
    assert payload[..k] + payload[k..] == payload;
    if EntryFor(payload[..k], n.key).Some? {
      FirstEntryStays(payload[..k], payload[k..], n.key);
    }
  }

  lemma ReadsPartlyKeepsInv(v: ListV, v': ListV, k: nat)
    requires ListInv(v) && Coherent(v.cache, v.items) && ReadsPartly(v, v', k)
    ensures ListInv(v') && Coherent(v'.cache, v'.items)
    ensures NextUnused(v.cache, v.items) ==> NextUnused(v'.cache, v'.items)
  {
    hide Good;
    PopulatedIsCoherent(v.cache, v.items, v'.cache);
    forall i | 0 <= i < |v.nodes|
      ensures v'.nodes[i].key == v.nodes[i].key && WellFormed(v'.nodes[i])
      ensures Clean(v'.nodes[i], LatestPayload(v.items))
    {
      HydratedIsClean(v.nodes[i], LatestPayload(v.items).value, k);
    }
  }

  lemma RecordForIsRecord(nodes: seq<Node>, s: SeqNo)
    requires AllWellFormed(nodes)
    ensures IsRecord(RecordFor(nodes, s)) && RecordFor(nodes, s)[0] == Start(s)
    ensures RecordFor(nodes, s)[1..|RecordFor(nodes, s)| - 1] == Written(nodes)
  {
    hide Crc, Bytes, Written;
    WrittenIsData(nodes);
    var w := RecordFor(nodes, s);
    assert w[1..|w| - 1] == Written(nodes);
  }

  /** A cache without pending collection promises a sequence number above every valid record. */
  lemma NextIsFresh(c: Cache, items: seq<Item>, r: Rec)
    requires Coherent(c, items) && c.next.Some? && !c.needsGc && r in GoodRecords(items)
    ensures r.seqNo < c.next.value && c.last[0] != Some(r.(seqNo := c.next.value))
  {
    hide Good;
    NextIsAboveAll(GoodRecords(items), c.last, r);
  }

  /** A failed write leaves the latest valid record as it was, or has pushed a complete new one that
      holds every initialised node. */
  lemma WriteFailsKeepsInv(v: ListV, v': ListV, n: nat)
    requires ListInv(v) && Coherent(v.cache, v.items) && WriteFails(v, v', n)
    requires v.cache.next.value < MAX_SEQ
    ensures ListInv(v')
  {
    hide Good, IsRecord, Written;
    var s := v.cache.next.value;
    var w := RecordFor(v.nodes, s);
    RecordForIsRecord(v.nodes, s);
    if n < |w| {
      InterruptedWrite(v.items, w, n);
      InterruptedKeepsLatest(v.items, w[..n]);
    } else {
      assert w[..n] == w;
      AppendedIsLatest(v.cache, v.items, v.nodes);
      forall i | 0 <= i < |v.nodes| ensures Clean(v.nodes[i], Some(Written(v.nodes))) {
        WrittenIsClean(v.nodes, i);
      }
    }
  }

  lemma InterruptedKeepsLatest(items: seq<Item>, more: seq<Item>)
    requires GoodRecords(items + more) == GoodRecords(items)
    ensures LatestPayload(items + more) == LatestPayload(items)
  {
    hide Crc, Bytes;
    var all := items + more;
    if r :| IsLatest(GoodRecords(items), r) {
      LatestPayloadIs(items, r);
      LatestPayloadIs(all, r);
      assert all[r.start + 1..r.end] == items[r.start + 1..r.end];
    }
  }

  lemma WrittenIsClean(nodes: seq<Node>, i: nat)
    requires AllWellFormed(nodes) && UniqueKeys(nodes) && i < |nodes|
    ensures Clean(nodes[i], Some(Written(nodes))) && Clean(Flushed(nodes[i]), Some(Written(nodes)))
    ensures WellFormed(Flushed(nodes[i]))
  {
    hide Written, EntryFor;
    if Initialised(nodes[i].state) {
      WrittenIsFound(nodes, i);
    }
  }

  /** After all pushes of a write from a coherent cache, its record is the latest. */
  lemma AppendedIsLatest(c: Cache, items: seq<Item>, nodes: seq<Node>)
    requires Healthy(items) && Coherent(c, items) && c.next.Some? && !c.needsGc && AllWellFormed(nodes)
    requires c.next.value < MAX_SEQ
    ensures var w := RecordFor(nodes, c.next.value);
      && w != [] && w[0] == Start(c.next.value)
      && GoodRecords(items + w) == GoodRecords(items) + {Appended(items, w)}
      && Appended(items, w) !in GoodRecords(items)
      && Healthy(items + w)
      && LatestPayload(items + w) == Some(Written(nodes))
  {
    hide Good, IsRecord, Written;
    var w := RecordFor(nodes, c.next.value);
    var all, r := items + w, Appended(items, w);
    RecordForIsRecord(nodes, c.next.value);
    CompletedWrite(items, w);
    forall o | o in GoodRecords(items) ensures o.seqNo < r.seqNo {
      NextIsFresh(c, items, o);
    }
    assert IsLatest(GoodRecords(all), r);
    LatestPayloadIs(all, r);
    SlicePayload(all, r);
  }

  /** Inserting a record above all others whose range is one too long. */
  lemma InsertNewest(recs: set<Rec>, c: Cache, r: Rec, c': Cache)
    requires 0 < |c.last| && IsTopK(recs, c.last)
    requires forall o :: o in recs ==> o.seqNo < r.seqNo
    requires forall k :: 0 <= k < |c.last| ==> Rank(c.last[k]) < r.seqNo
    requires Inserted(c, r.(end := r.end + 1), c')
    ensures |c'.last| == |c.last| && Highest(c'.last) == Some(r.(end := r.end + 1))
    ensures IsTopK(recs + {r}, c'.last[|c'.last| - 1 := Some(r)])
    ensures c'.next == NextAfter(c'.last) && c'.needsGc
  {
    hide IsTopK, Inserted;
    var long, top := r.(end := r.end + 1), |c'.last| - 1;
    NewestIsOnTop(c, long, c');
    var exact := c'.last[top := Some(r)];
    TopReplaced(c, r, c');
    InsertKeepsTopK(recs, c, r, c'.(last := exact));
  }

  /** Correcting the end of the newest record gives what inserting the exact record gives. */
  lemma TopReplaced(c: Cache, r: Rec, c': Cache)
    requires 0 < |c.last| && |c'.last| == |c.last| && Rank(c.last[0]) < r.seqNo
    requires Highest(c'.last) == Some(r.(end := r.end + 1)) && Sorted(c'.last)
    requires multiset(c'.last) == multiset(c.last[0 := Highest(c'.last)])
    requires c'.next == NextAfter(c'.last) && c'.needsGc
    ensures Inserted(c, r, c'.(last := c'.last[|c'.last| - 1 := Some(r)]))
  {
    hide Sorted, NextAfter;
    ReplacedBags(c'.last, |c'.last| - 1, c.last, Some(r));
    ReplacedTop(c'.last, r);
  }

  lemma ReplacedTop(slots: Slots, r: Rec)
    requires 0 < |slots| && Sorted(slots) && Highest(slots) == Some(r.(end := r.end + 1))
    ensures Sorted(slots[|slots| - 1 := Some(r)])
    ensures NextAfter(slots[|slots| - 1 := Some(r)]) == NextAfter(slots)
  {
  }

  lemma ReplacedBags(a: Slots, i: nat, b: Slots, x: Option<Rec>)
    requires i < |a| && 0 < |b| && multiset(a) == multiset(b[0 := a[i]])
    ensures multiset(a[i := x]) == multiset(b[0 := x])
  {
  }

  lemma NewestIsOnTop(c: Cache, r: Rec, c': Cache)
    requires 0 < |c.last| && Inserted(c, r, c')
    requires forall k :: 0 <= k < |c.last| ==> Rank(c.last[k]) < r.seqNo
    ensures |c'.last| == |c.last| && Highest(c'.last) == Some(r)
    ensures Sorted(c'.last) && multiset(c'.last) == multiset(c.last[0 := Some(r)])
    ensures c'.next == NextAfter(c'.last) && c'.needsGc
  {
    assert Rank(c.last[0]) < r.seqNo;
    SameLength(c'.last, c.last[0 := Some(r)]);
    var top := |c'.last| - 1;
    MembersAfterInsert(c.last, r, c'.last, c'.last[top]);
    var k :| 0 <= k < |c'.last| && c'.last[k] == Some(r);
    assert Rank(c'.last[k]) <= Rank(c'.last[top]);
  }

  lemma FlushedAreClean(v: ListV, v': ListV)
    requires AllWellFormed(v.nodes) && UniqueKeys(v.nodes) && |v'.nodes| == |v.nodes|
    requires forall i :: 0 <= i < |v.nodes| ==> v'.nodes[i] == Flushed(v.nodes[i])
    requires LatestPayload(v'.items) == Some(Written(v.nodes))
    ensures AllWellFormed(v'.nodes) && UniqueKeys(v'.nodes) && Durable(v'.nodes, v'.items)
    ensures forall i :: 0 <= i < |v'.nodes| ==> !v'.nodes[i].state.NeedsWrite?
  {
    hide Good, Written, Clean;
    forall i | 0 <= i < |v.nodes|
      ensures Clean(v'.nodes[i], Some(Written(v.nodes))) && WellFormed(v'.nodes[i])
      ensures v'.nodes[i].key == v.nodes[i].key && !v'.nodes[i].state.NeedsWrite?
    {
      WrittenIsClean(v.nodes, i);
    }
  }

  /** What a write stores for an attached node. */
  lemma WrittenIsStored(v: ListV, i: nat, items: seq<Item>)
    requires ListInv(v) && i < |v.nodes| && Initialised(v.nodes[i].state)
    requires LatestPayload(items) == Some(Written(v.nodes))
    ensures v.nodes[i].data.Some?
    ensures StoredIn(items, v.nodes[i].key, v.nodes[i].codec, v.nodes[i].data.value)
  {
    hide LatestPayload, Written, EntryFor, Healthy, Durable;
    assert WellFormed(v.nodes[i]);
    WrittenIsFound(v.nodes, i);
  }

  /** An initialised node under the key has a value whose encoding this codec decodes to `x`. */
  ghost predicate Offers(nodes: seq<Node>, key: Key, codec: Codec, x: Value) {
    exists j :: 0 <= j < |nodes| && OffersOne(nodes[j], key, codec, x)
  }

  ghost predicate OffersOne(n: Node, key: Key, codec: Codec, x: Value) {
    n.key == key && Initialised(n.state) && n.data.Some? && codec.decode(n.codec.encode(n.data.value)) == Some(x)
  }

  /** What is stored where the latest record is one that a write of `nodes` has pushed. */
  lemma WrittenStoresIff(nodes: seq<Node>, items: seq<Item>, key: Key, codec: Codec, x: Value)
    requires AllWellFormed(nodes) && UniqueKeys(nodes) && LatestPayload(items) == Some(Written(nodes))
    ensures StoredIn(items, key, codec, x) <==> Offers(nodes, key, codec, x)
  {
    hide LatestPayload, Written, EntryFor, Lawful;
    if i :| 0 <= i < |nodes| && Initialised(nodes[i].state) && nodes[i].key == key {
      assert WellFormed(nodes[i]);
      WrittenIsFound(nodes, i);
      forall j | 0 <= j < |nodes| && nodes[j].key == key ensures j == i {
      }
    } else {
      NotWritten(nodes, key);
    }
  }

  /** A verified write stores exactly what the attached, initialised nodes hold: whatever was stored under
      any other key is gone. */
  lemma WritesStoreIff(v: ListV, v': ListV, key: Key, codec: Codec, x: Value)
    requires ListInv(v) && Coherent(v.cache, v.items) && Writes(v, v') && v.cache.next.value < MAX_SEQ
    ensures StoredIn(v'.items, key, codec, x) <==> Offers(v.nodes, key, codec, x)
  {
    hide Coherent, Writes, Written, Healthy, Durable, StoredIn;
    WritesKeepsInv(v, v');
    WrittenStoresIff(v.nodes, v'.items, key, codec, x);
  }

  /** A failed one does so if it has pushed its end, and changes nothing otherwise. */
  lemma WriteFailsStoreIff(v: ListV, v': ListV, n: nat, key: Key, codec: Codec, x: Value)
    requires ListInv(v) && Coherent(v.cache, v.items) && WriteFails(v, v', n) && v.cache.next.value < MAX_SEQ
    ensures StoredIn(v'.items, key, codec, x)
       <==> if n < |RecordFor(v.nodes, v.cache.next.value)| then StoredIn(v.items, key, codec, x)
            else Offers(v.nodes, key, codec, x)
  {
    hide Good, IsRecord, Written, Durable, IsTopK, GoodRecords, LatestPayload, Coherent, Healthy, EntryFor;
    var w := RecordFor(v.nodes, v.cache.next.value);
    RecordForIsRecord(v.nodes, v.cache.next.value);
    if n < |w| {
      InterruptedWrite(v.items, w, n);
      InterruptedKeepsLatest(v.items, w[..n]);
    } else {
      assert w[..n] == w;
      AppendedIsLatest(v.cache, v.items, v.nodes);
      WrittenStoresIff(v.nodes, v'.items, key, codec, x);
    }
  }

  lemma WritesKeepsCoherent(v: ListV, v': ListV)
    requires ListInv(v) && Coherent(v.cache, v.items) && Writes(v, v')
    requires v.cache.next.value < MAX_SEQ
    ensures Coherent(v'.cache, v'.items) && v'.cache.needsGc
    ensures v'.cache.next == Some(v.cache.next.value + 1)
  {
    hide Good, IsRecord, Written, IsTopK, Inserted, Durable, AllWellFormed;
    var w := RecordFor(v.nodes, v.cache.next.value);
    var r := Appended(v.items, w);
    AppendedIsLatest(v.cache, v.items, v.nodes);
    forall o | o in GoodRecords(v.items) ensures o.seqNo < r.seqNo {
      NextIsFresh(v.cache, v.items, o);
    }
    TopKIsBelow(GoodRecords(v.items), v.cache.last, r.seqNo);
    InsertNewest(GoodRecords(v.items), v.cache, r, v'.cache);
    assert Trimmed(v'.cache.last, |v'.items|) == v'.cache.last[|v'.cache.last| - 1 := Some(r)];
  }

  lemma TopKIsBelow(recs: set<Rec>, slots: Slots, s: SeqNo)
    requires IsTopK(recs, slots) && forall o :: o in recs ==> o.seqNo < s
    ensures forall k :: 0 <= k < |slots| ==> Rank(slots[k]) < s
  {
  }

  /** A verified write keeps the list's invariant, the cache stays coherent although the range it
      records is one too long, and no node is left to be written. */
  lemma WritesKeepsInv(v: ListV, v': ListV)
    requires ListInv(v) && Coherent(v.cache, v.items) && Writes(v, v')
    requires v.cache.next.value < MAX_SEQ
    ensures ListInv(v') && Coherent(v'.cache, v'.items) && v'.cache.needsGc
    ensures v'.cache.next == Some(v.cache.next.value + 1)
    ensures LatestPayload(v'.items) == Some(Written(v.nodes))
    ensures forall i :: 0 <= i < |v'.nodes| ==> !v'.nodes[i].state.NeedsWrite?
  {
    hide Good, IsRecord, Written, IsTopK, Inserted, Durable, AllWellFormed;
    AppendedIsLatest(v.cache, v.items, v.nodes);
    WritesKeepsCoherent(v, v');
    FlushedAreClean(v, v');
  }

  // ---- collection ----

  lemma SweepKeepsHealthy(items: seq<Item>, slots: Slots, n: nat)
    requires n <= |items| && AllGood(items, Trimmed(slots, |items|)) && Healthy(items)
    ensures Healthy(Swept(items, slots, n))
  {
    hide Good, Swept, Trimmed;
    SweepKeepsDistinct(items, slots, n);
    forall r | r in GoodRecords(Swept(items, slots, n)) ensures r.seqNo < MAX_SEQ {
      SweepJoinsNothing(items, slots, n, r);
    }
  }

  /** At every point of a collection with a coherent cache, the storage is healthy and its latest
      record holds what it held before. */
  lemma SweepKeepsLatest(items: seq<Item>, slots: Slots, n: nat)
    requires n <= |items| && 0 < |slots| && Healthy(items) && IsTopK(GoodRecords(items), Trimmed(slots, |items|))
    ensures Healthy(Swept(items, slots, n))
    ensures LatestPayload(Swept(items, slots, n)) == LatestPayload(items)
  {
    hide Good, Kept, Place, Sorted, Distinct, Swept, LatestPayload;
    var exact := Trimmed(slots, |items|);
    var g := Swept(items, slots, n);
    SweepKeepsHealthy(items, slots, n);
    SweepKeepsTopK(items, slots, n);
    LatestOfTopK(items, exact);
    LatestOfTopK(g, Relocated(items, exact, n));
    if Highest(exact).Some? {
      SweepKeepsContent(items, slots, n, |exact| - 1, Slice(items, Highest(exact).value));
      HighestIsLatest(GoodRecords(items), exact);
      HighestIsLatest(GoodRecords(g), Relocated(items, exact, n));
      SameLatest(items, Highest(exact).value, g, Highest(Relocated(items, exact, n)).value);
    }
  }

  /** The rescan that ends a collection. */
  ghost predicate Rescanned(items: seq<Item>, k: nat, c: Cache) {
    !c.needsGc && exists needsGc :: Scanned(items, k, c.(needsGc := needsGc))
  }

  lemma CollectedSlots(items: seq<Item>, slots: Slots, c: Cache)
    requires 0 < |slots| && Healthy(items) && IsTopK(GoodRecords(items), Trimmed(slots, |items|))
    requires IsTopK(GoodRecords(Swept(items, slots, |items|)), c.last) && |c.last| == |slots|
    ensures Healthy(Swept(items, slots, |items|))
    ensures c.last == Relocated(items, Trimmed(slots, |items|), |items|)
    ensures Tiled(Swept(items, slots, |items|), c.last)
  {
    hide Good, Kept, Place;
    var exact, g := Trimmed(slots, |items|), Swept(items, slots, |items|);
    SweepKeepsHealthy(items, slots, |items|);
    SweepKeepsTopK(items, slots, |items|);
    FinishedSweepIsTiled(items, slots);
    TopKIsUnique(GoodRecords(g), c.last, Relocated(items, exact, |items|));
  }

  /** A finished collection leaves a coherent cache that allows the next write: nothing but the
      cached records is left, so no start carries the next sequence number. */
  lemma CollectedIsCoherent(items: seq<Item>, slots: Slots, c: Cache)
    requires 0 < |slots| && Healthy(items) && IsTopK(GoodRecords(items), Trimmed(slots, |items|))
    requires Rescanned(Swept(items, slots, |items|), |slots|, c)
    ensures c.next.Some? && Coherent(c, Swept(items, slots, |items|))
    ensures c.last == Relocated(items, Trimmed(slots, |items|), |items|)
    ensures Highest(c.last).Some? ==> NoStart(Swept(items, slots, |items|), c.next.value)
    ensures Tiled(Swept(items, slots, |items|), c.last)
  {
    hide Good, Swept, Trimmed, Relocated, IsTopK, Healthy, Tiled, NoStart;
    var g := Swept(items, slots, |items|);
    CollectedSlots(items, slots, c);
    TiledIsCoherent(g, c);
  }

  lemma RescannedKeepsShape(items: seq<Item>, k: nat, c: Cache)
    requires Rescanned(items, k, c)
    ensures |c.last| == k && !c.needsGc && c.next == NextSeq(c.last)
  {
    hide IsTopK;
  }

  lemma SameHighest(items: seq<Item>, slots: Slots)
    requires 0 < |slots|
    ensures var s := Relocated(items, Trimmed(slots, |items|), |items|);
      NextSeq(s) == NextSeq(slots) && (Highest(s).Some? <==> Highest(slots).Some?)
  {
  }

  lemma TiledIsCoherent(g: seq<Item>, c: Cache)
    requires 0 < |c.last| && Healthy(g) && Rescanned(g, |c.last|, c) && Tiled(g, c.last)
    ensures c.next.Some? && Coherent(c, g) && (Highest(c.last).Some? ==> NoStart(g, c.next.value))
  {
    hide Good, IsTopK, Healthy, Tiled, NoStart;
    var full := c.(needsGc := Highest(c.last).Some?);
    ScannedIsCoherent(g, |c.last|, full);
    if Highest(c.last).Some? {
      TrimmedExact(g, c.last);
      forall r | r in GoodRecords(g) ensures r.seqNo < c.next.value {
        NextIsAboveAll(GoodRecords(g), c.last, r);
      }
      TiledHasNoFreshStart(g, c.last, c.next.value);
    }
  }

  lemma TiledHasNoFreshStart(items: seq<Item>, slots: Slots, s: SeqNo)
    requires 0 < |slots| && IsTopK(GoodRecords(items), slots) && Tiled(items, slots)
    requires forall r :: r in GoodRecords(items) ==> r.seqNo < s
    ensures NoStart(items, s)
  {
    hide Crc, Bytes;
    forall q | 0 <= q < |items| ensures items[q] != Start(s) {
      assert InRange(slots, q);
      var k :| 0 <= k < |slots| && Covers(slots[k], q);
      assert IsGood(items, slots[k].value);
    }
  }
}
