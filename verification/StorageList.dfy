// The storage list (storage_list.rs): the cached scan, hydration, writing, verification and
// garbage collection.
module StorageLists {
  import opened Wrappers
  import opened Elements
  import opened KeyValue
  import opened Log
  import opened Scan
  import opened SeqStates
  import opened Collect
  import opened NodeSpec
  import opened ListSpec
  import opened Storage
  import opened StorageNode
  import opened Reading
  import opened Verify
  import opened Writing

  /** How a write can fail once it has begun to push. */
  const WriteErrors: set<LoadStoreError> :=
    {FlashRead, FlashWrite, WriteVerificationFailed, AppError(Serialization), AppError(InconsistentFlash)}

  class StorageListInner {
    /** The attached nodes, most recently attached first. */
    var list: seq<NodeCell>
    var seqState: SeqState

    constructor (keptRecords: nat)
      requires 0 < keptRecords
      ensures Valid() && fresh(seqState) && fresh(seqState.lastRecords)
      ensures list == [] && seqState.Value() == EmptyCache(keptRecords)
    {
      list := [];
      seqState := new SeqState(keptRecords);
    }

    ghost function Nodes(): (ns: seq<Node>)
      reads this, list
      ensures |ns| == |list|
    {
      seq(|list|, i requires 0 <= i < |list| reads this, list => list[i].View())
    }

    ghost predicate Valid()
      reads this, seqState, seqState.lastRecords, list
    {
      && seqState.Valid()
      && AllWellFormed(Nodes())
      && UniqueKeys(Nodes())
    }

    ghost function View(storage: DataStorage): ListV
      reads this, seqState, seqState.lastRecords, list, storage
    {
      ListV(Nodes(), seqState.Value(), storage.items)
    }

    /** The latest valid record. Scans the storage unless that has been done before; the scan offers
        exactly the valid records of the storage to the cache. A scan that fails leaves the records
        found so far in the cache. */
    method GetOrPopulateLatest(storage: DataStorage) returns (r: Result<Option<Rec>>, bytesRead: nat)
      requires seqState.Valid()
      modifies seqState, seqState.lastRecords
      ensures seqState.Valid() && seqState.lastRecords == old(seqState.lastRecords)
      ensures r.Ok? ==> r.value == Highest(seqState.lastRecords[..])
      ensures old(seqState.nextSeq).Some? ==> r.Ok? && seqState.Value() == old(seqState.Value()) && bytesRead == 0
      ensures old(seqState.Value()) == EmptyCache(seqState.lastRecords.Length) && r.Ok? ==>
                Scanned(storage.items, seqState.lastRecords.Length, seqState.Value())
      ensures old(seqState.nextSeq).None? && r.Ok? ==> bytesRead == Total(storage.size, storage.items)
      ensures r.Err? ==> storage.faulty && r.error == FlashRead
      ensures old(seqState.Value()) == EmptyCache(seqState.lastRecords.Length) && r.Err? ==>
                PartlyScanned(storage.items, seqState.Value())
      ensures old(seqState.Value()) == EmptyCache(seqState.lastRecords.Length) && r.Ok? ==>
                match r.value
                case None => GoodRecords(storage.items) == {} && seqState.nextSeq == Some(1) && !seqState.needsGc
                case Some(latest) =>
                  && latest in GoodRecords(storage.items)
                  && (forall other :: other in GoodRecords(storage.items) ==> other.seqNo <= latest.seqNo)
                  && seqState.nextSeq == (if latest.seqNo == 0xFFFF_FFFF then None else Some(latest.seqNo + 1))
                  && seqState.needsGc
    {
      hide ScanState, Scanned, GoodRecords;
      bytesRead := 0;
      if seqState.InitialScanCompleted() {
        return Ok(seqState.HighestSeen()), 0;
      }
      ghost var fromEmpty := seqState.Value() == EmptyCache(seqState.lastRecords.Length);
      ScanStarts(storage.items, seqState.lastRecords.Length, CRC_INIT);
      var iter := storage.IterElems();
      if iter.Err? {
        return Err(iter.error), 0;
      }
      var current: Option<(SeqNo, nat)> := None;
      var crc := CRC_INIT;
      var ctr := 0;
      var done := false;
      while !done
        invariant 0 <= ctr <= |storage.items|
        invariant seqState.Valid() && seqState.lastRecords == old(seqState.lastRecords)
        invariant fromEmpty ==> ScanState(storage.items, ctr, seqState.Value(), current, crc)
        invariant bytesRead == Total(storage.size, storage.items[..ctr])
        invariant done ==> ctr == |storage.items|
        decreases |storage.items| - ctr, !done
      {
        var next := storage.Next(ctr);
        if next.Err? {
          assert fromEmpty ==> PartlyScanned(storage.items, seqState.Value());
          return Err(next.error), bytesRead;
        }
        if next.value.None? {
          done := true;
        } else {
          bytesRead := bytesRead + storage.size(next.value.value);
          assert storage.items[..ctr + 1][..ctr] == storage.items[..ctr];
          current, crc := ScanItem(next.value.value, ctr, current, crc, storage.items, fromEmpty);
          ctr := ctr + 1;
        }
      }
      assert storage.items[..ctr] == storage.items;
      if fromEmpty { ScanEnds(storage.items, seqState.Value(), current, crc); }
      var highest := seqState.HighestSeen();
      if highest.None? {
        seqState.nextSeq := Some(1);
      }
      if fromEmpty { ScannedIsLatest(storage.items, seqState.lastRecords.Length, seqState.Value()); }
      r := Ok(highest);
    }

    /** One entry of the scan. */
    method ScanItem(item: Item, idx: nat, current: Option<(SeqNo, nat)>, crc: u32,
                    ghost items: seq<Item>, ghost fromEmpty: bool)
      returns (current': Option<(SeqNo, nat)>, crc': u32)
      requires seqState.Valid()
      requires idx < |items| && items[idx] == item
      requires fromEmpty ==> ScanState(items, idx, seqState.Value(), current, crc)
      modifies seqState, seqState.lastRecords
      ensures seqState.Valid() && seqState.lastRecords == old(seqState.lastRecords)
      ensures fromEmpty ==> ScanState(items, idx + 1, seqState.Value(), current', crc')
    {
      hide ScanState;
      current', crc' := current, crc;
      match item
      case Junk(_) =>
        current' := None;
        if fromEmpty { ScanStepOther(items, idx, seqState.Value(), current, crc); }
      case Start(seqNo) =>
        current' := Some((seqNo, idx));
        crc' := CRC_INIT;
        if fromEmpty { ScanStepOther(items, idx, seqState.Value(), current, crc); }
      case Data(keyVal) =>
        if current.Some? {
          crc' := Update(crc, keyVal);
          if fromEmpty { ScanStepData(items, idx, seqState.Value(), current, crc); }
        } else {
          if fromEmpty { ScanStepOther(items, idx, seqState.Value(), current, crc); }
        }
      case End(seqNo, calcCrc) =>
        ghost var before := seqState.Value();
        current', crc' := None, CRC_INIT;
        if current.Some? && current.value.0 == seqNo && calcCrc == Finalize(crc) {
          seqState.InsertGood(Rec(seqNo, current.value.1, idx));
        }
        if fromEmpty { ScanStepEnd(items, idx, before, current, crc, seqState.Value()); }
    }

    // ---- hydration ----

    /** The node with this key. */
    method FindNode(key: Key) returns (found: Option<NodeCell>)
      requires Valid()
      ensures found.Some? ==> found.value in list && found.value.key == key && WellFormed(found.value.View())
      ensures found.None? ==> forall i :: 0 <= i < |list| ==> list[i].key != key
    {
      var i := 0;
      while i < |list|
        invariant 0 <= i <= |list|
        invariant forall k :: 0 <= k < i ==> list[k].key != key
      {
        if list[i].key == key {
          assert Nodes()[i] == list[i].View();
          return Some(list[i]);
        }
        i := i + 1;
      }
      found := None;
    }

    lemma KeyNamesNode(node: NodeCell, i: nat)
      requires Valid() && node in list && i < |list|
      ensures list[i].key == node.key ==> list[i] == node
    {
      var k :| 0 <= k < |list| && list[k] == node;
      assert Nodes()[k].key == node.key && Nodes()[i].key == list[i].key;
    }

    /** Hydrate the node that a data element belongs to, if it still waits for that. */
    method HydrateEntry(keyVal: seq<byte>)
      requires Valid()
      modifies list
      ensures AllHydrated(old(Nodes()), Nodes(), [Data(keyVal)]) && Valid()
    {
      hide SplitKeyValue, Hydrated;
      ghost var before := Nodes();
      var kvPair := SplitKeyValue(keyVal);
      if kvPair.Some? {
        var node := FindNode(kvPair.value.key);
        if node.Some? {
          forall i | 0 <= i < |list| ensures list[i].key == kvPair.value.key <==> list[i] == node.value {
            KeyNamesNode(node.value, i);
          }
          HydrateNode(node.value, kvPair.value.body);
        }
      }
      forall i | 0 <= i < |list| ensures Nodes()[i] == Hydrated(before[i], [Data(keyVal)]) {
        HydratedByOne(before[i], Data(keyVal));
      }
      AllHydratedKeeps(before, Nodes(), [Data(keyVal)]);
    }

    // ---- extraction ----

    /** Read the record that starts where `latest` starts and hydrate the waiting nodes from it, entry
        by entry. `payload` are the entries dealt with. */
    method ExtractAll(latest: Rec, storage: DataStorage)
      returns (r: Result<()>, totalRead: nat, currentRead: nat, ghost payload: seq<Item>)
      requires Valid()
      modifies list
      ensures Valid() && AllHydrated(old(Nodes()), Nodes(), payload)
      ensures r.Ok? ==> exists e: nat ::
                && Extractable(storage.items, latest, e)
                && payload == storage.items[latest.start + 1..e]
                && totalRead == Total(storage.size, storage.items[..e + 1])
                && currentRead == Total(storage.size, payload)
      ensures r.Ok? ==>
                var e := latest.start + 1 + |payload|;
                && e < |storage.items| && payload == storage.items[latest.start + 1..e]
                && storage.items[latest.start] == Start(latest.seqNo)
                && storage.items[e].End? && storage.items[e].seqNo == latest.seqNo
                && forall k :: 0 <= k < |payload| ==> payload[k].Data?
      ensures r.Err? ==> payload == [] || RunOfData(storage.items, latest.start + 1, payload)
      ensures r.Err? ==> storage.faulty || forall e: nat :: !Extractable(storage.items, latest, e)
    {
      hide AllHydrated, Total;
      totalRead, currentRead, payload := 0, 0, [];
      AllHydratedByNone(Nodes());
      TotalOfNone(storage.size);
      var iter := storage.IterElems();
      if iter.Err? {
        return Err(iter.error), totalRead, currentRead, payload;
      }
      var pos := 0;
      while pos < latest.start
        invariant 0 <= pos <= latest.start && pos <= |storage.items|
        invariant totalRead == Total(storage.size, storage.items[..pos])
        modifies {}
      {
        var next := storage.Next(pos);
        if next.Err? {
          return Err(next.error), totalRead, currentRead, payload;
        }
        if next.value.None? {
          return Err(AppError(InconsistentFlash)), totalRead, currentRead, payload;
        }
        totalRead := totalRead + storage.size(next.value.value);
        TotalPush(storage.size, storage.items, 0, pos);
        pos := pos + 1;
      }
      var first := storage.Next(pos);
      if first.Err? || first.value.None? {
        return Err(AppError(InconsistentFlash)), totalRead, currentRead, payload;
      }
      totalRead := totalRead + storage.size(first.value.value);
      TotalPush(storage.size, storage.items, 0, pos);
      if first.value.value != Start(latest.seqNo) {
        return Err(AppError(InconsistentFlash)), totalRead, currentRead, payload;
      }
      pos := pos + 1;
      r, totalRead, currentRead, payload := ExtractData(latest, storage, totalRead);
    }

    /** The data elements behind the start of `latest`. */
    method ExtractData(latest: Rec, storage: DataStorage, readSoFar: nat)
      returns (r: Result<()>, totalRead: nat, currentRead: nat, ghost payload: seq<Item>)
      requires Valid()
      requires latest.start < |storage.items| && storage.items[latest.start] == Start(latest.seqNo)
      requires readSoFar == Total(storage.size, storage.items[..latest.start + 1])
      modifies list
      ensures Valid() && AllHydrated(old(Nodes()), Nodes(), payload)
      ensures RunOfData(storage.items, latest.start + 1, payload)
      ensures r.Ok? ==>
                var e := latest.start + 1 + |payload|;
                && e < |storage.items| && payload == storage.items[latest.start + 1..e]
                && storage.items[e].End? && storage.items[e].seqNo == latest.seqNo
                && forall k :: 0 <= k < |payload| ==> payload[k].Data?
      ensures r.Ok? ==> exists e: nat ::
                && Extractable(storage.items, latest, e)
                && payload == storage.items[latest.start + 1..e]
                && totalRead == Total(storage.size, storage.items[..e + 1])
                && currentRead == Total(storage.size, payload)
      ensures r.Err? ==> storage.faulty || forall e: nat :: !Extractable(storage.items, latest, e)
    {
      hide AllHydrated, Hydrated, Total;
      ghost var before := Nodes();
      totalRead, currentRead, payload := readSoFar, 0, [];
      var pos := latest.start + 1;
      AllHydratedByNone(before);
      TotalOfNone(storage.size);
      while pos < |storage.items|
        invariant latest.start < pos <= |storage.items|
        invariant Valid() && AllHydrated(before, Nodes(), payload)
        invariant payload == storage.items[latest.start + 1..pos]
        invariant OpenAt(storage.items, latest.start, pos)
        invariant totalRead == Total(storage.size, storage.items[..pos])
        invariant currentRead == Total(storage.size, payload)
      {
        var next := storage.Next(pos);
        if next.Err? {
          return Err(next.error), totalRead, currentRead, payload;
        }
        var item := next.value.value;
        TotalPush(storage.size, storage.items, 0, pos);
        totalRead := totalRead + storage.size(item);
        if item.End? && item.seqNo == latest.seqNo {
          assert Extractable(storage.items, latest, pos);
          return Ok(()), totalRead, currentRead, payload;
        }
        if !item.Data? {
          return Err(AppError(InconsistentFlash)), totalRead, currentRead, payload;
        }
        TotalPush(storage.size, storage.items, latest.start + 1, pos);
        currentRead := currentRead + storage.size(item);
        ghost var mid := Nodes();
        HydrateEntry(item.keyVal);
        AllHydratedStep(before, mid, Nodes(), payload, item);
        assert storage.items[latest.start + 1..pos + 1] == payload + [item];
        payload := payload + [item];
        pos := pos + 1;
      }
      var next := storage.Next(pos);
      if next.Err? {
        return Err(next.error), totalRead, currentRead, payload;
      }
      r := Err(AppError(InconsistentFlash));
    }

    // ---- reading ----

    lemma DistinctCells(i: nat, j: nat)
      requires Valid() && i < j < |list|
      ensures list[i] != list[j]
    {
      assert Nodes()[i].key == list[i].key && Nodes()[j].key == list[j].key;
    }

    method MarkInitialNonresident()
      requires Valid()
      modifies list
      ensures Valid() && |Nodes()| == |old(Nodes())|
      ensures forall k :: 0 <= k < |list| ==> Nodes()[k] == MarkedNonResident(old(Nodes())[k])
    {
      ghost var before := Nodes();
      var i := 0;
      while i < |list|
        invariant 0 <= i <= |list|
        invariant Valid()
        invariant forall k :: 0 <= k < i ==> Nodes()[k] == MarkedNonResident(before[k])
        invariant forall k :: i <= k < |list| ==> Nodes()[k] == before[k]
      {
        forall k | 0 <= k < |list| && k != i ensures list[k] != list[i] {
          if k < i { DistinctCells(k, i); } else { DistinctCells(i, k); }
        }
        ghost var mid := Nodes();
        if list[i].state.Initial? {
          list[i].state := NonResident;
        }
        assert Nodes()[i] == MarkedNonResident(mid[i]);
        assert forall k :: 0 <= k < |list| && k != i ==> Nodes()[k] == mid[k];
        i := i + 1;
      }
    }

    /** The cache belongs to this storage, and the storage has no two valid records with the same
        sequence number. Holds unless an earlier operation on this storage has failed. */
    ghost predicate Trusted(storage: DataStorage)
      reads this, seqState, seqState.lastRecords, storage
    {
      Healthy(storage.items) && Coherent(seqState.Value(), storage.items)
    }

    /** Hydrate from the latest record of the storage. */
    method ExtractLatest(latest: Rec, storage: DataStorage)
      returns (r: Result<()>, totalRead: nat, currentRead: nat)
      requires Valid()
      modifies list
      ensures Valid()
      ensures r.Ok? ==> ReadThrough(storage.size, storage.items, false, Some(latest), totalRead)
      ensures ExtractsLatest(storage.items, latest) && r.Ok? ==>
                && AllHydrated(old(Nodes()), Nodes(), LatestPayload(storage.items).value)
                && currentRead == Total(storage.size, LatestPayload(storage.items).value)
      ensures ExtractsLatest(storage.items, latest) && r.Err? ==>
                storage.faulty && PartlyHydrated(old(Nodes()), Nodes(), LatestPayload(storage.items).value)
    {
      hide AllHydrated, LatestPayload, Total;
      ghost var payload;
      r, totalRead, currentRead, payload := ExtractAll(latest, storage);
      if r.Err? && ExtractsLatest(storage.items, latest) {
        PrefixOfLatest(storage.items, latest, payload);
      }
    }

    /** Find the latest record, and hydrate the waiting nodes from it. */
    method PopulateAndExtract(storage: DataStorage)
      returns (r: Result<()>, totalRead: nat, currentRead: nat)
      requires Valid()
      modifies seqState, seqState.lastRecords, list
      ensures Valid() && seqState.lastRecords == old(seqState.lastRecords)
      ensures r.Ok? ==>
                ReadThrough(storage.size, storage.items, old(seqState.nextSeq).None?, seqState.HighestSeen(), totalRead)
      ensures old(Trusted(storage)) && r.Ok? ==>
                && ReadsAlmost(old(View(storage)), View(storage))
                && currentRead == Total(storage.size, OrNone(LatestPayload(storage.items)))
      ensures old(Trusted(storage)) && r.Err? ==>
                storage.faulty && ReadFails(old(View(storage)), View(storage))
    {
      hide Coherent, AllHydrated, PartlyHydrated, Populated, AllWellFormed, UniqueKeys, Total, Scanned, Healthy,
           ExtractsLatest, LatestPayload, PartlyScanned;
      ghost var trusted, v0 := Trusted(storage), View(storage);
      if trusted { TrustedIsEmpty(storage); }
      TotalOfNone(storage.size);
      totalRead, currentRead := 0, 0;
      var res, scanned := GetOrPopulateLatest(storage);
      totalRead := scanned;
      assert Nodes() == v0.nodes;
      if res.Err? {
        return Err(res.error), totalRead, currentRead;
      }
      ghost var c := seqState.Value();
      if trusted { CachedLatest(v0.cache, storage.items, c); }
      r := Ok(());
      if res.value.Some? {
        var total;
        r, total, currentRead := ExtractLatest(res.value.value, storage);
        totalRead := totalRead + total;
        if r.Err? && trusted { ReadsPartlyIntro(v0, View(storage)); }
      }
    }

    lemma TrustedIsEmpty(storage: DataStorage)
      requires Trusted(storage) && seqState.Valid()
      ensures seqState.nextSeq.None? ==> seqState.Value() == EmptyCache(seqState.lastRecords.Length)
    {
      if seqState.nextSeq.None? {
        CoherentIsEmpty(seqState.Value(), storage.items);
      }
    }

    /** Fill every node that waits for its data. */
    method ProcessReads(storage: DataStorage)
      returns (r: Result<()>, totalRead: nat, currentRead: nat)
      requires Valid()
      modifies seqState, seqState.lastRecords, list
      ensures Valid()
      ensures r.Ok? ==> NoneInitial(Nodes())
      ensures r.Ok? ==>
                ReadThrough(storage.size, storage.items, old(seqState.nextSeq).None?, seqState.HighestSeen(), totalRead)
      ensures old(Trusted(storage)) && r.Ok? ==>
                && Reads(old(View(storage)), View(storage))
                && currentRead == Total(storage.size, OrNone(LatestPayload(storage.items)))
      ensures old(Trusted(storage)) && r.Err? ==>
                storage.faulty && ReadFails(old(View(storage)), View(storage))
    {
      hide AllWellFormed, UniqueKeys, Total, Healthy, ReadFails, ReadsAlmost, Coherent, Reads, ReadThrough;
      ghost var trusted, v0 := Trusted(storage), View(storage);
      r, totalRead, currentRead := PopulateAndExtract(storage);
      if r.Ok? {
        ghost var mid := View(storage);
        MarkInitialNonresident();
        if trusted { ReadsIntro(v0, mid, View(storage)); }
      }
    }

    // ---- writing ----

    /** All slots of the cache are free. */
    ghost predicate NothingCached()
      reads this, seqState, seqState.lastRecords
    {
      forall k :: 0 <= k < seqState.lastRecords.Length ==> seqState.lastRecords[k] == None
    }

    lemma NothingCachedIff()
      requires seqState.Valid()
      ensures NothingCached() <==> Highest(seqState.lastRecords[..]).None?
    {
      var slots := seqState.lastRecords[..];
      forall k | 0 <= k < |slots|
        ensures Rank(slots[k]) <= Rank(slots[|slots| - 1]) && slots[k] == seqState.lastRecords[k]
      {
      }
    }

    lemma StatesAreListed()
      ensures NoneInitial(Nodes()) <==> !exists i :: 0 <= i < |list| && list[i].state == Initial
      ensures (exists i :: 0 <= i < |list| && list[i].state == NeedsWrite)
         <==> exists i :: 0 <= i < |Nodes()| && Nodes()[i].state.NeedsWrite?
    {
      assert forall i :: 0 <= i < |list| ==> Nodes()[i].state == list[i].state;
    }

    /** Whether there is anything to write; fails while a node still waits for its first read. */
    method CheckNeedsWriting() returns (r: Result<bool>)
      requires Valid()
      ensures r.Err? <==> !NoneInitial(Nodes())
      ensures r.Err? ==> r.error == AppError(NeedsFirstRead)
      ensures r.Ok? ==> r.value == NeedsWriting(Nodes(), seqState.Value())
      ensures r.Err? <==> exists i :: 0 <= i < |list| && list[i].state == Initial
      ensures r.Ok? ==> (r.value <==> (exists i :: 0 <= i < |list| && list[i].state == NeedsWrite) || NothingCached())
    {
      StatesAreListed();
      NothingCachedIff();
      var needsWriting := false;
      var i := 0;
      while i < |list|
        invariant 0 <= i <= |list|
        invariant forall k :: 0 <= k < i ==> !Nodes()[k].state.Initial?
        invariant needsWriting <==> exists k :: 0 <= k < i && Nodes()[k].state.NeedsWrite?
      {
        assert Nodes()[i].state == list[i].state;
        match list[i].state {
          case ValidNoWriteNeeded =>
          case NeedsWrite => needsWriting := true;
          case Initial => return Err(AppError(NeedsFirstRead));
          case NonResident =>
        }
        i := i + 1;
      }
      if !needsWriting {
        needsWriting := seqState.HighestSeen().None?;
      }
      r := Ok(needsWriting);
    }

    /** Push a record of all initialised nodes. When this fails, some of its elements may have been
        pushed. */
    method WriteToFlash(buf: array<byte>, storage: DataStorage, seqNo: SeqNo) returns (r: Result<WriteReport>)
      requires Valid()
      modifies buf, storage
      ensures r.Ok? ==>
                && storage.items == old(storage.items) + RecordFor(Nodes(), seqNo)
                && Reports(r.value, Nodes(), seqNo)
                && r.value.bytesWritten == Total(storage.size, RecordFor(Nodes(), seqNo))
      ensures r.Err? ==> PushedPart(old(storage.items), Nodes(), seqNo, storage.items)
      ensures r.Err? ==> r.error in {FlashWrite, AppError(Serialization)}
      ensures r.Ok? ==> AllFit(Nodes(), buf.Length)
      ensures AllFit(Nodes(), buf.Length) && !storage.faulty ==> r.Ok?
    {
      hide Crc, Bytes, WellFormed, Fits, Update, Total, WriteState, PushedPart;
      ghost var nodes, before := Nodes(), storage.items;
      var used := storage.Push(Start(seqNo));
      WriteStarts(before, nodes, seqNo, storage.size);
      if used.Err? {
        return Err(used.error);
      }
      var crc, ctr, bytesWritten := CRC_INIT, 0, used.value;
      var i := 0;
      while i < |list|
        invariant 0 <= i <= |list| && Nodes() == nodes
        invariant WriteState(before, nodes, seqNo, storage.size, i, storage.items, crc, ctr, bytesWritten)
        invariant AllFit(nodes[..i], buf.Length)
      {
        assert nodes[i] == list[i].View() && nodes[..i + 1][..i] == nodes[..i] && nodes[..i + 1][i] == nodes[i];
        assert WellFormed(nodes[i]);
        if !list[i].state.Initial? && !list[i].state.NonResident? {
          InitialisedHasData(nodes[i]);
          var element := SerializeElement(list[i], buf);
          if element.None? {
            WritePartial(before, nodes, seqNo, storage.size, i, storage.items, crc, ctr, bytesWritten);
            return Err(AppError(Serialization));
          }
          ghost var mid := storage.items;
          used := storage.Push(element.value);
          WriteGrows(before, nodes, seqNo, storage.size, i, mid, crc, ctr, bytesWritten);
          if used.Err? {
            return Err(used.error);
          }
          crc := Update(crc, element.value.keyVal);
          bytesWritten := bytesWritten + used.value;
          ctr := ctr + 1;
        } else {
          WriteSkips(before, nodes, seqNo, storage.size, i, storage.items, crc, ctr, bytesWritten);
        }
        i := i + 1;
      }
      assert nodes[..i] == nodes;
      WriteEnds(before, nodes, seqNo, storage.size, storage.items, crc, ctr, bytesWritten);
      used := storage.Push(End(seqNo, Finalize(crc)));
      if used.Err? {
        return Err(used.error);
      }
      bytesWritten := bytesWritten + used.value;
      r := Ok(WriteReport(seqNo, Finalize(crc), ctr, bytesWritten));
    }

    /** The write has succeeded: no node needs writing any more. */
    method MarkWritten()
      requires Valid()
      modifies list
      ensures Valid() && |Nodes()| == |old(Nodes())|
      ensures forall k :: 0 <= k < |list| ==> Nodes()[k] == Flushed(old(Nodes())[k])
    {
      ghost var before := Nodes();
      var i := 0;
      while i < |list|
        invariant 0 <= i <= |list|
        invariant Valid()
        invariant forall k :: 0 <= k < i ==> Nodes()[k] == Flushed(before[k])
        invariant forall k :: i <= k < |list| ==> Nodes()[k] == before[k]
      {
        forall k | 0 <= k < |list| && k != i ensures list[k] != list[i] {
          if k < i { DistinctCells(k, i); } else { DistinctCells(i, k); }
        }
        ghost var mid := Nodes();
        if list[i].state.ValidNoWriteNeeded? || list[i].state.NeedsWrite? {
          list[i].state := ValidNoWriteNeeded;
        }
        assert Nodes()[i] == Flushed(mid[i]);
        assert forall k :: 0 <= k < |list| && k != i ==> Nodes()[k] == mid[k];
        i := i + 1;
      }
    }

    /** Push a record of all initialised nodes and read it back. */
    method WriteAndVerify(buf: array<byte>, storage: DataStorage)
      returns (r: Result<(nat, nat)>, totalRead: nat, bytesWritten: nat)
      requires Valid() && MayWrite(View(storage))
      modifies buf, storage
      ensures r.Err? ==> r.error in WriteErrors
      ensures r.Err? ==> WriteAborts(old(View(storage)), View(storage))
      ensures r.Ok? ==> AllFit(Nodes(), buf.Length)
      ensures r.Ok? || (AllFit(Nodes(), buf.Length) && !storage.faulty) ==>
                storage.items == old(storage.items) + RecordFor(Nodes(), seqState.nextSeq.value)
      ensures r.Ok? ==> bytesWritten == Total(storage.size, RecordFor(Nodes(), seqState.nextSeq.value))
      ensures AllFit(Nodes(), buf.Length) && !storage.faulty ==>
                (r.Ok? <==> CanVerify(old(storage.items), Nodes(), seqState.nextSeq.value))
      ensures old(Trusted(storage)) && r.Ok? ==>
                && r.value == (|old(storage.items)|, |storage.items|)
                && NoStart(old(storage.items), seqState.nextSeq.value)
                && totalRead == Total(storage.size, storage.items)
      ensures old(Trusted(storage)) && AllFit(Nodes(), buf.Length) && !storage.faulty ==>
                (r.Ok? <==> NoStart(old(storage.items), seqState.nextSeq.value))
    {
      hide Coherent, Healthy, Written, RecordFor, WellFormed, UniqueKeys, NeedsWriting, NoneInitial,
           PushedPart, AllFit, Matches, FirstStart, NoStart, CheckAccepts, WrittenAlready, Total, WriteAborts;
      ghost var trusted, v0 := Trusted(storage), View(storage);
      totalRead, bytesWritten := 0, 0;
      var written := WriteToFlash(buf, storage, seqState.nextSeq.value);
      assert Nodes() == v0.nodes;
      if written.Err? {
        WriteFailsIntro(v0, View(storage));
        return Err(written.error), 0, 0;
      }
      WriteFailsAfterAll(v0, View(storage));
      bytesWritten := written.value.bytesWritten;
      r, totalRead := VerifyListInFlash(storage, written.value);
      CheckAfterWrite(v0, written.value, r, storage.items, storage.faulty);
      TotalOfWrite(storage.size, v0.items, RecordFor(v0.nodes, v0.cache.next.value));
    }

    /** With every node clean or non-resident and a record cached, there is nothing to write. */
    lemma NothingNewIsNotWritten(storage: DataStorage)
      requires Valid()
      ensures (forall i :: 0 <= i < |list| ==> list[i].state in {NonResident, ValidNoWriteNeeded})
              && !NothingCached() ==>
                && !MayWrite(View(storage))
                && (seqState.nextSeq.Some? && !seqState.needsGc ==> WriteRefused(View(storage)) == Ok(()))
    {
      NothingCachedIff();
      assert forall i :: 0 <= i < |list| ==> Nodes()[i].state == list[i].state;
    }

    /** Before the first scan, with a collection pending, and with a node that waits for its first read,
        nothing may be written. In all other cases something is, if a node has changed or nothing is
        cached. */
    lemma MayWriteIff(storage: DataStorage)
      requires Valid()
      ensures MayWrite(View(storage)) <==>
                && seqState.nextSeq.Some? && !seqState.needsGc
                && (forall i :: 0 <= i < |list| ==> list[i].state != Initial)
                && ((exists i :: 0 <= i < |list| && list[i].state == NeedsWrite) || NothingCached())
    {
      NothingCachedIff();
      StatesAreListed();
    }

    /** Write the list to the storage, if a node has changed or nothing has been written yet, and
        check what has been written. */
    method ProcessWrites(buf: array<byte>, storage: DataStorage)
      returns (r: Result<()>, totalRead: nat, bytesWritten: nat)
      requires Valid()
      modifies seqState, seqState.lastRecords, list, buf, storage
      ensures Valid() && seqState.lastRecords == old(seqState.lastRecords)
      ensures !old(MayWrite(View(storage))) ==>
                && View(storage) == old(View(storage)) && totalRead == bytesWritten == 0
                && r == WriteRefused(old(View(storage)))
      ensures old(forall i :: 0 <= i < |list| ==> list[i].state in {NonResident, ValidNoWriteNeeded})
              && !old(NothingCached()) ==>
                && View(storage) == old(View(storage)) && totalRead == bytesWritten == 0
                && (old(seqState.nextSeq.Some? && !seqState.needsGc) ==> r == Ok(()))
      ensures old(seqState.nextSeq.None? || seqState.needsGc)
              || old(exists i :: 0 <= i < |list| && list[i].state == Initial) ==>
                && View(storage) == old(View(storage)) && totalRead == bytesWritten == 0
                && r == Err(AppError(if old(seqState.nextSeq.Some? && seqState.needsGc) then NeedsGarbageCollect
                                     else NeedsFirstRead))
      ensures old(MayWrite(View(storage))) && r.Err? ==> r.error in WriteErrors
      ensures old(MayWrite(View(storage))) && r.Err? ==> WriteAborts(old(View(storage)), View(storage))
      ensures old(MayWrite(View(storage))) && (r.Ok? || (old(AllFit(Nodes(), buf.Length)) && !storage.faulty)) ==>
                storage.items == old(storage.items) + RecordFor(old(Nodes()), old(seqState.nextSeq).value)
      ensures old(MayWrite(View(storage))) && r.Ok? ==>
                && old(AllFit(Nodes(), buf.Length))
                && |Nodes()| == |old(Nodes())|
                && forall i :: 0 <= i < |Nodes()| ==> Nodes()[i] == Flushed(old(Nodes())[i])
      ensures old(MayWrite(View(storage)) && AllFit(Nodes(), buf.Length)) && !storage.faulty ==>
                (r.Ok? <==> CanVerify(old(storage.items), old(Nodes()), old(seqState.nextSeq).value))
      ensures old(MayWrite(View(storage)) && Trusted(storage)) && r.Ok? ==>
                && Writes(old(View(storage)), View(storage))
                && NoStart(old(storage.items), old(seqState.nextSeq).value)
                && totalRead == Total(storage.size, old(storage.items)) + bytesWritten
      ensures old(MayWrite(View(storage)) && Trusted(storage) && AllFit(Nodes(), buf.Length)) && !storage.faulty ==>
                (r.Ok? <==> NoStart(old(storage.items), old(seqState.nextSeq).value))
    {
      hide Coherent, Healthy, Written, RecordFor, WellFormed, UniqueKeys, Inserted, NeedsWriting, NoneInitial,
           AllFit, NoStart, CanVerify, Total, WriteAborts, Writes;
      ghost var trusted, v0 := Trusted(storage), View(storage);
      totalRead, bytesWritten := 0, 0;
      NothingNewIsNotWritten(storage);
      MayWriteIff(storage);
      if seqState.nextSeq.None? {
        return Err(AppError(NeedsFirstRead)), 0, 0;
      }
      if seqState.needsGc {
        return Err(AppError(NeedsGarbageCollect)), 0, 0;
      }
      var needsWriting := CheckNeedsWriting();
      if needsWriting.Err? {
        return Err(needsWriting.error), 0, 0;
      }
      if !needsWriting.value {
        return Ok(()), 0, 0;
      }
      var next := seqState.nextSeq.value;
      var range;
      range, totalRead, bytesWritten := WriteAndVerify(buf, storage);
      assert Nodes() == v0.nodes && seqState.Value() == v0.cache;
      if range.Err? {
        return Err(range.error), totalRead, 0;
      }
      seqState.InsertGood(Rec(next, range.value.0, range.value.1));
      MarkWritten();
      if trusted {
        WritesIntro(v0, View(storage));
        TotalOfWrite(storage.size, v0.items, RecordFor(v0.nodes, next));
      }
      r := Ok(());
    }

    // ---- garbage collection ----

    /** First phase, under the lock: take the cache away, which inhibits reads and writes. */
    method TakeSeqState() returns (taken: Option<SeqState>)
      requires Valid()
      modifies this`seqState
      ensures Valid()
      ensures taken.None? <==> !old(seqState.needsGc)
      ensures taken.None? ==> seqState == old(seqState)
      ensures taken.Some? ==> taken.value == old(seqState)
      ensures taken.Some? ==> fresh(seqState) && fresh(seqState.lastRecords)
      ensures taken.Some? ==> seqState.Value() == EmptyCache(old(seqState.lastRecords).Length)
    {
      if !seqState.needsGc {
        return None;
      }
      ghost var nodes := Nodes();
      taken := Some(seqState);
      seqState := new SeqState(taken.value.lastRecords.Length);
      assert Nodes() == nodes;
    }

    /** Last phase, under the lock: scan again. */
    method Rescan(storage: DataStorage) returns (r: Result<()>, bytesRead: nat)
      requires Valid() && seqState.Value() == EmptyCache(seqState.lastRecords.Length)
      modifies seqState, seqState.lastRecords
      ensures Valid() && seqState.lastRecords == old(seqState.lastRecords)
      ensures r.Ok? ==>
                && Rescanned(storage.items, seqState.lastRecords.Length, seqState.Value())
                && bytesRead == Total(storage.size, storage.items)
      ensures r.Err? ==> storage.faulty && PartlyScanned(storage.items, seqState.Value())
    {
      hide PartlyScanned, AllWellFormed, UniqueKeys, Scanned;
      var res, read := GetOrPopulateLatest(storage);
      bytesRead := read;
      if res.Err? {
        return Err(res.error), bytesRead;
      }
      ghost var c := seqState.Value();
      seqState.needsGc := false;
      assert seqState.Value().(needsGc := c.needsGc) == c;
      r := Ok(());
    }

    /** Collect garbage: keep the cached records, remove everything else, oldest first, and scan
        again. `n` counts the entries dealt with when it fails. */
    method ProcessGarbage(storage: DataStorage)
      returns (r: Result<()>, totalRead: nat, postRead: nat, totalPopped: nat, ghost n: nat)
      requires Valid()
      modifies this`seqState, seqState, seqState.lastRecords, storage
      ensures Valid() && Nodes() == old(Nodes())
      ensures |seqState.Value().last| == |old(seqState.Value().last)|
      ensures seqState == old(seqState) || fresh(seqState)
      ensures seqState.lastRecords == old(seqState.lastRecords) || fresh(seqState.lastRecords)
      ensures !old(seqState.needsGc) ==>
                && r.Ok? && totalRead == postRead == totalPopped == 0
                && View(storage) == old(View(storage)) && seqState == old(seqState)
      ensures old(seqState.needsGc) ==>
                && n <= |old(storage.items)|
                && storage.items == Swept(old(storage.items), old(seqState.lastRecords[..]), n)
      ensures old(seqState.needsGc) && r.Ok? ==>
                && n == |old(storage.items)|
                && Rescanned(storage.items, |old(seqState.lastRecords[..])|, seqState.Value())
                && totalRead == totalPopped + 2 * postRead
      ensures old(seqState.needsGc) && r.Err? ==> storage.faulty
      ensures old(seqState.needsGc) && r.Err? ==>
                || seqState.Value() == EmptyCache(|old(seqState.lastRecords[..])|)
                || PartlyScanned(storage.items, seqState.Value())
    {
      hide PartlyScanned, AllWellFormed, UniqueKeys, Rescanned, Total, Swept;
      totalRead, postRead, totalPopped, n := 0, 0, 0, 0;
      ghost var nodes, items := Nodes(), storage.items;
      var taken := TakeSeqState();
      if taken.None? {
        return Ok(()), 0, 0, 0, 0;
      }
      var slots := taken.value.lastRecords[..];
      r, totalRead, totalPopped, n := Sweep(storage, slots);
      assert Nodes() == nodes;
      if r.Err? {
        return;
      }
      r, postRead := Rescan(storage);
      totalRead := totalRead + postRead;
    }

    /** Forget the cache; nodes keep their values. */
    method ResetCache()
      requires Valid()
      modifies this`seqState
      ensures Valid() && Nodes() == old(Nodes())
      ensures seqState.Value() == EmptyCache(|old(seqState.Value().last)|)
      ensures fresh(seqState) && fresh(seqState.lastRecords)
    {
      ghost var nodes := Nodes();
      seqState := new SeqState(seqState.lastRecords.Length);
      assert Nodes() == nodes;
    }
  }

  /** Second phase, without the lock: remove every entry that does not decode or is in no cached
      range. */
  method Sweep(storage: DataStorage, slots: Slots)
    returns (r: Result<()>, totalRead: nat, totalPopped: nat, ghost n: nat)
    modifies storage
    ensures n <= |old(storage.items)| && storage.items == Swept(old(storage.items), slots, n)
    ensures r.Ok? ==> n == |old(storage.items)|
    ensures r.Err? ==> storage.faulty
    ensures r.Ok? ==> totalRead == totalPopped + Total(storage.size, storage.items)
  {
    hide Total, Kept, Survivors, Swept, InRange;
    ghost var items := storage.items;
    totalRead, totalPopped, n := 0, 0, 0;
    SweepBounds(items, slots, 0);
    TotalOfNone(storage.size);
    var iter := storage.IterElems();
    if iter.Err? {
      return Err(iter.error), 0, 0, 0;
    }
    var idx, pos := 0, 0;
    while pos < |storage.items|
      invariant 0 <= idx <= |items| && n == idx
      invariant storage.items == Swept(items, slots, idx)
      invariant pos == |Survivors(items, slots, idx)|
      invariant |storage.items| == pos + |items| - idx
      invariant totalRead == totalPopped + Total(storage.size, Survivors(items, slots, idx))
      decreases |items| - idx
    {
      SweepBounds(items, slots, idx);
      SweepOne(items, slots, idx, storage.size);
      SweepBounds(items, slots, idx + 1);
      var next := storage.Next(pos);
      if next.Err? {
        return Err(next.error), totalRead, totalPopped, n;
      }
      var item := next.value.value;
      var used := storage.size(item);
      totalRead := totalRead + used;
      if item.Junk? || !InRange(slots, idx) {
        totalPopped := totalPopped + used;
        var popped := storage.Invalidate(pos);
        if popped.Err? {
          n := if storage.items == Swept(items, slots, idx) then idx else idx + 1;
          return Err(popped.error), totalRead, totalPopped, n;
        }
      } else {
        pos := pos + 1;
      }
      idx, n := idx + 1, n + 1;
    }
    var last := storage.Next(pos);
    if last.Err? {
      return Err(last.error), totalRead, totalPopped, n;
    }
    SweepBounds(items, slots, idx);
    r := Ok(());
  }

  // ---- verification ----

  /** Read back what has been written, from the first start with its sequence number. The range
      returned ends one past the end element. */
  method VerifyListInFlash(storage: DataStorage, rpt: WriteReport)
    returns (r: Result<(nat, nat)>, totalRead: nat)
    ensures r.Err? ==> r.error in WriteErrors
    ensures r.Ok? ==>
              && 0 < r.value.1 <= |storage.items|
              && FirstStart(storage.items, rpt.seqNo, r.value.0)
              && Matches(storage.items, rpt, r.value.0, r.value.1 - 1)
              && Rec(rpt.seqNo, r.value.0, r.value.1 - 1) in GoodRecords(storage.items)
              && totalRead == Total(storage.size, storage.items[..r.value.1])
    ensures r.Ok? ==> IsReported(storage.items, rpt, r.value.0, r.value.1 - 1)
    ensures !storage.faulty ==> (r.Ok? <==> CheckAccepts(storage.items, rpt))
    ensures r.Err? && !storage.faulty ==>
              r.error
                == if NoStart(storage.items, rpt.seqNo) then AppError(InconsistentFlash) else WriteVerificationFailed
  {
    hide Total, Matches, NoMatch, CheckAccepts, GoodRecords;
    totalRead := 0;
    TotalOfNone(storage.size);
    AcceptsOrNot(storage.items, rpt);
    var iter := storage.IterElems();
    if iter.Err? {
      return Err(iter.error), 0;
    }
    var seen := 0;
    while seen < |storage.items|
      invariant 0 <= seen <= |storage.items|
      invariant forall k :: 0 <= k < seen ==> storage.items[k] != Start(rpt.seqNo)
      invariant totalRead == Total(storage.size, storage.items[..seen])
    {
      var next := storage.Next(seen);
      if next.Err? {
        return Err(next.error), totalRead;
      }
      TotalPush(storage.size, storage.items, 0, seen);
      totalRead := totalRead + storage.size(next.value.value);
      seen := seen + 1;
      if next.value.value == Start(rpt.seqNo) {
        r, totalRead := VerifyRecord(storage, rpt, seen - 1, totalRead);
        if r.Ok? {
          CheckFinds(storage.items, rpt, r.value.0, r.value.1 - 1);
          MatchesIsReported(storage.items, rpt, r.value.0, r.value.1 - 1);
        }
        return;
      }
    }
    var next := storage.Next(seen);
    r := Err(if next.Err? then next.error else AppError(InconsistentFlash));
  }

  /** The record that starts at `start`. */
  method VerifyRecord(storage: DataStorage, rpt: WriteReport, start: nat, readSoFar: nat)
    returns (r: Result<(nat, nat)>, totalRead: nat)
    requires FirstStart(storage.items, rpt.seqNo, start)
    requires readSoFar == Total(storage.size, storage.items[..start + 1])
    ensures r.Err? ==> r.error in WriteErrors
    ensures r.Ok? ==>
              && r.value.0 == start && 0 < r.value.1 <= |storage.items|
              && Matches(storage.items, rpt, start, r.value.1 - 1)
              && totalRead == Total(storage.size, storage.items[..r.value.1])
    ensures r.Err? && !storage.faulty ==> r.error == WriteVerificationFailed && NoMatch(storage.items, rpt)
  {
    hide Total, Update, FirstStart, VerifyState, Matches, NoMatch;
    totalRead := readSoFar;
    VerifyStarts(storage.items, rpt.seqNo, start);
    var crc, consumed, seen := CRC_INIT, 0, start + 1;
    while seen < |storage.items|
      invariant start < seen <= |storage.items|
      invariant VerifyState(storage.items, start, seen, crc, consumed)
      invariant totalRead == Total(storage.size, storage.items[..seen])
    {
      var next := storage.Next(seen);
      if next.Err? {
        return Err(next.error), totalRead;
      }
      var item := next.value.value;
      TotalPush(storage.size, storage.items, 0, seen);
      totalRead := totalRead + storage.size(item);
      if !item.Data? {
        VerifyStops(storage.items, rpt, start, seen, crc, consumed);
      }
      if item.End? {
        if item.seqNo == rpt.seqNo && Finalize(crc) == rpt.crc && item.calcCrc == rpt.crc && consumed == rpt.ct {
          return Ok((start, seen + 1)), totalRead;
        }
        return Err(WriteVerificationFailed), totalRead;
      }
      if !item.Data? {
        return Err(WriteVerificationFailed), totalRead;
      }
      VerifyGrows(storage.items, start, seen, crc, consumed);
      crc := Update(crc, item.keyVal);
      consumed := consumed + 1;
      seen := seen + 1;
    }
    var next := storage.Next(seen);
    VerifyRunsOut(storage.items, rpt, start, crc, consumed);
    r := Err(if next.Err? then next.error else WriteVerificationFailed);
  }
}
