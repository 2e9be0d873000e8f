// The default worker (worker_task.rs): in which order it reads, writes and collects, and the flush
// on its way out.
module Workers {
  import opened Wrappers
  import opened Elements
  import opened Log
  import opened SeqStates
  import opened Collect
  import opened NodeSpec
  import opened ListSpec
  import opened Storage
  import opened StorageLists
  import opened Scan
  import opened Verify
  import opened Writing
  import opened Limits

  // ---- what the operations in sequence achieve ----

  /** The list has been read, every node fits, and the cache is that of the storage. */
  ghost predicate Writable(v: ListV, bufLen: nat) {
    && ListInv(v) && Coherent(v.cache, v.items)
    && v.cache.next.Some? && v.cache.next.value < MAX_SEQ
    && NoneInitial(v.nodes) && AllFit(v.nodes, bufLen)
  }

  /** Nothing keeps the next write from being verified: a collection will clear the way, or no start is
      in it, or there is nothing to write. */
  ghost predicate Unobstructed(v: ListV) {
    v.cache.needsGc || (v.cache.next.Some? ==> NoStart(v.items, v.cache.next.value)) || !NeedsWriting(v.nodes, v.cache)
  }

  /** Every node has been flushed, and the log holds the value of every initialised node. */
  ghost predicate FlushedAll(v: ListV, v': ListV) {
    && ListInv(v')
    && |v'.nodes| == |v.nodes|
    && forall i :: 0 <= i < |v.nodes| ==>
         && v'.nodes[i] == Flushed(v.nodes[i])
         && (Initialised(v.nodes[i].state) ==> StoresNode(v'.items, v.nodes[i]))
  }

  /** The latest record gives a node of this kind the value that this one has. */
  ghost predicate StoresNode(items: seq<Item>, n: Node) {
    n.data.Some? && StoredIn(items, n.key, n.codec, n.data.value)
  }

  /** A record of all initialised nodes has been pushed and is the latest, but no node has been marked. */
  ghost predicate StoredUnmarked(v: ListV, v': ListV)
    requires AllWellFormed(v.nodes) && v.cache.next.Some?
  {
    && v'.nodes == v.nodes && v'.cache == v.cache
    && v'.items == v.items + RecordFor(v.nodes, v.cache.next.value)
    && forall i :: 0 <= i < |v.nodes| && Initialised(v.nodes[i].state) ==> StoresNode(v'.items, v.nodes[i])
  }

  lemma ItemIsStored(n: Node, items: seq<Item>)
    requires WellFormed(n) && n.state.ValidNoWriteNeeded? && Clean(n, LatestPayload(items))
    ensures StoresNode(items, n)
  {
    hide LatestPayload, EntryFor, Lawful;
  }

  lemma FlushedAllIntro(v: ListV, v': ListV)
    requires ListInv(v) && ListInv(v') && |v'.nodes| == |v.nodes|
    requires forall i :: 0 <= i < |v.nodes| ==> v'.nodes[i] == Flushed(v.nodes[i])
    ensures FlushedAll(v, v')
  {
    hide Healthy, LatestPayload, EntryFor, Lawful, StoredIn;
    forall i | 0 <= i < |v.nodes| && Initialised(v.nodes[i].state)
      ensures StoresNode(v'.items, v.nodes[i])
    {
      assert WellFormed(v'.nodes[i]) && Clean(v'.nodes[i], LatestPayload(v'.items));
      ItemIsStored(v'.nodes[i], v'.items);
    }
  }

  lemma NothingToFlush(v: ListV)
    requires ListInv(v) && !NeedsWriting(v.nodes, v.cache)
    ensures FlushedAll(v, v)
  {
    hide Healthy, Durable, AllWellFormed, UniqueKeys, ListInv;
    forall i | 0 <= i < |v.nodes| ensures v.nodes[i] == Flushed(v.nodes[i]) {
      assert !v.nodes[i].state.NeedsWrite?;
    }
    FlushedAllIntro(v, v);
  }

  lemma WritesFlushAll(v: ListV, v': ListV)
    requires ListInv(v) && Coherent(v.cache, v.items) && Writes(v, v') && v.cache.next.value < MAX_SEQ
    ensures FlushedAll(v, v') && Coherent(v'.cache, v'.items) && v'.cache.next.Some?
  {
    hide ListInv, Coherent, RecordFor, MayWrite, Inserted;
    WritesKeepsInv(v, v');
    FlushedAllIntro(v, v');
  }

  lemma PushedIsStored(v: ListV, v': ListV, bufLen: nat)
    requires Writable(v, bufLen) && !v.cache.needsGc && v'.nodes == v.nodes && v'.cache == v.cache
    requires v'.items == v.items + RecordFor(v.nodes, v.cache.next.value)
    ensures StoredUnmarked(v, v')
  {
    hide Coherent, LatestPayload, Written, RecordFor, StoredIn, GoodRecords, Healthy, Durable, UniqueKeys, AllFit,
         NoneInitial;
    AppendedIsLatest(v.cache, v.items, v.nodes);
    forall i | 0 <= i < |v.nodes| && Initialised(v.nodes[i].state) ensures StoresNode(v'.items, v.nodes[i]) {
      WrittenIsStored(v, i, v'.items);
    }
  }

  lemma MayBeWritten(v: ListV, bufLen: nat)
    requires Writable(v, bufLen) && !v.cache.needsGc
    ensures MayWrite(v) <==> NeedsWriting(v.nodes, v.cache)
    ensures !v.cache.needsGc && !NeedsWriting(v.nodes, v.cache) ==> WriteRefused(v) == Ok(())
  {
    hide Coherent, ListInv;
  }

  /** A write whose future was dropped between its first push and its last leaves a list that is still
      writable, with a start in the way of the next write; dropped before its first push, it has
      changed nothing. */
  lemma CutWriteIsWritable(v: ListV, v': ListV, n: nat, bufLen: nat)
    requires Writable(v, bufLen) && WriteFails(v, v', n) && n < |RecordFor(v.nodes, v.cache.next.value)|
    ensures Writable(v', bufLen) && !v'.cache.needsGc && NeedsWriting(v'.nodes, v'.cache)
    ensures Unobstructed(v') <==> n == 0 && Unobstructed(v)
  {
    hide ListInv, Coherent, AllFit, NoneInitial, NeedsWriting, IsRecord, Written;
    ListIsWellFormed(v);
    var w := RecordFor(v.nodes, v.cache.next.value);
    RecordForIsRecord(v.nodes, v.cache.next.value);
    WriteFailsKeepsInv(v, v', n);
    FailedWriteIsCoherentIff(v, v', n);
    if n == 0 {
      assert w[..n] == [] && v.items + [] == v.items;
    } else {
      CutHasStart(v.items, w, n, v.cache.next.value);
    }
  }

  lemma ListIsWellFormed(v: ListV)
    requires ListInv(v)
    ensures AllWellFormed(v.nodes) && UniqueKeys(v.nodes) && 0 < |v.cache.last| && Healthy(v.items)
  {
  }

  /** One dropped after its last push leaves a record that the check of the next write accepts for its
      own, if it would have accepted the dropped one. */
  lemma WrittenButUnmarked(v: ListV, v': ListV)
    requires AllWellFormed(v.nodes) && MayWrite(v) && WriteFails(v, v', |RecordFor(v.nodes, v.cache.next.value)|)
    ensures CanVerify(v'.items, v'.nodes, v'.cache.next.value) <==> CanVerify(v.items, v.nodes, v.cache.next.value)
  {
    hide CheckAccepts, Written, Crc, Bytes;
    var s := v.cache.next.value;
    var w := RecordFor(v.nodes, s);
    assert w[..|w|] == w;
    assert v'.items[|v.items|] == Start(s);
    VerifiesIff(v.items, v.nodes, ReportOf(v.nodes, s));
  }

  /** A finished collection gives the list a cache that allows the next write, and keeps its nodes and
      what its latest record holds. */
  lemma CollectedIsWritable(v: ListV, v': ListV)
    requires ListInv(v) && Coherent(v.cache, v.items) && v.cache.needsGc && v.cache.next.Some?
    requires v'.nodes == v.nodes && v'.items == Swept(v.items, v.cache.last, |v.items|)
    requires Rescanned(v'.items, |v.cache.last|, v'.cache)
    ensures ListInv(v') && Coherent(v'.cache, v'.items) && !v'.cache.needsGc && v'.cache.next == v.cache.next
    ensures LatestPayload(v'.items) == LatestPayload(v.items) && Highest(v'.cache.last).Some?
    ensures Tiled(v'.items, v'.cache.last) && NoStart(v'.items, v'.cache.next.value)
  {
    hide Healthy, IsTopK, Swept, GoodRecords, LatestPayload, Clean, WellFormed, UniqueKeys, NoStart, Tiled, Scanned;
    CollectedIsCoherent(v.items, v.cache.last, v'.cache);
    SweepKeepsLatest(v.items, v.cache.last, |v.items|);
    SameHighest(v.items, v.cache.last);
    RescannedKeepsShape(v'.items, |v.cache.last|, v'.cache);
  }

  lemma FlushedStays(v: ListV, v': ListV, v'': ListV)
    requires FlushedAll(v, v') && ListInv(v'') && v''.nodes == v'.nodes
    requires LatestPayload(v''.items) == LatestPayload(v'.items)
    ensures FlushedAll(v, v'')
  {
    hide ListInv, LatestPayload;
  }

  // ---- the worker ----

  class Worker {
    const list: StorageListInner
    var firstGcDone: bool
    /** The delayed collection after a read has been asked for. */
    var gcSignalled: bool

    constructor (list: StorageListInner)
      ensures this.list == list && !firstGcDone && !gcSignalled
    {
      this.list, firstGcDone, gcSignalled := list, false, false;
    }

    /** Nothing has gone wrong with this list and this storage so far, and nothing does now. */
    ghost predicate Sound(storage: DataStorage)
      reads list, list.seqState, list.seqState.lastRecords, list.list, storage
    {
      && !storage.faulty && ListInv(list.View(storage))
      && Coherent(list.seqState.Value(), storage.items) && list.seqState.nextSeq.Some?
    }

    ghost predicate Ready(storage: DataStorage, buf: array<byte>)
      reads list, list.seqState, list.seqState.lastRecords, list.list, storage
    {
      !storage.faulty && Writable(list.View(storage), buf.Length)
    }

    lemma ReadyIsSound(storage: DataStorage, buf: array<byte>)
      requires Ready(storage, buf)
      ensures Sound(storage)
    {
      hide ListInv, Coherent;
    }

    /** Try to write. Without a scan, or with a collection pending, nothing happens. From a list that is
        ready, it succeeds if and only if nothing is in the way of its check; a write that fails even so
        has pushed its record, and leaves the nodes to be written again. */
    method Write(storage: DataStorage, buf: array<byte>) returns (r: Result<()>)
      requires list.Valid()
      modifies list.seqState, list.seqState.lastRecords, list.list, buf, storage
      ensures list.Valid() && list.seqState.lastRecords == old(list.seqState.lastRecords)
      ensures old(list.seqState.nextSeq).None? ==>
                r == Err(AppError(NeedsFirstRead)) && list.View(storage) == old(list.View(storage))
      ensures old(list.seqState.nextSeq).Some? && old(list.seqState.needsGc) ==>
                r == Err(AppError(NeedsGarbageCollect)) && list.View(storage) == old(list.View(storage))
      ensures old(!list.seqState.needsGc && !NoneInitial(list.Nodes())) ==>
                r == Err(AppError(NeedsFirstRead)) && list.View(storage) == old(list.View(storage))
      ensures old(storage.items) <= storage.items
      ensures old(Ready(storage, buf) && !list.seqState.needsGc) ==>
                if old(Unobstructed(list.View(storage)))
                then r.Ok? && Sound(storage) && FlushedAll(old(list.View(storage)), list.View(storage))
                else r.Err? && r.error in WriteErrors && StoredUnmarked(old(list.View(storage)), list.View(storage))
      ensures old(MayWrite(list.View(storage)) && AllFit(list.Nodes(), buf.Length)) && !storage.faulty ==>
                && (r.Ok? <==> old(CanVerify(storage.items, list.Nodes(), list.seqState.nextSeq.value)))
                && (r.Ok? ==> AllFlushed(old(list.Nodes()), list.Nodes()))
                && (r.Err? ==> r.error in WriteErrors)
    {
      hide Writes, Coherent, ListInv, FlushedAll, NeedsWriting, AllFit, NoStart, Healthy, CanVerify, StoredUnmarked,
           RecordFor, NoneInitial;
      ghost var v, ready := list.View(storage), Ready(storage, buf);
      if ready { ListIsWellFormed(v); }
      var totalRead, bytesWritten;
      r, totalRead, bytesWritten := list.ProcessWrites(buf, storage);
      if MayWrite(v) && r.Err? { AbortedIsUnchanged(v, list.View(storage)); }
      if ready && !v.cache.needsGc {
        MayBeWritten(v, buf.Length);
        if !MayWrite(v) {
          NothingToFlush(v);
          FlushedIsInv(v, list.View(storage));
        } else if NoStart(v.items, v.cache.next.value) {
          WritesFlushAll(v, list.View(storage));
          FlushedIsInv(v, list.View(storage));
        } else {
          PushedIsStored(v, list.View(storage), buf.Length);
        }
      }
    }

    lemma AbortedIsUnchanged(v: ListV, v': ListV)
      requires WriteAborts(v, v')
      ensures v'.nodes == v.nodes && v'.cache == v.cache && v.items <= v'.items
    {
    }

    /** Collect, if that is pending. A finished collection leaves nothing but the cached records. */
    method Collect(storage: DataStorage) returns (r: Result<()>)
      requires list.Valid()
      modifies list`seqState, list.seqState, list.seqState.lastRecords, storage
      ensures list.Valid() && list.Nodes() == old(list.Nodes())
      ensures list.seqState == old(list.seqState) || fresh(list.seqState)
      ensures list.seqState.lastRecords == old(list.seqState.lastRecords) || fresh(list.seqState.lastRecords)
      ensures old(Sound(storage)) ==>
                && r.Ok? && Sound(storage) && !list.seqState.needsGc
                && list.seqState.nextSeq == old(list.seqState.nextSeq)
                && LatestPayload(storage.items) == old(LatestPayload(storage.items))
      ensures old(list.seqState.needsGc) && !storage.faulty ==>
                && r.Ok? && !list.seqState.needsGc
                && storage.items == Swept(old(storage.items), old(list.seqState.lastRecords[..]), |old(storage.items)|)
      ensures !old(list.seqState.needsGc) ==> r.Ok? && list.View(storage) == old(list.View(storage))
      ensures old(Sound(storage)) && old(list.seqState.needsGc) ==>
                && Highest(list.seqState.lastRecords[..]).Some? && Tiled(storage.items, list.seqState.lastRecords[..])
                && NoStart(storage.items, list.seqState.nextSeq.value)
    {
      hide Coherent, ListInv, Rescanned, Swept, LatestPayload, Healthy, Tiled;
      ghost var v, sound := list.View(storage), Sound(storage);
      var totalRead, postRead, totalPopped;
      ghost var n;
      r, totalRead, postRead, totalPopped, n := list.ProcessGarbage(storage);
      if v.cache.needsGc && r.Ok? {
        RescannedKeepsShape(storage.items, |v.cache.last|, list.seqState.Value());
      }
      if sound && v.cache.needsGc {
        CollectedIsWritable(v, list.View(storage));
      }
    }

    lemma CollectedIsReady(v: ListV, v': ListV, bufLen: nat)
      requires Writable(v, bufLen) && ListInv(v') && Coherent(v'.cache, v'.items) && v'.nodes == v.nodes
      requires v'.cache.next == v.cache.next && !v'.cache.needsGc
      requires if v.cache.needsGc then NoStart(v'.items, v'.cache.next.value) else v' == v
      ensures Writable(v', bufLen) && (Unobstructed(v) ==> Unobstructed(v'))
    {
      hide ListInv, Coherent, AllFit, NoStart, NeedsWriting, NoneInitial;
    }

    /** The arm for needs_read. */
    method OnNeedsRead(storage: DataStorage) returns (r: Result<()>)
      requires list.Valid()
      modifies this`gcSignalled, list.seqState, list.seqState.lastRecords, list.list
      ensures list.Valid() && (r.Ok? ==> NoneInitial(list.Nodes()))
      ensures old(ListInv(list.View(storage)) && list.Trusted(storage)) && !storage.faulty ==>
                r.Ok? && Reads(old(list.View(storage)), list.View(storage)) && Sound(storage)
      ensures gcSignalled == (old(gcSignalled) || !firstGcDone)
    {
      hide Reads, ListInv, Coherent, Healthy, NoneInitial;
      ghost var v, trusted := list.View(storage), list.Trusted(storage);
      var totalRead, currentRead;
      r, totalRead, currentRead := list.ProcessReads(storage);
      if ListInv(v) && trusted && r.Ok? {
        ReadsKeepsInv(v, list.View(storage));
      }
      if !firstGcDone {
        gcSignalled := true;
      }
    }

    /** The arm for needs_write: collect, write, collect, whatever fails. From a list that is ready and
        unobstructed, everything is flushed, and the storage is left collected. If the write is
        obstructed, its record is stored, the nodes stay marked, and nothing is collected. */
    method OnNeedsWrite(storage: DataStorage, buf: array<byte>)
      requires list.Valid()
      modifies list`seqState, list.seqState, list.seqState.lastRecords, list.list, buf, storage
      ensures list.Valid()
      ensures old(Ready(storage, buf) && Unobstructed(list.View(storage))) ==>
                && FlushedAll(old(list.View(storage)), list.View(storage))
                && Sound(storage) && !list.seqState.needsGc
      ensures old(Ready(storage, buf) && !Unobstructed(list.View(storage))) ==>
                StoredUnmarked(old(list.View(storage)), list.View(storage))
    {
      hide Coherent, ListInv, FlushedAll, LatestPayload, Writable, Tiled, NoStart, StoredUnmarked, Unobstructed,
           MayWrite, CanVerify, AllFit, Swept;
      ghost var v, ready, free := list.View(storage), Ready(storage, buf), Unobstructed(list.View(storage));
      if ready { ReadyIsSound(storage, buf); }
      ObstructedNeedsNoGc(v);
      var r := Collect(storage);
      ghost var v1 := list.View(storage);
      if ready { CollectedIsReady(v, v1, buf.Length); }
      r := Write(storage, buf);
      ghost var v2 := list.View(storage);
      if ready && !free { StoredKeepsCache(v, v2); }
      r := Collect(storage);
      if ready && free {
        SameNodesFlushed(v, v1, v2);
        FlushedStays(v, v2, list.View(storage));
      }
    }

    lemma ObstructedNeedsNoGc(v: ListV)
      ensures !Unobstructed(v) ==> !v.cache.needsGc
    {
    }

    lemma StoredKeepsCache(v: ListV, v': ListV)
      requires AllWellFormed(v.nodes) && v.cache.next.Some? && StoredUnmarked(v, v')
      ensures v'.cache == v.cache
    {
    }

    /** Every node of `before` has been marked as written. */
    ghost predicate AllFlushed(before: seq<Node>, after: seq<Node>) {
      |after| == |before| && forall i :: 0 <= i < |before| ==> after[i] == Flushed(before[i])
    }

    lemma FlushedIsInv(v: ListV, v': ListV)
      requires FlushedAll(v, v')
      ensures ListInv(v')
    {
    }

    lemma SameNodesFlushed(v: ListV, v1: ListV, v2: ListV)
      requires FlushedAll(v1, v2) && v1.nodes == v.nodes
      ensures FlushedAll(v, v2)
    {
      hide ListInv, StoredIn;
    }

    /** The arm for the delayed collection. */
    method OnNeedsGc(storage: DataStorage)
      requires list.Valid()
      modifies this`firstGcDone, this`gcSignalled, list`seqState, list.seqState, list.seqState.lastRecords, storage
      ensures list.Valid() && list.Nodes() == old(list.Nodes()) && !gcSignalled
      ensures old(firstGcDone) ==> firstGcDone
      ensures old(Sound(storage)) ==>
                && firstGcDone && Sound(storage) && !list.seqState.needsGc
                && LatestPayload(storage.items) == old(LatestPayload(storage.items))
    {
      hide Coherent, ListInv, LatestPayload, Tiled;
      gcSignalled := false;
      var r := Collect(storage);
      if r.Ok? {
        firstGcDone := true;
      }
    }

    /** The flush when the worker is stopped: write; if that asks for a collection first, collect and
        write. From a list that is ready and unobstructed, no node is left to be written, and the latest
        record of the storage holds the value of every initialised node.

        Stopping drops whatever arm is running. If that was a collection, the flush is refused. If it was
        a scan that had found a record, the flush collects at once from what that scan has cached, and
        so removes every record it had not come to; then it is refused, if a node is waiting. If it was
        a write between two pushes, the list is ready with a start in the way (`CutWriteIsWritable`):
        the flush fails and leaves the nodes marked, but the record it has pushed is valid and holds
        every initialised node. If it was a write after its last push, the flush pushes the record a
        second time and accepts the first (`WrittenButUnmarked`). */
    method Stop(storage: DataStorage, buf: array<byte>) returns (r: Result<()>)
      requires list.Valid()
      modifies list`seqState, list.seqState, list.seqState.lastRecords, list.list, buf, storage
      ensures list.Valid()
      ensures old(list.seqState.nextSeq).None? ==>
                r == Err(AppError(NeedsFirstRead)) && list.View(storage) == old(list.View(storage))
      ensures old(Ready(storage, buf)) ==>
                if old(Unobstructed(list.View(storage)))
                then r.Ok? && FlushedAll(old(list.View(storage)), list.View(storage))
                else r.Err? && StoredUnmarked(old(list.View(storage)), list.View(storage))
      ensures old(list.seqState.nextSeq.Some? && list.seqState.needsGc) && !storage.faulty ==>
                Swept(old(storage.items), old(list.seqState.lastRecords[..]), |old(storage.items)|) <= storage.items
      ensures old(list.seqState.nextSeq.Some? && list.seqState.needsGc && !NoneInitial(list.Nodes()))
              && !storage.faulty ==>
                && r == Err(AppError(NeedsFirstRead)) && list.Nodes() == old(list.Nodes())
                && storage.items == Swept(old(storage.items), old(list.seqState.lastRecords[..]), |old(storage.items)|)
      ensures forall p: nat ::
                && old(list.seqState.nextSeq.Some? && list.seqState.needsGc && !NoneInitial(list.Nodes()))
                && old(ScannedUpTo(storage.items, p, list.seqState.Value()) && DistinctSeqs(GoodRecords(storage.items)))
                && !storage.faulty ==>
                LostBehind(old(storage.items), p, storage.items)
      ensures old(Ready(storage, buf)) && r.Ok? ==>
                forall i :: 0 <= i < |list.Nodes()| ==> !list.Nodes()[i].state.NeedsWrite?
      ensures old(MayWrite(list.View(storage)) && AllFit(list.Nodes(), buf.Length)) && !storage.faulty ==>
                && (r.Ok? <==> old(CanVerify(storage.items, list.Nodes(), list.seqState.nextSeq.value)))
                && (r.Ok? ==> AllFlushed(old(list.Nodes()), list.Nodes()))
    {
      hide Coherent, ListInv, FlushedAll, LatestPayload, Writable, Tiled, NoStart, StoredUnmarked, CanVerify, AllFit,
           NeedsWriting, NoneInitial, Swept, ScannedUpTo, LostBehind, DistinctSeqs, GoodRecords;
      ghost var v, ready := list.View(storage), Ready(storage, buf);
      if ready { ReadyIsSound(storage, buf); }
      r := Write(storage, buf);
      if r == Err(AppError(NeedsGarbageCollect)) {
        r := Collect(storage);
        ghost var v1 := list.View(storage);
        if ready { CollectedIsReady(v, v1, buf.Length); }
        r := Write(storage, buf);
        if ready { SameNodesFlushed(v, v1, list.View(storage)); }
      }
      if ready && r.Ok? { FlushedNeedNoWrite(v, list.View(storage)); }
      forall p: nat | ScannedUpTo(v.items, p, v.cache) && DistinctSeqs(GoodRecords(v.items))
        ensures LostBehind(v.items, p, Swept(v.items, v.cache.last, |v.items|))
      {
        StoppedScanLosesBehind(v.items, p, v.cache);
      }
    }

    lemma FlushedNeedNoWrite(v: ListV, v': ListV)
      requires FlushedAll(v, v')
      ensures forall i :: 0 <= i < |v'.nodes| ==> !v'.nodes[i].state.NeedsWrite?
    {
      hide ListInv, StoredIn;
      forall i | 0 <= i < |v'.nodes| ensures !v'.nodes[i].state.NeedsWrite? {
        assert v'.nodes[i] == Flushed(v.nodes[i]);
      }
    }
  }
}
