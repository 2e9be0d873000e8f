// Where the guarantees end: what an operation that failed leaves behind when neither a reset of the
// cache nor a power loss follows it.
module Limits {
  import opened Wrappers
  import opened Elements
  import opened Log
  import opened SeqStates
  import opened Collect
  import opened NodeSpec
  import opened ListSpec
  import opened Scan
  import opened Reading
  import opened Recovery
  import opened Verify

  // ---- a first write that was cut short ----

  lemma BootOverNothing(items: seq<Item>, k: nat, c: Cache)
    requires 0 < k && Scanned(items, k, c) && GoodRecords(items) == {}
    ensures c.next == Some(1) && !c.needsGc && Highest(c.last).None? && Healthy(items) && Coherent(c, items)
  {
    hide GoodRecords, IsTopK;
    NothingToCache(c.last);
    ScannedIsCoherent(items, k, c);
  }

  lemma BootOverOne(items: seq<Item>, s: SeqNo, k: nat, c: Cache)
    requires 0 < k && Scanned(items, k, c) && s < MAX_SEQ
    requires items != [] && GoodRecords(items) == {Rec(s, 0, |items| - 1)}
    ensures c.next == Some(s + 1) && c.needsGc && Healthy(items)
    ensures Swept(items, c.last, |items|) == items
  {
    hide Good, GoodRecords, Sorted, Distinct, Swept;
    NextIsAboveAll(GoodRecords(items), c.last, Rec(s, 0, |items| - 1));
    forall q | 0 <= q < |items| ensures InRange(c.last, q) {
      assert Covers(c.last[k - 1], q);
    }
    CollectTiledIsNop(items, c.last, |items|);
  }

  /** What is left of the very first write, cut after `n` pushes. */
  ghost function CutFirstWrite(nodes: seq<Node>, n: nat): seq<Item>
    requires AllWellFormed(nodes) && n <= |RecordFor(nodes, 1)|
  {
    RecordFor(nodes, 1)[..n]
  }

  lemma CutFirstWriteRecords(nodes: seq<Node>, n: nat)
    requires AllWellFormed(nodes) && n <= |RecordFor(nodes, 1)|
    ensures var items := CutFirstWrite(nodes, n);
      if n < |RecordFor(nodes, 1)| then GoodRecords(items) == {}
      else items == RecordFor(nodes, 1) && IsRecord(items) && GoodRecords(items) == {Rec(1, 0, |items| - 1)}
  {
    hide Crc, Bytes, Written;
    var w := RecordFor(nodes, 1);
    RecordForIsRecord(nodes, 1);
    assert GoodRecords([]) == {};
    assert [] + w[..n] == w[..n];
    if n < |w| {
      InterruptedWrite([], w, n);
    } else {
      assert w[..n] == w && [] + w == w;
      CompletedWrite([], w);
    }
  }

  lemma CutFirstWriteStarts(nodes: seq<Node>, n: nat)
    requires AllWellFormed(nodes) && n <= |RecordFor(nodes, 1)|
    ensures NoStart(CutFirstWrite(nodes, n), 1) <==> n == 0
    ensures NoStart(CutFirstWrite(nodes, n), 2)
  {
    hide Crc, Bytes, Written, IsRecord;
    WrittenIsData(nodes);
    var items := CutFirstWrite(nodes, n);
    assert 0 < n ==> items[0] == Start(1);
  }

  /** A boot over what is left of an interrupted very first write, and the write after it. If the cut
      fell between the first push and the last, nothing is collected and the next write carries the
      number of the start that was left: the record it pushes is valid, yet the check does not accept
      it. The check accepts if and only if nothing or everything had been pushed. */
  lemma AbortedFirstWrite(before: seq<Node>, n: nat, k: nat, c: Cache, nodes: seq<Node>, rpt: WriteReport)
    requires AllWellFormed(before) && n <= |RecordFor(before, 1)|
    requires 0 < k && Scanned(CutFirstWrite(before, n), k, c)
    requires AllWellFormed(nodes) && Reports(rpt, nodes, rpt.seqNo) && c.next == Some(rpt.seqNo)
    ensures var items, w := CutFirstWrite(before, n), RecordFor(nodes, rpt.seqNo);
      && Healthy(items)
      && (c.needsGc <==> n == |RecordFor(before, 1)|)
      && (c.needsGc ==> Swept(items, c.last, |items|) == items)
      && (CheckAccepts(items + w, rpt) <==> n == 0 || n == |RecordFor(before, 1)|)
      && Rec(rpt.seqNo, |items|, |items + w| - 1) in GoodRecords(items + w)
  {
    hide Scanned, RecordFor, CheckAccepts, Reports, GoodRecords, NoStart, Healthy, IsRecord, CutFirstWrite, Swept;
    var items := CutFirstWrite(before, n);
    CutFirstWriteRecords(before, n);
    CutFirstWriteStarts(before, n);
    RecordForIsRecord(before, 1);
    RecordForIsRecord(nodes, rpt.seqNo);
    PushedIsGood(items, RecordFor(nodes, rpt.seqNo));
    if n < |RecordFor(before, 1)| {
      BootOverNothing(items, k, c);
    } else {
      BootOverOne(items, 1, k, c);
    }
    VerifiesIffNoStart(items, nodes, rpt);
  }

  // ---- writing again after a failed write ----

  lemma CutKeepsRecords(items: seq<Item>, w: seq<Item>, n: nat, s: SeqNo)
    requires IsRecord(w) && n < |w| && NoRecord(items, s)
    ensures NoRecord(items + w[..n], s)
  {
    hide Good, IsRecord;
    InterruptedWrite(items, w, n);
  }

  lemma CutHasStart(items: seq<Item>, w: seq<Item>, n: nat, s: SeqNo)
    requires 1 <= n <= |w| && w[0] == Start(s)
    ensures !NoStart(items + w[..n], s)
  {
    assert (items + w[..n])[|items|] == Start(s);
  }

  /** The report of one record fits another if and only if both are equally long and end alike. */
  lemma SameEnds(w: seq<Item>, w': seq<Item>, rpt: WriteReport)
    requires IsRecord(w) && IsRecord(w') && w[0] == Start(rpt.seqNo) && w'[0] == Start(rpt.seqNo)
    requires Matches(w', rpt, 0, |w'| - 1)
    ensures Matches(w, rpt, 0, |w| - 1) <==> |w| == |w'| && w[|w| - 1] == w'[|w'| - 1]
  {
    hide Crc, Bytes;
  }

  /** A write that failed after `n` pushes, and a second one under the same number in the same session,
      over any queue in which no valid record carries that number. The check of the second one accepts
      if and only if no start of that number was there before, and the first one has pushed nothing, or
      everything and the same as far as length and checksum tell; then what it has found is the first
      one. */
  lemma RetryVerifiesIff(items: seq<Item>, w: seq<Item>, n: nat, w': seq<Item>, rpt: WriteReport)
    requires IsRecord(w) && IsRecord(w') && w[0] == Start(rpt.seqNo) && w'[0] == Start(rpt.seqNo)
    requires Matches(w', rpt, 0, |w'| - 1) && n <= |w| && NoRecord(items, rpt.seqNo)
    ensures CheckAccepts(items + w[..n] + w', rpt)
         <==> NoStart(items, rpt.seqNo) && (n == 0 || (n == |w| && |w| == |w'| && w[|w| - 1] == w'[|w'| - 1]))
  {
    hide IsRecord, Matches, CheckAccepts, NoStart, NoRecord;
    var first := items + w[..n];
    AcceptsAfterPush(first, w', rpt);
    if n == 0 {
      assert first == items;
      AcceptedIsRecord(items, rpt);
    } else {
      CutHasStart(items, w, n, rpt.seqNo);
      if n < |w| {
        CutKeepsRecords(items, w, n, rpt.seqNo);
        AcceptedIsRecord(first, rpt);
      } else {
        assert w[..n] == w;
        AcceptsAfterPush(items, w, rpt);
        AcceptedIsRecord(items, rpt);
        SameEnds(w, w', rpt);
      }
    }
  }

  /** Two complete writes under the same number, whatever came before, leave two valid records with that
      number: the storage is not healthy at the next boot. */
  lemma RetriesBreakHealth(items: seq<Item>, w: seq<Item>, w': seq<Item>)
    requires IsRecord(w) && IsRecord(w') && w[0] == w'[0]
    ensures !DistinctSeqs(GoodRecords(items + w + w')) && !Healthy(items + w + w')
  {
    hide Crc, Bytes;
    var a, b := Appended(items, w), Appended(items + w, w');
    AppendedIsGood(items, w);
    AppendedIsGood(items + w, w');
    PushKeeps(items + w, w', a);
    assert a in GoodRecords(items + w + w') && b in GoodRecords(items + w + w') && a.seqNo == b.seqNo && a != b;
  }

  /** Two writes under one number that no valid record carries, each cut anywhere, over a healthy queue:
      the storage stays healthy if and only if not both have pushed everything. */
  lemma RetriesKeepHealthIff(items: seq<Item>, w: seq<Item>, n: nat, w': seq<Item>, m: nat, s: SeqNo)
    requires IsRecord(w) && IsRecord(w') && w[0] == Start(s) && w'[0] == Start(s)
    requires n <= |w| && m <= |w'| && Healthy(items) && NoRecord(items, s) && s < MAX_SEQ
    ensures Healthy(items + w[..n] + w'[..m]) <==> n < |w| || m < |w'|
  {
    hide IsRecord, Healthy, NoRecord;
    AttemptKeepsHealth(items, w, n, s);
    if m < |w'| {
      InterruptedWrite(items + w[..n], w', m);
      SameRecordsSameHealth(items + w[..n], items + w[..n] + w'[..m]);
    } else {
      assert w'[..m] == w';
      if n < |w| {
        CutKeepsRecords(items, w, n, s);
        AttemptKeepsHealth(items + w[..n], w', m, s);
      } else {
        assert w[..n] == w;
        RetriesBreakHealth(items, w, w');
      }
    }
  }

  lemma SameRecordsSameHealth(items: seq<Item>, items': seq<Item>)
    requires GoodRecords(items) == GoodRecords(items')
    ensures Healthy(items) <==> Healthy(items')
  {
    hide GoodRecords;
  }

  /** One write under a number that no valid record carries keeps the storage healthy. */
  lemma AttemptKeepsHealth(items: seq<Item>, w: seq<Item>, n: nat, s: SeqNo)
    requires IsRecord(w) && w[0] == Start(s) && n <= |w| && Healthy(items) && NoRecord(items, s) && s < MAX_SEQ
    ensures Healthy(items + w[..n])
  {
    hide IsRecord, GoodRecords;
    if n < |w| {
      InterruptedWrite(items, w, n);
    } else {
      assert w[..n] == w;
      CompletedWrite(items, w);
    }
  }

  /** What an attempt to write under the number `s` pushes: nothing, a cut record, or a whole one. */
  ghost predicate IsAttempt(a: seq<Item>, s: SeqNo) {
    a == [] || (a[0] == Start(s) && (IsRecord(a) || forall k :: 0 <= k < |a| ==> !a[k].End?))
  }

  function AfterAttempts(items: seq<Item>, attempts: seq<seq<Item>>): seq<Item> {
    if attempts == [] then items else AfterAttempts(items, attempts[..|attempts| - 1]) + attempts[|attempts| - 1]
  }

  /** Once a start of the number is there, what another attempt pushes has no say in the check. */
  lemma AttemptKeepsVerdict(items: seq<Item>, a: seq<Item>, rpt: WriteReport)
    requires !NoStart(items, rpt.seqNo) && IsAttempt(a, rpt.seqNo)
    ensures !NoStart(items + a, rpt.seqNo)
    ensures CheckAccepts(items + a, rpt) <==> CheckAccepts(items, rpt)
  {
    hide Matches, IsRecord, FirstStart;
    StartStays(items, a, rpt.seqNo);
    if a == [] {
      assert items + a == items;
    } else if IsRecord(a) {
      AcceptsAfterPush(items, a, rpt);
    } else {
      forall f: nat, e: nat ensures Matches(items + a, rpt, f, e) <==> Matches(items, rpt, f, e) && e < |items| {
        CutKeepsMatch(items, a, rpt, f, e);
      }
      forall f: nat, e: nat | Matches(items, rpt, f, e) ensures e < |items| {
        MatchesIsGood(items, rpt, f, e);
      }
      forall f: nat ensures FirstStart(items + a, rpt.seqNo, f) <==> FirstStart(items, rpt.seqNo, f) {
        FirstStartStays(items, a, rpt.seqNo, f);
      }
    }
  }

  lemma StartStays(items: seq<Item>, more: seq<Item>, s: SeqNo)
    requires !NoStart(items, s)
    ensures !NoStart(items + more, s)
  {
    var k :| 0 <= k < |items| && items[k] == Start(s);
    assert (items + more)[k] == Start(s);
  }

  lemma FirstStartStays(items: seq<Item>, more: seq<Item>, s: SeqNo, f: nat)
    requires !NoStart(items, s)
    ensures FirstStart(items + more, s, f) <==> FirstStart(items, s, f)
  {
    var k :| 0 <= k < |items| && items[k] == Start(s);
    assert forall q :: 0 <= q < |items| ==> (items + more)[q] == items[q];
    assert (items + more)[k] == Start(s);
  }

  lemma CutKeepsMatch(items: seq<Item>, more: seq<Item>, rpt: WriteReport, f: nat, e: nat)
    requires forall k :: 0 <= k < |more| ==> !more[k].End?
    ensures Matches(items + more, rpt, f, e) <==> Matches(items, rpt, f, e) && e < |items|
  {
    hide Crc, Bytes;
    var all := items + more;
    if e < |items| {
      PushKeepsMatch(items, more, rpt, f, e);
    } else if e < |all| {
      assert all[e] == more[e - |items|];
    }
  }

  /** Behind a stale start, with no valid record of the number, no attempt is ever verified, however many
      are made and however many of them are complete: the check answers as it did before the first. */
  lemma {:induction false} NoAttemptIsEverVerified(items: seq<Item>, attempts: seq<seq<Item>>, rpt: WriteReport)
    requires NoRecord(items, rpt.seqNo) && !NoStart(items, rpt.seqNo)
    requires forall k :: 0 <= k < |attempts| ==> IsAttempt(attempts[k], rpt.seqNo)
    ensures !CheckAccepts(AfterAttempts(items, attempts), rpt) && !NoStart(AfterAttempts(items, attempts), rpt.seqNo)
    ensures forall k :: 0 <= k < |attempts| && IsRecord(attempts[k]) ==>
              exists r :: r in GoodRecords(AfterAttempts(items, attempts)) && r.seqNo == rpt.seqNo
  {
    hide NoRecord, NoStart, CheckAccepts, IsAttempt, IsRecord, GoodRecords;
    if attempts == [] {
      AcceptedIsRecord(items, rpt);
    } else {
      var front, last := attempts[..|attempts| - 1], attempts[|attempts| - 1];
      NoAttemptIsEverVerified(items, front, rpt);
      AttemptKeepsVerdict(AfterAttempts(items, front), last, rpt);
      forall k | 0 <= k < |attempts| && IsRecord(attempts[k])
        ensures exists r :: r in GoodRecords(AfterAttempts(items, attempts)) && r.seqNo == rpt.seqNo
      {
        if k < |front| {
          assert IsRecord(front[k]);
          var r :| r in GoodRecords(AfterAttempts(items, front)) && r.seqNo == rpt.seqNo;
          PushKeeps(AfterAttempts(items, front), last, r);
          assert r in GoodRecords(AfterAttempts(items, attempts));
        } else {
          AttemptIsNumbered(last, rpt.seqNo);
          PushedIsGood(AfterAttempts(items, front), last);
        }
      }
    }
  }

  lemma AttemptIsNumbered(a: seq<Item>, s: SeqNo)
    requires IsAttempt(a, s) && IsRecord(a)
    ensures a[0] == Start(s)
  {
    hide Crc, Bytes;
  }

  // ---- a scan that stopped ----

  /** A scan that stopped with an error after its first valid record counts as completed. Its cache is
      coherent exactly when every valid record it has not come to ranks below all it has kept. */
  lemma StoppedScanIsCoherentIff(items: seq<Item>, p: nat, c: Cache, current: Option<(SeqNo, nat)>, crc: u32)
    requires ScanState(items, p, c, current, crc) && c.next.Some?
    ensures Coherent(c, items) <==> forall r :: r in GoodRecords(items) && p <= r.end ==> AllAtLeast(c.last, r.seqNo)
  {
    hide Good, Sorted, Distinct;
    var seen := items[..p];
    assert items == seen + items[p..];
    forall r ensures r in GoodRecords(seen) <==> r in GoodRecords(items) && r.end < p {
      PushKeeps(seen, items[p..], r);
    }
    forall k | 0 <= k < |c.last| && c.last[k].Some? ensures c.last[k].value.end < p {
      assert c.last[k].value in GoodRecords(seen);
    }
    assert Trimmed(c.last, |items|) == c.last;
    forall r | r in GoodRecords(items) && p <= r.end ensures Some(r) !in c.last {
    }
  }

  lemma SeenRecords(items: seq<Item>, p: nat, c: Cache, k: nat)
    requires p <= |items| && IsTopK(GoodRecords(items[..p]), c.last) && k < |c.last| && c.last[k].Some?
    ensures IsGood(items, c.last[k].value) && c.last[k].value.end < p
  {
    hide Good, Sorted, Distinct;
    assert c.last[k].value in GoodRecords(items[..p]);
    assert items == items[..p] + items[p..];
    PushKeeps(items[..p], items[p..], c.last[k].value);
  }

  /** A collection from the cache of such a scan keeps a valid record if and only if it is cached; so it
      removes every record the scan has not come to, however high its number. */
  lemma StoppedScanKeepsIff(items: seq<Item>, p: nat, c: Cache, current: Option<(SeqNo, nat)>, crc: u32, r: Rec)
    requires ScanState(items, p, c, current, crc) && DistinctSeqs(GoodRecords(items)) && r in GoodRecords(items)
    ensures Some(r) in c.last <==> exists r' :: r' in GoodRecords(Swept(items, c.last, |items|)) && r'.seqNo == r.seqNo
    ensures p <= r.end ==> Some(r) !in c.last
  {
    hide Good, IsTopK, Swept, GoodRecords;
    forall k | 0 <= k < |c.last| && c.last[k].Some?
      ensures IsGood(items, c.last[k].value) && c.last[k].value.end < p
    {
      SeenRecords(items, p, c, k);
    }
    assert Trimmed(c.last, |items|) == c.last;
    CollectionKeepsIff(items, c.last, r);
  }

  /** No valid record of `before` that ends at `p` or behind keeps its number. */
  ghost predicate LostBehind(before: seq<Item>, p: nat, after: seq<Item>) {
    forall r :: r in GoodRecords(before) && p <= r.end ==> NoRecord(after, r.seqNo)
  }

  /** So a collection from the cache of a scan that got as far as `p` loses all that is behind it. */
  lemma StoppedScanLosesBehind(items: seq<Item>, p: nat, c: Cache)
    requires ScannedUpTo(items, p, c) && DistinctSeqs(GoodRecords(items))
    ensures LostBehind(items, p, Swept(items, c.last, |items|))
  {
    hide GoodRecords, ScanState, Swept;
    var current, crc :| ScanState(items, p, c, current, crc);
    forall r | r in GoodRecords(items) && p <= r.end ensures NoRecord(Swept(items, c.last, |items|), r.seqNo) {
      StoppedScanKeepsIff(items, p, c, current, crc, r);
    }
  }

  /** For instance, a scan that stopped between two records hides the newer one. */
  lemma StoppedScanHidesNewer()
    ensures var empty := Crc([]);
      var items := [Start(1), End(1, empty), Start(2), End(2, empty)];
      var c := Cache(Some(2), [Some(Rec(1, 0, 1))], true);
      && PartlyScanned(items, c) && Healthy(items) && !Coherent(c, items)
      && Rec(2, 2, 3) in GoodRecords(items) && c.next == Some(Rec(2, 2, 3).seqNo)
  {
    hide Good, IsTopK;
    var empty := Crc([]);
    var items := [Start(1), End(1, empty), Start(2), End(2, empty)];
    var c := Cache(Some(2), [Some(Rec(1, 0, 1))], true);
    TwoRecords(items, empty);
    StoppedAfterFirst(items, empty, c);
    StoppedScanIsCoherentIff(items, 2, c, None, 0);
    assert !AllAtLeast(c.last, 2);
  }

  lemma StoppedAfterFirst(items: seq<Item>, empty: u32, c: Cache)
    requires items == [Start(1), End(1, empty), Start(2), End(2, empty)] && empty == Crc([])
    requires c == Cache(Some(2), [Some(Rec(1, 0, 1))], true)
    ensures ScanState(items, 2, c, None, 0)
  {
    hide Crc, IsGood, Good;
    var seen := items[..2];
    assert items == seen + items[2..];
    TwoRecords(items, empty);
    forall r ensures r in GoodRecords(seen) <==> r == Rec(1, 0, 1) {
      PushKeeps(seen, items[2..], r);
    }
    forall i: nat ensures !OpenAt(items, i, 2) {
      assert items[1].End?;
    }
  }

  /** A collection from the cache of such a scan removes the newer record for good. */
  lemma StoppedScanLosesNewer()
    ensures var empty := Crc([]);
      var items := [Start(1), End(1, empty), Start(2), End(2, empty)];
      var c := Cache(Some(2), [Some(Rec(1, 0, 1))], true);
      && PartlyScanned(items, c) && Rec(2, 2, 3) in GoodRecords(items)
      && Swept(items, c.last, 4) == [Start(1), End(1, empty)]
  {
    hide Crc, Good, IsTopK, Healthy, Coherent, PartlyScanned;
    StoppedScanHidesNewer();
    var empty := Crc([]);
    var items := [Start(1), End(1, empty), Start(2), End(2, empty)];
    var slots := [Some(Rec(1, 0, 1))];
    assert Covers(slots[0], 0) && Covers(slots[0], 1) && !Covers(slots[0], 2) && !Covers(slots[0], 3);
    assert Survivors(items, slots, 2) == [Start(1), End(1, empty)] by {
      assert Survivors(items, slots, 1) == [Start(1)];
    }
    assert Survivors(items, slots, 4) == Survivors(items, slots, 2) by {
      assert Survivors(items, slots, 3) == Survivors(items, slots, 2);
    }
  }

  lemma TwoRecords(items: seq<Item>, empty: u32)
    requires items == [Start(1), End(1, empty), Start(2), End(2, empty)] && empty == Crc([])
    ensures GoodRecords(items) == {Rec(1, 0, 1), Rec(2, 2, 3)}
  {
    hide Crc;
    assert items[1..1] == [] && items[3..3] == [];
    forall r ensures IsGood(items, r) <==> r in {Rec(1, 0, 1), Rec(2, 2, 3)} {
    }
  }

  // ---- reading on after a failed write ----

  lemma StaleRangesEnd(c: Cache, items: seq<Item>, n: nat)
    requires Coherent(c, items) && c.next.Some? && !c.needsGc && |items| <= n
    ensures Trimmed(c.last, n) == c.last
  {
    hide Crc, Bytes, Sorted, Distinct;
    if Highest(c.last).Some? {
      assert c.last[|c.last| - 1].value in GoodRecords(items);
    }
  }

  lemma NewestIsMissing(c: Cache, items: seq<Item>, recs: set<Rec>, r: Rec)
    requires Coherent(c, items) && c.next == Some(r.seqNo) && !c.needsGc && r in recs
    ensures !IsTopK(recs, c.last)
  {
    hide Good, GoodRecords;
    assert Rank(c.last[0]) < r.seqNo && Some(r) !in c.last by {
      forall k | 0 <= k < |c.last| ensures Rank(c.last[k]) < r.seqNo {
        if c.last[k].Some? {
          assert c.last[k].value in GoodRecords(items);
          NextIsFresh(c, items, c.last[k].value);
        }
      }
    }
  }

  /** After a write that failed after `n` pushes, the cache is still coherent if and only if its end was
      not among them. */
  lemma FailedWriteIsCoherentIff(v: ListV, v': ListV, n: nat)
    requires ListInv(v) && Coherent(v.cache, v.items) && WriteFails(v, v', n)
    ensures Coherent(v'.cache, v'.items) <==> n < |RecordFor(v.nodes, v.cache.next.value)|
    ensures IsTopK(GoodRecords(v'.items), v'.cache.last) <==> n < |RecordFor(v.nodes, v.cache.next.value)|
  {
    hide Good, IsRecord, IsTopK, Healthy, Durable, UniqueKeys, NeedsWriting, NoneInitial, GoodRecords;
    var w := RecordFor(v.nodes, v.cache.next.value);
    RecordForIsRecord(v.nodes, v.cache.next.value);
    StaleRangesEnd(v.cache, v.items, |v'.items|);
    if n < |w| {
      InterruptedWrite(v.items, w, n);
    } else {
      assert w[..n] == w;
      PushedIsGood(v.items, w);
      NewestIsMissing(v.cache, v.items, GoodRecords(v'.items), Rec(w[0].seqNo, |v.items|, |v.items + w| - 1));
    }
  }

  /** What extraction from the cache reads after such a write is what was the latest record before. */
  lemma StaleExtraction(v: ListV, more: seq<Item>, e: nat)
    requires ListInv(v) && Coherent(v.cache, v.items) && v.cache.next.Some?
    ensures Highest(v.cache.last).None? <==> LatestPayload(v.items).None?
    ensures Highest(v.cache.last).Some? && Extractable(v.items + more, Highest(v.cache.last).value, e) ==>
              (v.items + more)[Highest(v.cache.last).value.start + 1..e] == LatestPayload(v.items).value
  {
    hide Coherent, Healthy, LatestPayload, Durable, AllWellFormed, UniqueKeys;
    CachedLatest(v.cache, v.items, v.cache);
    if Highest(v.cache.last).Some? && Extractable(v.items + more, Highest(v.cache.last).value, e) {
      var r, payload, all := Highest(v.cache.last).value, LatestPayload(v.items).value, v.items + more;
      var stop := r.start + 1 + |payload|;
      assert all[stop] == v.items[stop];
      assert forall k :: r.start < k < stop ==> all[k] == v.items[k];
      assert all[e].End? && e == stop;
      assert all[r.start + 1..stop] == v.items[r.start + 1..stop];
    }
  }

  lemma CleanMeansStored(b: Node, items: seq<Item>)
    requires WellFormed(b) && b.state.ValidNoWriteNeeded?
    ensures Clean(b, LatestPayload(items)) <==> StoredIn(items, b.key, b.codec, b.data.value)
  {
    hide LatestPayload, EntryFor, Lawful;
  }

  /** A node attached after a write that failed after `n` pushes, with no reset in between, and filled
      from the cache: it is rightly marked clean if and only if the write's end was not pushed, or the
      write has stored the same value for its key. */
  lemma LateNodeIsCleanIff(v: ListV, v': ListV, n: nat, late: Node)
    requires ListInv(v) && Coherent(v.cache, v.items) && WriteFails(v, v', n) && v.cache.next.value < MAX_SEQ
    requires WellFormed(late) && late.state.Initial?
    requires ReadNode(late, LatestPayload(v.items)).state.ValidNoWriteNeeded?
    ensures var filled := ReadNode(late, LatestPayload(v.items));
      && filled.data.Some?
      && (Clean(filled, LatestPayload(v'.items)) <==>
            || n < |RecordFor(v.nodes, v.cache.next.value)|
            || Offers(v.nodes, late.key, late.codec, filled.data.value))
  {
    hide Coherent, ReadNode, Clean, Healthy, WellFormed, UniqueKeys, LatestPayload, Durable, NeedsWriting, NoneInitial,
         StoredIn, Offers, RecordFor;
    var filled := ReadNode(late, LatestPayload(v.items));
    InitialIsClean(late, LatestPayload(v.items));
    ReadNodeIsClean(late, LatestPayload(v.items));
    KeepsKind(late, LatestPayload(v.items));
    CleanMeansStored(filled, v.items);
    CleanMeansStored(filled, v'.items);
    WriteFailsStoreIff(v, v', n, filled.key, filled.codec, filled.data.value);
  }

  lemma InitialIsClean(n: Node, latest: Option<seq<Item>>)
    requires n.state.Initial?
    ensures Clean(n, latest)
  {
  }

  lemma KeepsKind(n: Node, latest: Option<seq<Item>>)
    requires WellFormed(n)
    ensures var n' := ReadNode(n, latest); SameKind(n, n') && (n'.state.ValidNoWriteNeeded? ==> n'.data.Some?)
  {
    hide EntryFor, Lawful;
  }

  /** What a list holds whose single record was written by `[b]`. */
  ghost function OnlyRecord(b: Node): ListV
    requires WellFormed(b) && b.state.ValidNoWriteNeeded?
  {
    var w := RecordFor([b], 1);
    ListV([], Cache(Some(2), [Some(Rec(1, 0, |w| - 1))], false), w)
  }

  lemma OnlyRecordIsCoherent(b: Node)
    requires WellFormed(b) && b.state.ValidNoWriteNeeded?
    ensures var v := OnlyRecord(b);
      && ListInv(v) && Coherent(v.cache, v.items)
      && LatestPayload(v.items) == Some([ElementOf(b)])
      && Extractable(v.items, Highest(v.cache.last).value, 2) && v.items[1..2] == [ElementOf(b)]
  {
    hide Crc, Bytes, Lawful;
    var v := OnlyRecord(b);
    var w := v.items;
    assert Written([b]) == [ElementOf(b)] by {
      assert [b][..0] == [];
      assert [] + [ElementOf(b)] == [ElementOf(b)];
    }
    RecordForIsRecord([b], 1);
    assert [] + w == w;
    CompletedWrite([], w);
    var r := Rec(1, 0, |w| - 1);
    assert GoodRecords([]) == {};
    assert GoodRecords(w) == {r};
    LatestPayloadIs(w, r);
    assert w[1..2] == [ElementOf(b)];
  }

  /** For instance, when the check of a write fails although its record is complete, a node attached
      afterwards is filled from the older record in the cache and is marked clean, while the latest
      record does not hold its value. */
  lemma FailedCheckNeedsReset(a: Node, b: Node)
    requires WellFormed(a) && a.state.NeedsWrite? && WellFormed(b) && b.state.ValidNoWriteNeeded? && a.key != b.key
    ensures var v := AddChanged(b, a);
      var v' := v.(items := v.items + RecordFor([a], 2));
      var late := b.(state := Initial, data := None);
      && ListInv(v) && Coherent(v.cache, v.items) && MayWrite(v)
      && WriteFails(v, v', |RecordFor([a], 2)|)
      && Extractable(v'.items, Highest(v'.cache.last).value, 2)
      && Hydrated(late, v'.items[1..2]) == b
      && !Clean(b, LatestPayload(v'.items))
  {
    hide Crc, Bytes, Lawful, IsTopK, GoodRecords, Healthy, Written, Hydrated, EntryFor, LatestPayload, Extractable,
         Coherent;
    OnlyRecordIsCoherent(b);
    var v := AddChanged(b, a);
    var w := RecordFor([a], 2);
    assert w[..|w|] == w;
    AppendedIsLatest(v.cache, v.items, v.nodes);
    var all := v.items + w;
    assert all[1..2] == [ElementOf(b)];
    StillExtractable(v.items, w, Highest(v.cache.last).value, 2);
    LateNodeIsFilled(b);
    NotWritten([a], b.key);
    assert v.nodes[0].state.NeedsWrite?;
    assert WriteFails(v, v.(items := all), |w|);
  }

  ghost function AddChanged(b: Node, a: Node): ListV
    requires WellFormed(b) && b.state.ValidNoWriteNeeded?
  {
    OnlyRecord(b).(nodes := [a])
  }

  lemma StillExtractable(items: seq<Item>, more: seq<Item>, r: Rec, e: nat)
    requires Extractable(items, r, e)
    ensures Extractable(items + more, r, e)
  {
  }

  lemma LateNodeIsFilled(b: Node)
    requires WellFormed(b) && b.state.ValidNoWriteNeeded?
    ensures Hydrated(b.(state := Initial, data := None), [ElementOf(b)]) == b
  {
    EntryOfElement(b, b.key);
    EntryForPush([], ElementOf(b), b.key);
    assert [] + [ElementOf(b)] == [ElementOf(b)];
    DecodesBack(b);
  }

  lemma DecodesBack(b: Node)
    requires WellFormed(b) && b.data.Some?
    ensures b.codec.decode(b.codec.encode(b.data.value)) == b.data
  {
  }
}
