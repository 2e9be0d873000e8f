// The read-back check of a write (verify_list_in_flash), and when it succeeds.
module Verify {
  import opened Wrappers
  import opened Elements
  import opened Log
  import opened SeqStates
  import opened NodeSpec
  import opened ListSpec
  import opened Scan

  /** What a write reports about the record it has pushed. */
  datatype WriteReport = WriteReport(seqNo: SeqNo, crc: u32, ct: nat, bytesWritten: nat)

  /** The report of a write of `nodes` under sequence number `s`. */
  ghost predicate Reports(rpt: WriteReport, nodes: seq<Node>, s: SeqNo)
    requires AllWellFormed(nodes)
  {
    rpt.seqNo == s && rpt.crc == Crc(Bytes(Written(nodes))) && rpt.ct == |Written(nodes)|
  }

  /** `f` is the first start with sequence number `s`. */
  ghost predicate FirstStart(items: seq<Item>, s: SeqNo, f: nat) {
    f < |items| && items[f] == Start(s) && forall k :: 0 <= k < f ==> items[k] != Start(s)
  }

  /** The stretch from `f` to `e` is a valid record that agrees with the report. */
  ghost predicate Matches(items: seq<Item>, rpt: WriteReport, f: nat, e: nat) {
    Good(items, f, e) && items[f] == Start(rpt.seqNo) && items[e].calcCrc == rpt.crc && e - f - 1 == rpt.ct
  }

  /** The check accepts: the record at the first start of the reported number agrees with the report. */
  ghost predicate CheckAccepts(items: seq<Item>, rpt: WriteReport) {
    exists f: nat, e: nat :: FirstStart(items, rpt.seqNo, f) && Matches(items, rpt, f, e)
  }

  /** A record that the check accepts is one the boot scan accepts: a fresh scan keeps it, unless every
      slot holds a number at least as high, and boots from it if no other valid record is as high. */
  lemma VerifiedIsKept(items: seq<Item>, rpt: WriteReport, f: nat, e: nat, k: nat, c: Cache)
    requires Matches(items, rpt, f, e) && 0 < k && Scanned(items, k, c)
    ensures var r := Rec(rpt.seqNo, f, e);
      && (Some(r) in c.last || AllAtLeast(c.last, rpt.seqNo))
      && (IsLatest(GoodRecords(items), r) ==> Highest(c.last) == Some(r))
  {
    hide Crc, Bytes;
    NextIsAboveAll(GoodRecords(items), c.last, Rec(rpt.seqNo, f, e));
  }

  /** Without an earlier start of the same sequence number, the check finds the record just pushed. */
  lemma CheckFindsRecord(items: seq<Item>, nodes: seq<Node>, rpt: WriteReport)
    requires AllWellFormed(nodes) && Reports(rpt, nodes, rpt.seqNo) && NoStart(items, rpt.seqNo)
    ensures var all := items + RecordFor(nodes, rpt.seqNo);
      FirstStart(all, rpt.seqNo, |items|) && Matches(all, rpt, |items|, |all| - 1)
  {
    hide Crc, Bytes, Written;
    var w := RecordFor(nodes, rpt.seqNo);
    RecordForIsRecord(nodes, rpt.seqNo);
    AppendedIsGood(items, w);
  }

  /** The stretch from `f` to `e` is what the report says, in number, count and checksum. */
  ghost predicate IsReported(items: seq<Item>, rpt: WriteReport, f: int, e: int) {
    && 0 <= f < e < |items| && e - f - 1 == rpt.ct
    && items[f] == Start(rpt.seqNo) && items[e] == End(rpt.seqNo, rpt.crc)
    && (forall k :: f < k < e ==> items[k].Data?)
    && Crc(Bytes(items[f + 1..e])) == rpt.crc
  }

  lemma MatchesIsReported(items: seq<Item>, rpt: WriteReport, f: nat, e: nat)
    ensures Matches(items, rpt, f, e) <==> IsReported(items, rpt, f, e)
  {
    hide Crc, Bytes;
  }

  lemma MatchesIsGood(items: seq<Item>, rpt: WriteReport, f: nat, e: nat)
    requires Matches(items, rpt, f, e)
    ensures IsGood(items, Rec(rpt.seqNo, f, e)) && f < e < |items| && items[f] == Start(rpt.seqNo)
  {
    hide Crc, Bytes;
  }

  /** A record that ends in front of what is pushed agrees with a report exactly if it did before. */
  lemma PushKeepsMatch(items: seq<Item>, more: seq<Item>, rpt: WriteReport, f: nat, e: nat)
    requires e < |items|
    ensures Matches(items + more, rpt, f, e) <==> Matches(items, rpt, f, e)
  {
    hide Crc, Bytes;
    PushKeeps(items, more, Rec(rpt.seqNo, f, e));
  }

  /** The record just pushed agrees with a report exactly if it does on its own. */
  lemma PushedMatches(items: seq<Item>, w: seq<Item>, rpt: WriteReport)
    requires IsRecord(w)
    ensures Matches(items + w, rpt, |items|, |items + w| - 1) <==> Matches(w, rpt, 0, |w| - 1)
  {
    hide Crc, Bytes;
    AppendedIsGood(items, w);
    assert (items + w)[|items|] == w[0] && (items + w)[|items + w| - 1] == w[|w| - 1];
  }

  /** The check after any record has been pushed on any queue: it looks at the record just pushed if no
      start of its number was there before, and at what it would have looked at before otherwise. */
  lemma AcceptsAfterPush(items: seq<Item>, w: seq<Item>, rpt: WriteReport)
    requires IsRecord(w) && w[0] == Start(rpt.seqNo)
    ensures CheckAccepts(items + w, rpt)
         <==> if NoStart(items, rpt.seqNo) then Matches(w, rpt, 0, |w| - 1) else CheckAccepts(items, rpt)
  {
    hide IsRecord, Matches;
    var all := items + w;
    PushedMatches(items, w, rpt);
    assert 0 < |w| by { RecordIsLong(w); }
    assert all[|items|] == w[0];
    assert forall k :: 0 <= k < |items| ==> all[k] == items[k];
    forall f: nat, e: nat | FirstStart(all, rpt.seqNo, f) && Matches(all, rpt, f, e)
      ensures if f < |items| then FirstStart(items, rpt.seqNo, f) && Matches(items, rpt, f, e)
              else NoStart(items, rpt.seqNo) && Matches(w, rpt, 0, |w| - 1)
    {
      MatchesIsGood(all, rpt, f, e);
      if e < |items| {
        PushKeepsMatch(items, w, rpt, f, e);
      } else {
        OnlyLastIsEnd(items, w, Rec(rpt.seqNo, f, e));
      }
    }
    if NoStart(items, rpt.seqNo) {
      assert FirstStart(all, rpt.seqNo, |items|);
    }
    forall f: nat, e: nat | FirstStart(items, rpt.seqNo, f) && Matches(items, rpt, f, e)
      ensures CheckAccepts(all, rpt)
    {
      MatchesIsGood(items, rpt, f, e);
      PushKeepsMatch(items, w, rpt, f, e);
      assert FirstStart(all, rpt.seqNo, f);
    }
  }

  lemma RecordIsLong(w: seq<Item>)
    requires IsRecord(w)
    ensures 2 <= |w|
  {
    hide Crc, Bytes;
  }

  /** No valid record of the queue carries the number `s`. */
  ghost predicate NoRecord(items: seq<Item>, s: SeqNo) {
    forall r :: r in GoodRecords(items) ==> r.seqNo != s
  }

  /** What the check accepts is a valid record of the number. */
  lemma AcceptedIsRecord(items: seq<Item>, rpt: WriteReport)
    ensures CheckAccepts(items, rpt) ==> !NoRecord(items, rpt.seqNo)
  {
    hide Matches;
    if CheckAccepts(items, rpt) {
      var f: nat, e: nat :| FirstStart(items, rpt.seqNo, f) && Matches(items, rpt, f, e);
      MatchesIsGood(items, rpt, f, e);
      assert Rec(rpt.seqNo, f, e) in GoodRecords(items);
    }
  }

  lemma RecordForMatches(nodes: seq<Node>, rpt: WriteReport)
    requires AllWellFormed(nodes) && Reports(rpt, nodes, rpt.seqNo)
    ensures Matches(RecordFor(nodes, rpt.seqNo), rpt, 0, |RecordFor(nodes, rpt.seqNo)| - 1)
  {
    hide Crc, Bytes, Written;
    RecordForIsRecord(nodes, rpt.seqNo);
  }

  /** Where no valid record carries the number of a write, its check accepts if and only if no start
      carried it before; any start will do, whatever else the queue holds. */
  lemma VerifiesIffNoStart(items: seq<Item>, nodes: seq<Node>, rpt: WriteReport)
    requires NoRecord(items, rpt.seqNo)
    requires AllWellFormed(nodes) && Reports(rpt, nodes, rpt.seqNo)
    ensures CheckAccepts(items + RecordFor(nodes, rpt.seqNo), rpt) <==> NoStart(items, rpt.seqNo)
  {
    hide RecordFor, IsRecord, Matches, Reports, NoStart, CheckAccepts, NoRecord;
    RecordForIsRecord(nodes, rpt.seqNo);
    RecordForMatches(nodes, rpt);
    AcceptsAfterPush(items, RecordFor(nodes, rpt.seqNo), rpt);
    AcceptedIsRecord(items, rpt);
  }

  /** With such a start the check fails, although the record just pushed is valid. */
  lemma CheckMissesRecord(items: seq<Item>, nodes: seq<Node>, rpt: WriteReport)
    requires NoRecord(items, rpt.seqNo) && !NoStart(items, rpt.seqNo)
    requires AllWellFormed(nodes) && Reports(rpt, nodes, rpt.seqNo)
    ensures var all := items + RecordFor(nodes, rpt.seqNo);
      !CheckAccepts(all, rpt) && Rec(rpt.seqNo, |items|, |all| - 1) in GoodRecords(all)
  {
    hide Reports, NoStart, CheckAccepts, NoRecord, RecordFor, IsRecord, GoodRecords;
    VerifiesIffNoStart(items, nodes, rpt);
    RecordForIsRecord(nodes, rpt.seqNo);
    PushedIsGood(items, RecordFor(nodes, rpt.seqNo));
  }

  lemma PushedIsGood(items: seq<Item>, w: seq<Item>)
    requires IsRecord(w)
    ensures w[0].Start? && Rec(w[0].seqNo, |items|, |items + w| - 1) in GoodRecords(items + w)
  {
    hide Crc, Bytes;
    AppendedIsGood(items, w);
  }

  lemma EndsBefore(items: seq<Item>, more: seq<Item>, r: Rec)
    requires IsGood(items + more, r) && r.end < |items|
    ensures r in GoodRecords(items)
  {
    hide Good;
    PushKeeps(items, more, r);
  }

  /** The next number of a coherent cache is carried by no valid record. */
  lemma NextHasNoRecord(c: Cache, items: seq<Item>)
    requires Coherent(c, items) && c.next.Some? && !c.needsGc
    ensures NoRecord(items, c.next.value)
  {
    hide GoodRecords, Coherent;
    forall r | r in GoodRecords(items) ensures r.seqNo != c.next.value {
      NextIsFresh(c, items, r);
    }
  }

  /** The report of a write of `nodes` under the number `s`, sizes aside. */
  ghost function ReportOf(nodes: seq<Node>, s: SeqNo): WriteReport
    requires AllWellFormed(nodes)
  {
    WriteReport(s, Crc(Bytes(Written(nodes))), |Written(nodes)|, 0)
  }

  /** The first start of the number `s` begins a record that a write of `nodes` would have pushed, as far
      as the checksum tells. */
  ghost predicate WrittenAlready(items: seq<Item>, nodes: seq<Node>, s: SeqNo)
    requires AllWellFormed(nodes)
  {
    CheckAccepts(items, ReportOf(nodes, s))
  }

  /** Where the check of a write of `nodes` under the number `s` will accept. */
  ghost predicate CanVerify(items: seq<Item>, nodes: seq<Node>, s: SeqNo)
    requires AllWellFormed(nodes)
  {
    NoStart(items, s) || WrittenAlready(items, nodes, s)
  }

  lemma SameReport(items: seq<Item>, rpt: WriteReport, rpt': WriteReport)
    requires rpt'.seqNo == rpt.seqNo && rpt'.crc == rpt.crc && rpt'.ct == rpt.ct
    ensures CheckAccepts(items, rpt) <==> CheckAccepts(items, rpt')
  {
    hide Good;
    assert forall f: nat, e: nat :: Matches(items, rpt, f, e) <==> Matches(items, rpt', f, e);
  }

  /** The check of a write, whatever the queue held before. */
  lemma VerifiesIff(items: seq<Item>, nodes: seq<Node>, rpt: WriteReport)
    requires AllWellFormed(nodes) && Reports(rpt, nodes, rpt.seqNo)
    ensures CheckAccepts(items + RecordFor(nodes, rpt.seqNo), rpt)
         <==> CanVerify(items, nodes, rpt.seqNo)
  {
    hide RecordFor, IsRecord, Matches, NoStart, CheckAccepts, Crc, Bytes, Written;
    RecordForIsRecord(nodes, rpt.seqNo);
    RecordForMatches(nodes, rpt);
    AcceptsAfterPush(items, RecordFor(nodes, rpt.seqNo), rpt);
    SameReport(items, rpt, ReportOf(nodes, rpt.seqNo));
    if NoStart(items, rpt.seqNo) { NoStartNotWritten(items, nodes, rpt.seqNo); }
  }

  lemma NoStartNotWritten(items: seq<Item>, nodes: seq<Node>, s: SeqNo)
    requires AllWellFormed(nodes) && NoStart(items, s)
    ensures !WrittenAlready(items, nodes, s)
  {
    hide Matches, ReportOf;
    assert ReportOf(nodes, s).seqNo == s by { ReportOfNumber(nodes, s); }
  }

  lemma ReportOfNumber(nodes: seq<Node>, s: SeqNo)
    requires AllWellFormed(nodes)
    ensures ReportOf(nodes, s).seqNo == s
  {
  }

  /** What a check that accepts has found, where no valid record carried the number before. */
  lemma CheckedIsAppended(items: seq<Item>, nodes: seq<Node>, rpt: WriteReport, f: nat, e: nat)
    requires NoRecord(items, rpt.seqNo) && AllWellFormed(nodes)
    requires FirstStart(items + RecordFor(nodes, rpt.seqNo), rpt.seqNo, f)
    requires Matches(items + RecordFor(nodes, rpt.seqNo), rpt, f, e)
    ensures NoStart(items, rpt.seqNo) && f == |items| && e == |items + RecordFor(nodes, rpt.seqNo)| - 1
  {
    hide Matches, IsRecord, RecordFor, GoodRecords;
    var w := RecordFor(nodes, rpt.seqNo);
    var all, r := items + w, Rec(rpt.seqNo, f, e);
    RecordForIsRecord(nodes, rpt.seqNo);
    MatchesIsGood(all, rpt, f, e);
    if e < |items| {
      EndsBefore(items, w, r);
    } else {
      OnlyLastIsEnd(items, w, r);
      assert forall k :: 0 <= k < |items| ==> all[k] == items[k];
    }
  }

  /** The record at the first start does not agree with the report. */
  ghost predicate NoMatch(items: seq<Item>, rpt: WriteReport) {
    exists f :: FirstStart(items, rpt.seqNo, f) && forall e :: !Matches(items, rpt, f, e)
  }

  lemma NoMatchIntro(items: seq<Item>, rpt: WriteReport, f: nat, p: nat)
    requires FirstStart(items, rpt.seqNo, f) && OpenAt(items, f, p) && p < |items| && !items[p].Data?
    requires !Matches(items, rpt, f, p)
    ensures NoMatch(items, rpt)
  {
    hide Crc, Bytes;
    forall e: nat ensures !Matches(items, rpt, f, e) {
    }
  }

  lemma NoMatchAtEnd(items: seq<Item>, rpt: WriteReport, f: nat)
    requires FirstStart(items, rpt.seqNo, f) && OpenAt(items, f, |items|)
    ensures NoMatch(items, rpt)
  {
    hide Crc, Bytes;
    forall e: nat ensures !Matches(items, rpt, f, e) {
    }
  }

  /** What the check knows after the entries up to `p`, having started at `f`. */
  ghost predicate VerifyState(items: seq<Item>, f: nat, p: nat, crc: u32, consumed: nat) {
    && OpenAt(items, f, p)
    && crc == Update(CRC_INIT, Bytes(items[f + 1..p]))
    && consumed == p - f - 1
  }

  lemma VerifyStarts(items: seq<Item>, s: SeqNo, f: nat)
    requires FirstStart(items, s, f)
    ensures f < |items| && VerifyState(items, f, f + 1, CRC_INIT, 0)
  {
    assert items[f + 1..f + 1] == [];
  }

  lemma VerifyGrows(items: seq<Item>, f: nat, p: nat, crc: u32, consumed: nat)
    requires VerifyState(items, f, p, crc, consumed) && p < |items| && items[p].Data?
    ensures VerifyState(items, f, p + 1, Update(crc, items[p].keyVal), consumed + 1)
  {
    hide CrcStep;
    BytesOfPush(items, f + 1, p);
    UpdateAppend(CRC_INIT, Bytes(items[f + 1..p]), items[p].keyVal);
  }

  /** The first entry that is no data decides. */
  lemma VerifyStops(items: seq<Item>, rpt: WriteReport, f: nat, p: nat, crc: u32, consumed: nat)
    requires VerifyState(items, f, p, crc, consumed) && p < |items| && !items[p].Data?
    requires FirstStart(items, rpt.seqNo, f)
    ensures Matches(items, rpt, f, p) <==>
              && items[p].End? && items[p].seqNo == rpt.seqNo
              && Finalize(crc) == rpt.crc && items[p].calcCrc == rpt.crc && consumed == rpt.ct
    ensures !Matches(items, rpt, f, p) ==> NoMatch(items, rpt)
  {
    hide Update, Bytes;
    if !Matches(items, rpt, f, p) { NoMatchIntro(items, rpt, f, p); }
  }

  lemma VerifyRunsOut(items: seq<Item>, rpt: WriteReport, f: nat, crc: u32, consumed: nat)
    requires VerifyState(items, f, |items|, crc, consumed) && FirstStart(items, rpt.seqNo, f)
    ensures NoMatch(items, rpt)
  {
    hide Update, Bytes;
    NoMatchAtEnd(items, rpt, f);
  }

  /** Either there is no start of the number, or the record at the first one does not agree. */
  lemma AcceptsOrNot(items: seq<Item>, rpt: WriteReport)
    ensures CheckAccepts(items, rpt) ==> !NoStart(items, rpt.seqNo) && !NoMatch(items, rpt)
    ensures !CheckAccepts(items, rpt) ==> NoStart(items, rpt.seqNo) || NoMatch(items, rpt)
  {
    hide Matches;
    if !NoStart(items, rpt.seqNo) {
      var k :| 0 <= k < |items| && items[k] == Start(rpt.seqNo);
      var f := FirstOf(items, rpt.seqNo, k);
      assert forall f': nat :: FirstStart(items, rpt.seqNo, f') ==> f' == f;
    }
  }

  lemma {:induction false} FirstOf(items: seq<Item>, s: SeqNo, k: nat) returns (f: nat)
    requires k < |items| && items[k] == Start(s)
    ensures FirstStart(items, s, f)
  {
    if i: nat :| i < k && items[i] == Start(s) {
      f := FirstOf(items, s, i);
    } else {
      f := k;
    }
  }

  lemma CheckFinds(items: seq<Item>, rpt: WriteReport, f: nat, e: nat)
    requires FirstStart(items, rpt.seqNo, f) && Matches(items, rpt, f, e)
    ensures CheckAccepts(items, rpt) && Rec(rpt.seqNo, f, e) in GoodRecords(items)
  {
    hide FirstStart, Matches;
    MatchesIsGood(items, rpt, f, e);
  }
}
