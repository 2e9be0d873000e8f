// What the log means: which stretches of the queue are valid write records, and how pushing,
// removing and corrupting entries changes that.
module Log {
  import opened Elements

  /** A write record found in the queue (GoodWriteRecord): its sequence number and the indices of
      its first and last entry. */
  datatype Rec = Rec(seqNo: SeqNo, start: nat, end: nat)

  /** The key/value bytes of a run of data elements, concatenated. */
  function Bytes(items: seq<Item>): seq<byte> {
    if items == [] then []
    else
      var last := items[|items| - 1];
      Bytes(items[..|items| - 1]) + (if last.Data? then last.keyVal else [])
  }

  /** A record started at `i` is still incomplete in front of `p`. */
  ghost predicate OpenAt(items: seq<Item>, i: nat, p: nat) {
    i < p <= |items| && items[i].Start? && forall k :: i < k < p ==> items[k].Data?
  }

  ghost predicate NothingOpen(items: seq<Item>, p: nat) {
    forall i: nat :: !OpenAt(items, i, p)
  }

  /** The stretch from index `i` to index `j` is a valid write record: a start, any number of data
      elements, and an end with the same sequence number and the checksum of the data. */
  ghost predicate Good(items: seq<Item>, i: nat, j: nat) {
    && j < |items|
    && OpenAt(items, i, j)
    && items[j] == End(items[i].seqNo, Crc(Bytes(items[i + 1..j])))
  }

  /** `r` names a valid write record of the queue. */
  ghost predicate IsGood(items: seq<Item>, r: Rec) {
    Good(items, r.start, r.end) && items[r.start].seqNo == r.seqNo
  }

  /** A complete write record, standing alone. */
  ghost predicate IsRecord(w: seq<Item>) {
    0 < |w| && Good(w, 0, |w| - 1)
  }

  /** All valid write records of the queue. */
  ghost function GoodRecords(items: seq<Item>): (recs: set<Rec>)
    ensures forall r :: r in recs <==> IsGood(items, r)
  {
    set i, j | 0 <= i < |items| && 0 <= j < |items| && Good(items, i, j) :: Rec(items[i].seqNo, i, j)
  }

  /** The entries of record `r`. */
  function Slice(items: seq<Item>, r: Rec): seq<Item>
    requires r.start <= r.end < |items|
  {
    items[r.start..r.end + 1]
  }

  function DataElements(bodies: seq<seq<byte>>): seq<Item> {
    seq(|bodies|, i requires 0 <= i < |bodies| => Data(bodies[i]))
  }

  function Flatten(bodies: seq<seq<byte>>): seq<byte> {
    if bodies == [] then [] else bodies[0] + Flatten(bodies[1..])
  }

  lemma {:induction false} FlattenPush(bodies: seq<seq<byte>>, body: seq<byte>)
    ensures Flatten(bodies + [body]) == Flatten(bodies) + body
  {
    if bodies != [] {
      assert (bodies + [body])[1..] == bodies[1..] + [body];
      FlattenPush(bodies[1..], body);
    } else {
      assert bodies + [body] == [body] && [body][1..] == [];
    }
  }

  lemma {:induction false} BytesOfData(bodies: seq<seq<byte>>)
    ensures Bytes(DataElements(bodies)) == Flatten(bodies)
  {
    if bodies != [] {
      var front, last := bodies[..|bodies| - 1], bodies[|bodies| - 1];
      assert bodies == front + [last];
      assert DataElements(bodies)[..|front|] == DataElements(front);
      BytesOfData(front);
      FlattenPush(front, last);
    }
  }

  /** The valid records are the stretches of the form: a start, data elements with any contents, and an end
      with the number of the start and the checksum of these contents, one after the other. */
  lemma GoodIffWritten(items: seq<Item>, r: Rec)
    ensures IsGood(items, r) <==>
              && r.start <= r.end < |items|
              && exists bodies ::
                   Slice(items, r) == [Start(r.seqNo)] + DataElements(bodies) + [End(r.seqNo, Crc(Flatten(bodies)))]
  {
    hide Crc;
    if IsGood(items, r) {
      var inner := items[r.start + 1..r.end];
      var bodies := seq(|inner|, i requires 0 <= i < |inner| => inner[i].keyVal);
      assert DataElements(bodies) == inner;
      BytesOfData(bodies);
      assert Slice(items, r) == [Start(r.seqNo)] + DataElements(bodies) + [End(r.seqNo, Crc(Flatten(bodies)))];
    }
    forall bodies | r.start <= r.end < |items|
                    && Slice(items, r) == [Start(r.seqNo)] + DataElements(bodies) + [End(r.seqNo, Crc(Flatten(bodies)))]
      ensures IsGood(items, r)
    {
      SliceIsGood(items, r, bodies);
    }
  }

  lemma SliceIsGood(items: seq<Item>, r: Rec, bodies: seq<seq<byte>>)
    requires r.start <= r.end < |items|
    requires Slice(items, r) == [Start(r.seqNo)] + DataElements(bodies) + [End(r.seqNo, Crc(Flatten(bodies)))]
    ensures IsGood(items, r)
  {
    hide Crc, Bytes;
    var w := Slice(items, r);
    assert forall k :: 0 <= k < |w| ==> w[k] == items[r.start + k];
    assert |w| == |bodies| + 2 && w[0] == Start(r.seqNo) && w[|w| - 1] == End(r.seqNo, Crc(Flatten(bodies)));
    assert items[r.start + 1..r.end] == DataElements(bodies) by {
      assert items[r.start + 1..r.end] == w[1..|w| - 1];
    }
    forall k | r.start < k < r.end ensures items[k].Data? {
      assert items[k] == items[r.start + 1..r.end][k - r.start - 1];
    }
    BytesOfData(bodies);
  }

  /** Whatever the queue contains, two distinct valid records share no entry. */
  lemma GoodRecordsNeverOverlap(items: seq<Item>, a: Rec, b: Rec)
    requires IsGood(items, a) && IsGood(items, b) && a != b
    ensures a.end < b.start || b.end < a.start
  {
    assert items[a.end].End? && items[b.end].End? && items[a.start].Start? && items[b.start].Start?;
  }

  /** Being a good record depends on the entries of the record alone. */
  lemma GoodIsSlice(items: seq<Item>, i: nat, j: nat)
    requires i < j < |items|
    ensures Good(items, i, j) <==> IsRecord(items[i..j + 1])
  {
    hide Crc, Bytes;
    var w := items[i..j + 1];
    assert forall k :: 0 <= k <= j - i ==> w[k] == items[i + k];
    var body := w[1..j - i];
    assert forall k :: 0 <= k < |body| ==> body[k] == items[i + 1 + k];
    assert body == items[i + 1..j];
    if OpenAt(w, 0, j - i) {
      forall k | i < k < j ensures items[k].Data? {
        assert w[k - i].Data?;
      }
    }
  }

  function Move(r: Rec, d: int): Rec
    requires 0 <= r.start + d && 0 <= r.end + d
  {
    Rec(r.seqNo, r.start + d, r.end + d)
  }

  lemma RecordTransfer(items: seq<Item>, r: Rec, items': seq<Item>, r': Rec)
    requires IsGood(items, r)
    requires r'.seqNo == r.seqNo && r'.start < r'.end < |items'|
    requires Slice(items', r') == Slice(items, r)
    ensures IsGood(items', r')
  {
    hide Crc, Bytes;
    GoodIsSlice(items, r.start, r.end);
    GoodIsSlice(items', r'.start, r'.end);
    assert Slice(items, r)[0] == items[r.start] && Slice(items', r')[0] == items'[r'.start];
  }

  // ---- pushing ----

  /** Records that end before the pushed entries are not affected by them. */
  lemma PushKeeps(items: seq<Item>, more: seq<Item>, r: Rec)
    ensures IsGood(items, r) <==> IsGood(items + more, r) && r.end < |items|
  {
    var all := items + more;
    if r.start < r.end < |items| {
      assert Slice(all, r) == Slice(items, r);
      if IsGood(items, r) {
        RecordTransfer(items, r, all, r);
      }
      if IsGood(all, r) {
        RecordTransfer(all, r, items, r);
      }
    }
  }

  /** Pushing entries none of which is an end neither adds nor loses a record. */
  lemma PushWithoutEnd(items: seq<Item>, more: seq<Item>)
    requires forall k :: 0 <= k < |more| ==> !more[k].End?
    ensures GoodRecords(items + more) == GoodRecords(items)
  {
    forall r ensures r in GoodRecords(items + more) <==> r in GoodRecords(items) {
      PushKeeps(items, more, r);
      assert IsGood(items + more, r) ==> (items + more)[r.end].End?;
    }
  }

  /** The record that a pushed end completes is the one that was open, provided that the sequence
      number and the checksum agree. */
  lemma EndClosesOpen(items: seq<Item>, e: Item, i: nat)
    requires e.End?
    ensures Good(items + [e], i, |items|)
       <==> OpenAt(items, i, |items|) && e == End(items[i].seqNo, Crc(Bytes(items[i + 1..])))
  {
    var all := items + [e];
    if i < |items| {
      assert all[i + 1..|items|] == items[i + 1..];
      assert forall k :: i <= k < |items| ==> all[k] == items[k];
    }
  }

  /** Cut anywhere before its last push, a record write leaves the valid records as they were,
      whatever precedes it in the queue. */
  lemma InterruptedWrite(items: seq<Item>, w: seq<Item>, n: nat)
    requires IsRecord(w) && n < |w|
    ensures GoodRecords(items + w[..n]) == GoodRecords(items)
  {
    PushWithoutEnd(items, w[..n]);
  }

  /** The record that a complete write of `w` adds to `items`. */
  function Appended(items: seq<Item>, w: seq<Item>): Rec
    requires w != [] && w[0].Start?
  {
    Rec(w[0].seqNo, |items|, |items| + |w| - 1)
  }

  /** Once its last entry is pushed, the record write has added its own record and nothing else. */
  lemma CompletedWrite(items: seq<Item>, w: seq<Item>)
    requires IsRecord(w)
    ensures GoodRecords(items + w) == GoodRecords(items) + {Appended(items, w)}
    ensures Slice(items + w, Appended(items, w)) == w
  {
    AppendedIsGood(items, w);
    forall r ensures r in GoodRecords(items + w) <==> r in GoodRecords(items) || r == Appended(items, w) {
      PushKeeps(items, w, r);
      if IsGood(items + w, r) && |items| <= r.end {
        OnlyLastIsEnd(items, w, r);
      }
    }
  }

  lemma AppendedIsGood(items: seq<Item>, w: seq<Item>)
    requires IsRecord(w)
    ensures IsGood(items + w, Appended(items, w))
    ensures Slice(items + w, Appended(items, w)) == w
  {
    var r := Rec(w[0].seqNo, 0, |w| - 1);
    assert Slice(w, r) == w == Slice(items + w, Appended(items, w));
    RecordTransfer(w, r, items + w, Appended(items, w));
  }

  lemma OnlyLastIsEnd(items: seq<Item>, w: seq<Item>, r: Rec)
    requires IsRecord(w)
    requires IsGood(items + w, r) && |items| <= r.end
    ensures r == Appended(items, w)
  {
    var all := items + w;
    assert all[r.end] == w[r.end - |items|];
    assert r.end == |items| + |w| - 1;
    assert all[|items|] == w[0];
    assert forall k :: |items| <= k < |all| ==> all[k] == w[k - |items|];
  }

  // ---- removing ----

  function Without(items: seq<Item>, p: nat): seq<Item>
    requires p < |items|
  {
    items[..p] + items[p + 1..]
  }

  function ShiftDown(r: Rec, p: nat): Rec {
    if p < r.start && p < r.end then Move(r, -1) else r
  }

  /** Nothing open in front of `p` means that no record spans from before `p` to `p` or beyond. */
  lemma NoneSpans(items: seq<Item>, p: nat, r: Rec)
    requires p <= |items| && NothingOpen(items, p)
    requires IsGood(items, r)
    ensures r.end < p || p <= r.start
  {
    if r.start < p <= r.end {
      assert OpenAt(items, r.start, p);
    }
  }

  lemma NothingOpenTransfer(items: seq<Item>, items': seq<Item>, p: nat)
    requires p <= |items| && p <= |items'| && items[..p] == items'[..p]
    requires NothingOpen(items, p)
    ensures NothingOpen(items', p)
  {
    forall i: nat ensures !OpenAt(items', i, p) {
      assert forall k :: 0 <= k < p ==> items[k] == items[..p][k] == items'[..p][k];
      assert !OpenAt(items, i, p);
    }
  }

  lemma SliceWithout(items: seq<Item>, p: nat, r: Rec)
    requires p < |items| && r.start < r.end < |items|
    requires r.end < p || p < r.start
    ensures ShiftDown(r, p).end < |Without(items, p)|
    ensures Slice(Without(items, p), ShiftDown(r, p)) == Slice(items, r)
  {
  }

  /** Removing an entry in front of which no record is open keeps every record that does not start
      there, entry for entry. */
  lemma RemoveKeeps(items: seq<Item>, p: nat, r: Rec)
    requires p < |items| && NothingOpen(items, p)
    requires IsGood(items, r) && r.start != p
    ensures IsGood(Without(items, p), ShiftDown(r, p))
    ensures Slice(Without(items, p), ShiftDown(r, p)) == Slice(items, r)
  {
    NoneSpans(items, p, r);
    SliceWithout(items, p, r);
    RecordTransfer(items, r, Without(items, p), ShiftDown(r, p));
  }

  function ShiftUp(r: Rec, p: nat): Rec {
    if p <= r.start then Move(r, 1) else r
  }

  /** ... and it never joins fragments into a new record: what is good afterwards was good before. */
  lemma RemoveJoinsNothing(items: seq<Item>, p: nat, r: Rec)
    requires p < |items| && NothingOpen(items, p)
    requires IsGood(Without(items, p), r)
    ensures IsGood(items, ShiftUp(r, p)) && ShiftUp(r, p).start != p && ShiftDown(ShiftUp(r, p), p) == r
    ensures Slice(items, ShiftUp(r, p)) == Slice(Without(items, p), r)
  {
    var rest := Without(items, p);
    assert rest[..p] == items[..p];
    NothingOpenTransfer(items, rest, p);
    NoneSpans(rest, p, r);
    SliceWithout(items, p, ShiftUp(r, p));
    RecordTransfer(rest, r, items, ShiftUp(r, p));
  }

  // ---- corruption ----

  /** `after` is the queue with the entries at the positions `bad` replaced by something undecodable. */
  ghost predicate Corrupted(items: seq<Item>, bad: set<nat>, after: seq<Item>) {
    && |after| == |items|
    && forall k :: 0 <= k < |items| ==> if k in bad then after[k].Junk? else after[k] == items[k]
  }

  /** Corrupting any set of entries leaves exactly the records that contain none of them. */
  lemma CorruptionIsIsolated(items: seq<Item>, bad: set<nat>, after: seq<Item>, r: Rec)
    requires Corrupted(items, bad, after)
    ensures IsGood(after, r) <==> IsGood(items, r) && Untouched(r, bad)
  {
    if IsGood(after, r) {
      forall k | r.start <= k <= r.end ensures k !in bad {
        assert !after[k].Junk?;
      }
    }
    if r.start < r.end < |items| && Untouched(r, bad) {
      assert Slice(after, r) == Slice(items, r);
      if IsGood(after, r) {
        RecordTransfer(after, r, items, r);
      }
      if IsGood(items, r) {
        RecordTransfer(items, r, after, r);
      }
    }
  }

  ghost predicate Untouched(r: Rec, bad: set<nat>) {
    forall k :: r.start <= k <= r.end ==> k !in bad
  }
}
