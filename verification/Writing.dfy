// Writing a record (write_to_flash), element by element, and what the read-back check makes of it.
module Writing {
  import opened Wrappers
  import opened Elements
  import opened Log
  import opened SeqStates
  import opened NodeSpec
  import opened ListSpec
  import opened Verify

  /** Some of a record's elements have been pushed. */
  ghost predicate PushedPart(before: seq<Item>, nodes: seq<Node>, s: SeqNo, after: seq<Item>)
    requires AllWellFormed(nodes)
  {
    exists n :: 0 <= n <= |RecordFor(nodes, s)| && after == before + RecordFor(nodes, s)[..n]
  }

  /** The start and the elements of the first `i` nodes have been pushed. */
  ghost predicate WriteState(before: seq<Item>, nodes: seq<Node>, s: SeqNo, size: Item -> nat, i: nat,
                             after: seq<Item>, crc: u32, ctr: nat, bytesWritten: nat)
    requires AllWellFormed(nodes) && i <= |nodes|
  {
    var written := Written(nodes[..i]);
    && after == before + [Start(s)] + written
    && crc == Update(CRC_INIT, Bytes(written))
    && ctr == |written|
    && bytesWritten == Total(size, [Start(s)] + written)
  }

  lemma WriteStarts(before: seq<Item>, nodes: seq<Node>, s: SeqNo, size: Item -> nat)
    requires AllWellFormed(nodes)
    ensures PushedPart(before, nodes, s, before) && PushedPart(before, nodes, s, before + [Start(s)])
    ensures WriteState(before, nodes, s, size, 0, before + [Start(s)], CRC_INIT, 0, size(Start(s)))
  {
    PushedSome(before, nodes, s, 0);
    assert before == before + RecordFor(nodes, s)[..0];
    assert before + [Start(s)] + [] == before + [Start(s)];
    assert [Start(s)][..0] == [] && [Start(s)] + [] == [Start(s)];
  }

  lemma WritePartial(before: seq<Item>, nodes: seq<Node>, s: SeqNo, size: Item -> nat, i: nat,
                     after: seq<Item>, crc: u32, ctr: nat, bytesWritten: nat)
    requires AllWellFormed(nodes) && i <= |nodes|
    requires WriteState(before, nodes, s, size, i, after, crc, ctr, bytesWritten)
    ensures PushedPart(before, nodes, s, after)
  {
    hide Written, Bytes, Update, Total;
    PushedSome(before, nodes, s, i);
  }

  lemma WriteSkips(before: seq<Item>, nodes: seq<Node>, s: SeqNo, size: Item -> nat, i: nat,
                   after: seq<Item>, crc: u32, ctr: nat, bytesWritten: nat)
    requires AllWellFormed(nodes) && i < |nodes| && !Initialised(nodes[i].state)
    requires WriteState(before, nodes, s, size, i, after, crc, ctr, bytesWritten)
    ensures WriteState(before, nodes, s, size, i + 1, after, crc, ctr, bytesWritten)
  {
    hide Bytes, Update, Total;
    assert nodes[..i + 1][..i] == nodes[..i] && nodes[..i + 1][i] == nodes[i];
  }

  lemma WriteGrows(before: seq<Item>, nodes: seq<Node>, s: SeqNo, size: Item -> nat, i: nat,
                   after: seq<Item>, crc: u32, ctr: nat, bytesWritten: nat)
    requires AllWellFormed(nodes) && i < |nodes| && Initialised(nodes[i].state)
    requires WriteState(before, nodes, s, size, i, after, crc, ctr, bytesWritten)
    ensures nodes[i].data.Some?
    ensures PushedPart(before, nodes, s, after) && PushedPart(before, nodes, s, after + [ElementOf(nodes[i])])
    ensures WriteState(before, nodes, s, size, i + 1, after + [ElementOf(nodes[i])],
                       Update(crc, ElementOf(nodes[i]).keyVal), ctr + 1,
                       bytesWritten + size(ElementOf(nodes[i])))
  {
    hide PushedPart, Total, Bytes, Update;
    assert nodes[..i + 1][..i] == nodes[..i] && nodes[..i + 1][i] == nodes[i];
    PushedSome(before, nodes, s, i);
    PushedSome(before, nodes, s, i + 1);
    WrittenGrows(size, Written(nodes[..i]), ElementOf(nodes[i]), s);
    assert after + [ElementOf(nodes[i])] == before + [Start(s)] + Written(nodes[..i + 1]);
  }

  lemma WriteEnds(before: seq<Item>, nodes: seq<Node>, s: SeqNo, size: Item -> nat,
                  after: seq<Item>, crc: u32, ctr: nat, bytesWritten: nat)
    requires AllWellFormed(nodes)
    requires WriteState(before, nodes, s, size, |nodes|, after, crc, ctr, bytesWritten)
    ensures Finalize(crc) == Crc(Bytes(Written(nodes))) && ctr == |Written(nodes)|
    ensures PushedPart(before, nodes, s, after)
    ensures after + [End(s, Finalize(crc))] == before + RecordFor(nodes, s)
    ensures PushedPart(before, nodes, s, before + RecordFor(nodes, s))
    ensures Total(size, RecordFor(nodes, s)) == bytesWritten + size(End(s, Finalize(crc)))
  {
    hide PushedPart, Total, Bytes, Update;
    assert nodes[..|nodes|] == nodes;
    PushedAll(before, nodes, s, size);
  }

  lemma {:induction false} WrittenOfPrefix(nodes: seq<Node>, i: nat)
    requires AllWellFormed(nodes) && i <= |nodes|
    ensures |Written(nodes[..i])| <= |Written(nodes)|
    ensures Written(nodes[..i]) == Written(nodes)[..|Written(nodes[..i])|]
  {
    if i < |nodes| {
      assert nodes[..|nodes| - 1][..i] == nodes[..i];
      WrittenOfPrefix(nodes[..|nodes| - 1], i);
    } else {
      assert nodes[..i] == nodes;
    }
  }

  lemma PushedSome(before: seq<Item>, nodes: seq<Node>, s: SeqNo, i: nat)
    requires AllWellFormed(nodes) && i <= |nodes|
    ensures PushedPart(before, nodes, s, before + [Start(s)] + Written(nodes[..i]))
  {
    hide Crc, Bytes, Written;
    WrittenOfPrefix(nodes, i);
    var n := 1 + |Written(nodes[..i])|;
    assert RecordFor(nodes, s)[..n] == [Start(s)] + Written(nodes[..i]);
    assert before + [Start(s)] + Written(nodes[..i]) == before + RecordFor(nodes, s)[..n];
  }

  lemma PushedAll(before: seq<Item>, nodes: seq<Node>, s: SeqNo, size: Item -> nat)
    requires AllWellFormed(nodes)
    ensures var all := before + [Start(s)] + Written(nodes) + [End(s, Crc(Bytes(Written(nodes))))];
      all == before + RecordFor(nodes, s) && PushedPart(before, nodes, s, all)
    ensures PushedPart(before, nodes, s, before + [Start(s)] + Written(nodes))
    ensures Total(size, RecordFor(nodes, s))
         == Total(size, [Start(s)] + Written(nodes)) + size(End(s, Crc(Bytes(Written(nodes)))))
  {
    hide Crc, Bytes, Written;
    var w := RecordFor(nodes, s);
    PushedSome(before, nodes, s, |nodes|);
    assert nodes[..|nodes|] == nodes;
    assert w[..|w|] == w;
    assert w[..|w| - 1] == [Start(s)] + Written(nodes);
    assert before + w == before + [Start(s)] + Written(nodes) + [End(s, Crc(Bytes(Written(nodes))))];
    assert before + w == before + w[..|w|];
  }

  lemma InitialisedHasData(n: Node)
    requires WellFormed(n) && Initialised(n.state)
    ensures n.data.Some?
  {
  }

  lemma WrittenGrows(size: Item -> nat, written: seq<Item>, element: Item, s: SeqNo)
    requires element.Data?
    ensures Total(size, [Start(s)] + (written + [element])) == Total(size, [Start(s)] + written) + size(element)
    ensures Bytes(written + [element]) == Bytes(written) + element.keyVal
    ensures Update(CRC_INIT, Bytes(written + [element])) == Update(Update(CRC_INIT, Bytes(written)), element.keyVal)
  {
    hide CrcStep;
    assert (written + [element])[..|written|] == written;
    assert ([Start(s)] + (written + [element]))[..|written| + 1] == [Start(s)] + written;
    UpdateAppend(CRC_INIT, Bytes(written), element.keyVal);
  }

  /** The answer of `process_writes` when there is nothing to write, or it may not. */
  function WriteRefused(v: ListV): Result<()> {
    if v.cache.next.None? then Err(AppError(NeedsFirstRead))
    else if v.cache.needsGc then Err(AppError(NeedsGarbageCollect))
    else if !NoneInitial(v.nodes) then Err(AppError(NeedsFirstRead))
    else Ok(())
  }

  lemma WriteFailsIntro(v: ListV, v': ListV)
    requires AllWellFormed(v.nodes) && MayWrite(v)
    requires v'.nodes == v.nodes && v'.cache == v.cache
    requires PushedPart(v.items, v.nodes, v.cache.next.value, v'.items)
    ensures WriteAborts(v, v')
  {
    hide RecordFor;
    var w := RecordFor(v.nodes, v.cache.next.value);
    var n :| 0 <= n <= |w| && v'.items == v.items + w[..n];
    assert WriteFails(v, v', n);
  }

  lemma WriteFailsAfterAll(v: ListV, v': ListV)
    requires AllWellFormed(v.nodes) && MayWrite(v)
    requires v'.nodes == v.nodes && v'.cache == v.cache
    requires v'.items == v.items + RecordFor(v.nodes, v.cache.next.value)
    ensures WriteAborts(v, v')
  {
    hide RecordFor;
    var w := RecordFor(v.nodes, v.cache.next.value);
    assert w[..|w|] == w;
    assert WriteFails(v, v', |w|);
  }

  /** What the read-back check says after a complete write. */
  lemma CheckAfterWrite(v: ListV, rpt: WriteReport, range: Result<(nat, nat)>,
                        items: seq<Item>, faulty: bool)
    requires AllWellFormed(v.nodes) && MayWrite(v)
    requires rpt.seqNo == v.cache.next.value && Reports(rpt, v.nodes, rpt.seqNo)
    requires items == v.items + RecordFor(v.nodes, rpt.seqNo)
    requires range.Ok? ==>
               && 0 < range.value.1
               && FirstStart(items, rpt.seqNo, range.value.0)
               && Matches(items, rpt, range.value.0, range.value.1 - 1)
    requires !faulty ==> (range.Ok? <==> CheckAccepts(items, rpt))
    ensures !faulty ==> (range.Ok? <==> CanVerify(v.items, v.nodes, rpt.seqNo))
    ensures Coherent(v.cache, v.items) && range.Ok? ==>
              range.value == (|v.items|, |items|) && NoStart(v.items, rpt.seqNo)
    ensures Coherent(v.cache, v.items) && !faulty && NoStart(v.items, rpt.seqNo) ==> range.Ok?
  {
    hide Coherent, Matches, RecordFor, Reports, CheckAccepts, NoRecord, NoStart, WrittenAlready;
    VerifiesIff(v.items, v.nodes, rpt);
    if Coherent(v.cache, v.items) {
      NextHasNoRecord(v.cache, v.items);
      if range.Ok? {
        CheckedIsAppended(v.items, v.nodes, rpt, range.value.0, range.value.1 - 1);
      }
    }
  }

  lemma WritesIntro(v: ListV, v': ListV)
    requires AllWellFormed(v.nodes) && 0 < |v.cache.last| && MayWrite(v)
    requires v'.items == v.items + RecordFor(v.nodes, v.cache.next.value)
    requires Inserted(v.cache, Rec(v.cache.next.value, |v.items|, |v'.items|), v'.cache)
    requires |v'.nodes| == |v.nodes| && forall i :: 0 <= i < |v.nodes| ==> v'.nodes[i] == Flushed(v.nodes[i])
    ensures Writes(v, v')
  {
  }

  lemma TotalOfWrite(size: Item -> nat, items: seq<Item>, w: seq<Item>)
    ensures Total(size, items + w) == Total(size, items) + Total(size, w)
    ensures (items + w)[..|items + w|] == items + w
  {
    TotalAppend(size, items, w);
  }
}
