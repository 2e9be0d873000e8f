// The value of a configuration node (storage_node.rs), and what reading and flushing do to one node.
module NodeSpec {
  import opened Wrappers
  import opened Elements
  import opened KeyValue

  /** Values of the nodes. Every node has its own codec, so one type stands for all of them. */
  type Value(==, !new)

  datatype State = Initial | NonResident | ValidNoWriteNeeded | NeedsWrite

  /** The serialization functions of a node's type. */
  datatype Codec = Codec(encode: Value -> seq<byte>, decode: seq<byte> -> Option<Value>)

  /** Decoding recovers what was encoded. */
  ghost predicate Lawful(codec: Codec) {
    forall v :: codec.decode(codec.encode(v)) == Some(v)
  }

  /** `data` is the node's value cell: `None` while it is uninitialised. */
  datatype Node = Node(key: Key, codec: Codec, state: State, data: Option<Value>)

  /** The states in which the value cell is initialised. */
  predicate Initialised(state: State) {
    state.ValidNoWriteNeeded? || state.NeedsWrite?
  }

  ghost predicate WellFormed(n: Node) {
    Lawful(n.codec) && (n.data.Some? <==> Initialised(n.state))
  }

  ghost predicate AllWellFormed(nodes: seq<Node>) {
    forall i :: 0 <= i < |nodes| ==> WellFormed(nodes[i])
  }

  /** The body of one data element if it decodes and carries `key`. */
  function EntryOf(item: Item, key: Key): Option<seq<byte>> {
    if item.Data? && SplitKeyValue(item.keyVal).Some? && SplitKeyValue(item.keyVal).value.key == key
    then Some(SplitKeyValue(item.keyVal).value.body)
    else None
  }

  /** The body of the FIRST decodable entry for `key`. */
  function EntryFor(payload: seq<Item>, key: Key): Option<seq<byte>> {
    if payload == [] then None
    else
      var e := EntryFor(payload[..|payload| - 1], key);
      if e.Some? then e else EntryOf(payload[|payload| - 1], key)
  }

  /** What hydration from the data elements of a record does to a node. */
  function Hydrated(n: Node, payload: seq<Item>): Node {
    if !n.state.Initial? then n
    else match EntryFor(payload, n.key)
      case None => n
      case Some(body) =>
        match n.codec.decode(body)
        case None => n.(state := NonResident)
        case Some(v) => n.(state := ValidNoWriteNeeded, data := Some(v))
  }

  function MarkedNonResident(n: Node): Node {
    if n.state.Initial? then n.(state := NonResident) else n
  }

  /** What a completed `process_reads` does to a node. */
  function ReadNode(n: Node, latest: Option<seq<Item>>): Node {
    MarkedNonResident(if latest.Some? then Hydrated(n, latest.value) else n)
  }

  /** What a verified write does to a node. */
  function Flushed(n: Node): Node {
    if Initialised(n.state) then n.(state := ValidNoWriteNeeded) else n
  }

  ghost function ElementOf(n: Node): Item
    requires n.data.Some?
  {
    Data(EncodeKey(n.key) + n.codec.encode(n.data.value))
  }

  /** The data elements written for a list of nodes, in list order. */
  ghost function Written(nodes: seq<Node>): seq<Item>
    requires AllWellFormed(nodes)
  {
    if nodes == [] then []
    else
      var front, last := nodes[..|nodes| - 1], nodes[|nodes| - 1];
      if Initialised(last.state) then Written(front) + [ElementOf(last)] else Written(front)
  }

  ghost predicate UniqueKeys(nodes: seq<Node>) {
    forall i, j :: 0 <= i < j < |nodes| ==> nodes[i].key != nodes[j].key
  }

  lemma {:induction false} WrittenIsData(nodes: seq<Node>)
    requires AllWellFormed(nodes)
    ensures forall k :: 0 <= k < |Written(nodes)| ==> Written(nodes)[k].Data?
  {
    if nodes != [] {
      WrittenIsData(nodes[..|nodes| - 1]);
    }
  }

  lemma EntryForPush(payload: seq<Item>, item: Item, key: Key)
    ensures EntryFor(payload + [item], key)
         == if EntryFor(payload, key).Some? then EntryFor(payload, key) else EntryOf(item, key)
  {
    assert (payload + [item])[..|payload + [item]| - 1] == payload;
  }

  lemma EntryOfElement(n: Node, key: Key)
    requires n.data.Some?
    ensures EntryOf(ElementOf(n), key) == if key == n.key then Some(n.codec.encode(n.data.value)) else None
  {
    SplitOfEntry(n.key, n.codec.encode(n.data.value));
  }

  lemma {:induction false} NotWritten(nodes: seq<Node>, key: Key)
    requires AllWellFormed(nodes)
    requires forall i :: 0 <= i < |nodes| && Initialised(nodes[i].state) ==> nodes[i].key != key
    ensures EntryFor(Written(nodes), key) == None
  {
    if nodes != [] {
      var front, last := nodes[..|nodes| - 1], nodes[|nodes| - 1];
      NotWritten(front, key);
      if Initialised(last.state) {
        EntryOfElement(last, key);
        EntryForPush(Written(front), ElementOf(last), key);
      }
    }
  }

  /** Every initialised node is found in what was written, with its own value. */
  lemma {:induction false} WrittenIsFound(nodes: seq<Node>, i: nat)
    requires AllWellFormed(nodes)
    requires UniqueKeys(nodes) && i < |nodes| && Initialised(nodes[i].state)
    ensures EntryFor(Written(nodes), nodes[i].key) == Some(nodes[i].codec.encode(nodes[i].data.value))
  {
    var front, last := nodes[..|nodes| - 1], nodes[|nodes| - 1];
    if i < |front| {
      WrittenIsFound(front, i);
    } else {
      NotWritten(front, last.key);
      EntryOfElement(last, last.key);
    }
    if Initialised(last.state) {
      EntryForPush(Written(front), ElementOf(last), nodes[i].key);
    }
  }

  /** A body that was found stays the one found when more entries follow. */
  lemma {:induction false} FirstEntryStays(payload: seq<Item>, more: seq<Item>, key: Key)
    requires EntryFor(payload, key).Some?
    ensures EntryFor(payload + more, key) == EntryFor(payload, key)
  {
    if more == [] {
      assert payload + more == payload;
    } else {
      FirstEntryStays(payload, more[..|more| - 1], key);
      assert (payload + more)[..|payload + more| - 1] == payload + more[..|more| - 1];
    }
  }

  /** Hydrating entry by entry is hydrating from all of them. */
  lemma HydratedStep(n: Node, payload: seq<Item>, item: Item)
    ensures Hydrated(Hydrated(n, payload), [item]) == Hydrated(n, payload + [item])
  {
    hide EntryOf;
    EntryForPush(payload, item, n.key);
    EntryForPush([], item, n.key);
    assert [] + [item] == [item];
  }

  lemma HydratedByOne(n: Node, item: Item)
    ensures Hydrated(n, [item])
         == if n.state.Initial? && EntryOf(item, n.key).Some? then
              match n.codec.decode(EntryOf(item, n.key).value)
              case None => n.(state := NonResident)
              case Some(v) => n.(state := ValidNoWriteNeeded, data := Some(v))
            else n
  {
    hide EntryOf;
    EntryForPush([], item, n.key);
    assert [] + [item] == [item];
  }

  /** `after` is `before` hydrated from `payload`, node by node. */
  ghost predicate AllHydrated(before: seq<Node>, after: seq<Node>, payload: seq<Item>) {
    |after| == |before| && forall i :: 0 <= i < |before| ==> after[i] == Hydrated(before[i], payload)
  }

  lemma AllHydratedStep(before: seq<Node>, mid: seq<Node>, after: seq<Node>, payload: seq<Item>, item: Item)
    requires AllHydrated(before, mid, payload) && AllHydrated(mid, after, [item])
    ensures AllHydrated(before, after, payload + [item])
  {
    hide Hydrated;
    forall i | 0 <= i < |before| ensures after[i] == Hydrated(before[i], payload + [item]) {
      HydratedStep(before[i], payload, item);
    }
  }

  lemma AllHydratedByNone(nodes: seq<Node>)
    ensures AllHydrated(nodes, nodes, [])
  {
  }

  lemma AllHydratedKeeps(before: seq<Node>, after: seq<Node>, payload: seq<Item>)
    requires AllHydrated(before, after, payload) && AllWellFormed(before) && UniqueKeys(before)
    ensures AllWellFormed(after) && UniqueKeys(after)
  {
    hide EntryFor;
    forall i | 0 <= i < |before| ensures WellFormed(after[i]) && after[i].key == before[i].key {
    }
  }

  /** The size of a node's element, header byte included, compared with the buffer. */
  ghost predicate Fits(n: Node, bufLen: nat)
    requires n.data.Some?
  {
    1 + KeyLen(n.key) + |n.codec.encode(n.data.value)| <= bufLen
  }

  /** Every node that a write would serialize fits the buffer. */
  ghost predicate AllFit(nodes: seq<Node>, bufLen: nat) {
    forall i :: 0 <= i < |nodes| && Initialised(nodes[i].state) && nodes[i].data.Some? ==> Fits(nodes[i], bufLen)
  }

  /** How many nodes a write serializes. */
  function CountInitialised(nodes: seq<Node>): nat {
    if nodes == [] then 0
    else CountInitialised(nodes[1..]) + (if Initialised(nodes[0].state) then 1 else 0)
  }

  lemma {:induction false} CountPush(nodes: seq<Node>, n: Node)
    ensures CountInitialised(nodes + [n]) == CountInitialised(nodes) + (if Initialised(n.state) then 1 else 0)
  {
    if nodes == [] {
      assert nodes + [n] == [n] && [n][1..] == [];
    } else {
      assert (nodes + [n])[1..] == nodes[1..] + [n];
      CountPush(nodes[1..], n);
    }
  }

  /** A write serializes each initialised node once, in list order, as its key and its encoded value, and
      nothing else. */
  lemma {:induction false} WrittenInOrder(nodes: seq<Node>)
    requires AllWellFormed(nodes)
    ensures |Written(nodes)| == CountInitialised(nodes)
    ensures forall i :: 0 <= i < |nodes| && nodes[i].state in {ValidNoWriteNeeded, NeedsWrite} ==>
              && CountInitialised(nodes[..i]) < |Written(nodes)|
              && nodes[i].data.Some?
              && Written(nodes)[CountInitialised(nodes[..i])]
                   == Data(EncodeKey(nodes[i].key) + nodes[i].codec.encode(nodes[i].data.value))
  {
    hide EncodeKey, Lawful;
    if nodes != [] {
      var front, last := nodes[..|nodes| - 1], nodes[|nodes| - 1];
      WrittenInOrder(front);
      assert nodes == front + [last];
      CountPush(front, last);
      forall i | 0 <= i < |front| ensures nodes[..i] == front[..i] {
      }
    }
  }
}
