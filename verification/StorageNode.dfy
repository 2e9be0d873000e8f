// Nodes as the list's worker sees them (NodeHeader, VTable and the value cell in storage_node.rs).
module StorageNode {
  import opened Wrappers
  import opened Elements
  import opened KeyValue
  import opened NodeSpec

  class NodeCell {
    const key: Key
    const codec: Codec
    var state: State
    var data: Option<Value>

    constructor (key: Key, codec: Codec)
      ensures View() == Node(key, codec, Initial, None)
    {
      this.key, this.codec, this.state, this.data := key, codec, Initial, None;
    }

    ghost function View(): Node
      reads this
    {
      Node(key, codec, state, data)
    }

    /** Encode the value into `room` bytes, if it fits. */
    method Serialize(room: nat) returns (r: Option<seq<byte>>)
      requires data.Some?
      ensures r == if |codec.encode(data.value)| <= room then Some(codec.encode(data.value)) else None
    {
      var bytes := codec.encode(data.value);
      r := if |bytes| <= room then Some(bytes) else None;
    }

    /** Decode a value into the cell. */
    method Deserialize(body: seq<byte>) returns (ok: bool)
      requires state.Initial?
      modifies this`data
      ensures ok <==> codec.decode(body).Some?
      ensures data == if ok then codec.decode(body) else old(data)
    {
      var v := codec.decode(body);
      ok := v.Some?;
      if ok {
        data := v;
      }
    }
  }

  method Copy(buf: array<byte>, at: nat, bytes: seq<byte>)
    requires at + |bytes| <= buf.Length
    modifies buf
    ensures buf[at..at + |bytes|] == bytes
    ensures buf[..at] == old(buf[..at])
  {
    forall i | 0 <= i < |bytes| {
      buf[at + i] := bytes[i];
    }
    assert forall i :: 0 <= i < at ==> buf[i] == old(buf[i]);
  }

  /** Serialize key and value into the buffer behind its first byte. Succeeds exactly if both fit;
      then bytes 1 to `used` hold the element's key and value. */
  method SerializeNode(node: NodeCell, buf: array<byte>) returns (used: Option<nat>)
    requires 0 < buf.Length && WellFormed(node.View()) && Initialised(node.state)
    modifies buf
    ensures used.Some? <==> Fits(node.View(), buf.Length)
    ensures used.Some? ==> used.value < buf.Length && Data(buf[1..1 + used.value]) == ElementOf(node.View())
  {
    var room := buf.Length - 1;
    var key := EncodeKey(node.key);
    if room < |key| {
      return None;
    }
    Copy(buf, 1, key);
    var bytes := node.Serialize(room - |key|);
    if bytes.None? {
      return None;
    }
    Copy(buf, 1 + |key|, bytes.value);
    used := Some(|key| + |bytes.value|);
    assert buf[1..1 + |key|] == buf[..1 + |key|][1..] == key;
    assert buf[1..1 + used.value] == buf[1..1 + |key|] + buf[1 + |key|..1 + |key| + |bytes.value|];
  }

  /** Turn the state of one node according to a body found for its key. */
  method HydrateNode(node: NodeCell, body: seq<byte>)
    requires WellFormed(node.View())
    modifies node
    ensures node.View()
         == if old(node.state).Initial? then
              match node.codec.decode(body)
              case None => old(node.View()).(state := NonResident)
              case Some(v) => old(node.View()).(state := ValidNoWriteNeeded, data := Some(v))
            else old(node.View())
  {
    if node.state.Initial? {
      var ok := node.Deserialize(body);
      node.state := if ok then ValidNoWriteNeeded else NonResident;
    }
  }

  /** Serialize one node behind the header byte of the buffer. */
  method SerializeElement(node: NodeCell, buf: array<byte>) returns (element: Option<Item>)
    requires WellFormed(node.View()) && Initialised(node.state)
    modifies buf
    ensures element.Some? <==> Fits(node.View(), buf.Length)
    ensures element.Some? ==> element.value == ElementOf(node.View())
  {
    if buf.Length == 0 {
      return None;
    }
    var used := SerializeNode(node, buf);
    element := if used.Some? then Some(Data(buf[1..1 + used.value])) else None;
  }
}
