// The framing of a data element (kv_pair in lib.rs, serialize_node in storage_list.rs): a key as a
// CBOR text string (section 3.1 of RFC 8949), followed by the encoded value.
module KeyValue {
  import opened Wrappers
  import opened Elements

  /** `n` in `width` bytes, most significant byte first. */
  function BigEndian(n: nat, width: nat): (s: seq<byte>)
    ensures |s| == width
  {
    if width == 0 then [] else BigEndian(n / 0x100, width - 1) + [n % 0x100]
  }

  function FromBigEndian(s: seq<byte>): nat {
    if s == [] then 0 else FromBigEndian(s[..|s| - 1]) * 0x100 + s[|s| - 1]
  }

  function Power256(width: nat): nat {
    if width == 0 then 1 else 0x100 * Power256(width - 1)
  }

  lemma {:induction false} BigEndianRoundTrip(n: nat, width: nat)
    requires n < Power256(width)
    ensures FromBigEndian(BigEndian(n, width)) == n
  {
    if width > 0 {
      var s := BigEndian(n, width);
      assert s[..|s| - 1] == BigEndian(n / 0x100, width - 1);
      BigEndianRoundTrip(n / 0x100, width - 1);
    }
  }

  predicate Continuation(b: byte) {
    0x80 <= b <= 0xBF
  }

  /** Well-formed UTF-8 (section 4 of RFC 3629). */
  predicate Utf8(s: seq<byte>) {
    if s == [] then true
    else if s[0] <= 0x7F then Utf8(s[1..])
    else if 0xC2 <= s[0] <= 0xDF then 2 <= |s| && Continuation(s[1]) && Utf8(s[2..])
    else if 0xE0 <= s[0] <= 0xEF then
      && 3 <= |s| && Continuation(s[1]) && Continuation(s[2])
      && (s[0] == 0xE0 ==> 0xA0 <= s[1]) && (s[0] == 0xED ==> s[1] <= 0x9F)
      && Utf8(s[3..])
    else if 0xF0 <= s[0] <= 0xF4 then
      && 4 <= |s| && Continuation(s[1]) && Continuation(s[2]) && Continuation(s[3])
      && (s[0] == 0xF0 ==> 0x90 <= s[1]) && (s[0] == 0xF4 ==> s[1] <= 0x8F)
      && Utf8(s[4..])
    else false
  }

  /** A string slice of the source: valid UTF-8 of a length that fits 64 bits. */
  type Key = k: seq<byte> | Utf8(k) && |k| < 0x1_0000_0000_0000_0000 witness []

  /** Number of bytes behind the initial byte of the shortest head for length `n` (section 4.1). */
  function HeadWidth(n: nat): nat {
    if n < 24 then 0
    else if n < 0x100 then 1
    else if n < 0x1_0000 then 2
    else if n < 0x1_0000_0000 then 4
    else 8
  }

  /** Number of bytes behind an initial byte with additional information `info`, if it is one that
      a definite-length text string may have. */
  function InfoWidth(info: int): Option<nat> {
    if 0 <= info < 24 then Some(0)
    else if info == 24 then Some(1)
    else if info == 25 then Some(2)
    else if info == 26 then Some(4)
    else if info == 27 then Some(8)
    else None
  }

  /** Additional information that announces `width` bytes of length. */
  function InfoFor(n: nat, width: nat): (info: nat)
    requires width == HeadWidth(n)
    ensures info < 28 && InfoWidth(info) == Some(width)
  {
    if width == 0 then n else if width == 1 then 24 else if width == 2 then 25 else if width == 4 then 26 else 27
  }

  function Head(n: nat): (h: seq<byte>)
    ensures |h| == 1 + HeadWidth(n)
  {
    [0x60 + InfoFor(n, HeadWidth(n))] + BigEndian(n, HeadWidth(n))
  }

  function EncodeKey(key: Key): (s: seq<byte>)
    ensures |s| == KeyLen(key)
  {
    Head(|key|) + key
  }

  /** The length of the shortest encoding of a key (`len_with`). */
  function KeyLen(key: Key): nat {
    1 + HeadWidth(|key|) + |key|
  }

  /** A decoded key, and how many bytes its head took. */
  datatype DecodedKey = DecodedKey(key: Key, headLen: nat)

  /** Decode the text string in front of `item`; its head need not be the shortest. */
  function DecodeKey(item: seq<byte>): (r: Option<DecodedKey>)
    ensures r.Some? ==>
              && 1 + HeadWidth(|r.value.key|) <= r.value.headLen
              && r.value.headLen + |r.value.key| <= |item|
              && item[r.value.headLen..r.value.headLen + |r.value.key|] == r.value.key
  {
    if item == [] then None
    else match InfoWidth(item[0] as int - 0x60)
      case None => None
      case Some(w) =>
        if |item| < 1 + w then None
        else
          var n := if w == 0 then item[0] - 0x60 else FromBigEndian(item[1..1 + w]);
          FromBigEndianBound(item[1..1 + w]);
          if |item| < 1 + w + n || 0x1_0000_0000_0000_0000 <= n then None
          else if Utf8(item[1 + w..1 + w + n]) then Some(DecodedKey(item[1 + w..1 + w + n], 1 + w))
          else None
  }

  lemma {:induction false} FromBigEndianBound(s: seq<byte>)
    ensures FromBigEndian(s) < Power256(|s|)
    ensures |s| <= 4 ==> Power256(|s|) <= 0x1_0000_0000
    ensures |s| <= 2 ==> Power256(|s|) <= 0x1_0000
    ensures |s| <= 1 ==> Power256(|s|) <= 0x100
  {
    if s != [] {
      FromBigEndianBound(s[..|s| - 1]);
    }
  }

  datatype KvPair = KvPair(key: Key, body: seq<byte>)

  /** Split a data element into key and body. The body starts where the SHORTEST encoding of the
      key would end. */
  function SplitKeyValue(item: seq<byte>): Option<KvPair> {
    match DecodeKey(item)
    case None => None
    case Some(d) =>
      if KeyLen(d.key) <= |item| then Some(KvPair(d.key, item[KeyLen(d.key)..])) else None
  }

  lemma KeyIsDecoded(key: Key, body: seq<byte>)
    ensures DecodeKey(EncodeKey(key) + body) == Some(DecodedKey(key, |Head(|key|)|))
  {
    var item, w := EncodeKey(key) + body, HeadWidth(|key|);
    assert item[0] == 0x60 + InfoFor(|key|, w);
    assert item[1..1 + w] == BigEndian(|key|, w);
    assert Power256(1) == 0x100 && Power256(2) == 0x1_0000;
    assert Power256(4) == 0x1_0000_0000 && Power256(8) == 0x1_0000_0000_0000_0000;
    if w > 0 {
      BigEndianRoundTrip(|key|, w);
    }
    assert item[1 + w..1 + w + |key|] == key;
  }

  /** What was serialized under a key is found again under that key, for every key length. */
  lemma SplitOfEntry(key: Key, body: seq<byte>)
    ensures SplitKeyValue(EncodeKey(key) + body) == Some(KvPair(key, body))
  {
    hide DecodeKey;
    KeyIsDecoded(key, body);
    assert (EncodeKey(key) + body)[KeyLen(key)..] == body;
  }

  /** On a foreign entry the body is what follows the key exactly if the head is the shortest one;
      otherwise the body starts with the last bytes of the key's own encoding. */
  lemma BodyIsExactForShortestHeads(item: seq<byte>)
    requires DecodeKey(item).Some?
    ensures SplitKeyValue(item).Some? && SplitKeyValue(item).value.key == DecodeKey(item).value.key
    ensures var d := DecodeKey(item).value;
      SplitKeyValue(item).value.body == item[d.headLen + |d.key|..] <==> d.headLen == 1 + HeadWidth(|d.key|)
  {
    var d := DecodeKey(item).value;
    assert |item[KeyLen(d.key)..]| == |item| - KeyLen(d.key);
    assert |item[d.headLen + |d.key|..]| == |item| - d.headLen - |d.key|;
  }

  /** For instance, under a one-byte key whose head is one byte too long, the body starts with the key's
      own byte. */
  lemma LongHeadShiftsBody()
    ensures var item := [0x78, 0x01, 0x61, 0xF5];
      && DecodeKey(item) == Some(DecodedKey([0x61], 2))
      && SplitKeyValue(item) == Some(KvPair([0x61], [0x61, 0xF5]))
  {
    var item: seq<byte> := [0x78, 0x01, 0x61, 0xF5];
    assert item[1..2] == [0x01];
    assert FromBigEndian([0x01]) == 1 by { assert [0x01][..0] == []; }
    assert item[2..3] == [0x61] && Utf8([0x61]);
    assert item[KeyLen([0x61])..] == [0x61, 0xF5];
  }

  // ---- the bytes of a key ----

  /** The bytes in front of a text string of `n` bytes, as RFC 8949 has them: the length in the initial byte
      from 0x60 on, or behind 0x78, 0x79, 0x7A or 0x7B in one, two, four or eight bytes. */
  predicate SaysLength(h: seq<byte>, n: nat) {
    || (|h| == 1 && 0x60 <= h[0] <= 0x77 && n == h[0] - 0x60)
    || (|h| == 2 && h[0] == 0x78 && n == h[1])
    || (|h| == 3 && h[0] == 0x79 && n == Joined(h[1], h[2]))
    || (|h| == 5 && h[0] == 0x7A && n == Joined(Joined(Joined(h[1], h[2]), h[3]), h[4]))
    || (|h| == 9 && h[0] == 0x7B
        && n == Joined(Joined(Joined(Joined(Joined(Joined(Joined(h[1], h[2]), h[3]), h[4]), h[5]), h[6]), h[7]), h[8]))
  }

  function Joined(high: nat, low: nat): nat {
    0x100 * high + low
  }

  lemma {:induction false} BytesJoin(s: seq<byte>)
    requires s != []
    ensures FromBigEndian(s) == Joined(FromBigEndian(s[..|s| - 1]), s[|s| - 1])
  {
  }

  lemma FewBytes(s: seq<byte>)
    ensures |s| == 1 ==> FromBigEndian(s) == s[0]
    ensures |s| == 2 ==> FromBigEndian(s) == Joined(s[0], s[1])
    ensures |s| == 4 ==> FromBigEndian(s) == Joined(Joined(Joined(s[0], s[1]), s[2]), s[3])
  {
    if |s| == 1 || |s| == 2 || |s| == 4 {
      NoBytes();
      BytesJoin(s);
      if 2 <= |s| {
        assert s[..|s| - 1][..|s| - 2] == s[..|s| - 2];
        BytesJoin(s[..|s| - 1]);
      }
      if |s| == 4 {
        assert s[..2][..1] == s[..1];
        BytesJoin(s[..2]);
        BytesJoin(s[..1]);
      }
    }
  }

  lemma NoBytes()
    ensures FromBigEndian([]) == 0
  {
  }

  lemma EightBytes(s: seq<byte>)
    requires |s| == 8
    ensures FromBigEndian(s)
         == Joined(Joined(Joined(Joined(Joined(Joined(Joined(s[0], s[1]), s[2]), s[3]), s[4]), s[5]), s[6]), s[7])
  {
    hide FromBigEndian;
    FewBytes(s[..4]);
    BytesJoin(s[..5]);
    BytesJoin(s[..6]);
    BytesJoin(s[..7]);
    BytesJoin(s);
    assert s[..5][..4] == s[..4] && s[..6][..5] == s[..5] && s[..7][..6] == s[..6];
  }

  /** A text string is decoded in front of an entry exactly if the entry starts with bytes that say its
      length, and goes on with its bytes; they are well-formed UTF-8, as those of every key. */
  lemma DecodesKeyIff(item: seq<byte>, key: Key, headLen: nat)
    ensures DecodeKey(item) == Some(DecodedKey(key, headLen)) <==>
              && headLen + |key| <= |item|
              && SaysLength(item[..headLen], |key|)
              && item[headLen..headLen + |key|] == key
  {
    hide FromBigEndian, Utf8, SaysLength;
    if item != [] && InfoWidth(item[0] as int - 0x60).Some? {
      var w := InfoWidth(item[0] as int - 0x60).value;
      if 1 + w <= |item| {
        LengthIsSaid(item, w, |key|);
      }
    }
    if headLen <= |item| && SaysLength(item[..headLen], |key|) {
      HeadIsSaid(item, headLen, |key|);
    }
  }

  lemma HeadIsSaid(item: seq<byte>, headLen: nat, n: nat)
    requires headLen <= |item| && SaysLength(item[..headLen], n)
    ensures item != [] && InfoWidth(item[0] as int - 0x60) == Some(headLen - 1)
  {
    hide Joined;
    assert item[..headLen][0] == item[0];
  }

  lemma LengthIsSaid(item: seq<byte>, w: nat, n: nat)
    requires 1 + w <= |item| && InfoWidth(item[0] as int - 0x60) == Some(w)
    ensures SaysLength(item[..1 + w], n) <==> n == if w == 0 then item[0] - 0x60 else FromBigEndian(item[1..1 + w])
  {
    hide FromBigEndian, Joined;
    var h, s := item[..1 + w], item[1..1 + w];
    assert forall k :: 0 <= k < w ==> s[k] == h[k + 1];
    FewBytes(s);
    if w == 8 { EightBytes(s); }
  }

  /** A key is written as the bytes that say its length, the fewest that can, and its own. */
  lemma KeyIsWritten(key: Key)
    ensures var h := EncodeKey(key)[..|EncodeKey(key)| - |key|];
      && EncodeKey(key) == h + key && SaysLength(h, |key|)
      && |h| == if |key| <= 23 then 1 else if |key| <= 0xFF then 2 else if |key| <= 0xFFFF then 3
                else if |key| <= 0xFFFF_FFFF then 5 else 9
  {
    var item, h := EncodeKey(key), Head(|key|);
    assert item + [] == item;
    assert item[..|h|] == h && item[|h|..|h| + |key|] == key;
    KeyIsDecoded(key, []);
    DecodesKeyIff(item, key, |h|);
  }

  /** What UTF-8 is and is not: all of ASCII and characters of two, three and four bytes are well-formed; a
      stray continuation, a cut character, overlong forms, surrogates and numbers too high are not. */
  lemma Utf8Examples()
    ensures forall b: byte :: b <= 0x7F ==> Utf8([b])
    ensures Utf8([0xC3, 0xA9]) && Utf8([0xE2, 0x82, 0xAC]) && Utf8([0xF0, 0x9F, 0x98, 0x80])
    ensures !Utf8([0x80]) && !Utf8([0xC3]) && !Utf8([0xC0, 0xAF]) && !Utf8([0xE0, 0x80, 0xAF])
    ensures !Utf8([0xED, 0xA0, 0x80]) && !Utf8([0xF0, 0x80, 0x80, 0xAF]) && !Utf8([0xF4, 0x90, 0x80, 0x80])
    ensures !Utf8([0xFF])
  {
  }
}
