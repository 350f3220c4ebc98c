/**
 * The key layout of the sled persister. A persister's `prefix` is a Rust `String`; here it is
 * given as the bytes `prefix.as_bytes()` returns.
 */
module SledKeys {
  import opened Bytes
  import opened Automerge

  /** `DOCUMENT_KEY`, the bytes of the ASCII string "document". */
  const DOCUMENT_KEY: seq<byte> := [0x64, 0x6F, 0x63, 0x75, 0x6D, 0x65, 0x6E, 0x74]

  /**
   * The key of a change: the prefix, then the actor's bytes, then the sequence number as eight
   * big-endian bytes. Each part can be read back from its position in the key.
   */
  function MakeKey(prefix: seq<byte>, actorId: ActorId, seqNum: u64): (key: seq<byte>)
    ensures |key| == |prefix| + |actorId.bytes| + 8
    ensures key[..|prefix|] == prefix
    ensures key[|prefix|..|key| - 8] == actorId.bytes
    ensures key[|key| - 8..] == U64ToBeBytes(seqNum) && U64FromBeBytes(key[|key| - 8..]) == seqNum
  {
    var key := prefix + actorId.bytes + U64ToBeBytes(seqNum);
    assert key[|key| - 8..] == U64ToBeBytes(seqNum);
    key
  }

  /** The key of a prefix's document snapshot: the prefix followed by `DOCUMENT_KEY`. */
  function MakeDocumentKey(prefix: seq<byte>): (key: seq<byte>)
    ensures |key| == |prefix| + |DOCUMENT_KEY|
    ensures key[..|prefix|] == prefix && key[|prefix|..] == DOCUMENT_KEY
  {
    prefix + DOCUMENT_KEY
  }

  /** Under one prefix, a key determines the actor and the sequence number it was made from. */
  lemma MakeKeyInjective(prefix: seq<byte>, a1: ActorId, s1: u64, a2: ActorId, s2: u64)
    requires MakeKey(prefix, a1, s1) == MakeKey(prefix, a2, s2)
    ensures a1 == a2 && s1 == s2
  {
    var k := MakeKey(prefix, a1, s1);
    assert a1.bytes == k[|prefix|..|k| - 8] == a2.bytes;
  }

  /** Prefixes of one length that differ never share a change key. */
  lemma MakeKeyPrefixesDisjoint(p1: seq<byte>, p2: seq<byte>, a1: ActorId, s1: u64, a2: ActorId, s2: u64)
    requires |p1| == |p2| && p1 != p2
    ensures MakeKey(p1, a1, s1) != MakeKey(p2, a2, s2)
  {
  }

  /** With actor ids of one width, different prefixes never share a change key. */
  lemma MakeKeyFixedWidthActorsDisjoint(p1: seq<byte>, p2: seq<byte>, a1: ActorId, s1: u64, a2: ActorId, s2: u64)
    requires |a1.bytes| == |a2.bytes| && p1 != p2
    ensures MakeKey(p1, a1, s1) != MakeKey(p2, a2, s2)
  {
    if MakeKey(p1, a1, s1) == MakeKey(p2, a2, s2) {
      MakeKeyPrefixesDisjoint(p1, p2, a1, s1, a2, s2);
    }
  }

  /**
   * Prefixes of different lengths can collide: prefix "1" with actor bytes [0x32, 0xAA] gives the
   * same key as prefix "12" with actor bytes [0xAA].
   */
  lemma MakeKeyPrefixesOfDifferentLengthCollide()
    ensures MakeKey([0x31], ActorId([0x32, 0xAA]), 7) == MakeKey([0x31, 0x32], ActorId([0xAA]), 7)
  {
    assert [0x31] + [0x32, 0xAA] == [0x31, 0x32] + [0xAA];
  }

  /** For one prefix and actor, keys sort in the numeric order of their sequence numbers. */
  lemma MakeKeyOrdered(prefix: seq<byte>, actorId: ActorId, s1: u64, s2: u64)
    ensures LexLess(MakeKey(prefix, actorId, s1), MakeKey(prefix, actorId, s2)) <==> s1 < s2
  {
    var head := prefix + actorId.bytes;
    assert MakeKey(prefix, actorId, s1) == head + U64ToBeBytes(s1);
    assert MakeKey(prefix, actorId, s2) == head + U64ToBeBytes(s2);
    LexLessCommonPrefix(head, U64ToBeBytes(s1), U64ToBeBytes(s2));
    U64ToBeBytesOrdered(s1, s2);
  }

  /** The document key is a function of the prefix alone and tells prefixes apart. */
  lemma MakeDocumentKeyInjective(p1: seq<byte>, p2: seq<byte>)
    requires MakeDocumentKey(p1) == MakeDocumentKey(p2)
    ensures p1 == p2
  {
    var k := MakeDocumentKey(p1);
    assert p1 == k[..|p1|] == p2;
  }
}
