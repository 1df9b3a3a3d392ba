/**
 Bitcoin's CompactSize integers (pkg/bufferutil/bufferutil.go): the canonical encoding, the
 reader and writer over the shared free list, and the proof that they are exact inverses.
 */
module VarInts {
  import opened Bytes
  import opened FreeLists

  function EncodeVarInt(v: uint64): (s: bytes)
    ensures |s| == VarIntSerializeSize(v)
  {
    if v < 0xfd then [v]
    else if v <= 0xffff then [0xfd] + LittleEndian(v, 2)
    else if v <= 0xffff_ffff then [0xfe] + LittleEndian(v, 4)
    else [0xff] + LittleEndian(v, 8)
  }

  function VarIntSerializeSize(v: uint64): (size: nat)
    ensures size in {1, 3, 5, 9}
  {
    if v < 0xfd then 1 else if v <= 0xffff then 3 else if v <= 0xffff_ffff then 5 else 9
  }

  /** A fixed-width number that must not have fitted a shorter form. */
  function DecodeAtLeast(s: bytes, k: nat, min: nat): (r: Read<uint64>)
    requires k in {2, 4, 8}
  {
    match DecodeUint(s, k)
    case Fail(rest) => Fail(rest)
    case Done(v, rest) =>
      FromLittleEndianInverse(s[..k]);
      PowValues();
      if v < min then Fail(rest) else Done(v, rest)
  }

  function DecodeVarInt(s: bytes): Read<uint64> {
    if s == [] then Fail([])
    else if s[0] == 0xff then DecodeAtLeast(s[1..], 8, 0x1_0000_0000)
    else if s[0] == 0xfe then DecodeAtLeast(s[1..], 4, 0x1_0000)
    else if s[0] == 0xfd then DecodeAtLeast(s[1..], 2, 0xfd)
    else Done(s[0], s[1..])
  }

  /** The encoding, byte by byte. */
  lemma VarIntBytes(v: uint64)
    ensures v <= 0xfc ==> EncodeVarInt(v) == [v]
    ensures 0xfd <= v <= 0xffff ==> EncodeVarInt(v) == [0xfd, v % 0x100, v / 0x100]
    ensures 0x1_0000 <= v <= 0xffff_ffff ==>
              EncodeVarInt(v) == [0xfe, v % 0x100, v / 0x100 % 0x100, v / 0x1_0000 % 0x100, v / 0x100_0000]
    ensures 0x1_0000_0000 <= v ==>
              EncodeVarInt(v) == [0xff, v % 0x100, v / 0x100 % 0x100, v / 0x1_0000 % 0x100, v / 0x100_0000 % 0x100,
                                  v / 0x1_0000_0000 % 0x100, v / 0x100_0000_0000 % 0x100,
                                  v / 0x1_0000_0000_0000 % 0x100, v / 0x100_0000_0000_0000]
  {
    hide LittleEndian;
    if v <= 0xffff {
      LittleEndianBytes(v);
    } else if v <= 0xffff_ffff {
      FourBytes(v);
    } else {
      EightBytes(v);
    }
  }

  lemma EightBytes(v: uint64)
    ensures LittleEndian(v, 8) == [v % 0x100, v / 0x100 % 0x100, v / 0x1_0000 % 0x100, v / 0x100_0000 % 0x100,
                                   v / 0x1_0000_0000 % 0x100, v / 0x100_0000_0000 % 0x100,
                                   v / 0x1_0000_0000_0000 % 0x100, v / 0x100_0000_0000_0000]
  {
    hide LittleEndian;
    LittleEndianBytes(v);
    FourBytes(v / 0x1_0000_0000);
    HighBytes(v);
  }

  lemma HighBytes(v: uint64)
    ensures v / 0x1_0000_0000 / 0x100 == v / 0x100_0000_0000
    ensures v / 0x1_0000_0000 / 0x1_0000 == v / 0x1_0000_0000_0000
    ensures v / 0x1_0000_0000 / 0x100_0000 == v / 0x100_0000_0000_0000 < 0x100
  {
  }

  // ---- Both directions of the bijection, and what a cut does ----

  lemma DecodeAtLeastOfEncoding(v: uint64, k: nat, min: nat, t: bytes)
    requires k in {2, 4, 8} && min <= v < Pow256(k)
    ensures DecodeAtLeast(LittleEndian(v, k) + t, k, min) == Done(v, t)
  {
    LittleEndianInverse(v, k);
    assert (LittleEndian(v, k) + t)[..k] == LittleEndian(v, k);
    assert (LittleEndian(v, k) + t)[k..] == t;
  }

  /** The three tagged forms: after the tag comes a number that needs its k bytes. */
  lemma TaggedFraming(tag: byte, v: uint64, k: nat, min: nat, t: bytes)
    requires (tag, k, min) in {(0xfd, 2, 0xfd), (0xfe, 4, 0x1_0000), (0xff, 8, 0x1_0000_0000)}
    requires min <= v < Pow256(k)
    ensures DecodeVarInt([tag] + LittleEndian(v, k) + t) == Done(v, t)
  {
    var s := [tag] + LittleEndian(v, k) + t;
    assert s[1..] == LittleEndian(v, k) + t;
    DecodeAtLeastOfEncoding(v, k, min, t);
  }

  /** readVarInt inverts writeVarInt and stops exactly behind it. */
  lemma VarIntFraming(v: uint64, t: bytes)
    ensures DecodeVarInt(EncodeVarInt(v) + t) == Done(v, t)
  {
    PowValues();
    if v < 0xfd {
      assert (EncodeVarInt(v) + t)[1..] == t;
    } else if v <= 0xffff {
      TaggedFraming(0xfd, v, 2, 0xfd, t);
    } else if v <= 0xffff_ffff {
      TaggedFraming(0xfe, v, 4, 0x1_0000, t);
    } else {
      TaggedFraming(0xff, v, 8, 0x1_0000_0000, t);
    }
  }

  lemma DecodeAtLeastInverse(s: bytes, k: nat, min: nat)
    requires k in {2, 4, 8} && DecodeAtLeast(s, k, min).Done?
    ensures var r := DecodeAtLeast(s, k, min);
            min <= r.value < Pow256(k) && s == LittleEndian(r.value, k) + r.rest
  {
    FromLittleEndianInverse(s[..k]);
    assert s == s[..k] + s[k..];
  }

  /** Only the encoding the writer would have produced is accepted. */
  lemma VarIntCanonical(s: bytes)
    requires DecodeVarInt(s).Done?
    ensures s == EncodeVarInt(DecodeVarInt(s).value) + DecodeVarInt(s).rest
  {
    PowValues();
    assert s == [s[0]] + s[1..];
    if s[0] == 0xff {
      DecodeAtLeastInverse(s[1..], 8, 0x1_0000_0000);
    } else if s[0] == 0xfe {
      DecodeAtLeastInverse(s[1..], 4, 0x1_0000);
    } else if s[0] == 0xfd {
      DecodeAtLeastInverse(s[1..], 2, 0xfd);
    }
  }

  /** A value is decoded exactly from its encoding followed by the rest, and from nothing else. */
  lemma VarIntExactly(s: bytes, v: uint64, rest: bytes)
    ensures DecodeVarInt(s) == Done(v, rest) <==> s == EncodeVarInt(v) + rest
  {
    VarIntFraming(v, rest);
    if DecodeVarInt(s) == Done(v, rest) {
      VarIntCanonical(s);
    }
  }

  /** No strict prefix of an encoding is accepted, and the failed read drains it. */
  lemma VarIntTruncated(v: uint64, k: nat)
    requires k < |EncodeVarInt(v)|
    ensures DecodeVarInt(EncodeVarInt(v)[..k]) == Fail([])
  {
  }

  /** A read fails for want of bytes, all being consumed, or on a form that is too long, behind that form. */
  lemma VarIntFails(s: bytes)
    requires DecodeVarInt(s).Fail?
    ensures s != [] ==> s[0] in {0xfd, 0xfe, 0xff}
    ensures var k := if s == [] then 0 else if s[0] == 0xfd then 3 else if s[0] == 0xfe then 5 else 9;
            DecodeVarInt(s).rest == if s == [] || |s| < k then [] else s[k..]
  {
  }

  // ---- The writer and the reader ----

  method WriteVarInt(list: FreeList, w: Buffer, v: uint64)
    requires list.Valid()
    modifies list, list.Memory(), w
    ensures list.Valid() && fresh(list.Memory() - old(list.Memory()))
    ensures w.data == old(w.data) + EncodeVarInt(v)
  {
    if v < 0xfd {
      list.WriteUint(w, v, 1);
      OneByteEncoding(v);
    } else if v <= 0xffff {
      WriteTagged(list, w, 0xfd, v, 2);
    } else if v <= 0xffff_ffff {
      WriteTagged(list, w, 0xfe, v, 4);
    } else {
      WriteTagged(list, w, 0xff, v, 8);
    }
  }

  /** The discriminant byte, then the value in k bytes. */
  method WriteTagged(list: FreeList, w: Buffer, tag: byte, v: uint64, k: nat)
    requires list.Valid() && 0 < k <= 8
    modifies list, list.Memory(), w
    ensures list.Valid() && fresh(list.Memory() - old(list.Memory()))
    ensures w.data == old(w.data) + ([tag] + LittleEndian(v, k))
  {
    list.WriteUint(w, tag, 1);
    OneByteEncoding(tag);
    list.WriteUint(w, v, k);
  }

  lemma OneByte(s: bytes)
    ensures DecodeUint(s, 1) == if s == [] then Fail([]) else Done(s[0], s[1..])
  {
    if s != [] {
      assert s[..1] == [s[0]];
      assert FromLittleEndian([s[0]]) == s[0] + 256 * FromLittleEndian([]);
    }
  }

  method ReadVarInt(list: FreeList, r: Buffer) returns (res: Read<uint64>)
    requires list.Valid()
    modifies list, list.Memory(), r
    ensures list.Valid() && fresh(list.Memory() - old(list.Memory()))
    ensures res == DecodeVarInt(old(r.data)) && r.data == res.rest
  {
    OneByte(r.data);
    var discriminant := list.ReadUint(r, 1);
    if discriminant.Fail? {
      return Fail(discriminant.rest);
    }
    var k, min := 0, 0;
    match discriminant.value {
      case 0xff => k, min := 8, 0x1_0000_0000;
      case 0xfe => k, min := 4, 0x1_0000;
      case 0xfd => k, min := 2, 0xfd;
      case v => return Done(v, discriminant.rest);
    }
    ghost var body := r.data;
    var rv := list.ReadUint(r, k);
    if rv.Fail? {
      return Fail(rv.rest);
    }
    FromLittleEndianInverse(body[..k]);
    PowValues();
    // a shorter form exists for every number below min, so it is refused here
    res := if rv.value < min then Fail(rv.rest) else Done(rv.value, rv.rest);
  }
}
