/**
 The serializer and deserializer objects (pkg/bufferutil/serializer.go, deserializer.go), proved
 against the wire format of module Codec, and the fields of an Elements transaction output.
 */
module Streams {
  import opened Bytes
  import opened FreeLists
  import opened VarInts
  import opened Codec

  class Serializer {
    const list: FreeList
    const buffer: Buffer

    constructor (list: FreeList, buffer: Buffer)
      ensures this.list == list && this.buffer == buffer
    {
      this.list, this.buffer := list, buffer;
    }

    method WriteVarSlice(val: bytes)
      requires list.Valid() && |val| < TWO_TO_THE_64
      modifies list, list.Memory(), buffer
      ensures list.Valid() && fresh(list.Memory() - old(list.Memory()))
      ensures buffer.data == old(buffer.data) + EncodeVarSlice(val)
    {
      WriteVarInt(list, buffer, |val|);
      buffer.Write(val);
    }

    method WriteVector(v: seq<bytes>)
      requires list.Valid() && Representable(v)
      modifies list, list.Memory(), buffer
      ensures list.Valid() && fresh(list.Memory() - old(list.Memory()))
      ensures buffer.data == old(buffer.data) + EncodeVector(v)
    {
      hide EncodeVarInt, EncodeVarSlice;
      WriteVarInt(list, buffer, |v|);
      for i := 0 to |v|
        invariant list.Valid() && fresh(list.Memory() - old(list.Memory()))
        invariant buffer.data + EncodeElements(v[i..]) == old(buffer.data) + EncodeVector(v)
      {
        ghost var before := buffer.data;
        assert v[i..][1..] == v[i + 1..];
        WriteVarSlice(v[i]);
        assert buffer.data + EncodeElements(v[i + 1..]) == before + EncodeElements(v[i..]);
      }
      assert v[|v|..] == [];
    }
  }

  class Deserializer {
    const list: FreeList
    const buffer: Buffer

    constructor (list: FreeList, buffer: Buffer)
      ensures this.list == list && this.buffer == buffer
    {
      this.list, this.buffer := list, buffer;
    }

    method ReadSlice(n: nat) returns (res: Read<bytes>)
      modifies buffer
      ensures res == DecodeSlice(old(buffer.data), n) && buffer.data == res.rest
    {
      var decoded := new byte[n](_ => 0);
      ghost var was := buffer.data;
      assert decoded[..] == Zeros(n);
      var ok := buffer.Read(decoded);
      if !ok {
        return Fail(buffer.data);
      }
      if n <= |was| {
        assert decoded[..] == was[..n];
      } else {
        assert was[..|was|] == was;
        assert decoded[..] == was + Zeros(n - |was|);
      }
      res := Done(decoded[..], buffer.data);
    }

    method ReadVarSlice() returns (res: Read<bytes>)
      requires list.Valid()
      modifies list, list.Memory(), buffer
      ensures list.Valid() && fresh(list.Memory() - old(list.Memory()))
      ensures res == DecodeVarSlice(old(buffer.data)) && buffer.data == res.rest
    {
      var n := ReadVarInt(list, buffer);
      if n.Fail? {
        return Fail(n.rest);
      }
      res := ReadSlice(n.value);
    }

    method ReadVector() returns (res: Read<seq<bytes>>)
      requires list.Valid()
      modifies list, list.Memory(), buffer
      ensures list.Valid() && fresh(list.Memory() - old(list.Memory()))
      ensures res == DecodeVector(old(buffer.data)) && buffer.data == res.rest
    {
      hide DecodeVarInt, DecodeVarSlice;
      var n := ReadVarInt(list, buffer);
      if n.Fail? {
        return Fail(n.rest);
      }
      var v := [];
      PrependNothing(DecodeElements(buffer.data, n.value));
      for i := 0 to n.value
        invariant list.Valid() && fresh(list.Memory() - old(list.Memory()))
        invariant DecodeVector(old(buffer.data)) == Prepend(v, DecodeElements(buffer.data, n.value - i))
      {
        var val := ReadVarSlice();
        if val.Fail? {
          return Fail(val.rest);
        }
        PrependTwice(v, [val.value], DecodeElements(buffer.data, n.value - i - 1));
        v := v + [val.value];
      }
      assert v + [] == v;
      res := Done(v, buffer.data);
    }

    method ReadElementsValue() returns (res: Read<bytes>)
      requires list.Valid()
      modifies list, list.Memory(), buffer
      ensures list.Valid() && fresh(list.Memory() - old(list.Memory()))
      ensures res == DecodeField(old(buffer.data), VALUE_PAYLOAD) && buffer.data == res.rest
    {
      OneByte(buffer.data);
      var version := list.ReadUint(buffer, 1);
      if version.Fail? {
        return Fail(version.rest);
      }
      // prefix 0 stands for no amount and has no payload
      if version.value == 0 {
        assert [0] == [0] + version.rest[..0];
        return Done([0], version.rest);
      }
      var nextBytes: bytes := [];
      if version.value == 1 {
        var r := ReadSlice(8);
        if r.Fail? {
          return r;
        }
        nextBytes := r.value;
      }
      if version.value == 8 || version.value == 9 {
        var r := ReadSlice(32);
        if r.Fail? {
          return r;
        }
        nextBytes := r.value;
      }
      if nextBytes == [] {
        return Fail(buffer.data);
      }
      res := Done([version.value] + nextBytes, buffer.data);
    }

    method ReadElementsAsset() returns (res: Read<bytes>)
      requires list.Valid()
      modifies list, list.Memory(), buffer
      ensures list.Valid() && fresh(list.Memory() - old(list.Memory()))
      ensures res == DecodeField(old(buffer.data), ASSET_PAYLOAD) && buffer.data == res.rest
    {
      OneByte(buffer.data);
      var version := list.ReadUint(buffer, 1);
      if version.Fail? {
        return Fail(version.rest);
      }
      if version.value == 1 || version.value == 10 || version.value == 11 {
        var b := ReadSlice(32);
        if b.Fail? {
          return b;
        }
        return Done([version.value] + b.value, b.rest);
      }
      res := Fail(buffer.data);
    }

    method ReadElementsNonce() returns (res: Read<bytes>)
      requires list.Valid()
      modifies list, list.Memory(), buffer
      ensures list.Valid() && fresh(list.Memory() - old(list.Memory()))
      ensures res == DecodeField(old(buffer.data), NONCE_PAYLOAD) && buffer.data == res.rest
    {
      OneByte(buffer.data);
      var version := list.ReadUint(buffer, 1);
      if version.Fail? {
        return Fail(version.rest);
      }
      if 1 <= version.value <= 3 {
        var b := ReadSlice(32);
        if b.Fail? {
          return b;
        }
        return Done([version.value] + b.value, b.rest);
      }
      assert [version.value] == [version.value] + version.rest[..0];
      res := Done([version.value], version.rest);
    }
  }

  lemma PrependNothing(r: Read<seq<bytes>>)
    ensures Prepend([], r) == r
  {
    if r.Done? {
      assert [] + r.value == r.value;
    }
  }

  lemma PrependTwice(v: seq<bytes>, w: seq<bytes>, r: Read<seq<bytes>>)
    ensures Prepend(v, Prepend(w, r)) == Prepend(v + w, r)
  {
    if r.Done? {
      assert v + (w + r.value) == v + w + r.value;
    }
  }

  // ---- Prefixed fields ----

  /** The number of bytes behind each prefix, None for a prefix that is not allowed. */
  type Layout = byte -> Option<nat>

  const VALUE_PAYLOAD: Layout :=
    (version: byte) => if version == 0 then Some(0) else if version == 1 then Some(8)
                       else if version == 8 || version == 9 then Some(32) else None
  const ASSET_PAYLOAD: Layout :=
    (version: byte) => if version == 1 || version == 10 || version == 11 then Some(32) else None
  const NONCE_PAYLOAD: Layout :=
    (version: byte) => if 1 <= version <= 3 then Some(32) else Some(0)

  function DecodeField(s: bytes, payload: Layout): Read<bytes> {
    if s == [] then Fail([])
    else match payload(s[0])
      case None => Fail(s[1..])
      case Some(n) =>
        match DecodeSlice(s[1..], n)
        case Fail(rest) => Fail(rest)
        case Done(b, rest) => Done([s[0]] + b, rest)
  }

  /** A field of the layout: an allowed prefix and as many bytes as it calls for. */
  predicate WellFormedField(f: bytes, payload: Layout) {
    f != [] && payload(f[0]).Some? && |f| == 1 + payload(f[0]).value
  }

  /** s is f and then rest, short of m zero bytes at the end of a payload that is not all missing. */
  ghost predicate FieldCompletedBy(s: bytes, m: nat, f: bytes, rest: bytes) {
    f != [] && CompletedBy(s, m, f, rest, |f| - 1)
  }

  lemma FieldSound(s: bytes, payload: Layout) returns (m: nat)
    requires DecodeField(s, payload).Done?
    ensures var r := DecodeField(s, payload);
            WellFormedField(r.value, payload) && FieldCompletedBy(s, m, r.value, r.rest)
  {
    var n, t := payload(s[0]).value, s[1..];
    m := if n <= |t| then 0 else n - |t|;
    assert s == [s[0]] + t;
    if n <= |t| {
      assert t == t[..n] + t[n..];
    }
  }

  lemma FieldComplete(s: bytes, payload: Layout, m: nat, f: bytes, rest: bytes)
    requires WellFormedField(f, payload) && FieldCompletedBy(s, m, f, rest)
    ensures DecodeField(s, payload) == Done(f, rest)
  {
    var b := f[1..];
    assert f == [f[0]] + b;
    assert s + Zeros(m) == [f[0]] + (b + rest);
    StripPrefix(s, m, [f[0]], b + rest);
    var t := s[1..];
    if m == 0 {
      assert t + Zeros(0) == t;
      assert t[..|b|] == b && t[|b|..] == rest;
    } else {
      assert t + Zeros(|b| - |t|) == b + rest == b;
    }
  }

  /**
   A field reads back as f, leaving rest, exactly when f is well formed and the input is f and rest,
   or f without some zero bytes at its end, at least one byte of payload being present.
   */
  lemma FieldExactly(s: bytes, payload: Layout, f: bytes, rest: bytes)
    ensures DecodeField(s, payload) == Done(f, rest) <==>
            WellFormedField(f, payload) && exists m: nat :: FieldCompletedBy(s, m, f, rest)
  {
    if DecodeField(s, payload) == Done(f, rest) {
      var m := FieldSound(s, payload);
    }
    if WellFormedField(f, payload) {
      if m: nat :| FieldCompletedBy(s, m, f, rest) {
        FieldComplete(s, payload, m, f, rest);
      }
    }
  }

  /** An Elements value: nothing, an explicit amount, or a commitment of 32 bytes. */
  lemma ValueExactly(s: bytes, f: bytes, rest: bytes)
    ensures DecodeField(s, VALUE_PAYLOAD) == Done(f, rest) <==>
            && f != []
            && ((f[0] == 0 && |f| == 1) || (f[0] == 1 && |f| == 9) || (f[0] in {8, 9} && |f| == 33))
            && exists m: nat :: FieldCompletedBy(s, m, f, rest)
  {
    FieldExactly(s, VALUE_PAYLOAD, f, rest);
  }

  /** An Elements asset: 32 bytes behind one of three prefixes. */
  lemma AssetExactly(s: bytes, f: bytes, rest: bytes)
    ensures DecodeField(s, ASSET_PAYLOAD) == Done(f, rest) <==>
            |f| == 33 && f[0] in {1, 10, 11} && exists m: nat :: FieldCompletedBy(s, m, f, rest)
  {
    FieldExactly(s, ASSET_PAYLOAD, f, rest);
  }

  /** An Elements nonce: 32 bytes behind one of three prefixes, any other prefix alone. */
  lemma NonceExactly(s: bytes, f: bytes, rest: bytes)
    ensures DecodeField(s, NONCE_PAYLOAD) == Done(f, rest) <==>
            && f != [] && |f| == (if f[0] in {1, 2, 3} then 33 else 1)
            && exists m: nat :: FieldCompletedBy(s, m, f, rest)
  {
    FieldExactly(s, NONCE_PAYLOAD, f, rest);
  }

  /** A field fails on an empty buffer, on a prefix that is not allowed, and where no byte of a payload is there. */
  lemma FieldFails(s: bytes, payload: Layout)
    ensures DecodeField(s, payload).Fail? <==>
            s == [] || payload(s[0]).None? || (payload(s[0]).value > 0 && |s| == 1)
    ensures DecodeField(s, payload).Fail? ==> DecodeField(s, payload).rest == if s == [] then [] else s[1..]
  {
  }
}
