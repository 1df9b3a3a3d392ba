/**
 The wire format of slices and vectors (pkg/bufferutil/serializer.go, deserializer.go): what the
 serializer emits, what the deserializer accepts, and exactly how the two are related. The reader
 of a slice does not insist on all of its bytes, so acceptance is wider than the image of the writer.
 */
module Codec {
  import opened Bytes
  import opened FreeLists
  import opened VarInts

  // ---- What the serializer emits ----

  /** Lengths a machine with 64-bit sizes can hold. */
  predicate Representable(v: seq<bytes>) {
    |v| < TWO_TO_THE_64 && forall i :: 0 <= i < |v| ==> |v[i]| < TWO_TO_THE_64
  }

  function EncodeVarSlice(x: bytes): (s: bytes)
    requires |x| < TWO_TO_THE_64
    ensures |s| == VarSliceSerializeSize(x)
  {
    EncodeVarInt(|x|) + x
  }

  function VarSliceSerializeSize(x: bytes): nat
    requires |x| < TWO_TO_THE_64
  {
    VarIntSerializeSize(|x|) + |x|
  }

  function EncodeElements(v: seq<bytes>): bytes
    requires forall i :: 0 <= i < |v| ==> |v[i]| < TWO_TO_THE_64
  {
    if v == [] then [] else EncodeVarSlice(v[0]) + EncodeElements(v[1..])
  }

  function EncodeVector(v: seq<bytes>): bytes
    requires Representable(v)
  {
    EncodeVarInt(|v|) + EncodeElements(v)
  }

  /** A vector of two short slices, such as a witness of script and control block, byte by byte. */
  lemma PairBytes(x: bytes, y: bytes)
    requires |x| <= 0xfc && |y| <= 0xfc
    ensures EncodeVector([x, y]) == [2, |x|] + x + [|y|] + y
  {
    hide EncodeVarInt;
    VarIntBytes(2);
    VarIntBytes(|x|);
    VarIntBytes(|y|);
    assert [x, y][1..] == [y] && [y][1..] == [];
    assert EncodeElements([y]) == EncodeVarSlice(y) + EncodeElements([]);
  }

  // ---- What the deserializer returns ----

  /** n bytes, zeros standing in for those the buffer lacks; only an empty buffer is an error. */
  function DecodeSlice(s: bytes, n: nat): (r: Read<bytes>)
    ensures r.Done? ==> |r.value| == n
  {
    if n <= |s| then Done(s[..n], s[n..])
    else if s == [] then Fail([])
    else Done(s + Zeros(n - |s|), [])
  }

  function DecodeVarSlice(s: bytes): (r: Read<bytes>)
    ensures r.Done? ==> |r.value| < TWO_TO_THE_64
  {
    match DecodeVarInt(s)
    case Fail(rest) => Fail(rest)
    case Done(n, rest) => DecodeSlice(rest, n)
  }

  function DecodeElements(s: bytes, n: nat): (r: Read<seq<bytes>>)
    ensures r.Done? ==> |r.value| == n && forall i :: 0 <= i < n ==> |r.value[i]| < TWO_TO_THE_64
    decreases n
  {
    if n == 0 then Done([], s)
    else match DecodeVarSlice(s)
      case Fail(rest) => Fail(rest)
      case Done(x, rest) => Prepend([x], DecodeElements(rest, n - 1))
  }

  function Prepend(v: seq<bytes>, r: Read<seq<bytes>>): Read<seq<bytes>> {
    match r
    case Done(w, rest) => Done(v + w, rest)
    case Fail(rest) => Fail(rest)
  }

  function DecodeVector(s: bytes): (r: Read<seq<bytes>>)
    ensures r.Done? ==> Representable(r.value)
  {
    match DecodeVarInt(s)
    case Fail(rest) => Fail(rest)
    case Done(n, rest) => DecodeElements(rest, n)
  }

  // ---- Acceptance, exactly ----

  /**
   s becomes `whole` followed by `rest` once m zero bytes are supplied, and those m bytes may be
   missing only from the end of the input, inside a last slice of which one byte at least is there.
   */
  ghost predicate CompletedBy(s: bytes, m: nat, whole: bytes, rest: bytes, lastLen: nat) {
    && s + Zeros(m) == whole + rest
    && (m > 0 ==> rest == [] && m < lastLen)
  }

  function LastLength(v: seq<bytes>): nat {
    if v == [] then 0 else |v[|v| - 1]|
  }

  lemma VarSliceSound(s: bytes) returns (m: nat)
    requires DecodeVarSlice(s).Done?
    ensures var r := DecodeVarSlice(s); CompletedBy(s, m, EncodeVarSlice(r.value), r.rest, |r.value|)
  {
    VarIntCanonical(s);
    var n, t := DecodeVarInt(s).value, DecodeVarInt(s).rest;
    if n <= |t| {
      assert t == t[..n] + t[n..];
      assert s + Zeros(0) == EncodeVarInt(n) + t[..n] + t[n..];
      return 0;
    }
    assert s + Zeros(n - |t|) == EncodeVarInt(n) + (t + Zeros(n - |t|)) + [];
    return n - |t|;
  }

  /** Cancels a common prefix on the left of a padded input. */
  lemma StripPrefix(s: bytes, m: nat, head: bytes, tail: bytes)
    requires s + Zeros(m) == head + tail && |head| <= |s|
    ensures s == head + s[|head|..]
    ensures s[|head|..] + Zeros(m) == tail
  {
    var padded := s + Zeros(m);
    assert s[..|head|] == padded[..|head|] == head;
    assert s[|head|..] + Zeros(m) == padded[|head|..] == tail;
  }

  lemma AddPrefix(m: nat, head: bytes, t: bytes, body: bytes, rest: bytes)
    requires t + Zeros(m) == body + rest
    ensures (head + t) + Zeros(m) == (head + body) + rest
  {
    assert (head + t) + Zeros(m) == head + (t + Zeros(m));
    assert (head + body) + rest == head + (body + rest);
  }

  lemma CancelPrefix(head: bytes, t: bytes, u: bytes)
    ensures head + t == head + u <==> t == u
  {
    assert (head + t)[|head|..] == t && (head + u)[|head|..] == u;
  }

  lemma VarSliceComplete(s: bytes, m: nat, x: bytes, rest: bytes)
    requires |x| < TWO_TO_THE_64 && CompletedBy(s, m, EncodeVarSlice(x), rest, |x|)
    ensures DecodeVarSlice(s) == Done(x, rest)
  {
    var head := EncodeVarInt(|x|);
    assert s + Zeros(m) == head + (x + rest);
    StripPrefix(s, m, head, x + rest);
    var t := s[|head|..];
    VarIntFraming(|x|, t);
    if m == 0 {
      assert t == x + rest;
    } else {
      assert t + Zeros(|x| - |t|) == x;
    }
  }

  lemma {:induction false} ElementsSound(s: bytes, n: nat) returns (m: nat)
    requires DecodeElements(s, n).Done?
    ensures var r := DecodeElements(s, n); CompletedBy(s, m, EncodeElements(r.value), r.rest, LastLength(r.value))
    decreases n
  {
    if n == 0 {
      assert s + Zeros(0) == [] + s;
      return 0;
    }
    var x, t := DecodeVarSlice(s).value, DecodeVarSlice(s).rest;
    var m0 := VarSliceSound(s);
    var m1 := ElementsSound(t, n - 1);
    var w := DecodeElements(t, n - 1).value;
    if w == [] {
      SingleElement(x);
      return m0;
    }
    // a padded slice uses the input up, so no further one could have been read
    NothingLeft(n - 1);
    SoundCons(s, m1, x, t, w, DecodeElements(t, n - 1).rest);
    return m1;
  }

  lemma NothingLeft(n: nat)
    requires n > 0
    ensures DecodeElements([], n).Fail?
  {
    assert DecodeVarInt([]).Fail?;
  }

  lemma SingleElement(x: bytes)
    requires |x| < TWO_TO_THE_64
    ensures EncodeElements([x]) == EncodeVarSlice(x)
  {
    assert [x][1..] == [];
    assert EncodeElements([]) == [];
  }

  lemma SoundCons(s: bytes, m: nat, x: bytes, t: bytes, w: seq<bytes>, rest: bytes)
    requires |x| < TWO_TO_THE_64 && forall i :: 0 <= i < |w| ==> |w[i]| < TWO_TO_THE_64
    requires w != [] && CompletedBy(s, 0, EncodeVarSlice(x), t, |x|)
    requires CompletedBy(t, m, EncodeElements(w), rest, LastLength(w))
    ensures CompletedBy(s, m, EncodeElements([x] + w), rest, LastLength([x] + w))
  {
    var head := EncodeVarSlice(x);
    assert ([x] + w)[1..] == w;
    assert s == head + t by {
      assert s + Zeros(0) == s;
    }
    AddPrefix(m, head, t, EncodeElements(w), rest);
  }

  lemma LastElementEncoded(v: seq<bytes>)
    requires v != [] && forall i :: 0 <= i < |v| ==> |v[i]| < TWO_TO_THE_64
    ensures LastLength(v) < |EncodeElements(v)|
  {
  }

  lemma VarSliceFraming(x: bytes, t: bytes)
    requires |x| < TWO_TO_THE_64
    ensures DecodeVarSlice(EncodeVarSlice(x) + t) == Done(x, t)
  {
    assert EncodeVarSlice(x) + t + Zeros(0) == EncodeVarSlice(x) + t;
    VarSliceComplete(EncodeVarSlice(x) + t, 0, x, t);
  }

  lemma DecodeCons(s: bytes, x: bytes, t: bytes, n: nat)
    requires DecodeVarSlice(s) == Done(x, t)
    ensures DecodeElements(s, n + 1) == Prepend([x], DecodeElements(t, n))
  {
  }

  /** A vector input short only inside its last element starts with its first element in full. */
  lemma HeadIsComplete(s: bytes, m: nat, head: bytes, w: seq<bytes>, rest: bytes) returns (t: bytes)
    requires w != [] && forall i :: 0 <= i < |w| ==> |w[i]| < TWO_TO_THE_64
    requires CompletedBy(s, m, head + EncodeElements(w), rest, LastLength(w))
    ensures s == head + t && CompletedBy(t, m, EncodeElements(w), rest, LastLength(w))
  {
    LastElementEncoded(w);
    assert s + Zeros(m) == head + (EncodeElements(w) + rest);
    StripPrefix(s, m, head, EncodeElements(w) + rest);
    t := s[|head|..];
  }

  lemma {:induction false} ElementsComplete(s: bytes, m: nat, v: seq<bytes>, rest: bytes)
    requires forall i :: 0 <= i < |v| ==> |v[i]| < TWO_TO_THE_64
    requires CompletedBy(s, m, EncodeElements(v), rest, LastLength(v))
    ensures DecodeElements(s, |v|) == Done(v, rest)
    decreases |v|
  {
    hide EncodeVarSlice, DecodeVarSlice;
    if v == [] {
      assert s + Zeros(0) == s;
      return;
    }
    var x, w := v[0], v[1..];
    assert v == [x] + w;
    if w == [] {
      SingleElement(x);
      VarSliceComplete(s, m, x, rest);
      DecodeCons(s, x, rest, 0);
    } else {
      var t := HeadIsComplete(s, m, EncodeVarSlice(x), w, rest);
      VarSliceFraming(x, t);
      ElementsComplete(t, m, w, rest);
      DecodeCons(s, x, t, |w|);
    }
  }

  lemma VectorSound(s: bytes) returns (m: nat)
    requires DecodeVector(s).Done?
    ensures var r := DecodeVector(s); CompletedBy(s, m, EncodeVector(r.value), r.rest, LastLength(r.value))
  {
    VarIntCanonical(s);
    var n, t := DecodeVarInt(s).value, DecodeVarInt(s).rest;
    m := ElementsSound(t, n);
    var r := DecodeElements(t, n);
    AddPrefix(m, EncodeVarInt(n), t, EncodeElements(r.value), r.rest);
  }

  lemma VectorComplete(s: bytes, m: nat, v: seq<bytes>, rest: bytes)
    requires Representable(v) && CompletedBy(s, m, EncodeVector(v), rest, LastLength(v))
    ensures DecodeVector(s) == Done(v, rest)
  {
    hide EncodeVarInt, DecodeVarInt;
    var head := EncodeVarInt(|v|);
    if v != [] {
      LastElementEncoded(v);
    }
    assert s + Zeros(m) == head + (EncodeElements(v) + rest);
    StripPrefix(s, m, head, EncodeElements(v) + rest);
    VarIntFraming(|v|, s[|head|..]);
    ElementsComplete(s[|head|..], m, v, rest);
  }

  /**
   ReadVector returns v and leaves rest exactly when the input is the encoding of v followed by
   rest, or that encoding short of some zero bytes at the end of its last slice.
   */
  lemma VectorExactly(s: bytes, v: seq<bytes>, rest: bytes)
    requires Representable(v)
    ensures DecodeVector(s) == Done(v, rest) <==>
            exists m: nat :: CompletedBy(s, m, EncodeVector(v), rest, LastLength(v))
  {
    if DecodeVector(s) == Done(v, rest) {
      var m := VectorSound(s);
    }
    if m: nat :| CompletedBy(s, m, EncodeVector(v), rest, LastLength(v)) {
      VectorComplete(s, m, v, rest);
    }
  }

  /** Round trip with framing: whatever follows the vector is left in the buffer, untouched. */
  lemma VectorFraming(v: seq<bytes>, rest: bytes)
    requires Representable(v)
    ensures DecodeVector(EncodeVector(v) + rest) == Done(v, rest)
  {
    var s := EncodeVector(v) + rest;
    assert s + Zeros(0) == s;
    VectorComplete(s, 0, v, rest);
  }

  /** Two different vectors never have encodings of which one starts with the other. */
  lemma EncodingIsPrefixFree(v: seq<bytes>, w: seq<bytes>)
    requires Representable(v) && Representable(w)
    requires EncodeVector(v) <= EncodeVector(w)
    ensures v == w
  {
    hide EncodeVarInt, DecodeVarInt;
    var rest := EncodeVector(w)[|EncodeVector(v)|..];
    VectorFraming(v, rest);
    VectorFraming(w, []);
    assert EncodeVector(v) + rest == EncodeVector(w) + [];
  }

  // ---- Short slices and unique decoding ----

  /** Some slice of the n elements was read from fewer bytes than it declares. */
  predicate ShortElements(s: bytes, n: nat)
    decreases n
  {
    n > 0 && DecodeVarInt(s).Done? &&
    var t := DecodeVarInt(s).rest;
    var r := DecodeSlice(t, DecodeVarInt(s).value);
    |t| < DecodeVarInt(s).value || (r.Done? && ShortElements(r.rest, n - 1))
  }

  predicate ShortVector(s: bytes) {
    DecodeVarInt(s).Done? && ShortElements(DecodeVarInt(s).rest, DecodeVarInt(s).value)
  }

  lemma {:induction false} ElementsConsumed(s: bytes, n: nat)
    requires DecodeElements(s, n).Done?
    ensures var r := DecodeElements(s, n); !ShortElements(s, n) <==> s == EncodeElements(r.value) + r.rest
    decreases n
  {
    if n > 0 {
      var t := DecodeVarInt(s).rest;
      var x, u := DecodeVarSlice(s).value, DecodeVarSlice(s).rest;
      var w, rest := DecodeElements(u, n - 1).value, DecodeElements(u, n - 1).rest;
      ElementsConsumed(u, n - 1);
      VarIntCanonical(s);
      ConsumedCons(s, t, x, u, w, rest);
    }
  }

  lemma ConsumedCons(s: bytes, t: bytes, x: bytes, u: bytes, w: seq<bytes>, rest: bytes)
    requires |x| < TWO_TO_THE_64 && forall i :: 0 <= i < |w| ==> |w[i]| < TWO_TO_THE_64
    requires s == EncodeVarInt(|x|) + t && DecodeSlice(t, |x|) == Done(x, u)
    ensures s == EncodeElements([x] + w) + rest <==> |x| <= |t| && u == EncodeElements(w) + rest
  {
    hide EncodeVarInt;
    var head, tail := EncodeVarInt(|x|), EncodeElements(w) + rest;
    assert ([x] + w)[1..] == w;
    assert EncodeElements([x] + w) + rest == head + (x + tail);
    CancelPrefix(head, t, x + tail);
    if |x| <= |t| {
      assert t == x + u;
      CancelPrefix(x, u, tail);
    }
  }

  /** A successful read without a short slice consumed exactly the encoding of its result, and only then. */
  lemma UniqueDecoding(s: bytes)
    requires DecodeVector(s).Done?
    ensures var r := DecodeVector(s); !ShortVector(s) <==> s == EncodeVector(r.value) + r.rest
  {
    var n, t, r := DecodeVarInt(s).value, DecodeVarInt(s).rest, DecodeVector(s);
    VarIntCanonical(s);
    ElementsConsumed(t, n);
    var head := EncodeVarInt(n);
    assert EncodeVector(r.value) + r.rest == head + (EncodeElements(r.value) + r.rest);
    CancelPrefix(head, t, EncodeElements(r.value) + r.rest);
  }

  // ---- Truncation ----

  /** v with the last d bytes of its last element turned into zeros. */
  function WithTailZeroed(v: seq<bytes>, d: nat): seq<bytes>
    requires d <= LastLength(v)
  {
    if v == [] then [] else
      var x := v[|v| - 1];
      v[..|v| - 1] + [x[..|x| - d] + Zeros(d)]
  }

  /** What reading yields when the last d bytes are cut off. */
  ghost predicate CutOutcome(r: Read<seq<bytes>>, v: seq<bytes>, d: nat) {
    if d < LastLength(v) then r == Done(WithTailZeroed(v, d), []) else r.Fail?
  }

  lemma VarSliceTruncated(x: bytes, k: nat)
    requires |x| < TWO_TO_THE_64 && k < |EncodeVarSlice(x)|
    ensures var d := |EncodeVarSlice(x)| - k;
            DecodeVarSlice(EncodeVarSlice(x)[..k]) == if d < |x| then Done(x[..|x| - d] + Zeros(d), []) else Fail([])
  {
    var head := EncodeVarInt(|x|);
    var p := EncodeVarSlice(x)[..k];
    if k < |head| {
      assert p == head[..k];
      VarIntTruncated(|x|, k);
    } else {
      assert p == head + x[..k - |head|];
      VarIntFraming(|x|, x[..k - |head|]);
    }
  }

  /** The cut falls inside the first element: only if it is also the last one can it be read. */
  lemma TruncatedHere(x: bytes, w: seq<bytes>, k: nat)
    requires |x| < TWO_TO_THE_64 && forall i :: 0 <= i < |w| ==> |w[i]| < TWO_TO_THE_64
    requires k < |EncodeVarSlice(x)|
    ensures CutOutcome(DecodeElements(EncodeVarSlice(x)[..k], |w| + 1), [x] + w,
                       |EncodeVarSlice(x)| + |EncodeElements(w)| - k)
  {
    var p, d := EncodeVarSlice(x)[..k], |EncodeVarSlice(x)| - k;
    VarSliceTruncated(x, k);
    if w == [] {
      if d < |x| {
        var y := x[..|x| - d] + Zeros(d);
        DecodeCons(p, y, [], 0);
        assert WithTailZeroed([x] + w, d) == [y] + [];
      }
    } else {
      LastElementEncoded(w);
      NothingLeft(|w|);
    }
  }

  lemma ZeroedCons(x: bytes, w: seq<bytes>, d: nat)
    requires w != [] && d <= LastLength(w)
    ensures LastLength([x] + w) == LastLength(w)
    ensures [x] + WithTailZeroed(w, d) == WithTailZeroed([x] + w, d)
  {
  }

  lemma {:induction false} ElementsTruncated(v: seq<bytes>, k: nat)
    requires forall i :: 0 <= i < |v| ==> |v[i]| < TWO_TO_THE_64
    requires k < |EncodeElements(v)|
    ensures CutOutcome(DecodeElements(EncodeElements(v)[..k], |v|), v, |EncodeElements(v)| - k)
    decreases |v|
  {
    hide EncodeVarSlice, DecodeVarSlice, WithTailZeroed;
    var x, w := v[0], v[1..];
    var head, tail := EncodeVarSlice(x), EncodeElements(w);
    assert v == [x] + w;
    if k < |head| {
      assert EncodeElements(v)[..k] == head[..k];
      TruncatedHere(x, w, k);
    } else {
      var q, d := tail[..k - |head|], |EncodeElements(v)| - k;
      assert EncodeElements(v)[..k] == head + q;
      ElementsTruncated(w, k - |head|);
      VarSliceFraming(x, q);
      DecodeCons(head + q, x, q, |w|);
      ZeroedCons(x, w, if d < LastLength(w) then d else 0);
    }
  }

  /**
   A vector cut short by d bytes is rejected, except when the cut falls inside the last element
   and leaves at least one of its bytes: then it reads back with that element's missing tail zeroed.
   */
  lemma VectorTruncated(v: seq<bytes>, d: nat)
    requires Representable(v) && 0 < d <= |EncodeVector(v)|
    ensures CutOutcome(DecodeVector(EncodeVector(v)[..|EncodeVector(v)| - d]), v, d)
  {
    hide EncodeVarInt, DecodeVarInt;
    var head, body := EncodeVarInt(|v|), EncodeElements(v);
    var k := |EncodeVector(v)| - d;
    var p := EncodeVector(v)[..k];
    if v != [] {
      LastElementEncoded(v);
    }
    if k < |head| {
      assert p == head[..k];
      VarIntTruncated(|v|, k);
    } else {
      assert p == head + body[..k - |head|];
      VarIntFraming(|v|, body[..k - |head|]);
      ElementsTruncated(v, k - |head|);
    }
  }
}
