/**
 Tapscript, as far as the covenant of a trade contract uses it: canonical pushes, a parser from
 bytes to operations, and the stack machine with the Elements output-introspection opcodes.
 */
module Scripts {
  import opened Bytes
  import opened ScriptNums

  const OP_0: byte := 0x00
  const OP_PUSHDATA1: byte := 0x4c
  const OP_PUSHDATA2: byte := 0x4d
  const OP_PUSHDATA4: byte := 0x4e
  const OP_1NEGATE: byte := 0x4f
  const OP_1: byte := 0x51
  const OP_16: byte := 0x60
  const OP_DROP: byte := 0x75
  const OP_EQUAL: byte := 0x87
  const OP_EQUALVERIFY: byte := 0x88
  const OP_INSPECTOUTPUTASSET: byte := 0xce
  const OP_INSPECTOUTPUTVALUE: byte := 0xcf
  const OP_INSPECTOUTPUTSCRIPTPUBKEY: byte := 0xd1

  const MAX_SCRIPT_ELEMENT_SIZE := 520
  const MAX_SCRIPT_SIZE := 10000

  // ---- Bytes and operations ----

  datatype Op = Push(data: bytes) | Drop | Equal | EqualVerify
              | InspectOutputAsset | InspectOutputValue | InspectOutputScriptPubKey

  /** The push the script builder emits: the shortest, small numbers going to their own opcodes. */
  function EmitPush(d: bytes): (s: bytes)
    ensures 0 < |s| <= |d| + 5
  {
    if d == [] || d == [0] then [OP_0]
    else if |d| == 1 && d[0] <= 16 then [OP_1 - 1 + d[0]]
    else if d == [0x81] then [OP_1NEGATE]
    else if |d| < OP_PUSHDATA1 then [|d|] + d
    else if |d| <= 0xff then [OP_PUSHDATA1, |d|] + d
    else if |d| <= 0xffff then [OP_PUSHDATA2] + LittleEndian(|d|, 2) + d
    else [OP_PUSHDATA4] + LittleEndian(|d|, 4) + d
  }

  /** What EmitPush leaves on the stack: a single zero byte is taken for the number zero. */
  function Pushed(d: bytes): bytes {
    if d == [0] then [] else d
  }

  function Emit(op: Op): (s: bytes)
    ensures s != []
  {
    match op
    case Push(d) => EmitPush(d)
    case Drop => [OP_DROP]
    case Equal => [OP_EQUAL]
    case EqualVerify => [OP_EQUALVERIFY]
    case InspectOutputAsset => [OP_INSPECTOUTPUTASSET]
    case InspectOutputValue => [OP_INSPECTOUTPUTVALUE]
    case InspectOutputScriptPubKey => [OP_INSPECTOUTPUTSCRIPTPUBKEY]
  }

  /** The script that consists of these operations. */
  function Assemble(ops: seq<Op>): bytes {
    if ops == [] then [] else Emit(ops[0]) + Assemble(ops[1..])
  }

  /** Operations as they come back from the bytes. */
  function NormalAll(ops: seq<Op>): (r: seq<Op>)
    ensures |r| == |ops|
    ensures forall i :: 0 <= i < |ops| ==> r[i] == if ops[i].Push? then Push(Pushed(ops[i].data)) else ops[i]
  {
    seq(|ops|, i requires 0 <= i < |ops| => if ops[i].Push? then Push(Pushed(ops[i].data)) else ops[i])
  }

  /** Every push is of an element small enough for the stack. */
  predicate Pushable(ops: seq<Op>) {
    forall i :: 0 <= i < |ops| && ops[i].Push? ==> |ops[i].data| <= MAX_SCRIPT_ELEMENT_SIZE
  }

  datatype ParsedOp = Malformed | Parsed(op: Op, rest: bytes)

  function TakePush(s: bytes, n: nat): ParsedOp {
    if n <= |s| && n <= MAX_SCRIPT_ELEMENT_SIZE then Parsed(Push(s[..n]), s[n..]) else Malformed
  }

  function TakeSizedPush(s: bytes, width: nat): ParsedOp {
    if width <= |s| then TakePush(s[width..], FromLittleEndian(s[..width])) else Malformed
  }

  /** The first operation of a script; opcodes outside this subset count as malformed. */
  function ParseOp(s: bytes): (r: ParsedOp)
    requires s != []
    ensures r.Parsed? ==> |r.rest| < |s|
  {
    var code, t := s[0], s[1..];
    if code < OP_PUSHDATA1 then TakePush(t, code)
    else if code == OP_PUSHDATA1 then TakeSizedPush(t, 1)
    else if code == OP_PUSHDATA2 then TakeSizedPush(t, 2)
    else if code == OP_PUSHDATA4 then TakeSizedPush(t, 4)
    else if code == OP_1NEGATE then Parsed(Push([0x81]), t)
    else if OP_1 <= code <= OP_16 then Parsed(Push([code - OP_1 + 1]), t)
    else if code == OP_DROP then Parsed(Drop, t)
    else if code == OP_EQUAL then Parsed(Equal, t)
    else if code == OP_EQUALVERIFY then Parsed(EqualVerify, t)
    else if code == OP_INSPECTOUTPUTASSET then Parsed(InspectOutputAsset, t)
    else if code == OP_INSPECTOUTPUTVALUE then Parsed(InspectOutputValue, t)
    else if code == OP_INSPECTOUTPUTSCRIPTPUBKEY then Parsed(InspectOutputScriptPubKey, t)
    else Malformed
  }

  function Parse(s: bytes): Option<seq<Op>>
    decreases |s|
  {
    if s == [] then Some([])
    else match ParseOp(s)
      case Malformed => None
      case Parsed(op, rest) => PrependOp([op], Parse(rest))
  }

  function PrependOp(ops: seq<Op>, rest: Option<seq<Op>>): Option<seq<Op>> {
    match rest
    case None => None
    case Some(more) => Some(ops + more)
  }

  lemma ParseSmallPush(d: bytes, rest: bytes)
    requires d == [] || (|d| == 1 && (d[0] <= 16 || d[0] == 0x81))
    ensures ParseOp(EmitPush(d) + rest) == Parsed(Push(Pushed(d)), rest)
  {
    hide FromLittleEndian, LittleEndian;
    assert (EmitPush(d) + rest)[1..] == rest;
    if d == [] || d[0] == 0 {
      assert rest[..0] == [] && rest[0..] == rest;
    } else {
      assert d == [d[0]];
    }
  }

  /** A push is parsed back as the data, except that [0x00] comes back empty. */
  lemma ParseEmittedPush(d: bytes, rest: bytes)
    requires |d| <= MAX_SCRIPT_ELEMENT_SIZE
    ensures ParseOp(EmitPush(d) + rest) == Parsed(Push(Pushed(d)), rest)
  {
    hide FromLittleEndian, LittleEndian;
    var s := EmitPush(d) + rest;
    if d == [] || (|d| == 1 && (d[0] <= 16 || d[0] == 0x81)) {
      ParseSmallPush(d, rest);
    } else if |d| < OP_PUSHDATA1 {
      assert s[1..] == d + rest;
      assert (d + rest)[..|d|] == d && (d + rest)[|d|..] == rest;
    } else {
      ParseSizedPush(d, rest);
    }
  }

  lemma ParseSizedPush(d: bytes, rest: bytes)
    requires OP_PUSHDATA1 <= |d| <= MAX_SCRIPT_ELEMENT_SIZE
    ensures ParseOp(EmitPush(d) + rest) == Parsed(Push(d), rest)
  {
    hide FromLittleEndian, LittleEndian;
    PowValues();
    if |d| <= 0xff {
      OneByteEncoding(|d|);
      assert [OP_PUSHDATA1, |d|] == [OP_PUSHDATA1] + [|d|];
      TaggedPush(OP_PUSHDATA1, 1, d, rest);
    } else {
      TaggedPush(OP_PUSHDATA2, 2, d, rest);
    }
  }

  lemma TaggedPush(code: byte, width: nat, d: bytes, rest: bytes)
    requires (code, width) in {(OP_PUSHDATA1, 1), (OP_PUSHDATA2, 2)}
    requires |d| <= MAX_SCRIPT_ELEMENT_SIZE && |d| < Pow256(width)
    ensures ParseOp([code] + LittleEndian(|d|, width) + d + rest) == Parsed(Push(d), rest)
  {
    hide FromLittleEndian, LittleEndian, TakeSizedPush;
    var s := [code] + LittleEndian(|d|, width) + d + rest;
    assert s[1..] == LittleEndian(|d|, width) + (d + rest);
    SizedPushRoundTrip(d, width, rest);
  }

  lemma SizedPushRoundTrip(d: bytes, width: nat, rest: bytes)
    requires |d| <= MAX_SCRIPT_ELEMENT_SIZE && |d| < Pow256(width)
    ensures TakeSizedPush(LittleEndian(|d|, width) + (d + rest), width) == Parsed(Push(d), rest)
  {
    var s := LittleEndian(|d|, width) + (d + rest);
    LittleEndianInverse(|d|, width);
    assert s[..width] == LittleEndian(|d|, width) && s[width..] == d + rest;
    assert (d + rest)[..|d|] == d && (d + rest)[|d|..] == rest;
  }

  lemma ParseEmitted(op: Op, rest: bytes)
    requires op.Push? ==> |op.data| <= MAX_SCRIPT_ELEMENT_SIZE
    ensures ParseOp(Emit(op) + rest) == Parsed(if op.Push? then Push(Pushed(op.data)) else op, rest)
  {
    if op.Push? {
      ParseEmittedPush(op.data, rest);
    } else {
      assert (Emit(op) + rest)[1..] == rest;
    }
  }

  /** Disassembling what was assembled gives the operations back, for every script. */
  lemma {:induction false} ParseAssembled(ops: seq<Op>)
    requires Pushable(ops)
    ensures Parse(Assemble(ops)) == Some(NormalAll(ops))
    decreases |ops|
  {
    hide Emit, ParseOp;
    if ops != [] {
      ParseEmitted(ops[0], Assemble(ops[1..]));
      ParseAssembled(ops[1..]);
      assert NormalAll(ops) == [NormalAll(ops)[0]] + NormalAll(ops[1..]);
    }
  }

  lemma {:induction false} AssembleAppend(a: seq<Op>, b: seq<Op>)
    ensures Assemble(a + b) == Assemble(a) + Assemble(b)
    decreases |a|
  {
    hide Emit;
    if a == [] {
      assert a + b == b;
    } else {
      assert (a + b)[1..] == a[1..] + b;
      AssembleAppend(a[1..], b);
    }
  }

  /** Rule 3 of BIP 62: no push of the same data takes fewer bytes. */
  lemma EmittedPushIsShortest(s: bytes)
    requires s != [] && ParseOp(s).Parsed? && ParseOp(s).op.Push?
    ensures |ParseOp(s).op.data| <= MAX_SCRIPT_ELEMENT_SIZE
    ensures |EmitPush(ParseOp(s).op.data)| <= |s| - |ParseOp(s).rest|
  {
    var code, t := s[0], s[1..];
    if code == OP_PUSHDATA1 {
      FromLittleEndianInverse(t[..1]);
      PowValues();
    }
  }

  // ---- Transaction outputs ----

  type bytes32 = s: bytes | |s| == 32 witness seq(32, _ => 0)

  /** An asset or a value commitment: a prefix byte and 32 bytes. */
  datatype Commitment = Commitment(prefix: byte, payload: bytes32)

  datatype TxValue = Explicit(amount: uint64) | Confidential(commitment: Commitment)

  datatype TxOut = TxOut(script: bytes, asset: Commitment, value: TxValue)

  /** Section "Witness program" of BIP 141: version and program of a script that is nothing else. */
  function WitnessProgram(spk: bytes): Option<(nat, bytes)> {
    if 4 <= |spk| <= 42 && (spk[0] == OP_0 || OP_1 <= spk[0] <= OP_16) && |spk| == 2 + spk[1] as int
    then Some((if spk[0] == OP_0 then 0 else spk[0] - OP_1 + 1, spk[2..]))
    else None
  }

  // ---- The machine ----

  type Stack = seq<bytes>

  /** The outputs being created and the hash the machine applies to scripts that are not native SegWit. */
  datatype TxContext = TxContext(outputs: seq<TxOut>, sha256: bytes -> bytes)

  function Top(st: Stack): bytes
    requires st != []
  {
    st[|st| - 1]
  }

  function Pop(st: Stack): Stack
    requires st != []
  {
    st[..|st| - 1]
  }

  /** An output index operand: minimally encoded, at most four bytes, in range. */
  function OutputIndex(operand: bytes, tx: TxContext): (r: Option<nat>)
    ensures r.Some? ==> r.value < |tx.outputs|
  {
    if |operand| <= 4 && Minimal(operand) && 0 <= DecodeNum(operand) < |tx.outputs|
    then Some(DecodeNum(operand)) else None
  }

  /** Payload below, version, prefix or -1 on top. */
  function InspectScript(spk: bytes, tx: TxContext): Stack {
    match WitnessProgram(spk)
    case Some((version, program)) => [program, EncodeNum(version)]
    case None => [tx.sha256(spk), EncodeNum(-1)]
  }

  function InspectAsset(asset: Commitment): Stack {
    [asset.payload, [asset.prefix]]
  }

  function InspectValue(value: TxValue): Stack {
    match value
    case Explicit(amount) => [LittleEndian(amount, 8), [1]]
    case Confidential(c) => [c.payload, [c.prefix]]
  }

  /** One operation; None when the script fails. */
  function Step(op: Op, st: Stack, tx: TxContext): Option<Stack> {
    match op
    case Push(d) => Some(st + [d])
    case Drop => if |st| < 1 then None else Some(Pop(st))
    case Equal =>
      if |st| < 2 then None
      else Some(Pop(Pop(st)) + [if Top(st) == Top(Pop(st)) then [1] else []])
    case EqualVerify =>
      if |st| < 2 || Top(st) != Top(Pop(st)) then None else Some(Pop(Pop(st)))
    case _ =>
      if |st| < 1 then None
      else match OutputIndex(Top(st), tx)
        case None => None
        case Some(i) =>
          var out := tx.outputs[i];
          Some(Pop(st) + if op.InspectOutputAsset? then InspectAsset(out.asset)
                         else if op.InspectOutputValue? then InspectValue(out.value)
                         else InspectScript(out.script, tx))
  }

  function Exec(ops: seq<Op>, st: Stack, tx: TxContext): Option<Stack> {
    if ops == [] then Some(st)
    else match Step(ops[0], st, tx)
      case None => None
      case Some(st') => Exec(ops[1..], st', tx)
  }

  /** False for zero and for negative zero. */
  predicate CastToBool(x: bytes) {
    exists i :: 0 <= i < |x| && x[i] != 0 && !(i == |x| - 1 && x[i] == 0x80)
  }

  /** Section "Script execution" of BIP 342: exactly one element is left, and it is true. */
  predicate Accepts(script: bytes, tx: TxContext) {
    match Parse(script)
    case None => false
    case Some(ops) =>
      match Exec(ops, [], tx)
      case None => false
      case Some(st) => |st| == 1 && CastToBool(st[0])
  }

  lemma {:induction false} ExecAppend(a: seq<Op>, b: seq<Op>, st: Stack, tx: TxContext)
    ensures Exec(a + b, st, tx) ==
            match Exec(a, st, tx)
            case None => None
            case Some(st') => Exec(b, st', tx)
    decreases |a|
  {
    if a == [] {
      assert a + b == b;
    } else {
      assert (a + b)[1..] == a[1..] + b;
      if Step(a[0], st, tx).Some? {
        ExecAppend(a[1..], b, Step(a[0], st, tx).value, tx);
      }
    }
  }

  /** The push of every element that fits, byte by byte. */
  lemma PushBytes(d: bytes)
    requires |d| <= 520
    ensures EmitPush(d) ==
            if |d| == 0 || d == [0x00] then [0x00]
            else if |d| == 1 && 1 <= d[0] <= 16 then [0x50 + d[0]]
            else if d == [0x81] then [0x4f]
            else if |d| <= 75 then [|d|] + d
            else if |d| <= 255 then [0x4c, |d|] + d
            else [0x4d, |d| % 0x100, |d| / 0x100] + d
  {
    hide LittleEndian;
    LittleEndianBytes(|d|);
  }
}
