/**
 The covenant compiler (offer.go) and what the scripts it emits demand of a spending transaction.
 */
module Covenant {
  import opened Bytes
  import opened ScriptNums
  import opened Scripts

  // ---- The clause ----

  /** Output 0 has this witness version and program. */
  function ScriptCheck(version: bytes, program: bytes): seq<Op> {
    [Push([]), InspectOutputScriptPubKey, Push(version), EqualVerify, Push(program), EqualVerify]
  }

  /** Output 0 is of this asset, whatever the prefix. */
  function AssetCheck(payload: bytes): seq<Op> {
    [Push([]), InspectOutputAsset, Drop, Push(payload), EqualVerify]
  }

  /** Output 0 has this value, whatever the prefix. */
  function ValueCheck(amount: bytes): seq<Op> {
    [Push([]), InspectOutputValue, Drop, Push(amount), Equal]
  }

  /** The clause as the protocol document lists it. */
  function ClauseOps(version: bytes, program: bytes, payload: bytes, amount: uint64): seq<Op> {
    ScriptCheck(version, program) + AssetCheck(payload) + ValueCheck(LittleEndian(amount, 8))
  }

  /** The result of compileFulfillClause and compileRefundClause, whose bodies are the same. */
  function Clause(version: int, program: bytes, amount: uint64, asset: bytes): Result<bytes> {
    if asset == [] then Panic
    else if |program| > MAX_SCRIPT_ELEMENT_SIZE || |asset| - 1 > MAX_SCRIPT_ELEMENT_SIZE then Err
    else Ok(Assemble(ClauseOps(EncodeNum(version), program, asset[1..], amount)))
  }

  /** The version FulfillScript and RefundScript read off the first byte of the maker's script. */
  function ScriptVersion(code: byte): Option<int> {
    if code == OP_1NEGATE then Some(-1)
    else if code == OP_0 then Some(0)
    else if code == OP_1 then Some(1)
    else None
  }

  /** The result of FulfillScript and RefundScript; the byte after the version is not looked at. */
  function LeafScript(recipient: bytes, amount: uint64, asset: bytes): Result<bytes> {
    if recipient == [] then Panic
    else match ScriptVersion(recipient[0])
      case None => Err
      case Some(version) =>
        if |recipient| < 2 then Panic else Clause(version, recipient[2..], amount, asset)
  }

  // ---- The compiler ----

  /** btcd's script builder: appends until something does not fit, then ignores further calls. */
  class ScriptBuilder {
    var script: bytes
    var failed: bool

    constructor ()
      ensures script == [] && !failed
    {
      script, failed := [], false;
    }

    method AddOp(code: byte)
      modifies this
      ensures failed == (old(failed) || |old(script)| + 1 > 10_000)
      ensures script == if failed then old(script) else old(script) + [code]
    {
      if failed {
        return;
      }
      if |script| + 1 > MAX_SCRIPT_SIZE {
        failed := true;
        return;
      }
      script := script + [code];
    }

    method AddData(data: bytes)
      modifies this
      ensures failed == (old(failed) || |data| > 520 || |old(script)| + |EmitPush(data)| > 10_000)
      ensures script == if failed then old(script) else old(script) + EmitPush(data)
    {
      if failed {
        return;
      }
      if |data| > MAX_SCRIPT_ELEMENT_SIZE || |script| + |EmitPush(data)| > MAX_SCRIPT_SIZE {
        failed := true;
        return;
      }
      script := script + EmitPush(data);
    }
  }

  /** Bytes an operation can add to a script. */
  function Room(op: Op): nat {
    5 + if op.Push? && |op.data| <= MAX_SCRIPT_ELEMENT_SIZE then |op.data| else 0
  }

  /** The k-th operation of a clause: an AddData for a push, an AddOp for any other. */
  method AddNext(builder: ScriptBuilder, op: Op, ghost clause: seq<Op>, ghost k: nat)
    requires k < |clause| && clause[k] == op
    requires |builder.script| + Room(op) <= MAX_SCRIPT_SIZE
    requires !builder.failed ==> builder.script == Assemble(clause[..k])
    modifies builder
    ensures builder.failed == (old(builder.failed) || (op.Push? && |op.data| > MAX_SCRIPT_ELEMENT_SIZE))
    ensures !builder.failed ==> builder.script == Assemble(clause[..k + 1])
    ensures |builder.script| <= |old(builder.script)| + Room(op)
  {
    hide EmitPush;
    if op.Push? {
      builder.AddData(op.data);
    } else {
      builder.AddOp(Emit(op)[0]);
    }
    AssembleAppend(clause[..k], [op]);
    assert clause[..k + 1] == clause[..k] + [op];
    assert Assemble([op]) == Emit(op) + Assemble([]);
  }

  method AddScriptCheck(builder: ScriptBuilder, index: bytes, version: bytes, program: bytes, ghost clause: seq<Op>)
    requires index == [] && |version| <= 9 && |clause| >= 6 && clause[..6] == ScriptCheck(version, program)
    requires builder.script == [] && !builder.failed
    modifies builder
    ensures builder.failed == (|program| > MAX_SCRIPT_ELEMENT_SIZE)
    ensures !builder.failed ==> builder.script == Assemble(clause[..6])
    ensures |builder.script| <= 600
  {
    assert forall i :: 0 <= i < 6 ==> clause[i] == ScriptCheck(version, program)[i];
    assert Assemble(clause[..0]) == [];
    hide Assemble, ScriptCheck;
    AddNext(builder, Push(index), clause, 0);
    AddNext(builder, InspectOutputScriptPubKey, clause, 1);
    AddNext(builder, Push(version), clause, 2);
    AddNext(builder, EqualVerify, clause, 3);
    AddNext(builder, Push(program), clause, 4);
    AddNext(builder, EqualVerify, clause, 5);
  }

  method AddAssetCheck(builder: ScriptBuilder, index: bytes, payload: bytes, ghost clause: seq<Op>)
    requires index == [] && |clause| >= 11 && clause[6..11] == AssetCheck(payload) && |builder.script| <= 600
    requires !builder.failed ==> builder.script == Assemble(clause[..6])
    modifies builder
    ensures builder.failed == (old(builder.failed) || |payload| > MAX_SCRIPT_ELEMENT_SIZE)
    ensures !builder.failed ==> builder.script == Assemble(clause[..11])
    ensures |builder.script| <= 1200
  {
    hide Assemble;
    assert forall i :: 0 <= i < 5 ==> clause[6 + i] == AssetCheck(payload)[i];
    AddNext(builder, Push(index), clause, 6);
    AddNext(builder, InspectOutputAsset, clause, 7);
    AddNext(builder, Drop, clause, 8);
    AddNext(builder, Push(payload), clause, 9);
    AddNext(builder, EqualVerify, clause, 10);
  }

  method AddValueCheck(builder: ScriptBuilder, index: bytes, amount: bytes, ghost clause: seq<Op>)
    requires index == [] && |amount| == 8
    requires |clause| == 16 && clause[11..] == ValueCheck(amount) && |builder.script| <= 1200
    requires !builder.failed ==> builder.script == Assemble(clause[..11])
    modifies builder
    ensures builder.failed == old(builder.failed)
    ensures !builder.failed ==> builder.script == Assemble(clause)
  {
    hide Assemble;
    assert forall i :: 0 <= i < 5 ==> clause[11 + i] == ValueCheck(amount)[i];
    AddNext(builder, Push(index), clause, 11);
    AddNext(builder, InspectOutputValue, clause, 12);
    AddNext(builder, Drop, clause, 13);
    AddNext(builder, Push(amount), clause, 14);
    AddNext(builder, Equal, clause, 15);
    assert clause[..16] == clause;
  }

  /** compileFulfillClause and compileRefundClause; both callers pass output index 0. */
  method CompileClause(version: int, program: bytes, amount: uint64, asset: bytes) returns (r: Result<bytes>)
    requires -1 <= version <= 1
    ensures r == Clause(version, program, amount, asset)
  {
    hide Assemble, LittleEndian;
    NumBounds(version);
    assert EncodeNum(0) == [];
    var index := ScriptNumBytes(0);
    var scriptVersion := ScriptNumBytes(version);
    if asset == [] {
      return Panic;  // outputAsset[1:] is out of range
    }
    var assetBuffer := asset[1..];
    var amountBuffer := new byte[8](_ => 0);
    PutUint(amountBuffer, amount, 8);
    assert amountBuffer[..] == amountBuffer[..8];

    var builder := new ScriptBuilder();
    ghost var clause := ClauseOps(EncodeNum(version), program, assetBuffer, amount);
    ClauseSections(EncodeNum(version), program, assetBuffer, amount);
    AddScriptCheck(builder, index.value, scriptVersion.value, program, clause);
    AddAssetCheck(builder, index.value, assetBuffer, clause);
    AddValueCheck(builder, index.value, amountBuffer[..], clause);
    r := if builder.failed then Err else Ok(builder.script);
  }

  lemma ClauseSections(version: bytes, program: bytes, payload: bytes, amount: uint64)
    ensures var c := ClauseOps(version, program, payload, amount);
            && |c| == 16 && c[..6] == ScriptCheck(version, program) && c[6..11] == AssetCheck(payload)
            && c[11..] == ValueCheck(LittleEndian(amount, 8))
  {
    hide LittleEndian;
  }

  /** FulfillScript and RefundScript. */
  method CompileLeaf(recipient: bytes, amount: uint64, asset: bytes) returns (r: Result<bytes>)
    ensures r == LeafScript(recipient, amount, asset)
  {
    if recipient == [] {
      return Panic;  // recipientScript[0] is out of range
    }
    var scriptVersion;
    match recipient[0] {
      case 0x4f => scriptVersion := -1;
      case 0x00 => scriptVersion := 0;
      case 0x51 => scriptVersion := 1;
      case _ => return Err;
    }
    if |recipient| < 2 {
      return Panic;  // recipientScript[2:] is out of range
    }
    r := CompileClause(scriptVersion, recipient[2..], amount, asset);
  }

  // ---- What a clause accepts ----

  /** Output 0's script, as inspected, is this version and this program. */
  predicate InspectsAs(spk: bytes, version: bytes, program: bytes, tx: TxContext) {
    InspectScript(spk, tx) == [program, version]
  }

  lemma FirstOutput(tx: TxContext)
    ensures OutputIndex([], tx) == if tx.outputs == [] then None else Some(0)
  {
  }

  lemma {:induction false} RunOp(op: Op, ops: seq<Op>, st: Stack, tx: TxContext)
    ensures Exec([op] + ops, st, tx)
         == match Step(op, st, tx) case None => None case Some(st') => Exec(ops, st', tx)
  {
    assert ([op] + ops)[1..] == ops;
  }

  lemma RunPushZero(ops: seq<Op>, tx: TxContext)
    ensures Exec([Push([])] + ops, [], tx) == Exec(ops, [[]], tx)
  {
    var empty: Stack := [];
    RunOp(Push([]), ops, empty, tx);
    assert empty + [[]] == [[]];
  }

  lemma RunScriptCheck(version: bytes, program: bytes, tx: TxContext)
    ensures Exec(ScriptCheck(version, program), [], tx)
         == if tx.outputs != [] && InspectsAs(tx.outputs[0].script, version, program, tx) then Some([]) else None
  {
    hide Exec, OutputIndex, InspectScript;
    FirstOutput(tx);
    var o5 := [EqualVerify];
    var o4 := [Push(program)] + o5;
    var o3 := [EqualVerify] + o4;
    var o2 := [Push(version)] + o3;
    var o1 := [InspectOutputScriptPubKey] + o2;
    assert ScriptCheck(version, program) == [Push([])] + o1;
    RunPushZero(o1, tx);
    RunOp(InspectOutputScriptPubKey, o2, [[]], tx);
    if tx.outputs != [] {
      assert Pop([[]]) == [];
      var spk := InspectScript(tx.outputs[0].script, tx);
      InspectScriptShape(tx.outputs[0].script, tx);
      assert Pop([[]]) + spk == [spk[0], spk[1]] == spk;
      RunVerify(spk[0], spk[1], version, program, tx);
    }
  }

  lemma InspectScriptShape(spk: bytes, tx: TxContext)
    ensures |InspectScript(spk, tx)| == 2
  {
  }

  lemma EmptyExec(st: Stack, tx: TxContext)
    ensures Exec([], st, tx) == Some(st)
  {
  }

  /** Compares the element on top, then the one below it, with two pushed values. */
  lemma RunVerify(below: bytes, top: bytes, first: bytes, second: bytes, tx: TxContext)
    ensures Exec([Push(first)] + ([EqualVerify] + ([Push(second)] + [EqualVerify])), [below, top], tx)
         == if top == first && below == second then Some([]) else None
  {
    hide Exec;
    var o3 := [EqualVerify];
    var o2 := [Push(second)] + o3;
    var o1 := [EqualVerify] + o2;
    RunOp(Push(first), o1, [below, top], tx);
    assert [below, top] + [first] == [below, top, first];
    RunOp(EqualVerify, o2, [below, top, first], tx);
    assert Pop(Pop([below, top, first])) == [below];
    RunOp(Push(second), o3, [below], tx);
    assert [below] + [second] == [below, second];
    RunOp(EqualVerify, [], [below, second], tx);
    assert o3 + [] == o3 && Pop(Pop([below, second])) == [];
    EmptyExec([], tx);
  }

  /** Drops the prefix and compares the payload. */
  lemma RunDropThen(payload: bytes, prefix: bytes, expected: bytes, op: Op, tx: TxContext)
    requires op.Equal? || op.EqualVerify?
    ensures Exec([Drop] + ([Push(expected)] + [op]), [payload, prefix], tx)
         == if op.Equal? then Some([if payload == expected then [1] else []])
            else if payload == expected then Some([]) else None
  {
    hide Exec;
    RunOp(Drop, [Push(expected)] + [op], [payload, prefix], tx);
    assert Pop([payload, prefix]) == [payload];
    RunOp(Push(expected), [op], [payload], tx);
    assert [payload] + [expected] == [payload, expected];
    RunOp(op, [], [payload, expected], tx);
    var result := if payload == expected then [1] else [];
    assert [op] + [] == [op] && Pop(Pop([payload, expected])) == [];
    assert Pop(Pop([payload, expected])) + [result] == [result];
    if Step(op, [payload, expected], tx).Some? {
      EmptyExec(Step(op, [payload, expected], tx).value, tx);
    }
  }

  lemma RunAssetCheck(payload: bytes, tx: TxContext)
    requires tx.outputs != []
    ensures Exec(AssetCheck(payload), [], tx)
         == if tx.outputs[0].asset.payload == payload then Some([]) else None
  {
    hide Exec, OutputIndex;
    FirstOutput(tx);
    var asset := tx.outputs[0].asset;
    var o2 := [Drop] + ([Push(payload)] + [EqualVerify]);
    assert AssetCheck(payload) == [Push([])] + ([InspectOutputAsset] + o2);
    RunPushZero([InspectOutputAsset] + o2, tx);
    RunOp(InspectOutputAsset, o2, [[]], tx);
    assert Pop([[]]) + InspectAsset(asset) == [asset.payload, [asset.prefix]];
    RunDropThen(asset.payload, [asset.prefix], payload, EqualVerify, tx);
  }

  lemma RunValueCheck(amount: uint64, tx: TxContext)
    requires tx.outputs != []
    ensures Exec(ValueCheck(LittleEndian(amount, 8)), [], tx)
         == Some([if tx.outputs[0].value == Explicit(amount) then [1] else []])
  {
    hide Exec, OutputIndex, LittleEndian;
    FirstOutput(tx);
    var expected := LittleEndian(amount, 8);
    var value := InspectValue(tx.outputs[0].value);
    var o2 := [Drop] + ([Push(expected)] + [Equal]);
    assert ValueCheck(expected) == [Push([])] + ([InspectOutputValue] + o2);
    RunPushZero([InspectOutputValue] + o2, tx);
    RunOp(InspectOutputValue, o2, [[]], tx);
    assert Pop([[]]) + value == [value[0], value[1]];
    RunDropThen(value[0], value[1], expected, Equal, tx);
    AmountIsExplicit(tx.outputs[0].value, amount);
  }

  /** A payload of eight bytes can only be an explicit amount, and the amount is its only reading. */
  lemma AmountIsExplicit(value: TxValue, amount: uint64)
    ensures InspectValue(value)[0] == LittleEndian(amount, 8) <==> value == Explicit(amount)
  {
    PowValues();
    LittleEndianInverse(amount, 8);
    if value.Explicit? {
      LittleEndianInverse(value.amount, 8);
    }
  }

  /** The clause accepts on its first output alone: script, asset payload and explicit amount. */
  lemma ClauseAccepts(version: bytes, program: bytes, payload: bytes, amount: uint64, tx: TxContext)
    requires Pushable(ClauseOps(version, program, payload, amount))
    ensures Accepts(Assemble(ClauseOps(version, program, payload, amount)), tx) <==>
            && tx.outputs != []
            && InspectsAs(tx.outputs[0].script, Pushed(version), Pushed(program), tx)
            && tx.outputs[0].asset.payload == Pushed(payload)
            && tx.outputs[0].value == Explicit(amount)
  {
    hide Parse, Exec, Assemble, ScriptCheck, AssetCheck, ValueCheck, InspectsAs, LittleEndian, Pushable;
    ParseAssembled(ClauseOps(version, program, payload, amount));
    NormalClause(version, program, payload, amount);
    var a, b, c := ScriptCheck(Pushed(version), Pushed(program)), AssetCheck(Pushed(payload)),
                   ValueCheck(LittleEndian(amount, 8));
    ExecAppend(a + b, c, [], tx);
    ExecAppend(a, b, [], tx);
    RunScriptCheck(Pushed(version), Pushed(program), tx);
    if tx.outputs != [] {
      RunAssetCheck(Pushed(payload), tx);
      RunValueCheck(amount, tx);
    }
    assert CastToBool([1]) by {
      assert [1][0] != 0;
    }
  }

  /** The emitted bytes disassemble to the documented clause. */
  lemma NormalClause(version: bytes, program: bytes, payload: bytes, amount: uint64)
    ensures NormalAll(ClauseOps(version, program, payload, amount))
         == ClauseOps(Pushed(version), Pushed(program), Pushed(payload), amount)
  {
    hide LittleEndian;
  }

  lemma ClauseFits(version: bytes, program: bytes, payload: bytes, amount: uint64)
    ensures Pushable(ClauseOps(version, program, payload, amount)) <==>
            |version| <= MAX_SCRIPT_ELEMENT_SIZE && |program| <= MAX_SCRIPT_ELEMENT_SIZE
            && |payload| <= MAX_SCRIPT_ELEMENT_SIZE
  {
    hide LittleEndian;
    var ops := ClauseOps(version, program, payload, amount);
    assert ops[2] == Push(version) && ops[4] == Push(program) && ops[9] == Push(payload);
  }

  // ---- The compiler's promise ----

  /** Section "Witness program" of BIP 141, for the two versions the compiler knows. */
  predicate WellFormed(recipient: bytes) {
    4 <= |recipient| <= 42 && (recipient[0] == OP_0 || recipient[0] == OP_1)
    && |recipient| == 2 + recipient[1] as int
  }

  /** The output scripts a contract for this recipient is satisfied with. */
  predicate Admits(recipient: bytes, spk: bytes, tx: TxContext)
    requires |recipient| >= 2
  {
    if recipient[0] == OP_1NEGATE then
      WitnessProgram(spk).None? && tx.sha256(spk) == Pushed(recipient[2..])
    else
      WellFormed(spk) && spk[0] == recipient[0] && spk[2..] == recipient[2..]
  }

  lemma VersionIsInjective(n: int, m: int)
    ensures EncodeNum(n) == EncodeNum(m) <==> n == m
  {
    NumRoundTrip(n);
    NumRoundTrip(m);
  }

  lemma PushedVersion(version: int)
    ensures Pushed(EncodeNum(version)) == EncodeNum(version)
  {
    NumIsMinimal(version);
  }

  lemma AdmitsIsInspection(recipient: bytes, spk: bytes, tx: TxContext)
    requires |recipient| >= 2 && ScriptVersion(recipient[0]).Some?
    ensures InspectsAs(spk, EncodeNum(ScriptVersion(recipient[0]).value), Pushed(recipient[2..]), tx)
       <==> Admits(recipient, spk, tx)
  {
    hide EncodeNum;
    var version := ScriptVersion(recipient[0]).value;
    match WitnessProgram(spk) {
      case None =>
        VersionIsInjective(-1, version);
      case Some((v, program)) =>
        VersionIsInjective(v, version);
    }
  }

  /**
   The compiler is correct: for every recipient script, amount and asset it accepts, the bytes it
   emits are satisfied exactly by the transactions whose first output has an admitted script, the
   asset behind the prefix and, unblinded, the amount.
   */
  lemma LeafScriptCorrect(recipient: bytes, amount: uint64, asset: bytes, tx: TxContext)
    requires LeafScript(recipient, amount, asset).Ok?
    ensures Accepts(LeafScript(recipient, amount, asset).value, tx) <==>
            && tx.outputs != []
            && Admits(recipient, tx.outputs[0].script, tx)
            && tx.outputs[0].asset.payload == asset[1..]
            && tx.outputs[0].value == Explicit(amount)
  {
    hide Accepts, Admits, EncodeNum, InspectsAs;
    var version := ScriptVersion(recipient[0]).value;
    NumBounds(version);
    PushedVersion(version);
    ClauseFits(EncodeNum(version), recipient[2..], asset[1..], amount);
    ClauseAccepts(EncodeNum(version), recipient[2..], asset[1..], amount, tx);
    if tx.outputs != [] {
      AdmitsIsInspection(recipient, tx.outputs[0].script, tx);
    }
  }

  /** A well-formed recipient is paid at its own script and at no other. */
  lemma WellFormedAdmitsItself(recipient: bytes, spk: bytes, tx: TxContext)
    requires WellFormed(recipient)
    ensures Admits(recipient, spk, tx) <==> spk == recipient
  {
    if Admits(recipient, spk, tx) {
      assert spk == [spk[0], spk[1]] + spk[2..];
      assert recipient == [recipient[0], recipient[1]] + recipient[2..];
    }
  }

  lemma WellFormedCompiles(recipient: bytes, amount: uint64, asset: bytes)
    requires WellFormed(recipient) && |asset| == 33
    ensures LeafScript(recipient, amount, asset).Ok?
  {
  }

  /** For a well-formed recipient the contract enforces its terms: this script, this asset, this amount. */
  lemma ContractEnforcesTerms(recipient: bytes, amount: uint64, asset: bytes, tx: TxContext)
    requires WellFormed(recipient) && |asset| == 33
    ensures LeafScript(recipient, amount, asset).Ok?
    ensures Accepts(LeafScript(recipient, amount, asset).value, tx) <==>
            && tx.outputs != []
            && tx.outputs[0].script == recipient
            && tx.outputs[0].asset.payload == asset[1..]
            && tx.outputs[0].value == Explicit(amount)
  {
    hide Accepts, Admits;
    LeafScriptCorrect(recipient, amount, asset, tx);
    if tx.outputs != [] {
      WellFormedAdmitsItself(recipient, tx.outputs[0].script, tx);
    }
  }

  /** The compiler checks no length byte: among versions 0 and 1 exactly the well-formed recipients can be paid. */
  lemma RecipientIsPayable(recipient: bytes, tx: TxContext)
    requires |recipient| >= 2 && recipient[0] in {OP_0, OP_1}
    ensures Admits(recipient, recipient, tx) <==> WellFormed(recipient)
  {
  }

  /** A recipient of 32 zero bytes compiles, although no transaction paying it satisfies the contract. */
  lemma UnpayableRecipient(amount: uint64, asset: bytes, tx: TxContext)
    requires |asset| == 33
    ensures LeafScript(Zeros(32), amount, asset).Ok?
    ensures tx.outputs != [] && tx.outputs[0].script == Zeros(32)
            ==> !Accepts(LeafScript(Zeros(32), amount, asset).value, tx)
  {
    hide Accepts;
    LeafScriptCorrect(Zeros(32), amount, asset, tx);
  }

  // ---- Different terms, different scripts ----

  /** Two clauses are the same bytes exactly when they check the same values. */
  lemma ClauseInjective(v1: bytes, p1: bytes, a1: bytes, n1: uint64, v2: bytes, p2: bytes, a2: bytes, n2: uint64)
    requires Pushable(ClauseOps(v1, p1, a1, n1)) && Pushable(ClauseOps(v2, p2, a2, n2))
    ensures Assemble(ClauseOps(v1, p1, a1, n1)) == Assemble(ClauseOps(v2, p2, a2, n2)) <==>
            Pushed(v1) == Pushed(v2) && Pushed(p1) == Pushed(p2) && Pushed(a1) == Pushed(a2) && n1 == n2
  {
    hide Assemble, Parse, ClauseOps, Pushable, NormalAll, Pushed;
    var ops1, ops2 := ClauseOps(v1, p1, a1, n1), ClauseOps(v2, p2, a2, n2);
    NormalClause(v1, p1, a1, n1);
    NormalClause(v2, p2, a2, n2);
    if Assemble(ops1) == Assemble(ops2) {
      ParseAssembled(ops1);
      ParseAssembled(ops2);
      ClauseOpsInjective(Pushed(v1), Pushed(p1), Pushed(a1), n1, Pushed(v2), Pushed(p2), Pushed(a2), n2);
    } else if NormalAll(ops1) == NormalAll(ops2) {
      SameNormalSameBytes(ops1, ops2);
    }
  }

  lemma {:induction false} SameNormalSameBytes(a: seq<Op>, b: seq<Op>)
    requires NormalAll(a) == NormalAll(b)
    ensures Assemble(a) == Assemble(b)
    decreases |a|
  {
    if a != [] {
      assert |NormalAll(a)| == |NormalAll(b)|;
      assert NormalAll(a)[0] == NormalAll(b)[0];
      assert NormalAll(a[1..]) == NormalAll(a)[1..] && NormalAll(b[1..]) == NormalAll(b)[1..];
      SameNormalSameBytes(a[1..], b[1..]);
      SameEmission(a[0], b[0]);
    }
  }

  lemma SameEmission(x: Op, y: Op)
    requires x.Push? <==> y.Push?
    requires if x.Push? then Pushed(x.data) == Pushed(y.data) else x == y
    ensures Emit(x) == Emit(y)
  {
  }

  lemma ClauseOpsInjective(v1: bytes, p1: bytes, a1: bytes, n1: uint64, v2: bytes, p2: bytes, a2: bytes, n2: uint64)
    requires ClauseOps(v1, p1, a1, n1) == ClauseOps(v2, p2, a2, n2)
    ensures v1 == v2 && p1 == p2 && a1 == a2 && n1 == n2
  {
    hide LittleEndian;
    var ops1, ops2 := ClauseOps(v1, p1, a1, n1), ClauseOps(v2, p2, a2, n2);
    assert ops1[2] == Push(v1) && ops2[2] == Push(v2);
    assert ops1[4] == Push(p1) && ops2[4] == Push(p2);
    assert ops1[9] == Push(a1) && ops2[9] == Push(a2);
    assert ops1[14] == Push(LittleEndian(n1, 8)) && ops2[14] == Push(LittleEndian(n2, 8));
    PowValues();
    LittleEndianInverse(n1, 8);
    LittleEndianInverse(n2, 8);
  }

  /** What a contract keeps of its recipient: the version, and the program as it is pushed. */
  predicate SameRecipient(r1: bytes, r2: bytes)
    requires |r1| >= 2 && |r2| >= 2
  {
    r1[0] == r2[0] && Pushed(r1[2..]) == Pushed(r2[2..])
  }

  /** For witness programs that is everything. */
  lemma WellFormedIsKept(r1: bytes, r2: bytes)
    requires WellFormed(r1) && WellFormed(r2)
    ensures SameRecipient(r1, r2) <==> r1 == r2
  {
    assert r1 == [r1[0], r1[1]] + r1[2..];
    assert r2 == [r2[0], r2[1]] + r2[2..];
  }

  /** Contracts coincide exactly if recipient, asset and amount do, as far as they enter the contract. */
  lemma LeafScriptInjective(r1: bytes, n1: uint64, a1: bytes, r2: bytes, n2: uint64, a2: bytes)
    requires LeafScript(r1, n1, a1).Ok? && LeafScript(r2, n2, a2).Ok?
    ensures |r1| >= 2 && |r2| >= 2 && |a1| >= 1 && |a2| >= 1
    ensures LeafScript(r1, n1, a1) == LeafScript(r2, n2, a2) <==>
            SameRecipient(r1, r2) && n1 == n2 && Pushed(a1[1..]) == Pushed(a2[1..])
  {
    hide EncodeNum, Assemble, ClauseOps, Pushed;
    var v1, v2 := ScriptVersion(r1[0]).value, ScriptVersion(r2[0]).value;
    NumBounds(v1);
    NumBounds(v2);
    PushedVersion(v1);
    PushedVersion(v2);
    ClauseFits(EncodeNum(v1), r1[2..], a1[1..], n1);
    ClauseFits(EncodeNum(v2), r2[2..], a2[1..], n2);
    ClauseInjective(EncodeNum(v1), r1[2..], a1[1..], n1, EncodeNum(v2), r2[2..], a2[1..], n2);
    VersionIsInjective(v1, v2);
  }

  /** A transaction that satisfies one leaf of an order satisfies the other only if their terms agree. */
  lemma LeavesAreDisjoint(recipient: bytes, n1: uint64, a1: bytes, n2: uint64, a2: bytes, tx: TxContext)
    requires LeafScript(recipient, n1, a1).Ok? && LeafScript(recipient, n2, a2).Ok?
    requires Accepts(LeafScript(recipient, n1, a1).value, tx)
    ensures Accepts(LeafScript(recipient, n2, a2).value, tx) <==> a1[1..] == a2[1..] && n1 == n2
  {
    hide Accepts, Admits, LeafScript;
    LeafScriptCorrect(recipient, n1, a1, tx);
    LeafScriptCorrect(recipient, n2, a2, tx);
  }

  // ---- The bytes of a contract ----

  lemma AssembleFive(a: Op, b: Op, c: Op, d: Op, e: Op)
    ensures Assemble([a, b, c, d, e]) == Emit(a) + Emit(b) + Emit(c) + Emit(d) + Emit(e)
  {
    hide Emit;
    assert [a, b, c, d, e][1..] == [b, c, d, e];
    assert [b, c, d, e][1..] == [c, d, e];
    assert [c, d, e][1..] == [d, e];
    assert [d, e][1..] == [e];
    assert Assemble([e]) == Emit(e) + Assemble([]) == Emit(e);
    assert Assemble([c, d, e]) == Emit(c) + (Emit(d) + Emit(e));
    Regroup(Emit(a), Emit(b), Emit(c), Emit(d), Emit(e));
  }

  lemma Regroup(a: bytes, b: bytes, c: bytes, d: bytes, e: bytes)
    ensures a + (b + (c + (d + e))) == a + b + c + d + e
  {
  }

  lemma ScriptCheckBytes(version: bytes, program: bytes)
    ensures Assemble(ScriptCheck(version, program))
         == [0x00, 0xd1] + EmitPush(version) + [0x88] + EmitPush(program) + [0x88]
  {
    hide EmitPush;
    PushBytes([]);
    var rest := [InspectOutputScriptPubKey, Push(version), EqualVerify, Push(program), EqualVerify];
    AssembleFive(InspectOutputScriptPubKey, Push(version), EqualVerify, Push(program), EqualVerify);
    assert ScriptCheck(version, program)[1..] == rest;
  }

  lemma AssetCheckBytes(payload: bytes)
    ensures Assemble(AssetCheck(payload)) == [0x00, 0xce, 0x75] + EmitPush(payload) + [0x88]
  {
    hide EmitPush, Assemble;
    PushBytes([]);
    AssembleFive(Push([]), InspectOutputAsset, Drop, Push(payload), EqualVerify);
  }

  lemma ValueCheckBytes(amount: bytes)
    requires |amount| == 8
    ensures Assemble(ValueCheck(amount)) == [0x00, 0xcf, 0x75, 0x08] + amount + [0x87]
  {
    hide EmitPush, Assemble;
    PushBytes([]);
    PushBytes(amount);
    AssembleFive(Push([]), InspectOutputValue, Drop, Push(amount), Equal);
  }

  /** The version byte of a recipient is the push of its version. */
  lemma VersionByte(code: byte)
    requires code in {0x4f, 0x00, 0x51}
    ensures ScriptVersion(code).Some? && EmitPush(EncodeNum(ScriptVersion(code).value)) == [code]
  {
    hide EncodeNum;
    NumExamples();
    PushBytes([]);
    PushBytes([0x01]);
    PushBytes([0x81]);
  }

  /** What a recipient compiles to, for every recipient and asset: the bytes, an error, or a panic. */
  lemma LeafScriptBytes(recipient: bytes, amount: uint64, asset: bytes)
    ensures LeafScript(recipient, amount, asset) ==
            if |recipient| == 0 then Panic
            else if recipient[0] !in {0x4f, 0x00, 0x51} then Err
            else if |recipient| == 1 || |asset| == 0 then Panic
            else if |recipient| > 522 || |asset| > 521 then Err
            else Ok([0x00, 0xd1, recipient[0], 0x88] + EmitPush(recipient[2..])
                    + [0x88, 0x00, 0xce, 0x75] + EmitPush(asset[1..])
                    + [0x88, 0x00, 0xcf, 0x75, 0x08] + LittleEndian(amount, 8) + [0x87])
  {
    hide EmitPush, EncodeNum, Assemble, LittleEndian, ScriptCheck, AssetCheck, ValueCheck;
    if LeafScript(recipient, amount, asset).Ok? {
      var version := EncodeNum(ScriptVersion(recipient[0]).value);
      VersionByte(recipient[0]);
      ScriptCheckBytes(version, recipient[2..]);
      AssetCheckBytes(asset[1..]);
      ValueCheckBytes(LittleEndian(amount, 8));
      AssembleAppend(ScriptCheck(version, recipient[2..]) + AssetCheck(asset[1..]),
                     ValueCheck(LittleEndian(amount, 8)));
      AssembleAppend(ScriptCheck(version, recipient[2..]), AssetCheck(asset[1..]));
      JoinChecks(recipient[0], EmitPush(recipient[2..]), EmitPush(asset[1..]), LittleEndian(amount, 8));
    }
  }

  lemma JoinChecks(version: byte, program: bytes, payload: bytes, amount: bytes)
    ensures [0x00, 0xd1] + [version] + [0x88] + program + [0x88] + ([0x00, 0xce, 0x75] + payload + [0x88])
            + ([0x00, 0xcf, 0x75, 0x08] + amount + [0x87])
            == [0x00, 0xd1, version, 0x88] + program + [0x88, 0x00, 0xce, 0x75] + payload
               + [0x88, 0x00, 0xcf, 0x75, 0x08] + amount + [0x87]
  {
  }

  /** The contract of a witness program for an asset, byte by byte. */
  lemma ContractBytes(recipient: bytes, amount: uint64, asset: bytes)
    requires WellFormed(recipient) && |asset| == 33
    ensures LeafScript(recipient, amount, asset)
         == Ok([0x00, 0xd1, recipient[0], 0x88, |recipient| - 2] + recipient[2..]
               + [0x88, 0x00, 0xce, 0x75, 0x20] + asset[1..]
               + [0x88, 0x00, 0xcf, 0x75, 0x08] + LittleEndian(amount, 8) + [0x87])
  {
    hide EmitPush, LittleEndian, LeafScript;
    LeafScriptBytes(recipient, amount, asset);
    PushBytes(recipient[2..]);
    PushBytes(asset[1..]);
    JoinPushes(recipient[0], recipient[2..], asset[1..], LittleEndian(amount, 8));
  }

  lemma JoinPushes(version: byte, program: bytes, payload: bytes, amount: bytes)
    requires |program| <= 40 && |payload| == 32
    ensures [0x00, 0xd1, version, 0x88] + ([|program|] + program) + [0x88, 0x00, 0xce, 0x75] + ([0x20] + payload)
            + [0x88, 0x00, 0xcf, 0x75, 0x08] + amount + [0x87]
            == [0x00, 0xd1, version, 0x88, |program|] + program + [0x88, 0x00, 0xce, 0x75, 0x20] + payload
               + [0x88, 0x00, 0xcf, 0x75, 0x08] + amount + [0x87]
  {
  }

  /** And it is shorter than the 253 bytes from which a length would take more than one byte. */
  lemma ContractIsShort(recipient: bytes, amount: uint64, asset: bytes)
    requires WellFormed(recipient) && |asset| == 33
    ensures LeafScript(recipient, amount, asset).Ok? && |LeafScript(recipient, amount, asset).value| == 54 + |recipient|
  {
    hide LeafScript, LittleEndian;
    ContractBytes(recipient, amount, asset);
  }
}
