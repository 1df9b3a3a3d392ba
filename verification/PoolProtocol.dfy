/**
 The free list shared by many goroutines: every interleaving of borrow, fill, use and return
 (pkg/bufferutil/bufferutil.go). The list is compared with a machine in which every goroutine has a
 private buffer, and each call of class FreeList is shown to be a run of the protocol.
 */
module PoolProtocol {
  import opened Bytes
  import opened FreeLists

  type Thread = nat

  /** Buffers are the arrays of the heap; the state records what the goroutines see in them. */
  type Ref = array<byte>

  /** Where a goroutine is inside a Uint or PutUint call; data is what it put in its buffer itself. */
  datatype Phase = Idle | Borrowed(buf: Ref) | Filled(buf: Ref, data: bytes)

  /** A pooled slice keeps the length at which it was returned. */
  datatype State = State(pool: seq<Slice>, threads: map<Thread, Phase>, memory: map<Ref, bytes>) {
    function Phase(t: Thread): Phase {
      if t in threads then threads[t] else Idle
    }
  }

  /** One atomic step; the labels carry the outcomes the scheduler and the streams choose. */
  datatype Label =
    | Borrow(t: Thread, newRef: Ref)   // take from the list, or allocate
    | Fill(t: Thread, data: bytes)     // a full read, or PutUint
    | Smear(t: Thread, data: bytes)    // a short read leaves a few bytes behind
    | Use(t: Thread)                   // convert or write out the filled part
    | Return(t: Thread, len: nat)      // give back a slice of this length

  const INIT: State := State([], map[], map[])

  /** The next state, or None where the label is not enabled. */
  function Step(s: State, l: Label): Option<State> {
    match l
    case Borrow(t, newRef) =>
      if !s.Phase(t).Idle? then None
      else if s.pool != [] then
        Some(s.(pool := s.pool[1..], threads := s.threads[t := Borrowed(s.pool[0].arr)]))
      else if newRef in s.memory then None
      else Some(s.(threads := s.threads[t := Borrowed(newRef)], memory := s.memory[newRef := Zeros(8)]))
    case Fill(t, data) =>
      if s.Phase(t).Borrowed? && Fits(s, s.Phase(t).buf, data) then
        var b := s.Phase(t).buf;
        Some(s.(threads := s.threads[t := Filled(b, data)], memory := s.memory[b := Overwrite(s.memory[b], data)]))
      else None
    case Smear(t, data) =>
      if s.Phase(t).Borrowed? && Fits(s, s.Phase(t).buf, data) then
        var b := s.Phase(t).buf;
        Some(s.(memory := s.memory[b := Overwrite(s.memory[b], data)]))
      else None
    case Use(t) =>
      if s.Phase(t).Filled? then Some(s) else None
    case Return(t, len) =>
      if s.Phase(t).Idle? then None
      else
        var back := s.(threads := s.threads[t := Idle]);
        Some(if |s.pool| < MAX_ITEMS then back.(pool := s.pool + [Slice(s.Phase(t).buf, len)]) else back)
  }

  predicate Fits(s: State, b: Ref, data: bytes) {
    b in s.memory && |data| <= |s.memory[b]|
  }

  /** What a Use step hands to the byte-order conversion: the start of the shared memory cell. */
  function Output(s: State, l: Label): bytes {
    if l.Use? && s.Phase(l.t).Filled? && Fits(s, s.Phase(l.t).buf, s.Phase(l.t).data)
    then s.memory[s.Phase(l.t).buf][..|s.Phase(l.t).data|]
    else []
  }

  /** No buffer is held twice, pooled twice, or both; all have capacity 8; the list is bounded. */
  ghost predicate Owned(s: State) {
    && |s.pool| <= MAX_ITEMS
    && (forall i :: 0 <= i < |s.pool| ==> s.pool[i].arr in s.memory)
    && (forall i, j :: 0 <= i < j < |s.pool| ==> s.pool[i].arr != s.pool[j].arr)
    && (forall t, i :: !s.Phase(t).Idle? && 0 <= i < |s.pool| ==> s.Phase(t).buf != s.pool[i].arr)
    && (forall t, u :: t != u && !s.Phase(t).Idle? && !s.Phase(u).Idle? ==> s.Phase(t).buf != s.Phase(u).buf)
    && (forall t :: !s.Phase(t).Idle? ==> s.Phase(t).buf in s.memory)
    && (forall b :: b in s.memory ==> |s.memory[b]| == 8)
  }

  /** A goroutine that filled its buffer still finds its own bytes there. */
  ghost predicate Intact(s: State) {
    forall t :: s.Phase(t).Filled? ==>
      Fits(s, s.Phase(t).buf, s.Phase(t).data) && s.memory[s.Phase(t).buf][..|s.Phase(t).data|] == s.Phase(t).data
  }

  lemma StepKeepsOwned(s: State, l: Label)
    requires Owned(s) && Step(s, l).Some?
    ensures Owned(Step(s, l).value)
  {
    var s' := Step(s, l).value;
    assert forall u :: u != l.t ==> s'.Phase(u) == s.Phase(u);
  }

  lemma StepKeepsIntact(s: State, l: Label)
    requires Owned(s) && Intact(s) && Step(s, l).Some?
    ensures Intact(Step(s, l).value)
  {
    var s' := Step(s, l).value;
    forall t | s'.Phase(t).Filled?
      ensures Fits(s', s'.Phase(t).buf, s'.Phase(t).data)
      ensures s'.memory[s'.Phase(t).buf][..|s'.Phase(t).data|] == s'.Phase(t).data
    {
      if t != l.t {
        assert s'.Phase(t) == s.Phase(t);
        assert s.Phase(t).buf in s.memory;
        assert s'.memory[s.Phase(t).buf] == s.memory[s.Phase(t).buf];
      }
    }
  }

  // ---- Runs, and the machine with private buffers they refine ----

  function Run(s: State, ls: seq<Label>): Option<State>
    decreases |ls|
  {
    if ls == [] then Some(s)
    else match Step(s, ls[0])
      case None => None
      case Some(s') => Run(s', ls[1..])
  }

  function Outputs(s: State, ls: seq<Label>): seq<bytes>
    requires Run(s, ls).Some?
    decreases |ls|
  {
    if ls == [] then []
    else
      var out := Outputs(Step(s, ls[0]).value, ls[1..]);
      if ls[0].Use? then [Output(s, ls[0])] + out else out
  }

  /** The same calls without any sharing: each goroutine owns the bytes it filled in. */
  function PrivateOutputs(mine: map<Thread, bytes>, ls: seq<Label>): seq<bytes>
    decreases |ls|
  {
    if ls == [] then []
    else match ls[0]
      case Fill(t, data) => PrivateOutputs(mine[t := data], ls[1..])
      case Use(t) => [if t in mine then mine[t] else []] + PrivateOutputs(mine, ls[1..])
      case _ => PrivateOutputs(mine, ls[1..])
  }

  lemma {:induction false} RunKeepsOwnership(s: State, ls: seq<Label>)
    requires Owned(s) && Intact(s) && Run(s, ls).Some?
    ensures Owned(Run(s, ls).value) && Intact(Run(s, ls).value)
    decreases |ls|
  {
    if ls != [] {
      StepKeepsOwned(s, ls[0]);
      StepKeepsIntact(s, ls[0]);
      RunKeepsOwnership(Step(s, ls[0]).value, ls[1..]);
    }
  }

  ghost predicate Agrees(s: State, mine: map<Thread, bytes>) {
    forall t :: s.Phase(t).Filled? ==> t in mine && mine[t] == s.Phase(t).data
  }

  lemma {:induction false} RunRefinesPrivate(s: State, mine: map<Thread, bytes>, ls: seq<Label>)
    requires Owned(s) && Intact(s) && Agrees(s, mine) && Run(s, ls).Some?
    ensures Outputs(s, ls) == PrivateOutputs(mine, ls)
    decreases |ls|
  {
    if ls != [] {
      var s' := Step(s, ls[0]).value;
      StepKeepsOwned(s, ls[0]);
      StepKeepsIntact(s, ls[0]);
      var mine' := if ls[0].Fill? then mine[ls[0].t := ls[0].data] else mine;
      assert Agrees(s', mine') by {
        assert forall u :: u != ls[0].t ==> s'.Phase(u) == s.Phase(u);
      }
      RunRefinesPrivate(s', mine', ls[1..]);
    }
  }

  /** Whatever the interleaving, ownership holds and no result depends on stale buffer contents. */
  lemma PoolIsSafe(ls: seq<Label>)
    requires Run(INIT, ls).Some?
    ensures Owned(Run(INIT, ls).value) && |Run(INIT, ls).value.pool| <= 1024
    ensures Outputs(INIT, ls) == PrivateOutputs(map[], ls)
    ensures var s := Run(INIT, ls).value;
            forall t, data: bytes :: s.Phase(t).Borrowed? && |data| <= 8 ==> Step(s, Fill(t, data)).Some?
  {
    RunKeepsOwnership(INIT, ls);
    RunRefinesPrivate(INIT, map[], ls);
  }

  // ---- A call of the free list is a run ----

  /** The state shows the list as it is in the heap, with its slices and what they hold. */
  ghost predicate Shows(s: State, list: FreeList)
    reads list, list.Memory()
  {
    s.pool == list.pool
    && forall i :: 0 <= i < |list.pool| ==>
         list.pool[i].arr in s.memory && s.memory[list.pool[i].arr] == list.pool[i].arr[..]
  }

  /** The steps of one call: a short read leaves its bytes behind and has nothing to use. */
  function Steps(t: Thread, buf: Ref, data: bytes, full: bool, len: nat): seq<Label> {
    if full then [Borrow(t, buf), Fill(t, data), Use(t), Return(t, len)]
    else [Borrow(t, buf), Smear(t, data), Return(t, len)]
  }

  lemma RunNext(s: State, l: Label, ls: seq<Label>)
    requires Step(s, l).Some? && Run(Step(s, l).value, ls).Some?
    ensures Run(s, [l] + ls) == Run(Step(s, l).value, ls)
    ensures Outputs(s, [l] + ls) == (if l.Use? then [Output(s, l)] else []) + Outputs(Step(s, l).value, ls)
  {
    assert ([l] + ls)[1..] == ls;
  }

  /** The goroutine is idle, and its buffer is at hand, the list being empty or not. */
  predicate Ready(s: State, t: Thread, buf: Ref) {
    && s.Phase(t).Idle? && |s.pool| <= MAX_ITEMS
    && if s.pool == [] then buf !in s.memory
       else buf == s.pool[0].arr && buf in s.memory && |s.memory[buf]| == 8
  }

  /** The state in which a call has put data in its buffer. */
  function AfterFill(s: State, t: Thread, buf: Ref, data: bytes, full: bool): State
    requires Ready(s, t, buf) && |data| <= 8
  {
    var cell := if s.pool == [] then Zeros(8) else s.memory[buf];
    State(if s.pool == [] then [] else s.pool[1..],
          s.threads[t := if full then Filled(buf, data) else Borrowed(buf)], s.memory[buf := Overwrite(cell, data)])
  }

  function FillOrSmear(t: Thread, data: bytes, full: bool): Label {
    if full then Fill(t, data) else Smear(t, data)
  }

  lemma FillSteps(s: State, t: Thread, buf: Ref, data: bytes, full: bool)
    requires Ready(s, t, buf) && |data| <= 8
    ensures Step(s, Borrow(t, buf)).Some?
    ensures Step(Step(s, Borrow(t, buf)).value, FillOrSmear(t, data, full)) == Some(AfterFill(s, t, buf, data, full))
  {
    hide Overwrite;
    var s1 := Step(s, Borrow(t, buf)).value;
    var s2 := Step(s1, FillOrSmear(t, data, full)).value;
    var s' := AfterFill(s, t, buf, data, full);
    assert s2.memory == s'.memory;
    assert s2.threads == s'.threads;
  }

  lemma LastSteps(s: State, t: Thread, buf: Ref, data: bytes, full: bool, len: nat)
    requires Ready(s, t, buf) && |data| <= 8
    ensures var s2 := AfterFill(s, t, buf, data, full);
            && Step(s2, Return(t, len))
               == Some(s2.(pool := s2.pool + [Slice(buf, len)], threads := s.threads[t := Idle]))
            && (full ==> Step(s2, Use(t)) == Some(s2) && Output(s2, Use(t)) == data)
  {
    var s2 := AfterFill(s, t, buf, data, full);
    assert s2.threads[t := Idle] == s.threads[t := Idle];
  }

  /** What a call does. */
  lemma StepsRun(s: State, t: Thread, buf: Ref, data: bytes, full: bool, len: nat)
    requires Ready(s, t, buf) && |data| <= 8
    ensures var s2 := AfterFill(s, t, buf, data, full);
            && Run(s, Steps(t, buf, data, full, len))
               == Some(s2.(pool := s2.pool + [Slice(buf, len)], threads := s.threads[t := Idle]))
            && Outputs(s, Steps(t, buf, data, full, len)) == if full then [data] else []
  {
    hide Run, Outputs, Step, Output, AfterFill, Ready;
    FillSteps(s, t, buf, data, full);
    LastSteps(s, t, buf, data, full, len);
    var s1 := Step(s, Borrow(t, buf)).value;
    var s2 := AfterFill(s, t, buf, data, full);
    var fill, back := FillOrSmear(t, data, full), [Return(t, len)];
    NoMore(Step(s2, Return(t, len)).value);
    assert back + [] == back;
    RunNext(s2, Return(t, len), []);
    if full {
      RunNext(s2, Use(t), back);
      RunNext(s1, fill, [Use(t)] + back);
      RunNext(s, Borrow(t, buf), [fill] + ([Use(t)] + back));
      assert [Borrow(t, buf)] + ([fill] + ([Use(t)] + back)) == Steps(t, buf, data, full, len);
    } else {
      RunNext(s1, fill, back);
      RunNext(s, Borrow(t, buf), [fill] + back);
      assert [Borrow(t, buf)] + ([fill] + back) == Steps(t, buf, data, full, len);
    }
  }

  lemma NoMore(s: State)
    ensures Run(s, []) == Some(s) && Outputs(s, []) == []
  {
  }

  /**
   Every ReadUint and WriteUint, by its contract, is a run from the list as it was to the list as it
   is, and the bytes it hands on are those of this call.
   */
  twostate lemma CallIsRun(list: FreeList, s: State, t: Thread, data: bytes, full: bool, len: nat)
    requires old(list.Valid()) && old(Shows(s, list)) && list.Cycled(len, data) && s.Phase(t).Idle?
    ensures list.pool != []
    ensures var ls := Steps(t, list.pool[|list.pool| - 1].arr, data, full, len);
            && Run(s, ls).Some? && Shows(Run(s, ls).value, list)
            && Run(s, ls).value.threads == s.threads[t := Idle]
            && Outputs(s, ls) == if full then [data] else []
  {
    hide Run, Outputs, Overwrite;
    var buf := list.pool[|list.pool| - 1].arr;
    StepsRun(s, t, buf, data, full, len);
  }
}
