/** The Windows stack-trace backend: capture into caller memory, symbol
    queries through a per-call debug session, and trace comparison. */
module Backends {
  import opened FrameStore
  import opened TraceOrder
  import opened ComSession

  /** sizeof(name): the fixed buffer of the first call of either text query. */
  const FixedBufferSize: nat := 256

  /** The two text queries that share the probe/retry convention:
      GetNameByOffset, and GetLineByOffset asking for the file name. */
  datatype TextKind = Name | File

  /** The engine's answers to the text query of the given kind. */
  function Answers(engine: DebugEngine, kind: TextKind): (Address, nat) -> TextReply
  {
    if kind == Name then engine.nameQuery else engine.fileQuery
  }

  /** How a text query of the given kind is logged. */
  function TextCall(kind: TextKind, offset: Address, bufferSize: nat): Call
  {
    if kind == Name then NameByOffset(offset, bufferSize) else LineByOffset(offset, false, bufferSize)
  }

  /** Whether the probe/retry convention makes a second call: the first call,
      with the fixed buffer, failed and reported a non-zero size. */
  predicate Retries(query: (Address, nat) -> TextReply, offset: Address)
  {
    query(offset, FixedBufferSize).status != S_OK && query(offset, FixedBufferSize).requiredSize != 0
  }

  /** The buffer sizes the probe/retry convention passes, in order. */
  function ProbeSizes(query: (Address, nat) -> TextReply, offset: Address): seq<nat>
  {
    if Retries(query, offset) then [FixedBufferSize, query(offset, FixedBufferSize).requiredSize]
    else [FixedBufferSize]
  }

  /** The text the probe/retry convention yields. */
  function ProbeText(query: (Address, nat) -> TextReply, offset: Address): string
  {
    var first := query(offset, FixedBufferSize);
    if Retries(query, offset) then
      var second := query(offset, first.requiredSize);
      if second.status == S_OK then second.text else ""
    else if first.status == S_OK then first.text
    else ""
  }

  /** The calls the probe/retry convention makes: one or two text queries
      and nothing else, so SessionCallsBalanced applies to them. */
  function ProbeCalls(kind: TextKind, query: (Address, nat) -> TextReply, offset: Address): (calls: seq<Call>)
    ensures 1 <= |calls| <= 2
    ensures forall i :: 0 <= i < |calls| ==> calls[i].NameByOffset? || calls[i].LineByOffset?
  {
    var sizes := ProbeSizes(query, offset);
    if |sizes| == 2 then [TextCall(kind, offset, sizes[0]), TextCall(kind, offset, sizes[1])]
    else [TextCall(kind, offset, sizes[0])]
  }

  /** The probe/retry convention: one or two calls, the first with the fixed
      buffer, the second only after a failure that reported a non-zero size
      and then with a buffer of exactly that size; the text is that of the
      last call when it succeeded and empty otherwise, so a non-empty text
      always comes from a successful call, and a service whose every answer
      fails yields the empty text. */
  lemma ProbeRetryConvention(kind: TextKind, query: (Address, nat) -> TextReply, offset: Address)
    ensures var sizes := ProbeSizes(query, offset);
      && 1 <= |sizes| <= 2
      && sizes[0] == FixedBufferSize
      && (|sizes| == 2 <==>
            query(offset, FixedBufferSize).status != S_OK && query(offset, FixedBufferSize).requiredSize != 0)
      && (|sizes| == 2 ==> sizes[1] == query(offset, FixedBufferSize).requiredSize)
      && ProbeCalls(kind, query, offset) == seq(|sizes|, i requires 0 <= i < |sizes| => TextCall(kind, offset, sizes[i]))
      && ProbeText(query, offset) ==
           (var last := query(offset, sizes[|sizes| - 1]); if last.status == S_OK then last.text else "")
    ensures (forall n: nat :: query(offset, n).status != S_OK) ==> ProbeText(query, offset) == ""
  {
  }

  /** The calls a symbol query makes once its bounds guard has passed: a
      session attempt, then, only when the session was established, the
      query's own calls and the release of the symbols interface when the
      query's holder goes out of scope. */
  function SessionCalls(steps: Steps, work: seq<Call>): seq<Call>
  {
    InitCalls(steps) + (if Established(steps) then work + [Released(Symbols)] else [])
  }

  /** Every interface a symbol query acquires is released exactly once before
      it returns, and nothing else is released; when no session can be
      established, no symbol query reaches the engine at all. */
  lemma SessionCallsBalanced(steps: Steps, work: seq<Call>)
    requires forall i :: 0 <= i < |work| ==> work[i].NameByOffset? || work[i].LineByOffset?
    ensures Count(SessionCalls(steps, work), Released(Client)) == Count(SessionCalls(steps, work), Create) == 1
    ensures Count(SessionCalls(steps, work), Released(Control)) == Count(SessionCalls(steps, work), Query(Control)) == 1
    ensures Count(SessionCalls(steps, work), Released(Symbols)) == (if Established(steps) then 1 else 0)
    ensures !Established(steps) ==> SessionCalls(steps, work) == InitCalls(steps)
  {
    InitCallsDiscipline(steps);
    assert Count(work, Released(Client)) == 0 by { NotInWork(work, Released(Client)); }
    assert Count(work, Released(Control)) == 0 by { NotInWork(work, Released(Control)); }
    assert Count(work, Released(Symbols)) == 0 by { NotInWork(work, Released(Symbols)); }
    assert Count(work, Create) == 0 by { NotInWork(work, Create); }
    assert Count(work, Query(Control)) == 0 by { NotInWork(work, Query(Control)); }
  }

  lemma NotInWork(work: seq<Call>, c: Call)
    requires forall i :: 0 <= i < |work| ==> work[i].NameByOffset? || work[i].LineByOffset?
    requires !c.NameByOffset? && !c.LineByOffset?
    ensures Count(work, c) == 0
  {
    assert c !in work;
  }

  /** The text queries of the given kind, with the local `res`, `size` and
      `result` of get_name and get_source_file updated step by step. */
  method ProbeRetry(engine: DebugEngine, kind: TextKind, offset: Address) returns (result: string)
    modifies engine
    ensures result == ProbeText(Answers(engine, kind), offset)
    ensures engine.log == old(engine.log) + ProbeCalls(kind, Answers(engine, kind), offset)
  {
    result := "";
    var reply: TextReply;
    if kind == Name {
      reply := engine.GetNameByOffset(offset, FixedBufferSize);
    } else {
      reply := engine.GetFileByOffset(offset, FixedBufferSize);
    }
    var res := reply.status == S_OK;
    var size := reply.requiredSize;
    if !res && size != 0 {
      if kind == Name {
        reply := engine.GetNameByOffset(offset, size);
      } else {
        reply := engine.GetFileByOffset(offset, size);
      }
      res := reply.status == S_OK;
      result := reply.text;
    } else if res {
      result := reply.text;
    }
    if !res {
      result := "";
    }
  }

  /** The `std::size_t& hash_code` out-parameter of the constructor. */
  class HashCode {
    var value: nat

    constructor ()
      ensures value == 0
    {
      value := 0;
    }
  }

  /** backend: a view of a frame store that lives in caller memory. */
  class Backend {
    const data: BacktraceHolder

    ghost predicate Valid()
      reads this, data
    {
      data.Valid()
    }

    /** The captured addresses, in capture order. */
    function Frames(): (s: seq<Address>)
      reads this, data, data.buffer
      requires Valid()
      ensures |s| == data.framesCount
    {
      data.Frames()
    }

    /** Captures the current call stack `stack` into `memory`, a block of
        `size` bytes: the walker is asked for at most the capacity of the
        block, narrowed to a ULONG, the store keeps what it reports, and the
        hash code combines a zero seed with the walker's own hash of the
        captured frames by `hashCombine`. No slot past the captured ones is
        written. */
    constructor (
      memory: array<Address>, size: nat, hashCode: HashCode,
      stack: seq<Address>, traceHash: seq<Address> -> nat, hashCombine: (nat, nat) -> nat)
      requires HeaderBytes <= size && Capacity(size) <= memory.Length
      modifies memory, hashCode
      ensures Valid() && data.buffer == memory
      ensures data.framesCount <= MaxFrames(size) <= Capacity(size)
      ensures Frames() == Walk(stack, 0, MaxFrames(size))
      ensures forall i :: data.framesCount <= i < memory.Length ==> memory[i] == old(memory[i])
      ensures hashCode.value == hashCombine(0, traceHash(Frames()))
    {
      var holder := new BacktraceHolder(memory);
      hashCode.value := 0;
      var captured, hc := CaptureStackBackTrace(0, MaxFrames(size), holder.buffer, stack, traceHash);
      holder.framesCount := captured;
      hashCode.value := hashCombine(hashCode.value, hc);
      data := holder;
    }

    /** get_address: the address of a captured frame. There is no bounds
        guard, so the frame must be one of the captured ones. */
    function GetAddress(frame: nat): (address: Address)
      reads this, data, data.buffer
      requires Valid() && frame < data.framesCount
      ensures address == Frames()[frame]
    {
      data.buffer[frame]
    }

    /** get_name: empty for a frame past the captured ones, without any call
        to the engine; otherwise a session attempt, and when it succeeds the
        probe/retry name query on the frame's address. */
    method GetName(frame: nat, engine: DebugEngine) returns (result: string)
      requires Valid()
      modifies engine
      ensures frame >= data.framesCount ==> result == "" && engine.log == old(engine.log)
      ensures frame < data.framesCount ==>
        && result == (if Established(engine.steps) then ProbeText(engine.nameQuery, Frames()[frame]) else "")
        && engine.log == old(engine.log)
             + SessionCalls(engine.steps, ProbeCalls(Name, engine.nameQuery, Frames()[frame]))
    {
      result := QueryText(frame, engine, Name);
    }

    /** get_source_file: as get_name, with the file-name query. */
    method GetSourceFile(frame: nat, engine: DebugEngine) returns (result: string)
      requires Valid()
      modifies engine
      ensures frame >= data.framesCount ==> result == "" && engine.log == old(engine.log)
      ensures frame < data.framesCount ==>
        && result == (if Established(engine.steps) then ProbeText(engine.fileQuery, Frames()[frame]) else "")
        && engine.log == old(engine.log)
             + SessionCalls(engine.steps, ProbeCalls(File, engine.fileQuery, Frames()[frame]))
    {
      result := QueryText(frame, engine, File);
    }

    /** The shared body of get_name and get_source_file. */
    method QueryText(frame: nat, engine: DebugEngine, kind: TextKind) returns (result: string)
      requires Valid()
      modifies engine
      ensures frame >= data.framesCount ==> result == "" && engine.log == old(engine.log)
      ensures frame < data.framesCount ==>
        && result == (if Established(engine.steps) then ProbeText(Answers(engine, kind), Frames()[frame]) else "")
        && engine.log == old(engine.log)
             + SessionCalls(engine.steps, ProbeCalls(kind, Answers(engine, kind), Frames()[frame]))
    {
      result := "";
      if frame >= data.framesCount {
        return;
      }
      ghost var log0 := engine.log;
      var idebug := new ComHolder();
      var ok := TryInitCom(idebug, engine);
      if !ok {
        idebug.Reset(engine);  // ~com_holder on a null pointer
        return;
      }
      var offset := data.buffer[frame];
      result := ProbeRetry(engine, kind, offset);
      idebug.Reset(engine);
      assert engine.log == log0 + InitCalls(engine.steps)
        + ProbeCalls(kind, Answers(engine, kind), offset) + [Released(Symbols)];
    }

    /** get_source_line: the reported line, or 0 when no session can be
        established or the line query fails. There is no bounds guard: the
        session attempt comes first, so without a session any frame gives 0,
        but once a session is established the frame's address is read, so the
        frame must then be one of the captured ones. */
    method GetSourceLine(frame: nat, engine: DebugEngine) returns (line: nat)
      requires Valid() && (frame < data.framesCount || !Established(engine.steps))
      modifies engine
      ensures !Established(engine.steps) ==>
        line == 0 && engine.log == old(engine.log) + InitCalls(engine.steps)
      ensures frame < data.framesCount ==>
        var reply := engine.lineQuery(Frames()[frame]);
        line == (if Established(engine.steps) && reply.status == S_OK then reply.line else 0)
      ensures frame < data.framesCount ==>
        engine.log == old(engine.log)
          + SessionCalls(engine.steps, [LineByOffset(Frames()[frame], true, 0)])
    {
      ghost var log0 := engine.log;
      var idebug := new ComHolder();
      var ok := TryInitCom(idebug, engine);
      if !ok {
        idebug.Reset(engine);
        return 0;
      }
      var reply := engine.GetLineNumberByOffset(data.buffer[frame]);
      line := if reply.status == S_OK then reply.line else 0;
      idebug.Reset(engine);
      assert engine.log == log0 + InitCalls(engine.steps)
        + [LineByOffset(Frames()[frame], true, 0)] + [Released(Symbols)];
    }

    /** operator<: by frame count first, then, unless both sides are the
        same object, lexicographically by address. The identity shortcut
        never changes the answer. */
    predicate Less(rhs: Backend)
      reads this, data, data.buffer, rhs, rhs.data, rhs.data.buffer
      requires Valid() && rhs.Valid()
      ensures Less(rhs) <==> TraceLess(Frames(), rhs.Frames())
      ensures data.framesCount != rhs.data.framesCount ==>
        (Less(rhs) <==> data.framesCount < rhs.data.framesCount)
    {
      if data.framesCount != rhs.data.framesCount then
        data.framesCount < rhs.data.framesCount
      else if this == rhs then
        TraceLessIrreflexive(Frames());
        false
      else
        LexicographicalCompare(
          data.buffer[..data.framesCount], rhs.data.buffer[..rhs.data.framesCount])
    }

    /** operator==: false for different frame counts, true for the same
        object, otherwise element-wise over the captured addresses. It holds
        exactly when the two traces hold the same addresses in the same
        order. */
    predicate Equals(rhs: Backend)
      reads this, data, data.buffer, rhs, rhs.data, rhs.data.buffer
      requires Valid() && rhs.Valid()
      ensures Equals(rhs) <==> Frames() == rhs.Frames()
    {
      if data.framesCount != rhs.data.framesCount then
        false
      else if this == rhs then
        true
      else
        RangeEqual(data.buffer[..data.framesCount], rhs.data.buffer[..rhs.data.framesCount])
    }
  }

  /** operator== is an equivalence on backends. */
  lemma EqualsIsEquivalence(a: Backend, b: Backend, c: Backend)
    requires a.Valid() && b.Valid() && c.Valid()
    ensures a.Equals(a)
    ensures a.Equals(b) <==> b.Equals(a)
    ensures a.Equals(b) && b.Equals(c) ==> a.Equals(c)
  {
  }

  /** operator< is a strict weak ordering on backends whose incomparable
      pairs are exactly the equal ones: irreflexive, asymmetric, transitive,
      and for equal frame counts exactly one of a < b, b < a, a == b holds. */
  lemma LessIsStrictWeakOrder(a: Backend, b: Backend, c: Backend)
    requires a.Valid() && b.Valid() && c.Valid()
    ensures !a.Less(a)
    ensures a.Less(b) ==> !b.Less(a)
    ensures a.Less(b) && b.Less(c) ==> a.Less(c)
    ensures !a.Less(b) && !b.Less(a) <==> a.Equals(b)
    ensures a.data.framesCount == b.data.framesCount ==>
      (if a.Less(b) then 1 else 0) + (if b.Less(a) then 1 else 0) + (if a.Equals(b) then 1 else 0) == 1
  {
    TraceLessIrreflexive(a.Frames());
    TraceTrichotomy(a.Frames(), b.Frames());
    if a.Less(b) && b.Less(c) {
      TraceLessTransitive(a.Frames(), b.Frames(), c.Frames());
    }
  }
}
