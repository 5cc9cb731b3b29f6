/** The lazily established debug-engine session: the COM interface holder,
    the scripted debug engine it talks to, and try_init_com. */
module ComSession {
  import opened FrameStore

  /** An HRESULT; only S_OK counts as success for the callers modelled here
      (S_FALSE, a truncated answer, is a failure to them). */
  type HResult = int

  const S_OK: HResult := 0

  /** The interfaces the session acquires. */
  datatype Interface = Client | Control | Symbols

  /** An interface pointer: null, or a reference to one of the interfaces. */
  datatype Ptr = Null | Points(iface: Interface)

  /** One call into the debug engine or the COM runtime, as it is logged. */
  datatype Call =
    | CoInit
    | Create
    | Query(iid: Interface)
    | Attach
    | Wait
    | NameByOffset(offset: Address, nameBufferSize: nat)
    | LineByOffset(offset: Address, wantsLine: bool, fileBufferSize: nat)
    | Released(iface: Interface)

  /** The statuses the three checked steps of a session attempt report:
      AttachProcess, WaitForEvent and the final QueryInterface. */
  datatype Steps = Steps(attach: HResult, wait: HResult, symbols: HResult)

  /** What a text query writes back: its status, the size it reports as
      needed, and the text left in the caller's buffer. */
  datatype TextReply = TextReply(status: HResult, requiredSize: nat, text: string)

  /** What a line query writes back: its status and the line number. */
  datatype LineReply = LineReply(status: HResult, line: nat)

  /** A session attempt succeeds when all three checked steps return S_OK. */
  predicate Established(steps: Steps)
  {
    steps.attach == S_OK && steps.wait == S_OK && steps.symbols == S_OK
  }

  /** The calls one session attempt makes, in order: initialise COM, create
      the client, get the control interface, attach; wait only once attached;
      ask for the symbols interface only once the wait returned; and finally
      release the control and then the client interface, which are locals of
      the attempt, in the reverse of their construction order. */
  function InitCalls(steps: Steps): seq<Call>
  {
    [CoInit, Create, Query(Control), Attach]
    + (if steps.attach != S_OK then []
       else [Wait] + (if steps.wait != S_OK then [] else [Query(Symbols)]))
    + [Released(Control), Released(Client)]
  }

  /** The number of times `c` occurs in `log`. */
  function Count(log: seq<Call>, c: Call): nat
  {
    multiset(log)[c]
  }

  /** A session attempt attaches exactly once, waits only after a successful
      attach, asks for the symbols interface only after a successful wait,
      and releases each of its two temporary interfaces exactly once and the
      symbols interface never (that one is handed to the caller). */
  lemma InitCallsDiscipline(steps: Steps)
    ensures Count(InitCalls(steps), Attach) == 1
    ensures Count(InitCalls(steps), Wait) == (if steps.attach == S_OK then 1 else 0)
    ensures Count(InitCalls(steps), Query(Symbols)) ==
            (if steps.attach == S_OK && steps.wait == S_OK then 1 else 0)
    ensures Count(InitCalls(steps), Released(Client)) == 1
    ensures Count(InitCalls(steps), Released(Control)) == 1
    ensures Count(InitCalls(steps), Released(Symbols)) == 0
  {
  }

  /** The debug engine and the COM runtime as the session sees them: the
      outcomes of the session steps and the answers of the symbol queries are
      fixed when the engine is made; every call is appended to `log`. */
  class DebugEngine {
    const steps: Steps
    const nameQuery: (Address, nat) -> TextReply
    const fileQuery: (Address, nat) -> TextReply
    const lineQuery: Address -> LineReply
    var log: seq<Call>

    constructor (
      steps: Steps, nameQuery: (Address, nat) -> TextReply,
      fileQuery: (Address, nat) -> TextReply, lineQuery: Address -> LineReply)
      ensures this.steps == steps && this.nameQuery == nameQuery
      ensures this.fileQuery == fileQuery && this.lineQuery == lineQuery
      ensures log == []
    {
      this.steps := steps;
      this.nameQuery := nameQuery;
      this.fileQuery := fileQuery;
      this.lineQuery := lineQuery;
      log := [];
    }

    /** CoInitializeEx: its result is ignored by the session. */
    method CoInitializeEx()
      modifies this
      ensures log == old(log) + [CoInit]
    {
      log := log + [CoInit];
    }

    /** DebugCreate: its result is not checked by the session, so the engine
        is taken always to deliver the client interface. */
    method DebugCreate() returns (client: Ptr)
      modifies this
      ensures client == Points(Client)
      ensures log == old(log) + [Create]
    {
      log := log + [Create];
      client := Points(Client);
    }

    /** QueryInterface on the client. The control interface is taken always
        to be delivered, since the session does not check for it; the symbols
        interface comes with the scripted status, and a failed query writes
        a null pointer. */
    method QueryInterface(iid: Interface) returns (status: HResult, p: Ptr)
      modifies this
      ensures status == (if iid == Symbols then steps.symbols else S_OK)
      ensures p == (if status == S_OK then Points(iid) else Null)
      ensures log == old(log) + [Query(iid)]
    {
      log := log + [Query(iid)];
      status := if iid == Symbols then steps.symbols else S_OK;
      p := if status == S_OK then Points(iid) else Null;
    }

    /** AttachProcess, non-invasive and without suspending the process. */
    method AttachProcess() returns (status: HResult)
      modifies this
      ensures status == steps.attach
      ensures log == old(log) + [Attach]
    {
      log := log + [Attach];
      status := steps.attach;
    }

    /** WaitForEvent with an unbounded wait; its outcome is scripted. */
    method WaitForEvent() returns (status: HResult)
      modifies this
      ensures status == steps.wait
      ensures log == old(log) + [Wait]
    {
      log := log + [Wait];
      status := steps.wait;
    }

    method GetNameByOffset(offset: Address, nameBufferSize: nat) returns (reply: TextReply)
      modifies this
      ensures reply == nameQuery(offset, nameBufferSize)
      ensures log == old(log) + [NameByOffset(offset, nameBufferSize)]
    {
      log := log + [NameByOffset(offset, nameBufferSize)];
      reply := nameQuery(offset, nameBufferSize);
    }

    /** GetLineByOffset asking for the file name only (no line output). */
    method GetFileByOffset(offset: Address, fileBufferSize: nat) returns (reply: TextReply)
      modifies this
      ensures reply == fileQuery(offset, fileBufferSize)
      ensures log == old(log) + [LineByOffset(offset, false, fileBufferSize)]
    {
      log := log + [LineByOffset(offset, false, fileBufferSize)];
      reply := fileQuery(offset, fileBufferSize);
    }

    /** GetLineByOffset asking for the line number only (no file buffer). */
    method GetLineNumberByOffset(offset: Address) returns (reply: LineReply)
      modifies this
      ensures reply == lineQuery(offset)
      ensures log == old(log) + [LineByOffset(offset, true, 0)]
    {
      log := log + [LineByOffset(offset, true, 0)];
      reply := lineQuery(offset);
    }

    method Release(iface: Interface)
      modifies this
      ensures log == old(log) + [Released(iface)]
    {
      log := log + [Released(iface)];
    }
  }

  /** The calls a holder's reset makes: one Release when it holds a pointer. */
  function ReleaseOf(p: Ptr): seq<Call>
  {
    if p.Points? then [Released(p.iface)] else []
  }

  /** com_holder: owns one interface pointer, null until filled in. */
  class ComHolder {
    var holder: Ptr

    constructor ()
      ensures holder == Null
    {
      holder := Null;
    }

    /** is_inited(): a holder is initialised exactly when it holds some
        interface. */
    predicate IsInited(): (inited: bool)
      reads this
      ensures inited <==> holder.Points?
    {
      holder != Null
    }

    /** The engine writing an interface pointer through to_void_ptr_ptr(). */
    method Receive(p: Ptr)
      modifies this
      ensures holder == p
    {
      holder := p;
    }

    /** reset(), also run by the destructor: releases the held interface if
        there is one, and leaves the pointer as it is. */
    method Reset(engine: DebugEngine)
      modifies engine
      ensures engine.log == old(engine.log) + ReleaseOf(holder)
    {
      if holder.Points? {
        engine.Release(holder.iface);
      }
    }
  }

  /** try_init_com: returns at once when `idebug` already holds an interface;
      otherwise runs one session attempt, leaving the symbols interface in
      `idebug` exactly when every checked step succeeds. */
  method TryInitCom(idebug: ComHolder, engine: DebugEngine) returns (ok: bool)
    modifies idebug, engine
    ensures old(idebug.IsInited()) ==>
      ok && idebug.holder == old(idebug.holder) && engine.log == old(engine.log)
    ensures !old(idebug.IsInited()) ==>
      && ok == Established(engine.steps)
      && idebug.holder == (if ok then Points(Symbols) else Null)
      && engine.log == old(engine.log) + InitCalls(engine.steps)
  {
    if idebug.IsInited() {
      return true;
    }
    ghost var log0 := engine.log;
    engine.CoInitializeEx();

    var iclient := new ComHolder();
    var client := engine.DebugCreate();
    iclient.Receive(client);

    var icontrol := new ComHolder();
    var _, control := engine.QueryInterface(Control);
    icontrol.Receive(control);

    var attached := engine.AttachProcess();
    assert engine.log == log0 + [CoInit, Create, Query(Control), Attach];
    if attached != S_OK {
      icontrol.Reset(engine);  // ~com_holder, innermost first
      iclient.Reset(engine);
      return false;
    }

    var waited := engine.WaitForEvent();
    assert engine.log == log0 + [CoInit, Create, Query(Control), Attach, Wait];
    if waited != S_OK {
      icontrol.Reset(engine);
      iclient.Reset(engine);
      return false;
    }

    var status, symbols := engine.QueryInterface(Symbols);
    assert engine.log == log0 + [CoInit, Create, Query(Control), Attach, Wait, Query(Symbols)];
    idebug.Receive(symbols);
    if status != S_OK {
      idebug.Reset(engine);
      icontrol.Reset(engine);
      iclient.Reset(engine);
      return false;
    }

    icontrol.Reset(engine);
    iclient.Reset(engine);
    return true;
  }
}
