# Windows stack-trace backend of Boost.Stacktrace, modelled in Dafny

This project models the core of `include/boost/stacktrace/detail/backend_windows.hpp`. That core has three parts:

- **Capture.** The `backend` constructor lays a `backtrace_holder` into memory the caller owns. It is a frame count followed by the raw return addresses. The constructor asks the system stack walker for at most as many frames as fit in the block and records the count the walker reports. The hash code combines a zero seed with the walker's own hash.
- **Comparison.** `operator==` and `operator<` work on the captured address sequences only. They compare frame counts first. Then they compare element by element, or lexicographically. Neither one ever touches the debug engine.
- **Symbolication.** `get_name`, `get_source_file` and `get_source_line` each open a short-lived debug-engine session through `try_init_com`, ask one question about a frame's address, and release the session.
  - `get_name` and `get_source_file` use the engine's two-call buffer convention. The first call uses a fixed 256-byte buffer. If it fails and reports a non-zero size, a single retry is made with a buffer of exactly that size.
  - Every failure gives the empty string, or the line number 0.

Files and modules:

- `frame_store.dfy` (`FrameStore`): the 64-bit `Address`, the capacity formula, the `BacktraceHolder` class and its copy constructor, and a stand-in for the system stack walker.
- `trace_order.dfy` (`TraceOrder`): `std::equal` and `std::lexicographical_compare` over address sequences, with the equivalence and strict-weak-order laws.
- `com_session.dfy` (`ComSession`): the debug engine and COM runtime, modelled as an object with scripted outcomes that logs every call it receives. Also `com_holder` and `try_init_com`.
- `backend.dfy` (`Backends`): the `backend` class (constructor, `get_address`, `get_name`, `get_source_file`, `get_source_line`, `operator<`, `operator==`) and the probe/retry convention.

How the outside world is modelled:

- The current call stack, the walker's hash function and `boost::hash_combine` are parameters of the constructor.
- The debug engine (`DebugEngine`) is fixed when it is made. It holds:
  - the status of each session step;
  - the engine's answers to the name, file and line queries, as functions of the address and the buffer size.
- Every call the backend makes into the engine is appended to `DebugEngine.log`. The contracts use that log to state which calls are made and how many. Examples: no call at all for an out-of-range frame, at most two text queries, and every acquired interface released exactly once.

Points of the code that the model keeps exactly as written:

- `get_source_line` has no bounds guard. It runs `try_init_com` first (lines 227-230), so without a session it returns 0 for any frame without touching the store. Once a session is established it reads the frame's address (line 233), which is undefined past `frames_count`. `Backend.GetSourceLine` therefore requires a captured frame or a session that cannot be established.
- `try_init_com` tests only whether the holder is non-null (line 63). A failed attempt leaves it null, so the next call on the same holder makes a complete new attempt, as the second `ensures` of `ComSession.TryInitCom` states. In this file every query uses a fresh holder anyway.
- A failure that reports a non-zero size always retries. The fixed buffer's text is used only after `S_OK` (lines 154-165). `Backends.ProbeText` follows exactly that.

## Model

| member | source | states |
|---|---|---|
| `FrameStore.Capacity` | include/boost/stacktrace/detail/backend_windows.hpp:123 | `(size - sizeof(backtrace_holder)) / sizeof(void*)` is the largest number of address slots that end inside a block of `size` bytes after the header |
| `FrameStore.MaxFrames` | include/boost/stacktrace/detail/backend_windows.hpp:123 | the maximum given to the walker is the capacity narrowed to a 32-bit ULONG: never more than the capacity, and equal to it whenever the capacity fits in a ULONG |
| `FrameStore.Walk` | include/boost/stacktrace/detail/backend_windows.hpp:121-126 | the frames a walk yields: at most `max` of them, exactly `min(|stack| - skip, max)`, each the stack frame at the same position after the skipped ones |
| `FrameStore.CaptureStackBackTrace` | include/boost/stacktrace/detail/backend_windows.hpp:121-126 | the walker writes the walk into the first slots of the buffer and reports a count no larger than its maximum, with its hash of those frames; slots past the count are untouched |
| `FrameStore.BacktraceHolder.constructor` | include/boost/stacktrace/detail/backend_windows.hpp:117-118 | placement construction over the caller's memory (no storage of its own) followed by `frames_count = 0`: the empty trace |
| `FrameStore.BacktraceHolder.Copy` | include/boost/stacktrace/detail/backend_windows.hpp:105-109 | the copy takes the source's count and holds exactly the source's addresses, so it compares equal to the source (`TraceOrder.TraceEqual`); no slot of the destination past that count is written |
| `TraceOrder.RangeEqual` | include/boost/stacktrace/detail/backend_windows.hpp:264-267 | `std::equal` over the first range holds exactly when the first range equals the same-length prefix of the second |
| `TraceOrder.LexicographicalCompare` | include/boost/stacktrace/detail/backend_windows.hpp:251-254 | `std::lexicographical_compare`: a proper prefix comes before the longer range, and nothing comes before the empty range; its full meaning and laws are the `Lex*` lemmas below |
| `TraceOrder.LexicographicalCompareIsLessAt` | include/boost/stacktrace/detail/backend_windows.hpp:251-254 | `std::lexicographical_compare` holds exactly when the sequences agree up to some position where the first has ended and the second goes on, or where the first holds the smaller address |
| `TraceOrder.LexIrreflexive` | include/boost/stacktrace/detail/backend_windows.hpp:251-254 | no address sequence is lexicographically less than itself |
| `TraceOrder.LexAsymmetric` | include/boost/stacktrace/detail/backend_windows.hpp:251-254 | lexicographic order never holds both ways |
| `TraceOrder.LexTransitive` | include/boost/stacktrace/detail/backend_windows.hpp:251-254 | lexicographic order is transitive |
| `TraceOrder.LexConnected` | include/boost/stacktrace/detail/backend_windows.hpp:251-254 | any two different address sequences are lexicographically ordered one way or the other |
| `TraceOrder.TraceEqual` | include/boost/stacktrace/detail/backend_windows.hpp:257-268 | `operator==` without the identity shortcut (equal counts, then `std::equal`) holds exactly when the address sequences are the same, hence it is reflexive, symmetric and transitive |
| `TraceOrder.TraceLess` | include/boost/stacktrace/detail/backend_windows.hpp:244-255 | `operator<` without the identity shortcut: a trace with fewer frames always comes first, and a trace never comes before one with fewer frames; the `TraceLess*` lemmas and `TraceTrichotomy` prove it a strict weak ordering |
| `TraceOrder.TraceLessIrreflexive` | include/boost/stacktrace/detail/backend_windows.hpp:244-255 | no trace is less than itself |
| `TraceOrder.TraceLessAsymmetric` | include/boost/stacktrace/detail/backend_windows.hpp:244-255 | count-then-lexicographic order never holds both ways |
| `TraceOrder.TraceLessTransitive` | include/boost/stacktrace/detail/backend_windows.hpp:244-255 | count-then-lexicographic order is transitive, across different counts too |
| `TraceOrder.TraceTrichotomy` | include/boost/stacktrace/detail/backend_windows.hpp:244-268 | for any two traces exactly one of a < b, b < a, a == b holds |
| `TraceOrder.DifferentCountsDecide` | include/boost/stacktrace/detail/backend_windows.hpp:245-246 | traces with different frame counts are never equal and are ordered by count alone, whatever their addresses |
| `ComSession.InitCallsDiscipline` | include/boost/stacktrace/detail/backend_windows.hpp:62-96 | a session attempt attaches exactly once, waits only after a successful attach, asks for the symbols interface only after a successful wait, and releases the client and control interfaces exactly once each and the symbols interface never |
| `ComSession.DebugEngine.DebugCreate` | include/boost/stacktrace/detail/backend_windows.hpp:69-70 | creating the client is logged and always delivers the client interface (its result is not checked) |
| `ComSession.DebugEngine.QueryInterface` | include/boost/stacktrace/detail/backend_windows.hpp:72-73 | the control interface is always delivered (not checked); the symbols interface comes with the scripted status, and a failed query writes a null pointer |
| `ComSession.DebugEngine.AttachProcess` | include/boost/stacktrace/detail/backend_windows.hpp:75-79 | the non-invasive attach is logged and reports the scripted status |
| `ComSession.DebugEngine.CoInitializeEx` | include/boost/stacktrace/detail/backend_windows.hpp:67 | COM initialisation is logged; its result is ignored |
| `ComSession.DebugEngine.GetNameByOffset` | include/boost/stacktrace/detail/backend_windows.hpp:146-162 | a name query with a buffer of the given size is logged with that size and answers with the engine's reply for that address and size |
| `ComSession.DebugEngine.GetFileByOffset` | include/boost/stacktrace/detail/backend_windows.hpp:193-211 | a line query asking only for the file name is logged with the buffer size and answers with the engine's reply for that address and size |
| `ComSession.DebugEngine.GetLineNumberByOffset` | include/boost/stacktrace/detail/backend_windows.hpp:232-239 | a line query asking only for the line number (no file buffer, size 0) is logged and answers with the engine's reply for that address |
| `ComSession.DebugEngine.Release` | include/boost/stacktrace/detail/backend_windows.hpp:53 | releasing an interface is logged, once per call |
| `ComSession.DebugEngine.WaitForEvent` | include/boost/stacktrace/detail/backend_windows.hpp:84 | the wait for the attach event is logged and reports the scripted status |
| `ComSession.ComHolder.constructor` | include/boost/stacktrace/detail/backend_windows.hpp:35-37 | a new holder holds the null pointer |
| `ComSession.ComHolder.IsInited` | include/boost/stacktrace/detail/backend_windows.hpp:47-49 | a holder is initialised exactly when its pointer is non-null |
| `ComSession.ComHolder.Receive` | include/boost/stacktrace/detail/backend_windows.hpp:43-45 | a pointer written through `to_void_ptr_ptr()` becomes the held pointer |
| `ComSession.ComHolder.Reset` | include/boost/stacktrace/detail/backend_windows.hpp:51-59 | `reset()` (and the destructor) releases the held interface once if there is one and leaves the held pointer as it was |
| `ComSession.TryInitCom` | include/boost/stacktrace/detail/backend_windows.hpp:62-96 | an initialised holder returns true at once with no call to the engine; otherwise exactly the calls of one attempt are made, the result is true iff attach, wait and the symbols query all return `S_OK`, and the holder then holds the symbols interface, staying null on every failure |
| `Backends.ProbeRetryConvention` | include/boost/stacktrace/detail/backend_windows.hpp:143-169 | one or two text queries, the first with the 256-byte buffer, the second only after a failure reporting a non-zero size and then with exactly that size; the text is the last query's when it returned `S_OK` and empty otherwise; an engine whose every answer fails yields the empty text |
| `Backends.ProbeCalls` | include/boost/stacktrace/detail/backend_windows.hpp:146-162 | the engine calls of one probe: one or two of them, and every one a name or line query, so `SessionCallsBalanced` covers what `get_name` and `get_source_file` send between session and release |
| `Backends.SessionCallsBalanced` | include/boost/stacktrace/detail/backend_windows.hpp:137-140 | a symbol query releases every interface it acquired exactly once (client, control, and symbols when the session was established); with no session, no query reaches the engine |
| `Backends.ProbeRetry` | include/boost/stacktrace/detail/backend_windows.hpp:190-219 | the step-by-step probe, resize, retry and clear sequence of `get_name` and `get_source_file` yields the probe/retry text and makes exactly the probe/retry calls |
| `Backends.HashCode.constructor` | include/boost/stacktrace/detail/backend_windows.hpp:114-119 | the `std::size_t& hash_code` out-parameter, a cell the constructor first sets to 0 (line 119) and then combines with the walker's hash |
| `Backends.Backend.constructor` | include/boost/stacktrace/detail/backend_windows.hpp:114-129 | the store lives in the caller's memory, holds exactly the walk of the current stack with at most `MaxFrames(size) <= Capacity(size)` frames, and the hash code is the combination of seed 0 with the walker's hash; no slot past the captured frames is written, which rests on the walker stand-in (see "## Left out") |
| `Backends.Backend.GetAddress` | include/boost/stacktrace/detail/backend_windows.hpp:174-176 | the address of a captured frame, in capture order; no bounds guard, so only captured frames may be asked for |
| `Backends.Backend.QueryText` | include/boost/stacktrace/detail/backend_windows.hpp:131-172 | the shared body of the two text queries: bounds guard with no engine call, session guard, probe/retry, release of the session |
| `Backends.Backend.GetName` | include/boost/stacktrace/detail/backend_windows.hpp:131-172 | empty with no engine call for a frame past the captured ones; otherwise one session attempt, and the probe/retry name text when the session was established, empty when not |
| `Backends.Backend.GetSourceFile` | include/boost/stacktrace/detail/backend_windows.hpp:178-222 | as `GetName`, with the file-name form of the line query |
| `Backends.Backend.GetSourceLine` | include/boost/stacktrace/detail/backend_windows.hpp:224-242 | with no session, 0 for any frame, and the engine sees only the session attempt; for a captured frame, the reported line when the session is established and the line query returns `S_OK`, 0 otherwise, with exactly one line query and only with a session; a frame past the captured ones may be asked for only when no session can be established, since the code reads its slot unguarded |
| `Backends.Backend.Less` | include/boost/stacktrace/detail/backend_windows.hpp:244-255 | `operator<` is count-then-lexicographic order on the captured addresses; with different counts it is decided by the counts alone; the identity shortcut agrees with irreflexivity |
| `Backends.Backend.Equals` | include/boost/stacktrace/detail/backend_windows.hpp:257-268 | `operator==` holds exactly when both traces hold the same addresses in the same order |
| `Backends.EqualsIsEquivalence` | include/boost/stacktrace/detail/backend_windows.hpp:257-268 | `operator==` is reflexive, symmetric and transitive on backends |
| `Backends.LessIsStrictWeakOrder` | include/boost/stacktrace/detail/backend_windows.hpp:244-268 | `operator<` is irreflexive, asymmetric and transitive, its incomparable pairs are exactly the `==` pairs, and for equal counts exactly one of a < b, b < a, a == b holds |

## Left out

- The real COM and DbgEng calls are not modelled. `CoInitializeEx`, `DebugCreate`, `QueryInterface`, `AttachProcess`, `WaitForEvent`, `GetNameByOffset`, `GetLineByOffset` and `Release` are foreign, process-wide calls. `DebugEngine` replaces them with scripted outcomes and a call log.
- `DebugCreate` and the `QueryInterface` for `IDebugControl` are taken always to succeed. The code does not check them, and would dereference a null pointer if they failed.
- A failed `QueryInterface` is taken to write a null pointer, as COM requires. So the `reset()` after it releases nothing. `reset()` leaves the pointer in place, so the double release that a non-null pointer would cause is not reached.
- `CoInitializeEx` is never balanced by an uninitialise call in the code. The model only logs it.
- The infinite blocking wait of `WaitForEvent` is reduced to its outcome: the model has no time, blocking or cancellation.
- Thread safety and the cost of attaching once per query are concurrency and performance concerns. They are not modelled.
- `CaptureStackBackTrace` is a system primitive. `FrameStore.CaptureStackBackTrace` stands in for it: it copies a window of a given call stack and applies a given hash function. The 16-bit width of its returned count is not modelled. That it writes nothing past the frames it reports is a property of this stand-in, which the system primitive does not promise; the constructor's "no slot past the captured ones is written" rests on it.
- The internals of `boost::hash_combine` are a library function outside this file. The constructor takes it as a function parameter.
- The object layout is not modelled: placement `new`, the flexible array member, `reinterpret_cast` of addresses to `ULONG64`, and byte-level `sizeof` arithmetic. The model keeps only the capacity formula, with the 64-bit sizes `sizeof(backtrace_holder) == sizeof(void*) == 8`. A block smaller than the header is undefined behaviour in the code, so the constructor requires `size >= 8`. Requiring that the caller's array has at least `Capacity(size)` slots stands for "the block really is `size` bytes long".
- Addresses are compared as unsigned 64-bit values. C++ leaves `<` between unrelated pointers unspecified; the model assumes the usual address order.
- C strings are not modelled: the NUL terminator of the 256-byte buffer, and the trailing NUL that `result.resize(size)` leaves in the retried text. A reply's text stands for whatever the engine left in the buffer.
- The destructor `~com_holder` is modelled by calls to `ComHolder.Reset` at each scope exit, in the code's destruction order. `operator->` is modelled by calling the engine directly.
- `get_source_line` returns a ULONG line number as `std::size_t`. The model uses unbounded naturals, since the conversion widens and loses nothing.
- `result.resize(size)` in `get_name` and `get_source_file` (lines 155 and 203) can throw `std::bad_alloc` or `std::length_error`, and neither function is `noexcept`. The model has no exceptions: `Backends.ProbeRetry` always completes the retry.
- A `DebugEngine` fixes the outcome of each session step when it is made, so repeated session attempts on one engine all have the same outcome. The model does not capture an engine whose attach succeeds on a later attempt after failing on an earlier one; each query in this file makes only one attempt.
