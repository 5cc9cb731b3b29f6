/** The raw frame store: a count followed by the captured return addresses,
    laid out inside a block of memory that the caller owns, and the native
    stack walker that fills it. */
module FrameStore {

  /** A raw return address: an opaque 64-bit machine word. */
  newtype Address = x: int | 0 <= x < 0x1_0000_0000_0000_0000

  /** sizeof(backtrace_holder) on a 64-bit target: the size_t count alone,
      since the trailing flexible array adds nothing to the size. */
  const HeaderBytes: nat := 8

  /** sizeof(void*) on a 64-bit target. */
  const WordBytes: nat := 8

  /** ULONG is 32 bits wide on Windows. */
  const ULongModulus: nat := 0x1_0000_0000

  /** The number of addresses that fit after the header in a block of `size`
      bytes: the largest count whose slots end inside the block. */
  function Capacity(size: nat): (n: nat)
    requires HeaderBytes <= size
    ensures HeaderBytes + n * WordBytes <= size
    ensures size < HeaderBytes + (n + 1) * WordBytes
  {
    (size - HeaderBytes) / WordBytes
  }

  /** The maximum handed to the walker: the capacity narrowed to a ULONG. */
  function MaxFrames(size: nat): (m: nat)
    requires HeaderBytes <= size
    ensures m <= Capacity(size)
    ensures m < ULongModulus
    ensures Capacity(size) < ULongModulus ==> m == Capacity(size)
  {
    Capacity(size) % ULongModulus
  }

  function Min(a: nat, b: nat): nat { if a <= b then a else b }

  /** The frames a walk of `stack` (innermost first) yields when it skips
      `skip` frames and keeps at most `max` of them. */
  function Walk(stack: seq<Address>, skip: nat, max: nat): (frames: seq<Address>)
    ensures |frames| <= max
    ensures |frames| == Min(|stack| - Min(skip, |stack|), max)
    ensures forall i :: 0 <= i < |frames| ==> frames[i] == stack[skip + i]
  {
    var rest := stack[Min(skip, |stack|)..];
    rest[..Min(|rest|, max)]
  }

  /** Stand-in for the operating system's stack walker: it writes the walk of
      the current call stack `stack` into the first slots of `backTrace`, and
      reports how many it wrote together with the system's own hash of them. */
  method CaptureStackBackTrace(
    framesToSkip: nat, framesToCapture: nat, backTrace: array<Address>,
    stack: seq<Address>, traceHash: seq<Address> -> nat)
    returns (captured: nat, backTraceHash: nat)
    requires framesToCapture <= backTrace.Length
    modifies backTrace
    ensures captured <= framesToCapture
    ensures backTrace[..captured] == Walk(stack, framesToSkip, framesToCapture)
    ensures backTrace[captured..] == old(backTrace[captured..])
    ensures backTraceHash == traceHash(Walk(stack, framesToSkip, framesToCapture))
  {
    var frames := Walk(stack, framesToSkip, framesToCapture);
    captured := 0;
    while captured < |frames|
      invariant captured <= |frames|
      invariant backTrace[..captured] == frames[..captured]
      invariant backTrace[captured..] == old(backTrace[captured..])
    {
      backTrace[captured] := frames[captured];
      captured := captured + 1;
    }
    backTraceHash := traceHash(frames);
  }

  /** backtrace_holder: a frame count and the address slots that follow it in
      the caller's block. The slots are the caller's array: the holder never
      allocates storage of its own. */
  class BacktraceHolder {
    var framesCount: nat
    const buffer: array<Address>

    ghost predicate Valid()
      reads this
    {
      framesCount <= buffer.Length
    }

    /** The captured addresses, in capture order. */
    function Frames(): (s: seq<Address>)
      reads this, buffer
      requires Valid()
      ensures |s| == framesCount
    {
      buffer[..framesCount]
    }

    /** Placement construction into `memory` followed by `frames_count = 0`. */
    constructor (memory: array<Address>)
      ensures buffer == memory && framesCount == 0
      ensures Valid() && Frames() == []
    {
      buffer := memory;
      framesCount := 0;
    }

    /** The copy constructor, placed into `memory`: it takes the count of `d`
        and copies exactly that many addresses, writing no slot beyond them. */
    constructor Copy(d: BacktraceHolder, memory: array<Address>)
      requires d.Valid() && d.framesCount <= memory.Length
      modifies memory
      ensures buffer == memory && framesCount == d.framesCount
      ensures Valid() && Frames() == old(d.Frames())
      ensures memory[d.framesCount..] == old(memory[d.framesCount..])
    {
      buffer := memory;
      framesCount := d.framesCount;
      var n := d.framesCount;
      var i := 0;
      while i < n
        invariant i <= n
        invariant forall k :: 0 <= k < i ==> memory[k] == old(d.buffer[k])
        invariant forall k :: i <= k < memory.Length ==> memory[k] == old(memory[k])
        invariant d.framesCount == n
      {
        memory[i] := d.buffer[i];
        i := i + 1;
      }
    }
  }
}
