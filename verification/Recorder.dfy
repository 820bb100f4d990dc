/** The recorder's copy loops: one event context per trace instance, driven by completion callbacks. */
module Recorder {

  type byte = x: int | 0 <= x < 256
  type Bytes = seq<byte>

  const BUF_LEN: nat := 4096
  const UV_EAGAIN: int := -11

  /** What the loop still has to call back for. */
  datatype Request = OpenReq | ReadReq(len: nat) | WriteReq(len: nat) | RetryTimer

  /** One event_ctx: its descriptors, the length it asks for, and what it has outstanding. buf is its buffer, which reads fill
      from the front and writes are taken from; pipe is what can still be read, file what has reached the output; chunks and
      lens tell how they were moved. */
  datatype Ctx = Ctx(
    fdIn: int, fdOut: int, iovLen: nat, outstanding: seq<Request>, closed: seq<int>,
    buf: Bytes, pipe: Bytes, file: Bytes, chunks: seq<Bytes>, lens: seq<nat>)

  // ---- callbacks ----

  function StartRead(c: Ctx): Ctx {
    c.(outstanding := c.outstanding + [ReadReq(c.iovLen)])
  }

  function StartWrite(c: Ctx): Ctx {
    c.(outstanding := c.outstanding + [WriteReq(c.iovLen)])
  }

  function Cleanup(c: Ctx): Ctx {
    c.(closed := c.closed + [c.fdIn, c.fdOut])
  }

  function OnOpen(c: Ctx, result: int): Ctx {
    if result < 0 then c else StartRead(c.(fdIn := result))
  }

  function OnRead(c: Ctx, result: int, expired: bool): Ctx {
    if result <= 0 then
      if expired then Cleanup(c)
      else if result != UV_EAGAIN then Cleanup(c)
      else c.(outstanding := c.outstanding + [RetryTimer])
    else
      StartWrite(c.(iovLen := result))
  }

  function OnWrite(c: Ctx, result: int): Ctx {
    if result < 0 then Cleanup(c) else StartRead(c.(iovLen := BUF_LEN))
  }

  function OnRetry(c: Ctx): Ctx {
    StartRead(c)
  }

  /** The same callbacks as the program has them, on the context object. */
  class EventCtx {
    var fdIn: int
    var fdOut: int
    var iovLen: nat
    var outstanding: seq<Request>
    var closed: seq<int>

    /** The fields, together with an environment e that the callbacks do not touch. */
    function Value(e: Ctx): Ctx
      reads this
    {
      e.(fdIn := fdIn, fdOut := fdOut, iovLen := iovLen, outstanding := outstanding, closed := closed)
    }

    /** init_event_ctx, then the two opens of record_events. */
    constructor (fdOut: int)
      ensures forall e: Ctx :: Value(e) == e.(fdIn := -1, fdOut := fdOut, iovLen := BUF_LEN, outstanding := [OpenReq], closed := [])
    {
      this.fdIn, this.fdOut, iovLen, outstanding, closed := -1, fdOut, BUF_LEN, [OpenReq], [];
    }

    method CleanupCtx()
      modifies this
      ensures forall e: Ctx :: Value(e) == Cleanup(old(Value(e)))
    {
      closed := closed + [fdIn];
      closed := closed + [fdOut];
    }

    method OnOpenCb(result: int)
      modifies this
      ensures forall e: Ctx :: Value(e) == OnOpen(old(Value(e)), result)
    {
      if result < 0 {
        return;
      }
      fdIn := result;
      outstanding := outstanding + [ReadReq(iovLen)];
    }

    method OnReadCb(result: int, expired: bool)
      modifies this
      ensures forall e: Ctx :: Value(e) == OnRead(old(Value(e)), result, expired)
    {
      if result <= 0 {
        if expired || result != UV_EAGAIN {
          CleanupCtx();
        } else {
          outstanding := outstanding + [RetryTimer];
        }
        return;
      }
      iovLen := result;
      outstanding := outstanding + [WriteReq(iovLen)];
    }

    method OnWriteCb(result: int)
      modifies this
      ensures forall e: Ctx :: Value(e) == OnWrite(old(Value(e)), result)
    {
      if result < 0 {
        CleanupCtx();
        return;
      }
      iovLen := BUF_LEN;
      outstanding := outstanding + [ReadReq(iovLen)];
    }

    method OnRetryCb()
      modifies this
      ensures forall e: Ctx :: Value(e) == OnRetry(old(Value(e)))
    {
      outstanding := outstanding + [ReadReq(iovLen)];
    }
  }

  // ---- the whole recorder ----

  /** timerOn, signalOn: whether the expiry timer and the interrupt handler are armed. The counters tell which ran. */
  datatype Sys = Sys(ctxs: seq<Ctx>, expired: bool, timerOn: bool, signalOn: bool, timerRuns: nat, signalRuns: nat)

  /** What can happen next. Completions take the request they complete out of the context. */
  datatype Event =
    | OpenDone(i: nat, result: int)
    | ReadDone(i: nat, result: int)
    | WriteDone(i: nat, result: int)
    | RetryFires(i: nat)
    | TimerExpires
    | Interrupt
    | PipeGrows(i: nat, more: Bytes)

  predicate OnContext(e: Event) { e.OpenDone? || e.ReadDone? || e.WriteDone? || e.RetryFires? || e.PipeGrows? }

  /** A completion needs a request of its kind; a read returns at most what was asked for and is there, a write at most
      its length. */
  ghost predicate Enabled(s: Sys, e: Event) {
    (OnContext(e) ==> e.i < |s.ctxs|) &&
    match e
    case OpenDone(i, _) => OpenReq in s.ctxs[i].outstanding
    case ReadDone(i, r) => exists len :: ReadReq(len) in s.ctxs[i].outstanding && r <= len && r <= |s.ctxs[i].pipe|
    case WriteDone(i, r) => exists len :: WriteReq(len) in s.ctxs[i].outstanding && r <= len
    case RetryFires(i) => RetryTimer in s.ctxs[i].outstanding
    case TimerExpires => s.timerOn
    case Interrupt => s.signalOn
    case PipeGrows(_, _) => true
  }

  /** What is moved is there, and within the buffer. */
  predicate Fits(c: Ctx, e: Event) {
    && (e.ReadDone? ==> e.result <= |c.pipe| && e.result <= |c.buf|)
    && (e.WriteDone? ==> e.result <= |c.buf|)
  }

  /** Completing: the request leaves, the environment moves its bytes, then the callback runs. The loop has one request
      per context outstanding (see OneRequest), so completing it empties the list. */
  ghost function StepCtx(c: Ctx, e: Event, expired: bool): Ctx
    requires OnContext(e) && Fits(c, e)
  {
    match e
    case OpenDone(_, r) => OnOpen(c.(outstanding := []), r)
    case ReadDone(_, r) =>
      if r <= 0 then OnRead(c.(outstanding := []), r, expired)
      else
        var got := c.pipe[..r];
        OnRead(c.(outstanding := [], pipe := c.pipe[r..], buf := got + c.buf[r..], chunks := c.chunks + [got]), r, expired)
    case WriteDone(_, r) =>
      var n := if r < 0 then 0 else r;
      OnWrite(c.(outstanding := [], file := c.file + c.buf[..n], lens := c.lens + [n]), r)
    case RetryFires(_) => OnRetry(c.(outstanding := []))
    case PipeGrows(_, more) => c.(pipe := c.pipe + more)
  }

  // ---- what every run keeps ----

  /** Chunk after chunk, the part of each that was written. */
  ghost function Written(chunks: seq<Bytes>, lens: seq<nat>): Bytes
    requires |lens| <= |chunks| && forall i :: 0 <= i < |lens| ==> lens[i] <= |chunks[i]|
  {
    if lens == [] then [] else
    Written(chunks, lens[..|lens| - 1]) + chunks[|lens| - 1][..lens[|lens| - 1]]
  }

  ghost function Joined(chunks: seq<Bytes>): Bytes {
    if chunks == [] then [] else Joined(chunks[..|chunks| - 1]) + chunks[|chunks| - 1]
  }

  /** At most one request or timer, reads of the whole buffer, writes of the length set, and nothing outstanding once closed. */
  ghost predicate OneRequest(c: Ctx) {
    && |c.outstanding| <= 1 && |c.buf| == BUF_LEN && c.iovLen <= BUF_LEN
    && (c.closed == [] || (c.closed == [c.fdIn, c.fdOut] && c.outstanding == []))
    && (c.outstanding != [] && !c.outstanding[0].WriteReq? ==> c.iovLen == BUF_LEN)
    && (c.outstanding != [] && c.outstanding[0].ReadReq? ==> c.outstanding[0].len == BUF_LEN)
    && (c.outstanding != [] && c.outstanding[0].WriteReq? ==> c.outstanding[0].len == c.iovLen)
  }

  /** The file is the written parts of the chunks read, in order; only the chunk being written may be missing, and that is
      what the buffer holds up to the length of the write. */
  ghost predicate InOrder(c: Ctx) {
    && |c.lens| <= |c.chunks| && (forall i :: 0 <= i < |c.lens| ==> c.lens[i] <= |c.chunks[i]|)
    && c.file == Written(c.chunks, c.lens)
    && (if c.outstanding != [] && c.outstanding[0].WriteReq?
        then |c.lens| == |c.chunks| - 1 && c.outstanding[0].len <= |c.buf|
          && c.buf[..c.outstanding[0].len] == c.chunks[|c.lens|] != []
        else |c.lens| == |c.chunks|)
  }

  ghost predicate Shutdown(s: Sys) {
    && s.timerRuns <= 1 && (s.timerRuns == 0 || s.signalRuns == 0)
    && (s.expired <==> s.timerRuns > 0 || s.signalRuns > 0)
    && (s.timerOn <==> !s.expired) && (s.signalOn <==> s.timerRuns == 0)
  }

  ghost predicate Sound(s: Sys) {
    Shutdown(s) && forall i :: 0 <= i < |s.ctxs| ==> OneRequest(s.ctxs[i]) && InOrder(s.ctxs[i])
  }

  /** One step of the loop. */
  ghost function Step(s: Sys, e: Event): Sys
    requires Sound(s) && Enabled(s, e)
  {
    match e
    case TimerExpires => s.(expired := true, timerOn := false, signalOn := false, timerRuns := s.timerRuns + 1)
    case Interrupt => s.(expired := true, timerOn := false, signalRuns := s.signalRuns + 1)
    case _ =>
      s.(ctxs := s.ctxs[e.i := StepCtx(s.ctxs[e.i], e, s.expired)])
  }

  lemma WrittenMore(chunks: seq<Bytes>, lens: seq<nat>, n: nat)
    requires |lens| < |chunks| && n <= |chunks[|lens|]| && forall i :: 0 <= i < |lens| ==> lens[i] <= |chunks[i]|
    ensures forall i :: 0 <= i < |lens + [n]| ==> (lens + [n])[i] <= |chunks[i]|
    ensures Written(chunks, lens + [n]) == Written(chunks, lens) + chunks[|lens|][..n]
  {
    assert (lens + [n])[..|lens|] == lens;
  }

  lemma {:induction false} WrittenGrows(chunks: seq<Bytes>, more: Bytes, lens: seq<nat>)
    requires |lens| <= |chunks| && forall i :: 0 <= i < |lens| ==> lens[i] <= |chunks[i]|
    ensures Written(chunks + [more], lens) == Written(chunks, lens)
    decreases |lens|
  {
    if lens != [] { WrittenGrows(chunks, more, lens[..|lens| - 1]); }
  }

  lemma ReadKeeps(c: Ctx, r: int, expired: bool)
    requires OneRequest(c) && InOrder(c) && c.outstanding == [ReadReq(BUF_LEN)] && r <= BUF_LEN && r <= |c.pipe|
    ensures var c' := StepCtx(c, ReadDone(0, r), expired); OneRequest(c') && InOrder(c')
  {
    if r > 0 { WrittenGrows(c.chunks, c.pipe[..r], c.lens); }
  }

  lemma OthersKeep(c: Ctx, e: Event, expired: bool)
    requires OneRequest(c) && InOrder(c) && (e.OpenDone? || e.RetryFires? || e.PipeGrows?)
    requires (e.OpenDone? ==> OpenReq in c.outstanding) && (e.RetryFires? ==> RetryTimer in c.outstanding)
    ensures var c' := StepCtx(c, e, expired); OneRequest(c') && InOrder(c')
  {
  }

  lemma WriteKeeps(c: Ctx, r: int)
    requires OneRequest(c) && InOrder(c) && c.outstanding != [] && c.outstanding[0].WriteReq? && r <= c.outstanding[0].len
    ensures var c' := StepCtx(c, WriteDone(0, r), false); OneRequest(c') && InOrder(c')
  {
    var n: nat := if r < 0 then 0 else r;
    WrittenMore(c.chunks, c.lens, n);
    assert c.buf[..c.iovLen][..n] == c.buf[..n];
  }

  /** No interleaving breaks the copying of any context, nor the shutdown protocol. */
  lemma StepKeepsSound(s: Sys, e: Event)
    requires Sound(s) && Enabled(s, e)
    ensures Sound(Step(s, e))
  {
    if OnContext(e) {
      ContextKeeps(s, e);
    }
  }

  lemma ContextKeeps(s: Sys, e: Event)
    requires Sound(s) && Enabled(s, e) && OnContext(e)
    ensures var c' := Step(s, e).ctxs[e.i]; OneRequest(c') && InOrder(c')
  {
    var c := s.ctxs[e.i];
    assert OneRequest(c) && InOrder(c);
    match e
    case ReadDone(_, r) => ReadKeeps(c, r, s.expired);
    case WriteDone(_, r) => WriteKeeps(c, r);
    case _ => OthersKeep(c, e, s.expired);
  }

  /** A context as it is set up: a buffer of any contents, and the open of its input outstanding. */
  ghost predicate Fresh(c: Ctx) {
    c == Ctx(-1, c.fdOut, BUF_LEN, [OpenReq], [], c.buf, c.pipe, [], [], []) && |c.buf| == BUF_LEN
  }

  ghost predicate Start(s: Sys) {
    && !s.expired && s.timerOn && s.signalOn && s.timerRuns == s.signalRuns == 0
    && forall i :: 0 <= i < |s.ctxs| ==> Fresh(s.ctxs[i])
  }

  /** The states a list of events leads to, as long as each is possible. */
  ghost predicate Run(s: Sys, es: seq<Event>, s': Sys)
    decreases |es|
  {
    if es == [] then s' == s
    else Sound(s) && Enabled(s, es[0]) && Run(Step(s, es[0]), es[1..], s')
  }

  lemma StartIsSound(s: Sys)
    requires Start(s)
    ensures Sound(s)
  {
  }

  lemma {:induction false} RunKeepsSound(s: Sys, es: seq<Event>, s': Sys)
    requires Sound(s) && Run(s, es, s')
    ensures Sound(s')
    decreases |es|
  {
    if es != [] {
      StepKeepsSound(s, es[0]);
      RunKeepsSound(Step(s, es[0]), es[1..], s');
    }
  }

  /** The part of the buffer that is being written. */
  ghost function InFlight(c: Ctx): Bytes
    requires OneRequest(c)
  {
    if c.outstanding != [] && c.outstanding[0].WriteReq? then c.buf[..c.outstanding[0].len] else []
  }

  /** In every run, while a write is outstanding its length, and the length the context keeps, is that of the last read that
      brought something, and the buffer holds what that read brought. */
  lemma WriteIsLastRead(s: Sys, es: seq<Event>, s': Sys, i: nat)
    requires Start(s) && Run(s, es, s') && i < |s'.ctxs|
    requires s'.ctxs[i].outstanding != [] && s'.ctxs[i].outstanding[0].WriteReq?
    ensures var c := s'.ctxs[i];
      && c.chunks != [] && c.outstanding[0].len == c.iovLen == |c.chunks[|c.chunks| - 1]| <= |c.buf| == 4096
      && c.buf[..c.iovLen] == c.chunks[|c.chunks| - 1]
  {
    StartIsSound(s);
    RunKeepsSound(s, es, s');
    assert OneRequest(s'.ctxs[i]) && InOrder(s'.ctxs[i]);
  }

  lemma {:induction false} FullWrites(chunks: seq<Bytes>, lens: seq<nat>)
    requires |lens| <= |chunks| && forall i :: 0 <= i < |lens| ==> lens[i] == |chunks[i]|
    ensures Written(chunks, lens) == Joined(chunks[..|lens|])
    decreases |lens|
  {
    if lens != [] {
      FullWrites(chunks, lens[..|lens| - 1]);
      assert chunks[..|lens|][..|lens| - 1] == chunks[..|lens| - 1];
    }
  }

  lemma {:induction false} JoinedLength(chunks: seq<Bytes>, lens: seq<nat>)
    requires |lens| <= |chunks| && forall i :: 0 <= i < |lens| ==> lens[i] <= |chunks[i]|
    ensures |Written(chunks, lens)| <= |Joined(chunks[..|lens|])|
    ensures |Written(chunks, lens)| == |Joined(chunks[..|lens|])| ==> forall i :: 0 <= i < |lens| ==> lens[i] == |chunks[i]|
    decreases |lens|
  {
    if lens != [] {
      JoinedLength(chunks, lens[..|lens| - 1]);
      assert chunks[..|lens|][..|lens| - 1] == chunks[..|lens| - 1];
    }
  }

  /** In every run, output plus the write in flight is exactly what was read if and only if no write was short or failed:
      the rest of a short write is never sent again. */
  lemma CopyIsExactIff(s: Sys, es: seq<Event>, s': Sys, i: nat)
    requires Start(s) && Run(s, es, s') && i < |s'.ctxs|
    ensures var c := s'.ctxs[i];
      && OneRequest(c) && |c.lens| <= |c.chunks|
      && (c.file + InFlight(c) == Joined(c.chunks) <==> forall j :: 0 <= j < |c.lens| ==> c.lens[j] == |c.chunks[j]|)
  {
    StartIsSound(s);
    RunKeepsSound(s, es, s');
    var c := s'.ctxs[i];
    var done := c.chunks[..|c.lens|];
    assert Joined(c.chunks) == Joined(done) + InFlight(c) by {
      if |c.lens| == |c.chunks| { assert done == c.chunks; }
    }
    JoinedLength(c.chunks, c.lens);
    if forall j :: 0 <= j < |c.lens| ==> c.lens[j] == |c.chunks[j]| { FullWrites(c.chunks, c.lens); }
    if c.file + InFlight(c) == Joined(c.chunks) { assert |c.file| == |Joined(done)|; }
  }

  /** What is read, followed by what is still in the pipe, is what went into the pipe. */
  ghost function Taken(c: Ctx): Bytes { Joined(c.chunks) + c.pipe }

  lemma TakenMoves(c: Ctx, r: nat)
    requires r <= |c.pipe|
    ensures Joined(c.chunks + [c.pipe[..r]]) + c.pipe[r..] == Taken(c)
  {
    assert (c.chunks + [c.pipe[..r]])[..|c.chunks|] == c.chunks;
    assert c.pipe == c.pipe[..r] + c.pipe[r..];
  }

  lemma TakenStep(c: Ctx, e: Event, expired: bool)
    requires OnContext(e) && Fits(c, e)
    ensures Taken(StepCtx(c, e, expired)) == Taken(c) + if e.PipeGrows? then e.more else []
  {
    if e.ReadDone? && e.result > 0 {
      TakenMoves(c, e.result);
    } else if e.PipeGrows? {
      assert Joined(c.chunks) + (c.pipe + e.more) == Taken(c) + e.more;
    }
  }

  /** Bytes leave the pipe only into chunks, in order. */
  lemma NothingSkipped(s: Sys, e: Event, i: nat)
    requires Sound(s) && Enabled(s, e) && i < |s.ctxs|
    ensures i < |Step(s, e).ctxs|
    ensures Taken(Step(s, e).ctxs[i]) == Taken(s.ctxs[i]) + if e.PipeGrows? && e.i == i then e.more else []
  {
    if OnContext(e) && e.i == i {
      assert OneRequest(s.ctxs[i]);
      TakenStep(s.ctxs[i], e, s.expired);
    }
  }

  /** All that flows into pipe i during the events. */
  ghost function Growth(es: seq<Event>, i: nat): Bytes {
    if es == [] then [] else (if es[0].PipeGrows? && es[0].i == i then es[0].more else []) + Growth(es[1..], i)
  }

  /** Over every run, what was read and what is left are what was there and what flowed in, in order. */
  lemma {:induction false} NothingLost(s: Sys, es: seq<Event>, s': Sys, i: nat)
    requires Sound(s) && Run(s, es, s') && i < |s.ctxs|
    ensures i < |s'.ctxs| && Taken(s'.ctxs[i]) == Taken(s.ctxs[i]) + Growth(es, i)
    decreases |es|
  {
    if es == [] {
      assert Taken(s.ctxs[i]) + [] == Taken(s.ctxs[i]);
    } else {
      NothingSkipped(s, es[0], i);
      StepKeepsSound(s, es[0]);
      NothingLost(Step(s, es[0]), es[1..], s', i);
      var a, b := if es[0].PipeGrows? && es[0].i == i then es[0].more else [], Growth(es[1..], i);
      assert Taken(s.ctxs[i]) + a + b == Taken(s.ctxs[i]) + (a + b);
    }
  }

  // ---- shutdown ----

  /** Steps left to a context once nothing more flows in and every empty read closes it. */
  ghost function Left(c: Ctx): nat {
    4 * |c.pipe| +
    if c.outstanding == [] then 0 else
    match c.outstanding[0]
    case OpenReq => 3
    case RetryTimer => 2
    case WriteReq(_) => 2
    case ReadReq(_) => 1
  }

  ghost predicate Draining(s: Sys, e: Event) { s.expired && !e.PipeGrows? }

  /** After expiry each callback of a context uses up some of what it has left, and other events none. */
  lemma DrainStep(s: Sys, e: Event, i: nat)
    requires Sound(s) && Enabled(s, e) && Draining(s, e) && i < |s.ctxs|
    ensures Step(s, e).expired && i < |Step(s, e).ctxs|
    ensures OnContext(e) && e.i == i ==> Left(Step(s, e).ctxs[i]) < Left(s.ctxs[i])
    ensures !(OnContext(e) && e.i == i) ==> Step(s, e).ctxs[i] == s.ctxs[i]
  {
    assert OneRequest(s.ctxs[i]) && InOrder(s.ctxs[i]);
  }

  /** How many of the events are callbacks of context i. */
  ghost function Callbacks(es: seq<Event>, i: nat): nat {
    if es == [] then 0 else (if OnContext(es[0]) && es[0].i == i then 1 else 0) + Callbacks(es[1..], i)
  }

  /** Once expired, a context gets at most as many callbacks as its remaining bytes allow. */
  lemma {:induction false} DrainEnds(s: Sys, es: seq<Event>, s': Sys, i: nat)
    requires Sound(s) && Run(s, es, s') && s.expired && i < |s.ctxs| && forall e :: e in es ==> !e.PipeGrows?
    ensures i < |s'.ctxs| && s'.expired && Callbacks(es, i) + Left(s'.ctxs[i]) <= Left(s.ctxs[i])
    decreases |es|
  {
    if es != [] {
      assert es[0] in es;
      DrainStep(s, es[0], i);
      StepKeepsSound(s, es[0]);
      DrainEnds(Step(s, es[0]), es[1..], s', i);
    }
  }

  /** A context that was opened and has nothing outstanding is closed: both descriptors, once each. */
  ghost predicate OpenedIsClosed(c: Ctx) {
    c.outstanding == [] && 0 <= c.fdIn ==> c.closed == [c.fdIn, c.fdOut]
  }

  ghost predicate FdSet(c: Ctx) {
    c.outstanding != [] ==> (c.outstanding[0].OpenReq? <==> c.fdIn < 0)
  }

  /** Opening happens once, and what it returned stays. */
  lemma FdStep(s: Sys, e: Event, i: nat)
    requires Sound(s) && Enabled(s, e) && i < |s.ctxs| && FdSet(s.ctxs[i])
    ensures i < |Step(s, e).ctxs| && FdSet(Step(s, e).ctxs[i]) && Step(s, e).ctxs[i].fdOut == s.ctxs[i].fdOut
    ensures Step(s, e).ctxs[i].fdIn == if e.OpenDone? && e.i == i && 0 <= e.result then e.result else s.ctxs[i].fdIn
    ensures e.OpenDone? && e.i == i ==> s.ctxs[i].fdIn < 0
  {
    assert OneRequest(s.ctxs[i]) && InOrder(s.ctxs[i]);
  }

  lemma {:induction false} FdOfARun(s: Sys, es: seq<Event>, s': Sys, i: nat)
    requires Sound(s) && Run(s, es, s') && i < |s.ctxs| && FdSet(s.ctxs[i])
    ensures i < |s'.ctxs| && FdSet(s'.ctxs[i]) && s'.ctxs[i].fdOut == s.ctxs[i].fdOut
    ensures 0 <= s.ctxs[i].fdIn ==> s'.ctxs[i].fdIn == s.ctxs[i].fdIn && forall r :: OpenDone(i, r) !in es
    ensures s.ctxs[i].fdIn < 0 ==>
      && (s'.ctxs[i].fdIn < 0 ==> s'.ctxs[i].fdIn == s.ctxs[i].fdIn)
      && forall r :: 0 <= r ==> (OpenDone(i, r) in es <==> s'.ctxs[i].fdIn == r)
    decreases |es|
  {
    if es != [] {
      FdStep(s, es[0], i);
      StepKeepsSound(s, es[0]);
      FdOfARun(Step(s, es[0]), es[1..], s', i);
      assert forall e :: e in es <==> e == es[0] || e in es[1..];
    }
  }

  /** In every run the input descriptor is what the context's open returned, and -1 if it did not succeed; the output is the one
      the context was set up with. So these are what ClosedIff says is closed. */
  lemma FdIsWhatWasOpened(s: Sys, es: seq<Event>, s': Sys, i: nat)
    requires Start(s) && Run(s, es, s') && i < |s.ctxs|
    ensures i < |s'.ctxs| && s'.ctxs[i].fdOut == s.ctxs[i].fdOut
    ensures forall r :: 0 <= r ==> (OpenDone(i, r) in es <==> s'.ctxs[i].fdIn == r)
    ensures (forall r :: 0 <= r ==> OpenDone(i, r) !in es) ==> s'.ctxs[i].fdIn == -1
  {
    StartIsSound(s);
    assert Fresh(s.ctxs[i]);
    FdOfARun(s, es, s', i);
    var fd := s'.ctxs[i].fdIn;
    if 0 <= fd { assert OpenDone(i, fd) in es; }
  }

  lemma QuietStep(s: Sys, e: Event, i: nat)
    requires Sound(s) && Enabled(s, e) && i < |s.ctxs| && OpenedIsClosed(s.ctxs[i]) && FdSet(s.ctxs[i])
    ensures i < |Step(s, e).ctxs| && OpenedIsClosed(Step(s, e).ctxs[i]) && FdSet(Step(s, e).ctxs[i])
  {
    assert OneRequest(s.ctxs[i]) && InOrder(s.ctxs[i]);
  }

  lemma {:induction false} QuietMeansClosed(s: Sys, es: seq<Event>, s': Sys, i: nat)
    requires Sound(s) && Run(s, es, s') && i < |s.ctxs| && OpenedIsClosed(s.ctxs[i]) && FdSet(s.ctxs[i])
    ensures i < |s'.ctxs| && OpenedIsClosed(s'.ctxs[i]) && FdSet(s'.ctxs[i])
    decreases |es|
  {
    if es != [] {
      StepKeepsSound(s, es[0]);
      QuietStep(s, es[0], i);
      QuietMeansClosed(Step(s, es[0]), es[1..], s', i);
    }
  }

  /** As long as a context waits for something, some callback of it is possible; so draining cannot get stuck, and what
      DrainEnds bounds ends with nothing outstanding. */
  lemma NeverStuck(s: Sys, i: nat)
    requires Sound(s) && i < |s.ctxs|
    ensures s.ctxs[i].outstanding != [] <==> exists e :: OnContext(e) && !e.PipeGrows? && e.i == i && Enabled(s, e)
  {
    var c := s.ctxs[i];
    assert OneRequest(c);
    if c.outstanding != [] {
      assert c.outstanding[0] in c.outstanding;
      match c.outstanding[0]
      case OpenReq => assert Enabled(s, OpenDone(i, 0));
      case ReadReq(len) =>
        assert ReadReq(len) in c.outstanding && 0 <= len;
        assert Enabled(s, ReadDone(i, 0));
      case WriteReq(len) =>
        assert WriteReq(len) in c.outstanding && 0 <= len;
        assert Enabled(s, WriteDone(i, 0));
      case RetryTimer => assert Enabled(s, RetryFires(i));
    }
  }

  /** In every run a context that was opened and waits for nothing has had each of its descriptors closed once, and any
      other context none. */
  lemma ClosedIff(s: Sys, es: seq<Event>, s': Sys, i: nat)
    requires Start(s) && Run(s, es, s') && i < |s.ctxs| && i < |s'.ctxs|
    ensures var c := s'.ctxs[i]; c.closed == if c.outstanding == [] && 0 <= c.fdIn then [c.fdIn, c.fdOut] else []
  {
    StartIsSound(s);
    RunKeepsSound(s, es, s');
    QuietMeansClosed(s, es, s', i);
    ClosedWasOpened(s, es, s', i);
  }

  /** Nothing can call back to context i any more. */
  ghost predicate Idle(s: Sys, i: nat) {
    forall e :: OnContext(e) && !e.PipeGrows? && e.i == i ==> !Enabled(s, e)
  }

  /** In every run after expiry with nothing more flowing in, a context has at most as many callbacks as it had left; and
      when none is possible any more, it waits for nothing and, if it was opened, both its descriptors are closed. */
  lemma DrainedIsClosed(s0: Sys, es0: seq<Event>, s: Sys, es: seq<Event>, s': Sys, i: nat)
    requires Start(s0) && Run(s0, es0, s) && i < |s0.ctxs| && i < |s.ctxs|
    requires s.expired && Run(s, es, s') && forall e :: e in es ==> !e.PipeGrows?
    ensures i < |s'.ctxs| && Callbacks(es, i) + Left(s'.ctxs[i]) <= Left(s.ctxs[i])
    ensures var c := s'.ctxs[i];
      Idle(s', i) ==> c.outstanding == [] && (0 <= c.fdIn ==> c.closed == [c.fdIn, c.fdOut])
  {
    StartIsSound(s0);
    RunKeepsSound(s0, es0, s);
    RunKeepsSound(s, es, s');
    QuietMeansClosed(s0, es0, s, i);
    DrainEnds(s, es, s', i);
    QuietMeansClosed(s, es, s', i);
    NeverStuck(s', i);
  }

  /** A read comes back without data only if there is none, and no write fails. */
  ghost predicate Honest(s: Sys, e: Event) {
    OnContext(e) && e.i < |s.ctxs| ==>
      && (e.ReadDone? && e.result <= 0 ==> s.ctxs[e.i].pipe == [])
      && (e.WriteDone? ==> 0 <= e.result)
  }

  ghost predicate HonestRun(s: Sys, es: seq<Event>)
    decreases |es|
  {
    es == [] || (Sound(s) && Enabled(s, es[0]) && Honest(s, es[0]) && HonestRun(Step(s, es[0]), es[1..]))
  }

  ghost predicate ClosedIsEmpty(c: Ctx) { c.closed != [] ==> c.pipe == [] }

  lemma HonestStep(s: Sys, e: Event, i: nat)
    requires Sound(s) && Enabled(s, e) && Honest(s, e) && !e.PipeGrows? && i < |s.ctxs| && ClosedIsEmpty(s.ctxs[i])
    ensures i < |Step(s, e).ctxs| && ClosedIsEmpty(Step(s, e).ctxs[i])
  {
    assert OneRequest(s.ctxs[i]) && InOrder(s.ctxs[i]);
  }

  lemma {:induction false} HonestCloses(s: Sys, es: seq<Event>, s': Sys, i: nat)
    requires Sound(s) && Run(s, es, s') && HonestRun(s, es) && i < |s.ctxs| && ClosedIsEmpty(s.ctxs[i])
    requires forall e :: e in es ==> !e.PipeGrows?
    ensures i < |s'.ctxs| && ClosedIsEmpty(s'.ctxs[i])
    decreases |es|
  {
    if es != [] {
      assert es[0] in es;
      HonestStep(s, es[0], i);
      StepKeepsSound(s, es[0]);
      HonestCloses(Step(s, es[0]), es[1..], s', i);
    }
  }

  lemma {:induction false} RunConcat(s: Sys, es: seq<Event>, t: Sys, fs: seq<Event>, u: Sys)
    requires Run(s, es, t) && Run(t, fs, u)
    ensures Run(s, es + fs, u)
    decreases |es|
  {
    if es == [] {
      assert es + fs == fs;
    } else {
      assert (es + fs)[0] == es[0] && (es + fs)[1..] == es[1..] + fs;
      RunConcat(Step(s, es[0]), es[1..], t, fs, u);
    }
  }

  lemma {:induction false} NoGrowth(es: seq<Event>, i: nat)
    requires forall e :: e in es ==> !e.PipeGrows?
    ensures Growth(es, i) == []
  {
    if es != [] {
      assert es[0] in es;
      NoGrowth(es[1..], i);
    }
  }

  /** A recording that is still open when it expires ends complete: when nothing can call back any more, everything that ever
      flowed into the pipe has been read, in order; and the file holds it exactly if no write was short. */
  lemma WholeTraceArrives(s0: Sys, es0: seq<Event>, s: Sys, es: seq<Event>, s': Sys, i: nat)
    requires Start(s0) && Run(s0, es0, s) && i < |s0.ctxs| && i < |s.ctxs| && i < |s'.ctxs|
    requires s.expired && Run(s, es, s') && HonestRun(s, es) && forall e :: e in es ==> !e.PipeGrows?
    requires s.ctxs[i].closed == [] && Idle(s', i) && 0 <= s'.ctxs[i].fdIn
    ensures var c := s'.ctxs[i]; var all := s0.ctxs[i].pipe + Growth(es0, i);
      && c.pipe == [] && Joined(c.chunks) == all && |c.lens| <= |c.chunks|
      && (c.file == all <==> forall j :: 0 <= j < |c.lens| ==> c.lens[j] == |c.chunks[j]|)
  {
    StartIsSound(s0);
    RunKeepsSound(s0, es0, s);
    DrainedIsClosed(s0, es0, s, es, s', i);
    HonestCloses(s, es, s', i);
    NothingLost(s0, es0, s, i);
    NothingLost(s, es, s', i);
    NoGrowth(es, i);
    RunConcat(s0, es0, s, es, s');
    CopyIsExactIff(s0, es0 + es, s', i);
    var c := s'.ctxs[i];
    assert Joined(c.chunks) + [] == Joined(c.chunks) && c.file + [] == c.file;
    assert [] + s0.ctxs[i].pipe == s0.ctxs[i].pipe;
    var all := s0.ctxs[i].pipe + Growth(es0, i);
    assert all + [] == all;
  }

  lemma ClosedStep(s: Sys, e: Event, i: nat)
    requires Sound(s) && Enabled(s, e) && i < |s.ctxs|
    requires FdSet(s.ctxs[i]) && (s.ctxs[i].closed != [] ==> 0 <= s.ctxs[i].fdIn)
    ensures i < |Step(s, e).ctxs| && FdSet(Step(s, e).ctxs[i])
    ensures Step(s, e).ctxs[i].closed != [] ==> 0 <= Step(s, e).ctxs[i].fdIn
  {
    assert OneRequest(s.ctxs[i]) && InOrder(s.ctxs[i]);
  }

  lemma {:induction false} ClosedWasOpened(s: Sys, es: seq<Event>, s': Sys, i: nat)
    requires Sound(s) && Run(s, es, s') && i < |s.ctxs|
    requires FdSet(s.ctxs[i]) && (s.ctxs[i].closed != [] ==> 0 <= s.ctxs[i].fdIn)
    ensures i < |s'.ctxs| && (s'.ctxs[i].closed != [] ==> 0 <= s'.ctxs[i].fdIn)
    decreases |es|
  {
    if es != [] {
      StepKeepsSound(s, es[0]);
      ClosedStep(s, es[0], i);
      ClosedWasOpened(Step(s, es[0]), es[1..], s', i);
    }
  }

  /** A context closes only on a failed write, on a failed or empty read, or, after expiry, on a read that finds nothing. */
  lemma CloseReason(s: Sys, e: Event, i: nat)
    requires Sound(s) && Enabled(s, e) && i < |s.ctxs| && s.ctxs[i].closed == []
    ensures i < |Step(s, e).ctxs|
    ensures Step(s, e).ctxs[i].closed != [] <==>
      (e.WriteDone? && e.i == i && e.result < 0)
      || (e.ReadDone? && e.i == i && e.result <= 0 && (s.expired || e.result != -11))
  {
    assert OneRequest(s.ctxs[i]) && InOrder(s.ctxs[i]);
  }

  /** The expiry timer and the interrupt handler never both run, and the timer runs at most once. The handler stays armed
      after it ran, so a second interrupt runs the cleanup again, and only the timer leaves nothing armed. */
  lemma OneKindOfShutdown(s: Sys, es: seq<Event>, s': Sys)
    requires Start(s) && Run(s, es, s')
    ensures s'.timerRuns <= 1 && (s'.timerRuns == 0 || s'.signalRuns == 0)
    ensures !s'.timerOn && !s'.signalOn <==> s'.timerRuns == 1
    ensures s'.signalRuns > 0 ==> Enabled(s', Interrupt) && !Enabled(s', TimerExpires)
  {
    StartIsSound(s);
    RunKeepsSound(s, es, s');
  }
}
