/** The output buffer and its threads (server/output/out_buf.cc). */
module OutBuf {
  import Bytes
  import opened FifoBuf
  import opened Wrappers

  // One reader thread that feeds the device, and any number of threads that put, stop,
  // pause, unpause, reset and wait, all under one mutex and two condition variables.
  // A critical section, from taking the mutex to releasing it (by unlocking or by
  // waiting on a condition), is one step; a run is any interleaving of steps.  While the
  // reader holds the mutex between two of its steps nobody else can run.  The sections
  // are methods of the class `Buffer`; the functions they are proved against are the
  // steps of the state machine.

  type Byte = Bytes.Byte

  /** The fields of the shared struct. */
  datatype Shared = Shared(fifo: seq<Byte>, pause: bool, stop: bool, resetDev: bool, waiting: bool)

  // ----- the critical sections

  /** Top of the reader's loop. */
  function TopSection(sh: Shared, devClosed: bool): Shared {
    sh.(resetDev := sh.resetDev && devClosed, fifo := if sh.stop then [] else sh.fifo)
  }

  /** Does the reader go to sleep after its broadcast? */
  predicate MustSleep(sh: Shared) {
    sh.fifo == [] || sh.pause || sh.stop
  }

  /** May the reader take a chunk? */
  predicate MayPlay(sh: Shared, devClosed: bool) {
    sh.fifo != [] && !sh.pause && !sh.stop && !devClosed
  }

  /** The device after the attempt to open it again. */
  function Reopened(sh: Shared, devClosed: bool, openOk: bool): bool {
    devClosed && (sh.pause || !openOk)
  }

  /** What one section of put takes over from `data`. */
  function Accepted(sh: Shared, size: nat, data: seq<Byte>): seq<Byte>
    requires |sh.fifo| <= size
  {
    if sh.stop then [] else data[..Min(|data|, size - |sh.fifo|)]
  }

  /** put waits first if it finds the buffer full and not stopped. */
  predicate MustWaitForSpace(sh: Shared, size: nat) {
    |sh.fifo| == size && !sh.stop
  }

  class Buffer {
    const buf: Fifo<Byte>
    var pause: bool
    var stop: bool
    var resetDev: bool
    var readThreadWaiting: bool

    constructor (size: nat)
      ensures Valid() && Sh() == Shared([], false, false, false, false) && buf.buf.Length == size
    {
      buf := new Fifo(size, 0);
      pause, stop, resetDev, readThreadWaiting := false, false, false, false;
    }

    ghost predicate Valid()
      reads this, buf
    {
      buf.Valid()
    }

    ghost function Sh(): Shared
      reads this, buf, buf.buf
      requires Valid()
    {
      Shared(buf.Contents(), pause, stop, resetDev, readThreadWaiting)
    }

    method ReaderTop(devClosed: bool)
      requires Valid()
      modifies this, buf
      ensures Valid() && Sh() == TopSection(old(Sh()), devClosed)
    {
      if resetDev && !devClosed { resetDev := false; }
      if stop { buf.Clear(); }
    }

    /** What follows the broadcast on ready_cond; on `sleep` the reader waits on
        play_cond. */
    method ReaderAnnounce(devClosed: bool) returns (sleep: bool, devClosed': bool)
      requires Valid()
      modifies this
      ensures Valid()
      ensures sleep == MustSleep(old(Sh())) && devClosed' == (devClosed || (sleep && pause))
      ensures Sh() == old(Sh()).(waiting := sleep || old(readThreadWaiting))
    {
      sleep, devClosed' := false, devClosed;
      if buf.GetFill() == 0 || pause || stop {
        if pause && !devClosed { devClosed' := true; }
        readThreadWaiting := true;
        sleep := true;
      }
    }

    /** After waking up: the chunk to send, empty if the reader goes round. */
    method ReaderCheck(devClosed: bool, openOk: bool, limit: nat) returns (devClosed': bool, play: bool, chunk: seq<Byte>)
      requires Valid()
      modifies this, buf
      ensures Valid()
      ensures devClosed' == Reopened(old(Sh()), devClosed, openOk)
      ensures play == MayPlay(old(Sh()), devClosed')
      ensures chunk == (if play then old(Sh()).fifo[..Min(limit, |old(Sh()).fifo|)] else [])
      ensures Sh() == old(Sh()).(waiting := false, fifo := old(Sh()).fifo[|chunk|..])
    {
      readThreadWaiting := false;
      devClosed', play, chunk := devClosed, false, [];
      if devClosed && !pause && openOk { devClosed' := false; }
      if buf.GetFill() == 0 || pause || stop { return; }
      if !devClosed' {
        chunk := buf.Get(limit);
        play := true;
      }
    }

    method PutMustWait() returns (wait: bool)
      requires Valid()
      ensures wait == MustWaitForSpace(Sh(), buf.buf.Length)
    {
      wait := buf.GetSpace() == 0 && !stop;
    }

    /** The rest of the section; `signal` tells whether play_cond is signalled. */
    method PutSection(data: seq<Byte>) returns (refused: bool, written: nat, signal: bool)
      requires Valid()
      modifies buf, buf.buf
      ensures Valid() && refused == stop
      ensures var a := Accepted(old(Sh()), buf.buf.Length, data);
              written == |a| && signal == (a != []) && Sh() == old(Sh()).(fifo := old(Sh()).fifo + a)
    {
      refused, written, signal := false, 0, false;
      if stop {
        refused := true;
        return;
      }
      written := buf.Put(data);
      if written > 0 { signal := true; }
    }

    method Pause()
      requires Valid()
      modifies this
      ensures Valid() && Sh() == old(Sh()).(pause := true, resetDev := true)
    {
      pause, resetDev := true, true;
    }

    method Unpause()
      requires Valid()
      modifies this
      ensures Valid() && Sh() == old(Sh()).(pause := false)
    {
      pause := false;
    }

    method Stop()
      requires Valid()
      modifies this
      ensures Valid() && Sh() == old(Sh()).(stop := true, pause := false, resetDev := true)
    {
      stop, pause, resetDev := true, false, true;
    }

    method Reset()
      requires Valid()
      modifies this, buf
      ensures Valid() && Sh() == Shared([], false, false, false, old(readThreadWaiting))
    {
      buf.Clear();
      stop, pause, resetDev := false, false, false;
    }
  }

  // ----- the threads

  /** Where the reader is.  It holds the mutex at `Top`, `Announce` and `Check`. */
  datatype Pc = Top | Callback | Announce | Asleep(signalled: bool) | Check | Sending

  datatype Reader = Reader(pc: Pc, devClosed: bool, chunk: seq<Byte>)

  /** Where a calling thread is: outside, between two rounds of put, or waiting
      on ready_cond in put, stop or wait. */
  datatype Caller =
    | Outside
    | Putting(data: seq<Byte>)
    | PutWaits(data: seq<Byte>, signalled: bool)
    | StopWaits(signalled: bool)
    | WaitWaits(signalled: bool)

  /** How bytes left the fifo. */
  datatype Segment = Played(bytes: seq<Byte>) | Dropped(bytes: seq<Byte>)

  /** `accepted`, `past` and `sent` are logs: what put took over, what has left
      the fifo and how, what the device was given. */
  datatype State = State(size: nat, sh: Shared, hasCallback: bool, reader: Reader, callers: seq<Caller>,
                         accepted: seq<Byte>, past: seq<Segment>, sent: seq<Byte>)

  predicate Init(s: State) {
    && s.size > 0
    && s.sh == Shared([], false, false, false, false)
    && s.reader == Reader(Top, false, [])
    && (forall t :: 0 <= t < |s.callers| ==> s.callers[t] == Outside)
    && s.accepted == [] && s.past == [] && s.sent == []
  }

  datatype Step =
    // the reader
    | ReadTop
    | CallbackDone
    | ReadAnnounce
    | ReadWake(spurious: bool)
    | ReadCheck(openOk: bool, limit: nat)
    | Send(n: nat)
    | SendDone
    // a calling thread
    | PutCall(t: nat, bytes: seq<Byte>)
    | PutLock(t: nat)
    | PutWake(t: nat, spurious: bool)
    | PauseCall(t: nat)
    | UnpauseCall(t: nat)
    | StopCall(t: nat)
    | StopWake(t: nat, spurious: bool)
    | ResetCall(t: nat)
    | WaitCall(t: nat)
    | WaitWake(t: nat, spurious: bool)
    | SetCallback(t: nat, on: bool)

  predicate ReaderStep(x: Step) {
    x.ReadTop? || x.CallbackDone? || x.ReadAnnounce? || x.ReadWake? || x.ReadCheck? || x.Send? || x.SendDone?
  }

  predicate ReaderHoldsMutex(s: State) {
    s.reader.pc == Top || s.reader.pc == Announce || s.reader.pc == Check
  }

  /** The stated condition for reset: the buffer is not being put to, and
      stopping it is over. */
  predicate ResetAllowed(s: State) {
    forall c :: c in s.callers ==> !c.PutWaits? && !c.StopWaits?
  }

  predicate Enabled(s: State, x: Step) {
    match x
    case ReadTop => s.reader.pc == Top
    case CallbackDone => s.reader.pc == Callback
    case ReadAnnounce => s.reader.pc == Announce
    case ReadWake(spurious) => s.reader.pc.Asleep? && (spurious || s.reader.pc.signalled)
    case ReadCheck(_, _) => s.reader.pc == Check
    case Send(n) => s.reader.pc == Sending && 0 < n <= |s.reader.chunk|
    case SendDone => s.reader.pc == Sending && s.reader.chunk == []
    case PutCall(t, _) => t < |s.callers| && s.callers[t] == Outside
    case PutLock(t) => t < |s.callers| && s.callers[t].Putting? && !ReaderHoldsMutex(s)
    case PutWake(t, spurious) => t < |s.callers| && s.callers[t].PutWaits? && (spurious || s.callers[t].signalled) && !ReaderHoldsMutex(s)
    case StopWake(t, spurious) => t < |s.callers| && s.callers[t].StopWaits? && (spurious || s.callers[t].signalled) && !ReaderHoldsMutex(s)
    case WaitWake(t, spurious) => t < |s.callers| && s.callers[t].WaitWaits? && (spurious || s.callers[t].signalled) && !ReaderHoldsMutex(s)
    case ResetCall(t) => t < |s.callers| && s.callers[t] == Outside && !ReaderHoldsMutex(s) && ResetAllowed(s)
    case _ => x.t < |s.callers| && s.callers[x.t] == Outside && !ReaderHoldsMutex(s)
  }

  /** pthread_cond_signal on play_cond: the reader is its only waiter. */
  function SignalPlay(r: Reader): Reader {
    if r.pc.Asleep? then r.(pc := Asleep(true)) else r
  }

  /** pthread_cond_broadcast on ready_cond. */
  function Signalled(c: Caller): Caller {
    match c
    case PutWaits(data, _) => PutWaits(data, true)
    case StopWaits(_) => StopWaits(true)
    case WaitWaits(_) => WaitWaits(true)
    case _ => c
  }

  function BroadcastReady(cs: seq<Caller>): (r: seq<Caller>)
    ensures |r| == |cs| && forall t :: 0 <= t < |cs| ==> r[t] == Signalled(cs[t])
  {
    seq(|cs|, t requires 0 <= t < |cs| => Signalled(cs[t]))
  }

  /** One locked round of put by thread `t`. */
  function PutRound(s: State, t: nat, data: seq<Byte>): (s': State)
    requires t < |s.callers| && |s.sh.fifo| <= s.size
    ensures |s'.sh.fifo| <= s'.size
  {
    var a := Accepted(s.sh, s.size, data);
    var c := if s.sh.stop || |a| == |data| then Outside else Putting(data[|a|..]);
    s.(sh := s.sh.(fifo := s.sh.fifo + a), accepted := s.accepted + a,
       reader := if a != [] then SignalPlay(s.reader) else s.reader,
       callers := s.callers[t := c])
  }

  function Next(s: State, x: Step): (s': State)
    requires Enabled(s, x) && |s.sh.fifo| <= s.size
    ensures |s'.sh.fifo| <= s'.size && |s'.callers| == |s.callers|
  {
    var r := s.reader;
    match x
    case ReadTop =>
      s.(sh := TopSection(s.sh, r.devClosed),
         past := if s.sh.stop then s.past + [Dropped(s.sh.fifo)] else s.past,
         reader := r.(pc := if s.hasCallback then Callback else Announce))
    case CallbackDone => s.(reader := r.(pc := Announce))
    case ReadAnnounce =>
      var sleep := MustSleep(s.sh);
      s.(callers := BroadcastReady(s.callers),
         sh := s.sh.(waiting := sleep || s.sh.waiting),
         reader := r.(pc := if sleep then Asleep(false) else Check, devClosed := r.devClosed || (sleep && s.sh.pause)))
    case ReadWake(_) => s.(reader := r.(pc := Check))
    case ReadCheck(openOk, limit) =>
      var closed := Reopened(s.sh, r.devClosed, openOk);
      if MayPlay(s.sh, closed) then
        var n := Min(limit, |s.sh.fifo|);
        s.(sh := s.sh.(waiting := false, fifo := s.sh.fifo[n..]), past := s.past + [Played(s.sh.fifo[..n])],
           reader := Reader(Sending, closed, s.sh.fifo[..n]))
      else
        s.(sh := s.sh.(waiting := false), reader := r.(pc := Top, devClosed := closed))
    case Send(n) => s.(sent := s.sent + r.chunk[..n], reader := r.(chunk := r.chunk[n..]))
    case SendDone => s.(reader := r.(pc := Top))
    case PutCall(t, bytes) => s.(callers := s.callers[t := if bytes == [] then Outside else Putting(bytes)])
    case PutLock(t) =>
      var data := s.callers[t].data;
      if MustWaitForSpace(s.sh, s.size) then s.(callers := s.callers[t := PutWaits(data, false)])
      else PutRound(s, t, data)
    case PutWake(t, _) => PutRound(s, t, s.callers[t].data)
    case PauseCall(_) => s.(sh := s.sh.(pause := true, resetDev := true))
    case UnpauseCall(_) => s.(sh := s.sh.(pause := false), reader := SignalPlay(r))
    case StopCall(t) =>
      s.(sh := s.sh.(stop := true, pause := false, resetDev := true), reader := SignalPlay(r),
         callers := s.callers[t := StopWaits(false)])
    case StopWake(t, _) => s.(callers := s.callers[t := Outside])
    case ResetCall(_) =>
      s.(sh := Shared([], false, false, false, s.sh.waiting), past := s.past + [Dropped(s.sh.fifo)])
    case WaitCall(t) => s.(callers := s.callers[t := if s.sh.waiting then Outside else WaitWaits(false)])
    case WaitWake(t, _) => s.(callers := s.callers[t := if s.sh.waiting then Outside else WaitWaits(false)])
    case SetCallback(_, on) => s.(hasCallback := on)
  }

  // ----- conservation of bytes

  function Flatten(past: seq<Segment>): seq<Byte> {
    if past == [] then [] else Flatten(past[..|past| - 1]) + past[|past| - 1].bytes
  }

  /** The bytes that left the fifo to be played, in order. */
  function PlayedBytes(past: seq<Segment>): seq<Byte> {
    if past == [] then []
    else
      var g := past[|past| - 1];
      PlayedBytes(past[..|past| - 1]) + (if g.Played? then g.bytes else [])
  }

  /** The accepted bytes are what has left the fifo followed by what is in it;
      of what has left, in order, the played part is what the device was given
      followed by the chunk in flight. */
  predicate Conserved(s: State) {
    && s.accepted == Flatten(s.past) + s.sh.fifo
    && PlayedBytes(s.past) == s.sent + s.reader.chunk
    && |s.sh.fifo| <= s.size && |s.reader.chunk| <= s.size
    && (s.reader.pc != Sending ==> s.reader.chunk == [])
  }

  lemma PastAppend(past: seq<Segment>, g: Segment)
    ensures Flatten(past + [g]) == Flatten(past) + g.bytes
    ensures PlayedBytes(past + [g]) == PlayedBytes(past) + (if g.Played? then g.bytes else [])
  {
    assert (past + [g])[..|past|] == past;
  }

  lemma TakeConserves(s: State, n: nat)
    requires Conserved(s) && s.reader.chunk == [] && n <= |s.sh.fifo|
    ensures var past := s.past + [Played(s.sh.fifo[..n])];
            && s.accepted == Flatten(past) + s.sh.fifo[n..]
            && PlayedBytes(past) == s.sent + s.sh.fifo[..n]
  {
    PastAppend(s.past, Played(s.sh.fifo[..n]));
    var f := Flatten(s.past);
    assert f + s.sh.fifo == (f + s.sh.fifo[..n]) + s.sh.fifo[n..];
  }

  lemma SendConserves(s: State, n: nat)
    requires Conserved(s) && n <= |s.reader.chunk|
    ensures PlayedBytes(s.past) == (s.sent + s.reader.chunk[..n]) + s.reader.chunk[n..]
  {
  }

  lemma ReaderStepConserves(s: State, x: Step)
    requires Conserved(s) && Enabled(s, x) && ReaderStep(x)
    ensures Conserved(Next(s, x))
  {
    match x {
      case ReadTop => PastAppend(s.past, Dropped(s.sh.fifo));
      case ReadCheck(_, limit) => TakeConserves(s, Min(limit, |s.sh.fifo|));
      case Send(n) => SendConserves(s, n);
      case _ =>
    }
  }

  lemma PutRoundConserves(s: State, t: nat, data: seq<Byte>)
    requires Conserved(s) && t < |s.callers|
    ensures Conserved(PutRound(s, t, data))
  {
    var a := Accepted(s.sh, s.size, data);
    assert Flatten(s.past) + (s.sh.fifo + a) == Flatten(s.past) + s.sh.fifo + a;
  }

  lemma CallerStepConserves(s: State, x: Step)
    requires Conserved(s) && Enabled(s, x) && !ReaderStep(x)
    ensures Conserved(Next(s, x))
  {
    match x {
      case PutLock(t) => PutRoundConserves(s, t, s.callers[t].data);
      case PutWake(t, _) => PutRoundConserves(s, t, s.callers[t].data);
      case ResetCall(_) => PastAppend(s.past, Dropped(s.sh.fifo));
      case _ =>
    }
  }

  // ----- no lost wakeup

  predicate ReaderStuck(s: State) {
    s.reader.pc == Asleep(false)
  }

  predicate WriterStuck(c: Caller) {
    c.PutWaits? && !c.signalled
  }

  predicate StopOrWaitStuck(c: Caller) {
    (c.StopWaits? || c.WaitWaits?) && !c.signalled
  }

  predicate Inv(s: State) {
    && s.size > 0
    && Conserved(s)
    && (s.reader.pc.Asleep? ==> s.sh.waiting)
    && (s.sh.waiting ==> s.reader.pc.Asleep? || s.reader.pc == Check)
    && (ReaderStuck(s) ==>
          && MustSleep(s.sh)
          && forall c :: c in s.callers ==> !StopOrWaitStuck(c) && (WriterStuck(c) ==> MustWaitForSpace(s.sh, s.size)))
    && (forall c :: c in s.callers && c.StopWaits? ==> s.sh.stop && (c.signalled ==> s.reader.pc != Sending))
    && (forall c :: c in s.callers && (c.PutWaits? || c.Putting?) ==> c.data != [])
  }

  lemma CallerUpdate(cs: seq<Caller>, t: nat, c: Caller)
    requires t < |cs|
    ensures forall x :: x in cs[t := c] ==> x == c || x in cs
  {
  }

  lemma AnnounceKeepsInv(s: State)
    requires Inv(s) && Enabled(s, ReadAnnounce)
    ensures Inv(Next(s, ReadAnnounce))
  {
    ReaderStepConserves(s, ReadAnnounce);
    var cs := BroadcastReady(s.callers);
    forall c | c in cs
      ensures !StopOrWaitStuck(c) && !WriterStuck(c) && (c.PutWaits? || c.Putting? ==> c.data != [])
      ensures c.StopWaits? ==> s.sh.stop
    {
      var t :| 0 <= t < |cs| && cs[t] == c;
      assert s.callers[t] in s.callers;
    }
  }

  lemma ReaderStepKeepsInv(s: State, x: Step)
    requires Inv(s) && Enabled(s, x) && ReaderStep(x)
    ensures Inv(Next(s, x))
  {
    if x.ReadAnnounce? {
      AnnounceKeepsInv(s);
    } else {
      ReaderStepConserves(s, x);
      var s' := Next(s, x);
      assert s'.callers == s.callers && s'.sh.stop == s.sh.stop;
      assert s'.reader.pc == Sending ==> s.reader.pc == Sending || !s.sh.stop;
      assert ReaderStuck(s') ==> ReaderStuck(s);
    }
  }

  lemma PutRoundKeepsInv(s: State, t: nat)
    requires Inv(s) && t < |s.callers| && !ReaderHoldsMutex(s) && (s.callers[t].Putting? || s.callers[t].PutWaits?)
    ensures Inv(PutRound(s, t, s.callers[t].data))
  {
    var data := s.callers[t].data;
    assert s.callers[t] in s.callers;
    PutRoundConserves(s, t, data);
    CallerUpdate(s.callers, t, PutRound(s, t, data).callers[t]);
  }

  lemma PutStepKeepsInv(s: State, x: Step)
    requires Inv(s) && Enabled(s, x) && (x.PutLock? || x.PutWake?)
    ensures Inv(Next(s, x))
  {
    var c := s.callers[x.t];
    assert c in s.callers;
    if x.PutLock? && MustWaitForSpace(s.sh, s.size) {
      CallerUpdate(s.callers, x.t, PutWaits(c.data, false));
    } else {
      PutRoundKeepsInv(s, x.t);
    }
  }

  lemma StopOrResetKeepsInv(s: State, x: Step)
    requires Inv(s) && Enabled(s, x) && (x.StopCall? || x.StopWake? || x.ResetCall?)
    ensures Inv(Next(s, x))
  {
    CallerStepConserves(s, x);
    assert s.callers[x.t] in s.callers;
    CallerUpdate(s.callers, x.t, Next(s, x).callers[x.t]);
  }

  lemma OtherCallKeepsInv(s: State, x: Step)
    requires Inv(s) && Enabled(s, x) && !ReaderStep(x)
    requires !x.PutLock? && !x.PutWake? && !x.StopCall? && !x.StopWake? && !x.ResetCall?
    ensures Inv(Next(s, x))
  {
    CallerStepConserves(s, x);
    assert s.callers[x.t] in s.callers;
    CallerUpdate(s.callers, x.t, Next(s, x).callers[x.t]);
  }

  lemma CallerStepKeepsInv(s: State, x: Step)
    requires Inv(s) && Enabled(s, x) && !ReaderStep(x)
    ensures Inv(Next(s, x))
  {
    if x.PutLock? || x.PutWake? {
      PutStepKeepsInv(s, x);
    } else if x.StopCall? || x.StopWake? || x.ResetCall? {
      StopOrResetKeepsInv(s, x);
    } else {
      OtherCallKeepsInv(s, x);
    }
  }

  predicate Run(s: State, steps: seq<Step>)
    requires |s.sh.fifo| <= s.size
    decreases |steps|
  {
    steps == [] || (Enabled(s, steps[0]) && Run(Next(s, steps[0]), steps[1..]))
  }

  lemma KeepsInv(s: State, x: Step)
    requires Inv(s) && Enabled(s, x)
    ensures Inv(Next(s, x))
  {
    if ReaderStep(x) { ReaderStepKeepsInv(s, x); } else { CallerStepKeepsInv(s, x); }
  }

  function After(s: State, steps: seq<Step>): (s': State)
    requires |s.sh.fifo| <= s.size && Run(s, steps)
    ensures |s'.callers| == |s.callers|
    decreases |steps|
  {
    if steps == [] then s else After(Next(s, steps[0]), steps[1..])
  }

  /** Over every run the invariant holds. */
  lemma {:induction false} RunKeepsInv(s: State, steps: seq<Step>)
    requires Inv(s) && Run(s, steps)
    ensures Inv(After(s, steps))
    decreases |steps|
  {
    if steps != [] {
      KeepsInv(s, steps[0]);
      RunKeepsInv(Next(s, steps[0]), steps[1..]);
    }
  }

  lemma InitInv(s: State)
    requires Init(s)
    ensures Inv(s)
  {
  }

  // ----- main results

  /** In every reachable state: a writer and the reader are both asleep with no
      wakeup pending only if the buffer is paused and full; and nobody waits in
      stop or wait behind a sleeping reader that has not been signalled. */
  lemma NoLostWakeup(start: State, steps: seq<Step>, t: nat)
    requires Init(start) && Run(start, steps) && t < |After(start, steps).callers|
    requires ReaderStuck(After(start, steps))
    ensures var s := After(start, steps);
            && (WriterStuck(s.callers[t]) ==> s.sh.pause && !s.sh.stop && |s.sh.fifo| == s.size)
            && !StopOrWaitStuck(s.callers[t])
  {
    InitInv(start);
    RunKeepsInv(start, steps);
    var s := After(start, steps);
    assert s.callers[t] in s.callers;
  }

  /** Reset with a writer asleep, which the stated condition excludes, always
      turns the legitimate wait of a paused, full buffer into a lost wakeup. */
  lemma ResetConditionIsNeeded(s: State, t: nat)
    requires Inv(s) && t < |s.callers| && ReaderStuck(s) && WriterStuck(s.callers[t])
    ensures !ResetAllowed(s)
    ensures var s' := s.(sh := Shared([], false, false, false, s.sh.waiting));
            ReaderStuck(s') && WriterStuck(s'.callers[t]) && !s'.sh.pause && |s'.sh.fifo| < s'.size && !Inv(s')
  {
    assert s.callers[t] in s.callers;
  }

  // ----- the reader always gets back to its broadcast

  /** An upper bound on the reader's own steps up to its next broadcast. */
  function StepsToBroadcast(s: State): nat
    requires s.reader.pc != Asleep(false)
  {
    match s.reader.pc
    case Announce => 1
    case Callback => 2
    case Top => 3
    case Sending => 4 + |s.reader.chunk|
    case Check => 5 + s.size
    case Asleep(_) => 6 + s.size
  }

  lemma ReaderProgress(s: State, x: Step)
    requires Inv(s) && Enabled(s, x) && !ReaderStuck(s)
    ensures ReaderStep(x) && x != ReadAnnounce ==>
              !ReaderStuck(Next(s, x)) && StepsToBroadcast(Next(s, x)) < StepsToBroadcast(s)
    ensures !ReaderStep(x) ==> !ReaderStuck(Next(s, x)) && StepsToBroadcast(Next(s, x)) == StepsToBroadcast(s)
    ensures x == ReadAnnounce ==>
              forall c :: c in Next(s, x).callers ==> !WriterStuck(c) && !StopOrWaitStuck(c)
  {
    if x == ReadAnnounce {
      BroadcastReachesAll(s);
    } else if ReaderStep(x) {
      ReaderStepCounts(s, x);
    } else {
      CallersDoNotDelay(s, x);
    }
  }

  lemma BroadcastReachesAll(s: State)
    requires Inv(s) && Enabled(s, ReadAnnounce)
    ensures forall c :: c in Next(s, ReadAnnounce).callers ==> !WriterStuck(c) && !StopOrWaitStuck(c)
  {
  }

  lemma ReaderStepCounts(s: State, x: Step)
    requires Inv(s) && Enabled(s, x) && !ReaderStuck(s) && ReaderStep(x) && x != ReadAnnounce
    ensures !ReaderStuck(Next(s, x)) && StepsToBroadcast(Next(s, x)) < StepsToBroadcast(s)
  {
  }

  lemma CallersDoNotDelay(s: State, x: Step)
    requires Inv(s) && Enabled(s, x) && !ReaderStuck(s) && !ReaderStep(x)
    ensures !ReaderStuck(Next(s, x)) && StepsToBroadcast(Next(s, x)) == StepsToBroadcast(s)
  {
  }

  /** A reader that is not asleep unsignalled can always take a step. */
  lemma ReaderCanStep(s: State) returns (x: Step)
    requires Inv(s) && !ReaderStuck(s)
    ensures ReaderStep(x) && Enabled(s, x)
  {
    x := match s.reader.pc
      case Top => ReadTop
      case Callback => CallbackDone
      case Announce => ReadAnnounce
      case Asleep(_) => ReadWake(false)
      case Check => ReadCheck(true, 0)
      case Sending => if s.reader.chunk == [] then SendDone else Send(1);
  }

  function ReaderSteps(steps: seq<Step>): nat {
    if steps == [] then 0 else (if ReaderStep(steps[0]) then 1 else 0) + ReaderSteps(steps[1..])
  }

  /** The first so many steps of a run are a run, and the next one can follow. */
  lemma {:induction false} RunPrefix(s: State, steps: seq<Step>, k: nat)
    requires Inv(s) && Run(s, steps) && k < |steps|
    ensures Run(s, steps[..k]) && Run(s, steps[..k + 1]) && Inv(After(s, steps[..k]))
    ensures Enabled(After(s, steps[..k]), steps[k])
    ensures After(s, steps[..k + 1]) == Next(After(s, steps[..k]), steps[k])
    decreases k
  {
    var x, rest := steps[0], steps[1..];
    KeepsInv(s, x);
    if k > 0 {
      RunPrefix(Next(s, x), rest, k - 1);
      assert steps[..k][1..] == rest[..k - 1] && steps[..k + 1][1..] == rest[..k];
    } else {
      assert steps[..1][1..] == [];
    }
  }

  /** Whatever the other threads do, the reader broadcasts within that many of
      its own steps. */
  lemma {:induction false} BroadcastStep(s: State, steps: seq<Step>) returns (k: nat)
    requires Inv(s) && Run(s, steps) && !ReaderStuck(s)
    requires ReaderSteps(steps) >= StepsToBroadcast(s)
    ensures k < |steps| && steps[k] == ReadAnnounce
    decreases |steps|
  {
    var x := steps[0];
    if x == ReadAnnounce {
      k := 0;
    } else {
      ReaderProgress(s, x);
      KeepsInv(s, x);
      k := BroadcastStep(Next(s, x), steps[1..]);
      k := k + 1;
    }
  }

  /** And the broadcast reaches everyone who waits. */
  lemma BroadcastComes(s: State, steps: seq<Step>) returns (k: nat)
    requires Inv(s) && Run(s, steps) && !ReaderStuck(s)
    requires ReaderSteps(steps) >= StepsToBroadcast(s)
    ensures k < |steps| && steps[k] == ReadAnnounce && Run(s, steps[..k + 1])
    ensures forall c :: c in After(s, steps[..k + 1]).callers ==> !WriterStuck(c) && !StopOrWaitStuck(c)
  {
    k := BroadcastStep(s, steps);
    RunPrefix(s, steps, k);
    BroadcastReachesAll(After(s, steps[..k]));
  }

  /** So a caller of stop or wait is woken within `size + 6` steps of the reader. */
  lemma StopAndWaitAreWoken(s: State, steps: seq<Step>, t: nat) returns (k: nat)
    requires Inv(s) && Run(s, steps) && t < |s.callers| && StopOrWaitStuck(s.callers[t])
    requires ReaderSteps(steps) >= s.size + 6
    ensures k < |steps| && Run(s, steps[..k + 1])
    ensures |After(s, steps[..k + 1]).callers| == |s.callers|
    ensures !StopOrWaitStuck(After(s, steps[..k + 1]).callers[t])
  {
    assert s.callers[t] in s.callers;
    k := BroadcastComes(s, steps);
    var s' := After(s, steps[..k + 1]);
    assert s'.callers[t] in s'.callers;
  }

  // ----- stop and pause

  /** Bytes leave the fifo towards the device only while neither stop nor pause
      is set, and only from its front. */
  lemma NoDequeueWhileStopped(s: State, x: Step)
    requires Inv(s) && Enabled(s, x)
    ensures var s' := Next(s, x);
            |s'.reader.chunk| > |s.reader.chunk| ==>
              !s.sh.stop && !s.sh.pause && s.sh.fifo == s'.reader.chunk + s'.sh.fifo
  {
    if x.ReadCheck? {
      var n := Min(x.limit, |s.sh.fifo|);
      assert s.sh.fifo == s.sh.fifo[..n] + s.sh.fifo[n..];
    } else {
      assert |Next(s, x).reader.chunk| <= |s.reader.chunk|;
    }
  }

  predicate NoReset(steps: seq<Step>) {
    forall k :: 0 <= k < |steps| ==> !steps[k].ResetCall?
  }

  predicate Silent(s: State) {
    s.sh.stop && !(s.reader.pc == Sending && s.reader.chunk != [])
  }

  lemma SilentStep(s: State, x: Step)
    requires Inv(s) && Silent(s) && Enabled(s, x) && !x.ResetCall?
    ensures Silent(Next(s, x)) && Next(s, x).sent == s.sent
  {
    assert x.Send? ==> |s.reader.chunk| > 0;
    assert !x.Send?;
    if !ReaderStep(x) {
      assert Next(s, x).sent == s.sent && Next(s, x).reader.chunk == s.reader.chunk;
    }
  }

  lemma {:induction false} SilentStays(s: State, steps: seq<Step>)
    requires Inv(s) && Silent(s) && Run(s, steps) && NoReset(steps)
    ensures After(s, steps).sent == s.sent
    decreases |steps|
  {
    if steps != [] {
      var x, rest := steps[0], steps[1..];
      assert !x.ResetCall?;
      assert NoReset(rest) by {
        assert forall k :: 0 <= k < |rest| ==> rest[k] == steps[k + 1];
      }
      KeepsInv(s, x);
      SilentStep(s, x);
      SilentStays(Next(s, x), rest);
    }
  }

  /** No run without a reset gives the device anything more. */
  ghost predicate DeviceIsSilent(s: State)
    requires |s.sh.fifo| <= s.size
  {
    forall later :: Run(s, later) && NoReset(later) ==> After(s, later).sent == s.sent
  }

  /** When out_buf_stop returns, the device is given nothing more until the next
      reset, whatever the threads do, exactly if no chunk is being sent.  That is
      so whenever the thread was woken; but the wait is not repeated, so after a
      spurious wakeup it may not be. */
  lemma StopSilencesDeviceIff(s: State, t: nat, spurious: bool)
    requires Inv(s) && Enabled(s, StopWake(t, spurious))
    ensures DeviceIsSilent(Next(s, StopWake(t, spurious))) <==> !(s.reader.pc == Sending && s.reader.chunk != [])
    ensures !spurious ==> DeviceIsSilent(Next(s, StopWake(t, spurious)))
  {
    var s' := Next(s, StopWake(t, spurious));
    assert s.callers[t] in s.callers;
    KeepsInv(s, StopWake(t, spurious));
    if s.reader.pc == Sending && s.reader.chunk != [] {
      var later := [Send(1)];
      assert later[1..] == [];
      assert Run(s', later) && NoReset(later);
      assert |After(s', later).sent| == |s'.sent| + 1;
    } else {
      forall later | Run(s', later) && NoReset(later)
        ensures After(s', later).sent == s'.sent
      {
        SilentStays(s', later);
      }
    }
  }

  // ----- the log as a merge

  function DroppedBytes(past: seq<Segment>): seq<Byte> {
    if past == [] then []
    else
      var g := past[|past| - 1];
      DroppedBytes(past[..|past| - 1]) + (if g.Dropped? then g.bytes else [])
  }

  /** The elements of `c` at the positions marked `v`. */
  function Pick<T>(c: seq<T>, marks: seq<bool>, v: bool): seq<T>
    requires |c| == |marks|
  {
    if c == [] then []
    else
      var n := |c| - 1;
      Pick(c[..n], marks[..n], v) + (if marks[n] == v then [c[n]] else [])
  }

  /** `c` is made of `a` and `b`, each in its own order. */
  ghost predicate Merge<T(!new)>(a: seq<T>, b: seq<T>, c: seq<T>) {
    exists marks: seq<bool> :: |marks| == |c| && Pick(c, marks, true) == a && Pick(c, marks, false) == b
  }

  lemma {:induction false} PickAppend<T>(c: seq<T>, marks: seq<bool>, more: seq<T>, mark: bool, v: bool)
    requires |c| == |marks|
    ensures Pick(c + more, marks + seq(|more|, _ => mark), v) == Pick(c, marks, v) + (if mark == v then more else [])
    decreases |more|
  {
    var ms := seq(|more|, _ => mark);
    if more == [] {
      assert c + more == c && marks + ms == marks;
    } else {
      var n := |more| - 1;
      PickAppend(c, marks, more[..n], mark, v);
      assert (c + more)[..|c + more| - 1] == c + more[..n];
      assert (marks + ms)[..|c + more| - 1] == marks + seq(n, _ => mark);
      assert more == more[..n] + [more[n]];
    }
  }

  lemma {:induction false} PastIsMerge(past: seq<Segment>) returns (marks: seq<bool>)
    ensures |marks| == |Flatten(past)|
    ensures Pick(Flatten(past), marks, true) == PlayedBytes(past)
    ensures Pick(Flatten(past), marks, false) == DroppedBytes(past)
  {
    if past == [] {
      marks := [];
    } else {
      var n := |past| - 1;
      var ms := PastIsMerge(past[..n]);
      var g := past[n];
      marks := ms + seq(|g.bytes|, _ => g.Played?);
      PickAppend(Flatten(past[..n]), ms, g.bytes, g.Played?, true);
      PickAppend(Flatten(past[..n]), ms, g.bytes, g.Played?, false);
    }
  }

  /** Over every run: the bytes accepted so far are, in order, a merge of what
      the device was given, the chunk in flight and the fifo on the one side,
      and what stop and reset threw away on the other. */
  lemma AcceptedIsMerge(start: State, steps: seq<Step>)
    requires Init(start) && Run(start, steps)
    ensures var s := After(start, steps);
            Merge(s.sent + s.reader.chunk + s.sh.fifo, DroppedBytes(s.past), s.accepted)
  {
    InitInv(start);
    RunKeepsInv(start, steps);
    var s := After(start, steps);
    var marks := PastIsMerge(s.past);
    var f, q := Flatten(s.past), s.sh.fifo;
    PickAppend(f, marks, q, true, true);
    PickAppend(f, marks, q, true, false);
    assert DroppedBytes(s.past) + [] == DroppedBytes(s.past);
    var all := marks + seq(|q|, _ => true);
    assert Pick(s.accepted, all, true) == s.sent + s.reader.chunk + q;
  }
}
