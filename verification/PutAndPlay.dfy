/** What put, pause, stop and reset come to over whole runs. */
module PutAndPlay {
  import opened OutBuf
  import opened Wrappers

  // ----- what a thread asked for, what was taken over from it, what is pending

  /** The bytes that a thread in put still has to get rid of. */
  function Pending(c: Caller): seq<Byte> {
    match c
    case Putting(data) => data
    case PutWaits(data, _) => data
    case _ => []
  }

  function AskedIn(x: Step, t: nat): seq<Byte> {
    if x.PutCall? && x.t == t then x.bytes else []
  }

  function Asked(steps: seq<Step>, t: nat): seq<Byte> {
    if steps == [] then [] else AskedIn(steps[0], t) + Asked(steps[1..], t)
  }

  /** A locked round of put by `t`. */
  predicate PutBy(x: Step, t: nat) {
    (x.PutLock? || x.PutWake?) && x.t == t
  }

  /** The bytes that a step adds to the log of accepted ones. */
  function Gain(s: State, x: Step): seq<Byte>
    requires Enabled(s, x) && |s.sh.fifo| <= s.size
  {
    var a := Next(s, x).accepted;
    if |a| < |s.accepted| then [] else a[|s.accepted|..]
  }

  function Gains(s: State, steps: seq<Step>): seq<Byte>
    requires |s.sh.fifo| <= s.size && Run(s, steps)
    decreases |steps|
  {
    if steps == [] then [] else Gain(s, steps[0]) + Gains(Next(s, steps[0]), steps[1..])
  }

  /** The accepted bytes that came from `t`, or from the other threads. */
  function GainsOf(s: State, steps: seq<Step>, t: nat, own: bool): seq<Byte>
    requires |s.sh.fifo| <= s.size && Run(s, steps)
    decreases |steps|
  {
    if steps == [] then []
    else (if PutBy(steps[0], t) == own then Gain(s, steps[0]) else []) + GainsOf(Next(s, steps[0]), steps[1..], t, own)
  }

  lemma GainIs(s: State, x: Step)
    requires Enabled(s, x) && |s.sh.fifo| <= s.size
    ensures Next(s, x).accepted == s.accepted + Gain(s, x)
    ensures Gain(s, x) != [] ==> x.PutLock? || x.PutWake?
  {
    assert !x.PutLock? && !x.PutWake? ==> Next(s, x).accepted == s.accepted;
  }

  /** One round of put takes over a front part of the data and keeps the rest for
      the next round, which it needs only if the fifo is full now; only a stopped
      buffer makes put leave bytes behind, and then all that were left. */
  lemma PutStepTakes(s: State, x: Step, t: nat)
    requires Inv(s) && Enabled(s, x) && t < |s.callers|
    ensures var c, c' := s.callers[t], Next(s, x).callers[t];
            if PutBy(x, t) && s.sh.stop then Gain(s, x) == [] && c' == Outside
            else (if PutBy(x, t) then Gain(s, x) else []) + Pending(c') == Pending(c) + AskedIn(x, t)
    ensures PutBy(x, t) && Pending(Next(s, x).callers[t]) != [] ==> |Next(s, x).sh.fifo| == s.size
  {
    if !PutBy(x, t) {
      OthersLeavePending(s, x, t);
    } else if x.PutLock? && MustWaitForSpace(s.sh, s.size) {
      assert Next(s, x).accepted == s.accepted;
    } else {
      PutRoundTakes(s, t);
    }
  }

  lemma OthersLeavePending(s: State, x: Step, t: nat)
    requires Enabled(s, x) && |s.sh.fifo| <= s.size && t < |s.callers| && !PutBy(x, t)
    ensures Pending(Next(s, x).callers[t]) == Pending(s.callers[t]) + AskedIn(x, t)
  {
    if x.ReadAnnounce? { assert Next(s, x).callers[t] == Signalled(s.callers[t]); }
  }

  lemma PutRoundTakes(s: State, t: nat)
    requires t < |s.callers| && |s.sh.fifo| <= s.size
    ensures var data, s' := Pending(s.callers[t]), PutRound(s, t, Pending(s.callers[t]));
            && s.accepted <= s'.accepted
            && (s.sh.stop ==> s'.accepted == s.accepted && s'.callers[t] == Outside)
            && (Pending(s'.callers[t]) != [] ==> |s'.sh.fifo| == s'.size)
            && (!s.sh.stop ==> s'.accepted[|s.accepted|..] + Pending(s'.callers[t]) == data)
  {
    var data := Pending(s.callers[t]);
    var a := Accepted(s.sh, s.size, data);
    assert data == data[..|a|] + data[|a|..];
  }

  predicate NoStop(steps: seq<Step>) {
    forall k :: 0 <= k < |steps| ==> !steps[k].StopCall?
  }

  lemma NoStopBehind(steps: seq<Step>)
    requires steps != [] && NoStop(steps)
    ensures !steps[0].StopCall? && NoStop(steps[1..])
  {
    assert forall k :: 0 <= k < |steps| - 1 ==> steps[1..][k] == steps[k + 1];
  }

  lemma StaysUnstopped(s: State, x: Step)
    requires Enabled(s, x) && |s.sh.fifo| <= s.size && !s.sh.stop && !x.StopCall?
    ensures !Next(s, x).sh.stop
  {
  }

  /** For every thread and every run without a stop, whatever the others do: put
      takes over all bytes it is asked to, each once and in order, but for those
      that are still pending. */
  lemma {:induction false} PutTakesAll(s: State, steps: seq<Step>, t: nat)
    requires Inv(s) && Run(s, steps) && t < |s.callers| && !s.sh.stop && NoStop(steps)
    ensures t < |After(s, steps).callers|
    ensures GainsOf(s, steps, t, true) + Pending(After(s, steps).callers[t]) == Pending(s.callers[t]) + Asked(steps, t)
    decreases |steps|
  {
    if steps != [] {
      var x, rest := steps[0], steps[1..];
      NoStopBehind(steps);
      KeepsInv(s, x);
      StaysUnstopped(s, x);
      PutStepTakes(s, x, t);
      PutTakesAll(Next(s, x), rest, t);
      FourParts(if PutBy(x, t) then Gain(s, x) else [], GainsOf(Next(s, x), rest, t, true),
                Pending(After(s, steps).callers[t]), Pending(Next(s, x).callers[t]), Pending(s.callers[t]),
                AskedIn(x, t), Asked(rest, t));
    }
  }

  lemma FourParts<T>(g: seq<T>, gs: seq<T>, p2: seq<T>, p1: seq<T>, p0: seq<T>, a: seq<T>, as_: seq<T>)
    requires g + p1 == p0 + a && gs + p2 == p1 + as_
    ensures (g + gs) + p2 == p0 + (a + as_)
  {
    Assoc(g, gs, p2);
    Assoc(g, p1, as_);
    Assoc(p0, a, as_);
  }

  // ----- the log of accepted bytes, thread by thread

  lemma {:induction false} PickConcat<T>(a: seq<T>, ma: seq<bool>, b: seq<T>, mb: seq<bool>, v: bool)
    requires |a| == |ma| && |b| == |mb|
    ensures Pick(a + b, ma + mb, v) == Pick(a, ma, v) + Pick(b, mb, v)
    decreases |b|
  {
    if b == [] {
      assert a + b == a && ma + mb == ma;
    } else {
      var n := |b| - 1;
      PickConcat(a, ma, b[..n], mb[..n], v);
      assert (a + b)[..|a + b| - 1] == a + b[..n] && (ma + mb)[..|a + b| - 1] == ma + mb[..n];
    }
  }

  lemma PickAll<T>(c: seq<T>, mark: bool, v: bool)
    ensures Pick(c, seq(|c|, _ => mark), v) == if mark == v then c else []
  {
    PickAppend([], [], c, mark, v);
    assert [] + c == c && [] + seq(|c|, _ => mark) == seq(|c|, _ => mark);
  }

  lemma {:induction false} GainsAreMarked(s: State, steps: seq<Step>, t: nat) returns (marks: seq<bool>)
    requires |s.sh.fifo| <= s.size && Run(s, steps)
    ensures |marks| == |Gains(s, steps)|
    ensures Pick(Gains(s, steps), marks, true) == GainsOf(s, steps, t, true)
    ensures Pick(Gains(s, steps), marks, false) == GainsOf(s, steps, t, false)
    decreases |steps|
  {
    if steps == [] {
      marks := [];
    } else {
      var x := steps[0];
      var g, own := Gain(s, x), PutBy(x, t);
      var ms := GainsAreMarked(Next(s, x), steps[1..], t);
      var m := seq(|g|, _ => own);
      marks := m + ms;
      PickConcat(g, m, Gains(Next(s, x), steps[1..]), ms, true);
      PickConcat(g, m, Gains(Next(s, x), steps[1..]), ms, false);
      PickAll(g, own, true);
      PickAll(g, own, false);
    }
  }

  lemma {:induction false} AcceptedGrows(s: State, steps: seq<Step>)
    requires |s.sh.fifo| <= s.size && Run(s, steps)
    ensures After(s, steps).accepted == s.accepted + Gains(s, steps)
    decreases |steps|
  {
    if steps != [] {
      GainIs(s, steps[0]);
      AcceptedGrows(Next(s, steps[0]), steps[1..]);
      Assoc(s.accepted, Gain(s, steps[0]), Gains(Next(s, steps[0]), steps[1..]));
    }
  }

  /** What a run adds to the log is, for every thread, a merge of what came from
      it and what came from the others. */
  lemma AcceptedIsMergeOfPuts(s: State, steps: seq<Step>, t: nat)
    requires |s.sh.fifo| <= s.size && Run(s, steps)
    ensures After(s, steps).accepted == s.accepted + Gains(s, steps)
    ensures Merge(GainsOf(s, steps, t, true), GainsOf(s, steps, t, false), Gains(s, steps))
  {
    AcceptedGrows(s, steps);
    var marks := GainsAreMarked(s, steps, t);
  }

  /** Nobody but `t` is in put or enters it. */
  predicate OnlyPutter(s: State, steps: seq<Step>, t: nat) {
    && (forall u :: 0 <= u < |s.callers| && u != t ==> !s.callers[u].Putting? && !s.callers[u].PutWaits?)
    && (forall k :: 0 <= k < |steps| && steps[k].PutCall? ==> steps[k].t == t)
  }

  lemma OnlyPutterBehind(s: State, steps: seq<Step>, t: nat)
    requires |s.sh.fifo| <= s.size && steps != [] && Enabled(s, steps[0]) && OnlyPutter(s, steps, t)
    ensures OnlyPutter(Next(s, steps[0]), steps[1..], t)
    ensures steps[0].PutLock? || steps[0].PutWake? ==> steps[0].t == t
  {
    assert forall k :: 0 <= k < |steps| - 1 ==> steps[1..][k] == steps[k + 1];
  }

  lemma {:induction false} AllGainsAreIts(s: State, steps: seq<Step>, t: nat)
    requires |s.sh.fifo| <= s.size && Run(s, steps) && OnlyPutter(s, steps, t)
    ensures Gains(s, steps) == GainsOf(s, steps, t, true)
    decreases |steps|
  {
    if steps != [] {
      OnlyPutterBehind(s, steps, t);
      GainIs(s, steps[0]);
      AllGainsAreIts(Next(s, steps[0]), steps[1..], t);
    }
  }

  /** With a single writer, the log is what it put. */
  lemma SingleWriterLog(s: State, steps: seq<Step>, t: nat)
    requires Inv(s) && Run(s, steps) && t < |s.callers| && !s.sh.stop && NoStop(steps) && OnlyPutter(s, steps, t)
    ensures t < |After(s, steps).callers|
    ensures var s' := After(s, steps);
            s'.accepted + Pending(s'.callers[t]) == s.accepted + Pending(s.callers[t]) + Asked(steps, t)
  {
    PutTakesAll(s, steps, t);
    AcceptedGrows(s, steps);
    AllGainsAreIts(s, steps, t);
    var p' := Pending(After(s, steps).callers[t]);
    Assoc(s.accepted, Gains(s, steps), p');
    Assoc(s.accepted, Pending(s.callers[t]), Asked(steps, t));
  }

  // ----- from the fifo to the device

  /** All that the device was given or is going to be given. */
  function Out(s: State): seq<Byte> {
    s.sent + s.reader.chunk + s.sh.fifo
  }

  /** The steps that throw the fifo away. */
  predicate Drops(s: State, x: Step) {
    x.ResetCall? || (x.ReadTop? && s.sh.stop)
  }

  lemma DroppedAppend(past: seq<Segment>, g: Segment)
    ensures DroppedBytes(past + [g]) == DroppedBytes(past) + (if g.Dropped? then g.bytes else [])
  {
    assert (past + [g])[..|past|] == past;
  }

  /** Every step accounts for all bytes: a reset, and the reader's loop under
      stop, throw away exactly what is in the fifo; all other steps keep what is
      on its way to the device, in order, and add what put takes over. */
  lemma StepAccounts(s: State, x: Step)
    requires Inv(s) && Enabled(s, x)
    ensures var s' := Next(s, x);
            if Drops(s, x) then
              s'.sh.fifo == [] && Out(s') == s.sent + s.reader.chunk && DroppedBytes(s'.past) == DroppedBytes(s.past) + s.sh.fifo
            else
              Out(s') == Out(s) + Gain(s, x) && DroppedBytes(s'.past) == DroppedBytes(s.past)
    ensures s.sent <= Next(s, x).sent
  {
    GainIs(s, x);
    if x.ReadCheck? {
      CheckAccounts(s, x);
    } else if x.Send? {
      SendKeeps(s.sent, s.reader.chunk, x.n, s.sh.fifo);
    } else if x.PutLock? || x.PutWake? {
      CallersLeaveReader(s, x);
      PutKeeps(s, x.t);
    } else {
      DroppedAppend(s.past, Dropped(s.sh.fifo));
      OtherStepAccounts(s, x);
    }
  }

  lemma OtherStepAccounts(s: State, x: Step)
    requires Inv(s) && Enabled(s, x) && !x.ReadCheck? && !x.Send? && !x.PutLock? && !x.PutWake?
    ensures var s' := Next(s, x);
            && s'.sent == s.sent && s'.reader.chunk == s.reader.chunk
            && s'.past == (if Drops(s, x) then s.past + [Dropped(s.sh.fifo)] else s.past)
            && s'.sh.fifo == (if Drops(s, x) then [] else s.sh.fifo)
  {
  }

  lemma CheckAccounts(s: State, x: Step)
    requires Inv(s) && Enabled(s, x) && x.ReadCheck?
    ensures Out(Next(s, x)) == Out(s) && Next(s, x).sent == s.sent && Next(s, x).accepted == s.accepted
    ensures DroppedBytes(Next(s, x).past) == DroppedBytes(s.past)
  {
    var n := CheckTakes(s, x);
    if n != -1 {
      TakeKeeps(s.sent, s.sh.fifo, n);
      DroppedAppend(s.past, Played(s.sh.fifo[..n]));
    }
  }

  /** How much the reader takes out of the fifo, -1 if it goes round. */
  lemma CheckTakes(s: State, x: Step) returns (n: int)
    requires Inv(s) && Enabled(s, x) && x.ReadCheck?
    ensures var s' := Next(s, x);
            && s'.sent == s.sent && s'.accepted == s.accepted && s.reader.chunk == [] && -1 <= n <= |s.sh.fifo|
            && (n == -1 ==> s'.sh.fifo == s.sh.fifo && s'.reader.chunk == [] && s'.past == s.past)
            && (n != -1 ==> s'.sh.fifo == s.sh.fifo[n..] && s'.reader.chunk == s.sh.fifo[..n]
                            && s'.past == s.past + [Played(s.sh.fifo[..n])])
  {
    n := if MayPlay(s.sh, Reopened(s.sh, s.reader.devClosed, x.openOk)) then Min(x.limit, |s.sh.fifo|) else -1;
  }

  lemma TakeKeeps(sent: seq<Byte>, fifo: seq<Byte>, n: nat)
    requires n <= |fifo|
    ensures sent + fifo[..n] + fifo[n..] == sent + [] + fifo
  {
  }

  lemma SendKeeps(sent: seq<Byte>, chunk: seq<Byte>, n: nat, fifo: seq<Byte>)
    requires n <= |chunk|
    ensures (sent + chunk[..n]) + chunk[n..] + fifo == sent + chunk + fifo
  {
  }

  lemma PutKeeps(s: State, t: nat)
    requires t < |s.callers| && |s.sh.fifo| <= s.size
    ensures var s' := PutRound(s, t, Pending(s.callers[t]));
            s.accepted <= s'.accepted && Out(s') == Out(s) + s'.accepted[|s.accepted|..] && s'.past == s.past
  {
    var a := Accepted(s.sh, s.size, Pending(s.callers[t]));
    Assoc(s.sent + s.reader.chunk, s.sh.fifo, a);
  }

  predicate NoStopOrReset(steps: seq<Step>) {
    forall k :: 0 <= k < |steps| ==> !steps[k].StopCall? && !steps[k].ResetCall?
  }

  lemma NoStopOrResetBehind(steps: seq<Step>)
    requires steps != [] && NoStopOrReset(steps)
    ensures !steps[0].StopCall? && !steps[0].ResetCall? && NoStopOrReset(steps[1..])
  {
    assert forall k :: 0 <= k < |steps| - 1 ==> steps[1..][k] == steps[k + 1];
  }

  /** Over every run without stop and reset nothing is thrown away: what was on
      its way to the device still is, followed by what was put. */
  lemma {:induction false} NothingIsDropped(s: State, steps: seq<Step>)
    requires Inv(s) && Run(s, steps) && !s.sh.stop && NoStopOrReset(steps)
    ensures Out(After(s, steps)) == Out(s) + Gains(s, steps) && s.sent <= After(s, steps).sent
    decreases |steps|
  {
    if steps != [] {
      var x, rest := steps[0], steps[1..];
      NoStopOrResetBehind(steps);
      KeepsInv(s, x);
      StaysUnstopped(s, x);
      StepAccounts(s, x);
      NothingIsDropped(Next(s, x), rest);
      Assoc(Out(s), Gain(s, x), Gains(Next(s, x), rest));
    }
  }

  /** From end to end, for a single writer: what the device got or is going to
      get, and what is still pending in put, is what it was before and then the
      bytes put, none lost, doubled or out of order. */
  lemma EndToEnd(s: State, steps: seq<Step>, t: nat)
    requires Inv(s) && Run(s, steps) && t < |s.callers| && !s.sh.stop && NoStopOrReset(steps) && OnlyPutter(s, steps, t)
    ensures t < |After(s, steps).callers|
    ensures var s' := After(s, steps);
            Out(s') + Pending(s'.callers[t]) == Out(s) + Pending(s.callers[t]) + Asked(steps, t)
  {
    NothingIsDropped(s, steps);
    PutTakesAll(s, steps, t);
    AllGainsAreIts(s, steps, t);
    Assoc(Out(s), Gains(s, steps), Pending(After(s, steps).callers[t]));
    Assoc(Out(s), Pending(s.callers[t]), Asked(steps, t));
  }

  // ----- everything gets played

  /** No stop, pause or reset; the device opens, and the reader asks for bytes. */
  predicate Undisturbed(steps: seq<Step>) {
    forall k :: 0 <= k < |steps| ==> Harmless(steps[k])
  }

  predicate Harmless(x: Step) {
    !x.StopCall? && !x.ResetCall? && !x.PauseCall? && (x.ReadCheck? ==> x.openOk && x.limit > 0)
  }

  function Rank(pc: Pc): nat {
    match pc
    case Check => 1
    case Asleep(_) => 2
    case Announce => 3
    case Callback => 4
    case Top => 5
    case Sending => 6
  }

  /** A bound on the reader's steps until the device has got `goal` bytes. */
  function StepsToGo(s: State, goal: nat): nat {
    if |s.sent| >= goal then 0
    else
      var c := |s.reader.chunk|;
      var need := goal - |s.sent|;
      8 * (if need > c then need - c else 0) + 2 * (if need > c then c else need) + Rank(s.reader.pc)
  }

  lemma ReaderGetsOn(s: State, x: Step, goal: nat)
    requires Inv(s) && Enabled(s, x) && Harmless(x) && !s.sh.stop && !s.sh.pause && goal <= |Out(s)|
    ensures !Next(s, x).sh.stop && !Next(s, x).sh.pause
    ensures |s.sent| < goal && ReaderStep(x) ==> StepsToGo(Next(s, x), goal) < StepsToGo(s, goal)
    ensures !ReaderStep(x) ==> StepsToGo(Next(s, x), goal) == StepsToGo(s, goal)
  {
    if !ReaderStep(x) {
      CallersLeaveReader(s, x);
    }
  }

  lemma CallersLeaveReader(s: State, x: Step)
    requires Enabled(s, x) && |s.sh.fifo| <= s.size && !ReaderStep(x)
    ensures var r, r' := s.reader, Next(s, x).reader;
            Next(s, x).sent == s.sent && r'.chunk == r.chunk && Rank(r'.pc) == Rank(r.pc)
  {
  }

  lemma UndisturbedBehind(steps: seq<Step>)
    requires steps != [] && Undisturbed(steps)
    ensures Harmless(steps[0]) && Undisturbed(steps[1..])
  {
    assert forall k :: 0 <= k < |steps| - 1 ==> steps[1..][k] == steps[k + 1];
  }

  lemma {:induction false} GoalIsReached(s: State, steps: seq<Step>, goal: nat)
    requires Inv(s) && Run(s, steps) && Undisturbed(steps) && !s.sh.stop && !s.sh.pause && goal <= |Out(s)|
    requires ReaderSteps(steps) >= StepsToGo(s, goal)
    ensures |After(s, steps).sent| >= goal
    decreases |steps|
  {
    if steps != [] {
      var x := steps[0];
      UndisturbedBehind(steps);
      KeepsInv(s, x);
      ReaderGetsOn(s, x, goal);
      StepAccounts(s, x);
      GoalIsReached(Next(s, x), steps[1..], goal);
    }
  }

  /** While nobody stops, pauses or resets, all that is in the buffer has been
      given to the device, in order, after so many steps of the reader, whatever
      else is put meanwhile. */
  lemma EverythingIsPlayed(s: State, steps: seq<Step>)
    requires Inv(s) && Run(s, steps) && Undisturbed(steps) && !s.sh.stop && !s.sh.pause
    requires ReaderSteps(steps) >= 8 * |s.sh.fifo| + 2 * |s.reader.chunk| + 6
    ensures Out(s) <= After(s, steps).sent
  {
    StepsEnough(s);
    GoalIsReached(s, steps, |Out(s)|);
    UndisturbedHasNoStop(steps);
    NothingIsDropped(s, steps);
    SentIsFront(After(s, steps), Out(s), Gains(s, steps));
  }

  lemma StepsEnough(s: State)
    ensures StepsToGo(s, |Out(s)|) <= 8 * |s.sh.fifo| + 2 * |s.reader.chunk| + 6
  {
  }

  lemma UndisturbedHasNoStop(steps: seq<Step>)
    requires Undisturbed(steps)
    ensures NoStopOrReset(steps)
  {
    assert forall k :: 0 <= k < |steps| ==> Harmless(steps[k]);
  }

  lemma SentIsFront(s: State, out: seq<Byte>, more: seq<Byte>)
    requires Out(s) == out + more && |out| <= |s.sent|
    ensures out <= s.sent
  {
    Assoc(s.sent, s.reader.chunk, s.sh.fifo);
    FrontOf(s.sent, s.reader.chunk + s.sh.fifo, out, more);
  }

  lemma FrontOf<T>(a: seq<T>, ra: seq<T>, b: seq<T>, rb: seq<T>)
    requires a + ra == b + rb && |b| <= |a|
    ensures b <= a
  {
    assert forall k :: 0 <= k < |b| ==> a[k] == (a + ra)[k] == b[k];
  }

  // ----- pause, unpause, reset, wait

  predicate StaysPaused(steps: seq<Step>) {
    forall k :: 0 <= k < |steps| ==> !steps[k].UnpauseCall? && !steps[k].StopCall? && !steps[k].ResetCall?
  }

  lemma {:induction false} PausedHolds(s: State, steps: seq<Step>)
    requires Inv(s) && Run(s, steps) && s.sh.pause && StaysPaused(steps)
    ensures After(s, steps).sent + After(s, steps).reader.chunk == s.sent + s.reader.chunk
    decreases |steps|
  {
    if steps != [] {
      var x, rest := steps[0], steps[1..];
      assert StaysPaused(rest) by { assert forall k :: 0 <= k < |rest| ==> rest[k] == steps[k + 1]; }
      KeepsInv(s, x);
      PausedStep(s, x);
      PausedHolds(Next(s, x), rest);
    }
  }

  lemma PausedStep(s: State, x: Step)
    requires Inv(s) && Enabled(s, x) && s.sh.pause && !x.UnpauseCall? && !x.StopCall? && !x.ResetCall?
    ensures Next(s, x).sh.pause && Next(s, x).sent + Next(s, x).reader.chunk == s.sent + s.reader.chunk
  {
    if !ReaderStep(x) {
      CallersLeaveReader(s, x);
    } else if x.Send? {
      SendKeeps(s.sent, s.reader.chunk, x.n, []);
    }
  }

  /** After pause the device gets no more than the chunk that was on its way, and
      nothing is lost: until an unpause, a stop or a reset. */
  lemma PauseHoldsOutput(s: State, t: nat, steps: seq<Step>)
    requires Inv(s) && Enabled(s, PauseCall(t)) && Run(Next(s, PauseCall(t)), steps) && StaysPaused(steps)
    ensures var s' := After(Next(s, PauseCall(t)), steps);
            && s'.sent + s'.reader.chunk == s.sent + s.reader.chunk
            && (!s.sh.stop ==> Out(s') == Out(s) + Gains(Next(s, PauseCall(t)), steps))
  {
    var s1 := Next(s, PauseCall(t));
    KeepsInv(s, PauseCall(t));
    PausedHolds(s1, steps);
    if !s.sh.stop {
      NothingIsDropped(s1, steps);
    }
  }

  /** After unpause all that was held back is played. */
  lemma UnpausePlaysOn(s: State, t: nat, steps: seq<Step>)
    requires Inv(s) && !s.sh.stop && Enabled(s, UnpauseCall(t))
    requires Run(Next(s, UnpauseCall(t)), steps) && Undisturbed(steps)
    requires ReaderSteps(steps) >= 8 * |s.sh.fifo| + 2 * |s.reader.chunk| + 6
    ensures Out(s) <= After(Next(s, UnpauseCall(t)), steps).sent
  {
    KeepsInv(s, UnpauseCall(t));
    EverythingIsPlayed(Next(s, UnpauseCall(t)), steps);
  }

  /** After reset the old bytes are gone and put works again: for a single
      writer, what is put from then on follows the chunk that was on its way. */
  lemma ResetStartsOver(s: State, u: nat, steps: seq<Step>, t: nat)
    requires Inv(s) && Enabled(s, ResetCall(u)) && t < |s.callers|
    requires Run(Next(s, ResetCall(u)), steps) && NoStopOrReset(steps) && OnlyPutter(Next(s, ResetCall(u)), steps, t)
    ensures t < |After(Next(s, ResetCall(u)), steps).callers|
    ensures var s' := After(Next(s, ResetCall(u)), steps);
            Out(s') + Pending(s'.callers[t]) == s.sent + s.reader.chunk + Pending(s.callers[t]) + Asked(steps, t)
    ensures Undisturbed(steps) && ReaderSteps(steps) >= 2 * |s.reader.chunk| + 6 ==>
              s.sent + s.reader.chunk <= After(Next(s, ResetCall(u)), steps).sent
  {
    var s1 := Next(s, ResetCall(u));
    KeepsInv(s, ResetCall(u));
    EndToEnd(s1, steps, t);
    assert Out(s1) == s.sent + s.reader.chunk;
    if Undisturbed(steps) && ReaderSteps(steps) >= 2 * |s.reader.chunk| + 6 {
      EverythingIsPlayed(s1, steps);
    }
  }

  /** What stop leaves to the reader: once it has come to the top of its loop, the
      fifo is empty and stays so, until a reset. */
  lemma {:induction false} StopEmptiesFifo(s: State, steps: seq<Step>)
    requires Inv(s) && s.sh.stop && Enabled(s, ReadTop) && Run(Next(s, ReadTop), steps) && NoReset(steps)
    ensures var s' := After(Next(s, ReadTop), steps); s'.sh.stop && s'.sh.fifo == [] && s'.accepted == s.accepted
  {
    KeepsInv(s, ReadTop);
    EmptyStays(Next(s, ReadTop), steps);
  }

  lemma {:induction false} EmptyStays(s: State, steps: seq<Step>)
    requires Inv(s) && s.sh.stop && s.sh.fifo == [] && Run(s, steps) && NoReset(steps)
    ensures After(s, steps).sh.stop && After(s, steps).sh.fifo == [] && After(s, steps).accepted == s.accepted
    decreases |steps|
  {
    if steps != [] {
      var x, rest := steps[0], steps[1..];
      assert !x.ResetCall?;
      assert NoReset(rest) by { assert forall k :: 0 <= k < |rest| ==> rest[k] == steps[k + 1]; }
      KeepsInv(s, x);
      EmptyStep(s, x);
      EmptyStays(Next(s, x), rest);
    }
  }

  lemma EmptyStep(s: State, x: Step)
    requires Enabled(s, x) && |s.sh.fifo| <= s.size && s.sh.stop && s.sh.fifo == [] && !x.ResetCall?
    ensures Next(s, x).sh.stop && Next(s, x).sh.fifo == [] && Next(s, x).accepted == s.accepted
  {
  }

  /** A stopped buffer that is empty, or whose reader comes to the top of its loop
      before it broadcasts; the caller `t` of stop is not woken before that. */
  predicate Clearing(s: State, t: nat) {
    && s.sh.stop && t < |s.callers|
    && (s.sh.fifo != [] ==> s.reader.pc != Callback && s.reader.pc != Announce && s.callers[t] != StopWaits(true))
  }

  lemma ClearingStep(s: State, x: Step, t: nat)
    requires Inv(s) && Clearing(s, t) && Enabled(s, x) && !x.ResetCall?
    ensures Clearing(Next(s, x), t)
  {
    if s.sh.fifo == [] {
      EmptyStep(s, x);
    } else if ReaderStep(x) {
      assert !x.ReadAnnounce? && !x.CallbackDone?;
    }
  }

  lemma {:induction false} ClearingStays(s: State, steps: seq<Step>, t: nat)
    requires Inv(s) && Clearing(s, t) && Run(s, steps) && NoReset(steps)
    ensures Clearing(After(s, steps), t)
    decreases |steps|
  {
    if steps != [] {
      var x, rest := steps[0], steps[1..];
      assert !x.ResetCall?;
      assert NoReset(rest) by { assert forall k :: 0 <= k < |rest| ==> rest[k] == steps[k + 1]; }
      KeepsInv(s, x);
      ClearingStep(s, x, t);
      ClearingStays(Next(s, x), rest, t);
    }
  }

  /** When stop, called while the reader is not in its callback, returns because it
      was woken, the fifo is empty, whatever happened meanwhile short of a reset. */
  lemma StopReturnsEmpty(s: State, t: nat, steps: seq<Step>)
    requires Inv(s) && Enabled(s, StopCall(t)) && s.reader.pc != Callback
    requires Run(Next(s, StopCall(t)), steps) && NoReset(steps)
    ensures t < |After(Next(s, StopCall(t)), steps).callers|
    ensures var s' := After(Next(s, StopCall(t)), steps);
            Enabled(s', StopWake(t, false)) ==> s'.sh.fifo == []
  {
    KeepsInv(s, StopCall(t));
    ClearingStays(Next(s, StopCall(t)), steps, t);
  }

  /** A call of wait returns exactly if the reader is asleep with nothing more to
      send of what it took. */
  lemma WaitReturnsIff(s: State, x: Step)
    requires Inv(s) && Enabled(s, x) && (x.WaitCall? || x.WaitWake?)
    ensures Next(s, x).callers[x.t] == Outside <==> s.reader.pc.Asleep?
    ensures Next(s, x).callers[x.t] == Outside ==> PlayedBytes(s.past) == s.sent
    ensures Next(s, x).callers[x.t] != Outside ==> StopOrWaitStuck(Next(s, x).callers[x.t])
  {
    assert PlayedBytes(s.past) == s.sent + s.reader.chunk;
  }

  // ----- the device

  predicate SendsWhenOpen(s: State) {
    s.reader.pc == Sending ==> !s.reader.devClosed
  }

  lemma {:induction false} SendsWhenOpenOver(s: State, steps: seq<Step>)
    requires Inv(s) && SendsWhenOpen(s) && Run(s, steps)
    ensures SendsWhenOpen(After(s, steps))
    decreases |steps|
  {
    if steps != [] {
      KeepsInv(s, steps[0]);
      OpenStep(s, steps[0]);
      SendsWhenOpenOver(Next(s, steps[0]), steps[1..]);
    }
  }

  lemma OpenStep(s: State, x: Step)
    requires Enabled(s, x) && |s.sh.fifo| <= s.size && SendsWhenOpen(s)
    ensures SendsWhenOpen(Next(s, x))
  {
  }

  /** In every reachable state the reader sends to an open device only. */
  lemma SendsToOpenDevice(start: State, steps: seq<Step>)
    requires Init(start) && Run(start, steps)
    ensures SendsWhenOpen(After(start, steps))
  {
    InitInv(start);
    SendsWhenOpenOver(start, steps);
  }

  /** The device is closed only when the reader goes to sleep under pause, then
      always, and opened again only before more bytes are taken, not in a pause. */
  lemma DeviceFollowsPause(s: State, x: Step)
    requires Inv(s) && Enabled(s, x)
    ensures var closed, closed' := s.reader.devClosed, Next(s, x).reader.devClosed;
            && (!closed ==> (closed' <==> x.ReadAnnounce? && s.sh.pause))
            && (closed ==> (!closed' <==> x.ReadCheck? && x.openOk && !s.sh.pause))
  {
  }

  /** A reset of the device that pause or stop asks for is done at the top of the
      reader's loop, once the device is open, unless the whole buffer is reset. */
  lemma DeviceResetIsServed(s: State, x: Step)
    requires Inv(s) && Enabled(s, x)
    ensures var asked, asked' := s.sh.resetDev, Next(s, x).sh.resetDev;
            && (!asked ==> (asked' <==> x.PauseCall? || x.StopCall?))
            && (asked ==> (!asked' <==> x.ResetCall? || (x.ReadTop? && !s.reader.devClosed)))
  {
  }

  /** The callback that was set last is called in every round of the reader's loop. */
  lemma CallbackInEveryRound(s: State, x: Step)
    requires Inv(s) && Enabled(s, x)
    ensures Next(s, x).reader.pc == Callback && s.reader.pc != Callback <==> x.ReadTop? && s.hasCallback
    ensures Next(s, x).hasCallback == if x.SetCallback? then x.on else s.hasCallback
  {
  }
}
