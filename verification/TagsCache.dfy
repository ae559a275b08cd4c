/** The tag service's reader thread (server/tags_cache.cc). */
module TagsCache {
  // Requests of all clients are served round robin by a scan over their queues.

  datatype Request = Request(path: string, writes: bool)

  /** `++client; client %= CLIENTS_MAX` */
  function Succ(client: nat, max: nat): nat {
    if client + 1 < max then client + 1 else 0
  }

  /** How many other queues are looked at before that of `c`. */
  function Distance(at: nat, c: nat, max: nat): int {
    if c > at then c - at - 1 else c - at - 1 + max
  }

  /** What one scan comes to. */
  datatype Found = Serve(client: nat) | AllEmpty

  /** The scan still has `left` queues to look at, behind `at`. */
  function Search(queues: seq<seq<Request>>, at: nat, left: nat): Found
    requires at < |queues|
    decreases left
  {
    if left == 0 then AllEmpty
    else
      var c := Succ(at, |queues|);
      if queues[c] != [] then Serve(c) else Search(queues, c, left - 1)
  }

  /** The queue served is the nearest non-empty one in round-robin order, and
      nothing is served only if all are empty. */
  lemma {:induction false} SearchIsNearest(queues: seq<seq<Request>>, at: nat, left: nat)
    requires at < |queues| && left <= |queues|
    ensures match Search(queues, at, left)
            case Serve(c) => c < |queues| && queues[c] != [] && Distance(at, c, |queues|) < left
                             && forall x :: 0 <= x < |queues| && Distance(at, x, |queues|) < Distance(at, c, |queues|) ==> queues[x] == []
            case AllEmpty => forall x :: 0 <= x < |queues| && Distance(at, x, |queues|) < left ==> queues[x] == []
    decreases left
  {
    if left > 0 {
      var c := Succ(at, |queues|);
      if queues[c] == [] { SearchIsNearest(queues, c, left - 1); }
    }
  }

  /** The shared queues. */
  class Cache {
    var queues: seq<seq<Request>>

    constructor (max: nat)
      ensures queues == seq(max, _ => [])
    {
      queues := seq(max, _ => []);
    }

    method AddRequest(c: nat, r: Request)
      requires c < |queues|
      modifies this
      ensures queues == old(queues)[c := old(queues)[c] + [r]]
    {
      queues := queues[c := queues[c] + [r]];
    }

    method ClearQueue(c: nat)
      requires c < |queues|
      modifies this
      ensures queues == old(queues)[c := []]
    {
      queues := queues[c := []];
    }

    /** The reader's loop from taking the mutex to unlocking it for a service or
        in a wait.  It starts where the last service or wait was; `looks` counts
        the queues looked at. */
    method Scan(start: nat) returns (client: nat, wait: bool, rq: Request, looks: nat)
      requires start < |queues|
      modifies this
      ensures match Search(old(queues), start, |old(queues)|)
              case Serve(c) => && !wait && client == c < |old(queues)| && old(queues)[c] != []
                               && rq == old(queues)[c][0] && queues == old(queues)[c := old(queues)[c][1..]]
              case AllEmpty => wait && client == start && queues == old(queues)
      ensures 1 <= looks <= |queues|
    {
      var lastClient, max := start, |queues|;
      client, looks, rq := start, 0, Request("", false);
      while true
        invariant |queues| == max && queues == old(queues) && client < max && looks < max
        invariant Search(queues, client, max - looks) == Search(queues, start, max)
        invariant looks == 0 ==> client == start
        invariant looks > 0 ==> client != start && Distance(start, client, max) == looks - 1
        decreases max - looks
      {
        client := client + 1;
        if client >= max { client := 0; }
        looks := looks + 1;
        if queues[client] != [] {
          lastClient := client;
          rq := queues[client][0];
          queues := queues[client := queues[client][1..]];
          return client, false, rq, looks;
        } else if client == lastClient {
          return client, true, rq, looks;
        }
      }
    }
  }

  // ----- the reader, the clients and their interleavings

  /** The reader has not taken the mutex yet, waits for a signal, is about to scan,
      or serves with the mutex released. */
  datatype Phase = Starting | Waiting(signalled: bool) | Ready | Serving

  /** How a request left its queue. */
  datatype Gone = Served(r: Request) | Cleared(rs: seq<Request>)

  /** `cursor` is the reader's `client`.  For one client `w`, picked once and for
      all, logs are kept: its requests, and how they left the queue. */
  datatype State = State(queues: seq<seq<Request>>, cursor: nat, phase: Phase,
                         w: nat, added: seq<Request>, gone: seq<Gone>)

  datatype Step =
    | Begin
    | ScanStep
    | ServiceDone
    | Wake(spurious: bool)
    | Add(c: nat, r: Request)
    | Clear(c: nat)

  predicate Shape(s: State) {
    s.cursor < |s.queues| && s.w < |s.queues|
  }

  predicate Enabled(s: State, x: Step) {
    match x
    case Begin => s.phase == Starting
    case ScanStep => s.phase == Ready
    case ServiceDone => s.phase == Serving
    case Wake(spurious) => s.phase.Waiting? && (spurious || s.phase.signalled)
    case Add(c, _) => c < |s.queues| && s.phase != Ready
    case Clear(c) => c < |s.queues| && s.phase != Ready
  }

  function Next(s: State, x: Step): (s': State)
    requires Shape(s) && Enabled(s, x)
    ensures Shape(s')
  {
    match x
    case Begin => s.(phase := Ready)
    case ScanStep =>
      (match Search(s.queues, s.cursor, |s.queues|)
       case Serve(c) =>
         SearchIsNearest(s.queues, s.cursor, |s.queues|);
         s.(queues := s.queues[c := s.queues[c][1..]], cursor := c, phase := Serving,
            gone := if c == s.w then s.gone + [Served(s.queues[c][0])] else s.gone)
       case AllEmpty => s.(phase := Waiting(false)))
    case ServiceDone => s.(phase := Ready)
    case Wake(_) => s.(phase := Ready)
    case Add(c, r) =>
      s.(queues := s.queues[c := s.queues[c] + [r]], phase := if s.phase.Waiting? then Waiting(true) else s.phase,
         added := if c == s.w then s.added + [r] else s.added)
    case Clear(c) =>
      s.(queues := s.queues[c := []], gone := if c == s.w then s.gone + [Cleared(s.queues[c])] else s.gone)
  }

  function GoneRequests(gone: seq<Gone>): seq<Request> {
    if gone == [] then []
    else
      var g := gone[|gone| - 1];
      GoneRequests(gone[..|gone| - 1]) + (if g.Served? then [g.r] else g.rs)
  }

  /** Nothing is left waiting while the reader sleeps unsignalled; and the
      client's requests are, in order, those served or cleared and those still
      queued, each once. */
  predicate Inv(s: State) {
    && Shape(s)
    && (s.phase == Waiting(false) ==> forall c :: 0 <= c < |s.queues| ==> s.queues[c] == [])
    && s.added == GoneRequests(s.gone) + s.queues[s.w]
  }

  predicate Init(s: State) {
    && |s.queues| > 0 && s.w < |s.queues| && s.cursor == 0 && s.phase == Starting
    && (forall c :: 0 <= c < |s.queues| ==> s.queues[c] == []) && s.added == [] && s.gone == []
  }

  lemma GoneAppend(gone: seq<Gone>, g: Gone)
    ensures GoneRequests(gone + [g]) == GoneRequests(gone) + (if g.Served? then [g.r] else g.rs)
  {
    assert (gone + [g])[..|gone|] == gone;
  }

  lemma ScanKeepsInv(s: State)
    requires Inv(s) && s.phase == Ready
    ensures Inv(Next(s, ScanStep)) && |Next(s, ScanStep).queues| == |s.queues| && Next(s, ScanStep).w == s.w
  {
    var q := s.queues[s.w];
    SearchIsNearest(s.queues, s.cursor, |s.queues|);
    if q != [] {
      GoneAppend(s.gone, Served(q[0]));
      assert GoneRequests(s.gone) + q == (GoneRequests(s.gone) + [q[0]]) + q[1..];
    }
  }

  lemma StepKeepsInv(s: State, x: Step)
    requires Inv(s) && Enabled(s, x)
    ensures Inv(Next(s, x)) && |Next(s, x).queues| == |s.queues| && Next(s, x).w == s.w
  {
    match x {
      case ScanStep => ScanKeepsInv(s);
      case Clear(c) => GoneAppend(s.gone, Cleared(s.queues[s.w]));
      case _ =>
    }
  }

  predicate Run(s: State, steps: seq<Step>)
    requires Shape(s)
    decreases |steps|
  {
    steps == [] || (Enabled(s, steps[0]) && Run(Next(s, steps[0]), steps[1..]))
  }

  function After(s: State, steps: seq<Step>): (s': State)
    requires Shape(s) && Run(s, steps)
    ensures Shape(s')
    decreases |steps|
  {
    if steps == [] then s else After(Next(s, steps[0]), steps[1..])
  }

  lemma {:induction false} RunKeepsInv(s: State, steps: seq<Step>)
    requires Inv(s) && Run(s, steps)
    ensures Inv(After(s, steps))
    decreases |steps|
  {
    if steps != [] {
      StepKeepsInv(s, steps[0]);
      RunKeepsInv(Next(s, steps[0]), steps[1..]);
    }
  }

  // ----- main results

  /** Clearing drops all that a client still waits for, and nobody else's requests. */
  lemma ClearDropsAll(s: State, c: nat)
    requires Inv(s) && Enabled(s, Clear(c))
    ensures var s' := Next(s, Clear(c));
            s'.queues == s.queues[c := []] && GoneRequests(s'.gone) == GoneRequests(s.gone) + (if c == s.w then s.queues[c] else [])
  {
    assert (s.gone + [Cleared(s.queues[c])])[..|s.gone|] == s.gone;
  }

  /** In every reachable state: when the reader thread blocks, all queues are
      empty; and a client's requests have been served in their order, once each,
      except those cleared, the rest being queued in order. */
  lemma ServiceIsFaithful(start: State, steps: seq<Step>)
    requires Init(start) && Run(start, steps)
    ensures var s := After(start, steps);
            && (s.phase == Waiting(false) ==> forall c :: 0 <= c < |s.queues| ==> s.queues[c] == [])
            && s.added == GoneRequests(s.gone) + s.queues[s.w]
  {
    RunKeepsInv(start, steps);
  }

  /** Services during a run. */
  function Services(s: State, steps: seq<Step>): nat
    requires Shape(s) && Run(s, steps)
    decreases |steps|
  {
    if steps == [] then 0
    else
      var s' := Next(s, steps[0]);
      (if steps[0] == ScanStep && s'.phase == Serving then 1 else 0) + Services(s', steps[1..])
  }

  /** The client `w` is neither served nor cleared during the run. */
  predicate LeftWaiting(s: State, steps: seq<Step>)
    requires Shape(s) && Run(s, steps)
    decreases |steps|
  {
    steps == [] || (Next(s, steps[0]).gone == s.gone && LeftWaiting(Next(s, steps[0]), steps[1..]))
  }

  /** A client with a request queued waits for at most the services of the queues
      between the reader and its own, so for fewer than there are clients. */
  lemma {:induction false} ServedSoon(s: State, steps: seq<Step>)
    requires Inv(s) && Run(s, steps) && LeftWaiting(s, steps) && s.queues[s.w] != []
    ensures Services(s, steps) <= Distance(s.cursor, s.w, |s.queues|) < |s.queues|
    decreases |steps|
  {
    if steps != [] {
      var x := steps[0];
      StepKeepsInv(s, x);
      var s' := Next(s, x);
      if x == ScanStep {
        SearchIsNearest(s.queues, s.cursor, |s.queues|);
        assert s'.phase == Serving;
        assert s'.cursor == s.w ==> |s'.gone| == |s.gone| + 1;
        assert Distance(s'.cursor, s.w, |s.queues|) < Distance(s.cursor, s.w, |s.queues|);
      }
      ServedSoon(s', steps[1..]);
    }
  }

  /** And with a request queued anywhere, the reader can always go on, and its
      next scan is a service. */
  lemma RequestKeepsReaderGoing(s: State, c: nat)
    requires Inv(s) && c < |s.queues| && s.queues[c] != []
    ensures Enabled(s, Begin) || Enabled(s, ScanStep) || Enabled(s, ServiceDone) || Enabled(s, Wake(false))
    ensures Enabled(s, ScanStep) ==> Next(s, ScanStep).phase == Serving
  {
    SearchIsNearest(s.queues, s.cursor, |s.queues|);
  }
}
