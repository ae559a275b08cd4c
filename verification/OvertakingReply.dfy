/** What happens without the protocol's proviso. */
module OvertakingReply {
  import opened Playlist
  import opened Replication

  // A list reply that overtakes events still waiting in the packet queue.

  /** Does an event that the reply has overtaken leave the list alone? */
  predicate Harmless(list: seq<Path>, e: Event) {
    match e
    case New => true
    case Add(paths, _) => paths == []
    case Del(i, n) => !InList(i, n, |list|)
    case MoveItem(i, j) => Moved(list, i, j) == list
    case Rm(files) => forall p :: p in list ==> p !in files
    case Mod(change) => forall p :: p in list && p in change ==> change[p] == p
    case Other => true
  }

  lemma KeptShorter(s: seq<Path>, files: set<Path>)
    ensures Kept(s, files) == s <==> forall p :: p in s ==> p !in files
  {
    if forall p :: p in s ==> p !in files { KeptAll(s, files); }
  }

  lemma RenamedSame(s: seq<Path>, change: map<Path, Path>)
    ensures Renamed(s, change) == s <==> forall p :: p in s && p in change ==> change[p] == p
  {
    if Renamed(s, change) == s {
      forall p | p in s && p in change
        ensures change[p] == p
      {
        var k :| 0 <= k < |s| && s[k] == p;
        assert Renamed(s, change)[k] == NewPath(s[k], change);
      }
    }
  }

  /** What one event, and what the events of a queue one after the other, make of a
      list that they reach a second time. */
  function AppliedOne(list: seq<Path>, e: Event): seq<Path> {
    match e
    case Add(paths, idx) => Inserted(list, paths, idx)
    case Del(i, n) => Removed(list, i, n)
    case MoveItem(i, j) => Moved(list, i, j)
    case Rm(files) => Kept(list, files)
    case Mod(change) => Renamed(list, change)
    case _ => list
  }

  function Applied(list: seq<Path>, es: seq<Event>): seq<Path> {
    if es == [] then list else AppliedOne(Applied(list, es[..|es| - 1]), es[|es| - 1])
  }

  lemma EventOnCurrentList(list: seq<Path>, e: Event)
    ensures AppliedOne(list, e) == list <==> Harmless(list, e)
  {
    match e {
      case Rm(files) => KeptShorter(list, files);
      case Mod(change) => RenamedSame(list, change);
      case Del(i, n) => if InList(i, n, |list|) { assert |Removed(list, i, n)| < |list|; }
      case Add(paths, idx) => assert |Inserted(list, paths, idx)| == |list| + |paths|;
      case _ =>
    }
  }

  /** A synced client that handles the events of a queue: a refetch is wanted in the
      end exactly if it was or one of them is New, and if none is, the list has
      been through all of them. */
  lemma {:induction false} QueueOnView(v: View, es: seq<Event>)
    requires v.synced && v.mode != Fatal
    ensures var w := Replay(v, Wrap(es));
            && w.synced && w.mode == v.mode && (w.want <==> v.want || New in es)
            && (!w.want ==> w.list == Applied(v.list, es))
  {
    if es != [] {
      var n := |es| - 1;
      assert Wrap(es)[..n] == Wrap(es[..n]);
      assert es == es[..n] + [es[n]];
      QueueOnView(v, es[..n]);
    }
  }

  /** An unsynced client that waits for its first list ignores whether a refetch is
      wanted. */
  lemma {:induction false} UnsyncedKeepsWish(v: View, es: seq<Event>)
    ensures !v.synced && v.mode != Fatal ==> Replay(v, Wrap(es)).want == v.want
  {
    if es != [] && !v.synced && v.mode != Fatal {
      var n := |es| - 1;
      assert Wrap(es)[..n] == Wrap(es[..n]);
      UnsyncedKeepsWish(v, es[..n]);
      EventsKeepMode(v, es[..n]);
    }
  }

  /** How a reply with the list that overtakes the queue works out: the queue is
      handled by a client that has that list. */
  lemma ReplyThenQueue(list: seq<Path>, c: Peer)
    ensures Settled(c.(wire := c.wire + [ListData(list)]))
         == Replay(Deliver(Replay(c.view, c.wire), ListData(list)), Wrap(c.queue))
  {
    ReplayConcat(c.view, c.wire, [ListData(list)]);
    ReplayFront(Replay(c.view, c.wire), ListData(list), []);
    assert [ListData(list)] + [] == [ListData(list)];
    ReplayConcat(c.view, c.wire + [ListData(list)], Wrap(c.queue));
  }

  /** A client that waits for the list, and whether it wants a refetch besides: one
      that fetches its first list can, one that refetches no longer does. */
  lemma WaitsForList(list: seq<Path>, c: Peer)
    requires PeerInv(list, c) && c.open && c.up != [] && c.up[0] == GetList
    ensures var w := Replay(c.view, c.wire);
            && |c.up| == 1 && w.mode == Settled(c).mode && (w.mode == AwaitRefetch || w.mode == AwaitFetch)
            && (w.mode == AwaitRefetch ==> w.synced)
            && (w.mode == AwaitFetch ==> !w.synced && w.want == Settled(c).want)
  {
    var w := Replay(c.view, c.wire);
    ReplayConcat(c.view, c.wire, Wrap(c.queue));
    EventsKeepMode(w, c.queue);
    if |c.up| > 1 {
      FirstIsInFront(c.up);
    }
    if w.mode == AwaitFetch {
      UnsyncedKeepsWish(w, c.queue);
    }
  }

  /** The list is sent while any number of events, all of them already part of it,
      wait in the packet queue.  The client ends up right, or wanting a refetch,
      exactly if one of them makes it want one, or it wants one already while it
      fetches its first list, or together they do nothing to that list. */
  lemma OvertakenEvents(list: seq<Path>, c: Peer)
    requires PeerInv(list, c) && c.open && c.up != [] && c.up[0] == GetList
    ensures var v := Settled(c.(up := c.up[1..], wire := c.wire + Reply(list, GetList)));
            && v.synced
            && (v.want || v.list == list <==>
                  || New in c.queue
                  || (Settled(c).mode == AwaitFetch && Settled(c).want)
                  || Applied(list, c.queue) == list)
  {
    var w := Replay(c.view, c.wire);
    WaitsForList(list, c);
    SettledIgnoresUp(c.(wire := c.wire + [ListData(list)]), c.up[1..]);
    ReplyThenQueue(list, c);
    QueueOnView(Deliver(w, ListData(list)), c.queue);
  }

  /** With one event in the queue, and no wish for a refetch already: exactly if it
      is harmless. */
  lemma OvertakenEvent(list: seq<Path>, c: Peer, e: Event)
    requires PeerInv(list, c) && c.open && c.queue == [e] && c.up != [] && c.up[0] == GetList
    requires Settled(c).mode == AwaitFetch ==> !Settled(c).want
    ensures var v := Settled(c.(up := c.up[1..], wire := c.wire + Reply(list, GetList)));
            v.synced && (v.want || v.list == list <==> Harmless(list, e))
  {
    OvertakenEvents(list, c);
    EventOnCurrentList(list, e);
    assert Applied(list, [e]) == AppliedOne(Applied(list, []), e) by {
      assert [e][..0] == [];
    }
  }

  /** Queued additions, for one, always go wrong, unless they are empty: each of
      them doubles what it added. */
  lemma {:induction false} QueuedAdditions(list: seq<Path>, es: seq<Event>)
    requires forall e <- es :: e.Add?
    ensures |Applied(list, es)| >= |list|
    ensures Applied(list, es) == list <==> forall e <- es :: e.paths == []
  {
    if es != [] {
      var n := |es| - 1;
      var front, last := es[..n], es[n];
      assert es == front + [last];
      QueuedAdditions(list, front);
      assert |Inserted(Applied(list, front), last.paths, last.idx)| == |Applied(list, front)| + |last.paths|;
      EventOnCurrentList(Applied(list, front), last);
    }
  }

  const FRESH := Peer(true, View([], false, false, Idle), [], [], [])
  const CLOSED := FRESH.(open := false)
  const SYNCED := FRESH.(view := View([], true, false, Idle))

  /** Two clients connect; one fetches the empty list, adds an item, and while
      that command is on its way the other one asks for the list. */
  const FIRST_HALF := [Connect(0, []), Connect(1, []), ClientActs(0, KeyClear), Handle(0, NOTHING_DONE), Receive(0),
                      ClientActs(0, KeyAdd(["/a"], -1)), ClientActs(1, KeyClear)]

  const MIDWAY := System([], [SYNCED.(up := [AddItems(["/a"], -1)]),
                              FRESH.(view := View([], false, false, AwaitFetch), up := [GetList])])

  lemma OneElement<T>(x: T)
    ensures [] + [x] == [x] && [x] + [] == [x] && [x][1..] == [] && [x][0] == x
  {
  }

  const ASKING := FRESH.(view := View([], false, false, AwaitFetch))
  const ADDING := SYNCED.(up := [AddItems(["/a"], -1)])

  const FIRST_STATES := [System([], [CLOSED, CLOSED]), System([], [FRESH, CLOSED]), System([], [FRESH, FRESH]),
                        System([], [ASKING.(up := [GetList]), FRESH]),
                        System([], [ASKING.(wire := [ListData([])]), FRESH]),
                        System([], [SYNCED, FRESH]), System([], [ADDING, FRESH]), MIDWAY]

  lemma FetchAnswered()
    ensures Next(FIRST_STATES[3], Handle(0, NOTHING_DONE)) == FIRST_STATES[4]
  {
    var s' := Next(FIRST_STATES[3], Handle(0, NOTHING_DONE));
    OneElement(GetList);
    OneElement(ListData([]));
    assert |s'.peers[0].queue| == |s'.peers[1].queue| == 0;
    assert s'.peers == [ASKING.(wire := [ListData([])]), FRESH];
  }

  lemma BothConnect()
    ensures Next(FIRST_STATES[0], FIRST_HALF[0]) == FIRST_STATES[1]
    ensures Next(FIRST_STATES[1], FIRST_HALF[1]) == FIRST_STATES[2]
    ensures Next(FIRST_STATES[2], FIRST_HALF[2]) == FIRST_STATES[3]
  {
    OneElement(GetList);
  }

  lemma FirstAdds()
    ensures Next(FIRST_STATES[4], FIRST_HALF[4]) == FIRST_STATES[5]
    ensures Next(FIRST_STATES[5], FIRST_HALF[5]) == FIRST_STATES[6]
  {
    OneElement(ListData([]));
    OneElement(AddItems(["/a"], -1));
  }

  lemma SecondAsks()
    ensures Next(FIRST_STATES[6], FIRST_HALF[6]) == FIRST_STATES[7]
  {
    OneElement(GetList);
  }

  lemma FirstHalfEnabled()
    ensures forall k :: 0 <= k < 7 ==> Enabled(FIRST_STATES[k], FIRST_HALF[k])
  {
  }

  lemma FirstHalfRuns()
    ensures Run(System([], [CLOSED, CLOSED]), FIRST_HALF) && After(System([], [CLOSED, CLOSED]), FIRST_HALF) == MIDWAY
  {
    BothConnect();
    FetchAnswered();
    FirstAdds();
    SecondAsks();
    FirstHalfEnabled();
    RunBack(FIRST_STATES, FIRST_HALF);
  }

  /** The addition is executed, then the request; the reply goes out first. */
  const SECOND_HALF := [Handle(0, NOTHING_DONE), Handle(1, NOTHING_DONE), Receive(1), SendPacket(1), Receive(1)]

  const ADDED := Add(["/a"], -1)
  const ADDER := SYNCED.(queue := [ADDED])
  const GOT := FRESH.(view := View(["/a"], true, false, Idle))
  const DOUBLED := FRESH.(view := View(["/a", "/a"], true, false, Idle))

  const SECOND_STATES := [MIDWAY, System(["/a"], [ADDER, ASKING.(up := [GetList], queue := [ADDED])]),
                         System(["/a"], [ADDER, ASKING.(queue := [ADDED], wire := [ListData(["/a"])])]),
                         System(["/a"], [ADDER, GOT.(queue := [ADDED])]),
                         System(["/a"], [ADDER, GOT.(wire := [Ev(ADDED)])]),
                         System(["/a"], [ADDER, DOUBLED])]

  lemma AdditionExecuted()
    ensures Next(MIDWAY, SECOND_HALF[0]) == SECOND_STATES[1]
  {
    OneElement(AddItems(["/a"], -1));
    OneElement(ADDED);
    OneElement("/a");
    var s, s' := SECOND_STATES[1], Next(MIDWAY, SECOND_HALF[0]);
    assert |s'.peers[0].wire| == |s'.peers[0].up| == 0;
    assert s'.peers[0] == s.peers[0] && s'.peers[1] == s.peers[1];
    assert s'.list == s.list && s'.peers == s.peers;
  }

  lemma RequestExecuted()
    ensures Next(SECOND_STATES[1], SECOND_HALF[1]) == SECOND_STATES[2]
  {
    OneElement(GetList);
    OneElement(ListData(["/a"]));
    OneElement(ADDED);
    assert Next(SECOND_STATES[1], SECOND_HALF[1]).peers == SECOND_STATES[2].peers;
  }

  lemma ReplyThenEvent()
    ensures Next(SECOND_STATES[2], SECOND_HALF[2]) == SECOND_STATES[3]
    ensures Next(SECOND_STATES[3], SECOND_HALF[3]) == SECOND_STATES[4]
  {
    OneElement(ListData(["/a"]));
    OneElement(ADDED);
    OneElement(Ev(ADDED));
  }

  lemma ItemDoubled()
    ensures Next(SECOND_STATES[4], SECOND_HALF[4]) == SECOND_STATES[5]
  {
    OneElement(Ev(ADDED));
    assert ["/a"] + ["/a"] == ["/a", "/a"];
  }

  lemma SecondHalfEnabled()
    ensures forall k :: 0 <= k < 5 ==> Enabled(SECOND_STATES[k], SECOND_HALF[k])
  {
  }

  lemma SecondHalfRuns()
    ensures Run(MIDWAY, SECOND_HALF)
    ensures var s := After(MIDWAY, SECOND_HALF);
            s.list == ["/a"] && |s.peers| == 2 && s.peers[1] == DOUBLED
  {
    AdditionExecuted();
    RequestExecuted();
    ReplyThenEvent();
    ItemDoubled();
    SecondHalfEnabled();
    RunBack(SECOND_STATES, SECOND_HALF);
  }

  /** A complete run in which a client ends up with a doubled item: another
      client's addition is executed between its request for the list and the
      moment its packets are written. */
  lemma ProvisoIsNeeded(start: System, steps: seq<Step>)
    requires start == System([], [CLOSED, CLOSED]) && steps == FIRST_HALF + SECOND_HALF
    ensures Init(start) && Run(start, steps) && |After(start, steps).peers| == 2
    ensures var c := After(start, steps).peers[1];
            && c.open && Drained(c) && c.up == [] && c.view.mode == Idle && c.view.synced && !c.view.want
            && c.view.list == ["/a", "/a"] && After(start, steps).list == ["/a"]
  {
    FirstHalfRuns();
    SecondHalfRuns();
    RunConcat(start, FIRST_HALF, SECOND_HALF);
  }

  /** A list of states, each the successor of the one before, is a run. */
  lemma {:induction false} RunBack(states: seq<System>, steps: seq<Step>)
    requires |states| == |steps| + 1
    requires forall k :: 0 <= k < |steps| ==> Enabled(states[k], steps[k]) && states[k + 1] == Next(states[k], steps[k])
    ensures Run(states[0], steps) && After(states[0], steps) == states[|steps|]
    decreases |steps|
  {
    if steps != [] { RunBack(states[1..], steps[1..]); }
  }
}
