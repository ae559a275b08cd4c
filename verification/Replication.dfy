/** Replication of the server's playlist to its clients. */
module Replication {
  import opened Playlist

  // A state machine over every interleaving of server, clients and channels.  The server
  // edits its list, appends an event to the packet queue of every connected client
  // (server/server.cc), and moves packets to the socket when it can be written.  Replies
  // to requests bypass the packet queue.  A client applies events to its copy, except
  // while a refetch is wanted or the list is its own (client/client.cc).

  /** Packets.  `Other` stands for the events that do not concern the list. */
  datatype Event =
    | New
    | Add(paths: seq<Path>, idx: int)
    | Del(i: int, n: int)
    | MoveItem(i: int, j: int)
    | Rm(files: set<Path>)
    | Mod(change: map<Path, Path>)
    | Other

  /** What a client finds in its socket: an event, or EV_DATA and a payload. */
  datatype Message =
    | Ev(e: Event)
    | ListData(paths: seq<Path>)
    | OtherData

  /** Commands.  `Play` with an empty list is the form that sends "" instead. */
  datatype Command =
    | Play(idx: int, list: seq<Path>)
    | AddItems(paths: seq<Path>, idx: int)
    | DelItems(i: int, n: int)
    | MoveItems(i: int, j: int)
    | RemoveFiles(files: set<Path>)
    | MoveFiles(files: set<Path>)
    | GetList
    | GetOther
    | NoListCommand

  /** What a client is doing: running its loop, or blocked in wait_for_data for
      the reply named.  `Fatal` is the end in interface_fatal, or a reply taken
      for another one. */
  datatype Mode = Idle | AwaitRefetch | AwaitFetch | AwaitOther | Fatal

  datatype View = View(list: seq<Path>, synced: bool, want: bool, mode: Mode)

  datatype Peer = Peer(open: bool, view: View, up: seq<Command>, queue: seq<Event>, wire: seq<Message>)

  datatype System = System(list: seq<Path>, peers: seq<Peer>)

  // ----- the client

  function HandleEvent(v: View, e: Event): View {
    match e
    case New => if v.synced then v.(want := true) else v
    case Add(paths, idx) => if !v.synced || v.want then v else v.(list := Inserted(v.list, paths, idx))
    case Del(i, n) => if !v.synced || v.want then v else v.(list := Removed(v.list, i, n))
    case MoveItem(i, j) => if !v.synced || v.want then v else v.(list := Moved(v.list, i, j))
    case Rm(files) => v.(list := Kept(v.list, files))
    case Mod(change) => v.(list := Renamed(v.list, change))
    case Other => v
  }

  function Deliver(v: View, m: Message): View {
    if v.mode == Fatal then v
    else match m
      case Ev(e) => HandleEvent(v, e)
      case ListData(paths) =>
        (match v.mode
         case AwaitRefetch => v.(want := false, list := paths, mode := Idle)
         case AwaitFetch => v.(list := paths, synced := true, mode := Idle)
         case _ => v.(mode := Fatal))
      case OtherData =>
        if v.mode == AwaitOther then v.(mode := Idle) else v.(mode := Fatal)
  }

  /** Things a client does from its loop, on its own or for a key. */
  datatype Act =
    | KeyGo(idx: int)
    | KeyClear
    | KeyDesync
    | LoadFile(paths: seq<Path>)
    | KeyAdd(paths: seq<Path>, idx: int)
    | KeyDel(i: int, n: int)
    | KeyMove(i: int, j: int)
    | KeyRemoveFiles(files: set<Path>)
    | KeyMoveFiles(files: set<Path>)
    | IdlePass
    | Ask
    | OtherKey

  /** The guard under which the code gets to the action: it needs an item under
      the cursor to play it. */
  predicate ActEnabled(v: View, a: Act) {
    v.mode == Idle && (a.KeyGo? ==> 0 <= a.idx < |v.list|)
  }

  function ActView(v: View, a: Act): View {
    match a
    case KeyGo(_) => v.(synced := true)
    case KeyClear =>
      if v.synced then v.(list := [], synced := false)
      else if v.list != [] then v.(list := [])
      else v.(mode := AwaitFetch)
    case KeyDesync => v.(synced := false)
    case LoadFile(paths) => v.(list := paths, synced := false)
    case KeyAdd(paths, idx) => if v.synced then v else v.(list := Inserted(v.list, paths, idx))
    case KeyDel(i, n) => if v.synced then v else v.(list := Removed(v.list, i, n))
    case KeyMove(i, j) => if v.synced then v else v.(list := Moved(v.list, i, j))
    case KeyRemoveFiles(_) => v
    case KeyMoveFiles(_) => v
    case IdlePass => if v.want && v.synced then v.(mode := AwaitRefetch) else v.(want := false)
    case Ask => v.(mode := AwaitOther)
    case OtherKey => v
  }

  function ActCommands(v: View, a: Act): seq<Command> {
    match a
    case KeyGo(idx) => [Play(idx, if v.synced then [] else v.list)]
    case KeyClear => if v.synced || v.list != [] then [] else [GetList]
    case KeyDesync => []
    case LoadFile(_) => []
    case KeyAdd(paths, idx) => if v.synced then [AddItems(paths, idx)] else []
    case KeyDel(i, n) => if v.synced then [DelItems(i, n)] else []
    case KeyMove(i, j) => if v.synced then [MoveItems(i, j)] else []
    case KeyRemoveFiles(files) => [RemoveFiles(files)]
    case KeyMoveFiles(files) => [MoveFiles(files)]
    case IdlePass => if v.want && v.synced then [GetList] else []
    case Ask => [GetOther]
    case OtherKey => [NoListCommand]
  }

  // ----- the server

  /** What the file system made of a command: the files really removed, or the
      files really moved and where they are now. */
  datatype Outcome = Outcome(removed: set<Path>, moved: map<Path, Path>)

  predicate OutcomeFits(c: Command, o: Outcome) {
    (c.RemoveFiles? ==> o.removed <= c.files) && (c.MoveFiles? ==> o.moved.Keys <= c.files)
  }

  predicate ListPlay(c: Command) {
    c.Play? && c.list != []
  }

  function ServerList(list: seq<Path>, c: Command, o: Outcome): seq<Path> {
    match c
    case Play(idx, l) => if 0 <= idx < |l| then l else list
    case AddItems(paths, idx) => Inserted(list, paths, idx)
    case DelItems(i, n) => Removed(list, i, n)
    case MoveItems(i, j) => Moved(list, i, j)
    case RemoveFiles(_) => Kept(list, o.removed)
    case MoveFiles(_) => Renamed(list, o.moved)
    case _ => list
  }

  /** The events broadcast for a command, none or one. */
  function Broadcast(c: Command, o: Outcome): seq<Event> {
    match c
    case Play(idx, l) => if 0 <= idx < |l| then [New] else []
    case AddItems(paths, idx) => [Add(paths, idx)]
    case DelItems(i, n) => [Del(i, n)]
    case MoveItems(i, j) => [MoveItem(i, j)]
    case RemoveFiles(_) => if o.removed == {} then [] else [Rm(o.removed)]
    case MoveFiles(_) => if o.moved == map[] then [] else [Mod(o.moved)]
    case _ => []
  }

  function Reply(list: seq<Path>, c: Command): seq<Message> {
    match c
    case GetList => [ListData(list)]
    case GetOther => [OtherData]
    case _ => []
  }

  // ----- the system

  datatype Step =
    | Handle(p: nat, outcome: Outcome)   // server executes the client's next command
    | SendPacket(p: nat)                 // next packet goes to the socket
    | Notify(p: nat)                     // an unrelated event is queued
    | Receive(p: nat)                    // client takes the next message
    | ClientActs(p: nat, act: Act)
    | Connect(p: nat, local: seq<Path>)
    | Disconnect(p: nat)

  predicate Enabled(s: System, t: Step) {
    t.p < |s.peers| &&
    var c := s.peers[t.p];
    match t
    case Handle(_, o) => c.open && c.up != [] && OutcomeFits(c.up[0], o)
    case SendPacket(_) => c.open && c.queue != []
    case Notify(_) => c.open
    case Receive(_) => c.open && c.wire != []
    case ClientActs(_, a) => c.open && ActEnabled(c.view, a)
    case Connect(_, _) => !c.open
    case Disconnect(_) => c.open
  }

  function Enqueue(c: Peer, es: seq<Event>): Peer {
    if c.open then c.(queue := c.queue + es) else c
  }

  function Next(s: System, t: Step): System
    requires Enabled(s, t)
  {
    var c := s.peers[t.p];
    match t
    case Handle(_, o) =>
      var cmd := c.up[0];
      var c' := c.(up := c.up[1..], wire := c.wire + Reply(s.list, cmd));
      var es := Broadcast(cmd, o);
      System(ServerList(s.list, cmd, o),
             seq(|s.peers|, k requires 0 <= k < |s.peers| => Enqueue(if k == t.p then c' else s.peers[k], es)))
    case SendPacket(_) => s.(peers := s.peers[t.p := c.(queue := c.queue[1..], wire := c.wire + [Ev(c.queue[0])])])
    case Notify(_) => s.(peers := s.peers[t.p := c.(queue := c.queue + [Other])])
    case Receive(_) => s.(peers := s.peers[t.p := c.(view := Deliver(c.view, c.wire[0]), wire := c.wire[1..])])
    case ClientActs(_, a) =>
      s.(peers := s.peers[t.p := c.(view := ActView(c.view, a), up := c.up + ActCommands(c.view, a))])
    case Connect(_, local) =>
      s.(peers := s.peers[t.p := Peer(true, View(local, false, false, Idle), [], [], [])])
    case Disconnect(_) => s.(peers := s.peers[t.p := c.(open := false)])
  }

  /** The protocol's proviso: the list is sent only when no event about the list
      waits in that client's packet queue. */
  predicate Quiet(s: System, t: Step)
    requires Enabled(s, t)
  {
    t.Handle? && s.peers[t.p].up[0] == GetList ==> forall e :: e in s.peers[t.p].queue ==> e == Other
  }

  predicate Run(s: System, steps: seq<Step>)
    decreases |steps|
  {
    steps == [] || (Enabled(s, steps[0]) && Run(Next(s, steps[0]), steps[1..]))
  }

  predicate QuietRun(s: System, steps: seq<Step>)
    decreases |steps|
  {
    steps == [] || (Enabled(s, steps[0]) && Quiet(s, steps[0]) && QuietRun(Next(s, steps[0]), steps[1..]))
  }

  function After(s: System, steps: seq<Step>): System
    requires Run(s, steps)
    decreases |steps|
  {
    if steps == [] then s else After(Next(s, steps[0]), steps[1..])
  }

  predicate Init(s: System) {
    forall k :: 0 <= k < |s.peers| ==> !s.peers[k].open
  }

  // ----- replaying what is in flight

  function Wrap(es: seq<Event>): (ms: seq<Message>)
    ensures |ms| == |es| && forall k :: 0 <= k < |es| ==> ms[k] == Ev(es[k])
  {
    seq(|es|, k requires 0 <= k < |es| => Ev(es[k]))
  }

  /** The wire first, then the queue. */
  function InFlight(c: Peer): seq<Message> {
    c.wire + Wrap(c.queue)
  }

  function Replay(v: View, ms: seq<Message>): View {
    if ms == [] then v else Deliver(Replay(v, ms[..|ms| - 1]), ms[|ms| - 1])
  }

  /** The client's view once everything in flight has arrived. */
  function Settled(c: Peer): View {
    Replay(c.view, InFlight(c))
  }

  lemma {:induction false} ReplayFront(v: View, m: Message, ms: seq<Message>)
    ensures Replay(v, [m] + ms) == Replay(Deliver(v, m), ms)
  {
    var all := [m] + ms;
    if ms == [] {
      assert all[..|all| - 1] == [];
    } else {
      assert all[..|all| - 1] == [m] + ms[..|ms| - 1];
      ReplayFront(v, m, ms[..|ms| - 1]);
    }
  }

  lemma {:induction false} ReplayConcat(v: View, a: seq<Message>, b: seq<Message>)
    ensures Replay(v, a + b) == Replay(Replay(v, a), b)
  {
    if b == [] {
      assert a + b == a;
    } else {
      var n := |b| - 1;
      assert (a + b)[..|a + b| - 1] == a + b[..n];
      ReplayConcat(v, a, b[..n]);
    }
  }

  /** Events change neither the mode nor whether the list is synced. */
  lemma {:induction false} EventsKeepMode(v: View, es: seq<Event>)
    ensures var w := Replay(v, Wrap(es)); w.mode == v.mode && w.synced == v.synced
  {
    if es != [] {
      var n := |es| - 1;
      assert Wrap(es)[..n] == Wrap(es[..n]);
      EventsKeepMode(v, es[..n]);
    }
  }

  lemma {:induction false} OthersChangeNothing(v: View, es: seq<Event>)
    ensures (forall e :: e in es ==> e == Other) ==> Replay(v, Wrap(es)) == v
  {
    if es != [] && forall e :: e in es ==> e == Other {
      var n := |es| - 1;
      assert Wrap(es)[..n] == Wrap(es[..n]);
      assert forall e :: e in es[..n] ==> e in es;
      assert es[n] in es;
      OthersChangeNothing(v, es[..n]);
    }
  }

  /** A reply that carries no list commutes with the events it overtakes. */
  lemma {:induction false} OtherDataOvertakes(v: View, es: seq<Event>)
    ensures v.mode == AwaitOther ==> Replay(Deliver(v, OtherData), Wrap(es)) == Deliver(Replay(v, Wrap(es)), OtherData)
  {
    if es != [] && v.mode == AwaitOther {
      var n := |es| - 1;
      assert Wrap(es)[..n] == Wrap(es[..n]);
      OtherDataOvertakes(v, es[..n]);
      EventsKeepMode(v, es[..n]);
      OneOvertaken(Replay(v, Wrap(es[..n])), es[n]);
    }
  }

  lemma OneOvertaken(v: View, e: Event)
    ensures v.mode == AwaitOther ==> Deliver(Deliver(v, OtherData), Ev(e)) == Deliver(Deliver(v, Ev(e)), OtherData)
  {
  }

  // ----- the invariant

  predicate IsGet(c: Command) {
    c == GetList || c == GetOther
  }

  predicate NoGets(up: seq<Command>) {
    forall k :: 0 <= k < |up| ==> !IsGet(up[k])
  }

  /** Requests and replies match: a client whose reply is neither here nor in
      flight has exactly that request last in its command channel. */
  predicate Matched(mode: Mode, up: seq<Command>) {
    match mode
    case Idle => NoGets(up)
    case AwaitOther => up != [] && up[|up| - 1] == GetOther && NoGets(up[..|up| - 1])
    case Fatal => false
    case _ => up != [] && up[|up| - 1] == GetList && NoGets(up[..|up| - 1])
  }

  predicate NoListPlay(up: seq<Command>) {
    forall k :: 0 <= k < |up| ==> !ListPlay(up[k])
  }

  predicate PlaysInRange(up: seq<Command>) {
    forall k :: 0 <= k < |up| && ListPlay(up[k]) ==> 0 <= up[k].idx < |up[k].list|
  }

  /** A view in which everything has arrived is the server's list, unless it is
      not synced, or a refetch is wanted, or the client's own list is still on its
      way to replace the server's. */
  predicate ViewInv(list: seq<Path>, v: View, up: seq<Command>) {
    && Matched(v.mode, up)
    && PlaysInRange(up)
    && (v.mode == AwaitRefetch ==> v.synced && v.want)
    && (v.mode == AwaitFetch ==> !v.synced)
    && (v.synced && !v.want && NoListPlay(up) ==> v.list == list)
  }

  /** Replaying the wire and then the queue brings a client there. */
  predicate PeerInv(list: seq<Path>, c: Peer) {
    c.open ==> ViewInv(list, Settled(c), c.up)
  }

  predicate Inv(s: System) {
    forall k :: 0 <= k < |s.peers| ==> PeerInv(s.list, s.peers[k])
  }

  lemma SettledAppend(c: Peer, e: Event)
    ensures Settled(c.(queue := c.queue + [e])) == Deliver(Settled(c), Ev(e))
  {
    var c' := c.(queue := c.queue + [e]);
    assert InFlight(c') == InFlight(c) + [Ev(e)];
    ReplayConcat(c.view, InFlight(c), [Ev(e)]);
    assert Replay(Settled(c), [Ev(e)]) == Deliver(Replay(Settled(c), []), Ev(e));
  }

  /** Every command has the same effect on the server's list and, through its
      event, on a synced client's copy. */
  lemma BroadcastKeepsView(list: seq<Path>, v: View, up: seq<Command>, cmd: Command, o: Outcome)
    requires ViewInv(list, v, up) && Broadcast(cmd, o) != []
    ensures ViewInv(ServerList(list, cmd, o), Deliver(v, Ev(Broadcast(cmd, o)[0])), up)
  {
  }

  lemma BroadcastKeepsPeer(list: seq<Path>, c: Peer, cmd: Command, o: Outcome)
    requires PeerInv(list, c)
    ensures PeerInv(ServerList(list, cmd, o), Enqueue(c, Broadcast(cmd, o)))
  {
    var es := Broadcast(cmd, o);
    if es == [] {
      assert c.queue + es == c.queue;
      assert c.(queue := c.queue + es) == c;
      NothingRemoved(list, cmd, o);
    } else if c.open {
      assert es == [es[0]];
      SettledAppend(c, es[0]);
      BroadcastKeepsView(list, Settled(c), c.up, cmd, o);
    }
  }

  lemma NothingRemoved(list: seq<Path>, cmd: Command, o: Outcome)
    ensures Broadcast(cmd, o) == [] ==> ServerList(list, cmd, o) == list
  {
    if cmd.RemoveFiles? { KeptAll(list, o.removed); }
  }

  /** A reply that overtakes the queue has the same effect as if it came last:
      one with the list if no list event is queued, any other one always. */
  lemma ReplySettles(c: Peer, m: Message)
    requires !m.Ev? && (m.ListData? ==> forall e :: e in c.queue ==> e == Other)
    requires m.OtherData? ==> Settled(c).mode == AwaitOther
    ensures Settled(c.(wire := c.wire + [m])) == Deliver(Settled(c), m)
  {
    var w := Replay(c.view, c.wire);
    ReplayConcat(c.view, c.wire, Wrap(c.queue));
    EventsKeepMode(w, c.queue);
    ReplayConcat(c.view, c.wire, [m]);
    assert Replay(w, [m]) == Deliver(Replay(w, []), m);
    ReplayConcat(c.view, c.wire + [m], Wrap(c.queue));
    if m.ListData? {
      OthersChangeNothing(w, c.queue);
      OthersChangeNothing(Deliver(w, m), c.queue);
    } else {
      OtherDataOvertakes(w, c.queue);
    }
  }

  lemma FirstIsInFront(up: seq<Command>)
    ensures |up| > 1 && NoGets(up[..|up| - 1]) ==> !IsGet(up[0])
  {
    if |up| > 1 && NoGets(up[..|up| - 1]) {
      assert up[..|up| - 1][0] == up[0];
    }
  }

  lemma ReplyKeepsView(list: seq<Path>, v: View, up: seq<Command>)
    requires ViewInv(list, v, up) && up != [] && IsGet(up[0])
    ensures up[0] == GetOther ==> v.mode == AwaitOther
    ensures ViewInv(list, Deliver(v, Reply(list, up[0])[0]), up[1..])
  {
    if |up| > 1 {
      FirstIsInFront(up);
    }
  }

  /** A reply takes its request out of the channel; with no list event queued
      the client ends up with the list as the server sent it. */
  lemma ReplyKeepsPeer(list: seq<Path>, c: Peer)
    requires PeerInv(list, c) && c.open && c.up != [] && IsGet(c.up[0])
    requires c.up[0] == GetList ==> forall e :: e in c.queue ==> e == Other
    ensures PeerInv(list, c.(up := c.up[1..], wire := c.wire + Reply(list, c.up[0])))
  {
    var m := Reply(list, c.up[0])[0];
    ReplyKeepsView(list, Settled(c), c.up);
    ReplySettles(c, m);
    SettledIgnoresUp(c.(wire := c.wire + [m]), c.up[1..]);
  }

  lemma SettledIgnoresUp(c: Peer, up: seq<Command>)
    ensures Settled(c.(up := up)) == Settled(c)
  {
  }

  lemma PlainCommandKeepsPeer(list: seq<Path>, c: Peer)
    requires PeerInv(list, c) && c.open && c.up != [] && !IsGet(c.up[0]) && !ListPlay(c.up[0])
    ensures PeerInv(list, c.(up := c.up[1..]))
  {
    SettledIgnoresUp(c, c.up[1..]);
    PlainCommandKeepsView(list, Settled(c), c.up);
  }

  lemma PlainCommandKeepsView(list: seq<Path>, v: View, up: seq<Command>)
    requires ViewInv(list, v, up) && up != [] && !IsGet(up[0]) && !ListPlay(up[0])
    ensures ViewInv(list, v, up[1..])
  {
    if |up| > 1 { assert up[..|up| - 1][1..] == up[1..][..|up| - 2]; }
    assert NoListPlay(up[1..]) ==> NoListPlay(up) by {
      assert up == [up[0]] + up[1..];
    }
  }

  /** When a client's own list becomes the server's, the event that follows
      makes every synced client, the sender included, want a refetch. */
  lemma ListPlayKeepsView(list: seq<Path>, v: View, up: seq<Command>)
    requires ViewInv(list, v, up) && up != [] && ListPlay(up[0])
    ensures ViewInv(up[0].list, Deliver(v, Ev(New)), up[1..])
  {
    if |up| > 1 { assert up[..|up| - 1][1..] == up[1..][..|up| - 2]; }
  }

  lemma ListPlayKeepsPeer(list: seq<Path>, c: Peer)
    requires PeerInv(list, c) && c.open && c.up != [] && ListPlay(c.up[0])
    ensures PeerInv(c.up[0].list, Enqueue(c.(up := c.up[1..]), [New]))
  {
    SettledIgnoresUp(c, c.up[1..]);
    SettledAppend(c.(up := c.up[1..]), New);
    ListPlayKeepsView(list, Settled(c), c.up);
  }

  lemma HandleKeepsInv(s: System, t: Step)
    requires Inv(s) && Enabled(s, t) && Quiet(s, t) && t.Handle?
    ensures Inv(Next(s, t))
  {
    var s' := Next(s, t);
    var c := s.peers[t.p];
    var cmd := c.up[0];
    var es := Broadcast(cmd, t.outcome);
    assert PeerInv(s.list, c);
    forall k | 0 <= k < |s'.peers|
      ensures PeerInv(s'.list, s'.peers[k])
    {
      assert PeerInv(s.list, s.peers[k]);
      if k != t.p {
        BroadcastKeepsPeer(s.list, s.peers[k], cmd, t.outcome);
      } else {
        var c' := c.(up := c.up[1..], wire := c.wire + Reply(s.list, cmd));
        if ListPlay(cmd) {
          assert c.wire + [] == c.wire;
          ListPlayKeepsPeer(s.list, c);
        } else {
          if IsGet(cmd) {
            ReplyKeepsPeer(s.list, c);
          } else {
            assert c.wire + [] == c.wire;
            PlainCommandKeepsPeer(s.list, c);
          }
          assert PeerInv(s.list, c');
          BroadcastKeepsPeer(s.list, c', cmd, t.outcome);
        }
      }
    }
  }

  lemma FatalStays(v: View, m: Message)
    ensures v.mode == Fatal ==> Deliver(v, m).mode == Fatal
  {
  }

  lemma ReplyToIdleIsFatal(v: View, m: Message)
    ensures v.mode == Idle ==> Deliver(v, m).mode == if m.Ev? then Idle else Fatal
  {
  }

  /** A client that is running its loop has no reply in flight. */
  lemma {:induction false} IdleMeansNoReply(v: View, ms: seq<Message>)
    requires v.mode == Idle && Replay(v, ms).mode != Fatal
    ensures forall m :: m in ms ==> m.Ev?
    ensures Replay(v, ms).mode == Idle
  {
    if ms != [] {
      var n := |ms| - 1;
      FatalStays(Replay(v, ms[..n]), ms[n]);
      IdleMeansNoReply(v, ms[..n]);
      ReplyToIdleIsFatal(Replay(v, ms[..n]), ms[n]);
      assert ms == ms[..n] + [ms[n]];
    }
  }

  /** Events change neither the mode nor `synced`, and never withdraw a wanted
      refetch; and they do not depend on the mode. */
  lemma {:induction false} EventsOnly(v: View, ms: seq<Message>, mode: Mode)
    requires v.mode != Fatal && mode != Fatal
    requires forall m :: m in ms ==> m.Ev?
    ensures var w := Replay(v, ms);
            w.mode == v.mode && w.synced == v.synced && (v.synced && v.want ==> w.want)
    ensures Replay(v.(mode := mode), ms) == Replay(v, ms).(mode := mode)
  {
    if ms != [] {
      var n := |ms| - 1;
      assert ms[n] in ms;
      EventsOnly(v, ms[..n], mode);
    }
  }

  /** The settled view `w'` after an action that turned the view `v` into `v'`, given
      the settled view `w` before it. */
  predicate ActSettled(v: View, v': View, w: View, w': View) {
    && w.mode == v.mode == Idle && w.synced == v.synced && w'.mode == v'.mode && w'.synced == v'.synced
    && (v.synced && v.want ==> w.want) && (v'.synced && v'.want ==> w'.want)
    && (v' == v.(mode := v'.mode) ==> w' == w.(mode := v'.mode))
  }

  lemma ActSettles(c: Peer, a: Act)
    requires ActEnabled(c.view, a) && Settled(c).mode != Fatal
    ensures ActSettled(c.view, ActView(c.view, a), Settled(c), Settled(c.(view := ActView(c.view, a))))
  {
    var v, v', fl := c.view, ActView(c.view, a), InFlight(c);
    assert InFlight(c.(view := v')) == fl;
    IdleMeansNoReply(v, fl);
    EventsOnly(v', fl, v.mode);
    EventsOnly(v, fl, v'.mode);
  }

  /** A synced client sends its edits instead of making them. */
  lemma ActKeepsView(list: seq<Path>, v: View, w: View, w': View, up: seq<Command>, a: Act)
    requires ViewInv(list, w, up) && ActEnabled(v, a) && ActSettled(v, ActView(v, a), w, w')
    ensures ViewInv(list, w', up + ActCommands(v, a))
  {
    ActChannels(up, v, a);
    assert ActView(v, a).synced && !(a.KeyGo? && !v.synced) ==> ActView(v, a) == v.(mode := ActView(v, a).mode);
  }

  lemma ActKeepsPeer(list: seq<Path>, c: Peer, a: Act)
    requires PeerInv(list, c) && c.open && ActEnabled(c.view, a)
    ensures PeerInv(list, c.(view := ActView(c.view, a), up := c.up + ActCommands(c.view, a)))
  {
    ActSettles(c, a);
    var c' := c.(view := ActView(c.view, a));
    SettledIgnoresUp(c', c.up + ActCommands(c.view, a));
    ActKeepsView(list, c.view, Settled(c), Settled(c'), c.up, a);
  }

  /** What an action leaves in the command channel. */
  lemma ActChannels(up: seq<Command>, v: View, a: Act)
    requires ActEnabled(v, a) && NoGets(up) && PlaysInRange(up)
    ensures var up' := up + ActCommands(v, a);
            && Matched(ActView(v, a).mode, up')
            && PlaysInRange(up')
            && (NoListPlay(up') ==> NoListPlay(up) && !(a.KeyGo? && !v.synced))
  {
    var cs := ActCommands(v, a);
    ActSends(v, a);
    if cs == [] {
      assert up + cs == up;
    } else {
      assert cs == [cs[0]];
      OneMoreCommand(up, cs[0]);
    }
  }

  /** An action sends one command at most, a request exactly if it waits for the
      reply, and its own list only from an unsynced client. */
  lemma ActSends(v: View, a: Act)
    requires ActEnabled(v, a)
    ensures var cs, mode := ActCommands(v, a), ActView(v, a).mode;
            && |cs| <= 1
            && (mode == Idle ==> forall c <- cs :: !IsGet(c))
            && (mode == AwaitOther ==> cs == [GetOther])
            && (mode == AwaitRefetch || mode == AwaitFetch ==> cs == [GetList])
            && mode != Fatal
            && (forall c <- cs :: ListPlay(c) ==> 0 <= c.idx < |c.list|)
            && (a.KeyGo? && !v.synced ==> cs != [] && ListPlay(cs[0]))
  {
  }

  lemma OneMoreCommand(up: seq<Command>, c: Command)
    ensures (up + [c])[|up|] == c && (up + [c])[..|up|] == up
    ensures NoGets(up) && !IsGet(c) ==> NoGets(up + [c])
    ensures PlaysInRange(up) && (ListPlay(c) ==> 0 <= c.idx < |c.list|) ==> PlaysInRange(up + [c])
    ensures NoListPlay(up + [c]) <==> NoListPlay(up) && !ListPlay(c)
  {
    var up' := up + [c];
    assert forall k :: 0 <= k < |up| ==> up'[k] == up[k];
    assert up'[|up|] == c;
  }

  lemma UpdateKeepsInv(s: System, p: nat, c: Peer)
    requires Inv(s) && p < |s.peers| && PeerInv(s.list, c)
    ensures Inv(s.(peers := s.peers[p := c]))
  {
  }

  lemma StepKeepsInv(s: System, t: Step)
    requires Inv(s) && Enabled(s, t) && Quiet(s, t)
    ensures Inv(Next(s, t))
  {
    if t.Handle? {
      HandleKeepsInv(s, t);
    } else {
      var c, c' := s.peers[t.p], Next(s, t).peers[t.p];
      assert PeerInv(s.list, c);
      LocalStepKeepsPeer(s, t);
      UpdateKeepsInv(s, t.p, c');
    }
  }

  lemma SendPacketSettles(c: Peer)
    requires c.queue != []
    ensures Settled(c.(queue := c.queue[1..], wire := c.wire + [Ev(c.queue[0])])) == Settled(c)
  {
    assert InFlight(c.(queue := c.queue[1..], wire := c.wire + [Ev(c.queue[0])])) == InFlight(c);
  }

  lemma ReceiveSettles(c: Peer)
    requires c.wire != []
    ensures Settled(c.(view := Deliver(c.view, c.wire[0]), wire := c.wire[1..])) == Settled(c)
  {
    var c' := c.(view := Deliver(c.view, c.wire[0]), wire := c.wire[1..]);
    assert InFlight(c) == [c.wire[0]] + InFlight(c');
    ReplayFront(c.view, c.wire[0], InFlight(c'));
  }

  lemma NewPeer(list: seq<Path>, local: seq<Path>)
    ensures PeerInv(list, Peer(true, View(local, false, false, Idle), [], [], []))
  {
  }

  lemma LocalStepKeepsPeer(s: System, t: Step)
    requires PeerInvAt(s, t.p) && Enabled(s, t) && !t.Handle?
    ensures PeerInv(s.list, Next(s, t).peers[t.p])
  {
    var c := s.peers[t.p];
    match t {
      case SendPacket(_) => SendPacketSettles(c);
      case Notify(_) =>
        SettledAppend(c, Other);
      case Receive(_) => ReceiveSettles(c);
      case ClientActs(_, a) => ActKeepsPeer(s.list, c, a);
      case Connect(_, local) => NewPeer(s.list, local);
      case Disconnect(_) =>
    }
  }
  predicate PeerInvAt(s: System, p: nat) {
    p < |s.peers| && PeerInv(s.list, s.peers[p])
  }

  /** Over every run the invariant holds. */
  lemma {:induction false} RunKeepsInv(s: System, steps: seq<Step>)
    requires Inv(s) && QuietRun(s, steps)
    ensures Run(s, steps) && Inv(After(s, steps))
    decreases |steps|
  {
    if steps != [] {
      StepKeepsInv(s, steps[0]);
      RunKeepsInv(Next(s, steps[0]), steps[1..]);
    }
  }

  // ----- main results

  predicate Reachable(s: System, start: System, steps: seq<Step>) {
    Init(start) && QuietRun(start, steps) && Run(start, steps) && s == After(start, steps)
  }

  lemma {:induction false} FatalIsFinal(v: View, ms: seq<Message>)
    ensures v.mode == Fatal ==> Replay(v, ms) == v
  {
    if v.mode == Fatal && ms != [] {
      FatalIsFinal(v, ms[..|ms| - 1]);
    }
  }

  /** In every reachable state, for every connected client: no reply is ever
      taken for another; replaying the wire and then the queue on a synced copy
      gives exactly the server's list, unless a refetch will be wanted by then
      or the client's own list is on its way; and so, once nothing is in
      flight, the two lists are equal. */
  lemma ReplicaConverges(start: System, steps: seq<Step>, s: System, p: nat)
    requires Reachable(s, start, steps) && p < |s.peers| && s.peers[p].open
    ensures var c := s.peers[p];
            && c.view.mode != Fatal
            && (Settled(c).synced && !Settled(c).want && NoListPlay(c.up) ==> Settled(c).list == s.list)
            && (c.wire == [] && c.queue == [] && c.up == [] && c.view.synced && !c.view.want ==> c.view.list == s.list)
  {
    RunKeepsInv(start, steps);
    var c := s.peers[p];
    assert PeerInv(s.list, c);
    if c.view.mode == Fatal { FatalIsFinal(c.view, InFlight(c)); }
    if c.wire == [] && c.queue == [] { assert InFlight(c) == []; }
  }

  lemma {:induction false} RunConcat(s: System, a: seq<Step>, b: seq<Step>)
    requires Run(s, a) && Run(After(s, a), b)
    ensures Run(s, a + b) && After(s, a + b) == After(After(s, a), b)
    ensures QuietRun(s, a) && QuietRun(After(s, a), b) ==> QuietRun(s, a + b)
    decreases |a|
  {
    if a == [] {
      assert a + b == b;
    } else {
      assert (a + b)[1..] == a[1..] + b;
      RunConcat(Next(s, a[0]), a[1..], b);
    }
  }

  predicate Drained(c: Peer) {
    c.wire == [] && c.queue == []
  }

  lemma OneStep(s: System, t: Step)
    requires Enabled(s, t) && Quiet(s, t)
    ensures Run(s, [t]) && QuietRun(s, [t]) && After(s, [t]) == Next(s, t)
  {
    assert [t][1..] == [];
    assert Run(Next(s, t), []) && QuietRun(Next(s, t), []);
  }

  lemma StepThen(s: System, t: Step, rest: seq<Step>)
    requires Enabled(s, t) && Quiet(s, t)
    requires Run(Next(s, t), rest) && QuietRun(Next(s, t), rest)
    ensures Run(s, [t] + rest) && QuietRun(s, [t] + rest) && After(s, [t] + rest) == After(Next(s, t), rest)
  {
    OneStep(s, t);
    RunConcat(s, [t], rest);
  }

  /** Delivering everything in flight to `p`. */
  lemma {:induction false} Drain(s: System, p: nat) returns (steps: seq<Step>)
    requires p < |s.peers| && s.peers[p].open
    ensures Run(s, steps) && QuietRun(s, steps)
    ensures After(s, steps) == s.(peers := s.peers[p := s.peers[p].(view := Settled(s.peers[p]), queue := [], wire := [])])
    decreases 2 * |s.peers[p].queue| + |s.peers[p].wire|
  {
    var c := s.peers[p];
    if c.wire != [] {
      var s' := Next(s, Receive(p));
      ReceiveSettles(c);
      steps := Drain(s', p);
      StepThen(s, Receive(p), steps);
      steps := [Receive(p)] + steps;
    } else if c.queue != [] {
      var s' := Next(s, SendPacket(p));
      SendPacketSettles(c);
      steps := Drain(s', p);
      StepThen(s, SendPacket(p), steps);
      steps := [SendPacket(p)] + steps;
    } else {
      steps := [];
      assert InFlight(c) == [];
    }
  }

  const NOTHING_DONE := Outcome({}, map[])

  /** Letting the server work off everything `p` has asked for. */
  lemma {:induction false} WorkOff(s: System, p: nat) returns (steps: seq<Step>)
    requires Inv(s) && p < |s.peers| && s.peers[p].open
    ensures Run(s, steps) && QuietRun(s, steps) && Inv(After(s, steps))
    ensures |After(s, steps).peers| == |s.peers|
    ensures var c := After(s, steps).peers[p]; c.open && Drained(c) && c.up == []
    decreases |s.peers[p].up|
  {
    steps := Drain(s, p);
    RunKeepsInv(s, steps);
    var s1 := After(s, steps);
    if s1.peers[p].up != [] {
      var t := Handle(p, NOTHING_DONE);
      var s2 := Next(s1, t);
      StepKeepsInv(s1, t);
      var rest := WorkOff(s2, p);
      StepThen(s1, t, rest);
      RunConcat(s, steps, [t] + rest);
      steps := steps + ([t] + rest);
    }
  }

  /** A drained, synced client that wants a refetch and makes it is in sync. */
  lemma Refetch(s: System, p: nat) returns (steps: seq<Step>)
    requires Inv(s) && p < |s.peers| && s.peers[p].open
    requires Drained(s.peers[p]) && s.peers[p].up == [] && s.peers[p].view.mode == Idle
    requires s.peers[p].view.synced && s.peers[p].view.want
    ensures Run(s, steps) && QuietRun(s, steps) && |After(s, steps).peers| == |s.peers|
    ensures After(s, steps).list == s.list
    ensures var c := After(s, steps).peers[p];
            c.open && Drained(c) && c.up == [] && c.view == View(s.list, true, false, Idle)
  {
    var a := ClientActs(p, IdlePass);
    var s1 := Next(s, a);
    var h := Handle(p, NOTHING_DONE);
    var s2 := Next(s1, h);
    assert s2.peers[p].wire == [ListData(s.list)];
    var r := Receive(p);
    OneStep(s2, r);
    StepThen(s1, h, [r]);
    StepThen(s, a, [h] + [r]);
    steps := [a] + ([h] + [r]);
  }

  /** From every state satisfying the invariant a client can be brought back in
      sync without the help of any other client: the messages in flight are
      delivered, its own commands executed, and one refetch made if wanted. */
  lemma CanConverge(s: System, p: nat) returns (steps: seq<Step>)
    requires Inv(s) && p < |s.peers| && s.peers[p].open
    ensures Run(s, steps) && QuietRun(s, steps) && |After(s, steps).peers| == |s.peers|
    ensures var c := After(s, steps).peers[p];
            && c.open && Drained(c) && c.up == [] && c.view.mode == Idle
            && (c.view.synced ==> !c.view.want && c.view.list == After(s, steps).list)
  {
    steps := WorkOff(s, p);
    var s1 := After(s, steps);
    var c := s1.peers[p];
    assert PeerInv(s1.list, c);
    assert InFlight(c) == [];
    if c.view.synced && c.view.want {
      var more := Refetch(s1, p);
      RunConcat(s, steps, more);
      steps := steps + more;
    }
  }
}
