/** What a client's keys come to, on its own list and at the server. */
module ClientEdits {
  import opened Playlist
  import opened Replication

  /** The edit of a list that a key stands for. */
  function Wanted(list: seq<Path>, a: Act): seq<Path> {
    match a
    case KeyAdd(paths, idx) => Inserted(list, paths, idx)
    case KeyDel(i, n) => Removed(list, i, n)
    case KeyMove(i, j) => Moved(list, i, j)
    case _ => list
  }

  predicate IsEdit(a: Act) {
    a.KeyAdd? || a.KeyDel? || a.KeyMove?
  }

  /** A synced client sends one command for an edit, which makes that edit of the
      server's list, and leaves its own to the event; any other client makes the
      same edit of its own list and sends nothing. */
  lemma EditKeys(v: View, list: seq<Path>, a: Act, o: Outcome)
    requires ActEnabled(v, a) && IsEdit(a)
    ensures v.synced ==> ActView(v, a) == v && |ActCommands(v, a)| == 1 && ServerList(list, ActCommands(v, a)[0], o) == Wanted(list, a)
    ensures !v.synced ==> ActView(v, a) == v.(list := Wanted(v.list, a)) && ActCommands(v, a) == []
  {
  }

  /** Whichever list the key for playing is pressed on, it becomes or is the
      server's, and the index sent names the item under the cursor in it. */
  lemma GoPlaysItem(v: View, list: seq<Path>, idx: int, o: Outcome)
    requires ActEnabled(v, KeyGo(idx)) && (v.synced ==> v.list == list)
    ensures |ActCommands(v, KeyGo(idx))| == 1 && ActView(v, KeyGo(idx)) == v.(synced := true)
    ensures var c := ActCommands(v, KeyGo(idx))[0];
            var l := ServerList(list, c, o);
            && c.Play? && l == v.list && 0 <= c.idx < |l| && l[c.idx] == v.list[idx]
            && (Broadcast(c, o) == [] <==> v.synced)
  {
  }

  /** Files are removed and renamed through the server, whatever list the client
      looks at; what really happened to them happens to the server's list. */
  lemma FileKeys(v: View, list: seq<Path>, a: Act, o: Outcome)
    requires ActEnabled(v, a) && (a.KeyRemoveFiles? || a.KeyMoveFiles?)
    ensures |ActCommands(v, a)| == 1 && ActView(v, a) == v
    ensures a.KeyRemoveFiles? ==>
              (OutcomeFits(ActCommands(v, a)[0], o) <==> o.removed <= a.files)
              && ServerList(list, ActCommands(v, a)[0], o) == Kept(list, o.removed)
    ensures a.KeyMoveFiles? ==>
              (OutcomeFits(ActCommands(v, a)[0], o) <==> o.moved.Keys <= a.files)
              && ServerList(list, ActCommands(v, a)[0], o) == Renamed(list, o.moved)
  {
  }

  /** A key pressed by a synced client whose commands have all been handled, and
      the server's next turn with it: the server's list has the edit made. */
  lemma EditReachesServer(s: System, p: nat, a: Act, o: Outcome)
    requires IsEdit(a) && Enabled(s, ClientActs(p, a)) && s.peers[p].view.synced && s.peers[p].up == []
    ensures var s1 := Next(s, ClientActs(p, a));
            Enabled(s1, Handle(p, o)) && Quiet(s1, Handle(p, o)) && Next(s1, Handle(p, o)).list == Wanted(s.list, a)
  {
    EditKeys(s.peers[p].view, s.list, a, o);
  }

  predicate NoHandle(steps: seq<Step>) {
    forall k :: 0 <= k < |steps| ==> !steps[k].Handle?
  }

  lemma {:induction false} ListStays(s: System, steps: seq<Step>)
    requires Run(s, steps) && NoHandle(steps)
    ensures After(s, steps).list == s.list && |After(s, steps).peers| == |s.peers|
    decreases |steps|
  {
    if steps != [] {
      assert !steps[0].Handle?;
      assert NoHandle(steps[1..]) by { assert forall k :: 0 <= k < |steps| - 1 ==> steps[1..][k] == steps[k + 1]; }
      ListStays(Next(s, steps[0]), steps[1..]);
    }
  }

  /** So it gets to every synced client: in any run from there on in which the
      server handles nothing else, each one that has taken what was sent to it,
      and wants no refetch, shows the edit. */
  lemma EditReachesCopies(s: System, p: nat, a: Act, o: Outcome, s2: System, later: seq<Step>, q: nat)
    requires Inv(s) && IsEdit(a) && Enabled(s, ClientActs(p, a)) && s.peers[p].view.synced && s.peers[p].up == []
    requires Enabled(Next(s, ClientActs(p, a)), Handle(p, o)) && s2 == Next(Next(s, ClientActs(p, a)), Handle(p, o))
    requires Run(s2, later) && QuietRun(s2, later) && NoHandle(later) && q < |s.peers|
    ensures q < |After(s2, later).peers|
    ensures var c := After(s2, later).peers[q];
            c.open && Drained(c) && c.view.synced && !c.view.want && NoListPlay(c.up) ==> c.view.list == Wanted(s.list, a)
  {
    EditReachesServer(s, p, a, o);
    StepKeepsInv(s, ClientActs(p, a));
    StepKeepsInv(Next(s, ClientActs(p, a)), Handle(p, o));
    RunKeepsInv(s2, later);
    ListStays(s2, later);
    var c := After(s2, later).peers[q];
    assert PeerInv(s2.list, c);
    if Drained(c) { assert InFlight(c) == []; }
  }

  /** Of all events only those about files touch the list of a client that is not
      synced: it loses exactly the removed files and gets the new paths. */
  lemma LocalListFollowsFiles(v: View, e: Event)
    requires !v.synced && v.mode != Fatal
    ensures var v' := Deliver(v, Ev(e));
            && v' == v.(list := v'.list)
            && (!e.Rm? && !e.Mod? ==> v'.list == v.list)
            && (e.Rm? ==> forall p :: multiset(v'.list)[p] == if p in e.files then 0 else multiset(v.list)[p])
            && (e.Mod? ==> |v'.list| == |v.list| && forall k :: 0 <= k < |v.list| ==> v'.list[k] == NewPath(v.list[k], e.change))
  {
    if e.Rm? {
      forall p ensures multiset(Kept(v.list, e.files))[p] == if p in e.files then 0 else multiset(v.list)[p] {
        KeptCounts(v.list, e.files, p);
      }
    }
  }

  /** Deleting the selected items deletes those and no others. */
  lemma SelectionIsDeleted(list: seq<Path>, first: nat, last: nat)
    requires first <= last < |list|
    ensures Wanted(list, KeyDel(first, last - first + 1)) == list[..first] + list[last + 1..]
  {
  }

  /** The clear key on an empty list of its own fetches the server's list, once the
      request has been answered, and makes the client synced; on any other list it
      empties that and lets go of the server's. */
  lemma ClearKey(v: View, list: seq<Path>)
    requires ActEnabled(v, KeyClear)
    ensures var v' := ActView(v, KeyClear);
            if v.synced || v.list != [] then
              v' == v.(list := [], synced := false) && ActCommands(v, KeyClear) == []
            else
              ActCommands(v, KeyClear) == [GetList] && Deliver(v', Reply(list, GetList)[0]) == v.(list := list, synced := true)
  {
  }

  /** Letting go of the server's list, or loading one from a file, concerns the
      client alone. */
  lemma LocalKeys(v: View, paths: seq<Path>)
    requires v.mode == Idle
    ensures ActView(v, KeyDesync) == v.(synced := false) && ActCommands(v, KeyDesync) == []
    ensures ActView(v, LoadFile(paths)) == v.(list := paths, synced := false) && ActCommands(v, LoadFile(paths)) == []
  {
  }

  /** An idle pass fetches the server's list if that is wanted, and a wish that a
      client had before it let go of that list is dropped. */
  lemma IdlePassServesWish(v: View, list: seq<Path>)
    requires ActEnabled(v, IdlePass)
    ensures var v', cs := ActView(v, IdlePass), ActCommands(v, IdlePass);
            if v.want && v.synced then
              cs == [GetList] && Deliver(v', Reply(list, GetList)[0]) == v.(list := list, want := false)
            else
              cs == [] && v' == v.(want := false)
  {
  }

  /** A client starts with a list of its own. */
  lemma NewClient(s: System, p: nat, local: seq<Path>)
    requires Enabled(s, Connect(p, local))
    ensures var c := Next(s, Connect(p, local)).peers[p];
            c.open && Settled(c) == c.view && c.view.list == local && !c.view.synced && NoGets(c.up)
  {
    assert InFlight(Next(s, Connect(p, local)).peers[p]) == [];
  }
}
