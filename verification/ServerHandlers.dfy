/** The primary side: the playlist commands, the broadcast of their events and
    the packet queues of server/server.cc. */
module ServerHandlers {
  import opened Playlist
  import opened Replication

  datatype Slot = Slot(open: bool, queue: seq<Event>, written: seq<Message>)

  class Server {
    const playlist: Plist
    var clients: seq<Slot>

    constructor (paths: seq<Path>, max: nat)
      ensures fresh(playlist) && playlist.items == paths
      ensures clients == seq(max, _ => Slot(false, [], []))
    {
      playlist := new Plist(paths);
      clients := seq(max, _ => Slot(false, [], []));
    }

    method AddEventAll(e: Event)
      modifies this
      ensures |clients| == |old(clients)|
      ensures forall k :: 0 <= k < |clients| ==>
                clients[k] == if old(clients)[k].open then old(clients)[k].(queue := old(clients)[k].queue + [e]) else old(clients)[k]
    {
      var i := 0;
      while i < |clients|
        invariant 0 <= i <= |clients| == |old(clients)|
        invariant forall k :: 0 <= k < i ==>
                    clients[k] == if old(clients)[k].open then old(clients)[k].(queue := old(clients)[k].queue + [e]) else old(clients)[k]
        invariant forall k :: i <= k < |clients| ==> clients[k] == old(clients)[k]
      {
        if clients[i].open {
          clients := clients[i := clients[i].(queue := clients[i].queue + [e])];
        }
        i := i + 1;
      }
    }

    /** ServerPlaylist::move and ::rename: every item whose file was moved gets
        the path its file has now. */
    method MoveFilesInList(files: set<Path>, target: Path -> Path)
      modifies playlist
      ensures playlist.items == Renamed(old(playlist.items), map f | f in files :: target(f))
    {
      ghost var change := map f | f in files :: target(f);
      var i := |playlist.items| - 1;
      while i >= 0
        invariant -1 <= i < |playlist.items| == |old(playlist.items)|
        invariant forall k :: i < k < |playlist.items| ==> playlist.items[k] == NewPath(old(playlist.items)[k], change)
        invariant forall k :: 0 <= k <= i ==> playlist.items[k] == old(playlist.items)[k]
      {
        if playlist.items[i] in files {
          playlist.items := playlist.items[i := target(playlist.items[i])];
        }
        i := i - 1;
      }
    }

    /** The pairs of old and new paths that are sent. */
    method Changes(moved: set<Path>, target: Path -> Path) returns (change: map<Path, Path>)
      ensures change == map f | f in moved :: target(f)
    {
      change := map[];
      var todo := moved;
      while todo != {}
        invariant todo <= moved && change == map f | f in moved - todo :: target(f)
        decreases todo
      {
        var f :| f in todo;
        change, todo := change[f := target(f)], todo - {f};
      }
      assert moved - todo == moved;
    }

    /** The commands about the list.  `removed`, and `moved` with `target`, say
        what the file system made of a command on files. */
    method HandleCommand(p: nat, c: Command, removed: set<Path>, moved: set<Path>, target: Path -> Path)
      requires p < |clients| && clients[p].open
      modifies this, playlist
      ensures var o := Outcome(removed, map f | f in moved :: target(f));
              && playlist.items == ServerList(old(playlist.items), c, o)
              && |clients| == |old(clients)|
              && forall k :: 0 <= k < |clients| ==>
                   && clients[k].open == old(clients)[k].open
                   && clients[k].written == old(clients)[k].written + (if k == p then Reply(old(playlist.items), c) else [])
                   && clients[k].queue == old(clients)[k].queue + (if clients[k].open then Broadcast(c, o) else [])
    {
      match c {
        case Play(idx, list) =>
          if idx == -1 || list == [] {
            // plays a file, or an item of the present list
          } else if idx < 0 || idx >= |list| {
            // the comparison is made on unsigned numbers
          } else {
            playlist.Assign(list);
            AddEventAll(New);
          }
        case AddItems(paths, idx) =>
          if idx < 0 { playlist.Append(paths); } else { playlist.Insert(paths, idx); }
          AddEventAll(Add(paths, idx));
        case DelItems(i, n) =>
          playlist.Remove(i, n);
          AddEventAll(Del(i, n));
        case GetList =>
          clients := clients[p := clients[p].(written := clients[p].written + [ListData(playlist.items)])];
        case MoveItems(i, j) =>
          playlist.Move(i, j);
          AddEventAll(MoveItem(i, j));
        case RemoveFiles(_) =>
          if removed == {} {
            KeptAll(playlist.items, removed);
            return;
          }
          var _ := playlist.RemoveFiles(removed, -1);
          AddEventAll(Rm(removed));
        case MoveFiles(_) =>
          ghost var all := map f | f in moved :: target(f);
          if moved == {} {
            assert all == map[];
            return;
          }
          MoveFilesInList(moved, target);
          var change := Changes(moved, target);
          assert all != map[] by { var f :| f in moved; assert f in all; }
          AddEventAll(Mod(change));
        case GetOther =>
          clients := clients[p := clients[p].(written := clients[p].written + [OtherData])];
        case NoListCommand =>
      }
    }

    /** send_events for one client: packets are sent from the front of the queue
        until the queue is empty or, after `room` of them, a send would block; or
        fails, and then the client is deleted. */
    method SendEvents(p: nat, room: nat, fails: bool)
      requires p < |clients|
      modifies this
      ensures |clients| == |old(clients)|
      ensures forall k :: 0 <= k < |clients| && k != p ==> clients[k] == old(clients)[k]
      ensures var c, n := old(clients)[p], if room < |old(clients)[p].queue| then room else |old(clients)[p].queue|;
              clients[p] == if c.open then Slot(!(fails && room < |c.queue|), c.queue[n..], c.written + Wrap(c.queue[..n])) else c
    {
      if !clients[p].open { return; }
      var left := room;
      ghost var q, w := clients[p].queue, clients[p].written;
      ghost var n := 0;
      while clients[p].queue != [] && left > 0
        invariant |clients| == |old(clients)| && 0 <= n <= |q| && n + left == room
        invariant forall k :: 0 <= k < |clients| && k != p ==> clients[k] == old(clients)[k]
        invariant clients[p] == Slot(true, q[n..], w + Wrap(q[..n]))
        decreases left
      {
        var c := clients[p];
        assert c.queue[0] == q[n] && c.queue[1..] == q[n + 1..];
        assert Wrap(q[..n + 1]) == Wrap(q[..n]) + [Ev(q[n])];
        clients := clients[p := c.(queue := c.queue[1..], written := c.written + [Ev(c.queue[0])])];
        left, n := left - 1, n + 1;
      }
      if clients[p].queue != [] && fails {
        clients := clients[p := clients[p].(open := false)];
      }
    }
  }
}
