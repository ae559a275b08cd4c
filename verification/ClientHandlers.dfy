/** The replica side: the handlers of client/client.cc that keep the playlist,
    its flags and the index of the playing item. */
module ClientHandlers {
  import opened Playlist
  import opened Replication

  class Client {
    const playlist: Plist
    var synced: bool
    var wantUpdate: bool
    var mode: Mode
    var sent: seq<Command>
    var currIndex: int
    var inDirPlist: bool
    var selFirst: int
    var selLast: int

    constructor (args: seq<Path>)
      ensures fresh(playlist) && ViewNow() == View(args, false, false, Idle) && sent == []
    {
      playlist := new Plist(args);
      synced, wantUpdate, mode, sent := false, false, Idle, [];
      currIndex, inDirPlist, selFirst, selLast := -1, true, -1, -1;
    }

    ghost function ViewNow(): View
      reads this, playlist
    {
      View(playlist.items, synced, wantUpdate, mode)
    }

    /** The index of the playing item after an event. */
    ghost function IndexAfter(v: View, ci: int, e: Event): int {
      if e.Rm? then ReportedIndex(v.list, e.files, ci)
      else if !v.synced || v.want then ci
      else match e
        case Add(paths, idx) => IndexAfterAdd(ci, idx, |paths|)
        case Del(i, n) => IndexAfterDel(ci, i, n)
        case MoveItem(i, j) => IndexAfterMove(ci, i, j)
        case _ => ci
    }

    method HandleServerEvent(e: Event)
      modifies this`wantUpdate, this`currIndex, this`selFirst, this`selLast, playlist
      ensures ViewNow() == HandleEvent(old(ViewNow()), e)
      ensures currIndex == IndexAfter(old(ViewNow()), old(currIndex), e)
      ensures var shift := if e.MoveItem? && synced && !old(wantUpdate) && !inDirPlist && old(selFirst) >= 0
                           then SelectionShift(old(selFirst), old(selLast), e.i, e.j) else 0;
              selFirst == old(selFirst) + shift && selLast == old(selLast) + shift
    {
      match e {
        case New =>
          if synced { wantUpdate := true; }
        case Add(paths, idx) =>
          if !synced || wantUpdate { return; }
          playlist.Insert(paths, idx);
          var ci := currIndex;
          if idx >= 0 && ci >= idx { currIndex := ci + |paths|; }
        case Del(i, n) =>
          if !synced || wantUpdate { return; }
          playlist.Remove(i, n);
          var ci := currIndex;
          if ci > i { currIndex := if i < ci - n then ci - n else i; }
        case Rm(files) =>
          var ci := currIndex;
          ci := playlist.RemoveFiles(files, ci);
          currIndex := ci;
        case MoveItem(i, j) =>
          if !synced || wantUpdate { return; }
          HandleMove(i, j);
        case Mod(change) =>
          playlist.Replace(change);
        case Other =>
      }
    }

    method HandleMove(i: int, j: int)
      modifies this`currIndex, this`selFirst, this`selLast, playlist
      ensures playlist.items == Moved(old(playlist.items), i, j) && currIndex == IndexAfterMove(old(currIndex), i, j)
      ensures var shift := if !inDirPlist && old(selFirst) >= 0 then SelectionShift(old(selFirst), old(selLast), i, j) else 0;
              selFirst == old(selFirst) + shift && selLast == old(selLast) + shift
    {
      FollowSelection(i, j);
      playlist.Move(i, j);
      FollowIndex(i, j);
    }

    method FollowSelection(i: int, j: int)
      modifies this`selFirst, this`selLast
      ensures var shift := if !inDirPlist && old(selFirst) >= 0 then SelectionShift(old(selFirst), old(selLast), i, j) else 0;
              selFirst == old(selFirst) + shift && selLast == old(selLast) + shift
    {
      if !inDirPlist && selFirst >= 0 {
        if i + 1 == selFirst && j == selLast {
          MoveSelection(-1);
        } else if i == selLast + 1 && j == selFirst {
          MoveSelection(1);
        }
      }
    }

    method FollowIndex(i: int, j: int)
      modifies this`currIndex
      ensures currIndex == IndexAfterMove(old(currIndex), i, j)
    {
      var ci := currIndex;
      if ci == i { currIndex := j; }
      else if i < j && ci > i && ci <= j { currIndex := ci - 1; }
      else if i > j && ci < i && ci >= j { currIndex := ci + 1; }
    }

    method MoveSelection(dy: int)
      modifies this`selFirst, this`selLast
      ensures selFirst == old(selFirst) + dy && selLast == old(selLast) + dy
    {
      selFirst, selLast := selFirst + dy, selLast + dy;
    }

    /** One message taken from the socket, in the loop or in wait_for_data and
        the code that follows it. */
    method Receive(m: Message)
      requires mode != Fatal
      modifies this, playlist
      ensures ViewNow() == Deliver(old(ViewNow()), m) && sent == old(sent)
    {
      match m {
        case Ev(e) => HandleServerEvent(e);
        case ListData(paths) =>
          if mode == AwaitRefetch {
            wantUpdate := false;
            playlist.Assign(paths);
            mode := Idle;
          } else if mode == AwaitFetch {
            playlist.Assign(paths);
            synced := true;
            mode := Idle;
          } else {
            mode := Fatal;
          }
        case OtherData =>
          mode := if mode == AwaitOther then Idle else Fatal;
      }
    }

    method HandleKey(a: Act)
      requires ActEnabled(ViewNow(), a)
      modifies this, playlist
      ensures ViewNow() == ActView(old(ViewNow()), a)
      ensures sent == old(sent) + ActCommands(old(ViewNow()), a)
    {
      match a {
        case KeyGo(idx) =>
          if !synced {
            sent := sent + [Play(idx, playlist.items)];
            synced := true;
          } else {
            sent := sent + [Play(idx, [])];
          }
        case KeyClear =>
          if synced {
            playlist.Clear();
            synced := false;
          } else if playlist.items != [] {
            playlist.Clear();
          } else {
            sent := sent + [GetList];
            mode := AwaitFetch;
          }
        case KeyDesync => if synced { synced := false; }
        case LoadFile(paths) =>
          playlist.Assign(paths);
          synced := false;
        case KeyAdd(paths, idx) =>
          if synced { sent := sent + [AddItems(paths, idx)]; } else { playlist.Insert(paths, idx); }
        case KeyDel(i, n) =>
          if synced { sent := sent + [DelItems(i, n)]; } else { playlist.Remove(i, n); }
        case KeyMove(i, j) =>
          if synced { sent := sent + [MoveItems(i, j)]; } else { playlist.Move(i, j); }
        case KeyRemoveFiles(files) => sent := sent + [RemoveFiles(files)];
        case KeyMoveFiles(files) => sent := sent + [MoveFiles(files)];
        case IdlePass =>
          if wantUpdate && synced {
            sent := sent + [GetList];
            mode := AwaitRefetch;
          } else {
            wantUpdate := false;
          }
        case Ask =>
          sent := sent + [GetOther];
          mode := AwaitOther;
        case OtherKey => sent := sent + [NoListCommand];
      }
    }

    /** Moving the selection: a synced client asks the server, and the event that
        comes back moves the items and the selection; a local list is moved
        here and now. */
    method MoveSelected(direction: int)
      requires direction == 1 || direction == -1
      requires mode == Idle && selFirst <= selLast
      modifies this, playlist
      ensures ViewNow().(list := []) == old(ViewNow()).(list := [])
      ensures var size := |old(playlist.items)|;
              var can := !inDirPlist && old(selFirst) >= 0 && old(selLast) < size
                         && old(selFirst) + direction >= 0 && old(selLast) + direction < size;
              var i, j := BlockMoveFrom(old(selFirst), old(selLast), direction), BlockMoveTo(old(selFirst), old(selLast), direction);
              && sent == old(sent) + (if can && synced then [MoveItems(i, j)] else [])
              && playlist.items == (if can && !synced then Moved(old(playlist.items), i, j) else old(playlist.items))
              && selFirst == old(selFirst) + (if can && !synced then direction else 0)
              && selLast == old(selLast) + (if can && !synced then direction else 0)
    {
      if inDirPlist { return; }
      if selFirst < 0 || selLast >= |playlist.items| || selFirst + direction < 0 || selLast + direction >= |playlist.items| {
        return;
      }
      var i := (if direction > 0 then selLast else selFirst) + direction;
      var j := if direction > 0 then selFirst else selLast;
      if synced {
        sent := sent + [MoveItems(i, j)];
      } else {
        playlist.Move(i, j);
        MoveSelection(direction);
      }
    }

    /** The selected items of the playlist are deleted. */
    method DeleteSelected()
      requires mode == Idle && !inDirPlist && playlist.items != []
      modifies this, playlist
      ensures var i, n := selFirst, selLast - selFirst + 1;
              if i < 0 || n <= 0 then ViewNow() == old(ViewNow()) && sent == old(sent)
              else
                && ViewNow() == ActView(old(ViewNow()), KeyDel(i, n))
                && sent == old(sent) + ActCommands(old(ViewNow()), KeyDel(i, n))
      ensures selFirst == old(selFirst) && selLast == old(selLast) && currIndex == old(currIndex)
    {
      var i, n := selFirst, selLast - selFirst + 1;
      if i < 0 || n <= 0 { return; }
      if synced { sent := sent + [DelItems(i, n)]; } else { playlist.Remove(i, n); }
    }

    /** What was selected in a directory is added at the end or behind the playing
        item, in front of all if nothing plays. */
    method AddToList(pl: seq<Path>, atEnd: bool)
      requires mode == Idle
      modifies this, playlist
      ensures if !inDirPlist || pl == [] then ViewNow() == old(ViewNow()) && sent == old(sent)
              else
                var pos := AddPosition(old(currIndex), atEnd);
                && ViewNow() == ActView(old(ViewNow()), KeyAdd(pl, pos))
                && sent == old(sent) + ActCommands(old(ViewNow()), KeyAdd(pl, pos))
      ensures inDirPlist == old(inDirPlist) && currIndex == old(currIndex)
    {
      if !inDirPlist || pl == [] { return; }
      var pos := -1;
      if !atEnd {
        pos := if currIndex < 0 then 0 else currIndex + 1;
      }
      if synced { sent := sent + [AddItems(pl, pos)]; } else { playlist.Insert(pl, pos); }
    }
  }
}
