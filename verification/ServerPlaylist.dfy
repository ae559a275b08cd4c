/** The class of server/server_plist.cc: its fields, loops and swaps, proved
    against the scheduler's functions. */
module ServerPlaylists {
  import opened Scheduler
  import opened PlayThread

  class ServerPlaylist {
    var playlist: seq<Song>
    var dirPlist: seq<Song>
    var i1: int
    var dir: bool
    var nvList: nat
    var nvDir: nat
    var order: seq<int>
    var orderInv: seq<int>

    constructor ()
      ensures Valid() && Cur() == Deck([], -1, 0, [], []) && !dir
    {
      playlist, dirPlist, i1, dir := [], [], -1, false;
      nvList, nvDir, order, orderInv := 0, 0, [], [];
      new;
      assert ValidItems([]) == {};
    }

    function P(): seq<Song>
      reads this
    {
      if dir then dirPlist else playlist
    }

    function Nv(): nat
      reads this
    {
      if dir then nvDir else nvList
    }

    ghost predicate Counted()
      reads this
    {
      nvList == |ValidItems(playlist)| && nvDir == |ValidItems(dirPlist)|
    }

    ghost predicate Valid()
      reads this
    {
      Counted() && DeckOk(Cur())
    }

    /** The part of the state that next and prev look at. */
    ghost function Cur(): Deck
      reads this
    {
      Deck(P(), i1, Nv(), order, orderInv)
    }

    method CountValid(list: seq<Song>) returns (n: nat)
      ensures n == |ValidItems(list)|
    {
      n := 0;
      var i := 0;
      assert ValidItems(list[..0]) == {};
      while i < |list|
        invariant 0 <= i <= |list| && n == |ValidItems(list[..i])|
      {
        assert ValidItems(list[..i + 1]) == ValidItems(list[..i]) + (if list[i].sound then {i} else {});
        if list[i].sound { n := n + 1; }
        i := i + 1;
      }
      assert list[..i] == list;
    }

    /** play(song, restarting) */
    method PlaySong(inDir: bool, i: int, restarting: bool)
      requires Counted() && -1 <= i
      requires !restarting ==> Valid() && inDir == dir
      modifies this`dir, this`i1, this`order, this`orderInv
      ensures Valid() && dir == inDir && i1 == i
      ensures order == (if restarting then [] else old(order)) && orderInv == (if restarting then [] else old(orderInv))
    {
      dir, i1 := inDir, i;
      if restarting { order, orderInv := [], []; }
    }

    /** A new list is played from item `i`. */
    method PlayList(p: seq<Song>, i: int)
      requires Valid() && -1 <= i
      modifies this
      ensures Valid() && !dir && playlist == p && i1 == i && order == [] && dirPlist == old(dirPlist)
      ensures IsValid(p, i) ==> Started(Cur())
    {
      playlist := p;
      var n := CountValid(p);
      nvList := n;
      PlaySong(false, i, true);
    }

    method StopPlaying()
      requires Valid()
      modifies this`dir, this`i1, this`order, this`orderInv
      ensures Valid() && Cur() == old(Cur()).(i1 := -1, order := [], inv := [])
    {
      PlaySong(dir, -1, true);
    }

    method First() returns (i: int)
      requires Valid() && Nv() > 0
      ensures i == FirstFrom(P(), Plain(|P()|), 0) && i != -1
    {
      assert ValidItems(P()) != {};
      SomeValid(P());
      i := 0;
      while i < |P()|
        invariant 0 <= i <= |P()| && FirstFrom(P(), Plain(|P()|), i) == FirstFrom(P(), Plain(|P()|), 0)
      {
        if P()[i].sound { return; }
        i := i + 1;
      }
    }

    method Last() returns (i: int)
      requires Valid() && Nv() > 0
      ensures i == LastUpTo(P(), Plain(|P()|), |P()| - 1) && i != -1
    {
      assert ValidItems(P()) != {};
      SomeValid(P());
      i := |P()| - 1;
      while i >= 0
        invariant -1 <= i < |P()| && LastUpTo(P(), Plain(|P()|), i) == LastUpTo(P(), Plain(|P()|), |P()| - 1)
      {
        if P()[i].sound { return; }
        i := i - 1;
      }
    }

    method Reshuffle(draws: seq<nat>)
      requires Counted() && 0 <= i1 < |P()| && InRange(draws, |P()|)
      modifies this`order, this`orderInv
      ensures Counted() && Cur() == Reshuffled(old(Cur()), draws)
    {
      var n := |P()|;
      order := seq(n, k => 0);
      orderInv := seq(n, k => 0);
      var i := 1;
      order := order[0 := i1];
      while i < n
        invariant 1 <= i <= n == |order| == |orderInv|
        invariant forall k :: 0 <= k < i ==> order[k] == StartOrder(i1, n)[k]
      {
        order := order[i := if i > i1 then i else i - 1];
        i := i + 1;
      }
      assert order == StartOrder(i1, n);
      i := 1;
      while i < n
        invariant 1 <= i <= n == |orderInv| && order == Rounds(i1, n, draws, i)
      {
        var j := draws[i];
        order := SwapAt(order, i, j);
        i := i + 1;
      }
      InvertOrder(RoundsInv(i1, n, draws, n));
    }

    /** The last loop of reshuffle. */
    method InvertOrder(ghost inv: seq<int>)
      requires Inverse(order, inv, |order|) && |orderInv| == |order|
      modifies this`orderInv
      ensures orderInv == inv
    {
      var i, n := 0, |order|;
      while i < n
        invariant 0 <= i <= n == |orderInv|
        invariant forall k :: 0 <= k < i ==> orderInv[order[k]] == k
      {
        assert forall k :: 0 <= k < i ==> inv[order[k]] == k;
        assert inv[order[i]] == i;
        orderInv := orderInv[order[i] := i];
        i := i + 1;
      }
      InverseUnique(order, inv, orderInv, n);
    }

    /** Search along the shuffle order from position `k`. */
    method FindInOrder(k: nat) returns (q: int)
      requires |order| == |P()| && forall x :: 0 <= x < |order| ==> 0 <= order[x] < |P()|
      ensures q == FirstFrom(P(), order, k)
    {
      q := k;
      while q < |order|
        invariant k <= q && FirstFrom(P(), order, q) == FirstFrom(P(), order, k)
      {
        if P()[order[q]].sound { return; }
        q := q + 1;
      }
      q := -1;
    }

    method Next(o: Options, force: bool, r: Draws) returns (i: int)
      requires Valid() && DrawsOk(P(), r)
      modifies this`order, this`orderInv, this`nvList, this`nvDir
      ensures if dir then nvList == old(nvList) else nvDir == old(nvDir)
      ensures (Cur(), i) == NextDeck(old(Cur()), o, force, r)
    {
      var n := |P()|;
      if Nv() == 0 { return -1; }
      var haveValid := i1 >= 0 && i1 < n && P()[i1].sound;
      if o.repeat_ == RepeatOne {
        if haveValid { return i1; }
        if o.shuffle { return r.pick; }
        i := First();
        return;
      }
      if !o.shuffle {
        i := i1 + 1;
        while i < n
          invariant i1 + 1 <= i && FirstFrom(P(), Plain(n), i) == FirstFrom(P(), Plain(n), i1 + 1)
        {
          if P()[i].sound { return; }
          i := i + 1;
        }
        if o.repeat_ == RepeatOff && !force { return -1; }
        i := First();
        return;
      }
      if !haveValid { return r.pick; }
      i := NextInShuffle(o.repeat_ != RepeatOff || force, r);
    }

    method NextInShuffle(wrap: bool, r: Draws) returns (i: int)
      requires Valid() && DrawsOk(P(), r) && IsValid(P(), i1)
      modifies this`order, this`orderInv, this`nvList, this`nvDir
      ensures if dir then nvList == old(nvList) else nvDir == old(nvDir)
      ensures (Cur(), i) == NextShuffled(old(Cur()), wrap, r)
    {
      if |order| != |P()| { Reshuffle(r.one); }
      var q := FindInOrder(orderInv[i1] + 1);
      if q != -1 { return order[q]; }
      if !wrap { return -1; }
      i := StartOver(r.two);
    }

    /** The end of the order: a new one that begins with the current song. */
    method StartOver(draws: seq<nat>) returns (i: int)
      requires Valid() && InRange(draws, |P()|) && IsValid(P(), i1)
      modifies this`order, this`orderInv, this`nvList, this`nvDir
      ensures if dir then nvList == old(nvList) else nvDir == old(nvDir)
      ensures var d2 := Reshuffled(old(Cur()), draws);
              var q := FirstFrom(d2.list, d2.order, 1);
              (Cur(), i) == if q != -1 then (d2, d2.order[q]) else (d2.(nv := 0), -1)
    {
      Reshuffle(draws);
      var q := FindInOrder(1);
      if q != -1 { return order[q]; }
      if dir { nvDir := 0; } else { nvList := 0; }
      return -1;
    }

    method PrevInList() returns (i: int)
      requires Valid() && Nv() > 0 && i1 <= |P()|
      ensures var k := if i1 <= 0 then -1 else LastUpTo(P(), Plain(|P()|), i1 - 1);
              i == if k != -1 then k else LastUpTo(P(), Plain(|P()|), |P()| - 1)
    {
      var n := |P()|;
      i := i1 - 1;
      while i >= 0
        invariant -1 <= i < n || i1 == -1
        invariant i1 == -1 || LastUpTo(P(), Plain(n), i) == LastUpTo(P(), Plain(n), i1 - 1)
      {
        if P()[i].sound { return; }
        i := i - 1;
      }
      i := Last();
    }

    method Prev(o: Options, r: Draws) returns (i: int)
      requires Valid() && DrawsOk(P(), r) && i1 <= |P()|
      ensures i == PrevSong(Cur(), o, r)
    {
      var n := |P()|;
      if Nv() == 0 { return -1; }
      var haveValid := i1 >= 0 && i1 < n && P()[i1].sound;
      if !o.shuffle {
        i := PrevInList();
        return;
      }
      if !haveValid { return r.pick; }
      if |order| != n { return r.pick; }
      var i0 := orderInv[i1] - 1;
      while i0 >= 0
        invariant -1 <= i0 < |order| && LastUpTo(P(), order, i0) == LastUpTo(P(), order, orderInv[i1] - 1)
      {
        if P()[order[i0]].sound { return order[i0]; }
        i0 := i0 - 1;
      }
      return r.pick;
    }

    /** One turn of the play thread's loop; `candidate` is handed to the player
        for precaching while `song` plays, and `req` is how the playing ended. */
    method PlayThreadTurn(o: Options, req: Request, a: Draws, b: Draws) returns (song: int, candidate: int, stopped: bool)
      requires Valid() && RoundOk(Cur(), o, a, b)
      modifies this
      ensures song == old(i1) && candidate == NextDeck(old(Cur()), o, false, a).1
      ensures Cur() == PlayRound(old(Cur()), o, req, a, b) && stopped == (i1 == -1)
    {
      NextKeepsDeck(Cur(), o, false, a);
      song := i1;
      candidate := Next(o, false, a);
      var i;
      match req {
        case PressStop =>
          StopPlaying();
          return song, candidate, true;
        case PressPrev => i := Prev(o, b);
        case PressNext =>
          NextKeepsDeck(Cur(), o, true, b);
          i := Next(o, true, b);
        case Finished =>
          NextKeepsDeck(Cur(), o, false, b);
          i := Next(o, false, b);
      }
      i1 := i;
      stopped := i1 == -1;
    }
  }
}
