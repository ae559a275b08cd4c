/** The bitrate timeline of a decoder (server/output/player.cc), which forgets
    what later queries cannot ask for. */
module BitrateList {

  datatype Entry = Entry(time: int, bitrate: int)

  /** All that was ever recorded since the list was last cleared, in order. */
  type History = seq<Entry>

  predicate Nondecreasing(h: History) {
    forall i, j :: 0 <= i < j < |h| ==> h[i].time <= h[j].time
  }

  /** The last bitrate recorded at or before `t`, -1 if there is none. */
  function LastAt(h: History, t: int): int {
    if h == [] then -1
    else if h[|h| - 1].time <= t then h[|h| - 1].bitrate
    else LastAt(h[..|h| - 1], t)
  }

  predicate Increasing(e: seq<Entry>) {
    forall i, j :: 0 <= i < j < |e| ==> e[i].time < e[j].time
  }

  /** The answer read off strictly increasing entries: the last one not behind
      `t`. */
  lemma {:induction false} LastAtIndex(e: seq<Entry>, k: nat, t: int)
    requires Increasing(e) && k < |e| && e[k].time <= t && (k + 1 < |e| ==> t < e[k + 1].time)
    ensures LastAt(e, t) == e[k].bitrate
  {
    if k + 1 < |e| {
      assert e[k + 1].time <= e[|e| - 1].time;
      LastAtIndex(e[..|e| - 1], k, t);
    }
  }

  lemma {:induction false} LastAtNone(e: seq<Entry>, t: int)
    requires forall i :: 0 <= i < |e| ==> e[i].time > t
    ensures LastAt(e, t) == -1
  {
    if e != [] { LastAtNone(e[..|e| - 1], t); }
  }

  /** The stored entries answer queries from the first one's time on, or if none
      has been forgotten all queries, as the full history does. */
  ghost predicate Agrees(e: seq<Entry>, h: History, pruned: bool) {
    forall t :: (pruned ==> e != [] && e[0].time <= t) ==> LastAt(e, t) == LastAt(h, t)
  }

  /** The entries after `add`. */
  function Added(e: seq<Entry>, time: int, bitrate: int): seq<Entry> {
    if e != [] && time == e[|e| - 1].time then e[..|e| - 1] + [Entry(time, bitrate)] else e + [Entry(time, bitrate)]
  }

  lemma LastAtAppend(h: History, x: Entry, t: int)
    ensures LastAt(h + [x], t) == if x.time <= t then x.bitrate else LastAt(h, t)
  {
    assert (h + [x])[..|h|] == h;
  }

  lemma AddAgrees(e: seq<Entry>, h: History, pruned: bool, time: int, bitrate: int)
    requires Agrees(e, h, pruned) && (pruned ==> e != []) && Increasing(e) && (e != [] ==> e[|e| - 1].time <= time)
    requires h != [] ==> h[|h| - 1].time <= time
    requires Nondecreasing(h)
    ensures var e', h' := Added(e, time, bitrate), h + [Entry(time, bitrate)];
            Increasing(e') && Nondecreasing(h') && Agrees(e', h', pruned)
  {
    var x := Entry(time, bitrate);
    var e', h' := Added(e, time, bitrate), h + [x];
    assert forall i :: 0 <= i < |h| ==> h[i].time <= h[|h| - 1].time;
    forall t | pruned ==> e'[0].time <= t
      ensures LastAt(e', t) == LastAt(h', t)
    {
      LastAtAppend(h, x, t);
      LastAtAppend(e, x, t);
      if e != [] && time == e[|e| - 1].time { LastAtAppend(e[..|e| - 1], x, t); }
    }
  }

  /** Forgetting the first entry when the second is not behind `t` does not show
      to queries from `t` on. */
  lemma {:induction false} PopAgrees(e: seq<Entry>, t: int, q: int)
    requires Increasing(e) && |e| > 1 && e[1].time <= t <= q
    ensures LastAt(e[1..], q) == LastAt(e, q)
    decreases |e|
  {
    var n := |e| - 1;
    if e[n].time > q {
      assert n > 1;
      assert e[1..][..n - 1] == e[..n][1..];
      PopAgrees(e[..n], t, q);
    }
  }

  class Timeline {
    var entries: seq<Entry>
    ghost var history: History
    ghost var pruned: bool  // some entries were forgotten
    ghost var latest: int   // the latest time that was asked for when that was done

    ghost predicate Valid()
      reads this
    {
      && Increasing(entries) && Nondecreasing(history) && Agrees(entries, history, pruned)
      && (entries == [] <==> history == []) && (history != [] ==> entries[|entries| - 1].time == history[|history| - 1].time)
      && (pruned ==> entries != [] && entries[0].time <= latest)
    }

    constructor ()
      ensures Valid() && history == [] && !pruned
    {
      entries, history, pruned, latest := [], [], false, 0;
    }

    method Clear()
      modifies this
      ensures Valid() && history == [] && !pruned
    {
      entries, history, pruned := [], [], false;
    }

    /** The time may not go back, which the code asserts. */
    method Add(time: int, bitrate: int)
      requires Valid() && (history != [] ==> history[|history| - 1].time <= time)
      modifies this
      ensures Valid() && history == old(history) + [Entry(time, bitrate)] && pruned == old(pruned) && latest == old(latest)
    {
      AddAgrees(entries, history, pruned, time, bitrate);
      ghost var e, h := Added(entries, time, bitrate), history + [Entry(time, bitrate)];
      if entries != [] && time == entries[|entries| - 1].time {
        entries := entries[|entries| - 1 := Entry(time, bitrate)];
      } else {
        entries := entries + [Entry(time, bitrate)];
      }
      history := h;
      assert entries == e;
    }

    /** Queries that do not go back behind the latest one that made entries be
        forgotten get what the full history says; one behind the first entry left
        gets -1 instead. */
    method Get(t: int) returns (bitrate: int)
      requires Valid()
      modifies this
      ensures Valid() && history == old(history) && (old(pruned) ==> pruned)
      ensures latest == old(latest) || latest == t
      ensures bitrate == if old(pruned) && t < old(entries)[0].time then -1 else LastAt(history, t)
      ensures !old(pruned) || old(latest) <= t ==> bitrate == LastAt(history, t)
    {
      if entries == [] || entries[0].time > t {
        LastAtNone(entries, t);
        return -1;
      }
      while |entries| > 1 && entries[1].time <= t
        invariant Valid() && entries != [] && entries[0].time <= t && history == old(history)
        invariant (old(pruned) ==> pruned) && (latest == old(latest) || latest == t)
        decreases |entries|
      {
        forall q | q >= entries[1].time
          ensures LastAt(entries[1..], q) == LastAt(history, q)
        {
          PopAgrees(entries, entries[1].time, q);
        }
        entries := entries[1..];
        pruned, latest := true, if t > latest then t else latest;
      }
      LastAtIndex(entries, 0, t);
      return entries[0].bitrate;
    }
  }
}
