/** The index of the current item, over whole runs. */
module CurrentIndex {
  import opened Playlist

  // A client adjusts it for each event on the list.

  datatype Edit<T> = AddEdit(new_: seq<T>, idx: int) | DelEdit(i: int, n: int) | MoveEdit(i: int, j: int)

  function Edited<T>(s: seq<T>, e: Edit<T>): seq<T> {
    match e
    case AddEdit(new_, idx) => Inserted(s, new_, idx)
    case DelEdit(i, n) => Removed(s, i, n)
    case MoveEdit(i, j) => Moved(s, i, j)
  }

  function IndexAfter<T>(ci: int, e: Edit<T>): int {
    match e
    case AddEdit(new_, idx) => IndexAfterAdd(ci, idx, |new_|)
    case DelEdit(i, n) => IndexAfterDel(ci, i, n)
    case MoveEdit(i, j) => IndexAfterMove(ci, i, j)
  }

  predicate EditFits<T>(e: Edit<T>, size: int) {
    match e
    case AddEdit(_, _) => true
    case DelEdit(i, n) => InList(i, n, size)
    case MoveEdit(i, j) => MoveInRange(i, j, size)
  }

  /** A deletion of the current item together with everything behind it. */
  predicate CutsOff<T>(e: Edit<T>, size: int, ci: int) {
    e.DelEdit? && e.i <= ci < e.i + e.n && e.i + e.n == size
  }

  // One item of the list is marked, and the mark goes wherever the item goes.

  datatype Item<T> = Item(it: T, marked: bool)

  function Plain<T>(s: seq<Item<T>>): (r: seq<T>)
    ensures |r| == |s| && forall k :: 0 <= k < |s| ==> r[k] == s[k].it
  {
    seq(|s|, k requires 0 <= k < |s| => s[k].it)
  }

  function Unmarked<T>(s: seq<T>): (r: seq<Item<T>>)
    ensures |r| == |s| && forall k :: 0 <= k < |s| ==> r[k] == Item(s[k], false)
  {
    seq(|s|, k requires 0 <= k < |s| => Item(s[k], false))
  }

  /** Exactly the item at `k` is marked. */
  predicate MarkedAt<T>(s: seq<Item<T>>, k: int) {
    0 <= k < |s| && s[k].marked && forall j :: 0 <= j < |s| && s[j].marked ==> j == k
  }

  predicate MarkWithin<T>(s: seq<Item<T>>, i: int, n: int) {
    exists k :: 0 <= k < |s| && i <= k < i + n && s[k].marked
  }

  /** An edit of such a list: what is added is not marked, and the mark of an item
      that is deleted goes to the first survivor behind it. */
  function MarkedEdit<T>(s: seq<Item<T>>, e: Edit<T>): seq<Item<T>> {
    match e
    case AddEdit(new_, idx) => Inserted(s, Unmarked(new_), idx)
    case DelEdit(i, n) =>
      var r := Removed(s, i, n);
      if InList(i, n, |s|) && i + n < |s| && MarkWithin(s, i, n) then r[i := r[i].(marked := true)] else r
    case MoveEdit(i, j) => Moved(s, i, j)
  }

  lemma AddIsPlain<T>(s: seq<Item<T>>, new_: seq<T>, idx: int)
    ensures Plain(Inserted(s, Unmarked(new_), idx)) == Inserted(Plain(s), new_, idx)
  {
  }

  lemma DelIsPlain<T>(s: seq<Item<T>>, i: int, n: int)
    ensures Plain(Removed(s, i, n)) == Removed(Plain(s), i, n)
  {
  }

  lemma MoveIsPlain<T>(s: seq<Item<T>>, i: int, j: int)
    ensures Plain(Moved(s, i, j)) == Moved(Plain(s), i, j)
  {
    if MoveInRange(i, j, |s|) {
      var rest := s[..i] + s[i + 1..];
      assert Plain(rest) == Plain(s)[..i] + Plain(s)[i + 1..];
    }
  }

  /** The items themselves are edited as ever. */
  lemma MarkedEditIsEdit<T>(s: seq<Item<T>>, e: Edit<T>)
    ensures Plain(MarkedEdit(s, e)) == Edited(Plain(s), e)
  {
    match e {
      case AddEdit(new_, idx) => AddIsPlain(s, new_, idx);
      case DelEdit(i, n) =>
        DelIsPlain(s, i, n);
        assert Plain(MarkedEdit(s, e)) == Plain(Removed(s, i, n));
      case MoveEdit(i, j) => MoveIsPlain(s, i, j);
    }
  }

  lemma AddKeepsMark<T>(s: seq<Item<T>>, new_: seq<T>, idx: int, ci: int)
    requires MarkedAt(s, ci)
    ensures MarkedAt(Inserted(s, Unmarked(new_), idx), IndexAfterAdd(ci, idx, |new_|))
  {
  }

  lemma DelKeepsMark<T>(s: seq<Item<T>>, e: Edit<T>, ci: int)
    requires MarkedAt(s, ci) && e.DelEdit? && EditFits(e, |s|) && !CutsOff(e, |s|, ci)
    ensures MarkedAt(MarkedEdit(s, e), IndexAfterDel(ci, e.i, e.n))
  {
    var r := Removed(s, e.i, e.n);
    assert forall k :: 0 <= k < e.i ==> r[k] == s[k];
    assert forall k :: e.i <= k < |r| ==> r[k] == s[k + e.n];
    assert MarkWithin(s, e.i, e.n) <==> e.i <= ci < e.i + e.n;
  }

  lemma MoveKeepsMark<T>(s: seq<Item<T>>, i: int, j: int, ci: int)
    requires MarkedAt(s, ci) && MoveInRange(i, j, |s|)
    ensures MarkedAt(Moved(s, i, j), IndexAfterMove(ci, i, j))
  {
    MoveIsRotation(s, i, j);
    var m := Moved(s, i, j);
    forall k | 0 <= k < |m| && m[k].marked
      ensures k == IndexAfterMove(ci, i, j)
    {
      MovedElement(m, j, i, k);
    }
  }

  /** One edit keeps the index on the marked item or its successor, unless both are gone. */
  lemma EditKeepsMark<T>(s: seq<Item<T>>, e: Edit<T>, ci: int)
    requires MarkedAt(s, ci) && EditFits(e, |s|) && !CutsOff(e, |s|, ci)
    ensures MarkedAt(MarkedEdit(s, e), IndexAfter(ci, e))
  {
    match e {
      case AddEdit(new_, idx) => AddKeepsMark(s, new_, idx, ci);
      case DelEdit(_, _) => DelKeepsMark(s, e, ci);
      case MoveEdit(i, j) => MoveKeepsMark(s, i, j, ci);
    }
  }

  ghost predicate NoMark<T>(s: seq<Item<T>>) {
    forall k :: 0 <= k < |s| ==> !s[k].marked
  }

  /** With a deletion that leaves no successor the index is past the end, and
      whatever is appended next becomes the current item. */
  lemma CutOffLosesMark<T>(s: seq<Item<T>>, e: Edit<T>, ci: int, new_: seq<T>)
    requires MarkedAt(s, ci) && EditFits(e, |s|) && CutsOff(e, |s|, ci)
    ensures NoMark(MarkedEdit(s, e)) && IndexAfter(ci, e) == |MarkedEdit(s, e)|
    ensures var t, c := Inserted(MarkedEdit(s, e), Unmarked(new_), -1), IndexAfterAdd(IndexAfter(ci, e), -1, |new_|);
            new_ != [] ==> 0 <= c < |t| && t[c] == Item(new_[0], false)
  {
    assert MarkedEdit(s, e) == s[..e.i];
  }

  /** A mark that is gone stays away. */
  lemma UnmarkedStays<T>(s: seq<Item<T>>, e: Edit<T>)
    ensures NoMark(s) ==> NoMark(MarkedEdit(s, e))
  {
    if NoMark(s) && e.MoveEdit? && MoveInRange(e.i, e.j, |s|) {
      var m := Moved(s, e.i, e.j);
      forall k | 0 <= k < |s| ensures !m[k].marked { MovedElement(s, e.i, e.j, k); }
    }
  }

  predicate EditsFit<T>(s: seq<T>, es: seq<Edit<T>>)
    decreases |es|
  {
    es == [] || (EditFits(es[0], |s|) && EditsFit(Edited(s, es[0]), es[1..]))
  }

  /** Some edit of the run cuts off the item that is current by then. */
  predicate CutsOffOnce<T>(s: seq<T>, es: seq<Edit<T>>, ci: int)
    decreases |es|
  {
    es != [] && (CutsOff(es[0], |s|, ci) || CutsOffOnce(Edited(s, es[0]), es[1..], IndexAfter(ci, es[0])))
  }

  function MarkedEdits<T>(s: seq<Item<T>>, es: seq<Edit<T>>): seq<Item<T>>
    decreases |es|
  {
    if es == [] then s else MarkedEdits(MarkedEdit(s, es[0]), es[1..])
  }

  function Edits<T>(s: seq<T>, es: seq<Edit<T>>): seq<T>
    decreases |es|
  {
    if es == [] then s else Edits(Edited(s, es[0]), es[1..])
  }

  function IndexAfterAll<T>(ci: int, es: seq<Edit<T>>): int
    decreases |es|
  {
    if es == [] then ci else IndexAfterAll(IndexAfter(ci, es[0]), es[1..])
  }

  /** The marked list goes through the same lists. */
  lemma {:induction false} MarkedEditsAreEdits<T>(s: seq<Item<T>>, es: seq<Edit<T>>)
    ensures Plain(MarkedEdits(s, es)) == Edits(Plain(s), es)
    decreases |es|
  {
    if es != [] {
      MarkedEditIsEdit(s, es[0]);
      MarkedEditsAreEdits(MarkedEdit(s, es[0]), es[1..]);
    }
  }

  lemma {:induction false} UnmarkedStaysOver<T>(s: seq<Item<T>>, es: seq<Edit<T>>)
    ensures NoMark(s) ==> NoMark(MarkedEdits(s, es))
    decreases |es|
  {
    if es != [] && NoMark(s) {
      UnmarkedStays(s, es[0]);
      UnmarkedStaysOver(MarkedEdit(s, es[0]), es[1..]);
    }
  }

  /** Over every run of edits within the list, the index is that of the item that it
      was put on or, each time that one is deleted, of the first survivor behind:
      exactly if there always is such a survivor. */
  lemma {:induction false} IndexFollowsItem<T>(s: seq<Item<T>>, es: seq<Edit<T>>, ci: int)
    requires MarkedAt(s, ci) && EditsFit(Plain(s), es)
    ensures MarkedAt(MarkedEdits(s, es), IndexAfterAll(ci, es)) <==> !CutsOffOnce(Plain(s), es, ci)
    decreases |es|
  {
    if es != [] {
      var s' := MarkedEdit(s, es[0]);
      MarkedEditIsEdit(s, es[0]);
      if CutsOff(es[0], |s|, ci) {
        CutOffLosesMark(s, es[0], ci, []);
        UnmarkedStaysOver(s', es[1..]);
      } else {
        EditKeepsMark(s, es[0], ci);
        IndexFollowsItem(s', es[1..], IndexAfter(ci, es[0]));
      }
    }
  }
}
