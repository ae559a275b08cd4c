/** Playlist edits (playlist.cc) and how an index is carried across them. */
module Playlist {
  // An item is represented by its path, the only part of it that travels between server
  // and client.  The edits themselves do not look inside an item, so their specifications
  // are generic: instantiated with items that carry unique marks, "the same element" means
  // "the same item".

  type Path = string

  /** `[i, i+n)` is a non-empty stretch of a list of `size` items. */
  predicate InList(i: int, n: int, size: int) {
    0 <= i && 0 < n && i + n <= size
  }

  function Removed<T>(s: seq<T>, i: int, n: int): seq<T> {
    if InList(i, n, |s|) then s[..i] + s[i + n..] else s
  }

  function Inserted<T>(s: seq<T>, new_: seq<T>, pos: int): seq<T> {
    if pos < 0 || pos >= |s| then s + new_ else s[..pos] + new_ + s[pos..]
  }

  predicate MoveInRange(i: int, j: int, size: int) {
    0 <= i < size && 0 <= j < size
  }

  /** Take the element at `i` out and put it back so that it ends up at `j`. */
  function Moved<T>(s: seq<T>, i: int, j: int): seq<T> {
    if !MoveInRange(i, j, |s|) then s
    else
      var rest := s[..i] + s[i + 1..];
      rest[..j] + [s[i]] + rest[j..]
  }

  function Kept(s: seq<Path>, files: set<Path>): (r: seq<Path>)
    ensures forall p :: p in r <==> p in s && p !in files
    ensures |r| <= |s|
  {
    if s == [] then []
    else if s[|s| - 1] in files then Kept(s[..|s| - 1], files)
    else Kept(s[..|s| - 1], files) + [s[|s| - 1]]
  }

  function NewPath(p: Path, change: map<Path, Path>): Path {
    if p in change then change[p] else p
  }

  function Renamed(s: seq<Path>, change: map<Path, Path>): (r: seq<Path>)
    ensures |r| == |s|
    ensures forall k :: 0 <= k < |s| ==> r[k] == NewPath(s[k], change)
  {
    seq(|s|, k requires 0 <= k < |s| => NewPath(s[k], change))
  }

  /** The vector of items behind a `plist`, edited in place. */
  class Plist {
    var items: seq<Path>

    constructor (paths: seq<Path>)
      ensures items == paths
    {
      items := paths;
    }

    method Swap(a: int, b: int)
      requires 0 <= a < |items| && 0 <= b < |items|
      modifies this
      ensures items == old(items)[a := old(items)[b]][b := old(items)[a]]
    {
      items := items[a := items[b]][b := items[a]];
    }

    method Clear()
      modifies this
      ensures items == []
    {
      items := [];
    }

    method Assign(paths: seq<Path>)
      modifies this
      ensures items == paths
    {
      items := [];
      var k := 0;
      while k < |paths|
        invariant 0 <= k <= |paths| && items == paths[..k]
      {
        items := items + [paths[k]];
        k := k + 1;
      }
    }

    method Remove(i: int, n: int)
      modifies this
      ensures items == Removed(old(items), i, n)
    {
      if i < 0 || n <= 0 || i + n > |items| { return; }
      items := items[..i] + items[i + n..];
    }

    method Append(other: seq<Path>)
      modifies this
      ensures items == old(items) + other
    {
      var k := 0;
      while k < |other|
        invariant 0 <= k <= |other| && items == old(items) + other[..k]
      {
        items := items + [other[k]];
        k := k + 1;
      }
    }

    method Insert(other: seq<Path>, pos: int)
      modifies this
      ensures items == Inserted(old(items), other, pos)
    {
      if pos < 0 || pos >= |items| {
        Append(other);
        return;
      }
      var j, k := pos, 0;
      while k < |other|
        invariant 0 <= k <= |other| && j == pos + k
        invariant items == old(items)[..pos] + other[..k] + old(items)[pos..]
      {
        items := items[..j] + [other[k]] + items[j..];
        j, k := j + 1, k + 1;
      }
    }

    method Move(from: int, to: int)
      modifies this
      ensures items == Moved(old(items), from, to)
    {
      var i, j, n := from, to, |items|;
      if i == j || i < 0 || j < 0 || i >= n || j >= n {
        MoveNowhere(items, from);
        return;
      }
      MoveUp(from, to);
      MoveDown(from, to);
    }

    /** The first loop of move: nothing if `to` is not behind. */
    method MoveUp(from: int, to: int)
      requires MoveInRange(from, to, |items|)
      modifies this
      ensures items == if from < to then Moved(old(items), from, to) else old(items)
    {
      MoveNowhere(items, from);
      var i := from;
      while i < to
        invariant |items| == |old(items)| && from <= i && (i <= to || i == from)
        invariant items == Moved(old(items), from, i)
      {
        MoveStep(old(items), from, i, i + 1);
        Swap(i, i + 1);
        i := i + 1;
      }
    }

    /** The second one: nothing if `to` is not in front. */
    method MoveDown(from: int, to: int)
      requires MoveInRange(from, to, |items|)
      modifies this
      ensures items == if to < from then Moved(old(items), from, to) else old(items)
    {
      MoveNowhere(items, from);
      var i := from;
      while i > to
        invariant |items| == |old(items)| && i <= from && (to <= i || i == from)
        invariant items == Moved(old(items), from, i)
      {
        MoveStep(old(items), from, i, i - 1);
        Swap(i, i - 1);
        i := i - 1;
      }
    }

    /** Stable in-place filter.  The result is the code's idea of where the
        item at `i0` went, see `ReportedIndex`. */
    method RemoveFiles(files: set<Path>, i0: int) returns (r: int)
      modifies this
      ensures items == Kept(old(items), files)
      ensures r == ReportedIndex(old(items), files, i0)
    {
      r := i0;
      var i, j, n := 0, 0, |items|;
      while i < n
        invariant 0 <= j <= i <= n == |items|
        invariant Filtered(old(items), items, i, j, files)
        invariant r == ReportedIndex(old(items)[..i], files, i0)
      {
        OneMoreItem(old(items), i, files, i0);
        if items[i] !in files {
          KeepOne(old(items), items, i, j, files);
          Swap(i, j);
          j := j + 1;
          if r > i { r := r - 1; }
        } else {
          SkipOne(old(items), items, i, j, files);
        }
        i := i + 1;
      }
      assert old(items)[..n] == old(items);
      items := items[..j];
    }

    method Replace(change: map<Path, Path>)
      modifies this
      ensures items == Renamed(old(items), change)
    {
      var i, n := 0, |items|;
      while i < n
        invariant 0 <= i <= n == |items| == |old(items)|
        invariant forall k :: 0 <= k < i ==> items[k] == NewPath(old(items)[k], change)
        invariant forall k :: i <= k < n ==> items[k] == old(items)[k]
      {
        if items[i] in change {
          items := items[i := change[items[i]]];
        }
        i := i + 1;
      }
    }
  }

  /** What `plist::remove(files, i0)` returns: `i0` less one for every kept
      item met while the running index is still ahead of the scan. */
  function ReportedIndex(s: seq<Path>, files: set<Path>, i0: int): int {
    if s == [] then i0
    else
      var i := |s| - 1;
      var r := ReportedIndex(s[..i], files, i0);
      if s[i] !in files && r > i then r - 1 else r
  }

  /** The filter has looked at `i` items of `s` and kept `j`. */
  predicate Filtered(s: seq<Path>, now: seq<Path>, i: int, j: int, files: set<Path>) {
    && 0 <= j <= i <= |s| == |now|
    && now[..j] == Kept(s[..i], files)
    && forall k :: i <= k < |s| ==> now[k] == s[k]
  }

  lemma KeepOne(s: seq<Path>, now: seq<Path>, i: int, j: int, files: set<Path>)
    requires Filtered(s, now, i, j, files) && i < |s| && s[i] !in files
    ensures Filtered(s, now[i := now[j]][j := now[i]], i + 1, j + 1, files)
  {
    var next := now[i := now[j]][j := now[i]];
    OneMoreItem(s, i, files, 0);
    assert next[..j + 1] == now[..j] + [s[i]];
  }

  lemma SkipOne(s: seq<Path>, now: seq<Path>, i: int, j: int, files: set<Path>)
    requires Filtered(s, now, i, j, files) && i < |s| && s[i] in files
    ensures Filtered(s, now, i + 1, j, files)
  {
    OneMoreItem(s, i, files, 0);
  }

  lemma OneMoreItem(s: seq<Path>, i: nat, files: set<Path>, i0: int)
    requires i < |s|
    ensures Kept(s[..i + 1], files) == if s[i] in files then Kept(s[..i], files) else Kept(s[..i], files) + [s[i]]
    ensures ReportedIndex(s[..i + 1], files, i0)
         == var r := ReportedIndex(s[..i], files, i0); if s[i] !in files && r > i then r - 1 else r
  {
    assert s[..i + 1][..i] == s[..i];
  }

  // ----- the edits, element by element

  /** Where the element at `k` goes when `i` is moved to `j`. */
  function MoveTarget(i: int, j: int, k: int): int {
    if k == i then j
    else if i < k <= j then k - 1
    else if j <= k < i then k + 1
    else k
  }

  lemma MoveNowhere<T>(s: seq<T>, i: int)
    ensures Moved(s, i, i) == s
  {
  }

  /** One swap with the next neighbour carries a move one position on. */
  lemma MoveStep<T>(s: seq<T>, i: int, j: int, j': int)
    requires MoveInRange(i, j, |s|) && MoveInRange(i, j', |s|)
    requires (i <= j && j' == j + 1) || (j <= i && j' == j - 1)
    ensures var m := Moved(s, i, j); |m| == |s| && Moved(s, i, j') == m[j := m[j']][j' := m[j]]
  {
    var m := Moved(s, i, j);
    var m' := Moved(s, i, j');
    assert |m| == |m'| == |s|;
    forall k | 0 <= k < |s|
      ensures m'[k] == m[j := m[j']][j' := m[j]][k]
    {
    }
  }

  /** A move is a rotation: every element is found where `MoveTarget` says,
      and the move back undoes it. */
  lemma MoveIsRotation<T>(s: seq<T>, i: int, j: int)
    requires MoveInRange(i, j, |s|)
    ensures |Moved(s, i, j)| == |s|
    ensures forall k :: 0 <= k < |s| ==> 0 <= MoveTarget(i, j, k) < |s|
    ensures forall k :: 0 <= k < |s| ==> Moved(s, i, j)[MoveTarget(i, j, k)] == s[k]
    ensures forall k, l :: 0 <= k < |s| && 0 <= l < |s| && k != l ==> MoveTarget(i, j, k) != MoveTarget(i, j, l)
    ensures Moved(Moved(s, i, j), j, i) == s
  {
    MoveTargets(i, j, |s|);
    MovedElement(s, i, j, i);
    forall k | 0 <= k < |s|
      ensures Moved(s, i, j)[MoveTarget(i, j, k)] == s[k]
    {
      MovedElement(s, i, j, k);
    }
    MoveBack(s, i, j);
  }

  lemma MoveTargets(i: int, j: int, n: int)
    requires MoveInRange(i, j, n)
    ensures forall k :: 0 <= k < n ==> 0 <= MoveTarget(i, j, k) < n
    ensures forall k, l :: 0 <= k < n && 0 <= l < n && k != l ==> MoveTarget(i, j, k) != MoveTarget(i, j, l)
  {
  }

  lemma MovedElement<T>(s: seq<T>, i: int, j: int, k: int)
    requires MoveInRange(i, j, |s|) && 0 <= k < |s|
    ensures |Moved(s, i, j)| == |s| && Moved(s, i, j)[MoveTarget(i, j, k)] == s[k]
  {
    var rest := s[..i] + s[i + 1..];
    if k != i {
      var r := if k < i then k else k - 1;
      assert rest[r] == s[k];
      assert MoveTarget(i, j, k) == if r < j then r else r + 1;
    }
  }

  /** Insertion puts the new items, in their order, where `pos` says, or at the
      end; the old ones stay in theirs, and taking the new ones out again gives
      the old list. */
  lemma InsertIsBlock<T>(s: seq<T>, new_: seq<T>, pos: int)
    ensures var r, p := Inserted(s, new_, pos), if 0 <= pos < |s| then pos else |s|;
            && |r| == |s| + |new_| && r[p..p + |new_|] == new_ && r[..p] == s[..p] && r[p + |new_|..] == s[p..]
            && (new_ != [] ==> Removed(r, p, |new_|) == s)
  {
    var p := if 0 <= pos < |s| then pos else |s|;
    assert s == s[..p] + s[p..];
    assert Inserted(s, new_, pos) == s[..p] + new_ + s[p..];
    ThreeParts(s[..p], new_, s[p..]);
  }

  lemma ThreeParts<T>(a: seq<T>, b: seq<T>, c: seq<T>)
    ensures var r := a + b + c; r[..|a|] == a && r[|a|..|a| + |b|] == b && r[|a| + |b|..] == c
  {
  }

  /** Removal takes out that block if it lies in the list, and else nothing;
      putting it back gives the old list. */
  lemma RemoveIsBlock<T>(s: seq<T>, i: int, n: int)
    ensures InList(i, n, |s|) ==> Inserted(Removed(s, i, n), s[i..i + n], i) == s && |Removed(s, i, n)| == |s| - n
    ensures !InList(i, n, |s|) ==> Removed(s, i, n) == s
  {
    if InList(i, n, |s|) {
      assert s == s[..i] + s[i..i + n] + s[i + n..];
      assert Removed(s, i, n)[..i] == s[..i] && Removed(s, i, n)[i..] == s[i + n..];
      if i == |s| - n { assert s[i + n..] == []; }
    }
  }

  /** The filter drops every item of a removed file and no other, however often
      a path occurs. */
  lemma {:induction false} KeptCounts(s: seq<Path>, files: set<Path>, p: Path)
    ensures multiset(Kept(s, files))[p] == if p in files then 0 else multiset(s)[p]
  {
    if s != [] {
      var n := |s| - 1;
      KeptCounts(s[..n], files, p);
      assert s == s[..n] + [s[n]];
      assert multiset(s) == multiset(s[..n]) + multiset{s[n]};
    }
  }

  lemma MoveBack<T>(s: seq<T>, i: int, j: int)
    requires MoveInRange(i, j, |s|)
    ensures Moved(Moved(s, i, j), j, i) == s
  {
    var rest := s[..i] + s[i + 1..];
    var m := rest[..j] + [s[i]] + rest[j..];
    assert m[..j] + m[j + 1..] == rest;
    assert rest[..i] + [s[i]] + rest[i..] == s;
  }

  // ----- the client's index of the playing item

  function IndexAfterAdd(ci: int, idx: int, count: nat): int {
    if idx >= 0 && ci >= idx then ci + count else ci
  }

  function IndexAfterDel(ci: int, i: int, n: int): int {
    if ci > i then (if i >= ci - n then i else ci - n) else ci
  }

  function IndexAfterMove(ci: int, i: int, j: int): int {
    if ci == i then j
    else if i < j && ci > i && ci <= j then ci - 1
    else if i > j && ci < i && ci >= j then ci + 1
    else ci
  }

  /** Where the key for adding puts new items: at the end, or behind the playing
      item, or in front of all if nothing plays. */
  function AddPosition(ci: int, atEnd: bool): int {
    if atEnd then -1 else if ci < 0 then 0 else ci + 1
  }

  lemma AddedBehindPlaying<T>(s: seq<T>, new_: seq<T>, ci: int, atEnd: bool)
    requires -1 <= ci < |s| && new_ != []
    ensures var r, p := Inserted(s, new_, AddPosition(ci, atEnd)), if atEnd then |s| else ci + 1;
            r[..p] == s[..p] && r[p..p + |new_|] == new_ && r[p + |new_|..] == s[p..]
  {
    InsertIsBlock(s, new_, AddPosition(ci, atEnd));
  }

  /** ADD events keep the index on its item, whatever position they name. */
  lemma AddKeepsItem<T>(s: seq<T>, new_: seq<T>, idx: int, ci: int)
    requires 0 <= ci < |s|
    ensures var c := IndexAfterAdd(ci, idx, |new_|);
            0 <= c < |Inserted(s, new_, idx)| && Inserted(s, new_, idx)[c] == s[ci]
  {
  }

  /** Position of the survivor `k` after deleting `[i, i+n)`. */
  function DelTarget(i: int, n: int, size: int, k: int): int {
    if InList(i, n, size) && k >= i + n then k - n else k
  }

  /** DEL events: a surviving item keeps the index, and if the item itself was
      deleted the index is the slot the first survivor behind it moves into.
      Out of range the list does not change, and the index is right exactly
      when the two tests on it leave it alone. */
  lemma DelKeepsItem<T>(s: seq<T>, i: int, n: int, ci: int)
    requires 0 <= ci < |s|
    ensures InList(i, n, |s|) && !(i <= ci < i + n) ==>
              var c := IndexAfterDel(ci, i, n);
              0 <= c < |Removed(s, i, n)| && Removed(s, i, n)[c] == s[ci]
    ensures InList(i, n, |s|) && i <= ci < i + n ==>
              IndexAfterDel(ci, i, n) == i && (i + n < |s| ==> Removed(s, i, n)[i] == s[i + n])
    ensures (IndexAfterDel(ci, i, n) == (if InList(i, n, |s|) && i <= ci < i + n then i else DelTarget(i, n, |s|, ci)))
            <==> (InList(i, n, |s|) || ci <= i || n == 0)
    ensures forall k :: 0 <= k < |s| && !(InList(i, n, |s|) && i <= k < i + n) ==>
              0 <= DelTarget(i, n, |s|, k) < |Removed(s, i, n)| && Removed(s, i, n)[DelTarget(i, n, |s|, k)] == s[k]
  {
    forall k | 0 <= k < |s| && !(InList(i, n, |s|) && i <= k < i + n)
      ensures 0 <= DelTarget(i, n, |s|, k) < |Removed(s, i, n)| && Removed(s, i, n)[DelTarget(i, n, |s|, k)] == s[k]
    {
      DelKeepsElement(s, i, n, k);
    }
    DelIndexIsTarget(i, n, |s|, ci);
    if InList(i, n, |s|) && i + n < |s| { DelKeepsElement(s, i, n, i + n); }
  }

  lemma DelKeepsElement<T>(s: seq<T>, i: int, n: int, k: int)
    requires 0 <= k < |s| && !(InList(i, n, |s|) && i <= k < i + n)
    ensures 0 <= DelTarget(i, n, |s|, k) < |Removed(s, i, n)| && Removed(s, i, n)[DelTarget(i, n, |s|, k)] == s[k]
  {
  }

  lemma DelIndexIsTarget(i: int, n: int, size: int, ci: int)
    requires 0 <= ci < size
    ensures InList(i, n, size) && !(i <= ci < i + n) ==> IndexAfterDel(ci, i, n) == DelTarget(i, n, size, ci)
    ensures (IndexAfterDel(ci, i, n) == (if InList(i, n, size) && i <= ci < i + n then i else DelTarget(i, n, size, ci)))
            <==> (InList(i, n, size) || ci <= i || n == 0)
  {
  }

  /** MOVE events: in range the index follows its item; out of range the list
      stays as it is, and the index is right exactly when it is not between
      the two positions named. */
  lemma MoveKeepsItem<T>(s: seq<T>, i: int, j: int, ci: int)
    requires 0 <= ci < |s|
    ensures MoveInRange(i, j, |s|) ==>
              var c := IndexAfterMove(ci, i, j);
              0 <= c < |Moved(s, i, j)| && Moved(s, i, j)[c] == s[ci]
    ensures !MoveInRange(i, j, |s|) ==>
              Moved(s, i, j) == s && (IndexAfterMove(ci, i, j) == ci <==> !(i <= ci <= j || j <= ci <= i))
  {
    if MoveInRange(i, j, |s|) { MoveIsRotation(s, i, j); }
  }

  // ----- moving a whole selection with a single move

  /** The positions `Client::move_item` asks for. */
  function BlockMoveFrom(first: int, last: int, direction: int): int {
    (if direction > 0 then last else first) + direction
  }

  function BlockMoveTo(first: int, last: int, direction: int): int {
    if direction > 0 then first else last
  }

  /** Moving the neighbour across shifts the whole selected block by one with
      its order intact, swaps the neighbour to the other side, and touches
      nothing else. */
  lemma BlockShifts<T>(s: seq<T>, first: int, last: int, direction: int)
    requires direction == 1 || direction == -1
    requires 0 <= first <= last < |s|
    requires 0 <= first + direction && last + direction < |s|
    ensures var m := Moved(s, BlockMoveFrom(first, last, direction), BlockMoveTo(first, last, direction));
            |m| == |s|
            && m[first + direction..last + direction + 1] == s[first..last + 1]
            && m[BlockMoveTo(first, last, direction)] == s[BlockMoveFrom(first, last, direction)]
            && (forall k :: 0 <= k < |s| && !(first <= k <= last) && k != BlockMoveFrom(first, last, direction) ==> m[k] == s[k])
  {
    var i, j := BlockMoveFrom(first, last, direction), BlockMoveTo(first, last, direction);
    var m := Moved(s, i, j);
    MovedElement(s, i, j, i);
    forall k | first <= k <= last
      ensures m[k + direction] == s[k]
    {
      MovedElement(s, i, j, k);
    }
    forall k | 0 <= k < |s| && !(first <= k <= last) && k != i
      ensures m[k] == s[k]
    {
      MovedElement(s, i, j, k);
    }
    BlockEqual(s, m, first, last, direction);
  }

  lemma BlockEqual<T>(s: seq<T>, m: seq<T>, first: int, last: int, direction: int)
    requires |m| == |s| && 0 <= first <= last < |s| && 0 <= first + direction && last + direction < |s|
    requires forall k :: first <= k <= last ==> m[k + direction] == s[k]
    ensures m[first + direction..last + direction + 1] == s[first..last + 1]
  {
    var a, b := m[first + direction..last + direction + 1], s[first..last + 1];
    forall x | 0 <= x < |a|
      ensures a[x] == b[x]
    {
      assert m[(first + x) + direction] == s[first + x];
    }
  }

  /** Selection tracking of the MOVE handler: when the moved positions are the
      ones `move_item` sends for this selection, the selection is moved along. */
  function SelectionShift(first: int, last: int, i: int, j: int): int {
    if i + 1 == first && j == last then -1
    else if i == last + 1 && j == first then 1
    else 0
  }

  /** And by no other move. */
  lemma SelectionFollowsBlock(first: int, last: int, direction: int, i: int, j: int)
    requires first <= last && (direction == 1 || direction == -1)
    ensures SelectionShift(first, last, i, j) == direction <==>
              i == BlockMoveFrom(first, last, direction) && j == BlockMoveTo(first, last, direction)
    ensures -1 <= SelectionShift(first, last, i, j) <= 1
  {
  }

  // ----- the index reported by remove(files, i0)

  /** Number of items kept among the first `t`. */
  function KeptOf(s: seq<Path>, files: set<Path>, t: nat): nat
    requires t <= |s|
  {
    |Kept(s[..t], files)|
  }

  /** The scan catches up with the running index: the first `t`, from `from` on, at
      which the index less the items kept so far is not ahead any more. */
  function CaughtUp(s: seq<Path>, files: set<Path>, i0: int, from: nat): (t: nat)
    requires from <= |s|
    ensures from <= t <= |s|
    ensures t < |s| ==> i0 <= t + KeptOf(s, files, t)
    ensures forall u :: from <= u < t ==> i0 > u + KeptOf(s, files, u)
    decreases |s| - from
  {
    if from == |s| || i0 <= from + KeptOf(s, files, from) then from else CaughtUp(s, files, i0, from + 1)
  }

  /** The running index loses one for every item kept until the scan catches up. */
  lemma {:induction false} RunningIndex(s: seq<Path>, files: set<Path>, i0: int, t: nat)
    requires t <= |s|
    ensures var c := CaughtUp(s, files, i0, 0);
            ReportedIndex(s[..t], files, i0) == i0 - KeptOf(s, files, if t < c then t else c)
    ensures CaughtUp(s, files, i0, 0) <= t < |s| ==> ReportedIndex(s[..t], files, i0) <= t
  {
    if t > 0 {
      var k := t - 1;
      RunningIndex(s, files, i0, k);
      KeptOfNext(s, files, k, i0);
      assert k < CaughtUp(s, files, i0, 0) ==> i0 > k + KeptOf(s, files, k);
    }
  }

  lemma KeptOfNext(s: seq<Path>, files: set<Path>, k: nat, i0: int)
    requires k < |s|
    ensures KeptOf(s, files, k + 1) == KeptOf(s, files, k) + if s[k] in files then 0 else 1
    ensures ReportedIndex(s[..k + 1], files, i0)
         == var r := ReportedIndex(s[..k], files, i0); if s[k] !in files && r > k then r - 1 else r
  {
    OneMoreItem(s, k, files, i0);
  }

  /** What remove(files, i0) reports, in closed form. */
  lemma ReportedIndexIs(s: seq<Path>, files: set<Path>, i0: int)
    ensures ReportedIndex(s, files, i0) == i0 - KeptOf(s, files, CaughtUp(s, files, i0, 0))
  {
    RunningIndex(s, files, i0, |s|);
    assert s[..|s|] == s;
  }

  /** The item at `i0`, or the first one behind it that is kept, goes to the place
      of the items kept in front of it.  That is the index reported exactly if as
      many items were removed in front of `i0` as are kept up to where the scan
      catches up with the running index, which loses one for each item that stays
      instead of one for each that goes. */
  lemma ReportedIndexIsRightIff(s: seq<Path>, files: set<Path>, i0: nat)
    requires i0 < |s|
    ensures ReportedIndex(s, files, i0) == KeptOf(s, files, i0) <==>
              i0 - KeptOf(s, files, i0) == KeptOf(s, files, CaughtUp(s, files, i0, 0))
  {
    ReportedIndexIs(s, files, i0);
  }

  lemma KeptItemGoesTo(s: seq<Path>, files: set<Path>, k: nat)
    requires k < |s| && s[k] !in files
    ensures KeptOf(s, files, k) < |Kept(s, files)| && Kept(s, files)[KeptOf(s, files, k)] == s[k]
  {
    OneMoreItem(s, k, files, 0);
    KeptPrefix(s, files, k + 1);
  }

  lemma {:induction false} KeptPrefix(s: seq<Path>, files: set<Path>, t: nat)
    requires t <= |s|
    ensures Kept(s[..t], files) <= Kept(s, files)
    decreases |s| - t
  {
    if t == |s| {
      assert s[..t] == s;
    } else {
      OneMoreItem(s, t, files, 0);
      KeptPrefix(s, files, t + 1);
    }
  }

  lemma ReportedIndexNoRemoval(s: seq<Path>, files: set<Path>, i0: int)
    requires forall p :: p in s ==> p !in files
    ensures var r := ReportedIndex(s, files, i0);
            if i0 <= 0 then r == i0
            else if |s| <= (i0 + 1) / 2 then r == i0 - |s| else r == i0 / 2
  {
    ReportedIndexIs(s, files, i0);
    var c := CaughtUp(s, files, i0, 0);
    KeptAll(s[..c], files);
    if 0 < c {
      KeptAll(s[..c - 1], files);
      assert i0 > c - 1 + KeptOf(s, files, c - 1);
    }
  }

  /** So an event that removes nothing leaves a valid index alone only if it is 0. */
  lemma ReportedIndexWhenNothingRemoved(s: seq<Path>, files: set<Path>, i0: int)
    requires forall p :: p in s ==> p !in files
    ensures Kept(s, files) == s
    ensures ReportedIndex(s, files, i0) == i0 <==> (i0 <= 0 || s == [])
  {
    KeptAll(s, files);
    ReportedIndexIs(s, files, i0);
    var c := CaughtUp(s, files, i0, 0);
    KeptAll(s[..c], files);
  }

  lemma {:induction false} KeptAll(s: seq<Path>, files: set<Path>)
    ensures (forall p :: p in s ==> p !in files) ==> Kept(s, files) == s
  {
    if s != [] && forall p :: p in s ==> p !in files {
      var front, last := s[..|s| - 1], s[|s| - 1];
      assert s == front + [last];
      assert last in s;
      KeptAll(front, files);
    }
  }
}
