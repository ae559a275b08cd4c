/** Which song comes next (server/server_plist.cc). */
module Scheduler {
  // Shuffle orders, repeat modes and the search for valid items.  Random numbers are
  // parameters.  A draw for the shuffle is taken from the range the algorithm asks for,
  // with the list's size excluded.

  /** A list entry; only sound files are ever played. */
  datatype Song = Song(path: string, sound: bool)

  datatype Repeat = RepeatOff | RepeatAll | RepeatOne

  datatype Options = Options(shuffle: bool, repeat_: Repeat)

  /** The list in use, the index of the current song (-1 for none), the number
      of valid items, and the shuffle order with its inverse. */
  datatype Deck = Deck(list: seq<Song>, i1: int, nv: nat, order: seq<int>, inv: seq<int>)

  predicate IsValid(list: seq<Song>, i: int) {
    0 <= i < |list| && list[i].sound
  }

  function ValidItems(list: seq<Song>): set<int> {
    set i | 0 <= i < |list| && list[i].sound
  }

  /** `order` lists every index exactly once, and `inv` says where. */
  predicate Inverse(order: seq<int>, inv: seq<int>, n: nat) {
    && |order| == |inv| == n
    && (forall k :: 0 <= k < n ==> 0 <= order[k] < n && inv[order[k]] == k)
    && (forall v :: 0 <= v < n ==> 0 <= inv[v] < n && order[inv[v]] == v)
  }

  predicate DeckOk(d: Deck) {
    && d.nv == |ValidItems(d.list)|
    && -1 <= d.i1
    && (|d.order| == |d.list| ==> Inverse(d.order, d.inv, |d.list|))
  }

  // ----- shuffling

  predicate InRange(draws: seq<nat>, n: nat) {
    |draws| == n && forall i :: 1 <= i < n ==> i <= draws[i] < n
  }

  function StartOrder(first: nat, n: nat): (r: seq<int>)
    requires first < n
    ensures |r| == n
  {
    seq(n, i => if i == 0 then first else if i > first then i else i - 1)
  }

  function SwapAt(s: seq<int>, i: nat, j: nat): (r: seq<int>)
    requires i < |s| && j < |s|
    ensures |r| == |s|
  {
    s[i := s[j]][j := s[i]]
  }

  /** The order after the first `k` rounds of swapping. */
  function Rounds(first: nat, n: nat, draws: seq<nat>, k: nat): (r: seq<int>)
    requires first < n && InRange(draws, n) && 1 <= k <= n
    ensures |r| == n
  {
    if k == 1 then StartOrder(first, n) else SwapAt(Rounds(first, n, draws, k - 1), k - 1, draws[k - 1])
  }

  function Shuffled(first: nat, n: nat, draws: seq<nat>): (r: seq<int>)
    requires first < n && InRange(draws, n)
    ensures |r| == n
  {
    Rounds(first, n, draws, n)
  }

  function StartInv(first: nat, n: nat): (r: seq<int>)
    requires first < n
    ensures Inverse(StartOrder(first, n), r, n) && StartOrder(first, n)[0] == first
  {
    seq(n, v => if v == first then 0 else if v < first then v + 1 else v)
  }

  /** The inverse, carried along through the same swaps. */
  function RoundsInv(first: nat, n: nat, draws: seq<nat>, k: nat): (r: seq<int>)
    requires first < n && InRange(draws, n) && 1 <= k <= n
    ensures Inverse(Rounds(first, n, draws, k), r, n) && Rounds(first, n, draws, k)[0] == first
  {
    if k == 1 then StartInv(first, n) else
      var o := Rounds(first, n, draws, k - 1);
      var inv := RoundsInv(first, n, draws, k - 1);
      SwapKeepsInverse(o, inv, n, k - 1, draws[k - 1]);
      inv[o[k - 1] := draws[k - 1]][o[draws[k - 1]] := k - 1]
  }

  lemma SwapKeepsInverse(o: seq<int>, inv: seq<int>, n: nat, i: nat, j: nat)
    requires Inverse(o, inv, n) && i < n && j < n
    ensures Inverse(SwapAt(o, i, j), inv[o[i] := j][o[j] := i], n)
  {
    var o', inv' := SwapAt(o, i, j), inv[o[i] := j][o[j] := i];
    forall k | 0 <= k < n
      ensures 0 <= o'[k] < n && inv'[o'[k]] == k
    {
      assert inv[o[k]] == k && inv[o[i]] == i && inv[o[j]] == j;
    }
    forall v | 0 <= v < n
      ensures 0 <= inv'[v] < n && o'[inv'[v]] == v
    {
      assert o[inv[v]] == v;
    }
  }

  /** Whatever is drawn, the shuffle is a permutation that begins with the start
      item, and comes with its inverse. */
  lemma ShuffledIsPermutation(first: nat, n: nat, draws: seq<nat>)
    requires first < n && InRange(draws, n)
    ensures Inverse(Shuffled(first, n, draws), RoundsInv(first, n, draws, n), n)
    ensures Shuffled(first, n, draws)[0] == first
  {
    var inv := RoundsInv(first, n, draws, n);
  }

  lemma InverseUnique(order: seq<int>, a: seq<int>, b: seq<int>, n: nat)
    requires Inverse(order, a, n) && |b| == n && forall k :: 0 <= k < n ==> b[order[k]] == k
    ensures a == b
  {
    forall v | 0 <= v < n
      ensures a[v] == b[v]
    {
      assert order[a[v]] == v;
    }
  }

  // ----- searching

  /** First position from `k` on whose item is valid, -1 if there is none. */
  function FirstFrom(list: seq<Song>, order: seq<int>, k: nat): (r: int)
    ensures r == -1 || k <= r < |order|
    ensures r != -1 ==> IsValid(list, order[r]) && forall x :: k <= x < r ==> !IsValid(list, order[x])
    ensures r == -1 ==> forall x :: k <= x < |order| ==> !IsValid(list, order[x])
    decreases |order| - k
  {
    if k >= |order| then -1
    else if IsValid(list, order[k]) then k
    else FirstFrom(list, order, k + 1)
  }

  /** Last position up to `k` whose item is valid, -1 if there is none. */
  function LastUpTo(list: seq<Song>, order: seq<int>, k: int): (r: int)
    requires k < |order|
    ensures r == -1 || 0 <= r <= k
    ensures r != -1 ==> IsValid(list, order[r]) && forall x :: r < x <= k ==> !IsValid(list, order[x])
    ensures r == -1 ==> forall x :: 0 <= x <= k ==> !IsValid(list, order[x])
    decreases k + 1
  {
    if k < 0 then -1
    else if IsValid(list, order[k]) then k
    else LastUpTo(list, order, k - 1)
  }

  /** The list's own order. */
  function Plain(n: nat): (r: seq<int>)
    ensures |r| == n && forall k :: 0 <= k < n ==> r[k] == k
  {
    seq(n, k => k)
  }

  /** Random numbers for one call: the item random() ends up with, and the draws
      of up to two shuffles. */
  datatype Draws = Draws(pick: nat, one: seq<nat>, two: seq<nat>)

  predicate DrawsOk(list: seq<Song>, r: Draws) {
    (ValidItems(list) != {} ==> IsValid(list, r.pick)) && InRange(r.one, |list|) && InRange(r.two, |list|)
  }

  // ----- next and prev

  function Reshuffled(d: Deck, draws: seq<nat>): (d': Deck)
    requires 0 <= d.i1 < |d.list| && InRange(draws, |d.list|)
    ensures d' == d.(order := d'.order, inv := d'.inv)
    ensures Inverse(d'.order, d'.inv, |d.list|) && d'.order[0] == d.i1
  {
    d.(order := Shuffled(d.i1, |d.list|, draws), inv := RoundsInv(d.i1, |d.list|, draws, |d.list|))
  }

  /** `q` is the next valid position behind `p`. */
  predicate NextValid(list: seq<Song>, order: seq<int>, p: int, q: int) {
    0 <= p < q < |order| && IsValid(list, order[q]) && forall x :: p < x < q ==> !IsValid(list, order[x])
  }

  predicate NoneBehind(list: seq<Song>, order: seq<int>, p: int) {
    forall x :: 0 <= p < x < |order| ==> !IsValid(list, order[x])
  }

  /** next() with Shuffle on and a valid current song. */
  function NextShuffled(d: Deck, wrap: bool, r: Draws): (res: (Deck, int))
    requires DeckOk(d) && DrawsOk(d.list, r) && IsValid(d.list, d.i1)
    ensures var (d1, i) := res;
            && d1 == d.(order := d1.order, inv := d1.inv, nv := d1.nv)
            && Inverse(d1.order, d1.inv, |d.list|)
            && (i != -1 ==> d1.nv == d.nv && IsValid(d.list, i) && NextValid(d.list, d1.order, d1.inv[d.i1], d1.inv[i]))
            && (i == -1 ==> NoneBehind(d.list, d1.order, d1.inv[d.i1]) && (!wrap ==> d1.nv == d.nv))
            && (wrap && i == -1 ==> d1.inv[d.i1] == 0 && d1.nv == 0)
  {
    var d1 := if |d.order| != |d.list| then Reshuffled(d, r.one) else d;
    var q := FirstFrom(d1.list, d1.order, d1.inv[d.i1] + 1);
    if q != -1 then (d1, d1.order[q])
    else if !wrap then (d1, -1)
    else
      var d2 := Reshuffled(d1, r.two);
      var q2 := FirstFrom(d2.list, d2.order, 1);
      assert d2.inv[d2.order[0]] == 0;
      if q2 != -1 then (d2, d2.order[q2]) else (d2.(nv := 0), -1)
  }

  /** next() without Shuffle. */
  function NextPlain(d: Deck, wrap: bool): int
    requires DeckOk(d)
  {
    var i := FirstFrom(d.list, Plain(|d.list|), d.i1 + 1);
    if i != -1 then i
    else if !wrap then -1
    else FirstFrom(d.list, Plain(|d.list|), 0)
  }

  function NextDeck(d: Deck, o: Options, force: bool, r: Draws): (Deck, int)
    requires DeckOk(d) && DrawsOk(d.list, r)
  {
    var wrap := o.repeat_ != RepeatOff || force;
    if d.nv == 0 then (d, -1)
    else if o.repeat_ == RepeatOne then
      (d, if IsValid(d.list, d.i1) then d.i1 else if o.shuffle then r.pick else FirstFrom(d.list, Plain(|d.list|), 0))
    else if !o.shuffle then (d, NextPlain(d, wrap))
    else if !IsValid(d.list, d.i1) then (d, r.pick)
    else NextShuffled(d, wrap, r)
  }

  function PrevSong(d: Deck, o: Options, r: Draws): int
    requires DeckOk(d) && DrawsOk(d.list, r) && d.i1 <= |d.list|
  {
    var n := |d.list|;
    if d.nv == 0 then -1
    else if !o.shuffle then
      var i := LastUpTo(d.list, Plain(n), d.i1 - 1);
      if i != -1 then i else LastUpTo(d.list, Plain(n), n - 1)
    else if !IsValid(d.list, d.i1) || |d.order| != n then r.pick
    else
      var q := LastUpTo(d.list, d.order, d.inv[d.i1] - 1);
      if q != -1 then d.order[q] else r.pick
  }

  // ----- facts about one call

  lemma SomeValid(list: seq<Song>)
    requires ValidItems(list) != {}
    ensures FirstFrom(list, Plain(|list|), 0) != -1
    ensures LastUpTo(list, Plain(|list|), |list| - 1) != -1
  {
    var i :| i in ValidItems(list);
    assert Plain(|list|)[i] == i;
  }

  lemma NextKeepsDeck(d: Deck, o: Options, force: bool, r: Draws)
    requires DeckOk(d) && DrawsOk(d.list, r)
    ensures var (d', i) := NextDeck(d, o, force, r);
            && d' == d.(order := d'.order, inv := d'.inv, nv := d'.nv)
            && (i == -1 || IsValid(d.list, i))
            && (|d'.order| == |d.list| ==> Inverse(d'.order, d'.inv, |d.list|))
  {
    if d.nv != 0 {
      assert ValidItems(d.list) != {};
      SomeValid(d.list);
    }
  }

  /** A lone valid song is not repeated under Shuffle: the search of a new order
      starts behind its first item, which is that song.  With a valid current
      song under Shuffle and Repeat-all, next finds nothing exactly when it is
      the only valid one (and then also spoils the count of valid items). */
  lemma LoneSongIsNotRepeated(d: Deck, force: bool, r: Draws)
    requires DeckOk(d) && DrawsOk(d.list, r) && IsValid(d.list, d.i1)
    ensures var (d', i) := NextDeck(d, Options(true, RepeatAll), force, r);
            && (i == -1 <==> d.nv == 1)
            && (d'.nv == d.nv <==> d.nv != 1)
  {
    assert d.i1 in ValidItems(d.list);
    var (d1, i) := NextShuffled(d, true, r);
    if d.nv == 1 {
      OnlyOne(ValidItems(d.list), d.i1);
      assert i != -1 ==> i in ValidItems(d.list);
    } else {
      var v := AnotherOne(ValidItems(d.list), d.i1);
      assert d1.order[d1.inv[v]] == v && d1.order[d1.inv[d.i1]] == d.i1;
    }
  }

  lemma OnlyOne(s: set<int>, x: int)
    requires |s| == 1 && x in s
    ensures s == {x}
  {
    assert |s - {x}| == 0;
  }

  lemma AnotherOne<T>(s: set<T>, x: T) returns (v: T)
    requires |s| != 1 && x in s
    ensures v in s && v != x
  {
    var rest := s - {x};
    assert |rest| == |s| - 1;
    assert rest != {};
    v :| v in rest;
  }

  // ----- the precached song

  /** Two calls of next with nothing changed in between give the same song, even
      if the first one makes a new order: the song announced for precaching is
      the song that is played. */
  lemma PrecacheIsRight(d: Deck, o: Options, a: Draws, b: Draws)
    requires DeckOk(d) && DrawsOk(d.list, a) && DrawsOk(d.list, b)
    requires o.shuffle ==> IsValid(d.list, d.i1)
    requires o.shuffle && o.repeat_ == RepeatAll ==> d.nv >= 2
    ensures var (d1, i) := NextDeck(d, o, false, a);
            DeckOk(d1) && NextDeck(d1, o, false, b) == (d1, i)
  {
    if d.nv != 0 && o.shuffle && o.repeat_ != RepeatOne {
      if o.repeat_ == RepeatAll { LoneSongIsNotRepeated(d, false, a); }
      SameSongAgain(d, o.repeat_ != RepeatOff, a, b);
    }
  }

  lemma SameSongAgain(d: Deck, wrap: bool, a: Draws, b: Draws)
    requires DeckOk(d) && DrawsOk(d.list, a) && DrawsOk(d.list, b) && IsValid(d.list, d.i1)
    requires NextShuffled(d, wrap, a).0.nv == d.nv && (wrap ==> NextShuffled(d, wrap, a).1 != -1)
    ensures var (d1, i) := NextShuffled(d, wrap, a);
            DeckOk(d1) && NextShuffled(d1, wrap, b) == (d1, i)
  {
    var (d1, i) := NextShuffled(d, wrap, a);
    assert d1.order[d1.inv[d.i1]] == d.i1;
    if i != -1 {
      assert d1.order[d1.inv[i]] == i;
      FirstIs(d.list, d1.order, d1.inv[d.i1] + 1, d1.inv[i]);
    }
  }

  lemma FirstIs(list: seq<Song>, order: seq<int>, k: nat, q: int)
    requires k <= q < |order| && IsValid(list, order[q]) && forall x :: k <= x < q ==> !IsValid(list, order[x])
    ensures FirstFrom(list, order, k) == q
  {
  }

  // ----- going back

  /** For a valid current song, unless a single song is repeated: prev after next
      returns to the song left, within an order, across the end of the list and
      right behind a new order. */
  lemma PrevUndoesNext(d: Deck, o: Options, force: bool, a: Draws, b: Draws)
    requires DeckOk(d) && DrawsOk(d.list, a) && DrawsOk(d.list, b)
    requires IsValid(d.list, d.i1) && o.repeat_ != RepeatOne
    ensures var (d1, i) := NextDeck(d, o, force, a);
            i != -1 ==> DeckOk(d1.(i1 := i)) && i <= |d.list| && PrevSong(d1.(i1 := i), o, b) == d.i1
  {
    NextKeepsDeck(d, o, force, a);
    var (d1, i) := NextDeck(d, o, force, a);
    assert d.i1 in ValidItems(d.list);
    if o.shuffle {
      PrevUndoesShuffledNext(d, o, o.repeat_ == RepeatAll || force, a, b);
    } else if i != -1 {
      LastBefore(d.list, Plain(|d.list|), d.i1, i);
    }
  }

  lemma PrevUndoesShuffledNext(d: Deck, o: Options, wrap: bool, a: Draws, b: Draws)
    requires DeckOk(d) && DrawsOk(d.list, a) && DrawsOk(d.list, b) && IsValid(d.list, d.i1) && o.shuffle
    ensures var (d1, i) := NextShuffled(d, wrap, a);
            i != -1 && DeckOk(d1.(i1 := i)) && i <= |d.list| ==> PrevSong(d1.(i1 := i), o, b) == d.i1
  {
    var (d1, i) := NextShuffled(d, wrap, a);
    if i != -1 && DeckOk(d1.(i1 := i)) && i <= |d.list| {
      PrevInOrder(d1.(i1 := i), o, d1.inv[d.i1], b);
    }
  }

  /** The valid item in front in the order is found. */
  lemma PrevInOrder(d: Deck, o: Options, p: int, b: Draws)
    requires DeckOk(d) && DrawsOk(d.list, b) && IsValid(d.list, d.i1) && o.shuffle
    requires Inverse(d.order, d.inv, |d.list|)
    requires NextValid(d.list, d.order, p, d.inv[d.i1]) && IsValid(d.list, d.order[p])
    ensures PrevSong(d, o, b) == d.order[p]
  {
    assert d.i1 in ValidItems(d.list);
    LastBefore(d.list, d.order, p, d.inv[d.i1]);
  }

  /** If no valid position lies between `p` and `q`, or none behind `p` and none
      before `q`, the search back from `q` finds `p`. */
  lemma LastBefore(list: seq<Song>, order: seq<int>, p: int, q: int)
    requires 0 <= p < |order| && 0 <= q < |order| && IsValid(list, order[p])
    ensures p < q && (forall x :: p < x < q ==> !IsValid(list, order[x])) ==> LastUpTo(list, order, q - 1) == p
    ensures (forall x :: p < x < |order| ==> !IsValid(list, order[x])) ==> LastUpTo(list, order, |order| - 1) == p
    ensures (forall x :: 0 <= x < q ==> !IsValid(list, order[x])) ==> LastUpTo(list, order, q - 1) == -1
  {
  }
}
