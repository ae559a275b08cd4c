/** What next and prev choose, mode by mode, and whole runs in list order. */
module ListOrder {
  import opened Scheduler
  import opened PlayThread
  import opened Wrappers

  // ----- one call

  /** The nearest valid item behind `at`. */
  predicate NearestBehind(list: seq<Song>, at: int, i: int) {
    at < i && IsValid(list, i) && forall v :: at < v < i ==> !IsValid(list, v)
  }

  predicate NearestBefore(list: seq<Song>, at: int, i: int) {
    i < at && IsValid(list, i) && forall v :: i < v < at ==> !IsValid(list, v)
  }

  predicate AnyBehind(list: seq<Song>, at: int) {
    exists v :: at < v < |list| && IsValid(list, v)
  }

  predicate AnyBefore(list: seq<Song>, at: int) {
    exists v :: 0 <= v < at && IsValid(list, v)
  }

  lemma SearchForward(list: seq<Song>, at: int)
    requires -1 <= at
    ensures var i := FirstFrom(list, Plain(|list|), at + 1);
            if AnyBehind(list, at) then NearestBehind(list, at, i) else i == -1
  {
    var order := Plain(|list|);
    var i := FirstFrom(list, order, at + 1);
    forall v | at < v < (if i == -1 then |list| else i)
      ensures !IsValid(list, v)
    {
      assert order[v] == v;
    }
  }

  lemma SearchBackward(list: seq<Song>, at: int)
    requires at <= |list|
    ensures var i := LastUpTo(list, Plain(|list|), at - 1);
            if AnyBefore(list, at) then NearestBefore(list, at, i) else i == -1
  {
    var order := Plain(|list|);
    var i := LastUpTo(list, order, at - 1);
    forall v | i < v < at
      ensures !IsValid(list, v)
    {
      assert v >= 0 ==> order[v] == v;
    }
  }

  lemma AnyIffCounted(list: seq<Song>)
    ensures AnyBehind(list, -1) <==> |ValidItems(list)| > 0
    ensures AnyBefore(list, |list|) <==> |ValidItems(list)| > 0
  {
    if |ValidItems(list)| > 0 {
      var i :| i in ValidItems(list);
      assert IsValid(list, i);
    }
    if AnyBehind(list, -1) {
      var v :| -1 < v < |list| && IsValid(list, v);
      assert v in ValidItems(list);
    }
    if AnyBefore(list, |list|) {
      var v :| 0 <= v < |list| && IsValid(list, v);
      assert v in ValidItems(list);
    }
  }

  /** Without Shuffle, next is the nearest valid item behind the current one; at
      the end it is the first one with Repeat-all or on demand, and else none. */
  lemma NextInList(d: Deck, o: Options, force: bool, r: Draws)
    requires DeckOk(d) && DrawsOk(d.list, r) && !o.shuffle && o.repeat_ != RepeatOne
    ensures var (d', i) := NextDeck(d, o, force, r);
            && d' == d
            && if AnyBehind(d.list, d.i1) then NearestBehind(d.list, d.i1, i)
               else if (o.repeat_ == RepeatAll || force) && AnyBehind(d.list, -1) then NearestBehind(d.list, -1, i)
               else i == -1
  {
    SearchForward(d.list, d.i1);
    SearchForward(d.list, -1);
    AnyIffCounted(d.list);
    if AnyBehind(d.list, d.i1) {
      var v :| d.i1 < v < |d.list| && IsValid(d.list, v);
      assert AnyBehind(d.list, -1);
    }
  }

  /** With Repeat-one next stays on a valid current song; without one it is drawn
      under Shuffle and else the first. */
  lemma NextRepeatsOne(d: Deck, o: Options, force: bool, r: Draws)
    requires DeckOk(d) && DrawsOk(d.list, r) && o.repeat_ == RepeatOne
    ensures var (d', i) := NextDeck(d, o, force, r);
            && d' == d
            && if !AnyBehind(d.list, -1) then i == -1
               else if IsValid(d.list, d.i1) then i == d.i1
               else if o.shuffle then i == r.pick
               else NearestBehind(d.list, -1, i)
  {
    SearchForward(d.list, -1);
    AnyIffCounted(d.list);
  }

  /** Under Shuffle next is the nearest valid item behind the current one in the
      order in use, or in one just made if there is none that fits the list; at
      the end of an order with Repeat-all or on demand it is that in a new order
      that begins with the current song, and else none.  Without a valid current
      song it is drawn. */
  lemma NextInOrder(d: Deck, o: Options, force: bool, r: Draws)
    requires DeckOk(d) && DrawsOk(d.list, r) && o.shuffle && o.repeat_ != RepeatOne && d.nv > 0
    ensures var (d', i) := NextDeck(d, o, force, r);
            if !IsValid(d.list, d.i1) then (d', i) == (d, r.pick)
            else
              var d1 := if |d.order| != |d.list| then Reshuffled(d, r.one) else d;
              var p := d1.inv[d.i1];
              if !NoneBehind(d.list, d1.order, p) then d' == d1 && IsValid(d.list, i) && NextValid(d.list, d1.order, p, d1.inv[i])
              else if o.repeat_ == RepeatOff && !force then (d', i) == (d1, -1)
              else
                var d2 := Reshuffled(d1, r.two);
                && d2.inv[d.i1] == 0 && d'.order == d2.order && d'.inv == d2.inv
                && if NoneBehind(d.list, d2.order, 0) then i == -1
                   else IsValid(d.list, i) && NextValid(d.list, d2.order, 0, d2.inv[i])
  {
    if IsValid(d.list, d.i1) {
      var d1 := if |d.order| != |d.list| then Reshuffled(d, r.one) else d;
      var d2 := Reshuffled(d1, r.two);
      assert d2.inv[d2.order[0]] == 0;
      OrderSearch(d.list, d1.order, d1.inv, d1.inv[d.i1]);
      OrderSearch(d.list, d2.order, d2.inv, 0);
    }
  }

  lemma OrderSearch(list: seq<Song>, order: seq<int>, inv: seq<int>, p: nat)
    requires Inverse(order, inv, |list|) && p < |order|
    ensures var q := FirstFrom(list, order, p + 1);
            if NoneBehind(list, order, p) then q == -1
            else p < q < |order| && inv[order[q]] == q && NextValid(list, order, p, q)
  {
  }

  /** Without Shuffle, prev is the nearest valid item before the current one, and
      at the front of the list the last one. */
  lemma PrevInList(d: Deck, o: Options, r: Draws)
    requires DeckOk(d) && DrawsOk(d.list, r) && d.i1 <= |d.list| && !o.shuffle
    ensures var i := PrevSong(d, o, r);
            if AnyBefore(d.list, d.i1) then NearestBefore(d.list, d.i1, i)
            else if AnyBefore(d.list, |d.list|) then NearestBefore(d.list, |d.list|, i)
            else i == -1
  {
    SearchBackward(d.list, d.i1);
    SearchBackward(d.list, |d.list|);
    AnyIffCounted(d.list);
    if AnyBefore(d.list, d.i1) {
      var v :| 0 <= v < d.i1 && IsValid(d.list, v);
      assert AnyBefore(d.list, |d.list|);
    }
  }

  /** Under Shuffle, prev is the nearest valid item before the current one in the
      order in use; without such an item, order or valid current song it is
      drawn. */
  lemma PrevInOrder(d: Deck, o: Options, r: Draws)
    requires DeckOk(d) && DrawsOk(d.list, r) && d.i1 <= |d.list| && o.shuffle && d.nv > 0
    ensures var i := PrevSong(d, o, r);
            if !IsValid(d.list, d.i1) || |d.order| != |d.list| || NoneBefore(d.list, d.order, d.inv[d.i1]) then i == r.pick
            else IsValid(d.list, i) && NextValid(d.list, d.order, d.inv[i], d.inv[d.i1])
  {
    if IsValid(d.list, d.i1) && |d.order| == |d.list| {
      var q := LastUpTo(d.list, d.order, d.inv[d.i1] - 1);
      if q != -1 { assert d.inv[d.order[q]] == q; }
      assert d.order[d.inv[d.i1]] == d.i1;
    }
  }

  predicate NoneBefore(list: seq<Song>, order: seq<int>, p: int) {
    forall x :: 0 <= x < p && p <= |order| ==> !IsValid(list, order[x])
  }

  // ----- runs in list order

  /** All valid items, in the order of the list. */
  function InListOrder(list: seq<Song>): seq<int> {
    Songs(list, Plain(|list|))
  }

  ghost predicate Ascending(s: seq<int>) {
    forall j, k :: 0 <= j < k < |s| ==> s[j] < s[k]
  }

  lemma {:induction false} SongsAscend(list: seq<Song>, k: nat)
    requires k <= |list|
    ensures var s := Songs(list, Plain(|list|)[..k]);
            Ascending(s) && forall v :: v in s <==> v < k && IsValid(list, v)
  {
    if k > 0 {
      SongsAscend(list, k - 1);
      var order := Plain(|list|)[..k];
      assert order[..k - 1] == Plain(|list|)[..k - 1];
      assert order[k - 1] == k - 1;
      var front := Songs(list, order[..k - 1]);
      assert forall j :: 0 <= j < |front| ==> front[j] in front;
    } else {
      assert Plain(|list|)[..0] == [];
    }
  }

  lemma IndexOrder(s: seq<int>, j: nat, k: nat)
    requires Ascending(s) && j < |s| && k < |s|
    ensures s[j] < s[k] <==> j < k
  {
    if k < j { assert s[k] < s[j]; }
  }

  lemma ListOrderIs(list: seq<Song>)
    ensures Ascending(InListOrder(list)) && forall v :: v in InListOrder(list) <==> IsValid(list, v)
  {
    SongsAscend(list, |list|);
    assert Plain(|list|)[..|list|] == Plain(|list|);
  }

  /** Of the items that play in list order, `i` is number `j`. */
  predicate Number(list: seq<Song>, i: int, j: int) {
    0 <= j < |InListOrder(list)| && InListOrder(list)[j] == i
  }

  lemma NumberIsValid(list: seq<Song>, i: int, j: int)
    requires Number(list, i, j)
    ensures IsValid(list, i)
  {
    ListOrderIs(list);
    assert InListOrder(list)[j] in InListOrder(list);
  }

  lemma NumberOf(list: seq<Song>, i: int) returns (j: nat)
    requires IsValid(list, i)
    ensures Number(list, i, j)
  {
    ListOrderIs(list);
    assert i in InListOrder(list);
    j :| 0 <= j < |InListOrder(list)| && InListOrder(list)[j] == i;
  }

  /** The nearest valid item behind number `j` is number `j+1`. */
  lemma NextNumber(list: seq<Song>, at: int, j: int)
    requires -1 <= j < |InListOrder(list)| && at == (if j == -1 then -1 else InListOrder(list)[j])
    ensures AnyBehind(list, at) <==> j + 1 < |InListOrder(list)|
    ensures forall i :: NearestBehind(list, at, i) ==> Number(list, i, j + 1)
  {
    var s := InListOrder(list);
    ListOrderIs(list);
    if j + 1 < |s| {
      assert s[j + 1] in s;
      assert at < s[j + 1] < |list| && IsValid(list, s[j + 1]);
    }
    forall i | AnyOf(list, at, i)
      ensures j + 1 < |s| && s[j + 1] <= i
    {
      assert i in s;
      var k :| 0 <= k < |s| && s[k] == i;
      if j >= 0 { IndexOrder(s, j, k); }
      IndexOrder(s, k, j + 1);
    }
    assert AnyBehind(list, at) ==> exists v :: AnyOf(list, at, v) by {
      if AnyBehind(list, at) {
        var v :| at < v < |list| && IsValid(list, v);
        assert AnyOf(list, at, v);
      }
    }
    forall i | NearestBehind(list, at, i)
      ensures Number(list, i, j + 1)
    {
      assert AnyOf(list, at, i);
    }
  }

  predicate AnyOf(list: seq<Song>, at: int, i: int) {
    at < i && IsValid(list, i)
  }

  /** One round of the play thread in which a song is played to its end. */
  lemma ListRound(d: Deck, o: Options, r: (Draws, Draws), j: nat)
    requires DeckOk(d) && DrawsOk(d.list, r.0) && DrawsOk(d.list, r.1) && !o.shuffle && o.repeat_ != RepeatOne
    requires Number(d.list, d.i1, j)
    ensures var d' := RoundOrStop(d, o, r);
            && d' == d.(i1 := d'.i1)
            && if j + 1 < |InListOrder(d.list)| then Number(d.list, d'.i1, j + 1)
               else if o.repeat_ == RepeatAll then Number(d.list, d'.i1, 0)
               else d'.i1 == -1
  {
    NumberIsValid(d.list, d.i1, j);
    NextInList(d, o, false, r.0);
    NextInList(d, o, false, r.1);
    NextNumber(d.list, d.i1, j);
    NextNumber(d.list, -1, -1);
  }

  /** `e` is the deck `d` playing number `j`. */
  predicate PlaysNumber(d: Deck, e: Deck, j: int) {
    e == d.(i1 := e.i1) && Number(d.list, e.i1, j)
  }

  lemma PlaysOn(d: Deck, e: Deck, o: Options, r: (Draws, Draws), j: nat)
    requires DeckOk(d) && DrawsOk(d.list, r.0) && DrawsOk(d.list, r.1) && !o.shuffle && o.repeat_ != RepeatOne
    requires PlaysNumber(d, e, j)
    ensures var e', m := RoundOrStop(e, o, r), |InListOrder(d.list)|;
            && (j + 1 < m ==> PlaysNumber(d, e', j + 1))
            && (j + 1 == m && o.repeat_ == RepeatAll ==> PlaysNumber(d, e', 0))
            && (j + 1 == m && o.repeat_ == RepeatOff ==> e'.i1 == -1)
  {
    NumberIsValid(d.list, e.i1, j);
    ListRound(e, o, r, j);
  }

  lemma RunNext(run: nat -> Deck, d: Deck, o: Options, rnd: nat -> (Draws, Draws), t: nat)
    requires GoodDraws(d.list, rnd) && IsRunOf(run, d, o, rnd)
    ensures run(0) == d && run(t + 1) == RoundOrStop(run(t), o, rnd(t))
    ensures DrawsOk(d.list, rnd(t).0) && DrawsOk(d.list, rnd(t).1)
  {
    assert run(0) == DeckAt(d, o, rnd, 0) && run(t) == DeckAt(d, o, rnd, t) && run(t + 1) == DeckAt(d, o, rnd, t + 1);
    DeckStep(d, o, rnd, t);
  }

  lemma {:induction false} UpToEnd(run: nat -> Deck, d: Deck, o: Options, rnd: nat -> (Draws, Draws), j: nat, t: nat)
    requires DeckOk(d) && GoodDraws(d.list, rnd) && IsRunOf(run, d, o, rnd) && !o.shuffle && o.repeat_ != RepeatOne
    requires Number(d.list, d.i1, j) && j + t < |InListOrder(d.list)|
    ensures PlaysNumber(d, run(t), j + t)
  {
    if t > 0 {
      UpToEnd(run, d, o, rnd, j, t - 1);
      RunNext(run, d, o, rnd, t - 1);
      PlaysOn(d, run(t - 1), o, rnd(t - 1), j + t - 1);
    } else {
      RunNext(run, d, o, rnd, 0);
    }
  }

  /** With Repeat off and without Shuffle the valid items are played in the order
      of the list, from the start item on, and then playing stops. */
  lemma ListIsPlayed(run: nat -> Deck, d: Deck, rnd: nat -> (Draws, Draws)) returns (songs: seq<int>)
    requires DeckOk(d) && IsValid(d.list, d.i1) && GoodDraws(d.list, rnd) && IsRunOf(run, d, Options(false, RepeatOff), rnd)
    ensures Ascending(songs) && forall v :: v in songs <==> IsValid(d.list, v) && v >= d.i1
    ensures Plays(run, 0, songs) && run(|songs|).i1 == -1
  {
    var o, all := Options(false, RepeatOff), InListOrder(d.list);
    ListOrderIs(d.list);
    var j := NumberOf(d.list, d.i1);
    songs := all[j..];
    TailIs(all, j);
    forall t | 0 <= t < |songs|
      ensures run(0 + t).i1 == songs[t]
    {
      UpToEnd(run, d, o, rnd, j, t);
    }
    var last := |songs| - 1;
    UpToEnd(run, d, o, rnd, j, last);
    RunNext(run, d, o, rnd, last);
    PlaysOn(d, run(last), o, rnd(last), j + last);
  }

  lemma TailIs(s: seq<int>, j: nat)
    requires Ascending(s) && j < |s|
    ensures Ascending(s[j..]) && forall v :: v in s[j..] <==> v in s && v >= s[j]
  {
    forall v | v in s && v >= s[j]
      ensures v in s[j..]
    {
      var k :| 0 <= k < |s| && s[k] == v;
      IndexOrder(s, k, j);
      assert s[j..][k - j] == v;
    }
    forall v | v in s[j..]
      ensures v in s && v >= s[j]
    {
      var k :| 0 <= k < |s| - j && s[j..][k] == v;
      assert s[j + k] == v;
    }
  }

  /** Position `j` and `t` steps on, round a circle of `m`. */
  function Around(j: nat, t: nat, m: nat): nat
    requires j < m
    decreases t
  {
    if t == 0 then j else if j + 1 < m then Around(j + 1, t - 1, m) else Around(0, t - 1, m)
  }

  lemma {:induction false} AroundLast(j: nat, t: nat, m: nat)
    requires j < m
    ensures var k := Around(j, t, m); k < m && Around(j, t + 1, m) == if k + 1 < m then k + 1 else 0
    decreases t
  {
    if t > 0 { AroundLast(if j + 1 < m then j + 1 else 0, t - 1, m); }
  }

  lemma {:induction false} AroundIsModulo(j: nat, t: nat, m: nat)
    requires j < m
    ensures Around(j, t, m) == (j + t) % m
    decreases t
  {
    if t > 0 {
      if j + 1 < m { AroundIsModulo(j + 1, t - 1, m); } else {
        AroundIsModulo(0, t - 1, m);
        OneTurn(t - 1, m);
      }
    }
  }

  lemma OneTurn(t: nat, m: nat)
    requires m > 0
    ensures (m + t) % m == t % m
  {
    var q, r := t / m, t % m;
    assert m + t == (q + 1) * m + r;
    var q', r' := (m + t) / m, (m + t) % m;
    assert (q' - (q + 1)) * m == r - r';
    AtLeast(q' - (q + 1), m);
  }

  lemma {:induction false} RoundAndRound(run: nat -> Deck, d: Deck, rnd: nat -> (Draws, Draws), j: nat, t: nat)
    requires DeckOk(d) && GoodDraws(d.list, rnd) && IsRunOf(run, d, Options(false, RepeatAll), rnd) && Number(d.list, d.i1, j)
    ensures PlaysNumber(d, run(t), Around(j, t, |InListOrder(d.list)|))
  {
    var o, m := Options(false, RepeatAll), |InListOrder(d.list)|;
    if t > 0 {
      RoundAndRound(run, d, rnd, j, t - 1);
      RunNext(run, d, o, rnd, t - 1);
      AroundLast(j, t - 1, m);
      PlaysOn(d, run(t - 1), o, rnd(t - 1), Around(j, t - 1, m));
    } else {
      RunNext(run, d, o, rnd, 0);
    }
  }

  /** With Repeat-all and without Shuffle the valid items are played in the order
      of the list, from the start item on, round and round: a lone one too. */
  lemma ListGoesRound(run: nat -> Deck, d: Deck, rnd: nat -> (Draws, Draws)) returns (songs: seq<int>, j: nat)
    requires DeckOk(d) && IsValid(d.list, d.i1) && GoodDraws(d.list, rnd) && IsRunOf(run, d, Options(false, RepeatAll), rnd)
    ensures Ascending(songs) && forall v :: v in songs <==> IsValid(d.list, v)
    ensures j < |songs| && songs[j] == d.i1
    ensures forall t: nat {:trigger run(t)} :: run(t).i1 == songs[(j + t) % |songs|]
  {
    songs := InListOrder(d.list);
    ListOrderIs(d.list);
    j := NumberOf(d.list, d.i1);
    forall t: nat
      ensures run(t).i1 == songs[(j + t) % |songs|]
    {
      RoundAndRound(run, d, rnd, j, t);
      AroundIsModulo(j, t, |songs|);
    }
  }

  /** With Repeat-one a valid song is played over and over. */
  lemma {:induction false} OneSongRepeats(run: nat -> Deck, d: Deck, shuffle: bool, rnd: nat -> (Draws, Draws), t: nat)
    requires DeckOk(d) && IsValid(d.list, d.i1) && GoodDraws(d.list, rnd) && IsRunOf(run, d, Options(shuffle, RepeatOne), rnd)
    ensures run(t) == d
  {
    var o := Options(shuffle, RepeatOne);
    if t > 0 {
      OneSongRepeats(run, d, shuffle, rnd, t - 1);
      RunNext(run, d, o, rnd, t - 1);
      assert d.i1 in ValidItems(d.list);
    } else {
      RunNext(run, d, o, rnd, 0);
    }
  }

  // ----- the keys

  /** The key for next goes on where the end of a song would, and at the end of the
      list or order, where that would stop, starts over; the key for stop stops. */
  lemma NextAndStopKeys(d: Deck, o: Options, a: Draws, b: Draws)
    requires RoundOk(d, o, a, b)
    ensures var d1 := NextDeck(d, o, false, a).0;
            && PlayRound(d, o, Finished, a, b).i1 == NextDeck(d1, o, false, b).1
            && PlayRound(d, o, PressNext, a, b).i1 == NextDeck(d1, o, true, b).1
            && (NextDeck(d1, o, false, b).1 != -1 ==> PlayRound(d, o, PressNext, a, b) == PlayRound(d, o, Finished, a, b))
    ensures PlayRound(d, o, PressNext, a, b).i1 == -1 ==> PlayRound(d, o, Finished, a, b).i1 == -1
    ensures PlayRound(d, o, PressStop, a, b).i1 == -1
    ensures !o.shuffle && o.repeat_ != RepeatOne && d.nv > 0 ==> PlayRound(d, o, PressNext, a, b).i1 != -1
  {
    NextKeepsDeck(d, o, false, a);
    if !o.shuffle && o.repeat_ != RepeatOne {
      NextInList(d, o, false, a);
      NextInList(d, o, true, b);
      AnyIffCounted(d.list);
    }
  }

  /** The key for prev, pressed while the song that followed another is playing,
      goes back to that one: always without Shuffle, and with it unless asking
      for the song to precache has already made a new order.  In that case the
      song is drawn. */
  lemma PrevKeyGoesBack(d: Deck, o: Options, force: bool, a: Draws, b: Draws, c: Draws)
    requires DeckOk(d) && DrawsOk(d.list, a) && DrawsOk(d.list, b) && DrawsOk(d.list, c)
    requires IsValid(d.list, d.i1) && o.repeat_ != RepeatOne && NextDeck(d, o, force, a).1 != -1
    ensures var (d1, i) := NextDeck(d, o, force, a);
            var e := d1.(i1 := i);
            RoundOk(e, o, b, c) ==>
              PlayRound(e, o, PressPrev, b, c).i1 ==
              if o.shuffle && o.repeat_ == RepeatAll && NoneBehind(e.list, e.order, e.inv[i]) then c.pick else d.i1
  {
    var (d1, i) := NextDeck(d, o, force, a);
    NextKeepsDeck(d, o, force, a);
    PrevUndoesNext(d, o, force, a, c);
    var e := d1.(i1 := i);
    if RoundOk(e, o, b, c) {
      if o.shuffle {
        PrevKeyUnderShuffle(e, o, b, c);
      } else {
        NextInList(e, o, false, b);
      }
    }
  }

  lemma PrevKeyUnderShuffle(e: Deck, o: Options, b: Draws, c: Draws)
    requires RoundOk(e, o, b, c) && o.shuffle && o.repeat_ != RepeatOne && IsValid(e.list, e.i1) && |e.order| == |e.list|
    ensures PlayRound(e, o, PressPrev, b, c).i1 ==
            if o.repeat_ == RepeatAll && NoneBehind(e.list, e.order, e.inv[e.i1]) then c.pick else PrevSong(e, o, c)
  {
    assert e.i1 in ValidItems(e.list);
    NextInOrder(e, o, false, b);
    var e1 := NextDeck(e, o, false, b).0;
    NextKeepsDeck(e, o, false, b);
    if o.repeat_ == RepeatAll && NoneBehind(e.list, e.order, e.inv[e.i1]) {
      assert e1.inv[e1.i1] == 0;
      assert LastUpTo(e1.list, e1.order, -1) == -1;
    } else {
      assert e1 == e;
    }
  }
}
