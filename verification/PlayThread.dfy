/** The play thread (server/audio.cc) driving the scheduler. */
module PlayThread {
  import opened Scheduler

  // Whole runs of songs played to their end.

  /** What ended the playing of a song. */
  datatype Request = Finished | PressNext | PressPrev | PressStop

  /** One round of the play thread: next() is asked for a song to precache, then
      the song is played, then the request is served.  The result's `i1` is the
      song of the next round. */
  function PlayRound(d: Deck, o: Options, req: Request, a: Draws, b: Draws): Deck
    requires DeckOk(d) && d.i1 <= |d.list| && DrawsOk(d.list, a) && DrawsOk(d.list, b)
    requires DeckOk(NextDeck(d, o, false, a).0)
  {
    var d1 := NextDeck(d, o, false, a).0;
    match req
    case PressStop => d1.(i1 := -1, order := [], inv := [])
    case PressPrev => NextKeepsDeck(d, o, false, a); d1.(i1 := PrevSong(d1, o, b))
    case PressNext => NextKeepsDeck(d, o, false, a); var (d2, i) := NextDeck(d1, o, true, b); d2.(i1 := i)
    case Finished => NextKeepsDeck(d, o, false, a); var (d2, i) := NextDeck(d1, o, false, b); d2.(i1 := i)
  }

  /** The valid items in the order they are played. */
  function Songs(list: seq<Song>, order: seq<int>): seq<int> {
    if order == [] then []
    else
      var n := |order| - 1;
      Songs(list, order[..n]) + (if IsValid(list, order[n]) then [order[n]] else [])
  }

  predicate Distinct(s: seq<int>) {
    forall j, k :: 0 <= j < k < |s| ==> s[j] != s[k]
  }

  /** `s` lists every valid item exactly once. */
  ghost predicate EveryValidOnce(list: seq<Song>, s: seq<int>) {
    Distinct(s) && forall v :: v in s <==> v in ValidItems(list)
  }

  lemma {:induction false} SongsMembers(list: seq<Song>, order: seq<int>)
    ensures Distinct(order) ==> Distinct(Songs(list, order))
    ensures forall v :: v in Songs(list, order) <==> v in order && IsValid(list, v)
  {
    if order != [] {
      var n := |order| - 1;
      SongsMembers(list, order[..n]);
      assert order == order[..n] + [order[n]];
    }
  }

  lemma {:induction false} DistinctCount(s: seq<int>)
    ensures Distinct(s) ==> |set x | x in s| == |s|
  {
    if s != [] && Distinct(s) {
      var n := |s| - 1;
      DistinctCount(s[..n]);
      var front := set x | x in s[..n];
      assert (set x | x in s) == front + {s[n]};
    }
  }

  lemma SongsAreValidItems(list: seq<Song>, order: seq<int>, inv: seq<int>)
    requires Inverse(order, inv, |list|)
    ensures EveryValidOnce(list, Songs(list, order)) && |Songs(list, order)| == |ValidItems(list)|
  {
    forall j, k | 0 <= j < k < |order|
      ensures order[j] != order[k]
    {
      assert inv[order[j]] == j && inv[order[k]] == k;
    }
    SongsMembers(list, order);
    forall v | v in ValidItems(list)
      ensures v in order
    {
      assert order[inv[v]] == v;
    }
    DistinctCount(Songs(list, order));
    assert (set x | x in Songs(list, order)) == ValidItems(list);
  }

  /** How many valid items stand before position `p`. */
  function Rank(list: seq<Song>, order: seq<int>, p: nat): nat
    requires p <= |order|
  {
    |Songs(list, order[..p])|
  }

  lemma {:induction false} RankOfNext(list: seq<Song>, order: seq<int>, p: nat, q: nat)
    requires p < q <= |order| && IsValid(list, order[p])
    requires forall x :: p < x < q ==> !IsValid(list, order[x])
    ensures Songs(list, order[..q]) == Songs(list, order[..p]) + [order[p]]
    decreases q
  {
    assert order[..q][..q - 1] == order[..q - 1];
    if q - 1 > p { RankOfNext(list, order, p, q - 1); }
  }

  lemma {:induction false} SongsPrefix(list: seq<Song>, order: seq<int>, q: nat)
    requires q <= |order|
    ensures Songs(list, order[..q]) <= Songs(list, order)
    decreases |order| - q
  {
    if q < |order| {
      SongsPrefix(list, order, q + 1);
      assert order[..q + 1][..q] == order[..q];
    } else {
      assert order[..q] == order;
    }
  }

  /** A song that is not the last: the next valid position holds the next song. */
  lemma SongBehind(list: seq<Song>, order: seq<int>, p: nat, q: nat)
    requires NextValid(list, order, p, q) && IsValid(list, order[p])
    ensures Rank(list, order, q) == Rank(list, order, p) + 1
    ensures Rank(list, order, q) < |Songs(list, order)| && Songs(list, order)[Rank(list, order, q)] == order[q]
  {
    RankOfNext(list, order, p, q);
    SongAtRank(list, order, q);
  }

  lemma SongAtRank(list: seq<Song>, order: seq<int>, p: nat)
    requires p < |order| && IsValid(list, order[p])
    ensures Rank(list, order, p) < |Songs(list, order)| && Songs(list, order)[Rank(list, order, p)] == order[p]
  {
    RankOfNext(list, order, p, p + 1);
    SongsPrefix(list, order, p + 1);
  }

  lemma LastSong(list: seq<Song>, order: seq<int>, p: nat)
    requires p < |order| && IsValid(list, order[p]) && NoneBehind(list, order, p)
    ensures Rank(list, order, p) + 1 == |Songs(list, order)|
  {
    RankOfNext(list, order, p, |order|);
    assert order[..|order|] == order;
  }

  // ----- whole runs under Shuffle

  /** The deck is playing song number `j` of the order `order`. */
  predicate Playing(d: Deck, order: seq<int>, j: nat) {
    && DeckOk(d) && IsValid(d.list, d.i1)
    && d.order == order && |order| == |d.list|
    && Rank(d.list, order, d.inv[d.i1]) == j
  }

  lemma PlayingSong(d: Deck, order: seq<int>, j: nat)
    requires Playing(d, order, j)
    ensures j < |Songs(d.list, order)| == d.nv && Songs(d.list, order)[j] == d.i1
    ensures EveryValidOnce(d.list, Songs(d.list, order))
  {
    SongsAreValidItems(d.list, order, d.inv);
    assert order[d.inv[d.i1]] == d.i1;
    SongAtRank(d.list, order, d.inv[d.i1]);
  }

  predicate RoundOk(d: Deck, o: Options, a: Draws, b: Draws) {
    && DeckOk(d) && d.i1 <= |d.list| && DrawsOk(d.list, a) && DrawsOk(d.list, b)
    && DeckOk(NextDeck(d, o, false, a).0)
  }

  /** Within an order the next song follows. */
  lemma PlayOn(d: Deck, o: Options, order: seq<int>, j: nat, a: Draws, b: Draws)
    requires Playing(d, order, j) && j + 1 < d.nv && DrawsOk(d.list, a) && DrawsOk(d.list, b)
    requires o.shuffle && o.repeat_ != RepeatOne
    ensures RoundOk(d, o, a, b)
    ensures var d' := PlayRound(d, o, Finished, a, b); d'.list == d.list && Playing(d', order, j + 1)
  {
    PlayingSong(d, order, j);
    PrecacheIsRight(d, o, a, b);
    var (d1, i) := NextShuffled(d, o.repeat_ != RepeatOff, a);
    assert d.order[d.inv[d.i1]] == d.i1;
    if NoneBehind(d.list, order, d.inv[d.i1]) {
      LastSong(d.list, order, d.inv[d.i1]);
    }
    assert FirstFrom(d.list, order, d.inv[d.i1] + 1) != -1;
    assert d1 == d;
    assert order[d.inv[i]] == i;
    SongBehind(d.list, order, d.inv[d.i1], d.inv[i]);
  }

  /** At the end of the order: silence with Repeat off; a new order that begins
      with the song just played, and its second song, with Repeat-all. */
  lemma PlayEnd(d: Deck, o: Options, order: seq<int>, j: nat, a: Draws, b: Draws)
    requires Playing(d, order, j) && j + 1 == d.nv && DrawsOk(d.list, a) && DrawsOk(d.list, b)
    requires o.shuffle && o.repeat_ != RepeatOne && (o.repeat_ == RepeatAll ==> d.nv >= 2)
    ensures RoundOk(d, o, a, b)
    ensures var d' := PlayRound(d, o, Finished, a, b);
            && d'.list == d.list && DeckOk(d')
            && (o.repeat_ == RepeatOff ==> d'.i1 == -1)
            && (o.repeat_ == RepeatAll ==> Playing(d', d'.order, 1) && [d.i1] <= Songs(d.list, d'.order))
  {
    PlayingSong(d, order, j);
    PrecacheIsRight(d, o, a, b);
    var (d1, i) := NextShuffled(d, o.repeat_ != RepeatOff, a);
    var p := d.inv[d.i1];
    assert order[p] == d.i1;
    var q := FirstFrom(d.list, order, p + 1);
    if q != -1 { SongBehind(d.list, order, p, q); }
    assert q == -1;
    if o.repeat_ == RepeatAll {
      LoneSongIsNotRepeated(d, false, a);
      assert d1.order[0] == d.i1 && d1.inv[d1.order[0]] == 0;
      assert d1.order[d1.inv[i]] == i;
      SongBehind(d.list, d1.order, 0, d1.inv[i]);
      SongAtRank(d.list, d1.order, 0);
    }
  }

  /** The deck after `k` rounds in which every song was played to its end; a
      stopped deck stays as it is.  Round `k` uses the random numbers `rnd(k)`. */
  ghost function DeckAt(d: Deck, o: Options, rnd: nat -> (Draws, Draws), k: nat): Deck {
    if k == 0 then d else RoundOrStop(DeckAt(d, o, rnd, k - 1), o, rnd(k - 1))
  }

  function RoundOrStop(d: Deck, o: Options, r: (Draws, Draws)): Deck {
    if d.i1 == -1 || !RoundOk(d, o, r.0, r.1) then d else PlayRound(d, o, Finished, r.0, r.1)
  }

  ghost predicate GoodDraws(list: seq<Song>, rnd: nat -> (Draws, Draws)) {
    forall k: nat :: DrawsOk(list, rnd(k).0) && DrawsOk(list, rnd(k).1)
  }

  /** play(list, i) has been called with a valid item: the order is still to be
      made, or begins with the current song. */
  predicate Started(d: Deck) {
    DeckOk(d) && IsValid(d.list, d.i1) && (|d.order| == |d.list| ==> d.order[0] == d.i1)
  }

  /** The order in use for the first songs. */
  function FirstOrder(d: Deck, r: Draws): Deck
    requires Started(d) && DrawsOk(d.list, r)
  {
    if |d.order| != |d.list| then Reshuffled(d, r.one) else d
  }

  /** Making the order before the first round or during it is the same. */
  lemma FirstRound(d: Deck, o: Options, a: Draws, b: Draws)
    requires Started(d) && DrawsOk(d.list, a) && DrawsOk(d.list, b) && o.shuffle && o.repeat_ != RepeatOne
    ensures var e := FirstOrder(d, a);
            && Playing(e, e.order, 0)
            && (RoundOk(e, o, a, b) <==> RoundOk(d, o, a, b))
            && (RoundOk(d, o, a, b) ==> PlayRound(e, o, Finished, a, b) == PlayRound(d, o, Finished, a, b))
  {
    var e := FirstOrder(d, a);
    assert e.inv[e.order[0]] == 0;
    assert e.order[..0] == [];
    assert d.i1 in ValidItems(d.list);
    assert NextShuffled(d, o.repeat_ != RepeatOff, a) == NextShuffled(e, o.repeat_ != RepeatOff, a);
  }

  lemma {:induction false} SameRun(d: Deck, e: Deck, o: Options, rnd: nat -> (Draws, Draws), k: nat)
    requires RoundOrStop(d, o, rnd(0)) == RoundOrStop(e, o, rnd(0)) && k >= 1
    ensures DeckAt(d, o, rnd, k) == DeckAt(e, o, rnd, k)
  {
    if k == 1 {
      assert DeckAt(d, o, rnd, 0) == d && DeckAt(e, o, rnd, 0) == e;
    } else {
      SameRun(d, e, o, rnd, k - 1);
    }
  }

  /** The deck of a list with `m` valid items plays song `j` of `order`. */
  predicate PlayingIn(list: seq<Song>, m: nat, d: Deck, order: seq<int>, j: nat) {
    d.list == list && d.nv == m && Playing(d, order, j)
  }

  /** What follows when the last song of an order has been played. */
  predicate OrderEnds(o: Options, list: seq<Song>, m: nat, d: Deck, d': Deck) {
    && (o.repeat_ == RepeatOff ==> d'.i1 == -1)
    && (o.repeat_ == RepeatAll && m >= 2 ==> PlayingIn(list, m, d', d'.order, 1) && [d.i1] <= Songs(list, d'.order))
  }

  /** A run of decks that goes through its orders song by song. */
  ghost predicate ShuffleRun(run: nat -> Deck, o: Options, list: seq<Song>, m: nat) {
    forall t: nat, t': nat, order, j: nat {:trigger Follows(o, list, m, run(t), run(t'), order, j)} ::
      t' == t + 1 && PlayingIn(list, m, run(t), order, j) ==> Follows(o, list, m, run(t), run(t'), order, j)
  }

  predicate Follows(o: Options, list: seq<Song>, m: nat, d: Deck, d': Deck, order: seq<int>, j: nat) {
    if j + 1 < m then PlayingIn(list, m, d', order, j + 1) else OrderEnds(o, list, m, d, d')
  }

  lemma DeckStep(e: Deck, o: Options, rnd: nat -> (Draws, Draws), t: nat)
    ensures DeckAt(e, o, rnd, t + 1) == RoundOrStop(DeckAt(e, o, rnd, t), o, rnd(t))
  {
  }

  lemma RoundGoesOn(d: Deck, d': Deck, o: Options, r: (Draws, Draws), list: seq<Song>, m: nat, order: seq<int>, j: nat)
    requires DrawsOk(list, r.0) && DrawsOk(list, r.1)
    requires o.shuffle && o.repeat_ != RepeatOne && (o.repeat_ == RepeatAll ==> m >= 2)
    requires PlayingIn(list, m, d, order, j) && d' == RoundOrStop(d, o, r)
    ensures Follows(o, list, m, d, d', order, j)
  {
    PlayingSong(d, order, j);
    if j + 1 < m { PlayOn(d, o, order, j, r.0, r.1); } else { PlayEnd(d, o, order, j, r.0, r.1); }
  }

  /** The deck of a started list, as a function of the number of songs played. */
  ghost predicate IsRunOf(run: nat -> Deck, d: Deck, o: Options, rnd: nat -> (Draws, Draws)) {
    forall k: nat {:trigger DeckAt(d, o, rnd, k)} :: run(k) == DeckAt(d, o, rnd, k)
  }

  lemma DecksAreShuffleRun(e: Deck, o: Options, rnd: nat -> (Draws, Draws), run: nat -> Deck, m: nat)
    requires GoodDraws(e.list, rnd) && o.shuffle && o.repeat_ != RepeatOne && (o.repeat_ == RepeatAll ==> m >= 2)
    requires IsRunOf(run, e, o, rnd)
    ensures ShuffleRun(run, o, e.list, m)
  {
    forall t: nat, t': nat, order, j: nat | t' == t + 1 && PlayingIn(e.list, m, run(t), order, j)
      ensures Follows(o, e.list, m, run(t), run(t'), order, j)
    {
      DeckStep(e, o, rnd, t);
      RoundGoesOn(run(t), run(t'), o, rnd(t), e.list, m, order, j);
    }
  }

  lemma RunStep(run: nat -> Deck, o: Options, list: seq<Song>, m: nat, t: nat, order: seq<int>, j: nat)
    requires ShuffleRun(run, o, list, m) && PlayingIn(list, m, run(t), order, j)
    ensures Follows(o, list, m, run(t), run(t + 1), order, j)
  {
  }

  /** From song `j0` of an order the rest of it is played, song after song. */
  lemma {:induction false} PlayOrder(run: nat -> Deck, o: Options, list: seq<Song>, m: nat, t: nat, j0: nat, j: nat, order: seq<int>)
    requires ShuffleRun(run, o, list, m) && PlayingIn(list, m, run(t), order, j0) && j0 <= j < m
    ensures PlayingIn(list, m, run(t + (j - j0)), order, j)
    decreases j
  {
    if j > j0 {
      PlayOrder(run, o, list, m, t, j0, j - 1, order);
      RunStep(run, o, list, m, t + (j - 1 - j0), order, j - 1);
      assert t + (j - 1 - j0) + 1 == t + (j - j0);
    }
  }

  /** At time `t` song 0 of `songs` is playing, and the rest of `songs` follows. */
  ghost predicate Plays(run: nat -> Deck, t: nat, songs: seq<int>) {
    forall j :: 0 <= j < |songs| ==> run(t + j).i1 == songs[j]
  }

  lemma WholeOrder(run: nat -> Deck, o: Options, list: seq<Song>, m: nat, t: nat, order: seq<int>)
    requires ShuffleRun(run, o, list, m) && PlayingIn(list, m, run(t), order, 0)
    ensures Plays(run, t, Songs(list, order)) && |Songs(list, order)| == m && EveryValidOnce(list, Songs(list, order))
    ensures m >= 1 && PlayingIn(list, m, run(t + (m - 1)), order, m - 1)
  {
    PlayingSong(run(t), order, 0);
    forall j | 0 <= j < m
      ensures run(t + j).i1 == Songs(list, order)[j]
    {
      PlayOrder(run, o, list, m, t, 0, j, order);
      PlayingSong(run(t + (j - 0)), order, j);
    }
    PlayOrder(run, o, list, m, t, 0, m - 1, order);
  }

  /** One cycle of Repeat-all ends at time `t`, the next begins with the same song. */
  lemma NextCycle(run: nat -> Deck, o: Options, list: seq<Song>, m: nat, t: nat, order: seq<int>) returns (order': seq<int>)
    requires ShuffleRun(run, o, list, m) && m >= 2 && o.repeat_ == RepeatAll
    requires PlayingIn(list, m, run(t), order, m - 1)
    ensures Plays(run, t, Songs(list, order')) && |Songs(list, order')| == m && EveryValidOnce(list, Songs(list, order'))
    ensures PlayingIn(list, m, run(t + (m - 1)), order', m - 1)
  {
    RunStep(run, o, list, m, t, order, m - 1);
    order' := run(t + 1).order;
    PlayingSong(run(t + 1), order', 1);
    forall j | 0 <= j < m
      ensures run(t + j).i1 == Songs(list, order')[j]
    {
      if j > 0 {
        PlayOrder(run, o, list, m, t + 1, 1, j, order');
        assert t + 1 + (j - 1) == t + j;
        PlayingSong(run(t + j), order', j);
      }
    }
    PlayOrder(run, o, list, m, t + 1, 1, m - 1, order');
    assert t + 1 + (m - 1 - 1) == t + (m - 1);
  }

  lemma {:induction false} Cycles(run: nat -> Deck, o: Options, list: seq<Song>, m: nat, order0: seq<int>, c: nat)
    returns (songs: seq<int>, order: seq<int>)
    requires ShuffleRun(run, o, list, m) && m >= 2 && o.repeat_ == RepeatAll
    requires PlayingIn(list, m, run(0), order0, 0)
    ensures Plays(run, c * (m - 1), songs) && |songs| == m && EveryValidOnce(list, songs)
    ensures PlayingIn(list, m, run(c * (m - 1) + (m - 1)), order, m - 1)
    decreases c
  {
    if c == 0 {
      WholeOrder(run, o, list, m, 0, order0);
      songs, order := Songs(list, order0), order0;
    } else {
      var _, before := Cycles(run, o, list, m, order0, c - 1);
      var t := c * (m - 1);
      assert t == (c - 1) * (m - 1) + (m - 1) by { OneMoreTime(c, m - 1); }
      order := NextCycle(run, o, list, m, t, before);
      songs := Songs(list, order);
    }
  }

  lemma OneMoreTime(c: int, n: nat)
    ensures (c - 1) * n + n == c * n
  {
  }

  lemma FirstRoundSame(d: Deck, o: Options, r: (Draws, Draws))
    requires Started(d) && DrawsOk(d.list, r.0) && DrawsOk(d.list, r.1) && o.shuffle && o.repeat_ != RepeatOne
    requires o.repeat_ == RepeatAll ==> d.nv >= 2
    ensures var e := FirstOrder(d, r.0);
            RoundOrStop(d, o, r) == RoundOrStop(e, o, r) && PlayingIn(d.list, d.nv, e, e.order, 0)
  {
    var e := FirstOrder(d, r.0);
    FirstRound(d, o, r.0, r.1);
    PlayingSong(e, e.order, 0);
    if 1 < d.nv { PlayOn(e, o, e.order, 0, r.0, r.1); } else { PlayEnd(e, o, e.order, 0, r.0, r.1); }
  }

  lemma RunWithOrder(run: nat -> Deck, d: Deck, o: Options, rnd: nat -> (Draws, Draws)) returns (run': nat -> Deck, order: seq<int>)
    requires Started(d) && GoodDraws(d.list, rnd) && o.shuffle && o.repeat_ != RepeatOne
    requires o.repeat_ == RepeatAll ==> d.nv >= 2
    requires IsRunOf(run, d, o, rnd)
    ensures ShuffleRun(run', o, d.list, d.nv) && PlayingIn(d.list, d.nv, run'(0), order, 0)
    ensures forall k: nat {:trigger run(k)} :: run'(k).i1 == run(k).i1
    ensures run(0) == d
  {
    var e := FirstOrder(d, rnd(0).0);
    FirstRoundSame(d, o, rnd(0));
    order := e.order;
    run' := (k: nat) => DeckAt(e, o, rnd, k);
    DecksAreShuffleRun(e, o, rnd, run', d.nv);
    assert DeckAt(d, o, rnd, 0) == d && DeckAt(e, o, rnd, 0) == e;
    forall k: nat
      ensures run'(k).i1 == run(k).i1
    {
      if k > 0 { SameRun(d, e, o, rnd, k); }
    }
  }

  /** With Repeat off every valid item is played exactly once, beginning with the
      start item, and then playing stops. */
  lemma ShuffleCoverage(run: nat -> Deck, d: Deck, rnd: nat -> (Draws, Draws)) returns (songs: seq<int>)
    requires Started(d) && GoodDraws(d.list, rnd) && IsRunOf(run, d, Options(true, RepeatOff), rnd)
    ensures EveryValidOnce(d.list, songs) && |songs| == d.nv && [d.i1] <= songs
    ensures Plays(run, 0, songs) && run(d.nv).i1 == -1
  {
    var o := Options(true, RepeatOff);
    var run', order := RunWithOrder(run, d, o, rnd);
    WholeOrder(run', o, d.list, d.nv, 0, order);
    songs := Songs(d.list, order);
    assert run(0 + 0).i1 == songs[0];
    var t := 0 + (d.nv - 1);
    RunStep(run', o, d.list, d.nv, t, order, d.nv - 1);
  }

  /** With Repeat-all and `m >= 2` valid items, the songs from number `c * (m-1)`
      to number `(c+1) * (m-1)`, both ends included, are every valid item once:
      a cycle begins with the last song of the one before. */
  lemma RepeatAllCoverage(run: nat -> Deck, d: Deck, rnd: nat -> (Draws, Draws), c: nat) returns (songs: seq<int>)
    requires Started(d) && GoodDraws(d.list, rnd) && IsRunOf(run, d, Options(true, RepeatAll), rnd) && d.nv >= 2
    ensures EveryValidOnce(d.list, songs) && |songs| == d.nv
    ensures Plays(run, c * (d.nv - 1), songs)
  {
    var o := Options(true, RepeatAll);
    var run', order := RunWithOrder(run, d, o, rnd);
    songs, order := Cycles(run', o, d.list, d.nv, order, c);
    SameSongs(run', run, c * (d.nv - 1), songs);
  }

  lemma SameSongs(run': nat -> Deck, run: nat -> Deck, t: nat, songs: seq<int>)
    requires Plays(run', t, songs) && forall k: nat {:trigger run(k)} :: run'(k).i1 == run(k).i1
    ensures Plays(run, t, songs)
  {
  }

  lemma {:induction false} Split(k: nat, n: nat) returns (c: nat, t: nat, j: nat)
    requires n > 0
    ensures t == c * n && k == t + j && j < n
  {
    if k < n {
      c, t, j := 0, 0, k;
    } else {
      c, t, j := Split(k - n, n);
      c, t := c + 1, t + n;
    }
  }

  lemma TwoInARow(run: nat -> Deck, list: seq<Song>, t: nat, songs: seq<int>, j: nat)
    requires Plays(run, t, songs) && EveryValidOnce(list, songs) && j + 1 < |songs|
    ensures IsValid(list, run(t + j).i1) && run(t + j).i1 != run(t + j + 1).i1
  {
    assert run(t + (j + 1)).i1 == songs[j + 1];
    assert songs[j] in songs;
  }

  /** No song follows itself, however long the run. */
  lemma NoSongFollowsItself(run: nat -> Deck, d: Deck, rnd: nat -> (Draws, Draws), k: nat)
    requires Started(d) && GoodDraws(d.list, rnd) && IsRunOf(run, d, Options(true, RepeatAll), rnd) && d.nv >= 2
    ensures IsValid(d.list, run(k).i1) && run(k).i1 != run(k + 1).i1
  {
    var c, t, j := Split(k, d.nv - 1);
    var songs := RepeatAllCoverage(run, d, rnd, c);
    TwoInARow(run, d.list, t, songs, j);
  }
}
