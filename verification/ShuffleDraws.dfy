/** The draws behind a shuffle: each order comes from exactly one choice. */
module ShuffleDraws {
  import opened Scheduler

  /** The first `k` rounds look at draws 1 to k-1 only. */
  lemma {:induction false} RoundsLookBack(first: nat, n: nat, a: seq<nat>, b: seq<nat>, k: nat)
    requires first < n && InRange(a, n) && InRange(b, n) && 1 <= k <= n
    requires forall i :: 1 <= i < k ==> a[i] == b[i]
    ensures Rounds(first, n, a, k) == Rounds(first, n, b, k)
  {
    if k > 1 { RoundsLookBack(first, n, a, b, k - 1); }
  }

  /** Later rounds leave the first `k` items alone. */
  lemma {:induction false} FrontStays(first: nat, n: nat, draws: seq<nat>, k: nat, m: nat)
    requires first < n && InRange(draws, n) && 1 <= k <= m <= n
    ensures Rounds(first, n, draws, m)[..k] == Rounds(first, n, draws, k)[..k]
  {
    if m > k { FrontStays(first, n, draws, k, m - 1); }
  }

  predicate StartsLike(first: nat, n: nat, draws: seq<nat>, k: nat, order: seq<int>) {
    && |order| == n && first < n && InRange(draws, n) && 1 <= k <= n
    && Rounds(first, n, draws, k)[..k] == order[..k]
  }

  /** The next item of `order` is not among the first `k` yet. */
  lemma NextIsBehind(order: seq<int>, inv: seq<int>, n: nat, now: seq<int>, place: seq<int>, k: nat)
    requires Inverse(order, inv, n) && Inverse(now, place, n) && k < n && now[..k] == order[..k]
    ensures k <= place[order[k]] < n && now[place[order[k]]] == order[k]
  {
    assert forall i :: 0 <= i < k ==> now[..k][i] == now[i] && order[..k][i] == order[i] && inv[order[i]] == i;
    assert inv[order[k]] == k;
  }

  lemma SwapIn(now: seq<int>, order: seq<int>, k: nat, j: nat)
    requires k <= j < |now| == |order| && now[..k] == order[..k] && now[j] == order[k]
    ensures SwapAt(now, k, j)[..k + 1] == order[..k + 1]
  {
    var s := SwapAt(now, k, j);
    assert s[..k + 1] == s[..k] + [s[k]] && s[..k] == now[..k];
    assert order[..k + 1] == order[..k] + [order[k]];
  }

  /** The draw that brings the next item of `order` to its place. */
  lemma NextDraw(first: nat, n: nat, order: seq<int>, inv: seq<int>, draws: seq<nat>, k: nat) returns (j: nat)
    requires Inverse(order, inv, n) && k < n && StartsLike(first, n, draws, k, order)
    ensures k <= j < n && StartsLike(first, n, draws[k := j], k + 1, order)
  {
    var now, place := Rounds(first, n, draws, k), RoundsInv(first, n, draws, k);
    NextIsBehind(order, inv, n, now, place, k);
    j := place[order[k]];
    RoundsLookBack(first, n, draws, draws[k := j], k);
    assert Rounds(first, n, draws[k := j], k + 1) == SwapAt(now, k, j);
    SwapIn(now, order, k, j);
  }

  lemma {:induction false} FrontCanBeDrawn(first: nat, n: nat, order: seq<int>, inv: seq<int>, k: nat) returns (draws: seq<nat>)
    requires Inverse(order, inv, n) && 1 <= k <= n && first < n && order[0] == first
    ensures StartsLike(first, n, draws, k, order)
  {
    if k == 1 {
      draws := seq(n, i => i);
      assert StartOrder(first, n)[..1] == [first] && order[..1] == [first];
    } else {
      draws := FrontCanBeDrawn(first, n, order, inv, k - 1);
      var j := NextDraw(first, n, order, inv, draws, k - 1);
      draws := draws[k - 1 := j];
    }
  }

  /** Every order that begins with the start item is the outcome of some draws. */
  lemma EveryOrderCanBeDrawn(first: nat, n: nat, order: seq<int>, inv: seq<int>) returns (draws: seq<nat>)
    requires Inverse(order, inv, n) && first < n && order[0] == first
    ensures InRange(draws, n) && Shuffled(first, n, draws) == order
  {
    draws := FrontCanBeDrawn(first, n, order, inv, n);
    var s := Shuffled(first, n, draws);
    assert s[..n] == s && order[..n] == order;
  }

  /** And of one choice only: with draws that are independent and uniform, all
      those orders are equally likely. */
  lemma DrawsAreUnique(first: nat, n: nat, a: seq<nat>, b: seq<nat>, k: nat)
    requires first < n && InRange(a, n) && InRange(b, n) && Shuffled(first, n, a) == Shuffled(first, n, b) && 1 <= k < n
    ensures a[k] == b[k]
  {
    DrawsAgree(first, n, a, b, k + 1);
  }

  lemma {:induction false} DrawsAgree(first: nat, n: nat, a: seq<nat>, b: seq<nat>, k: nat)
    requires first < n && InRange(a, n) && InRange(b, n) && Shuffled(first, n, a) == Shuffled(first, n, b) && 1 <= k <= n
    ensures forall i :: 1 <= i < k ==> a[i] == b[i]
  {
    if k > 1 {
      DrawsAgree(first, n, a, b, k - 1);
      RoundsLookBack(first, n, a, b, k - 1);
      FrontStays(first, n, a, k, n);
      FrontStays(first, n, b, k, n);
      LastDraw(first, n, a, k);
      LastDraw(first, n, b, k);
      var inv := RoundsInv(first, n, a, k - 1);
      var now := Rounds(first, n, a, k - 1);
      assert Rounds(first, n, a, k)[..k][k - 1] == Rounds(first, n, b, k)[..k][k - 1];
      assert inv[now[a[k - 1]]] == a[k - 1] && inv[now[b[k - 1]]] == b[k - 1];
    }
  }

  lemma LastDraw(first: nat, n: nat, draws: seq<nat>, k: nat)
    requires first < n && InRange(draws, n) && 1 < k <= n
    ensures Rounds(first, n, draws, k)[k - 1] == Rounds(first, n, draws, k - 1)[draws[k - 1]]
  {
  }

  /** Draws that leave every item where it is give the start item and then the
      others in the order of the list. */
  lemma DrawsThatStay(first: nat, n: nat, k: nat)
    requires first < n && k < n
    ensures InRange(seq(n, i => i), n)
    ensures Shuffled(first, n, seq(n, i => i))[k] == if k == 0 then first else if k <= first then k - 1 else k
  {
    RoundsThatStay(first, n, n);
  }

  lemma {:induction false} RoundsThatStay(first: nat, n: nat, k: nat)
    requires first < n && 1 <= k <= n
    ensures Rounds(first, n, seq(n, i => i), k) == StartOrder(first, n)
  {
    if k > 1 { RoundsThatStay(first, n, k - 1); }
  }
}
