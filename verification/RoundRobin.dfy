/** Round-robin over the healthy replicas with a wrapping 64-bit counter. */
module RoundRobin {
  import opened Bytes

  /** The replica that the pick number i, counted from zero since startup, selects among k. */
  function Pick(i: nat, k: nat): (r: nat)
    requires k > 0
    ensures r < k
  {
    i % TWO_64 % k
  }

  lemma AddThenSubtract(n: nat)
    ensures (n % TWO_64 + 1) % TWO_64 == (n + 1) % TWO_64
    ensures ((n % TWO_64 + 1) % TWO_64 + TWO_64 - 1) % TWO_64 == n % TWO_64
  {
  }

  class Picker {
    var replicaAddrs: seq<string>
    var replicaIdx: nat
    ghost var picks: nat // calls that found a replica

    constructor ()
      ensures Valid() && picks == 0 && replicaAddrs == []
    {
      replicaAddrs, replicaIdx, picks := [], 0, 0;
    }

    ghost predicate Valid()
      reads this
    {
      replicaIdx == picks % TWO_64
    }

    /** ReplicaAddress behind the startup gate; the counter only moves when there is a replica to return. */
    method ReplicaAddress() returns (addr: string, ok: bool)
      requires Valid()
      modifies this
      ensures Valid() && replicaAddrs == old(replicaAddrs)
      ensures ok == (replicaAddrs != [])
      ensures ok ==> addr == replicaAddrs[Pick(old(picks), |replicaAddrs|)] && picks == old(picks) + 1
      ensures !ok ==> addr == "" && picks == old(picks)
    {
      if |replicaAddrs| == 0 {
        return "", false;
      }
      AddThenSubtract(picks);
      replicaIdx := (replicaIdx + 1) % TWO_64; // Add(1)
      var idx := (replicaIdx + TWO_64 - 1) % TWO_64 % |replicaAddrs|;
      picks := picks + 1;
      return replicaAddrs[idx], true;
    }
  }

  /** How often replica r is chosen by n consecutive picks from number c on. */
  function Count(c: nat, n: nat, k: nat, r: nat): nat
    requires k > 0
  {
    if n == 0 then 0 else Count(c, n - 1, k, r) + (if Pick(c + n - 1, k) == r then 1 else 0)
  }

  /** Numbers below m with remainder r. */
  function Below(m: nat, k: nat, r: nat): nat
    requires k > 0
  {
    m / k + (if m % k > r then 1 else 0)
  }

  lemma DivStep(m: nat, k: nat)
    requires k > 0
    ensures if m % k == k - 1 then (m + 1) / k == m / k + 1 && (m + 1) % k == 0
            else (m + 1) / k == m / k && (m + 1) % k == m % k + 1
  {
    var q, s := m / k, m % k;
    assert m == q * k + s;
    if s == k - 1 {
      assert m + 1 == (q + 1) * k;
      Division(m + 1, k, q + 1, 0);
    } else {
      Division(m + 1, k, q, s + 1);
    }
  }

  lemma Division(m: nat, k: nat, q: nat, s: nat)
    requires k > 0 && m == q * k + s && s < k
    ensures m / k == q && m % k == s
  {
    var q', s' := m / k, m % k;
    assert m == q' * k + s';
    Multiples(q, q', k);
    Multiples(q', q, k);
  }

  lemma Multiples(a: nat, b: nat, k: nat)
    ensures a < b ==> b * k >= a * k + k
  {
    if a < b {
      var d := b - a - 1;
      assert d * k >= 0;
      assert (a + 1 + d) * k == a * k + k + d * k;
    }
  }

  lemma BelowStep(m: nat, k: nat, r: nat)
    requires r < k
    ensures Below(m + 1, k, r) == Below(m, k, r) + (if m % k == r then 1 else 0)
  {
    DivStep(m, k);
  }

  /** Where the remainder of the pick number decides, a window's count is a difference of closed forms. */
  lemma {:induction false} CountStraight(c: nat, n: nat, k: nat, r: nat)
    requires r < k && forall i :: c <= i < c + n ==> Pick(i, k) == i % k
    ensures Count(c, n, k, r) == Below(c + n, k, r) - Below(c, k, r)
  {
    if n > 0 {
      CountStraight(c, n - 1, k, r);
      BelowStep(c + n - 1, k, r);
      assert Pick(c + n - 1, k) == (c + n - 1) % k;
    }
  }

  lemma BelowSpread(m: nat, k: nat, r: nat, r': nat)
    requires r < k && r' < k
    ensures r <= r' ==> 0 <= Below(m, k, r) - Below(m, k, r') <= 1
  {
  }

  ghost predicate Fair(c: nat, n: nat, k: nat, spread: nat)
    requires k > 0
  {
    forall r, r' :: 0 <= r < k && 0 <= r' < k ==> Count(c, n, k, r) <= Count(c, n, k, r') + spread
  }

  lemma StraightFair(c: nat, n: nat, k: nat)
    requires k > 0 && forall i :: c <= i < c + n ==> Pick(i, k) == i % k
    ensures Fair(c, n, k, 1)
  {
    forall r, r' | 0 <= r < k && 0 <= r' < k ensures Count(c, n, k, r) <= Count(c, n, k, r') + 1 {
      CountStraight(c, n, k, r);
      CountStraight(c, n, k, r');
      BelowSpread(c, k, r, r');
      BelowSpread(c, k, r', r);
      BelowSpread(c + n, k, r, r');
      BelowSpread(c + n, k, r', r);
    }
  }

  lemma NoWrapPick(c: nat, n: nat, k: nat)
    requires k > 0 && c + n <= TWO_64
    ensures forall i :: c <= i < c + n ==> Pick(i, k) == i % k
  {
  }

  // The counter only knows the pick number modulo 2^64, so a window may as well start below.

  lemma PickShift(c: nat, j: nat, k: nat)
    requires k > 0
    ensures Pick(c + j, k) == Pick(c % TWO_64 + j, k)
  {
    assert (c + j) % TWO_64 == (c % TWO_64 + j) % TWO_64;
  }

  lemma {:induction false} CountShift(c: nat, n: nat, k: nat, r: nat)
    requires k > 0
    ensures Count(c, n, k, r) == Count(c % TWO_64, n, k, r)
  {
    hide Pick;
    if n > 0 {
      CountShift(c, n - 1, k, r);
      PickShift(c, n - 1, k);
    }
  }

  lemma FairShift(c: nat, n: nat, k: nat, spread: nat)
    requires k > 0 && Fair(c % TWO_64, n, k, spread)
    ensures Fair(c, n, k, spread)
  {
    hide Count;
    forall r, r' | 0 <= r < k && 0 <= r' < k ensures Count(c, n, k, r) <= Count(c, n, k, r') + spread {
      CountShift(c, n, k, r);
      CountShift(c, n, k, r');
    }
  }

  /** Between two wraps of the counter, any two, the load differs by at most one connection. */
  lemma FairWithoutWrap(c: nat, n: nat, k: nat)
    requires k > 0 && c % TWO_64 + n <= TWO_64
    ensures Fair(c, n, k, 1)
  {
    hide Pick, Fair;
    NoWrapPick(c % TWO_64, n, k);
    StraightFair(c % TWO_64, n, k);
    FairShift(c, n, k, 1);
  }

  /** k consecutive picks visit every replica once. */
  lemma OneRound(c: nat, k: nat, r: nat)
    requires r < k && c % TWO_64 + k <= TWO_64
    ensures Count(c, k, k, r) == 1
  {
    hide Pick, Count;
    var c' := c % TWO_64;
    CountShift(c, k, k, r);
    NoWrapPick(c', k, k);
    CountStraight(c', k, k, r);
    NextRound(c', k);
  }

  lemma NextRound(c: nat, k: nat)
    requires k > 0
    ensures (c + k) / k == c / k + 1 && (c + k) % k == c % k
  {
    var q, s := c / k, c % k;
    assert c == q * k + s;
    assert c + k == (q + 1) * k + s;
    Division(c + k, k, q + 1, s);
  }

  lemma {:induction false} CountSplit(c: nat, a: nat, b: nat, k: nat, r: nat)
    requires k > 0
    ensures Count(c, a + b, k, r) == Count(c, a, k, r) + Count(c + a, b, k, r)
  {
    if b > 0 {
      CountSplit(c, a, b - 1, k, r);
    }
  }

  lemma FairSum(c: nat, a: nat, b: nat, k: nat, x: nat, y: nat)
    requires k > 0 && Fair(c, a, k, x) && Fair(c + a, b, k, y)
    ensures Fair(c, a + b, k, x + y)
  {
    hide Count;
    var n := a + b;
    forall r, r' | 0 <= r < k && 0 <= r' < k ensures Count(c, n, k, r) <= Count(c, n, k, r') + (x + y) {
      CountSplit(c, a, b, k, r);
      CountSplit(c, a, b, k, r');
    }
  }

  /** The stretches between wraps that n picks from number c on touch. */
  function Stretches(c: nat, n: nat): nat { (c % TWO_64 + n + TWO_64 - 1) / TWO_64 }

  lemma StretchStep(c: nat, n: nat)
    requires c % TWO_64 + n > TWO_64
    ensures var a := TWO_64 - c % TWO_64; Stretches(c, n) == 1 + Stretches(c + a, n - a)
  {
    var a := TWO_64 - c % TWO_64;
    assert (c + a) % TWO_64 == 0;
  }

  /** Any window at all, however many wraps it crosses: every stretch adds at most one. */
  lemma {:induction false} FairAcrossWraps(c: nat, n: nat, k: nat)
    requires k > 0
    ensures Fair(c, n, k, Stretches(c, n))
    decreases n
  {
    hide Fair;
    if n == 0 {
      NothingPicked(c, k, Stretches(c, n));
    } else if c % TWO_64 + n <= TWO_64 {
      FairWithoutWrap(c, n, k);
      assert Stretches(c, n) == 1;
    } else {
      var a := TWO_64 - c % TWO_64;
      FairWithoutWrap(c, a, k);
      FairAcrossWraps(c + a, n - a, k);
      StretchStep(c, n);
      FairSum(c, a, n - a, k, 1, Stretches(c + a, n - a));
    }
  }

  lemma NothingPicked(c: nat, k: nat, spread: nat)
    requires k > 0
    ensures Fair(c, 0, k, spread)
  {
  }

  /** Across one wrap, any one, it differs by at most two. */
  lemma FairAcrossWrap(c: nat, n: nat, k: nat)
    requires k > 0 && c % TWO_64 + n <= 2 * TWO_64
    ensures Fair(c, n, k, 2)
  {
    FairAcrossWraps(c, n, k);
    assert Stretches(c, n) <= 2;
  }

  /** When the replica count does not divide 2^64, the wrap serves some replicas twice before others get a turn. */
  lemma UnfairAcrossWrap(k: nat)
    requires 0 < k <= TWO_64 && TWO_64 % k != 0
    ensures var m := TWO_64 % k; Count(TWO_64 - m, 2 * m, k, 0) == 2 && Count(TWO_64 - m, 2 * m, k, m) == 0
  {
    var m, q := TWO_64 % k, TWO_64 / k;
    assert TWO_64 == q * k + m;
    Division(TWO_64 - m, k, q, 0);
    Division(m, k, 0, m);
    Division(0, k, 0, 0);
    NoWrapPick(TWO_64 - m, m, k);
    NoWrapPick(0, m, k);
    UnfairCount(k, m, q, 0);
    UnfairCount(k, m, q, m);
  }

  lemma UnfairCount(k: nat, m: nat, q: nat, r: nat)
    requires 0 < m < k && r < k && TWO_64 == q * k + m
    requires forall i :: TWO_64 - m <= i < TWO_64 - m + m ==> Pick(i, k) == i % k
    requires forall i :: 0 <= i < 0 + m ==> Pick(i, k) == i % k
    ensures Count(TWO_64 - m, 2 * m, k, r) == if r < m then 2 else 0
  {
    Division(TWO_64, k, q, m);
    Division(TWO_64 - m, k, q, 0);
    Division(m, k, 0, m);
    Division(0, k, 0, 0);
    CountSplit(TWO_64 - m, m, m, k, r);
    CountShift(TWO_64, m, k, r);
    CountStraight(TWO_64 - m, m, k, r);
    CountStraight(0, m, k, r);
  }

  lemma DividingPick(i: nat, k: nat)
    requires 0 < k && TWO_64 % k == 0
    ensures Pick(i, k) == i % k
  {
    var q, w, s := i / TWO_64, TWO_64 / k, i % TWO_64;
    assert i == q * TWO_64 + s && TWO_64 == w * k;
    var t := s / k;
    assert s == t * k + s % k;
    assert i == (q * w + t) * k + s % k by {
      assert q * (w * k) == q * w * k;
    }
    Division(i, k, q * w + t, s % k);
  }

  /** Fairness within one connection over all windows, whatever wraps they cross, is exactly divisibility of 2^64. */
  lemma FairIffDivides(k: nat)
    requires 0 < k <= TWO_64
    ensures (forall c: nat, n: nat :: Fair(c, n, k, 1)) <==> TWO_64 % k == 0
  {
    if TWO_64 % k == 0 {
      forall c: nat, n: nat ensures Fair(c, n, k, 1) {
        forall i | c <= i < c + n ensures Pick(i, k) == i % k {
          DividingPick(i, k);
        }
        StraightFair(c, n, k);
      }
    } else {
      var m := TWO_64 % k;
      UnfairAcrossWrap(k);
      assert !Fair(TWO_64 - m, 2 * m, k, 1);
    }
  }
}
