/** Which selected peers a synchronisation attempt reaches when none of them answers.

An attempt starts at a saved position, moves the position past each peer before asking it, and
stops when its read budget is gone: the peer at which it stops has already been passed over.
*/
module PeerRotation {
  /** The first `count` peers from position `start` on, of `n` in a ring. */
  function Asked(n: nat, start: nat, count: nat): (out: seq<nat>)
    requires n > 0
    ensures |out| == count
  {
    seq(count, i requires 0 <= i < count => (start + i) % n)
  }

  /** The peers one silent attempt asks. */
  function Round(n: nat, budget: nat, start: nat): seq<nat>
    requires n > 0
  {
    Asked(n, start, if n <= budget then n else budget)
  }

  /** Where the next attempt starts. */
  function NextStart(n: nat, budget: nat, start: nat): nat
    requires n > 0
  {
    if n <= budget then (start + n) % n else (start + budget + 1) % n
  }

  lemma Successor(i: nat, n: nat)
    requires n > 0
    ensures (i % n + 1) % n == (i + 1) % n
  {
    if i % n + 1 == n {
      assert i + 1 == (i / n + 1) * n;
      MultipleVanishes(i / n + 1, n);
    } else {
      RemainderUnique(i + 1, n, i / n, i % n + 1);
      RemainderUnique(i % n + 1, n, 0, i % n + 1);
    }
  }

  lemma MultipleVanishes(k: nat, n: nat)
    requires n > 0
    ensures (k * n) % n == 0
  {
    RemainderUnique(k * n, n, k, 0);
  }

  lemma RemainderUnique(x: nat, n: nat, q: nat, r: nat)
    requires n > 0 && r < n && x == q * n + r
    ensures x % n == r && x / n == q
  {
    QuotientUnique(q, r, x / n, x % n, n);
  }

  lemma QuotientUnique(q: int, r: nat, q': int, r': nat, n: nat)
    requires r < n && r' < n && q * n + r == q' * n + r'
    ensures q == q' && r == r'
  {
    if q < q' {
      ProductGrows(q, q', n);
    } else if q' < q {
      ProductGrows(q', q, n);
    }
  }

  lemma ProductGrows(small: int, large: int, n: nat)
    requires small < large
    ensures small * n + n <= large * n
  {
    assert (large - small - 1) * n >= 0;
    assert (large - small - 1) * n == large * n - small * n - n;
  }

  lemma AskedGrows(n: nat, start: nat, count: nat)
    requires n > 0
    ensures Asked(n, start, count + 1) == Asked(n, start, count) + [(start + count) % n]
  {
  }

  // ---------------------------------------------------------------------------------------
  // Successive silent attempts

  /** Where the attempt after `j` silent ones starts. */
  function Start(n: nat, budget: nat, start: nat, j: nat): (r: nat)
    requires start < n
    ensures r < n
  {
    if j == 0 then start else NextStart(n, budget, Start(n, budget, start, j - 1))
  }

  /** The attempt after `j` silent ones asks peer `p`. */
  predicate Asks(n: nat, budget: nat, start: nat, j: nat, p: nat)
    requires start < n
  {
    p in Round(n, budget, Start(n, budget, start, j))
  }

  /** How far around the ring peer `p` lies beyond the start. */
  function Distance(n: nat, start: nat, p: nat): nat
    requires start < n && p < n
  {
    if p >= start then p - start else p + n - start
  }

  lemma AskedExactlyNearby(n: nat, budget: nat, start: nat, p: nat)
    requires start < n && p < n
    ensures p in Round(n, budget, start) <==> Distance(n, start, p) < if n <= budget then n else budget
  {
    var d := Distance(n, start, p);
    var round := Round(n, budget, start);
    forall i | 0 <= i < |round| ensures round[i] == p <==> i == d {
      RingPosition(n, start, i);
    }
    if d < |round| {
      assert round[d] == p;
    }
  }

  lemma RingPosition(n: nat, start: nat, i: nat)
    requires start < n && i <= n
    ensures (start + i) % n == if start + i < n then start + i else if start + i < 2 * n then start + i - n else 0
  {
    if start + i < n {
      RemainderUnique(start + i, n, 0, start + i);
    } else {
      RemainderUnique(start + i, n, 1, start + i - n);
    }
  }

  lemma NextDistance(n: nat, budget: nat, start: nat, p: nat)
    requires start < n && p < n && budget < n
    ensures var d, d' := Distance(n, start, p), Distance(n, NextStart(n, budget, start), p);
            && (d > budget ==> d' == d - (budget + 1))
            && (d == budget ==> d' == n - 1)
  {
    RingPosition(n, start, budget + 1);
  }

  lemma {:induction false} StartShifts(n: nat, budget: nat, start: nat, j: nat)
    requires start < n
    ensures Start(n, budget, start, j + 1) == Start(n, budget, NextStart(n, budget, start), j)
  {
    if j > 0 {
      StartShifts(n, budget, start, j - 1);
    }
  }

  /** Each attempt brings a distant peer one stride closer, until it is asked or exactly the peer
      at which the budget runs out; from there it is farthest. */
  lemma {:induction false} Descent(n: nat, budget: nat, start: nat, p: nat) returns (q: nat, r: nat)
    requires start < n && p < n && budget < n
    ensures Distance(n, start, p) == q * (budget + 1) + r && r <= budget
    ensures r < budget ==> Asks(n, budget, start, q, p)
    ensures r == budget ==> Distance(n, Start(n, budget, start, q + 1), p) == n - 1
    decreases Distance(n, start, p)
  {
    var d := Distance(n, start, p);
    NextDistance(n, budget, start, p);
    if d <= budget {
      q, r := 0, d;
      AskedExactlyNearby(n, budget, start, p);
      assert Start(n, budget, start, 1) == NextStart(n, budget, Start(n, budget, start, 0));
    } else {
      q, r := Descent(n, budget, NextStart(n, budget, start), p);
      StartShifts(n, budget, start, q);
      StartShifts(n, budget, start, q + 1);
      q := q + 1;
    }
  }

  lemma {:induction false} StartComposes(n: nat, budget: nat, start: nat, i: nat, j: nat)
    requires start < n
    ensures Start(n, budget, start, i + j) == Start(n, budget, Start(n, budget, start, i), j)
  {
    if j > 0 {
      StartComposes(n, budget, start, i, j - 1);
    }
  }

  lemma ReachedWhenStrideMisses(n: nat, budget: nat, start: nat, p: nat) returns (j: nat)
    requires 1 <= budget < n && start < n && p < n && n % (budget + 1) != 0
    ensures j < n && Asks(n, budget, start, j, p)
  {
    var stride := budget + 1;
    var q, r := Descent(n, budget, start, p);
    TwiceFits(q, stride);
    j := q;
    if r == budget {
      var there := Start(n, budget, start, q + 1);
      var q2, r2 := Descent(n, budget, there, p);
      if r2 == budget {
        assert n == (q2 + 1) * stride;
        MultipleVanishes(q2 + 1, stride);
      }
      StartComposes(n, budget, start, q + 1, q2);
      if q >= q2 {
        ProductMonotone(q2, q, stride);
      }
      TwiceFits(q2, stride);
      j := q + 1 + q2;
    }
  }

  lemma TwiceFits(q: nat, stride: nat)
    requires stride >= 2
    ensures 2 * q <= q * stride
  {
  }

  lemma ProductMonotone(small: nat, large: nat, n: nat)
    requires small <= large
    ensures small * n <= large * n
  {
  }

  lemma OneLess(k: int, n: int)
    ensures (k - 1) * n == k * n - n
  {
  }

  lemma {:induction false} AlwaysAtTheGap(n: nat, budget: nat, start: nat, p: nat, k: nat, j: nat) returns (m: nat)
    requires budget < n && start < n && p < n && n == k * (budget + 1)
    requires Distance(n, start, p) == budget
    ensures Distance(n, Start(n, budget, start, j), p) == m * (budget + 1) + budget
  {
    if j == 0 {
      m := 0;
    } else {
      var before := Start(n, budget, start, j - 1);
      var m' := AlwaysAtTheGap(n, budget, start, p, k, j - 1);
      NextDistance(n, budget, before, p);
      var more := if m' > 0 then m' else k;
      m := more - 1;
      OneLess(more, budget + 1);
      if m' > 0 {
        ProductGrows(0, m', budget + 1);
      }
    }
  }

  lemma NeverAskedWhenStrideDivides(n: nat, budget: nat, start: nat, p: nat, j: nat)
    requires budget < n && start < n && p < n && n % (budget + 1) == 0
    requires Distance(n, start, p) == budget
    ensures !Asks(n, budget, start, j, p)
  {
    var m := AlwaysAtTheGap(n, budget, start, p, n / (budget + 1), j);
    AskedExactlyNearby(n, budget, Start(n, budget, start, j), p);
  }

  /** Some one of `n` consecutive silent attempts asks peer `p`. */
  predicate AskedInTime(n: nat, budget: nat, start: nat, p: nat)
    requires start < n
  {
    exists j | 0 <= j < n :: Asks(n, budget, start, j, p)
  }

  /** The peers that `count` consecutive silent attempts ask, in order. */
  function Rounds(n: nat, budget: nat, start: nat, count: nat): seq<nat>
    requires start < n
  {
    if count == 0 then []
    else Rounds(n, budget, start, count - 1) + Round(n, budget, Start(n, budget, start, count - 1))
  }

  lemma {:induction false} AskedInRounds(n: nat, budget: nat, start: nat, count: nat, p: nat)
    requires start < n
    ensures p in Rounds(n, budget, start, count) <==> exists j | 0 <= j < count :: Asks(n, budget, start, j, p)
  {
    if count > 0 {
      AskedInRounds(n, budget, start, count - 1, p);
      assert p in Round(n, budget, Start(n, budget, start, count - 1)) <==> Asks(n, budget, start, count - 1, p);
    }
  }

  /** With every peer silent, `n` consecutive attempts ask every peer if and only if one attempt
      reaches them all or the stride, one more than the budget, does not divide their number. */
  lemma EveryPeerIsAskedExactlyWhen(n: nat, budget: nat, start: nat)
    requires 1 <= budget && start < n
    ensures (forall p | 0 <= p < n :: AskedInTime(n, budget, start, p))
            <==> n <= budget || n % (budget + 1) != 0
  {
    if n <= budget {
      forall p | 0 <= p < n ensures AskedInTime(n, budget, start, p) {
        AskedExactlyNearby(n, budget, start, p);
        assert Asks(n, budget, start, 0, p);
      }
    } else if n % (budget + 1) != 0 {
      forall p | 0 <= p < n ensures AskedInTime(n, budget, start, p) {
        var j := ReachedWhenStrideMisses(n, budget, start, p);
      }
    } else {
      var p := SkippedForever(n, budget, start);
      assert !AskedInTime(n, budget, start, p);
    }
  }

  /** Otherwise the peer at which the first attempt's budget runs out is passed over by every
      attempt there will ever be; with eight reads, that is so for nine selected peers. */
  lemma SkippedForever(n: nat, budget: nat, start: nat) returns (p: nat)
    requires budget < n && start < n && n % (budget + 1) == 0
    ensures p == (start + budget) % n && p < n
    ensures forall j :: !Asks(n, budget, start, j, p)
  {
    p := (start + budget) % n;
    RingPosition(n, start, budget);
    forall j: nat ensures !Asks(n, budget, start, j, p) {
      NeverAskedWhenStrideDivides(n, budget, start, p, j);
    }
  }

  lemma NinthPeerIsNeverAsked(j: nat)
    ensures !Asks(9, 8, 0, j, 8)
  {
    var p := SkippedForever(9, 8, 0);
  }

  /** The same of the peers asked by any number of attempts not less than `n`. */
  lemma RoundsReach(n: nat, budget: nat, start: nat, count: nat)
    requires 1 <= budget && start < n <= count
    ensures (forall p | 0 <= p < n :: p in Rounds(n, budget, start, count))
            <==> n <= budget || n % (budget + 1) != 0
    ensures n > budget && n % (budget + 1) == 0 ==>
              (start + budget) % n !in Rounds(n, budget, start, count)
  {
    if n <= budget || n % (budget + 1) != 0 {
      EveryPeerIsAskedExactlyWhen(n, budget, start);
      forall p | 0 <= p < n ensures p in Rounds(n, budget, start, count) {
        assert AskedInTime(n, budget, start, p);
        AskedInRounds(n, budget, start, count, p);
      }
    } else {
      var p := SkippedForever(n, budget, start);
      AskedInRounds(n, budget, start, count, p);
    }
  }
}
