/** Sprite-frame cycles (main.py `Coin.update` and the first lines of
    `Player.go`): a frame index steps to `(cur + 1) % len(frames)` on every
    tick whose counter is a multiple of the cycle's period. */
module Animation {

  /** `(cur + 1) % len(frames)`: the next frame of a cycle of n frames. */
  function NextFrame(cur: nat, n: nat): (r: nat)
    requires cur < n
    ensures r < n
    ensures r == cur + 1 || (cur == n - 1 && r == 0)
  {
    (cur + 1) % n
  }

  /** The frame reached from `cur` after k steps. */
  function Advance(cur: nat, k: nat, n: nat): (r: nat)
    requires cur < n
    ensures r < n
  {
    if k == 0 then cur else NextFrame(Advance(cur, k - 1, n), n)
  }

  /** One tick of a cycle whose frame steps when `count % period == 0`. */
  function CycleStep(count: nat, cur: nat, period: nat, n: nat): (r: nat)
    requires period > 0 && cur < n
    ensures r < n
    ensures r != cur ==> count % period == 0
  {
    if count % period == 0 then NextFrame(cur, n) else cur
  }

  /** The frame after k ticks starting with counter `count` (the counter goes
      up by one per tick). */
  function CycleAfter(count: nat, cur: nat, k: nat, period: nat, n: nat): (r: nat)
    requires period > 0 && cur < n
    ensures r < n
    decreases k
  {
    if k == 0 then cur else CycleAfter(count + 1, CycleStep(count, cur, period, n), k - 1, period, n)
  }

  /** How many of the counters count, count + 1, ..., count + k - 1 are
      multiples of period. */
  function Multiples(count: nat, k: nat, period: nat): nat
    requires period > 0
    decreases k
  {
    if k == 0 then 0 else (if count % period == 0 then 1 else 0) + Multiples(count + 1, k - 1, period)
  }

  lemma MulAtLeast(d: int, n: int)
    requires d >= 1 && n > 0
    ensures d * n >= n
  {
  }

  /** Division with remainder is unique. */
  lemma DivModUnique(a: int, n: int, q: int, r: int)
    requires n > 0 && 0 <= r < n && a == q * n + r
    ensures a / n == q && a % n == r
  {
    var q', r' := a / n, a % n;
    assert a == q' * n + r';
    assert (q - q') * n == r' - r;
    if q > q' {
      MulAtLeast(q - q', n);
    } else if q < q' {
      MulAtLeast(q' - q, n);
    }
  }

  lemma ModSucc(a: nat, n: nat)
    requires n > 0
    ensures ((a % n) + 1) % n == (a + 1) % n
  {
    var q, r := a / n, a % n;
    assert a == q * n + r;
    if r + 1 < n {
      DivModUnique(a + 1, n, q, r + 1);
      DivModUnique(r + 1, n, 0, r + 1);
    } else {
      DivModUnique(a + 1, n, q + 1, 0);
      DivModUnique(r + 1, n, 1, 0);
    }
  }

  lemma AddMod(a: nat, b: nat, n: nat)
    requires n > 0
    ensures ((a % n) + b) % n == (a + b) % n
  {
    var q, r := a / n, a % n;
    assert a == q * n + r;
    var q2, r2 := (r + b) / n, (r + b) % n;
    assert r + b == q2 * n + r2;
    DivModUnique(a + b, n, q + q2, r2);
  }

  /** k steps from cur land on `(cur + k) % n`: the index wraps around the
      cycle, and n steps bring it back to where it started. */
  lemma {:induction false} AdvanceWraps(cur: nat, k: nat, n: nat)
    requires cur < n
    ensures Advance(cur, k, n) == (cur + k) % n
  {
    if k == 0 {
      DivModUnique(cur, n, 0, cur);
    } else {
      AdvanceWraps(cur, k - 1, n);
      ModSucc(cur + k - 1, n);
    }
  }

  /** Over k ticks the frame steps exactly once per multiple of the period the
      counter passes, wrapping around the cycle: k ticks of the cycle are as
      many plain steps as there were multiples. */
  lemma {:induction false} CycleCadence(count: nat, cur: nat, k: nat, period: nat, n: nat)
    requires period > 0 && cur < n
    ensures CycleAfter(count, cur, k, period, n) == (cur + Multiples(count, k, period)) % n
    ensures CycleAfter(count, cur, k, period, n) == Advance(cur, Multiples(count, k, period), n)
    decreases k
  {
    AdvanceWraps(cur, Multiples(count, k, period), n);
    if k == 0 {
      DivModUnique(cur, n, 0, cur);
    } else {
      var next := CycleStep(count, cur, period, n);
      CycleCadence(count + 1, next, k - 1, period, n);
      var rest := Multiples(count + 1, k - 1, period);
      if count % period == 0 {
        AddMod(cur + 1, rest, n);
      }
    }
  }

  /** Closed form of Multiples for the coin's period of 5. */
  lemma {:induction false} MultiplesOfFive(count: nat, k: nat)
    ensures Multiples(count, k, 5) == (count + k + 4) / 5 - (count + 4) / 5
    decreases k
  {
    if k > 0 {
      MultiplesOfFive(count + 1, k - 1);
    }
  }

  /** A coin starts with counter 5 on frame 0 and steps every 5 ticks, so after
      k updates it shows frame ceil(k / 5) mod n: the very first update
      already steps. */
  lemma CoinCadence(k: nat, n: nat)
    requires n > 0
    ensures CycleAfter(5, 0, k, 5, n) == ((k + 4) / 5) % n
  {
    CycleCadence(5, 0, k, 5, n);
    MultiplesOfFive(5, k);
  }
}
