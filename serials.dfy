/**
 * The identifier generator: meter serials `MAC` + eight zero-padded digits,
 * drawn at random and kept only when the membership filter has not seen
 * them, cached for the life of the process.
 *
 * The random draws are a given sequence of integers (each in the range
 * `random.randint(0, 31_000_000)` produces); the Bloom filter is an exact
 * set of the serials accepted so far.
 */
module Serials {
  import opened Common
  import opened Naming

  /** Largest integer `random.randint(0, 31_000_000)` can draw. */
  const MaxDraw := 31_000_000
  const SerialPrefix := "MAC"
  const DigitWidth := 8
  /** `max_iterations = 10 * num_serials`. */
  const AttemptFactor := 10

  lemma Pow10Eight()
    ensures Pow10(DigitWidth) == 100_000_000
  {
    assert Pow10(2) == 100;
    assert Pow10(4) == 10 * (10 * Pow10(2));
    assert Pow10(6) == 10 * (10 * Pow10(4));
  }

  /** `f"MAC{new_int:08d}"`. */
  function Serial(n: nat): (s: string)
    requires n <= MaxDraw
    ensures |s| == 11
  {
    Pow10Eight();
    SerialPrefix + ZeroPad(n, DigitWidth)
  }

  /** The fixed token format: `MAC` followed by exactly eight decimal digits. */
  predicate WellFormed(s: string)
  {
    |s| == 11 && s[..3] == SerialPrefix && AllDigits(s[3..])
  }

  /** The number a well-formed serial encodes. */
  function ParseSerial(s: string): (r: Option<nat>)
    ensures r.Some? <==> WellFormed(s)
  {
    if WellFormed(s) then Some(DecimalValue(s[3..])) else None
  }

  /** Every serial is well formed and encodes the integer that was drawn. */
  lemma SerialRoundTrip(n: nat)
    requires n <= MaxDraw
    ensures WellFormed(Serial(n))
    ensures ParseSerial(Serial(n)) == Some(n)
  {
    Pow10Eight();
    var s := Serial(n);
    assert s[..3] == SerialPrefix;
    assert s[3..] == ZeroPad(n, DigitWidth);
    ZeroPadRoundTrip(n, DigitWidth);
  }

  /** Distinct draws give distinct serials. */
  lemma SerialInjective(a: nat, b: nat)
    requires a <= MaxDraw && b <= MaxDraw
    ensures Serial(a) == Serial(b) <==> a == b
  {
    SerialRoundTrip(a);
    SerialRoundTrip(b);
  }

  predicate ValidDraws(draws: seq<int>)
  {
    forall k :: 0 <= k < |draws| ==> 0 <= draws[k] <= MaxDraw
  }

  /** The contents of the filter after the serials of `s` were added. */
  function Elems(s: seq<string>): set<string>
  {
    set x | x in s
  }

  lemma ElemsSnoc(s: seq<string>, x: string)
    ensures Elems(s + [x]) == Elems(s) + {x}
  {
    assert forall y :: y in s + [x] <==> y in s || y == x;
  }

  /**
   * The serials the generator accepts from `draws` when the filter already
   * holds `seen` and `n` more are wanted: a draw whose serial the filter
   * holds is skipped, any other is accepted and added to the filter, and
   * drawing stops once `n` have been accepted.
   */
  function Accepted(draws: seq<int>, n: nat, seen: set<string>): seq<string>
    requires ValidDraws(draws)
    decreases |draws|
  {
    if n == 0 || |draws| == 0 then []
    else
      var s := Serial(draws[0]);
      if s in seen then Accepted(draws[1..], n, seen)
      else [s] + Accepted(draws[1..], n - 1, seen + {s})
  }

  /** Never more serials than were asked for. */
  lemma {:induction false} AcceptedAtMost(draws: seq<int>, n: nat, seen: set<string>)
    requires ValidDraws(draws)
    ensures |Accepted(draws, n, seen)| <= n
    decreases |draws|
  {
    if n > 0 && |draws| > 0 {
      var s := Serial(draws[0]);
      if s in seen {
        AcceptedAtMost(draws[1..], n, seen);
      } else {
        AcceptedAtMost(draws[1..], n - 1, seen + {s});
      }
    }
  }

  /**
   * The accepted serials are pairwise distinct and none of them was in the
   * filter beforehand.
   */
  lemma {:induction false} AcceptedDistinctAndFresh(draws: seq<int>, n: nat, seen: set<string>)
    requires ValidDraws(draws)
    ensures Distinct(Accepted(draws, n, seen))
    ensures forall i :: 0 <= i < |Accepted(draws, n, seen)| ==> Accepted(draws, n, seen)[i] !in seen
    decreases |draws|
  {
    if n > 0 && |draws| > 0 {
      var s := Serial(draws[0]);
      if s in seen {
        AcceptedDistinctAndFresh(draws[1..], n, seen);
      } else {
        var rest := Accepted(draws[1..], n - 1, seen + {s});
        AcceptedDistinctAndFresh(draws[1..], n - 1, seen + {s});
        assert Accepted(draws, n, seen) == [s] + rest;
      }
    }
  }

  /** The serial of each draw, in draw order. */
  function DrawnSerials(draws: seq<int>): seq<string>
    requires ValidDraws(draws)
  {
    seq(|draws|, k requires 0 <= k < |draws| => Serial(draws[k]))
  }

  /** Every serial of `xs` is the serial of one of the draws. */
  predicate FromDraws(xs: seq<string>, draws: seq<int>)
    requires ValidDraws(draws)
  {
    forall i :: 0 <= i < |xs| ==> xs[i] in DrawnSerials(draws)
  }

  lemma FromDrawsTail(xs: seq<string>, draws: seq<int>)
    requires ValidDraws(draws) && |draws| > 0 && FromDraws(xs, draws[1..])
    ensures FromDraws(xs, draws)
  {
    assert DrawnSerials(draws[1..]) == DrawnSerials(draws)[1..];
  }

  lemma FromDrawsCons(xs: seq<string>, draws: seq<int>)
    requires ValidDraws(draws) && |draws| > 0 && FromDraws(xs, draws)
    ensures FromDraws([Serial(draws[0])] + xs, draws)
  {
    var ys := [Serial(draws[0])] + xs;
    assert ys[0] == DrawnSerials(draws)[0];
    forall i | 0 < i < |ys|
      ensures ys[i] in DrawnSerials(draws)
    {
      assert ys[i] == xs[i - 1];
    }
  }

  /** Every accepted serial is the serial of one of the draws. */
  lemma {:induction false} AcceptedFromDraws(draws: seq<int>, n: nat, seen: set<string>)
    requires ValidDraws(draws)
    ensures FromDraws(Accepted(draws, n, seen), draws)
    decreases |draws|
  {
    if n > 0 && |draws| > 0 {
      var s := Serial(draws[0]);
      var tail := draws[1..];
      if s in seen {
        AcceptedFromDraws(tail, n, seen);
        FromDrawsTail(Accepted(tail, n, seen), draws);
      } else {
        var rest := Accepted(tail, n - 1, seen + {s});
        AcceptedFromDraws(tail, n - 1, seen + {s});
        FromDrawsTail(rest, draws);
        FromDrawsCons(rest, draws);
      }
    } else {
      assert Accepted(draws, n, seen) == [];
    }
  }

  /** Hence every accepted serial has the fixed token format. */
  lemma AcceptedWellFormed(draws: seq<int>, n: nat, seen: set<string>)
    requires ValidDraws(draws)
    ensures forall i :: 0 <= i < |Accepted(draws, n, seen)| ==> WellFormed(Accepted(draws, n, seen)[i])
  {
    AcceptedFromDraws(draws, n, seen);
    forall i | 0 <= i < |Accepted(draws, n, seen)|
      ensures WellFormed(Accepted(draws, n, seen)[i])
    {
      var k :| 0 <= k < |draws| && DrawnSerials(draws)[k] == Accepted(draws, n, seen)[i];
      SerialRoundTrip(draws[k]);
    }
  }

  /**
   * Under-fill happens only when the draws run out of new values: if fewer
   * than `n` serials were accepted, the serial of every draw is either in
   * the result or was in the filter already.
   */
  lemma {:induction false} UnderfillMeansExhausted(draws: seq<int>, n: nat, seen: set<string>)
    requires ValidDraws(draws)
    requires |Accepted(draws, n, seen)| < n
    ensures forall k :: 0 <= k < |draws| ==>
      Serial(draws[k]) in seen || Serial(draws[k]) in Accepted(draws, n, seen)
    decreases |draws|
  {
    if |draws| > 0 {
      var s := Serial(draws[0]);
      var tail := draws[1..];
      if s in seen {
        UnderfillMeansExhausted(tail, n, seen);
        forall k | 0 <= k < |draws|
          ensures Serial(draws[k]) in seen || Serial(draws[k]) in Accepted(draws, n, seen)
        {
          if k > 0 { assert draws[k] == tail[k - 1]; }
        }
      } else {
        var rest := Accepted(tail, n - 1, seen + {s});
        assert Accepted(draws, n, seen) == [s] + rest;
        UnderfillMeansExhausted(tail, n - 1, seen + {s});
        forall k | 0 <= k < |draws|
          ensures Serial(draws[k]) in seen || Serial(draws[k]) in Accepted(draws, n, seen)
        {
          if k > 0 {
            assert draws[k] == tail[k - 1];
            assert Serial(draws[k]) in seen + {s} || Serial(draws[k]) in rest;
          }
        }
      }
    }
  }

  /** What every value of the cache satisfies: distinct, well-formed serials. */
  predicate GoodSerials(s: seq<string>)
  {
    Distinct(s) && forall i :: 0 <= i < |s| ==> WellFormed(s[i])
  }

  lemma AcceptedGood(draws: seq<int>, n: nat)
    requires ValidDraws(draws)
    ensures GoodSerials(Accepted(draws, n, {}))
    ensures |Accepted(draws, n, {})| <= n
  {
    AcceptedDistinctAndFresh(draws, n, {});
    AcceptedWellFormed(draws, n, {});
    AcceptedAtMost(draws, n, {});
  }

  /**
   * The module-level `serial_cache` list and `cache_filled` flag that
   * `generate_unique_serial_numbers` reads and writes.
   */
  class SerialCache {
    var serialCache: seq<string>
    var cacheFilled: bool

    /** An unfilled cache is empty; a filled one holds distinct, well-formed serials. */
    ghost predicate Valid()
      reads this
    {
      (!cacheFilled ==> serialCache == []) && GoodSerials(serialCache)
    }

    /** The state at import time: `serial_cache = []`, `cache_filled = False`. */
    constructor ()
      ensures Valid() && serialCache == [] && !cacheFilled
    {
      serialCache := [];
      cacheFilled := false;
    }

    /**
     * `generate_unique_serial_numbers(num_serials)`, the random draws given
     * as `draws`. The first call fills the cache with the serials accepted
     * from the draws; every later call returns the cache as it is, whatever
     * it asks for.
     */
    method GenerateUniqueSerialNumbers(numSerials: nat, draws: seq<int>) returns (r: seq<string>)
      requires Valid() && ValidDraws(draws)
      modifies this
      ensures Valid() && cacheFilled && r == serialCache
      ensures old(cacheFilled) ==> serialCache == old(serialCache)
      ensures !old(cacheFilled) ==> serialCache == Accepted(draws, numSerials, {})
      ensures !old(cacheFilled) ==> |r| <= numSerials
    {
      if cacheFilled {
        return serialCache;
      }
      var bf: set<string> := {};
      var numYielded: nat := 0;
      var maxIterations: int := AttemptFactor * numSerials;
      var i := 0;
      while numYielded < numSerials && maxIterations > 0 && i < |draws|
        invariant 0 <= i <= |draws| && numYielded <= numSerials
        invariant maxIterations == AttemptFactor * numSerials - numYielded
        invariant |serialCache| == numYielded && bf == Elems(serialCache)
        invariant serialCache == Accepted(draws[..i], numSerials, {})
        decreases |draws| - i
      {
        var macAddress := Serial(draws[i]);
        AcceptedSnoc(draws[..i], draws[i], numSerials, {});
        assert draws[..i + 1] == draws[..i] + [draws[i]];
        if macAddress !in bf {
          bf := bf + {macAddress};
          numYielded := numYielded + 1;
          maxIterations := maxIterations - 1;
          ElemsSnoc(serialCache, macAddress);
          serialCache := serialCache + [macAddress];
        }
        i := i + 1;
      }
      if i < |draws| {
        AcceptedStops(draws[..i], draws[i..], numSerials, {});
        assert draws[..i] + draws[i..] == draws;
      } else {
        assert draws[..i] == draws;
      }
      cacheFilled := true;
      AcceptedGood(draws, numSerials);
      return serialCache;
    }
  }

  /**
   * The attempt bound never stops the source's loop: `max_iterations` is
   * decremented only when a serial is accepted, so while fewer than
   * `num_serials` have been accepted it is still above `9 * num_serials`.
   * With 21 repeats of draw 0 followed by draw 1, two serials are accepted
   * although 22 draws, more than `10 * 2`, had to be read.
   */
  lemma AttemptBoundIgnored()
    ensures var draws := Repeat(0, 21) + [1];
      ValidDraws(draws) && |draws| > AttemptFactor * 2
      && Accepted(draws, 2, {}) == [Serial(0), Serial(1)]
  {
    var draws := Repeat(0, 21) + [1];
    var s0 := Serial(0);
    SerialInjective(0, 1);
    assert draws[1..] == Repeat(0, 20) + [1];
    assert draws[0] == 0;
    var none: set<string> := {};
    assert none + {s0} == {s0};
    assert Accepted(draws, 2, {}) == [s0] + Accepted(draws[1..], 1, {s0});
    SkipsSeen(20, [1], 1, {s0});
    var s1 := Serial(1);
    assert [1][1..] == [];
    assert Accepted([1], 1, {s0}) == [s1] + Accepted([], 0, {s0, s1});
  }

  function Repeat(x: int, count: nat): (r: seq<int>)
    ensures |r| == count && forall k :: 0 <= k < count ==> r[k] == x
  {
    seq(count, _ => x)
  }

  /** Draws whose serial the filter already holds are skipped. */
  lemma {:induction false} SkipsSeen(count: nat, rest: seq<int>, n: nat, seen: set<string>)
    requires ValidDraws(rest) && Serial(0) in seen
    ensures ValidDraws(Repeat(0, count) + rest)
    ensures Accepted(Repeat(0, count) + rest, n, seen) == Accepted(rest, n, seen)
  {
    if count == 0 {
      assert Repeat(0, count) + rest == rest;
    } else if n > 0 {
      assert (Repeat(0, count) + rest)[0] == 0;
      assert (Repeat(0, count) + rest)[1..] == Repeat(0, count - 1) + rest;
      SkipsSeen(count - 1, rest, n, seen);
    }
  }

  /**
   * The generator with the attempt bound that `max_iterations = 10 *
   * num_serials` evidently intends: every draw, accepted or not, uses up
   * one attempt, so at most `10 * num_serials` draws are read.
   */
  method GenerateWithinBudget(numSerials: nat, draws: seq<int>) returns (r: seq<string>, attempts: nat)
    requires ValidDraws(draws)
    ensures attempts <= AttemptFactor * numSerials && attempts <= |draws|
    ensures r == Accepted(draws[..attempts], numSerials, {})
    ensures |r| == numSerials || attempts == AttemptFactor * numSerials || attempts == |draws|
  {
    var bf: set<string> := {};
    var numYielded: nat := 0;
    var maxIterations: nat := AttemptFactor * numSerials;
    attempts := 0;
    r := [];
    while numYielded < numSerials && maxIterations > 0 && attempts < |draws|
      invariant attempts <= |draws| && numYielded <= numSerials
      invariant attempts + maxIterations == AttemptFactor * numSerials
      invariant |r| == numYielded && bf == Elems(r)
      invariant r == Accepted(draws[..attempts], numSerials, {})
      decreases maxIterations
    {
      var macAddress := Serial(draws[attempts]);
      AcceptedSnoc(draws[..attempts], draws[attempts], numSerials, {});
      assert draws[..attempts + 1] == draws[..attempts] + [draws[attempts]];
      if macAddress !in bf {
        bf := bf + {macAddress};
        numYielded := numYielded + 1;
        ElemsSnoc(r, macAddress);
        r := r + [macAddress];
      }
      maxIterations := maxIterations - 1;
      attempts := attempts + 1;
    }
  }

  /** Reading one more draw extends the accepted serials by at most that draw's serial. */
  lemma {:induction false} AcceptedSnoc(draws: seq<int>, d: int, n: nat, seen: set<string>)
    requires ValidDraws(draws) && 0 <= d <= MaxDraw
    ensures ValidDraws(draws + [d])
    ensures var before := Accepted(draws, n, seen);
      Accepted(draws + [d], n, seen) ==
        if |before| < n && Serial(d) !in seen && Serial(d) !in before then before + [Serial(d)] else before
    decreases |draws|
  {
    if |draws| == 0 {
      assert ([] + [d])[1..] == [];
    } else if n > 0 {
      var s := Serial(draws[0]);
      assert (draws + [d])[1..] == draws[1..] + [d];
      if s in seen {
        AcceptedSnoc(draws[1..], d, n, seen);
      } else {
        AcceptedSnoc(draws[1..], d, n - 1, seen + {s});
      }
    }
  }

  /** Once `n` serials are accepted, later draws are never read. */
  lemma {:induction false} AcceptedStops(draws: seq<int>, more: seq<int>, n: nat, seen: set<string>)
    requires ValidDraws(draws) && ValidDraws(more) && |Accepted(draws, n, seen)| == n
    ensures ValidDraws(draws + more)
    ensures Accepted(draws + more, n, seen) == Accepted(draws, n, seen)
    decreases |draws|
  {
    if n > 0 {
      var s := Serial(draws[0]);
      assert (draws + more)[1..] == draws[1..] + more;
      if s in seen {
        AcceptedStops(draws[1..], more, n, seen);
      } else {
        AcceptedStops(draws[1..], more, n - 1, seen + {s});
      }
    }
  }
}
