/**
 * The intra-day time-slot grid `product(range(24), range(60), range(0, 60, 10))`
 * and the readings of one meter for one day, one per slot in slot order.
 */
module TimeSlots {

  /** An `(hour, minute, second)` triple. */
  type Slot = (int, int, int)

  /**
   * Python's `range(start, stop, step)` for a positive step: `start`,
   * `start + step`, … while below `stop`.
   */
  function Range(start: int, stop: int, step: nat): (r: seq<int>)
    requires step > 0
  {
    var count := if start >= stop then 0 else (stop - start - 1) / step + 1;
    seq(count, k requires 0 <= k < count => start + step * k)
  }

  predicate Increasing(s: seq<int>)
  {
    forall i, j :: 0 <= i < j < |s| ==> s[i] < s[j]
  }

  /** `range(24)`: the 24 hours of a day, in order. */
  lemma HourAxis()
    ensures |Range(0, 24, 1)| == 24 && Increasing(Range(0, 24, 1))
    ensures forall x :: x in Range(0, 24, 1) <==> 0 <= x < 24
  {
    var r := Range(0, 24, 1);
    forall x | 0 <= x < 24 ensures x in r {
      assert r[x] == x;
    }
  }

  /** `range(60)`: the 60 minutes of an hour, in order. */
  lemma MinuteAxis()
    ensures |Range(0, 60, 1)| == 60 && Increasing(Range(0, 60, 1))
    ensures forall x :: x in Range(0, 60, 1) <==> 0 <= x < 60
  {
    var r := Range(0, 60, 1);
    forall x | 0 <= x < 60 ensures x in r {
      assert r[x] == x;
    }
  }

  /** `range(0, 60, 10)`: the six ten-second marks of a minute, in order. */
  lemma SecondAxis()
    ensures Range(0, 60, 10) == [0, 10, 20, 30, 40, 50] && Increasing(Range(0, 60, 10))
    ensures forall x :: x in Range(0, 60, 10) <==> 0 <= x < 60 && x % 10 == 0
  {
    var r := Range(0, 60, 10);
    forall x | 0 <= x < 60 && x % 10 == 0 ensures x in r {
      assert r[x / 10] == x;
    }
  }

  /** The triples `(h, m, z)` for `z` in `zs`, in order. */
  function Seconds(h: int, m: int, zs: seq<int>): seq<Slot>
  {
    seq(|zs|, k requires 0 <= k < |zs| => (h, m, zs[k]))
  }

  /** The triples `(h, y, z)` for `y` in `ys`, `z` in `zs`, the last varying fastest. */
  function Minutes(h: int, ys: seq<int>, zs: seq<int>): seq<Slot>
  {
    if ys == [] then [] else Seconds(h, ys[0], zs) + Minutes(h, ys[1..], zs)
  }

  /** `itertools.product(xs, ys, zs)`: all triples, the rightmost component varying fastest. */
  function Product(xs: seq<int>, ys: seq<int>, zs: seq<int>): seq<Slot>
  {
    if xs == [] then [] else Minutes(xs[0], ys, zs) + Product(xs[1..], ys, zs)
  }

  /** The grid every file's readings follow: every ten seconds of the day. */
  function TimeComponents(): seq<Slot>
  {
    Product(Range(0, 24, 1), Range(0, 60, 1), Range(0, 60, 10))
  }

  /** Lexicographic order on triples, the order of the times of day they denote. */
  predicate Before(a: Slot, b: Slot)
  {
    a.0 < b.0 || (a.0 == b.0 && (a.1 < b.1 || (a.1 == b.1 && a.2 < b.2)))
  }

  predicate StrictlySorted(s: seq<Slot>)
  {
    forall i, j :: 0 <= i < j < |s| ==> Before(s[i], s[j])
  }

  lemma ConcatSorted(a: seq<Slot>, b: seq<Slot>)
    requires StrictlySorted(a) && StrictlySorted(b)
    requires forall i, j :: 0 <= i < |a| && 0 <= j < |b| ==> Before(a[i], b[j])
    ensures StrictlySorted(a + b)
  {
    forall i, j | 0 <= i < j < |a + b|
      ensures Before((a + b)[i], (a + b)[j])
    {
      if j < |a| {
      } else if i < |a| {
        assert Before(a[i], b[j - |a|]);
      } else {
        assert Before(b[i - |a|], b[j - |a|]);
      }
    }
  }

  lemma MulStep(a: nat, b: nat)
    requires a > 0
    ensures b + (a - 1) * b == a * b
  {
  }

  lemma SplitHead(s: seq<int>)
    requires s != []
    ensures forall x :: x in s <==> x == s[0] || x in s[1..]
  {
    assert s == [s[0]] + s[1..];
  }

  /** The triples of one minute: exactly `(h, m, z)` for `z` in `zs`. */
  lemma SecondsMembers(h: int, m: int, zs: seq<int>)
    ensures forall t :: t in Seconds(h, m, zs) <==> t.0 == h && t.1 == m && t.2 in zs
  {
    forall t: Slot | t.0 == h && t.1 == m && t.2 in zs
      ensures t in Seconds(h, m, zs)
    {
      var k :| 0 <= k < |zs| && zs[k] == t.2;
      assert Seconds(h, m, zs)[k] == t;
    }
  }

  /** One hour's block has `|ys| * |zs|` triples. */
  lemma {:induction false} MinutesSize(h: int, ys: seq<int>, zs: seq<int>)
    ensures |Minutes(h, ys, zs)| == |ys| * |zs|
  {
    if ys != [] {
      MinutesSize(h, ys[1..], zs);
      MulStep(|ys|, |zs|);
    }
  }

  /** One hour's block holds exactly the triples `(h, y, z)` with `y` in `ys`, `z` in `zs`. */
  lemma {:induction false} MinutesMembers(h: int, ys: seq<int>, zs: seq<int>)
    ensures forall t :: t in Minutes(h, ys, zs) <==> t.0 == h && t.1 in ys && t.2 in zs
  {
    if ys != [] {
      MinutesMembers(h, ys[1..], zs);
      SecondsMembers(h, ys[0], zs);
      SplitHead(ys);
    }
  }

  /** One hour's block is sorted when `ys` and `zs` are increasing. */
  lemma {:induction false} MinutesSorted(h: int, ys: seq<int>, zs: seq<int>)
    requires Increasing(ys) && Increasing(zs)
    ensures StrictlySorted(Minutes(h, ys, zs))
  {
    if ys != [] {
      var row := Seconds(h, ys[0], zs);
      var rest := Minutes(h, ys[1..], zs);
      MinutesSorted(h, ys[1..], zs);
      MinutesMembers(h, ys[1..], zs);
      forall i, j | 0 <= i < |row| && 0 <= j < |rest|
        ensures Before(row[i], rest[j])
      {
        assert rest[j] in rest;
        var q :| 0 <= q < |ys| - 1 && ys[1..][q] == rest[j].1;
        assert ys[q + 1] == rest[j].1;
      }
      ConcatSorted(row, rest);
    }
  }

  /** The product has `|xs| * |ys| * |zs|` triples. */
  lemma {:induction false} ProductSize(xs: seq<int>, ys: seq<int>, zs: seq<int>)
    ensures |Product(xs, ys, zs)| == |xs| * (|ys| * |zs|)
  {
    if xs != [] {
      MinutesSize(xs[0], ys, zs);
      ProductSize(xs[1..], ys, zs);
      MulStep(|xs|, |ys| * |zs|);
    }
  }

  /** The product holds exactly the combinations of its inputs. */
  lemma {:induction false} ProductMembers(xs: seq<int>, ys: seq<int>, zs: seq<int>)
    ensures forall t :: t in Product(xs, ys, zs) <==> t.0 in xs && t.1 in ys && t.2 in zs
  {
    if xs != [] {
      MinutesMembers(xs[0], ys, zs);
      ProductMembers(xs[1..], ys, zs);
      SplitHead(xs);
    }
  }

  /** The product is in lexicographic order when its inputs are increasing. */
  lemma {:induction false} ProductSorted(xs: seq<int>, ys: seq<int>, zs: seq<int>)
    requires Increasing(xs) && Increasing(ys) && Increasing(zs)
    ensures StrictlySorted(Product(xs, ys, zs))
  {
    if xs != [] {
      var block := Minutes(xs[0], ys, zs);
      var rest := Product(xs[1..], ys, zs);
      MinutesSorted(xs[0], ys, zs);
      MinutesMembers(xs[0], ys, zs);
      ProductSorted(xs[1..], ys, zs);
      ProductMembers(xs[1..], ys, zs);
      forall i, j | 0 <= i < |block| && 0 <= j < |rest|
        ensures Before(block[i], rest[j])
      {
        assert block[i] in block && rest[j] in rest;
        var q :| 0 <= q < |xs| - 1 && xs[1..][q] == rest[j].0;
        assert xs[q + 1] == rest[j].0;
      }
      ConcatSorted(block, rest);
    }
  }

  /** The grid has 24 * 60 * 6 = 8640 slots. */
  lemma TimeGridSize()
    ensures |TimeComponents()| == 8640
  {
    var hours, minutes, seconds := Range(0, 24, 1), Range(0, 60, 1), Range(0, 60, 10);
    assert |hours| == 24 && |minutes| == 60 && |seconds| == 6 by {
      HourAxis();
      MinuteAxis();
      SecondAxis();
    }
    GridSize(hours, minutes, seconds);
  }

  lemma GridSize(hours: seq<int>, minutes: seq<int>, seconds: seq<int>)
    requires |hours| == 24 && |minutes| == 60 && |seconds| == 6
    ensures |Product(hours, minutes, seconds)| == 8640
  {
    ProductSize(hours, minutes, seconds);
  }

  /** The grid's slots are in strictly increasing time order. */
  lemma TimeGridSorted()
    ensures StrictlySorted(TimeComponents())
  {
    var hours, minutes, seconds := Range(0, 24, 1), Range(0, 60, 1), Range(0, 60, 10);
    assert Increasing(hours) && Increasing(minutes) && Increasing(seconds) by {
      HourAxis();
      MinuteAxis();
      SecondAxis();
    }
    ProductSorted(hours, minutes, seconds);
  }

  /** A triple is on the grid exactly when it is a time of day whose second is a multiple of ten. */
  lemma TimeGridMembers()
    ensures forall t :: t in TimeComponents() <==>
      0 <= t.0 < 24 && 0 <= t.1 < 60 && 0 <= t.2 < 60 && t.2 % 10 == 0
  {
    var hours, minutes, seconds := Range(0, 24, 1), Range(0, 60, 1), Range(0, 60, 10);
    assert forall x :: x in hours <==> 0 <= x < 24 by { HourAxis(); }
    assert forall x :: x in minutes <==> 0 <= x < 60 by { MinuteAxis(); }
    assert forall x :: x in seconds <==> 0 <= x < 60 && x % 10 == 0 by { SecondAxis(); }
    GridMembers(hours, minutes, seconds);
  }

  lemma GridMembers(hours: seq<int>, minutes: seq<int>, seconds: seq<int>)
    requires forall x :: x in hours <==> 0 <= x < 24
    requires forall x :: x in minutes <==> 0 <= x < 60
    requires forall x :: x in seconds <==> 0 <= x < 60 && x % 10 == 0
    ensures forall t :: t in Product(hours, minutes, seconds) <==>
      0 <= t.0 < 24 && 0 <= t.1 < 60 && 0 <= t.2 < 60 && t.2 % 10 == 0
  {
    ProductMembers(hours, minutes, seconds);
  }

  /** A reading's time: a day number and a time of day. */
  datatype Timestamp = Timestamp(day: int, time: Slot)

  /**
   * One line of a meter's file. The value `round(random.uniform(0.0, 0.9), 3)`
   * is kept as an integer number of thousandths drawn by the caller.
   */
  datatype Reading = Reading(timestamp: Timestamp, thousandths: int)

  /**
   * The readings of one meter for day `day`: one per slot of `tc`, the
   * `k`-th stamped with the `k`-th slot and carrying the `k`-th drawn value.
   */
  function Readings(day: int, tc: seq<Slot>, values: seq<int>): (r: seq<Reading>)
    requires |values| == |tc|
    ensures |r| == |tc|
  {
    seq(|tc|, k requires 0 <= k < |tc| => Reading(Timestamp(day, tc[k]), values[k]))
  }

  /**
   * A day's file holds 8640 readings, the `k`-th stamped with that day and
   * the `k`-th slot of the grid and carrying the `k`-th value drawn; so
   * they are in strictly increasing time order.
   */
  lemma DayReadings(day: int, values: seq<int>)
    requires |values| == |TimeComponents()|
    ensures var r := Readings(day, TimeComponents(), values);
      |r| == 8640
      && (forall k :: 0 <= k < |r| ==> r[k].timestamp == Timestamp(day, TimeComponents()[k]))
      && (forall k :: 0 <= k < |r| ==> r[k].timestamp.day == day && r[k].thousandths == values[k])
      && (forall i, j :: 0 <= i < j < |r| ==> Before(r[i].timestamp.time, r[j].timestamp.time))
  {
    var tc := TimeComponents();
    TimeGridSize();
    TimeGridSorted();
    ReadingsInOrder(day, tc, values);
  }

  /** Readings follow their slots: reading `k` is stamped with slot `k` and carries value `k`, sorted if the slots are. */
  lemma ReadingsInOrder(day: int, tc: seq<Slot>, values: seq<int>)
    requires |values| == |tc| && StrictlySorted(tc)
    ensures var r := Readings(day, tc, values);
      (forall k :: 0 <= k < |r| ==> r[k].timestamp == Timestamp(day, tc[k]))
      && (forall k :: 0 <= k < |r| ==> r[k].timestamp.day == day && r[k].thousandths == values[k])
      && (forall i, j :: 0 <= i < j < |r| ==> Before(r[i].timestamp.time, r[j].timestamp.time))
  {
  }
}
