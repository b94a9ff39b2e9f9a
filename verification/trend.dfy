/**
  The deterministic trend series of the grid's trend card: seven day points, each
  holding one value per campaign, seeded from the campaign's id and clicks and from the
  day name's first character.
 */
module TrendCard {
  import opened Atoms

  /** The x-axis days, in display order. */
  const Days: seq<string> := ["Mon", "Tue", "Wed", "Thu", "Fri", "Sat", "Sun"]

  /** JavaScript's `a % b` for a positive divisor: the remainder takes the sign of `a`. */
  function JsRem(a: int, b: int): (r: int)
    requires b > 0
    ensures -b < r < b
    ensures a >= 0 ==> r >= 0
    ensures a <= 0 ==> r <= 0
    ensures (a - r) % b == 0
  {
    if a >= 0 then
      assert a == b * (a / b) + a % b;
      MultipleRem(b, a / b);
      a % b
    else
      var q, m := (-a) / b, (-a) % b;
      assert -a == b * q + m;
      assert a + m == b * -q;
      MultipleRem(b, -q);
      -m
  }

  lemma MultipleRem(b: int, k: int)
    requires b > 0
    ensures (b * k) % b == 0
  {
    var d, r := (b * k) / b, (b * k) % b;
    assert b * k == b * d + r && 0 <= r < b;
    assert r == b * (k - d);
    if k - d >= 1 {
      assert false;
    } else if k - d <= -1 {
      assert false;
    }
    assert k == d;
  }

  /** `c.id * (day.charCodeAt(0) + c.clicks)` */
  function Seed(c: Campaign, day: string): (s: int)
    requires |day| > 0
    ensures c.id >= 0 && c.clicks >= 0 ==> s >= 0
    ensures c.id == 0 ==> s == 0
  {
    c.id * ((day[0] as int) + c.clicks)
  }

  /** `(seed % 50) - 25`: always in [-74, 24], because the remainder of a negative seed is negative. */
  function Variance(c: Campaign, day: string): (v: int)
    requires |day| > 0
    ensures -74 <= v <= 24
  {
    JsRem(Seed(c, day), 50) - 25
  }

  /** For a non-negative id and click count the seed is non-negative and the variance lies in [-25, 24]. */
  lemma VarianceBounds(c: Campaign, day: string)
    requires |day| > 0 && c.id >= 0 && c.clicks >= 0
    ensures -25 <= Variance(c, day) <= 24
  {
    assert (day[0] as int) + c.clicks >= 0;
    assert Seed(c, day) >= 0;
  }

  /** `(n / 7.0 + v).Floor` is `n / 7 + v` in Euclidean integer division, for every sign of `n`. */
  lemma FloorOfSeventh(n: int, v: int)
    ensures ((n as real) / 7.0 + v as real).Floor == n / 7 + v
  {
    var q, m := n / 7, n % 7;
    assert n == 7 * q + m && 0 <= m < 7;
    var x := (n as real) / 7.0 + v as real;
    assert x == (q + v) as real + (m as real) / 7.0;
    assert (q + v) as real <= x < (q + v + 1) as real;
  }

  /**
    `Math.max(0, Math.floor(c.clicks / 7 + randomVariance))`: the floor of the real
    quotient plus the variance, clamped at zero.
   */
  function TrendValue(c: Campaign, day: string): (v: int)
    requires |day| > 0
    ensures v >= 0
    ensures var y := ((c.clicks as real) / 7.0 + Variance(c, day) as real).Floor; v == if y < 0 then 0 else y
  {
    FloorOfSeventh(c.clicks, Variance(c, day));
    var y := c.clicks / 7 + Variance(c, day);
    if y < 0 then 0 else y
  }

  /** Only the first character of the day name enters the seed. */
  lemma TrendValueUsesInitial(c: Campaign, d1: string, d2: string)
    requires |d1| > 0 && |d2| > 0 && d1[0] == d2[0]
    ensures TrendValue(c, d1) == TrendValue(c, d2)
  {
  }

  /** A field of a day point: the `name` label or a per-campaign count. */
  datatype Field = Label(day: string) | Count(n: int)

  function NamesOf(cs: seq<Campaign>): set<string> {
    set i | 0 <= i < |cs| :: cs[i].name
  }

  /** Campaign `i` is the last one carrying its name, so its value is the one that survives. */
  predicate LastOfName(cs: seq<Campaign>, i: int)
    requires 0 <= i < |cs|
  {
    forall j :: i < j < |cs| ==> cs[j].name != cs[i].name
  }

  /**
    `dayData = { name: day }` and then `dayData[c.name] = value` for each campaign in
    order: a later campaign with the same name overwrites an earlier one, and a campaign
    named "name" overwrites the day label.
   */
  function DayPoint(day: string, cs: seq<Campaign>): (p: map<string, Field>)
    requires |day| > 0
    ensures p.Keys == {"name"} + NamesOf(cs)
    ensures forall k :: k in p && p[k].Count? ==> p[k].n >= 0
    ensures forall k :: k in p && k != "name" ==> p[k].Count?
    ensures "name" !in NamesOf(cs) ==> p["name"] == Label(day)
    decreases |cs|
  {
    if |cs| == 0 then map["name" := Label(day)]
    else
      var init, last := cs[..|cs| - 1], cs[|cs| - 1];
      NamesOfSnoc(cs);
      DayPoint(day, init)[last.name := Count(TrendValue(last, day))]
  }

  lemma NamesOfSnoc(cs: seq<Campaign>)
    requires |cs| > 0
    ensures NamesOf(cs) == NamesOf(cs[..|cs| - 1]) + {cs[|cs| - 1].name}
  {
    var init := cs[..|cs| - 1];
    assert forall i :: 0 <= i < |init| ==> init[i] == cs[i];
    forall k | k in NamesOf(cs)
      ensures k in NamesOf(init) + {cs[|cs| - 1].name}
    {
      var i :| 0 <= i < |cs| && cs[i].name == k;
      if i < |cs| - 1 {
        assert init[i].name == k;
      }
    }
  }

  /** Each campaign's count is present under its name, taken from the last campaign of that name. */
  lemma {:induction false} DayPointCounts(day: string, cs: seq<Campaign>)
    requires |day| > 0
    ensures forall i :: 0 <= i < |cs| && LastOfName(cs, i) ==> DayPoint(day, cs)[cs[i].name] == Count(TrendValue(cs[i], day))
    decreases |cs|
  {
    if |cs| > 0 {
      var init, last := cs[..|cs| - 1], cs[|cs| - 1];
      DayPointCounts(day, init);
      forall i | 0 <= i < |cs| && LastOfName(cs, i)
        ensures DayPoint(day, cs)[cs[i].name] == Count(TrendValue(cs[i], day))
      {
        if i < |cs| - 1 {
          assert cs[|cs| - 1].name != cs[i].name;
          assert init[i] == cs[i];
          assert LastOfName(init, i);
        }
      }
    }
  }

  /** `trendData`: one point per day, in order. */
  function TrendData(cs: seq<Campaign>): (points: seq<map<string, Field>>)
    ensures |points| == 7
    ensures forall d :: 0 <= d < 7 ==> "name" in points[d]
    ensures forall d, k :: 0 <= d < 7 && k in points[d] && points[d][k].Count? ==> points[d][k].n >= 0
    ensures "name" !in NamesOf(cs) ==> forall d :: 0 <= d < 7 ==> points[d]["name"] == Label(Days[d])
    ensures forall d :: 0 <= d < 7 ==> points[d].Keys == {"name"} + NamesOf(cs)
    ensures forall d, i :: 0 <= d < 7 && 0 <= i < |cs| && LastOfName(cs, i) ==> points[d][cs[i].name] == Count(TrendValue(cs[i], Days[d]))
  {
    EveryDayCounts(cs);
    seq(7, d requires 0 <= d < 7 => DayPoint(Days[d], cs))
  }

  /** `DayPointCounts` for each of the seven days. */
  lemma EveryDayCounts(cs: seq<Campaign>)
    ensures forall d, i :: 0 <= d < 7 && 0 <= i < |cs| && LastOfName(cs, i) ==> DayPoint(Days[d], cs)[cs[i].name] == Count(TrendValue(cs[i], Days[d]))
  {
    forall d | 0 <= d < 7 {
      DayPointCounts(Days[d], cs);
    }
  }

  /**
    Two days with the same initial give the same point, apart from the day label: the
    same keys, and the same count under every key that holds a count.
   */
  lemma {:induction false} SameInitialSamePoint(d1: string, d2: string, cs: seq<Campaign>)
    requires |d1| > 0 && |d2| > 0 && d1[0] == d2[0]
    ensures DayPoint(d1, cs).Keys == DayPoint(d2, cs).Keys
    ensures forall k :: k in DayPoint(d1, cs) && DayPoint(d1, cs)[k].Count? ==> DayPoint(d2, cs)[k] == DayPoint(d1, cs)[k]
    decreases |cs|
  {
    if |cs| > 0 {
      SameInitialSamePoint(d1, d2, cs[..|cs| - 1]);
      TrendValueUsesInitial(cs[|cs| - 1], d1, d2);
    }
  }

  /** So Tuesday repeats Thursday and Saturday repeats Sunday, for every campaign list. */
  lemma RepeatedDays(cs: seq<Campaign>)
    ensures forall k :: k in TrendData(cs)[1] && TrendData(cs)[1][k].Count? ==> TrendData(cs)[3][k] == TrendData(cs)[1][k]
    ensures forall k :: k in TrendData(cs)[5] && TrendData(cs)[5][k].Count? ==> TrendData(cs)[6][k] == TrendData(cs)[5][k]
  {
    SameInitialSamePoint(Days[1], Days[3], cs);
    SameInitialSamePoint(Days[5], Days[6], cs);
  }
}
