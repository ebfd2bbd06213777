/**
  Defuzzification: the aggregated term map of one output channel becomes one
  crisp value, the average of the channel's crisp term values weighted by the
  term degrees. Sums are taken over a set of terms, so they do not depend on
  the order in which the terms are visited.
 */
module Defuzzifier {
  import opened Wrappers

  /** The sum of the degrees of the terms in `keys`. */
  ghost function Weight(m: map<string, real>, keys: set<string>): real
    requires keys <= m.Keys
    decreases keys
  {
    if keys == {} then 0.0
    else
      var t :| t in keys;
      m[t] + Weight(m, keys - {t})
  }

  /** The share degree times crisp value of every term that has a crisp value. */
  function Shares(m: map<string, real>, table: map<string, real>): (shares: map<string, real>)
    ensures shares.Keys == m.Keys * table.Keys
  {
    map t | t in m.Keys * table.Keys :: table[t] * m[t]
  }

  /** The sum of degree times crisp value over the terms in `keys`. */
  ghost function Moment(m: map<string, real>, table: map<string, real>, keys: set<string>): real
    requires keys <= m.Keys && keys <= table.Keys
  {
    Weight(Shares(m, table), keys)
  }

  /** The weighted average over `keys`, 0 when the weights sum to 0. */
  ghost function WeightedAverage(m: map<string, real>, table: map<string, real>, keys: set<string>): real
    requires keys <= m.Keys && keys <= table.Keys
  {
    var w := Weight(m, keys);
    if w == 0.0 then 0.0 else Moment(m, table, keys) / w
  }

  /** Adding one term to the summed set adds exactly that term's share, whichever term the sums pick first. */
  lemma SumAdd(m: map<string, real>, table: map<string, real>, keys: set<string>, t: string)
    requires keys <= m.Keys && keys <= table.Keys
    requires t in m && t in table && t !in keys
    ensures Weight(m, keys + {t}) == Weight(m, keys) + m[t]
    ensures Moment(m, table, keys + {t}) == Moment(m, table, keys) + table[t] * m[t]
  {
    WeightAdd(m, keys, t);
    WeightAdd(Shares(m, table), keys, t);
  }

  /** Adding one term to a sum of degrees adds exactly its degree, whichever term the sum picks first. */
  lemma {:induction false} WeightAdd(m: map<string, real>, keys: set<string>, t: string)
    requires keys <= m.Keys && t in m && t !in keys
    ensures Weight(m, keys + {t}) == Weight(m, keys) + m[t]
    decreases keys
  {
    var all := keys + {t};
    var u :| u in all && Weight(m, all) == m[u] + Weight(m, all - {u});
    if u != t {
      assert all - {u} == (keys - {u}) + {t};
      WeightAdd(m, keys - {u}, t);
      assert keys == (keys - {u}) + {u};
      WeightAdd(m, keys - {u}, u);
    } else {
      assert all - {u} == keys;
    }
  }

  /**
    With non-negative degrees and crisp values in [lo, hi], the weighted sum
    lies between lo and hi times the sum of the degrees.
   */
  lemma MomentBounds(m: map<string, real>, table: map<string, real>, keys: set<string>, lo: real, hi: real)
    requires keys <= m.Keys && keys <= table.Keys
    requires forall t :: t in keys ==> m[t] >= 0.0 && lo <= table[t] <= hi
    ensures lo * Weight(m, keys) <= Moment(m, table, keys) <= hi * Weight(m, keys)
  {
    var shares := Shares(m, table);
    var low := ScaleWeights(m, keys, lo);
    var high := ScaleWeights(m, keys, hi);
    SharesBetween(m, table, keys, lo, hi, low, high);
    WeightMonotone(low, shares, keys);
    WeightMonotone(shares, high, keys);
  }

  /** The degrees of `keys` scaled by `c`; their sum is `c` times the sum of the degrees. */
  lemma ScaleWeights(m: map<string, real>, keys: set<string>, c: real) returns (scaled: map<string, real>)
    requires keys <= m.Keys
    ensures scaled.Keys == keys
    ensures forall t :: t in keys ==> scaled[t] == c * m[t]
    ensures Weight(scaled, keys) == c * Weight(m, keys)
  {
    scaled := map t | t in keys :: c * m[t];
    WeightScale(m, scaled, c, keys);
  }

  /** Each share lies between the degree scaled by lo and by hi. */
  lemma SharesBetween(m: map<string, real>, table: map<string, real>, keys: set<string>, lo: real, hi: real,
                      low: map<string, real>, high: map<string, real>)
    requires keys <= m.Keys && keys <= table.Keys && keys <= low.Keys && keys <= high.Keys
    requires forall t :: t in keys ==> m[t] >= 0.0 && lo <= table[t] <= hi
    requires forall t :: t in keys ==> low[t] == lo * m[t] && high[t] == hi * m[t]
    ensures forall t :: t in keys ==> low[t] <= Shares(m, table)[t] <= high[t]
  {
    forall t | t in keys
      ensures low[t] <= Shares(m, table)[t] <= high[t]
    {
      ShareBetween(table[t], m[t], lo, hi, Shares(m, table)[t], low[t], high[t]);
    }
  }

  /** A crisp value in [lo, hi] times a non-negative degree lies between lo and hi times the degree. */
  lemma ShareBetween(v: real, w: real, lo: real, hi: real, share: real, low: real, high: real)
    requires lo <= v <= hi && w >= 0.0
    requires share == v * w && low == lo * w && high == hi * w
    ensures low <= share <= high
  {
    assert (v - lo) * w >= 0.0;
    assert (hi - v) * w >= 0.0;
  }

  /** Scaling every summed term by `c` scales the sum by `c`. */
  lemma WeightScale(m: map<string, real>, scaled: map<string, real>, c: real, keys: set<string>)
    requires keys <= m.Keys && keys <= scaled.Keys
    requires forall t :: t in keys ==> scaled[t] == c * m[t]
    ensures Weight(scaled, keys) == c * Weight(m, keys)
  {
    var s := Enumerate(m, scaled, keys);
    SeqScale(m, scaled, c, s);
  }

  /** The sum of the degrees of the terms listed in `s`, last term added last. */
  ghost function SeqWeight(m: map<string, real>, s: seq<string>): real
    requires forall i :: 0 <= i < |s| ==> s[i] in m
  {
    if s == [] then 0.0 else SeqWeight(m, s[..|s| - 1]) + m[s[|s| - 1]]
  }

  /** One listing of `keys` whose sum in order equals the order-free sum, for two maps at once. */
  lemma {:induction false} Enumerate(m: map<string, real>, n: map<string, real>, keys: set<string>) returns (s: seq<string>)
    requires keys <= m.Keys && keys <= n.Keys
    ensures forall i :: 0 <= i < |s| ==> s[i] in keys
    ensures Weight(m, keys) == SeqWeight(m, s) && Weight(n, keys) == SeqWeight(n, s)
    decreases keys
  {
    if keys == {} {
      s := [];
      assert Weight(m, keys) == 0.0 && Weight(n, keys) == 0.0;
    } else {
      var t :| t in keys;
      var rest := keys - {t};
      var init := Enumerate(m, n, rest);
      s := init + [t];
      assert s[..|s| - 1] == init;
      WeightAdd(m, rest, t);
      WeightAdd(n, rest, t);
      assert rest + {t} == keys;
    }
  }

  /** Scaling every listed term by `c` scales the sum in order by `c`. */
  lemma {:induction false} SeqScale(m: map<string, real>, scaled: map<string, real>, c: real, s: seq<string>)
    requires forall i :: 0 <= i < |s| ==> s[i] in m && s[i] in scaled && scaled[s[i]] == c * m[s[i]]
    ensures SeqWeight(scaled, s) == c * SeqWeight(m, s)
  {
    if s != [] {
      var init := s[..|s| - 1];
      SeqScale(m, scaled, c, init);
      ScaleStep(SeqWeight(m, init), m[s[|s| - 1]], c, SeqWeight(scaled, init), scaled[s[|s| - 1]], SeqWeight(m, s), SeqWeight(scaled, s));
    }
  }

  /** Scaling distributes over adding one term. */
  lemma ScaleStep(weight: real, w: real, c: real, sum: real, x: real, weight': real, sum': real)
    requires sum == c * weight && x == c * w
    requires weight' == weight + w && sum' == sum + x
    ensures sum' == c * weight'
  {
  }

  /** Summing termwise smaller numbers gives a smaller sum. */
  lemma {:induction false} WeightMonotone(small: map<string, real>, large: map<string, real>, keys: set<string>)
    requires keys <= small.Keys && keys <= large.Keys
    requires forall t :: t in keys ==> small[t] <= large[t]
    ensures Weight(small, keys) <= Weight(large, keys)
    decreases keys
  {
    if keys == {} {
      assert Weight(small, keys) == 0.0 && Weight(large, keys) == 0.0;
    } else {
      var t :| t in keys;
      var rest := keys - {t};
      WeightMonotone(small, large, rest);
      WeightAdd(small, rest, t);
      WeightAdd(large, rest, t);
      assert rest + {t} == keys;
    }
  }

  /** With positive degrees on a non-empty set of terms the weights sum to a positive number. */
  lemma WeightPositive(m: map<string, real>, keys: set<string>)
    requires keys <= m.Keys && keys != {}
    requires forall t :: t in keys ==> m[t] > 0.0
    ensures Weight(m, keys) > 0.0
  {
    var t :| t in keys;
    var rest := keys - {t};
    assert rest + {t} == keys;
    WeightAdd(m, rest, t);
    WeightNonNegative(m, rest);
  }

  lemma {:induction false} WeightNonNegative(m: map<string, real>, keys: set<string>)
    requires keys <= m.Keys
    requires forall t :: t in keys ==> m[t] >= 0.0
    ensures Weight(m, keys) >= 0.0
    decreases keys
  {
    if keys != {} {
      var t :| t in keys && Weight(m, keys) == m[t] + Weight(m, keys - {t});
      WeightNonNegative(m, keys - {t});
    }
  }

  /**
    The weighted average is a convex combination: when every term has a
    crisp value in [lo, hi] and the degrees sum to a positive number, the
    average lies in [lo, hi].
   */
  lemma AverageBetween(m: map<string, real>, table: map<string, real>, keys: set<string>, lo: real, hi: real)
    requires keys <= m.Keys && keys <= table.Keys
    requires forall t :: t in keys ==> m[t] >= 0.0 && lo <= table[t] <= hi
    ensures Weight(m, keys) > 0.0 ==> lo <= WeightedAverage(m, table, keys) <= hi
  {
    var w, p := Weight(m, keys), Moment(m, table, keys);
    if w > 0.0 {
      MomentBounds(m, table, keys, lo, hi);
      RatioBetween(p, w, lo, hi);
    }
  }

  /**
    For a non-empty map of positive degrees the division is always taken, and
    the average lies between the smallest and the largest crisp value present.
   */
  lemma AveragePositiveBetween(m: map<string, real>, table: map<string, real>, keys: set<string>, lo: real, hi: real)
    requires keys <= m.Keys && keys <= table.Keys && keys != {}
    requires forall t :: t in keys ==> m[t] > 0.0 && lo <= table[t] <= hi
    ensures Weight(m, keys) > 0.0
    ensures lo <= WeightedAverage(m, table, keys) <= hi
  {
    WeightPositive(m, keys);
    AverageBetween(m, table, keys, lo, hi);
  }

  /** A quotient whose numerator lies between lo and hi times a positive denominator lies in [lo, hi]. */
  lemma RatioBetween(p: real, w: real, lo: real, hi: real)
    requires w > 0.0 && lo * w <= p <= hi * w
    ensures lo <= p / w <= hi
  {
    assert p / w * w == p;
  }

  /** A table whose values lie in [0, 1] yields an average in [0, 1] for every map of non-negative degrees. */
  lemma AverageInUnit(m: map<string, real>, table: map<string, real>, keys: set<string>)
    requires keys <= m.Keys && keys <= table.Keys
    requires forall t :: t in keys ==> m[t] >= 0.0 && 0.0 <= table[t] <= 1.0
    ensures 0.0 <= WeightedAverage(m, table, keys) <= 1.0
  {
    WeightNonNegative(m, keys);
    AverageBetween(m, table, keys, 0.0, 1.0);
  }

  /** A single activated term {t: v} with v > 0 yields the crisp value of t. */
  lemma AverageSingle(table: map<string, real>, t: string, v: real)
    requires t in table && v > 0.0
    ensures WeightedAverage(map[t := v], table, {t}) == table[t]
  {
    var m := map[t := v];
    assert Weight(m, {t}) == v by {
      WeightAdd(m, {}, t);
      assert {} + {t} == {t};
    }
    assert Moment(m, table, {t}) == table[t] * v by {
      SumAdd(m, table, {}, t);
      assert {} + {t} == {t};
    }
  }

  /**
    Two activated terms: the degrees sum to m[t1] + m[t2] and the weighted
    crisp values to table[t1] * m[t1] + table[t2] * m[t2], so the result is their mean weighted by the degrees.
   */
  lemma AveragePair(m: map<string, real>, table: map<string, real>, t1: string, t2: string)
    requires t1 in m && t2 in m && t1 in table && t2 in table && t1 != t2
    ensures Weight(m, {t1, t2}) == m[t1] + m[t2]
    ensures Moment(m, table, {t1, t2}) == table[t1] * m[t1] + table[t2] * m[t2]
  {
    PairWeight(m, t1, t2);
    PairWeight(Shares(m, table), t1, t2);
  }

  /** The sum of two distinct terms' values. */
  lemma PairWeight(m: map<string, real>, t1: string, t2: string)
    requires t1 in m && t2 in m && t1 != t2
    ensures Weight(m, {t1, t2}) == m[t1] + m[t2]
  {
    WeightAdd(m, {}, t1);
    assert {} + {t1} == {t1};
    WeightAdd(m, {t1}, t2);
    assert {t1} + {t2} == {t1, t2};
  }

  /**
    The result of defuzzify_sprinkler / defuzzify_alarm as a function of the
    term map: None when some term has no crisp value (the KeyError of the
    lookup), and otherwise the weighted average (0 on an empty map or a zero sum).
   */
  ghost function StrictSpec(m: map<string, real>, table: map<string, real>): Option<real>
  {
    if m.Keys <= table.Keys then Some(WeightedAverage(m, table, m.Keys)) else None
  }

  /** The result of defuzzify_ventilation: terms without a crisp value are skipped. */
  ghost function LenientSpec(m: map<string, real>, table: map<string, real>): real
  {
    WeightedAverage(m, table, m.Keys * table.Keys)
  }

  /** One iteration of DefuzzifyStrict: visiting a term with a crisp value adds its share to both sums. */
  lemma StrictStep(m: map<string, real>, table: map<string, real>, todo: set<string>, term: string)
    requires todo <= m.Keys && m.Keys - todo <= table.Keys && term in todo && term in table
    ensures Weight(m, m.Keys - (todo - {term})) == Weight(m, m.Keys - todo) + m[term]
    ensures Moment(m, table, m.Keys - (todo - {term})) == Moment(m, table, m.Keys - todo) + table[term] * m[term]
  {
    assert (m.Keys - todo) + {term} == m.Keys - (todo - {term});
    SumAdd(m, table, m.Keys - todo, term);
  }

  /**
    One iteration of DefuzzifyLenient: a term without a crisp value leaves the
    summed set unchanged, and one with a crisp value adds its share.
   */
  lemma LenientStep(m: map<string, real>, table: map<string, real>, todo: set<string>, term: string)
    requires todo <= m.Keys && term in todo
    ensures term !in table ==> (m.Keys - (todo - {term})) * table.Keys == (m.Keys - todo) * table.Keys
    ensures term in table ==>
      Weight(m, (m.Keys - (todo - {term})) * table.Keys) == Weight(m, (m.Keys - todo) * table.Keys) + m[term]
    ensures term in table ==>
      Moment(m, table, (m.Keys - (todo - {term})) * table.Keys) == Moment(m, table, (m.Keys - todo) * table.Keys) + table[term] * m[term]
  {
    var done := (m.Keys - todo) * table.Keys;
    if term in table {
      assert done + {term} == (m.Keys - (todo - {term})) * table.Keys;
      SumAdd(m, table, done, term);
    } else {
      assert (m.Keys - (todo - {term})) * table.Keys == done;
    }
  }

  /**
    The loop of defuzzify_sprinkler and defuzzify_alarm (the two bodies are
    the same apart from the table): the empty map gives 0, a term missing from
    the table aborts with a lookup failure, and otherwise the result is the
    weighted average, or 0 when the degrees sum to 0.
   */
  method DefuzzifyStrict(m: map<string, real>, table: map<string, real>) returns (r: Option<real>)
    ensures r == StrictSpec(m, table)
    ensures m == map[] ==> r == Some(0.0)
    ensures r.None? <==> exists t :: t in m && t !in table
  {
    if |m| == 0 {
      assert m.Keys == {};
      return Some(0.0);
    }
    var numerator, denominator := 0.0, 0.0;
    var todo := m.Keys;
    while todo != {}
      invariant todo <= m.Keys
      invariant m.Keys - todo <= table.Keys
      invariant numerator == Moment(m, table, m.Keys - todo)
      invariant denominator == Weight(m, m.Keys - todo)
      decreases todo
    {
      var term :| term in todo;
      if term !in table {
        return None;
      }
      StrictStep(m, table, todo, term);
      numerator := numerator + table[term] * m[term];
      denominator := denominator + m[term];
      todo := todo - {term};
    }
    assert m.Keys - todo == m.Keys;
    r := Some(if denominator != 0.0 then numerator / denominator else 0.0);
  }

  /**
    The loop of defuzzify_ventilation: terms without a crisp value are
    skipped, and a zero sum of the remaining degrees (in particular an empty
    map) gives 0.
   */
  method DefuzzifyLenient(m: map<string, real>, table: map<string, real>) returns (r: real)
    ensures r == LenientSpec(m, table)
    ensures m.Keys * table.Keys == {} ==> r == 0.0
  {
    if |m| == 0 {
      assert m.Keys * table.Keys == {};
      return 0.0;
    }
    var numerator, denominator := 0.0, 0.0;
    var todo := m.Keys;
    while todo != {}
      invariant todo <= m.Keys
      invariant numerator == Moment(m, table, (m.Keys - todo) * table.Keys)
      invariant denominator == Weight(m, (m.Keys - todo) * table.Keys)
      decreases todo
    {
      var term :| term in todo;
      LenientStep(m, table, todo, term);
      todo := todo - {term};
      if term !in table {
        continue;
      }
      numerator := numerator + table[term] * m[term];
      denominator := denominator + m[term];
    }
    assert m.Keys - todo == m.Keys;
    if denominator == 0.0 {
      return 0.0;
    }
    r := numerator / denominator;
  }
}
