/**
  Fuzzification: a crisp value becomes a map from set name to membership
  degree, keeping only strictly positive degrees. The fuzzy-set rows of one
  variable (the result of the configuration query) are passed in as a sequence.
 */
module Fuzzifier {
  import opened Membership

  /**
    The map the fuzzifier builds after processing `sets` in order: each set
    with a positive degree writes its entry, so a later set of the same name
    overwrites an earlier one, and a set with degree 0 writes nothing.
   */
  function FuzzifySpec(x: real, sets: seq<FuzzySet>): (m: map<string, real>)
    ensures forall k :: k in m ==> 0.0 < m[k] <= 1.0
    decreases |sets|
  {
    if |sets| == 0 then map[]
    else
      var m := FuzzifySpec(x, sets[..|sets| - 1]);
      var s := sets[|sets| - 1];
      var mu := Degree(x, s);
      if mu > 0.0 then m[s.name := mu] else m
  }

  /** The loop of the fuzzifier over the set rows of one variable. */
  method Fuzzify(x: real, sets: seq<FuzzySet>) returns (m: map<string, real>)
    ensures m == FuzzifySpec(x, sets)
    ensures forall k :: k in m ==> 0.0 < m[k] <= 1.0
  {
    m := map[];
    for i := 0 to |sets|
      invariant m == FuzzifySpec(x, sets[..i])
    {
      var s := sets[i];
      var membership := Degree(x, s);
      if membership > 0.0 {
        m := m[s.name := membership];
      }
      assert sets[..i + 1][..i] == sets[..i];
    }
    assert sets[..|sets|] == sets;
  }

  /**
    A name is a key exactly when some set of that name has positive degree,
    and every entry is the degree of some set of that name.
   */
  lemma {:induction false} FuzzifyEntries(x: real, sets: seq<FuzzySet>)
    ensures forall k :: k in FuzzifySpec(x, sets) <==>
      exists i :: 0 <= i < |sets| && sets[i].name == k && Degree(x, sets[i]) > 0.0
    ensures forall k :: k in FuzzifySpec(x, sets) ==>
      exists i :: 0 <= i < |sets| && sets[i].name == k && FuzzifySpec(x, sets)[k] == Degree(x, sets[i])
    decreases |sets|
  {
    if |sets| > 0 {
      var init := sets[..|sets| - 1];
      FuzzifyEntries(x, init);
      forall k | k in FuzzifySpec(x, init)
        ensures exists i :: 0 <= i < |sets| && sets[i].name == k && Degree(x, sets[i]) > 0.0
      {
        var i :| 0 <= i < |init| && init[i].name == k && Degree(x, init[i]) > 0.0;
        assert sets[i] == init[i];
      }
      forall k | k in FuzzifySpec(x, init)
        ensures exists i :: 0 <= i < |sets| && sets[i].name == k && FuzzifySpec(x, init)[k] == Degree(x, sets[i])
      {
        var i :| 0 <= i < |init| && init[i].name == k && FuzzifySpec(x, init)[k] == Degree(x, init[i]);
        assert sets[i] == init[i];
      }
      forall k | exists i :: 0 <= i < |sets| && sets[i].name == k && Degree(x, sets[i]) > 0.0
        ensures k in FuzzifySpec(x, sets)
      {
        var i :| 0 <= i < |sets| && sets[i].name == k && Degree(x, sets[i]) > 0.0;
        if i < |init| {
          assert init[i] == sets[i];
        }
      }
    }
  }

  /** Only names of sets with a positive degree can become keys. */
  lemma FuzzifyKeysWithin(x: real, sets: seq<FuzzySet>, allowed: set<string>)
    requires forall i :: 0 <= i < |sets| ==> sets[i].name in allowed || Degree(x, sets[i]) == 0.0
    ensures FuzzifySpec(x, sets).Keys <= allowed
  {
    FuzzifyEntries(x, sets);
  }

  /** When the set names are distinct, each set's entry is exactly its positive degree (or absent when 0). */
  lemma FuzzifyDistinct(x: real, sets: seq<FuzzySet>, i: int)
    requires forall p, q :: 0 <= p < q < |sets| ==> sets[p].name != sets[q].name
    requires 0 <= i < |sets|
    ensures Degree(x, sets[i]) > 0.0 ==>
      sets[i].name in FuzzifySpec(x, sets) && FuzzifySpec(x, sets)[sets[i].name] == Degree(x, sets[i])
    ensures Degree(x, sets[i]) == 0.0 ==> sets[i].name !in FuzzifySpec(x, sets)
  {
    FuzzifyEntries(x, sets);
    var k := sets[i].name;
    if k in FuzzifySpec(x, sets) {
      var j :| 0 <= j < |sets| && sets[j].name == k && FuzzifySpec(x, sets)[k] == Degree(x, sets[j]);
      assert j == i;
    }
  }

  /**
    When the set names are distinct the fuzzified map is determined by the
    degrees: it is the one map holding exactly the positive degrees under
    their set names.
   */
  lemma FuzzifyUnique(x: real, sets: seq<FuzzySet>, m: map<string, real>)
    requires forall p, q :: 0 <= p < q < |sets| ==> sets[p].name != sets[q].name
    requires forall i :: 0 <= i < |sets| && Degree(x, sets[i]) > 0.0 ==>
      sets[i].name in m && m[sets[i].name] == Degree(x, sets[i])
    requires forall k :: k in m ==> exists i :: 0 <= i < |sets| && sets[i].name == k && Degree(x, sets[i]) > 0.0
    ensures FuzzifySpec(x, sets) == m
  {
    var f := FuzzifySpec(x, sets);
    FuzzifyEntries(x, sets);
    forall k | k in m ensures k in f && f[k] == m[k] {
      var i :| 0 <= i < |sets| && sets[i].name == k && Degree(x, sets[i]) > 0.0;
      FuzzifyDistinct(x, sets, i);
    }
    forall k | k in f ensures k in m {
      var i :| 0 <= i < |sets| && sets[i].name == k && Degree(x, sets[i]) > 0.0;
    }
    assert f.Keys == m.Keys;
  }

  /** A variable with no fuzzy sets fuzzifies to the empty map. */
  lemma FuzzifyEmpty(x: real)
    ensures FuzzifySpec(x, []) == map[]
  {
  }
}
