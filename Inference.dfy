/**
  Rule evaluation and aggregation: the truth of a rule is the minimum of 1
  and the degrees of its present conditions, and the firing rules are merged
  into one term map per output channel by maximum.
 */
module Inference {
  import opened Wrappers

  /**
    One row of the rule table: three optional conditions (smoke, temperature,
    zone), three optional conclusions (sprinkler, alarm, ventilation) and a
    priority that only orders the rows for display.
   */
  datatype Rule = Rule(
    id: int,
    condSmoke: Option<string>, condTemperature: Option<string>, condZone: Option<string>,
    actSprinkler: Option<string>, actAlarm: Option<string>, actVentilation: Option<string>,
    priority: int)

  /** The fuzzified inputs: one term map per input variable. */
  datatype FuzzyInputs = FuzzyInputs(smoke: map<string, real>, temperature: map<string, real>, zone: map<string, real>)

  datatype Channel = Sprinkler | Alarm | Ventilation

  /**
    A clause counts as given when the column holds a non-empty string: both a
    NULL column and an empty string are false in the controller's `if` tests.
   */
  predicate Present(o: Option<string>)
  {
    o.Some? && o.value != ""
  }

  /** The degree of term `k` in `m`, 0 when the term is absent. */
  function Lookup(m: map<string, real>, k: string): real
  {
    if k in m then m[k] else 0.0
  }

  function Min(x: real, y: real): real
  {
    if x <= y then x else y
  }

  function Max(x: real, y: real): real
  {
    if x >= y then x else y
  }

  /** All degrees of all three input maps are non-negative (the fuzzifier makes them positive). */
  predicate NonNegative(fin: FuzzyInputs)
  {
    && (forall k :: k in fin.smoke ==> fin.smoke[k] >= 0.0)
    && (forall k :: k in fin.temperature ==> fin.temperature[k] >= 0.0)
    && (forall k :: k in fin.zone ==> fin.zone[k] >= 0.0)
  }

  /** The truth level of a rule, updated condition by condition starting at 1. */
  function RuleTruth(r: Rule, fin: FuzzyInputs): (truth: real)
    ensures truth <= 1.0
    ensures NonNegative(fin) ==> truth >= 0.0
  {
    var t0 := 1.0;
    var t1 := if Present(r.condSmoke) then Min(t0, Lookup(fin.smoke, r.condSmoke.value)) else t0;
    var t2 := if Present(r.condTemperature) then Min(t1, Lookup(fin.temperature, r.condTemperature.value)) else t1;
    var t3 := if Present(r.condZone) then Min(t2, Lookup(fin.zone, r.condZone.value)) else t2;
    t3
  }

  /** The degrees of the present conditions of a rule, in column order. */
  function ConditionDegrees(r: Rule, fin: FuzzyInputs): seq<real>
  {
    (if Present(r.condSmoke) then [Lookup(fin.smoke, r.condSmoke.value)] else [])
    + (if Present(r.condTemperature) then [Lookup(fin.temperature, r.condTemperature.value)] else [])
    + (if Present(r.condZone) then [Lookup(fin.zone, r.condZone.value)] else [])
  }

  /**
    The truth level is the minimum of 1 and the condition degrees: it is a
    lower bound of all of them and equals 1 or one of them. A rule without
    conditions always fires at full strength, and so does a rule whose
    conditions all hold to degree 1.
   */
  lemma RuleTruthIsMinimum(r: Rule, fin: FuzzyInputs)
    ensures forall d :: d in ConditionDegrees(r, fin) ==> RuleTruth(r, fin) <= d
    ensures RuleTruth(r, fin) == 1.0 || RuleTruth(r, fin) in ConditionDegrees(r, fin)
    ensures (forall d :: d in ConditionDegrees(r, fin) ==> d >= 1.0) ==> RuleTruth(r, fin) == 1.0
  {
  }

  /** The position of a rule in the list it belongs to. */
  lemma IndexOf(rules: seq<Rule>, r: Rule) returns (i: int)
    requires r in rules
    ensures 0 <= i < |rules| && rules[i] == r
  {
    i :| 0 <= i < |rules| && rules[i] == r;
  }

  predicate Fires(r: Rule, fin: FuzzyInputs)
  {
    RuleTruth(r, fin) > 0.0
  }

  function Conclusion(r: Rule, c: Channel): Option<string>
  {
    match c
    case Sprinkler => r.actSprinkler
    case Alarm => r.actAlarm
    case Ventilation => r.actVentilation
  }

  /**
    The term a rule activates on channel `c`, if any: a present conclusion,
    and for the ventilation channel only a term in `known` (the ventilation
    crisp table); an unknown ventilation term is skipped.
   */
  function Contribution(r: Rule, c: Channel, known: set<string>): Option<string>
  {
    var o := Conclusion(r, c);
    if Present(o) && (c == Ventilation ==> o.value in known) then Some(o.value) else None
  }

  /**
    The term map of channel `c` after the rules have been processed in order:
    a firing rule raises the degree of the term it activates to its truth
    level when that is larger.
   */
  function Fold(rules: seq<Rule>, fin: FuzzyInputs, c: Channel, known: set<string>): (m: map<string, real>)
    ensures forall t :: t in m ==> 0.0 < m[t] <= 1.0
    ensures c == Ventilation ==> m.Keys <= known
    decreases |rules|
  {
    if |rules| == 0 then map[]
    else
      var m := Fold(rules[..|rules| - 1], fin, c, known);
      var r := rules[|rules| - 1];
      var truth := RuleTruth(r, fin);
      var o := Contribution(r, c, known);
      if truth > 0.0 && o.Some? then m[o.value := Max(Lookup(m, o.value), truth)] else m
  }

  /**
    Aggregation by maximum: a term is in the channel map exactly when some
    firing rule activates it, its degree bounds the truth of every such rule
    and equals the truth of one of them.
   */
  lemma {:induction false} FoldIsMaximum(rules: seq<Rule>, fin: FuzzyInputs, c: Channel, known: set<string>)
    ensures forall t :: t in Fold(rules, fin, c, known) <==>
      exists r :: r in rules && Fires(r, fin) && Contribution(r, c, known) == Some(t)
    ensures forall r :: r in rules && Fires(r, fin) && Contribution(r, c, known).Some? ==>
      Contribution(r, c, known).value in Fold(rules, fin, c, known) &&
      RuleTruth(r, fin) <= Fold(rules, fin, c, known)[Contribution(r, c, known).value]
    ensures forall t :: t in Fold(rules, fin, c, known) ==>
      exists r :: r in rules && Fires(r, fin) && Contribution(r, c, known) == Some(t) &&
        Fold(rules, fin, c, known)[t] == RuleTruth(r, fin)
    decreases |rules|
  {
    if |rules| > 0 {
      var init := rules[..|rules| - 1];
      var last := rules[|rules| - 1];
      assert rules == init + [last];
      FoldIsMaximum(init, fin, c, known);
      var m0 := Fold(init, fin, c, known);
      var m := Fold(rules, fin, c, known);
      forall t | t in m
        ensures exists r :: r in rules && Fires(r, fin) && Contribution(r, c, known) == Some(t) && m[t] == RuleTruth(r, fin)
      {
        if Fires(last, fin) && Contribution(last, c, known) == Some(t) && m[t] == RuleTruth(last, fin) {
        } else {
          assert t in m0 && m[t] == m0[t];
          var r :| r in init && Fires(r, fin) && Contribution(r, c, known) == Some(t) && m0[t] == RuleTruth(r, fin);
          assert r in rules;
        }
      }
      forall r | r in rules && Fires(r, fin) && Contribution(r, c, known).Some?
        ensures Contribution(r, c, known).value in m && RuleTruth(r, fin) <= m[Contribution(r, c, known).value]
      {
        if r != last {
          assert r in init;
        }
      }
    }
  }

  /**
    The maximum characterisation determines the channel map: a map that
    bounds the truth of every firing rule at the term it activates, and whose
    every entry is the truth of such a rule, is the aggregated map.
   */
  lemma FoldUnique(rules: seq<Rule>, fin: FuzzyInputs, c: Channel, known: set<string>, m: map<string, real>)
    requires forall r :: r in rules && Fires(r, fin) && Contribution(r, c, known).Some? ==>
      Contribution(r, c, known).value in m && RuleTruth(r, fin) <= m[Contribution(r, c, known).value]
    requires forall t :: t in m ==>
      exists r :: r in rules && Fires(r, fin) && Contribution(r, c, known) == Some(t) && m[t] == RuleTruth(r, fin)
    ensures Fold(rules, fin, c, known) == m
  {
    var f := Fold(rules, fin, c, known);
    FoldIsMaximum(rules, fin, c, known);
    assert f.Keys == m.Keys by {
      forall t | t in f ensures t in m {
        var r :| r in rules && Fires(r, fin) && Contribution(r, c, known) == Some(t);
      }
      forall t | t in m ensures t in f {
        var r :| r in rules && Fires(r, fin) && Contribution(r, c, known) == Some(t) && m[t] == RuleTruth(r, fin);
      }
    }
    forall t | t in f ensures f[t] == m[t] {
      var r1 :| r1 in rules && Fires(r1, fin) && Contribution(r1, c, known) == Some(t) && f[t] == RuleTruth(r1, fin);
      var r2 :| r2 in rules && Fires(r2, fin) && Contribution(r2, c, known) == Some(t) && m[t] == RuleTruth(r2, fin);
    }
  }

  /**
    When exactly the rules at positions `i` and `j` fire, both with full
    truth and both contributing a term, the channel map holds exactly those
    two terms at degree 1 (one term when they name the same).
   */
  lemma FoldOfTwoFiring(rules: seq<Rule>, fin: FuzzyInputs, c: Channel, known: set<string>, i: int, j: int)
    requires 0 <= i < |rules| && 0 <= j < |rules|
    requires forall k :: 0 <= k < |rules| ==> (Fires(rules[k], fin) <==> k == i || k == j)
    requires Contribution(rules[i], c, known).Some? && Contribution(rules[j], c, known).Some?
    requires RuleTruth(rules[i], fin) == 1.0 && RuleTruth(rules[j], fin) == 1.0
    ensures Fold(rules, fin, c, known) ==
      map[Contribution(rules[i], c, known).value := 1.0, Contribution(rules[j], c, known).value := 1.0]
  {
    var ti, tj := Contribution(rules[i], c, known).value, Contribution(rules[j], c, known).value;
    var m := map[ti := 1.0, tj := 1.0];
    forall r | r in rules && Fires(r, fin) && Contribution(r, c, known).Some?
      ensures Contribution(r, c, known).value in m && RuleTruth(r, fin) <= m[Contribution(r, c, known).value]
    {
      var k := IndexOf(rules, r);
    }
    forall t | t in m
      ensures exists r :: r in rules && Fires(r, fin) && Contribution(r, c, known) == Some(t) && m[t] == RuleTruth(r, fin)
    {
      if t == tj {
        assert rules[j] in rules;
      } else {
        assert rules[i] in rules;
      }
    }
    FoldUnique(rules, fin, c, known, m);
  }

  /**
    The channel maps depend only on which rules are in the list: neither the
    order of the rows nor repeated rows change them.
   */
  lemma FoldDependsOnlyOnRuleSet(rules1: seq<Rule>, rules2: seq<Rule>, fin: FuzzyInputs, c: Channel, known: set<string>)
    requires forall r :: r in rules1 <==> r in rules2
    ensures Fold(rules1, fin, c, known) == Fold(rules2, fin, c, known)
  {
    FoldIsMaximum(rules1, fin, c, known);
    FoldUnique(rules2, fin, c, known, Fold(rules1, fin, c, known));
  }

  /** Reordering the rule list (for example by priority) leaves every channel map unchanged. */
  lemma FoldPermutation(rules1: seq<Rule>, rules2: seq<Rule>, fin: FuzzyInputs, c: Channel, known: set<string>)
    requires multiset(rules1) == multiset(rules2)
    ensures Fold(rules1, fin, c, known) == Fold(rules2, fin, c, known)
  {
    forall r ensures r in rules1 <==> r in rules2 {
      assert r in rules1 <==> r in multiset(rules1);
      assert r in rules2 <==> r in multiset(rules2);
    }
    FoldDependsOnlyOnRuleSet(rules1, rules2, fin, c, known);
  }

  /** Evaluating a rule a second time does not change any channel map (max-aggregation is idempotent). */
  lemma FoldRepeat(rules: seq<Rule>, r: Rule, fin: FuzzyInputs, c: Channel, known: set<string>)
    requires r in rules
    ensures Fold(rules + [r], fin, c, known) == Fold(rules, fin, c, known)
  {
    FoldDependsOnlyOnRuleSet(rules + [r], rules, fin, c, known);
  }

  /** Two rule lists that agree row by row on truth and activated term give the same channel map. */
  lemma {:induction false} FoldCongruent(rules1: seq<Rule>, rules2: seq<Rule>, fin: FuzzyInputs, c: Channel, known: set<string>)
    requires |rules1| == |rules2|
    requires forall i :: 0 <= i < |rules1| ==>
      RuleTruth(rules1[i], fin) == RuleTruth(rules2[i], fin) &&
      Contribution(rules1[i], c, known) == Contribution(rules2[i], c, known)
    ensures Fold(rules1, fin, c, known) == Fold(rules2, fin, c, known)
    decreases |rules1|
  {
    if |rules1| > 0 {
      var n := |rules1| - 1;
      FoldCongruent(rules1[..n], rules2[..n], fin, c, known);
      assert RuleTruth(rules1[n], fin) == RuleTruth(rules2[n], fin);
    }
  }

  /**
    A rule whose ventilation term is unknown contributes exactly what it
    would with no ventilation conclusion: its sprinkler and alarm
    activations stand and the ventilation map is untouched.
   */
  lemma UnknownVentilationTermIsSkipped(rules: seq<Rule>, i: int, fin: FuzzyInputs, c: Channel, known: set<string>)
    requires 0 <= i < |rules|
    requires rules[i].actVentilation.Some? && rules[i].actVentilation.value !in known
    ensures Fold(rules, fin, c, known) == Fold(rules[i := rules[i].(actVentilation := None)], fin, c, known)
  {
    var rules2 := rules[i := rules[i].(actVentilation := None)];
    forall j | 0 <= j < |rules|
      ensures RuleTruth(rules[j], fin) == RuleTruth(rules2[j], fin)
      ensures Contribution(rules[j], c, known) == Contribution(rules2[j], c, known)
    {
    }
    FoldCongruent(rules, rules2, fin, c, known);
  }
}
