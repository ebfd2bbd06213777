/**
  The fire-suppression knowledge base written by the database setup script:
  the fuzzy sets of smoke, temperature and zone risk, and the thirteen rules.
  Facts about this configuration, and two end-to-end scenarios.
 */
module KnowledgeBase {
  import opened Wrappers
  import opened Membership
  import opened Fuzzifier
  import opened Inference
  import opened Defuzzifier
  import opened FuzzySystem

  const SmokeSets: seq<FuzzySet> := [
    FuzzySet("none", 0.0, 0.0, 10.0, 20.0),
    FuzzySet("low", 10.0, 20.0, 30.0, 40.0),
    FuzzySet("medium", 30.0, 40.0, 60.0, 70.0),
    FuzzySet("high", 60.0, 70.0, 100.0, 100.0)
  ]

  const TemperatureSets: seq<FuzzySet> := [
    FuzzySet("normal", 0.0, 0.0, 30.0, 40.0),
    FuzzySet("warm", 30.0, 40.0, 60.0, 70.0),
    FuzzySet("hot", 60.0, 70.0, 100.0, 120.0),
    FuzzySet("critical", 100.0, 120.0, 200.0, 200.0)
  ]

  const ZoneSets: seq<FuzzySet> := [
    FuzzySet("safe", 0.0, 0.0, 1.0, 2.0),
    FuzzySet("risk", 1.0, 2.0, 3.0, 4.0),
    FuzzySet("danger", 3.0, 4.0, 5.0, 5.0)
  ]

  /** The rules in the order they are written; the ids are the row numbers the table assigns, 1 to 13. */
  const Rules: seq<Rule> := [
    Rule(1, Some("high"), None, None, Some("high"), Some("on"), Some("immediate"), 10),
    Rule(2, None, Some("critical"), None, Some("high"), Some("on"), Some("immediate"), 10),
    Rule(3, Some("medium"), Some("hot"), None, Some("medium"), Some("on"), Some("prepare"), 9),
    Rule(4, Some("medium"), None, Some("danger"), Some("medium"), Some("on"), Some("prepare"), 9),
    Rule(5, Some("low"), Some("warm"), Some("risk"), Some("low"), Some("on"), Some("none"), 8),
    Rule(6, Some("low"), None, Some("risk"), Some("low"), Some("warning"), Some("none"), 7),
    Rule(7, None, Some("warm"), Some("risk"), Some("low"), Some("warning"), Some("none"), 7),
    Rule(8, None, Some("hot"), Some("danger"), Some("medium"), Some("on"), Some("prepare"), 8),
    Rule(9, None, Some("hot"), Some("risk"), Some("low"), Some("on"), Some("none"), 7),
    Rule(10, None, Some("hot"), None, Some("low"), Some("warning"), Some("none"), 6),
    Rule(11, Some("none"), Some("normal"), Some("safe"), Some("off"), Some("off"), Some("none"), 5),
    Rule(12, None, None, Some("safe"), Some("off"), Some("off"), Some("none"), 4),
    Rule(13, Some("none"), Some("warm"), None, Some("off"), Some("warning"), Some("none"), 5)
  ]

  const Default: Knowledge := Knowledge(SmokeSets, TemperatureSets, ZoneSets, Rules)

  predicate DistinctNames(sets: seq<FuzzySet>)
  {
    forall p, q :: 0 <= p < q < |sets| ==> sets[p].name != sets[q].name
  }

  /** Every fuzzy set has ordered breakpoints and the set names of each variable are distinct. */
  lemma SetsWellFormed()
    ensures forall i :: 0 <= i < |SmokeSets| ==> WellFormed(SmokeSets[i])
    ensures forall i :: 0 <= i < |TemperatureSets| ==> WellFormed(TemperatureSets[i])
    ensures forall i :: 0 <= i < |ZoneSets| ==> WellFormed(ZoneSets[i])
    ensures DistinctNames(SmokeSets) && DistinctNames(TemperatureSets) && DistinctNames(ZoneSets)
  {
  }

  /** Every smoke level in [0, 100] (the range the simulator accepts) belongs to some smoke set. */
  lemma SmokeCoverage(x: real)
    requires 0.0 <= x <= 100.0
    ensures FuzzifySpec(x, SmokeSets) != map[]
  {
    var i := if x < 20.0 then 0 else if x < 40.0 then 1 else if x < 70.0 then 2 else 3;
    assert Degree(x, SmokeSets[i]) > 0.0;
    FuzzifyEntries(x, SmokeSets);
    assert SmokeSets[i].name in FuzzifySpec(x, SmokeSets);
  }

  /** Every temperature in [0, 200] belongs to some temperature set. */
  lemma TemperatureCoverage(x: real)
    requires 0.0 <= x <= 200.0
    ensures FuzzifySpec(x, TemperatureSets) != map[]
  {
    var i := if x < 40.0 then 0 else if x < 70.0 then 1 else if x < 120.0 then 2 else 3;
    assert Degree(x, TemperatureSets[i]) > 0.0;
    FuzzifyEntries(x, TemperatureSets);
    assert TemperatureSets[i].name in FuzzifySpec(x, TemperatureSets);
  }

  /** Every zone risk in [0, 5] belongs to some zone set. */
  lemma ZoneCoverage(x: real)
    requires 0.0 <= x <= 5.0
    ensures FuzzifySpec(x, ZoneSets) != map[]
  {
    var i := if x < 2.0 then 0 else if x < 4.0 then 1 else 2;
    assert Degree(x, ZoneSets[i]) > 0.0;
    FuzzifyEntries(x, ZoneSets);
    assert ZoneSets[i].name in FuzzifySpec(x, ZoneSets);
  }

  /**
    Shape of one rule of this base: it has a condition, it names a sprinkler
    and an alarm term that have crisp values, and it names a ventilation term
    that has none (the third column holds evacuation terms).
   */
  predicate Shaped(r: Rule)
  {
    && (Present(r.condSmoke) || Present(r.condTemperature) || Present(r.condZone))
    && Present(r.actSprinkler) && r.actSprinkler.value in SprinklerMap
    && Present(r.actAlarm) && r.actAlarm.value in AlarmMap
    && Present(r.actVentilation) && r.actVentilation.value !in VentilationMap
  }

  lemma RulesShaped()
    ensures forall i :: 0 <= i < |Rules| ==> Shaped(Rules[i])
  {
  }

  /** For any fuzzified inputs, every sprinkler term the rules activate has a crisp value. */
  lemma SprinklerTermsKnown(fin: FuzzyInputs)
    ensures Fold(Rules, fin, Sprinkler, VentilationMap.Keys).Keys <= SprinklerMap.Keys
  {
    var known := VentilationMap.Keys;
    RulesShaped();
    FoldIsMaximum(Rules, fin, Sprinkler, known);
    forall t | t in Fold(Rules, fin, Sprinkler, known) ensures t in SprinklerMap {
      var r :| r in Rules && Fires(r, fin) && Contribution(r, Sprinkler, known) == Some(t);
      var i := IndexOf(Rules, r);
      assert Shaped(Rules[i]);
    }
  }

  /** For any fuzzified inputs, every alarm term the rules activate has a crisp value. */
  lemma AlarmTermsKnown(fin: FuzzyInputs)
    ensures Fold(Rules, fin, Alarm, VentilationMap.Keys).Keys <= AlarmMap.Keys
  {
    var known := VentilationMap.Keys;
    RulesShaped();
    FoldIsMaximum(Rules, fin, Alarm, known);
    forall t | t in Fold(Rules, fin, Alarm, known) ensures t in AlarmMap {
      var r :| r in Rules && Fires(r, fin) && Contribution(r, Alarm, known) == Some(t);
      var i := IndexOf(Rules, r);
      assert Shaped(Rules[i]);
    }
  }

  /** For any fuzzified inputs, no rule activates a ventilation term: the ventilation map stays empty. */
  lemma VentilationNeverActivated(fin: FuzzyInputs)
    ensures Fold(Rules, fin, Ventilation, VentilationMap.Keys) == map[]
  {
    var known := VentilationMap.Keys;
    RulesShaped();
    forall r | r in Rules ensures Contribution(r, Ventilation, known) == None {
      var i := IndexOf(Rules, r);
      assert Shaped(Rules[i]);
    }
    FoldUnique(Rules, fin, Ventilation, known, map[]);
  }

  /**
    With this rule base, for every input the sprinkler and alarm lookups
    succeed and the ventilation map stays empty, so inference never fails and
    the ventilation output is always 0.
   */
  lemma DefaultNeverFails(smoke: real, temperature: real, zone: real)
    ensures InferSpec(smoke, temperature, zone, Default).Success?
    ensures InferSpec(smoke, temperature, zone, Default).value.ventilation == 0.0
  {
    var fin := Fuzzified(smoke, temperature, zone, Default);
    SprinklerTermsKnown(fin);
    AlarmTermsKnown(fin);
    VentilationNeverActivated(fin);
    var mv: map<string, real> := map[];
    assert mv.Keys * VentilationMap.Keys == {};
    assert LenientSpec(mv, VentilationMap) == 0.0;
  }

  /** The fuzzified all-zero input: smoke "none", temperature "normal", zone "safe", each to degree 1. */
  lemma FuzzifiedAllZero()
    ensures Fuzzified(0.0, 0.0, 0.0, Default) == FuzzyInputs(map["none" := 1.0], map["normal" := 1.0], map["safe" := 1.0])
  {
    assert FuzzifySpec(0.0, SmokeSets) == map["none" := 1.0] by {
      assert SmokeSets[0].name == "none" && Degree(0.0, SmokeSets[0]) > 0.0;
      FuzzifyUnique(0.0, SmokeSets, map["none" := 1.0]);
    }
    assert FuzzifySpec(0.0, TemperatureSets) == map["normal" := 1.0] by {
      assert TemperatureSets[0].name == "normal" && Degree(0.0, TemperatureSets[0]) > 0.0;
      FuzzifyUnique(0.0, TemperatureSets, map["normal" := 1.0]);
    }
    assert FuzzifySpec(0.0, ZoneSets) == map["safe" := 1.0] by {
      assert ZoneSets[0].name == "safe" && Degree(0.0, ZoneSets[0]) > 0.0;
      FuzzifyUnique(0.0, ZoneSets, map["safe" := 1.0]);
    }
  }

  /** For the all-zero input exactly the rules with ids 11 and 12 fire, both with truth 1. */
  lemma FiringAllZero()
    ensures forall i :: 0 <= i < |Rules| ==>
      (Fires(Rules[i], Fuzzified(0.0, 0.0, 0.0, Default)) <==> i == 10 || i == 11)
    ensures RuleTruth(Rules[10], Fuzzified(0.0, 0.0, 0.0, Default)) == 1.0
    ensures RuleTruth(Rules[11], Fuzzified(0.0, 0.0, 0.0, Default)) == 1.0
  {
    FuzzifiedAllZero();
  }

  /** At all-zero inputs the sprinkler and the alarm channel each hold the single term "off" at degree 1. */
  lemma OffAllZero(c: Channel)
    requires c != Ventilation
    ensures Activation(0.0, 0.0, 0.0, Default, c) == map["off" := 1.0]
  {
    var known := VentilationMap.Keys;
    FiringAllZero();
    assert Contribution(Rules[10], c, known) == Some("off");
    assert Contribution(Rules[11], c, known) == Some("off");
    FoldOfTwoFiring(Rules, Fuzzified(0.0, 0.0, 0.0, Default), c, known, 10, 11);
  }

  /**
    All-zero inputs: each channel ends with the single term "off" (or, for
    ventilation, nothing), and all three outputs are exactly 0.
   */
  lemma ScenarioAllZero()
    ensures InferSpec(0.0, 0.0, 0.0, Default) == Success(Crisp(0.0, 0.0, 0.0))
  {
    OffAllZero(Sprinkler);
    OffAllZero(Alarm);
    DefaultNeverFails(0.0, 0.0, 0.0);
    AverageSingle(SprinklerMap, "off", 1.0);
    AverageSingle(AlarmMap, "off", 1.0);
    assert map["off" := 1.0].Keys == {"off"};
  }

  /** The two defuzzifications of the high-smoke scenario, {high: 1, off: 1} and {on: 1, off: 1}. */
  lemma HighOffAverages()
    ensures StrictSpec(map["high" := 1.0, "off" := 1.0], SprinklerMap) == Some(0.5)
    ensures StrictSpec(map["on" := 1.0, "off" := 1.0], AlarmMap) == Some(0.5)
  {
    var ms, ma := map["high" := 1.0, "off" := 1.0], map["on" := 1.0, "off" := 1.0];
    assert ms.Keys == {"high", "off"} && ma.Keys == {"on", "off"};
    assert WeightedAverage(ms, SprinklerMap, ms.Keys) == 0.5 by {
      AveragePair(ms, SprinklerMap, "high", "off");
      assert Weight(ms, ms.Keys) == 2.0 && Moment(ms, SprinklerMap, ms.Keys) == 1.0;
    }
    assert WeightedAverage(ma, AlarmMap, ma.Keys) == 0.5 by {
      AveragePair(ma, AlarmMap, "on", "off");
      assert Weight(ma, ma.Keys) == 2.0 && Moment(ma, AlarmMap, ma.Keys) == 1.0;
    }
  }

  /** The fuzzified input smoke 80, temperature 30, zone 0. */
  lemma FuzzifiedHighSmoke()
    ensures Fuzzified(80.0, 30.0, 0.0, Default) == FuzzyInputs(map["high" := 1.0], map["normal" := 1.0], map["safe" := 1.0])
  {
    assert FuzzifySpec(80.0, SmokeSets) == map["high" := 1.0] by {
      assert SmokeSets[3].name == "high" && Degree(80.0, SmokeSets[3]) > 0.0;
      FuzzifyUnique(80.0, SmokeSets, map["high" := 1.0]);
    }
    assert FuzzifySpec(30.0, TemperatureSets) == map["normal" := 1.0] by {
      assert TemperatureSets[0].name == "normal" && Degree(30.0, TemperatureSets[0]) > 0.0;
      FuzzifyUnique(30.0, TemperatureSets, map["normal" := 1.0]);
    }
    assert FuzzifySpec(0.0, ZoneSets) == map["safe" := 1.0] by {
      assert ZoneSets[0].name == "safe" && Degree(0.0, ZoneSets[0]) > 0.0;
      FuzzifyUnique(0.0, ZoneSets, map["safe" := 1.0]);
    }
  }

  /** For smoke 80, temperature 30, zone 0 exactly the rules with ids 1 and 12 fire, both with truth 1. */
  lemma FiringHighSmoke()
    ensures forall i :: 0 <= i < |Rules| ==>
      (Fires(Rules[i], Fuzzified(80.0, 30.0, 0.0, Default)) <==> i == 0 || i == 11)
    ensures RuleTruth(Rules[0], Fuzzified(80.0, 30.0, 0.0, Default)) == 1.0
    ensures RuleTruth(Rules[11], Fuzzified(80.0, 30.0, 0.0, Default)) == 1.0
  {
    FuzzifiedHighSmoke();
  }

  /** For smoke 80, temperature 30, zone 0 the sprinkler map is {high: 1, off: 1}. */
  lemma SprinklerHighSmoke()
    ensures Activation(80.0, 30.0, 0.0, Default, Sprinkler) == map["high" := 1.0, "off" := 1.0]
  {
    var known := VentilationMap.Keys;
    FiringHighSmoke();
    assert Contribution(Rules[0], Sprinkler, known) == Some("high");
    assert Contribution(Rules[11], Sprinkler, known) == Some("off");
    FoldOfTwoFiring(Rules, Fuzzified(80.0, 30.0, 0.0, Default), Sprinkler, known, 0, 11);
  }

  /** For smoke 80, temperature 30, zone 0 the alarm map is {on: 1, off: 1}. */
  lemma AlarmHighSmoke()
    ensures Activation(80.0, 30.0, 0.0, Default, Alarm) == map["on" := 1.0, "off" := 1.0]
  {
    var known := VentilationMap.Keys;
    FiringHighSmoke();
    assert Contribution(Rules[0], Alarm, known) == Some("on");
    assert Contribution(Rules[11], Alarm, known) == Some("off");
    FoldOfTwoFiring(Rules, Fuzzified(80.0, 30.0, 0.0, Default), Alarm, known, 0, 11);
  }

  /**
    Smoke 80, temperature 30, zone 0: the outputs are sprinkler 0.5,
    alarm 0.5 and ventilation 0, not a full sprinkler.
   */
  lemma ScenarioHighSmoke()
    ensures InferSpec(80.0, 30.0, 0.0, Default) == Success(Crisp(0.5, 0.5, 0.0))
  {
    SprinklerHighSmoke();
    AlarmHighSmoke();
    DefaultNeverFails(80.0, 30.0, 0.0);
    HighOffAverages();
  }
}
