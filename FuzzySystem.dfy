/**
  The fuzzy inference system: the crisp term tables of the three output
  channels and `Infer`, which fuzzifies the three inputs, evaluates and
  aggregates the rules and defuzzifies each channel. The configuration
  (fuzzy sets per variable and the rule list) is passed in as a value.
 */
module FuzzySystem {
  import opened Wrappers
  import opened Membership
  import opened Fuzzifier
  import opened Inference
  import opened Defuzzifier

  const SprinklerMap: map<string, real> := map["off" := 0.0, "low" := 0.33, "medium" := 0.66, "high" := 1.0]
  const AlarmMap: map<string, real> := map["off" := 0.0, "warning" := 0.5, "on" := 1.0]
  const VentilationMap: map<string, real> := map["off" := 0.0, "low" := 0.33, "medium" := 0.66, "high" := 1.0]

  /** The configuration the engine reads: the fuzzy sets of each input variable and the rules. */
  datatype Knowledge = Knowledge(
    smokeSets: seq<FuzzySet>, temperatureSets: seq<FuzzySet>, zoneSets: seq<FuzzySet>,
    rules: seq<Rule>)

  /** The three crisp control values. */
  datatype Crisp = Crisp(sprinkler: real, alarm: real, ventilation: real)

  /** The lookup failures of the sprinkler and alarm defuzzifiers. */
  datatype InferError = SprinklerKeyError | AlarmKeyError

  /** Every crisp table value lies in [0, 1]. */
  lemma TablesInUnit()
    ensures forall t :: t in SprinklerMap ==> 0.0 <= SprinklerMap[t] <= 1.0
    ensures forall t :: t in AlarmMap ==> 0.0 <= AlarmMap[t] <= 1.0
    ensures forall t :: t in VentilationMap ==> 0.0 <= VentilationMap[t] <= 1.0
  {
  }

  function Fuzzified(smoke: real, temperature: real, zone: real, kb: Knowledge): (fin: FuzzyInputs)
    ensures NonNegative(fin)
  {
    FuzzyInputs(FuzzifySpec(smoke, kb.smokeSets), FuzzifySpec(temperature, kb.temperatureSets), FuzzifySpec(zone, kb.zoneSets))
  }

  /** The aggregated term map of one channel for the given inputs. */
  function Activation(smoke: real, temperature: real, zone: real, kb: Knowledge, c: Channel): map<string, real>
  {
    Fold(kb.rules, Fuzzified(smoke, temperature, zone, kb), c, VentilationMap.Keys)
  }

  /**
    The result of the whole inference: the sprinkler channel is defuzzified
    first, so a sprinkler lookup failure is the one reported when both fail.
   */
  ghost function InferSpec(smoke: real, temperature: real, zone: real, kb: Knowledge): Result<Crisp, InferError>
  {
    var s := StrictSpec(Activation(smoke, temperature, zone, kb, Sprinkler), SprinklerMap);
    var a := StrictSpec(Activation(smoke, temperature, zone, kb, Alarm), AlarmMap);
    var v := LenientSpec(Activation(smoke, temperature, zone, kb, Ventilation), VentilationMap);
    if s.None? then Failure(SprinklerKeyError)
    else if a.None? then Failure(AlarmKeyError)
    else Success(Crisp(s.value, a.value, v))
  }

  /** Every successful inference yields three control values in [0, 1]. */
  lemma InferInUnit(smoke: real, temperature: real, zone: real, kb: Knowledge)
    requires InferSpec(smoke, temperature, zone, kb).Success?
    ensures 0.0 <= InferSpec(smoke, temperature, zone, kb).value.sprinkler <= 1.0
    ensures 0.0 <= InferSpec(smoke, temperature, zone, kb).value.alarm <= 1.0
    ensures 0.0 <= InferSpec(smoke, temperature, zone, kb).value.ventilation <= 1.0
  {
    var ms := Activation(smoke, temperature, zone, kb, Sprinkler);
    var ma := Activation(smoke, temperature, zone, kb, Alarm);
    var mv := Activation(smoke, temperature, zone, kb, Ventilation);
    AverageInUnit(ms, SprinklerMap, ms.Keys);
    AverageInUnit(ma, AlarmMap, ma.Keys);
    AverageInUnit(mv, VentilationMap, mv.Keys * VentilationMap.Keys);
  }

  /** The inference fails exactly when a firing rule names a sprinkler or alarm term without a crisp value. */
  lemma InferFailsOnUnknownTerm(smoke: real, temperature: real, zone: real, kb: Knowledge)
    ensures InferSpec(smoke, temperature, zone, kb).Failure? <==>
      !(Activation(smoke, temperature, zone, kb, Sprinkler).Keys <= SprinklerMap.Keys) ||
      !(Activation(smoke, temperature, zone, kb, Alarm).Keys <= AlarmMap.Keys)
    ensures InferSpec(smoke, temperature, zone, kb) == Failure(SprinklerKeyError) <==>
      !(Activation(smoke, temperature, zone, kb, Sprinkler).Keys <= SprinklerMap.Keys)
  {
  }

  /** Reordering the rule rows leaves the three control values unchanged. */
  lemma InferPermutation(smoke: real, temperature: real, zone: real, kb: Knowledge, rules: seq<Rule>)
    requires multiset(rules) == multiset(kb.rules)
    ensures InferSpec(smoke, temperature, zone, kb.(rules := rules)) == InferSpec(smoke, temperature, zone, kb)
  {
    var kb2 := kb.(rules := rules);
    var fin := Fuzzified(smoke, temperature, zone, kb);
    assert Fuzzified(smoke, temperature, zone, kb2) == fin;
    FoldPermutation(rules, kb.rules, fin, Sprinkler, VentilationMap.Keys);
    FoldPermutation(rules, kb.rules, fin, Alarm, VentilationMap.Keys);
    FoldPermutation(rules, kb.rules, fin, Ventilation, VentilationMap.Keys);
  }

  /** The truth level of one rule, updated step by step as in the rule loop. */
  method TruthLevel(rule: Rule, fin: FuzzyInputs) returns (truthLevel: real)
    ensures truthLevel == RuleTruth(rule, fin)
    ensures truthLevel <= 1.0 && (NonNegative(fin) ==> truthLevel >= 0.0)
  {
    truthLevel := 1.0;
    if Present(rule.condSmoke) {
      truthLevel := Min(truthLevel, Lookup(fin.smoke, rule.condSmoke.value));
    }
    if Present(rule.condTemperature) {
      truthLevel := Min(truthLevel, Lookup(fin.temperature, rule.condTemperature.value));
    }
    if Present(rule.condZone) {
      truthLevel := Min(truthLevel, Lookup(fin.zone, rule.condZone.value));
    }
  }

  /**
    The rule loop: every rule's truth level is computed, and a firing rule
    raises each term it concludes to its truth level in the matching output
    map; an unknown ventilation term skips the rest of that rule, after its
    sprinkler and alarm updates have been made.
   */
  method EvaluateRules(rules: seq<Rule>, fin: FuzzyInputs)
    returns (sprinklerOutput: map<string, real>, alarmOutput: map<string, real>, ventilationOutput: map<string, real>)
    ensures sprinklerOutput == Fold(rules, fin, Sprinkler, VentilationMap.Keys)
    ensures alarmOutput == Fold(rules, fin, Alarm, VentilationMap.Keys)
    ensures ventilationOutput == Fold(rules, fin, Ventilation, VentilationMap.Keys)
  {
    ghost var known := VentilationMap.Keys;
    sprinklerOutput, alarmOutput, ventilationOutput := map[], map[], map[];
    for i := 0 to |rules|
      invariant sprinklerOutput == Fold(rules[..i], fin, Sprinkler, known)
      invariant alarmOutput == Fold(rules[..i], fin, Alarm, known)
      invariant ventilationOutput == Fold(rules[..i], fin, Ventilation, known)
    {
      var rule := rules[i];
      assert rules[..i + 1][..i] == rules[..i];
      var truthLevel := TruthLevel(rule, fin);
      if truthLevel > 0.0 {
        if Present(rule.actSprinkler) {
          var current := Lookup(sprinklerOutput, rule.actSprinkler.value);
          sprinklerOutput := sprinklerOutput[rule.actSprinkler.value := Max(current, truthLevel)];
        }
        if Present(rule.actAlarm) {
          var current := Lookup(alarmOutput, rule.actAlarm.value);
          alarmOutput := alarmOutput[rule.actAlarm.value := Max(current, truthLevel)];
        }
        if Present(rule.actVentilation) {
          if rule.actVentilation.value !in VentilationMap {
            continue;
          }
          var current := Lookup(ventilationOutput, rule.actVentilation.value);
          ventilationOutput := ventilationOutput[rule.actVentilation.value := Max(current, truthLevel)];
        }
      }
    }
    assert rules[..|rules|] == rules;
  }

  /**
    The inference of the controller: fuzzification of the three inputs, the
    rule loop, and the three defuzzifiers, sprinkler first.
   */
  method Infer(smoke: real, temperature: real, zone: real, kb: Knowledge) returns (r: Result<Crisp, InferError>)
    ensures r == InferSpec(smoke, temperature, zone, kb)
    ensures r.Success? ==> 0.0 <= r.value.sprinkler <= 1.0 && 0.0 <= r.value.alarm <= 1.0 && 0.0 <= r.value.ventilation <= 1.0
  {
    var smokeFuzzy := Fuzzify(smoke, kb.smokeSets);
    var temperatureFuzzy := Fuzzify(temperature, kb.temperatureSets);
    var zoneFuzzy := Fuzzify(zone, kb.zoneSets);
    var sprinklerOutput, alarmOutput, ventilationOutput :=
      EvaluateRules(kb.rules, FuzzyInputs(smokeFuzzy, temperatureFuzzy, zoneFuzzy));

    var sprinklerResult := DefuzzifyStrict(sprinklerOutput, SprinklerMap);
    if sprinklerResult.None? {
      return Failure(SprinklerKeyError);
    }
    var alarmResult := DefuzzifyStrict(alarmOutput, AlarmMap);
    if alarmResult.None? {
      return Failure(AlarmKeyError);
    }
    var ventilationResult := DefuzzifyLenient(ventilationOutput, VentilationMap);
    r := Success(Crisp(sprinklerResult.value, alarmResult.value, ventilationResult));
    InferInUnit(smoke, temperature, zone, kb);
  }
}
