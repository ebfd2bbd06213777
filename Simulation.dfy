/**
  The simulator's plant model: the safe-zone test and one deterministic
  update of smoke, temperature and zone risk under the sprinkler command.
 */
module Simulation {
  import opened Membership
  import opened Fuzzifier
  import opened KnowledgeBase

  /** The safe zone: smoke at most 20, temperature at most 40 and zone risk at most 1. */
  predicate IsSafeZone(smoke: real, temperature: real, zone: real): (safe: bool)
    ensures safe <==> smoke <= 20.0 && temperature <= 40.0 && zone <= 1.0
  {
    var smokeSafe := smoke <= 20.0;
    var tempSafe := temperature <= 40.0;
    var zoneSafe := zone <= 1.0;
    smokeSafe && tempSafe && zoneSafe
  }

  /**
    Inside the safe zone the fuzzifier of the stored configuration only sees
    the two mildest terms of each input: smoke none/low, temperature
    normal/warm, zone safe/risk.
   */
  lemma SafeZoneTerms(smoke: real, temperature: real, zone: real)
    requires IsSafeZone(smoke, temperature, zone)
    ensures FuzzifySpec(smoke, SmokeSets).Keys <= {"none", "low"}
    ensures FuzzifySpec(temperature, TemperatureSets).Keys <= {"normal", "warm"}
    ensures FuzzifySpec(zone, ZoneSets).Keys <= {"safe", "risk"}
  {
    assert Degree(smoke, SmokeSets[2]) == 0.0 && Degree(smoke, SmokeSets[3]) == 0.0;
    FuzzifyKeysWithin(smoke, SmokeSets, {"none", "low"});
    assert Degree(temperature, TemperatureSets[2]) == 0.0 && Degree(temperature, TemperatureSets[3]) == 0.0;
    FuzzifyKeysWithin(temperature, TemperatureSets, {"normal", "warm"});
    assert Degree(zone, ZoneSets[2]) == 0.0;
    FuzzifyKeysWithin(zone, ZoneSets, {"safe", "risk"});
  }

  /** Python's `max(lo, min(hi, x))`. */
  function Clamp(lo: real, hi: real, x: real): (r: real)
    requires lo <= hi
    ensures lo <= r <= hi
    ensures lo <= x <= hi ==> r == x
    ensures x < lo ==> r == lo
    ensures hi < x ==> r == hi
  {
    var upper := if hi < x then hi else x;
    if lo < upper then upper else lo
  }

  /** The extra cooling above 80 degrees, proportional to the excess and to the sprinkler command. */
  function ExtraCooling(temperature: real, sprinkler: real): (r: real)
    ensures temperature <= 80.0 ==> r == 0.0
    ensures sprinkler >= 0.0 ==> r >= 0.0
    ensures sprinkler == 0.0 ==> r == 0.0
  {
    if temperature > 80.0 then (temperature - 80.0) * 0.4 * sprinkler else 0.0
  }

  /**
    The natural heat-exchange term as written: never negative, positive
    exactly when the outside is warmer than the room, and subtracted from the
    temperature like the sprinkler's cooling.
   */
  function NaturalCooling(temperature: real, externalTemp: real): (r: real)
    ensures r >= 0.0
    ensures r > 0.0 <==> externalTemp > temperature
  {
    var drift := (externalTemp - temperature) * 0.15;
    if 0.0 < drift then drift else 0.0
  }

  /** The total temperature reduction of one step. */
  function TemperatureReduction(temperature: real, externalTemp: real, sprinkler: real): (r: real)
    ensures sprinkler >= 0.0 ==> r >= 0.0
    ensures r >= sprinkler * 40.0 + ExtraCooling(temperature, sprinkler)
  {
    sprinkler * 40.0 + ExtraCooling(temperature, sprinkler) + NaturalCooling(temperature, externalTemp)
  }

  /** Smoke after one step: sprinkler suppression, a share of outside smoke, clamped to [0, 100]. */
  function NextSmoke(smoke: real, externalSmoke: real, sprinkler: real): (r: real)
    ensures 0.0 <= r <= 100.0
    ensures sprinkler == 0.0 && externalSmoke == 0.0 && 0.0 <= smoke <= 100.0 ==> r == smoke
    ensures sprinkler >= 0.0 && externalSmoke == 0.0 && 0.0 <= smoke ==> r <= smoke
  {
    Clamp(0.0, 100.0, smoke - sprinkler * 30.0 + externalSmoke * 0.05)
  }

  /** Temperature after one step: the reduction, a share of outside heat, clamped to [0, 200]. */
  function NextTemperature(temperature: real, externalTemp: real, sprinkler: real): (r: real)
    ensures 0.0 <= r <= 200.0
    ensures sprinkler >= 0.0 && 0.0 <= temperature && 0.0 <= externalTemp ==>
      r <= temperature + externalTemp * 0.02
  {
    Clamp(0.0, 200.0, temperature - TemperatureReduction(temperature, externalTemp, sprinkler) + externalTemp * 0.02)
  }

  /**
    Zone risk after one step, given the temperature already updated in the
    same step: it rises by 0.02 while the sprinkler runs above half power or
    the fire is still hot, and otherwise falls by 0.15, clamped to [0, 5].
   */
  function NextZone(zone: real, newTemperature: real, sprinkler: real): (r: real)
    ensures 0.0 <= r <= 5.0
    ensures (sprinkler > 0.5 || newTemperature > 60.0) && 0.0 <= zone <= 4.98 ==> r == zone + 0.02
    ensures !(sprinkler > 0.5 || newTemperature > 60.0) && 0.15 <= zone <= 5.0 ==> r == zone - 0.15
    ensures !(sprinkler > 0.5 || newTemperature > 60.0) && zone <= 0.15 ==> r == 0.0
  {
    var riskIncrease := if sprinkler > 0.5 || newTemperature > 60.0 then 0.02 else -0.15;
    Clamp(0.0, 5.0, zone + riskIncrease)
  }

  /**
    The zone rule reads the temperature after this step's cooling: from 65
    degrees with sprinkler 0.5 and outside temperature 25, the new temperature
    is 45.5, so the risk of zone 1 falls to 0.85, whereas judged by the old
    temperature it would have risen to 1.02.
   */
  lemma ZoneReadsUpdatedTemperature()
    ensures NextTemperature(65.0, 25.0, 0.5) == 45.5
    ensures NextZone(1.0, NextTemperature(65.0, 25.0, 0.5), 0.5) == 0.85
    ensures NextZone(1.0, 65.0, 0.5) == 1.02
  {
    assert ExtraCooling(65.0, 0.5) == 0.0;
    assert NaturalCooling(65.0, 25.0) == 0.0;
    assert TemperatureReduction(65.0, 25.0, 0.5) == 20.0;
  }

  /**
    As written, natural cooling points the wrong way: a room at 100 degrees
    under an outside temperature of 25 gets none, while a room at 10 degrees
    with the sprinkler off cools to 8.25 although the outside is warmer.
   */
  lemma NaturalCoolingReversed()
    ensures NaturalCooling(100.0, 25.0) == 0.0
    ensures NextTemperature(10.0, 25.0, 0.0) == 8.25
    ensures NextTemperature(10.0, 25.0, 0.0) < 10.0
  {
    assert NaturalCooling(10.0, 25.0) == 2.25;
    assert TemperatureReduction(10.0, 25.0, 0.0) == 2.25;
  }

  /** Natural cooling as evidently intended: towards the outside temperature, positive exactly when the room is warmer. */
  function IntendedNaturalCooling(temperature: real, externalTemp: real): (r: real)
    ensures r >= 0.0
    ensures r > 0.0 <==> temperature > externalTemp
  {
    var drift := (temperature - externalTemp) * 0.15;
    if 0.0 < drift then drift else 0.0
  }

  /**
    The temperature step with the intended natural cooling. Without the
    sprinkler a room no warmer than outside is not cooled, and a warmer room
    is not cooled below the outside temperature.
   */
  function IntendedNextTemperature(temperature: real, externalTemp: real, sprinkler: real): (r: real)
    ensures 0.0 <= r <= 200.0
    ensures sprinkler == 0.0 && 0.0 <= temperature <= externalTemp && temperature <= 200.0 ==> r >= temperature
    ensures sprinkler == 0.0 && 0.0 <= externalTemp <= temperature <= 200.0 ==> r >= externalTemp
  {
    var reduction := sprinkler * 40.0 + ExtraCooling(temperature, sprinkler) + IntendedNaturalCooling(temperature, externalTemp);
    Clamp(0.0, 200.0, temperature - reduction + externalTemp * 0.02)
  }

  class FireSuppressionSimulator {
    var smoke: real
    var temperature: real
    var zone: real
    var externalSmoke: real
    var externalTemp: real
    var step: int
    var safeStepsCount: int

    /** The ranges every state of the simulator keeps. */
    ghost predicate Valid()
      reads this
    {
      && 0.0 <= smoke <= 100.0
      && 0.0 <= temperature <= 200.0
      && 0.0 <= zone <= 5.0
      && 0.0 <= externalSmoke <= 100.0
      && 0.0 <= externalTemp <= 200.0
      && 0 <= step
      && 0 <= safeStepsCount
    }

    /** A simulator started from initial conditions in the accepted input ranges, with outside conditions 0 and 25. */
    constructor (initialSmoke: real, initialTemperature: real, initialZone: real)
      requires 0.0 <= initialSmoke <= 100.0
      requires 0.0 <= initialTemperature <= 200.0
      requires 0.0 <= initialZone <= 5.0
      ensures smoke == initialSmoke && temperature == initialTemperature && zone == initialZone
      ensures externalSmoke == 0.0 && externalTemp == 25.0
      ensures step == 0 && safeStepsCount == 0
      ensures Valid()
    {
      smoke, temperature, zone := initialSmoke, initialTemperature, initialZone;
      externalSmoke := 0.0;
      externalTemp := 25.0;
      step := 0;
      safeStepsCount := 0;
    }

    /**
      One step of the plant under the controller's commands. Only the
      sprinkler command acts; the alarm and evacuation commands are accepted
      and ignored. Smoke and temperature are updated first, and the zone
      rule then reads the new temperature.
     */
    method ApplyControlActions(sprinkler: real, alarm: real, evacuation: real)
      modifies `smoke, `temperature, `zone
      ensures smoke == NextSmoke(old(smoke), old(externalSmoke), sprinkler)
      ensures temperature == NextTemperature(old(temperature), old(externalTemp), sprinkler)
      ensures zone == NextZone(old(zone), temperature, sprinkler)
      ensures 0.0 <= smoke <= 100.0 && 0.0 <= temperature <= 200.0 && 0.0 <= zone <= 5.0
      ensures externalSmoke == old(externalSmoke) && externalTemp == old(externalTemp)
      ensures step == old(step) && safeStepsCount == old(safeStepsCount)
      ensures old(Valid()) ==> Valid()
    {
      var smokeReduction := sprinkler * 30.0;
      var tempReduction := sprinkler * 40.0;

      if temperature > 80.0 {
        var extraCooling := (temperature - 80.0) * 0.4 * sprinkler;
        tempReduction := tempReduction + extraCooling;
      }

      assert tempReduction == sprinkler * 40.0 + ExtraCooling(temperature, sprinkler);

      var drift := (externalTemp - temperature) * 0.15;
      var naturalCooling := if 0.0 < drift then drift else 0.0;
      tempReduction := tempReduction + naturalCooling;
      assert tempReduction == TemperatureReduction(temperature, externalTemp, sprinkler);

      smoke := Clamp(0.0, 100.0, smoke - smokeReduction + externalSmoke * 0.05);
      temperature := Clamp(0.0, 200.0, temperature - tempReduction + externalTemp * 0.02);

      var riskIncrease;
      if sprinkler > 0.5 || temperature > 60.0 {
        riskIncrease := 0.02;
      } else {
        riskIncrease := -0.15;
      }
      zone := Clamp(0.0, 5.0, zone + riskIncrease);
    }
  }
}
