# Fuzzy fire-suppression controller — a Dafny model

This project models the core of a fuzzy-logic controller for a fire-suppression
system, together with the deterministic part of the plant simulation it drives.

- **Membership** (`Membership.dfy`): the trapezoidal membership function. It
  covers both degenerate edges, `b == a` and `d == c`, which give degree 1.
- **Fuzzifier** (`Fuzzifier.dfy`): fuzzification of one crisp input over the
  rows of its fuzzy-set table. Only positive degrees are kept. A later row with
  the same set name overwrites an earlier one only when its own degree is
  positive; a later row of degree 0 leaves the earlier entry in place.
- **Inference** (`Inference.dfy`): Mamdani-style rule evaluation.
  - A rule's truth level is the minimum of the degrees of its present
    conditions, starting at 1.
  - A missing term reads as 0.
  - The three output channels (sprinkler, alarm, ventilation) aggregate the
    activated terms by maximum.
  - A ventilation term without a crisp value is skipped.
- **Defuzzifier** (`Defuzzifier.dfy`): weighted-average defuzzification. The
  sprinkler and alarm variant fails on a term without a crisp value (Python's
  `KeyError`). The ventilation variant skips such terms.
- **FuzzySystem** (`FuzzySystem.dfy`): the crisp-value tables and the whole
  `infer` pipeline.
- **KnowledgeBase** (`KnowledgeBase.dfy`): the fuzzy sets and thirteen rules that
  the database setup script stores. It collects facts about them and two
  end-to-end scenarios.
- **Simulation** (`Simulation.dfy`): the safe-zone test and
  `FireSuppressionSimulator` as a class, including its `apply_control_actions`
  step.

## Modelling decisions

- **Numbers:** Python floats are Dafny `real`. Rounding is not modelled.
- **Dictionaries:** term dictionaries are `map<string, real>`.
  - Python iterates a dict in insertion order. The model instead lets the
    defuzzifier loops pick any remaining key. The sums they compute are proved
    equal to order-free sums over key sets, so the result does not depend on
    that order.
- **Rule order:** the engine reads the rules `ORDER BY priority DESC`, and SQL
  leaves rows of equal priority in no defined order. The rule list is kept in
  the order it was written. Every channel map is proved to depend only on the
  set of rules (`Inference.FoldDependsOnlyOnRuleSet`, `FuzzySystem.InferPermutation`),
  so no particular order matters.
- **Conditions:** a rule's condition `if cond_smoke:` is modelled as
  `Present(o)`. An absent (`NULL`) condition is skipped, and so is an empty
  string, since Python treats it as false.
- **Errors:** the `KeyError` of `defuzzify_sprinkler` / `defuzzify_alarm` is
  `None` in `Option<real>`. At the level of `infer` it is
  `Failure(SprinklerKeyError)` or `Failure(AlarmKeyError)`: the sprinkler is
  defuzzified first, so its error wins when both would fail.
- **Rule ids:** the knowledge base's rows are inserted with `NULL` ids into
  emptied tables, so they are modelled with ids 1 to 13 in list order.
- **The third action column:** the setup script stores evacuation terms there
  (`immediate`, `prepare`, `none`). The engine reads that column as the
  ventilation action, and none of those terms is in the ventilation table.
  Consequently `KnowledgeBase.DefaultNeverFails` proves that, with this
  configuration, inference always succeeds and the ventilation output is
  always 0.
- **The database:** the SQLite connection is replaced by values. The fuzzy-set
  rows of a variable are a `seq<FuzzySet>` and the rule rows a `seq<Rule>`,
  bundled as `Knowledge`.
- **Zone update:** the zone update of `apply_control_actions` reads the
  temperature already updated in the same step. The method's contract says so
  (`zone == NextZone(old(zone), temperature, sprinkler)`), and
  `Simulation.ZoneReadsUpdatedTemperature` gives an input where this differs
  from using the old temperature.

## Model

| member | source | states |
|---|---|---|
| Membership.Trapezoid | fuzzy_system.py:14-29 | the degree lies in [0, 1]; it is 0 left of `a` and 1 on the plateau [b, c] |
| Membership.TrapezoidSupport | fuzzy_system.py:14-29 | for ordered breakpoints: 0 outside [a, d], 1 on [b, c], and a positive degree implies x in [a, d] |
| Membership.TrapezoidEdges | fuzzy_system.py:18-27 | on the rising edge the degree is (x - a)/(b - a), on the falling edge (d - x)/(d - c) |
| Membership.TrapezoidDegenerateEdges | fuzzy_system.py:18-27 | a vertical edge (a == b or c == d) gives degree 1 at that breakpoint |
| Membership.TrapezoidCorners | fuzzy_system.py:14-29 | with sloped edges the degree is 0 at a and d and 1 at b and c |
| Membership.TrapezoidRising | fuzzy_system.py:18-21 | the degree is non-decreasing on [a, b] |
| Membership.TrapezoidFalling | fuzzy_system.py:24-27 | the degree is non-increasing on [c, d] |
| Fuzzifier.FuzzifySpec | fuzzy_system.py:41-45 | every stored degree lies in (0, 1] |
| Fuzzifier.Fuzzify | fuzzy_system.py:31-48 | the loop over the set rows computes the fold of the rows, so every degree lies in (0, 1] |
| Fuzzifier.FuzzifyEntries | fuzzy_system.py:41-45 | a term is present if and only if some row of that name has a positive degree, and its value is the degree of such a row |
| Fuzzifier.FuzzifyDistinct | fuzzy_system.py:41-45 | with distinct set names, a row's term maps to exactly its degree when that is positive and is absent when it is 0 |
| Fuzzifier.FuzzifyKeysWithin | fuzzy_system.py:41-45 | when every set outside an allowed name set has degree 0, only allowed names are keys |
| Fuzzifier.FuzzifyUnique | fuzzy_system.py:41-45 | with distinct names, any map holding exactly the positive degrees is the fuzzification |
| Fuzzifier.FuzzifyEmpty | fuzzy_system.py:41-48 | a variable without rows fuzzifies to the empty map |
| Inference.RuleTruth | fuzzy_system.py:81-91 | the truth level is at most 1, and non-negative for non-negative degrees |
| Inference.RuleTruthIsMinimum | fuzzy_system.py:81-91 | the truth level is a lower bound of the present conditions' degrees and equals 1 or one of them |
| Inference.Fold | fuzzy_system.py:107-123 | aggregated degrees lie in (0, 1], and ventilation only holds terms of the ventilation table |
| Inference.FoldIsMaximum | fuzzy_system.py:107-123 | a term is activated if and only if a firing rule concludes it; its degree is at least each such rule's truth and equals one of them |
| Inference.FoldUnique | fuzzy_system.py:107-123 | any map with exactly those terms, each at the maximum truth of its rules, is the aggregation |
| Inference.FoldOfTwoFiring | fuzzy_system.py:107-123 | when exactly two rules fire, both with truth 1 and both concluding a term, the channel map holds exactly those terms at degree 1 |
| Inference.FoldDependsOnlyOnRuleSet | fuzzy_system.py:65-123 | two rule lists with the same rules give the same channel map |
| Inference.FoldPermutation | fuzzy_system.py:65-66 | reordering the rules leaves every channel map unchanged |
| Inference.FoldRepeat | fuzzy_system.py:107-123 | evaluating a rule twice changes nothing |
| Inference.FoldCongruent | fuzzy_system.py:107-123 | rule lists that agree row by row on firing, truth and concluded term give the same map |
| Inference.UnknownVentilationTermIsSkipped | fuzzy_system.py:117-121 | a rule whose ventilation term has no crisp value acts as if it had no ventilation action |
| Defuzzifier.SumAdd | fuzzy_system.py:150-154 | adding one term to the sums adds exactly its degree and its degree times crisp value |
| Defuzzifier.WeightAdd | fuzzy_system.py:150-154 | adding one term to the denominator sum adds exactly its degree |
| Defuzzifier.WeightNonNegative | fuzzy_system.py:150-154 | the denominator of non-negative degrees is non-negative |
| Defuzzifier.WeightPositive | fuzzy_system.py:150-156 | a non-empty map of positive degrees has a positive denominator, so the division is taken |
| Defuzzifier.WeightMonotone | fuzzy_system.py:150-154 | summing termwise smaller numbers gives a smaller sum |
| Defuzzifier.WeightScale | fuzzy_system.py:150-154 | scaling every summed degree by c scales the sum by c |
| Defuzzifier.MomentBounds | fuzzy_system.py:150-154 | with non-negative degrees and crisp values in [lo, hi], the weighted sum lies between lo and hi times the sum of the degrees |
| Defuzzifier.AverageBetween | fuzzy_system.py:150-156 | with non-negative degrees, crisp values in [lo, hi] and a positive denominator, the average lies in [lo, hi]: it is a convex combination of the crisp values |
| Defuzzifier.AveragePositiveBetween | fuzzy_system.py:150-156 | for a non-empty map of positive degrees the division is taken and the average lies between the smallest and largest bound of the crisp values |
| Defuzzifier.AverageInUnit | fuzzy_system.py:141-158 | the case [0, 1] of the convexity bound, which covers a zero denominator too: for a table with values in [0, 1] the average lies in [0, 1] |
| Defuzzifier.AverageSingle | fuzzy_system.py:150-156 | one activated term yields exactly its crisp value |
| Defuzzifier.AveragePair | fuzzy_system.py:150-154 | for two distinct activated terms the denominator is the sum of their degrees and the numerator the sum of crisp value times degree |
| Defuzzifier.DefuzzifyStrict | fuzzy_system.py:141-178 | the result is the weighted average over all activated terms; an empty map gives 0; it fails if and only if some term has no crisp value |
| Defuzzifier.DefuzzifyLenient | fuzzy_system.py:180-207 | the result is the weighted average over the terms that have a crisp value; it is 0 when there are none |
| FuzzySystem.TablesInUnit | fuzzy_system.py:9-12 | every crisp value of the three tables lies in [0, 1] |
| FuzzySystem.Fuzzified | fuzzy_system.py:53-55 | all fuzzified degrees are non-negative |
| FuzzySystem.InferInUnit | fuzzy_system.py:130-139 | a successful inference yields three control values in [0, 1] |
| FuzzySystem.InferFailsOnUnknownTerm | fuzzy_system.py:131-132 | inference fails if and only if an activated sprinkler or alarm term has no crisp value; the sprinkler failure is the one reported |
| FuzzySystem.InferPermutation | fuzzy_system.py:65-66 | reordering the rule rows leaves the inference result unchanged |
| FuzzySystem.TruthLevel | fuzzy_system.py:81-91 | the stepwise truth level equals the rule's truth level, at most 1 and non-negative for non-negative inputs |
| FuzzySystem.EvaluateRules | fuzzy_system.py:70-123 | the rule loop builds exactly the three aggregated channel maps |
| FuzzySystem.Infer | fuzzy_system.py:50-139 | the pipeline computes the inference result, and on success all three outputs lie in [0, 1] |
| KnowledgeBase.SetsWellFormed | init_database.py:36-54 | every stored fuzzy set has ordered breakpoints, and the set names of each variable are distinct |
| KnowledgeBase.SmokeCoverage | init_database.py:36-41 | every smoke level in [0, 100] has at least one term |
| KnowledgeBase.TemperatureCoverage | init_database.py:43-48 | every temperature in [0, 200] has at least one term |
| KnowledgeBase.ZoneCoverage | init_database.py:50-54 | every zone risk in [0, 5] has at least one term |
| KnowledgeBase.RulesShaped | init_database.py:60-80 | every rule has a condition and sprinkler and alarm terms with crisp values, and no ventilation term with one |
| KnowledgeBase.SprinklerTermsKnown | init_database.py:60-80 | for every input, each activated sprinkler term has a crisp value |
| KnowledgeBase.AlarmTermsKnown | init_database.py:60-80 | for every input, each activated alarm term has a crisp value |
| KnowledgeBase.VentilationNeverActivated | init_database.py:60-80 | for every input, the ventilation map stays empty |
| KnowledgeBase.DefaultNeverFails | init_database.py:60-80 | with the stored configuration, inference succeeds for every input and the ventilation output is 0 |
| KnowledgeBase.FuzzifiedAllZero | init_database.py:36-54 | inputs (0, 0, 0) fuzzify to {none: 1}, {normal: 1}, {safe: 1} |
| KnowledgeBase.FiringAllZero | init_database.py:75-76 | at (0, 0, 0) exactly rules 11 and 12 fire, both with truth 1 |
| KnowledgeBase.OffAllZero | init_database.py:75-76 | at (0, 0, 0) sprinkler and alarm each aggregate to {off: 1} |
| KnowledgeBase.ScenarioAllZero | init_database.py:75-76 | at (0, 0, 0) the outputs are sprinkler 0, alarm 0, ventilation 0 |
| KnowledgeBase.HighOffAverages | fuzzy_system.py:9-10 | {high: 1, off: 1} defuzzifies to 0.5 on the sprinkler table, and {on: 1, off: 1} to 0.5 on the alarm table |
| KnowledgeBase.FuzzifiedHighSmoke | init_database.py:36-54 | inputs (80, 30, 0) fuzzify to {high: 1}, {normal: 1}, {safe: 1} |
| KnowledgeBase.FiringHighSmoke | init_database.py:62-76 | at (80, 30, 0) exactly rules 1 and 12 fire, both with truth 1 |
| KnowledgeBase.SprinklerHighSmoke | init_database.py:62-76 | at (80, 30, 0) the sprinkler map is {high: 1, off: 1} |
| KnowledgeBase.AlarmHighSmoke | init_database.py:62-76 | at (80, 30, 0) the alarm map is {on: 1, off: 1} |
| KnowledgeBase.ScenarioHighSmoke | init_database.py:62-76 | at (80, 30, 0) the outputs are sprinkler 0.5, alarm 0.5, ventilation 0 |
| Simulation.IsSafeZone | simulation.py:42-47 | holds exactly when smoke is at most 20, temperature at most 40 and zone risk at most 1 |
| Simulation.SafeZoneTerms | simulation.py:42-47 | inside the safe zone only the terms none/low, normal/warm and safe/risk can be active |
| Simulation.Clamp | simulation.py:97 | `max(lo, min(hi, x))` lies in [lo, hi], is x inside the range and the nearer bound outside it |
| Simulation.ExtraCooling | simulation.py:88-90 | extra cooling is 0 unless the temperature exceeds 80; it is non-negative for a non-negative sprinkler and 0 without one |
| Simulation.NaturalCooling | simulation.py:93 | the natural term as written is never negative, and positive exactly when the outside is warmer than the room |
| Simulation.TemperatureReduction | simulation.py:84-94 | with a non-negative sprinkler the reduction is non-negative, and it is at least the sprinkler part plus the extra cooling |
| Simulation.NextSmoke | simulation.py:84-97 | the new smoke lies in [0, 100]; with no sprinkler and no outside smoke an in-range value is unchanged; with no outside smoke it never rises |
| Simulation.NextTemperature | simulation.py:85-98 | the new temperature lies in [0, 200] and, with a non-negative sprinkler, rises by at most 2% of the outside temperature |
| Simulation.NextZone | simulation.py:100-106 | the new risk lies in [0, 5]; it rises by 0.02 under a strong sprinkler or a hot new temperature, else falls by 0.15 down to 0 |
| Simulation.ZoneReadsUpdatedTemperature | simulation.py:98-106 | from 65 degrees with sprinkler 0.5 the zone rule sees 45.5 and lowers the risk, where the old temperature would raise it |
| Simulation.NaturalCoolingReversed | simulation.py:92-98 | as written, a room at 100 degrees under 25 outside gets no natural cooling, and a room at 10 degrees without the sprinkler drops to 8.25 |
| Simulation.IntendedNaturalCooling | simulation.py:92-93 | the corrected natural cooling is never negative and positive exactly when the room is warmer than outside |
| Simulation.IntendedNextTemperature | simulation.py:85-98 | with the corrected cooling and no sprinkler, a room no warmer than outside is not cooled, and a warmer room is not cooled below the outside temperature |
| Simulation.FireSuppressionSimulator.constructor | simulation.py:50-62 | the simulator starts at the given in-range conditions, outside smoke 0, outside temperature 25, and both counters at 0 |
| Simulation.FireSuppressionSimulator.ApplyControlActions | simulation.py:80-106 | smoke, temperature and then zone (from the new temperature) are updated by the step functions into their ranges; alarm and evacuation play no part; the other fields are unchanged |

## Findings

| source | as written | input that shows it | evidently intended | confidence | as-written member | corrected member |
|---|---|---|---|---|---|---|
| simulation.py:93 | `natural_cooling = max(0, (self.external_temp - self.temperature) * 0.15)`, then subtracted from the temperature | temperature 10, outside 25, sprinkler 0: the room drops to 8.25 although the outside is warmer; at 100 degrees there is no natural cooling at all | `max(0, (self.temperature - self.external_temp) * 0.15)`, cooling towards the outside temperature as the comment above the line says | not executed | Simulation.NaturalCoolingReversed | Simulation.IntendedNextTemperature |

The simulator class keeps the formula as written, since it models
`apply_control_actions` itself; `Simulation.IntendedNaturalCooling` and
`Simulation.IntendedNextTemperature` give the corrected step beside it.

## Left out

- SQLite access (`sqlite3` connections and queries) and the database setup script's table creation: replaced by the values `Knowledge` holds; the stored rows are the constants of `KnowledgeBase`.
- All printing, including the alarm and ventilation status labels computed only for output (fuzzy_system.py:176, 205).
- Floating-point rounding: all arithmetic is exact over `real`.
- Python dict iteration order: the model proves results independent of it instead.
- The offending term carried by a `KeyError`: only which defuzzifier failed is modelled.
- `visualization.py`: plotting only.
- `get_user_input`: interactive console input; its accepted ranges appear as the constructor's preconditions and as the coverage lemmas' ranges.
- `update_environment`: it draws from `np.random.normal`, which is randomness outside the model.
- `FireSuppressionSimulator.run`: a console and plotting loop. It also reads `actions['evacuation']`, a key the inference result never contains, so it would stop at its first active step.
- The `fis` and `visualizer` members of the simulator: they are the database-backed engine and the plotting window.
