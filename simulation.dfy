/**
 * The pure steps of the client simulation (src/client/Game.tsx): the decay tick that the
 * ten-second interval applies, the condition classifier `updatePetState` and the urgency
 * banner `getUrgencyMessage`.
 */
module Simulation {
  import opened PetTypes

  /** How many of hunger, cleanliness and energy are at or below 0. */
  function LowCount(hunger: real, cleanliness: real, energy: real): (n: nat)
    ensures n <= 3
    ensures n == 0 <==> hunger > 0.0 && cleanliness > 0.0 && energy > 0.0
  {
    (if hunger <= 0.0 then 1 else 0)
    + (if cleanliness <= 0.0 then 1 else 0)
    + (if energy <= 0.0 then 1 else 0)
  }

  /** One decay tick: the body of the interval callback. */
  function Decay(s: Stats): (r: Stats)
    ensures r.age > s.age
  {
    var hunger := Max(0.0, s.hunger - HungerDecay);
    var cleanliness := Max(0.0, s.cleanliness - CleanlinessDecay);
    var energy := Max(0.0, s.energy - EnergyDecay);
    var happiness := Max(0.0, s.happiness - HappinessDecay);
    var low := LowCount(hunger, cleanliness, energy);
    var health :=
      if low > 0 then Max(0.0, s.health - 5.0 * (low as real))
      else if hunger > 70.0 && cleanliness > 70.0 && energy > 70.0 then Min(MaxStat, s.health + 1.0)
      else s.health;
    Stats(health, hunger, cleanliness, energy, happiness, s.age + AgeStep)
  }

  /** A decaying vital drops by its rate, or to 0 when it had less than the rate left. */
  predicate Floored(before: real, after: real, rate: real) {
    if before >= rate then after == before - rate else after == 0.0
  }

  /** Each of the four decaying vitals loses its own fixed amount, floored at 0, and age
      advances by exactly one step. */
  lemma DecayVitals(s: Stats)
    ensures var r := Decay(s);
      Floored(s.hunger, r.hunger, 3.0) && Floored(s.cleanliness, r.cleanliness, 2.0)
      && Floored(s.energy, r.energy, 2.5) && Floored(s.happiness, r.happiness, 1.5)
      && r.age == s.age + 0.167
  {
  }

  /** From non-negative vitals, a tick never raises hunger, cleanliness, energy or happiness. */
  lemma DecayNeverRaises(s: Stats)
    requires s.hunger >= 0.0 && s.cleanliness >= 0.0 && s.energy >= 0.0 && s.happiness >= 0.0
    ensures var r := Decay(s);
      r.hunger <= s.hunger && r.cleanliness <= s.cleanliness
      && r.energy <= s.energy && r.happiness <= s.happiness
  {
  }

  /** A tick keeps all five vitals in [0, 100]. */
  lemma DecayInRange(s: Stats)
    requires InRange(s)
    ensures InRange(Decay(s))
  {
  }

  /** Health after a tick: with k of hunger, cleanliness and energy starved to 0 it loses
      5 per starved vital (floored at 0); with none starved and all three above 70 it gains 1
      (capped at 100); otherwise it is unchanged. */
  lemma DecayHealthRule(s: Stats)
    ensures var r := Decay(s);
      var starved := (if r.hunger == 0.0 then 1 else 0) + (if r.cleanliness == 0.0 then 1 else 0)
        + (if r.energy == 0.0 then 1 else 0);
      (starved > 0 ==> r.health == Max(0.0, s.health - 5.0 * starved as real))
      && (starved == 0 && r.hunger > 70.0 && r.cleanliness > 70.0 && r.energy > 70.0
          ==> r.health == Min(100.0, s.health + 1.0))
      && (starved == 0 && !(r.hunger > 70.0 && r.cleanliness > 70.0 && r.energy > 70.0)
          ==> r.health == s.health)
  {
  }

  /** For health in [0, 100], a tick lowers health exactly when the pet still had health and
      one of hunger, cleanliness or energy is starved to 0, and raises it exactly when none is
      starved, all three stay above 70 and health is below the cap. */
  lemma DecayHealthDirection(s: Stats)
    requires InBounds(s.health)
    ensures var r := Decay(s);
      (r.health < s.health <==> s.health > 0.0 && (r.hunger == 0.0 || r.cleanliness == 0.0 || r.energy == 0.0))
      && (r.health > s.health <==>
            r.hunger > 70.0 && r.cleanliness > 70.0 && r.energy > 70.0 && s.health < 100.0)
  {
  }

  /** Happiness never influences health: two snapshots that differ only in happiness get
      the same health, hunger, cleanliness, energy and age from a tick. */
  lemma DecayHealthIgnoresHappiness(s: Stats, t: Stats)
    requires s.(happiness := t.happiness) == t
    ensures Decay(s).(happiness := 0.0) == Decay(t).(happiness := 0.0)
  {
  }

  /** n consecutive ticks. */
  function DecayN(s: Stats, n: nat): (r: Stats) {
    if n == 0 then s else Decay(DecayN(s, n - 1))
  }

  /** From birth, with nobody tending it, the pet's vitals fall linearly for 33 ticks while
      health stays at 100. */
  lemma {:induction false} UntendedDecline(n: nat)
    requires n <= 33
    ensures DecayN(Initial, n) == Stats(
      100.0,
      100.0 - 3.0 * n as real,
      100.0 - 2.0 * n as real,
      100.0 - 2.5 * n as real,
      100.0 - 1.5 * n as real,
      0.167 * n as real)
  {
    if n > 0 {
      UntendedDecline(n - 1);
    }
  }

  /** An untended newborn pet is alive for its first 33 ticks and dead at tick 34, when
      hunger runs out (hunger reaches 0 first, energy and cleanliness still above 0). */
  lemma UntendedLifetime(n: nat)
    ensures n <= 33 ==> Classify(DecayN(Initial, n)) != Dead
    ensures n == 34 ==> Classify(DecayN(Initial, n)) == Dead && DecayN(Initial, n).health == 95.0
  {
    if n <= 33 {
      UntendedDecline(n);
    } else if n == 34 {
      UntendedDecline(33);
    }
  }

  /** updatePetState: a strict priority chain, first match wins. */
  function Classify(s: Stats): (c: Condition)
    ensures c == Dead <==> Dying(s)
  {
    if Dying(s) then Dead
    else if s.energy <= 20.0 then Sleeping
    else if s.health <= 30.0 || s.hunger <= 20.0 || s.cleanliness <= 20.0 then Sick
    else if s.happiness >= 80.0 && s.health >= 80.0 then Happy
    else Idle
  }

  /** Each condition, characterised by the stats alone: sleeping wins over sick, and happy
      needs both happiness and health at 80 or more. */
  lemma ClassifyCases(s: Stats)
    ensures Classify(s) == Sleeping <==> !Dying(s) && s.energy <= 20.0
    ensures Classify(s) == Sick <==>
      !Dying(s) && s.energy > 20.0 && (s.health <= 30.0 || s.hunger <= 20.0 || s.cleanliness <= 20.0)
    ensures Classify(s) == Happy <==>
      !Dying(s) && s.energy > 20.0 && s.health > 30.0 && s.hunger > 20.0 && s.cleanliness > 20.0
      && s.happiness >= 80.0 && s.health >= 80.0
    ensures Classify(s) == Idle <==>
      !Dying(s) && s.energy > 20.0 && s.health > 30.0 && s.hunger > 20.0 && s.cleanliness > 20.0
      && !(s.happiness >= 80.0 && s.health >= 80.0)
  {
  }

  /** Happiness alone never kills: changing happiness does not change whether the pet is dead. */
  lemma HappinessNeverKills(s: Stats, h: real)
    ensures Classify(s) == Dead <==> Classify(s.(happiness := h)) == Dead
  {
  }

  /** The four urgency labels, in their fixed display order. */
  const UrgencyOrder: seq<string> := ["HUNGRY", "DIRTY", "TIRED", "SICK"]

  /** The labels pushed by getUrgencyMessage, in push order. */
  function CriticalLabels(s: Stats): (labels: seq<string>)
    ensures |labels| <= 4
    ensures labels == [] <==>
      s.hunger > 20.0 && s.cleanliness > 20.0 && s.energy > 20.0 && s.health > 30.0
  {
    (if s.hunger <= 20.0 then ["HUNGRY"] else [])
    + (if s.cleanliness <= 20.0 then ["DIRTY"] else [])
    + (if s.energy <= 20.0 then ["TIRED"] else [])
    + (if s.health <= 30.0 then ["SICK"] else [])
  }

  /** Position of a label in the display order. */
  function Rank(tag: string): (r: nat) {
    if tag == "HUNGRY" then 0 else if tag == "DIRTY" then 1 else if tag == "TIRED" then 2 else 3
  }

  /** A label is listed exactly when its threshold is reached, and the listed labels follow
      the fixed order HUNGRY, DIRTY, TIRED, SICK without repetition. */
  lemma CriticalLabelsSpec(s: Stats)
    ensures var labels := CriticalLabels(s);
      ("HUNGRY" in labels <==> s.hunger <= 20.0)
      && ("DIRTY" in labels <==> s.cleanliness <= 20.0)
      && ("TIRED" in labels <==> s.energy <= 20.0)
      && ("SICK" in labels <==> s.health <= 30.0)
      && (forall l :: l in labels ==> l in UrgencyOrder)
      && (forall i, j :: 0 <= i < j < |labels| ==> Rank(labels[i]) < Rank(labels[j]))
  {
  }

  /** Array.prototype.join. */
  function Join(xs: seq<string>, sep: string): (r: string)
    ensures xs != [] && xs[0] != [] ==> r != []
  {
    if xs == [] then "" else if |xs| == 1 then xs[0] else xs[0] + sep + Join(xs[1..], sep)
  }

  /** getUrgencyMessage: the banner text, empty when nothing is critical. */
  function UrgencyMessage(s: Stats): (m: string)
    ensures m == "" <==> CriticalLabels(s) == []
    ensures m != "" ==> |m| > 16 && m[..16] == "URGENT: Snoo is " && m[|m| - 1] == '!'
  {
    var labels := CriticalLabels(s);
    if |labels| > 0 then "URGENT: Snoo is " + Join(labels, ", ") + "!" else ""
  }

  /** The banner shows exactly when the pet is dead, sleeping or sick: a dead pet always has
      some vital at or below 0, hence below its threshold. */
  lemma UrgencyMatchesCondition(s: Stats)
    ensures UrgencyMessage(s) != "" <==> Classify(s) in {Dead, Sleeping, Sick}
  {
  }
}
