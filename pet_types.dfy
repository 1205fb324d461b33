/**
 * The shared record types of the pet (src/shared/types/pet.ts) and the two constant
 * tables of the client (INITIAL_STATS and DECAY_RATE in src/client/Game.tsx).
 *
 * Every stat is a JavaScript number; the values the program ever produces are sums of
 * exact decimal constants, so they are modelled as `real`.
 */
module PetTypes {

  /** PetStats: five vitals and the age in minutes. */
  datatype Stats = Stats(
    health: real,
    hunger: real,
    cleanliness: real,
    energy: real,
    happiness: real,
    age: real)

  /** PetState: the displayed condition of the pet. */
  datatype Condition = Idle | Happy | Sick | Sleeping | Dead

  /** ActionType: the five things a viewer can do to the pet. */
  datatype Action = Feed | Play | Clean | Sleep | Talk

  /** The wire name of an action, as the client sends it. */
  function ActionName(a: Action): (name: string) {
    match a
    case Feed => "feed"
    case Play => "play"
    case Clean => "clean"
    case Sleep => "sleep"
    case Talk => "talk"
  }

  /** The birth values: every vital at 100, age 0. */
  const Initial: Stats := Stats(100.0, 100.0, 100.0, 100.0, 100.0, 0.0)

  /** Per-tick decay of the four decaying vitals (DECAY_RATE). */
  const HungerDecay: real := 3.0
  const CleanlinessDecay: real := 2.0
  const EnergyDecay: real := 2.5
  const HappinessDecay: real := 1.5

  /** Age added by one ten-second tick, in minutes. */
  const AgeStep: real := 0.167

  /** Upper bound of every vital. */
  const MaxStat: real := 100.0

  function Max(a: real, b: real): (m: real) { if a >= b then a else b }
  function Min(a: real, b: real): (m: real) { if a <= b then a else b }

  /** A vital lies in [0, 100]. */
  predicate InBounds(x: real) { 0.0 <= x <= MaxStat }

  /** All five vitals lie in [0, 100]; age is not bounded. */
  predicate InRange(s: Stats) {
    InBounds(s.health) && InBounds(s.hunger) && InBounds(s.cleanliness)
    && InBounds(s.energy) && InBounds(s.happiness)
  }

  /** The four vitals that gate life: any of them at or below 0 means death. */
  predicate Dying(s: Stats) {
    s.health <= 0.0 || s.hunger <= 0.0 || s.cleanliness <= 0.0 || s.energy <= 0.0
  }

  /** Names of the six fields, to say which of them an operation touches. */
  datatype Field = Health | Hunger | Cleanliness | Energy | Happiness | Age

  function Get(s: Stats, f: Field): (v: real) {
    match f
    case Health => s.health
    case Hunger => s.hunger
    case Cleanliness => s.cleanliness
    case Energy => s.energy
    case Happiness => s.happiness
    case Age => s.age
  }
}
