# Community Snoo pet simulation — a Dafny model

This project models the rules of the communal virtual pet ("Community Giga Snoo"): one
pet whose six-field stats record (health, hunger, cleanliness, energy, happiness, age) is
decayed by every viewer's client every ten seconds, classified into a displayed condition
(dead, sleeping, sick, happy, idle), changed by five actions (feed, play, clean, sleep,
talk) that the server resolves, and synchronised between viewers by polling. It also
models the community activity panel: its relative-time labels, its state refresh and the
three entries it shows.

Modules, one per source file or shared part:

- `Wrappers` (wrappers.dfy): `Option`, for JSON fields that may be absent.
- `PetTypes` (pet_types.dfy): the stats record, the conditions and actions of
  `src/shared/types/pet.ts`, the birth values and the decay rates of `src/client/Game.tsx`.
- `Simulation` (simulation.dfy): the decay tick, the classifier and the urgency banner,
  as functions, with lemmas about them.
- `ActionServer` (action_server.dfy): the `/api/pet-action` handler as a total function
  from context and body to a success or error response.
- `GameComponent` (game.dfy): the `Game` component as a class whose fields are its React
  state (`stats`, `petState`, `alive`, `disabled`, `actionCount`) and whose methods are
  its handlers, each with the state it leaves once its updates and the death-check effect
  have run. Fetch results are parameters; timers become explicit calls (`Tick`,
  `ReleaseCooldown`).
- `CommunityFeed` (community_feed.dfy): `formatTimeAgo` with the clock reading as a
  parameter, a reference bucketing by millisecond ranges, the `Feed` class holding
  `recentActions` and `totalActions`, and the displayed view.

Numbers are JavaScript doubles in the source. Every value the program produces is a sum of
exact decimal constants (3, 2, 2.5, 1.5, 0.167, 25, ...), so stats and age are Dafny
`real`. Timestamps are integer milliseconds; Dafny's `/` by a positive constant is
`Math.floor`, negative differences included.

Behaviours of the code worth knowing, each stated by a member:

- Out-of-range input is not clamped. Only the cap of 100 on increments and the floor of
  0 on play's decrement apply. Fields the action does not change keep their value, and a
  changed field can stay out of range: feeding hunger -50 gives -25
  (`ActionServer.ApplyDoesNotClampBelow`). For in-range input every result is in range
  (`ActionServer.ApplyMatchesTable`).
- The decay tick posts `alive: health > 0`, while the death rule looks at four vitals, so
  a tick can post alive for a dead pet (`GameComponent.PostedAliveDisagrees`). A client
  that polls such a record still ends with the four-vital verdict, because its
  death-check effect runs after the poll (`GameComponent.PostedAliveHarmless`,
  `GameComponent.Game.Sync`).
- At mount and right after a restart the displayed condition is idle, although the birth
  stats classify as happy; the class invariant `Game.Valid` admits exactly that exception.
- A poll whose record says `alive: false` for stats that are not dying leaves the pet not
  alive while it shows a living condition: the classifier only ever clears alive, so a
  remote false is kept.

## Model

| member | source | states |
|---|---|---|
| Simulation.LowCount | src/client/Game.tsx:248 | the count of hunger, cleanliness and energy at or below 0 is at most 3 and is 0 exactly when all three are positive |
| Simulation.Decay | src/client/Game.tsx:237-253 | one tick always makes the pet strictly older |
| Simulation.DecayVitals | src/client/Game.tsx:238-245 | hunger, cleanliness, energy and happiness drop by 3, 2, 2.5 and 1.5, or to 0 when less than the rate was left; age grows by 0.167 |
| Simulation.DecayNeverRaises | src/client/Game.tsx:240-243 | from non-negative vitals a tick never raises any of the four decaying vitals |
| Simulation.DecayInRange | src/client/Game.tsx:238-253 | a tick keeps all five vitals in [0, 100] |
| Simulation.DecayHealthRule | src/client/Game.tsx:248-253 | with k vitals starved to 0 health loses 5k floored at 0; with none starved and all three above 70 it gains 1 capped at 100; otherwise it is unchanged |
| Simulation.DecayHealthDirection | src/client/Game.tsx:248-253 | for health in [0, 100], health falls exactly when it was positive and a vital is starved, and rises exactly when none is starved, all three exceed 70 and health is below 100 |
| Simulation.DecayHealthIgnoresHappiness | src/client/Game.tsx:247-253 | snapshots differing only in happiness decay to the same health, hunger, cleanliness, energy and age |
| Simulation.UntendedDecline | src/client/Game.tsx:236-253 | from the birth stats, after n <= 33 ticks hunger, cleanliness, energy and happiness have fallen linearly, health is still 100 and age is 0.167n |
| Simulation.UntendedLifetime | src/client/Game.tsx:130-135 | an untended newborn pet is not dead for 33 ticks and is dead at tick 34, with health 95 |
| Simulation.Classify | src/client/Game.tsx:130-146 | the classifier is total and says dead exactly when health, hunger, cleanliness or energy is at or below 0 |
| Simulation.ClassifyCases | src/client/Game.tsx:137-145 | sleeping iff not dying and energy <= 20; sick iff not dying, energy > 20 and health <= 30 or hunger <= 20 or cleanliness <= 20; happy iff none of those and happiness and health >= 80; idle otherwise |
| Simulation.HappinessNeverKills | src/client/Game.tsx:131 | changing happiness alone never changes whether the pet is classified dead |
| Simulation.CriticalLabels | src/client/Game.tsx:282-286 | at most four labels are pushed, and none exactly when hunger, cleanliness and energy are above 20 and health above 30 |
| Simulation.CriticalLabelsSpec | src/client/Game.tsx:282-286 | HUNGRY, DIRTY, TIRED and SICK are listed exactly when hunger <= 20, cleanliness <= 20, energy <= 20 and health <= 30, in that fixed order, each at most once |
| Simulation.UrgencyMessage | src/client/Game.tsx:281-292 | the banner is empty exactly when no label applies; otherwise it starts "URGENT: Snoo is " and ends with "!" |
| Simulation.UrgencyMatchesCondition | src/client/Game.tsx:281-292 | the banner shows exactly when the classifier says dead, sleeping or sick |
| ActionServer.ParseAction | src/server/index.ts:35-67 | the switch recognises exactly the five action names, each as its own action |
| ActionServer.Apply | src/server/index.ts:32-63 | every action keeps the age of the copied stats and comes with a non-empty message |
| ActionServer.Resolve | src/server/index.ts:15-80 | every error response carries HTTP status 400 |
| ActionServer.MissingContextFirst | src/server/index.ts:19-24 | a missing or empty postId or userId gives "Missing context" whatever the body |
| ActionServer.MissingPayload | src/server/index.ts:26-29 | with a context, a missing or empty action or missing stats gives "Missing action or stats" and no stats |
| ActionServer.UnknownAction | src/server/index.ts:65-67 | a non-empty name that is none of the five actions gives "Invalid action" and no stats |
| ActionServer.ResolveSucceeds | src/server/index.ts:18-74 | the handler succeeds exactly when context, stats and one of the five names are present, and then returns that action's stats and message |
| ActionServer.ApplyMatchesTable | src/server/index.ts:32-63 | for in-range stats each action equals its row of the effect table (feed +25 hunger +5 happiness, play +20 happiness -10 energy, clean +30 cleanliness +5 happiness, sleep +35 energy +5 health, talk +15 happiness) clamped to [0, 100], stays in range and has a message |
| ActionServer.ApplyFrame | src/server/index.ts:32-63 | for any input, every field not named for the action, age included, is copied unchanged |
| ActionServer.ApplyDoesNotClampBelow | src/server/index.ts:32-63 | out-of-range input is not clamped: feed caps hunger 150 at 100, lifts -10 to 15 but leaves -50 at -25; play floors energy -50 at 0; talk leaves a health of -7 as it is |
| ActionServer.ResolveInRange | src/server/index.ts:32-74 | for in-range submitted stats every success has all vitals in [0, 100] and a non-empty message |
| GameComponent.SyncedAlive | src/client/Game.tsx:93-96 | after a poll the pet is alive exactly when the remote flag is not false and no gating vital is at or below 0 |
| GameComponent.PostedAliveDisagrees | src/client/Game.tsx:258-262 | a tick can post alive true (health > 0) for a pet the classifier calls dead |
| GameComponent.PostedAliveHarmless | src/client/Game.tsx:272-276 | a client polling a record posted by a tick ends alive exactly when the classifier says not dead |
| GameComponent.ActionBody | src/client/Game.tsx:155-159 | the request body names the action so that the handler parses it back to that action, and carries the client's current stats |
| GameComponent.ClientSeesEffect | src/client/Game.tsx:155-165 | with a present context and in-range stats, the handler's reply to the client's body is a success whose stats are the client's own moved by the action's row of the effect table, in range, with a message |
| GameComponent.Game.constructor | src/client/Game.tsx:71-77 | the component starts with birth stats, idle, alive, no cooldown and no actions |
| GameComponent.Game.UpdatePetState | src/client/Game.tsx:130-146 | shows the classification of the given stats and clears alive exactly when it is dead |
| GameComponent.Game.DeathCheck | src/client/Game.tsx:272-279 | a living pet with a gating vital at or below 0 becomes not alive and shown dead; nothing else changes |
| GameComponent.Game.Tick | src/client/Game.tsx:233-269 | while alive, replaces the stats by their decay, reclassifies, keeps the pet alive exactly when not dead and posts the decayed stats with alive = health > 0; while dead, changes nothing; keeps the invariant |
| GameComponent.Game.PerformAction | src/client/Game.tsx:148-195 | ignored while dead or cooling down, sending nothing; otherwise sends the action's name with the current stats, starts the cooldown, and a success replaces the stats wholesale, reclassifies and adds exactly 1 to the action count; a failure changes nothing else |
| GameComponent.Game.Restart | src/client/Game.tsx:197-230 | ignored while cooling down; otherwise starts the cooldown and, when the request did not throw, restores the birth stats, idle, alive and a zero action count |
| GameComponent.Game.Sync | src/client/Game.tsx:88-97 | a reply with stats replaces the stats wholesale, reclassifies and sets alive by the remote flag and the death check; any other reply changes nothing |
| GameComponent.Game.ReleaseCooldown | src/client/Game.tsx:189-193 | ends the cooldown and changes nothing else |
| GameComponent.Game.Urgency | src/client/Game.tsx:281-292 | the component's banner is non-empty exactly when its stats classify as dead, sleeping or sick |
| CommunityFeed.NatToString | src/client/components/CommunityFeed.tsx:48 | a number prints as one or more decimal digits, two or more from 10 on |
| CommunityFeed.ParseNatToString | src/client/components/CommunityFeed.tsx:48 | reading the printed digits back gives the number |
| CommunityFeed.NatToStringInjective | src/client/components/CommunityFeed.tsx:52 | distinct counts print differently |
| CommunityFeed.HoursMinutes | src/client/components/CommunityFeed.tsx:44-50 | whole hours counted from whole minutes equal whole hours counted from the milliseconds |
| CommunityFeed.FormatTimeAgo | src/client/components/CommunityFeed.tsx:41-55 | the label is the text of the bucket the millisecond difference falls in |
| CommunityFeed.Bucket | src/client/components/CommunityFeed.tsx:43-54 | under a minute (future included) is just now; m minutes for 1 <= m <= 59; h hours for 1 <= h <= 23; a day or more is yesterday |
| CommunityFeed.AgoTextInjective | src/client/components/CommunityFeed.tsx:46-54 | distinct buckets have distinct labels, so each label names exactly one bucket |
| CommunityFeed.FutureIsJustNow | src/client/components/CommunityFeed.tsx:42-46 | a timestamp less than a minute old or in the future reads "just now" |
| CommunityFeed.RowsOf | src/client/components/CommunityFeed.tsx:66-72 | renders each entry in place, with its id, user, message and relative time |
| CommunityFeed.Display | src/client/components/CommunityFeed.tsx:65-77 | shows the placeholder exactly when there are no entries, otherwise the first min(3, n) entries in the order received |
| CommunityFeed.Feed.constructor | src/client/components/CommunityFeed.tsx:16-17 | the panel starts with no entries and a zero total |
| CommunityFeed.Feed.Fetch | src/client/components/CommunityFeed.tsx:21-31 | an OK reply replaces entries and total wholesale, defaulting to none and 0; a failed or not-OK request changes nothing |
| CommunityFeed.Feed.View | src/client/components/CommunityFeed.tsx:64-77 | the panel shows at most three rows, never more than it holds, and the placeholder exactly when empty |

## Left out

- Network, persistence and routing: `fetch` calls, express setup, JSON parsing and the
  `/api/reddit-update` endpoint with its redis write. Replies are parameters of the
  methods that consume them.
- The shared pet record and the community log: the client reads and writes
  `/api/pet-state`, calls `/api/pet-restart` and reads `/api/community-actions`, but the
  server registers none of them; there is no store or log code to model. Last-write-wins
  between clients is concurrency and is not modelled.
- Timers: the 10 s decay interval, the 15 s and 30 s polls, the 2 s / 3 s action cooldown
  and the 300 ms restart cooldown are explicit method calls (`Tick`, `Sync`, `Fetch`,
  `ReleaseCooldown`), with no cadence.
- Interleaving inside `performAction`: each method runs to completion. In the source a
  tick can land while the action request is in flight; the reply then replaces the stats
  and the condition, but an aliveness the tick cleared stays cleared, since
  `updatePetState` never sets alive back to true, so the pet can end not alive with
  living stats and a living condition.
- The transient message line, `currentAction` (animation only), `sendRedditUpdate` and its
  per-action announcement texts, the death and reborn messages, and the rounding of age in
  them and on screen.
- The server's `catch` returning 500 "Internal server error": with typed stats the switch
  cannot throw. Payloads whose stats fields are not numbers (NaN, strings) are not modelled.
- Floating-point rounding of the 0.167 age accumulation: age is an exact `real`.
- The banner helpers `extractSubredditName` and the hostname check, `birthTime`, the JSX
  rendering, SnooSprite, PixelIcons, StatsPanel, ActionButtons and the platform code in
  src/devvit/main.tsx.
