# Progression reducer of the fitness app's shared state container

This project models the part of `contexts/AppContext.tsx` that holds logic.
The shared container keeps one immutable user record: level, current
experience, experience to the next level, workout counter, title, streak, overall progress,
stats, muscle groups and unlocked workouts. It offers three transitions over
that record:

- `addXP(amount)` adds experience. When the sum reaches the threshold, the
  level rises once, the threshold is taken off the sum, and the threshold
  becomes `Math.floor(threshold * 1.2)`.
- `completeSet(id)` looks the id up in the static workout catalogue. If the
  id is found, it awards `xpReward / sets`. An unknown id does nothing.
- `completeWorkout(id)` adds one to the workout counter, whatever the id.

Every React updater `prev => next` is modelled as a pure Dafny function from
record to record.

- `UserRecord` holds the record, the seed value and the invariant
  `0 <= currentXP < xpToNextLevel`.
- `Catalogue` holds the seven catalogue entries, the first-match lookup and
  the per-set award.
- `Progression` holds the three transitions and the facts about one call.
- `Sessions` folds sequences of calls. It proves what holds over any run: the
  profile fields never change, the counter counts workout completions, the
  level rises at most once per award, and the invariant survives the calls
  the workout screen makes.

Experience is a Dafny `real`. A set of a 20-point, 3-set workout awards a
fractional 20/3 points, and the source does not round that award. The level,
the threshold and the counters are `int`.

The model follows the code as written:
- it levels up at most once per award, even when the award is larger than
  the old threshold plus the grown one;
- it does not reject negative awards;
- it does not clamp anything, does not recompute the title, and does not
  touch streak, stats or muscle groups;
- on level-up it grows the threshold to `Math.floor(threshold * 1.2)`;
- it does not round the per-set award down (the workout screen floors it
  only for display).

The breaking case is stated as a lemma. `ScreenCallsKeepInvariant` shows that
the calls the app actually makes cannot reach it.

## Model

| member | source | states |
|---|---|---|
| UserRecord.Seed | contexts/AppContext.tsx:63-91 | the seed record satisfies `0 <= currentXP (420) < xpToNextLevel (600)`, with level at least 1 and threshold at least 6 |
| Catalogue.Workouts | contexts/AppContext.tsx:93-166 | the catalogue has seven entries, each with 3 sets and a positive reward, and no two entries share an id |
| Catalogue.SeedUnlockedMatchesCatalogue | contexts/AppContext.tsx:84-90 | an id is in the seed's unlocked list exactly when some catalogue entry with that id is flagged unlocked, and the list holds those ids in catalogue order |
| Catalogue.FindIndex | contexts/AppContext.tsx:215 | the lookup finds nothing exactly when no entry has the id; otherwise it returns the position of the first entry with that id |
| Catalogue.Find | contexts/AppContext.tsx:215-216 | the lookup returns nothing exactly when no entry has the id; otherwise it returns the entry at the first position carrying that id |
| Catalogue.SetXP | contexts/AppContext.tsx:217 | the per-set award times the number of sets gives back the whole reward; it is non-negative for positive sets and a non-negative reward |
| Catalogue.SetXPWholeIff | contexts/AppContext.tsx:217 | a per-set award is a whole number if and only if the sets divide the reward |
| Catalogue.CatalogueFractionalAwards | contexts/AppContext.tsx:104-155 | the incline press and leg press entries award 20/3 per set, which is not a whole number |
| Catalogue.CatalogueSetAwardsBounded | contexts/AppContext.tsx:93-166 | every per-set award in the catalogue lies between 0 and 7 |
| Progression.Grow | contexts/AppContext.tsx:207 | `floor(t * 1.2)` equals the integer rule `(t*6)/5`; it never shrinks a non-negative threshold and strictly grows one of at least 5 |
| Progression.AddXP | contexts/AppContext.tsx:199-212 | the level rises by at most one, and it rises exactly when the sum reaches the threshold; leftover plus spent threshold equals old experience plus award; the threshold grows by the integer rule only on level-up; all other fields are unchanged |
| Progression.AddXPBelowThreshold | contexts/AppContext.tsx:201-210 | below the threshold only the experience changes, to the sum |
| Progression.AddXPLevelUp | contexts/AppContext.tsx:202-208 | at or above the threshold: level plus one, experience is the sum minus the old threshold, the threshold grows and never shrinks |
| Progression.AddXPExactAward | contexts/AppContext.tsx:202-206 | awarding exactly the missing experience levels up once and leaves zero experience |
| Progression.AddXPNonNegative | contexts/AppContext.tsx:201-210 | with non-negative experience and award, experience stays non-negative and the level does not fall |
| Progression.AddXPInvariantIff | contexts/AppContext.tsx:200-211 | from a valid record, a non-negative award keeps the invariant if and only if the sum is below the old threshold plus the grown threshold |
| Progression.AddXPSmallAwardKeepsInvariant | contexts/AppContext.tsx:200-211 | an award no larger than the grown threshold keeps the invariant |
| Progression.SeedLargeAwardBreaksInvariant | contexts/AppContext.tsx:199-212 | from the seed, an award of 1000 gives level 7, experience 820 and threshold 720, which breaks the invariant |
| Progression.CompleteSet | contexts/AppContext.tsx:214-219 | an unknown id leaves the record unchanged; a known id equals `addXP` of the first matching entry's per-set award; only progress fields change, and the level rises by at most one |
| Progression.CompleteWorkout | contexts/AppContext.tsx:221-226 | the workout counter rises by exactly one, and nothing else changes, for any id |
| Progression.CompleteWorkoutCommutesWithAddXP | contexts/AppContext.tsx:221-226 | completing a workout and awarding experience can be done in either order with the same result |
| Sessions.RunKeepsProfile | contexts/AppContext.tsx:199-226 | no sequence of calls changes the title, streak, overall progress, stats, muscle groups or unlocked workouts |
| Sessions.RunCountsWorkouts | contexts/AppContext.tsx:221-226 | after a sequence of calls, the counter has risen by exactly the number of workout completions in it |
| Sessions.RunLevelBounds | contexts/AppContext.tsx:199-219 | with non-negative experience and non-negative awards, experience stays non-negative over any run (the level bounds it repeats hold without these premises, see RunLevelWithinAwards) |
| Sessions.RunLevelWithinAwards | contexts/AppContext.tsx:199-226 | over any sequence of calls, including negative awards, the level never falls and rises at most once per experience-awarding call |
| Sessions.RunThresholdNeverShrinks | contexts/AppContext.tsx:207 | a non-negative threshold never shrinks over any sequence of calls |
| Sessions.ScreenCallsKeepInvariant | contexts/AppContext.tsx:214-226 | set and workout completions alone keep the invariant, and a threshold of at least 6, from any record that has both |
| Sessions.SeedScreenCallsKeepInvariant | contexts/AppContext.tsx:63-66 | from the seed, any sequence of set and workout completions keeps `0 <= currentXP < xpToNextLevel` |

## Left out

- Progression.Grow: treats `Math.floor(t * 1.2)` as exact arithmetic. It does not model the IEEE double rounding of `t * 1.2`.
- Progression.AddXP: experience is an exact rational, not an IEEE double, and this can change when a level-up happens. With doubles, a level-up can come one call later than the model predicts. Example: from the seed, 27 Leg Press sets add 20/3 each. In the model they sum to exactly 600 and level up on the 27th set. In doubles the sum is 599.9999999999998, so the level-up waits for the 28th set.
- Catalogue.SetXP: the division is exact. The workout screen's `Math.floor` of the same quotient only changes the displayed number, so it is not modelled.
- React plumbing is left out because it holds no progression logic. This covers `createContext`, `useState`, the provider component and the `useApp` hook that throws outside a provider.
- The duel seed data and the motivational messages are left out because they are static display data with no logic.
- The presentational components are left out because they only render, style and animate. This covers the XP bar, the stat and muscle-group bars, and the streak, duel, workout and proof cards. Their only arithmetic is floating-point width percentages.
- The screen's "unlocked" gate on selecting a workout is left out, because the container does not check it.
- Persistence, load, reset, streak dates, stat and muscle-group increments, clamping, title recomputation and multi-level looping are left out. None of them exists in the modelled code.
