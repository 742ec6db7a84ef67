/**
 * Sequences of calls into the container. Each call's updater is applied to
 * the record the previous one produced, in call order, so a run of calls
 * is a left fold of the transitions over the seed or any other record.
 */
module Sessions {
  import opened UserRecord
  import opened Catalogue
  import opened Progression

  /** One call into the container. */
  datatype Action =
    | Award(amount: real)
    | SetDone(setId: string)
    | WorkoutDone(workoutId: string)

  function Step(u: UserData, a: Action): (r: UserData) {
    match a
    case Award(x) => AddXP(u, x)
    case SetDone(id) => CompleteSet(u, id)
    case WorkoutDone(id) => CompleteWorkout(u, id)
  }

  /** The record after applying `acts` in order, starting from `u`. */
  function Run(u: UserData, acts: seq<Action>): (r: UserData)
    decreases |acts|
  {
    if |acts| == 0 then u else Run(Step(u, acts[0]), acts[1..])
  }

  /** Number of workout completions in `acts`. */
  function WorkoutsIn(acts: seq<Action>): (n: nat)
    decreases |acts|
  {
    if |acts| == 0 then 0 else (if acts[0].WorkoutDone? then 1 else 0) + WorkoutsIn(acts[1..])
  }

  /** Number of calls in `acts` that can award experience. */
  function AwardsIn(acts: seq<Action>): (n: nat)
    decreases |acts|
  {
    if |acts| == 0 then 0 else (if acts[0].WorkoutDone? then 0 else 1) + AwardsIn(acts[1..])
  }

  /** Every direct award in `acts` is non-negative. */
  predicate NonNegativeAwards(acts: seq<Action>) {
    forall i :: 0 <= i < |acts| ==> (acts[i].Award? ==> 0.0 <= acts[i].amount)
  }

  /** `acts` holds only set and workout completions, the calls the workout screen makes. */
  predicate ScreenCallsOnly(acts: seq<Action>) {
    forall i :: 0 <= i < |acts| ==> !acts[i].Award?
  }

  /** No run of calls touches title, streak, overall progress, stats, muscle groups or unlocks. */
  lemma {:induction false} RunKeepsProfile(u: UserData, acts: seq<Action>)
    ensures SameProfile(u, Run(u, acts))
    decreases |acts|
  {
    if |acts| > 0 {
      RunKeepsProfile(Step(u, acts[0]), acts[1..]);
    }
  }

  /** The workout counter rises by exactly the number of workout completions. */
  lemma {:induction false} RunCountsWorkouts(u: UserData, acts: seq<Action>)
    ensures Run(u, acts).totalWorkouts == u.totalWorkouts + WorkoutsIn(acts)
    decreases |acts|
  {
    if |acts| > 0 {
      RunCountsWorkouts(Step(u, acts[0]), acts[1..]);
    }
  }

  /**
   * Over any run, whatever the sign of the awards, the level never falls and
   * rises by at most one per experience-awarding call.
   */
  lemma {:induction false} RunLevelWithinAwards(u: UserData, acts: seq<Action>)
    ensures u.level <= Run(u, acts).level <= u.level + AwardsIn(acts)
    decreases |acts|
  {
    if |acts| > 0 {
      RunLevelWithinAwards(Step(u, acts[0]), acts[1..]);
    }
  }

  /**
   * With non-negative experience and non-negative direct awards, the level
   * never falls, rises by at most one per experience-awarding call, and
   * experience stays non-negative.
   */
  lemma {:induction false} RunLevelBounds(u: UserData, acts: seq<Action>)
    requires 0.0 <= u.currentXP && NonNegativeAwards(acts)
    ensures var r := Run(u, acts);
      && u.level <= r.level <= u.level + AwardsIn(acts)
      && 0.0 <= r.currentXP
    decreases |acts|
  {
    if |acts| > 0 {
      var v := Step(u, acts[0]);
      if acts[0].Award? {
        assert 0.0 <= acts[0].amount;
      }
      assert u.level <= v.level <= u.level + (if acts[0].WorkoutDone? then 0 else 1);
      assert NonNegativeAwards(acts[1..]) by {
        forall i | 0 <= i < |acts[1..]|
          ensures acts[1..][i].Award? ==> 0.0 <= acts[1..][i].amount
        {
          assert acts[1..][i] == acts[i + 1];
        }
      }
      RunLevelBounds(v, acts[1..]);
    }
  }

  /** A non-negative threshold never shrinks over a run. */
  lemma {:induction false} RunThresholdNeverShrinks(u: UserData, acts: seq<Action>)
    requires 0 <= u.xpToNextLevel
    ensures u.xpToNextLevel <= Run(u, acts).xpToNextLevel
    decreases |acts|
  {
    if |acts| > 0 {
      RunThresholdNeverShrinks(Step(u, acts[0]), acts[1..]);
    }
  }

  /**
   * Set and workout completions alone keep the invariant from any record
   * that satisfies it with a threshold of at least 6: every per-set award
   * is at most 7, and such a threshold grows to at least 7, so the single
   * level-up of each award always suffices.
   */
  lemma {:induction false} ScreenCallsKeepInvariant(u: UserData, acts: seq<Action>)
    requires Inv(u) && 6 <= u.xpToNextLevel && ScreenCallsOnly(acts)
    ensures Inv(Run(u, acts)) && 6 <= Run(u, acts).xpToNextLevel
    decreases |acts|
  {
    if |acts| > 0 {
      var v := Step(u, acts[0]);
      if acts[0].SetDone? {
        match FindIndex(Workouts(), acts[0].setId)
        case None =>
        case Some(i) =>
          CatalogueSetAwardsBounded(i);
          AddXPSmallAwardKeepsInvariant(u, SetXP(Workouts()[i]));
      }
      assert Inv(v) && 6 <= v.xpToNextLevel;
      assert ScreenCallsOnly(acts[1..]) by {
        forall i | 0 <= i < |acts[1..]|
          ensures !acts[1..][i].Award?
        {
          assert acts[1..][i] == acts[i + 1];
        }
      }
      ScreenCallsKeepInvariant(v, acts[1..]);
    }
  }

  /** From the seed, any sequence of set and workout completions keeps the invariant. */
  lemma SeedScreenCallsKeepInvariant(acts: seq<Action>)
    requires ScreenCallsOnly(acts)
    ensures Inv(Run(Seed(), acts))
  {
    ScreenCallsKeepInvariant(Seed(), acts);
  }
}
