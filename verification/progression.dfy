/**
 * The three state transitions of the shared container: awarding experience,
 * completing one set of a catalogue workout, and completing a workout.
 * Each is the pure function from the previous record to the next one.
 */
module Progression {
  import opened Wrappers
  import opened UserRecord
  import opened Catalogue

  /**
   * The threshold after a level-up: the old one times 1.2, rounded down.
   * On whole numbers this is the integer rule `(t * 6) / 5`.
   */
  function Grow(t: int): (r: int)
    ensures r == (t * 6) / 5
    ensures 0 <= t ==> t <= r
    ensures 5 <= t ==> t < r
  {
    ((t as real) * 1.2).Floor
  }

  /**
   * Award `amount` experience. Reaching the threshold levels up once: the
   * level rises by one, the threshold is spent from the sum and the
   * threshold grows. There is no second level-up, no clamping and no check
   * on the sign of `amount`.
   */
  function AddXP(u: UserData, amount: real): (r: UserData)
    ensures SameProfile(u, r) && r.totalWorkouts == u.totalWorkouts
    ensures r.level == u.level || r.level == u.level + 1
    ensures r.level == u.level + 1 <==> u.currentXP + amount >= u.xpToNextLevel as real
    ensures r.currentXP + (if r.level == u.level then 0.0 else u.xpToNextLevel as real)
            == u.currentXP + amount
    ensures r.xpToNextLevel == if r.level == u.level then u.xpToNextLevel else (u.xpToNextLevel * 6) / 5
  {
    var newXP := u.currentXP + amount;
    if newXP >= u.xpToNextLevel as real then
      u.(level := u.level + 1,
         currentXP := newXP - u.xpToNextLevel as real,
         xpToNextLevel := Grow(u.xpToNextLevel))
    else
      u.(currentXP := newXP)
  }

  /**
   * Complete one set of the workout with id `id`: an id missing from the
   * catalogue changes nothing, a present one awards the first matching
   * entry's reward divided by its number of sets.
   */
  function CompleteSet(u: UserData, id: string): (r: UserData)
    ensures !HasId(Workouts(), id) ==> r == u
    ensures forall i :: FirstWithId(Workouts(), id, i) ==> r == AddXP(u, SetXP(Workouts()[i]))
    ensures SameProfile(u, r) && r.totalWorkouts == u.totalWorkouts
    ensures u.level <= r.level <= u.level + 1
    ensures 0.0 <= u.currentXP ==> 0.0 <= r.currentXP
  {
    match Find(Workouts(), id)
    case None => u
    case Some(w) =>
      assert w.sets == 3;
      AddXP(u, SetXP(w))
  }

  /** Complete a workout: the workout counter goes up by one, whatever the id. */
  function CompleteWorkout(u: UserData, id: string): (r: UserData)
    ensures r.totalWorkouts == u.totalWorkouts + 1
    ensures SameProfile(u, r) && SameProgress(u, r)
  {
    u.(totalWorkouts := u.totalWorkouts + 1)
  }

  /** Below the threshold the award is simply added; level and threshold stay. */
  lemma AddXPBelowThreshold(u: UserData, amount: real)
    requires u.currentXP + amount < u.xpToNextLevel as real
    ensures AddXP(u, amount) == u.(currentXP := u.currentXP + amount)
  {
  }

  /** At or above the threshold the level rises by exactly one and the threshold is spent. */
  lemma AddXPLevelUp(u: UserData, amount: real)
    requires u.currentXP + amount >= u.xpToNextLevel as real
    ensures var r := AddXP(u, amount);
      && r.level == u.level + 1
      && r.currentXP == u.currentXP + amount - u.xpToNextLevel as real
      && r.xpToNextLevel == Grow(u.xpToNextLevel)
      && (0 <= u.xpToNextLevel ==> u.xpToNextLevel <= r.xpToNextLevel)
  {
  }

  /** An award of exactly the missing experience levels up once and leaves nothing over. */
  lemma AddXPExactAward(u: UserData)
    ensures var r := AddXP(u, u.xpToNextLevel as real - u.currentXP);
      r.level == u.level + 1 && r.currentXP == 0.0
  {
  }

  /**
   * Non-negative awards keep experience non-negative and never lower the
   * level. The level part holds for any award; it is repeated here so the
   * two facts read together.
   */
  lemma AddXPNonNegative(u: UserData, amount: real)
    requires 0.0 <= u.currentXP && 0.0 <= amount
    ensures 0.0 <= AddXP(u, amount).currentXP
    ensures u.level <= AddXP(u, amount).level
  {
  }

  /**
   * From a record satisfying the invariant, a non-negative award keeps the
   * invariant exactly when the sum stays below the old threshold plus the
   * grown one: one level-up is all a single award can absorb.
   */
  lemma AddXPInvariantIff(u: UserData, amount: real)
    requires Inv(u) && 0.0 <= amount
    ensures Inv(AddXP(u, amount)) <==>
      u.currentXP + amount < (u.xpToNextLevel + Grow(u.xpToNextLevel)) as real
  {
  }

  /** An award no larger than the grown threshold keeps the invariant. */
  lemma AddXPSmallAwardKeepsInvariant(u: UserData, amount: real)
    requires Inv(u) && 0.0 <= amount <= Grow(u.xpToNextLevel) as real
    ensures Inv(AddXP(u, amount))
  {
    AddXPInvariantIff(u, amount);
  }

  /** From the seed, an award of 1000 levels up once and leaves the invariant broken. */
  lemma SeedLargeAwardBreaksInvariant()
    ensures var r := AddXP(Seed(), 1000.0);
      r.level == 7 && r.currentXP == 820.0 && r.xpToNextLevel == 720 && !Inv(r)
  {
  }

  /** Completing a workout and awarding experience commute. */
  lemma CompleteWorkoutCommutesWithAddXP(u: UserData, id: string, amount: real)
    ensures CompleteWorkout(AddXP(u, amount), id) == AddXP(CompleteWorkout(u, id), amount)
  {
  }
}
