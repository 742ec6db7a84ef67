/**
 * The user's progression record held by the app's shared state container,
 * and the seed value the container starts from.
 */
module UserRecord {

  /** The four named attribute scores shown on the profile. */
  datatype Stats = Stats(strength: int, endurance: int, discipline: int, mobility: int)

  /** Per-muscle-group mastery scores. */
  datatype MuscleGroups = MuscleGroups(chest: int, shoulders: int, back: int, legs: int, arms: int)

  /**
   * The whole record. Experience is a `real` because a set completion can
   * award a fractional amount (a reward of 20 split over 3 sets); the other
   * counters only ever take whole values.
   */
  datatype UserData = UserData(
    level: int,
    currentXP: real,
    xpToNextLevel: int,
    title: string,
    streakDays: int,
    totalWorkouts: int,
    overallProgress: int,
    stats: Stats,
    muscleGroups: MuscleGroups,
    unlockedWorkouts: seq<string>
  )

  /** Leftover experience is non-negative and below the current threshold. */
  predicate Inv(u: UserData) {
    0.0 <= u.currentXP < u.xpToNextLevel as real
  }

  /**
   * True when `r` agrees with `u` on every field that no transition of the
   * container ever writes: everything except level, experience, threshold
   * and the workout counter.
   */
  predicate SameProfile(u: UserData, r: UserData) {
    && r.title == u.title
    && r.streakDays == u.streakDays
    && r.overallProgress == u.overallProgress
    && r.stats == u.stats
    && r.muscleGroups == u.muscleGroups
    && r.unlockedWorkouts == u.unlockedWorkouts
  }

  /** True when level, experience and threshold all agree. */
  predicate SameProgress(u: UserData, r: UserData) {
    r.level == u.level && r.currentXP == u.currentXP && r.xpToNextLevel == u.xpToNextLevel
  }

  /** The record the container is created with. */
  function Seed(): (r: UserData)
    ensures Inv(r)
    ensures r.level >= 1 && r.xpToNextLevel >= 6
  {
    UserData(
      level := 6,
      currentXP := 420.0,
      xpToNextLevel := 600,
      title := "Rookie Lifter",
      streakDays := 6,
      totalWorkouts := 42,
      overallProgress := 38,
      stats := Stats(strength := 45, endurance := 32, discipline := 68, mobility := 28),
      muscleGroups := MuscleGroups(chest := 42, shoulders := 38, back := 35, legs := 41, arms := 33),
      unlockedWorkouts := ["chest-press", "shoulder-press", "lat-pulldown", "leg-press", "bicep-curl"]
    )
  }
}
