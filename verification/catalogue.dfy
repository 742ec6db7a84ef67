/**
 * The static workout catalogue and the lookup the container performs on it
 * (the first entry whose id is equal to the requested one).
 */
module Catalogue {
  import opened Wrappers
  import opened UserRecord

  datatype Workout = Workout(
    id: string,
    name: string,
    muscleGroup: string,
    difficulty: string,
    unlocked: bool,
    unlockCondition: Option<string>,
    sets: int,
    reps: int,
    xpReward: int
  )

  /** Some entry of `ws` carries the id `id`. */
  predicate HasId(ws: seq<Workout>, id: string) {
    exists i :: 0 <= i < |ws| && ws[i].id == id
  }

  /** `i` is the position of the first entry of `ws` whose id is `id`. */
  predicate FirstWithId(ws: seq<Workout>, id: string, i: int) {
    && 0 <= i < |ws|
    && ws[i].id == id
    && forall j :: 0 <= j < i ==> ws[j].id != id
  }

  /** The catalogue the container is created with; it is never replaced. */
  function Workouts(): (ws: seq<Workout>)
    ensures |ws| == 7
    ensures forall i :: 0 <= i < |ws| ==> ws[i].sets == 3 && ws[i].xpReward > 0
    ensures forall i, j :: 0 <= i < j < |ws| ==> ws[i].id != ws[j].id
  {
    [
      Workout("chest-press", "Chest Press", "Chest", "Beginner", true, None, 3, 10, 15),
      Workout("incline-press", "Incline Press", "Chest", "Beginner", false,
              Some("Complete Chest Press 3 times"), 3, 10, 20),
      Workout("shoulder-press", "Shoulder Press", "Shoulders", "Beginner", true, None, 3, 10, 15),
      Workout("lateral-raise", "Lateral Raise", "Shoulders", "Beginner", false,
              Some("Complete Shoulder Press 3 times"), 3, 12, 18),
      Workout("lat-pulldown", "Lat Pulldown", "Back", "Beginner", true, None, 3, 10, 15),
      Workout("leg-press", "Leg Press", "Legs", "Beginner", true, None, 3, 12, 20),
      Workout("bicep-curl", "Bicep Curl", "Arms", "Beginner", true, None, 3, 10, 12)
    ]
  }

  /**
   * Position of the first entry with id `id`, or None when there is none,
   * as an array `find` with an equality test on ids does.
   */
  function FindIndex(ws: seq<Workout>, id: string): (r: Option<nat>)
    ensures r.None? <==> !HasId(ws, id)
    ensures r.Some? ==> FirstWithId(ws, id, r.value)
  {
    if |ws| == 0 then None
    else if ws[0].id == id then Some(0)
    else
      match FindIndex(ws[1..], id)
      case None =>
        assert forall i :: 1 <= i < |ws| ==> ws[i] == ws[1..][i - 1];
        None
      case Some(k) =>
        assert ws[k + 1] == ws[1..][k];
        assert forall j :: 1 <= j <= k ==> ws[j] == ws[1..][j - 1];
        Some(k + 1)
  }

  /** The first entry with id `id`, if any. */
  function Find(ws: seq<Workout>, id: string): (r: Option<Workout>)
    ensures r.None? <==> !HasId(ws, id)
    ensures r.Some? ==> exists i :: FirstWithId(ws, id, i) && ws[i] == r.value
  {
    match FindIndex(ws, id)
    case None => None
    case Some(i) => Some(ws[i])
  }

  /** The experience one completed set of `w` is worth: the reward split evenly over the sets. */
  function SetXP(w: Workout): (x: real)
    requires w.sets != 0
    ensures x * w.sets as real == w.xpReward as real
    ensures w.sets > 0 && w.xpReward >= 0 ==> x >= 0.0
  {
    w.xpReward as real / w.sets as real
  }

  /**
   * A per-set award is a whole number exactly when the sets divide the
   * reward; otherwise the award is fractional.
   */
  lemma {:induction false} SetXPWholeIff(w: Workout)
    requires w.sets > 0
    ensures (SetXP(w).Floor as real == SetXP(w)) <==> w.xpReward % w.sets == 0
  {
    var x := SetXP(w);
    var q := w.xpReward / w.sets;
    var m := w.xpReward % w.sets;
    assert w.xpReward == q * w.sets + m;
    if m == 0 {
      assert (q as real) * (w.sets as real) == w.xpReward as real;
      assert x == q as real;
    } else {
      var f := (m as real) / (w.sets as real);
      assert x == (q as real) + f;
      ProperFraction(m as real, w.sets as real);
      assert x.Floor == q;
    }
  }

  /** A quotient of a positive number by a larger one lies strictly between 0 and 1. */
  lemma ProperFraction(m: real, s: real)
    requires 0.0 < m < s
    ensures 0.0 < m / s < 1.0
  {
    if m / s >= 1.0 {
      assert false;
    }
  }

  /** In the shipped catalogue, the two 20-point workouts award a fractional 20/3 per set. */
  lemma CatalogueFractionalAwards()
    ensures SetXP(Workouts()[1]) == 20.0 / 3.0
    ensures SetXP(Workouts()[5]) == 20.0 / 3.0
    ensures SetXP(Workouts()[1]).Floor as real != SetXP(Workouts()[1])
    ensures SetXP(Workouts()[5]).Floor as real != SetXP(Workouts()[5])
  {
    SetXPWholeIff(Workouts()[1]);
    SetXPWholeIff(Workouts()[5]);
  }

  /** Every per-set award in the catalogue is between 0 and 7 experience points. */
  lemma CatalogueSetAwardsBounded(i: int)
    requires 0 <= i < |Workouts()|
    ensures 0.0 <= SetXP(Workouts()[i]) <= 7.0
  {
  }

  /**
   * The seed's unlocked ids are exactly the ids of the catalogue entries
   * flagged as unlocked, in catalogue order.
   */
  lemma SeedUnlockedMatchesCatalogue()
    ensures forall id :: id in Seed().unlockedWorkouts <==>
      exists i :: 0 <= i < |Workouts()| && Workouts()[i].id == id && Workouts()[i].unlocked
    ensures Seed().unlockedWorkouts ==
      [Workouts()[0].id, Workouts()[2].id, Workouts()[4].id, Workouts()[5].id, Workouts()[6].id]
  {
    var ws := Workouts();
    var u := Seed().unlockedWorkouts;
    assert u[0] == ws[0].id && u[1] == ws[2].id && u[2] == ws[4].id && u[3] == ws[5].id && u[4] == ws[6].id;
  }
}
