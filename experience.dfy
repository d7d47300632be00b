// Levels from experience points (experience.js). Level L needs
// 100 + (L-1)*(15 + 5*(L-1)) points to complete: 100, 120, 150, 190, ...
// calculateLevelData climbs the levels with a while loop; LevelOf is the
// level the loop must stop at, characterised by the thresholds.
module Experience {
  const BaseExp := 100
  const FirstIncrease := 15
  const Progression := 5

  /** The points level `level` takes to complete. */
  function Requirement(level: nat): (r: nat)
    requires level >= 1
    ensures r >= BaseExp
  {
    BaseExp + (level - 1) * (FirstIncrease + Progression * (level - 1))
  }

  /** The points needed to reach `level`: the requirements of every lower level. */
  function Threshold(level: nat): nat
    requires level >= 1
  {
    if level == 1 then 0 else Threshold(level - 1) + Requirement(level - 1)
  }

  /** The highest level at or above `level` whose threshold `e` has reached. */
  function Climb(e: nat, level: nat): (r: nat)
    requires level >= 1 && Threshold(level) <= e
    ensures r >= level && Threshold(r) <= e < Threshold(r + 1)
    decreases e - Threshold(level)
  {
    if e >= Threshold(level + 1) then Climb(e, level + 1) else level
  }

  /** The object calculateLevelData returns. */
  datatype LevelData = LevelData(level: nat, currentExp: nat, levelExp: nat, totalExpNeeded: nat, progress: real)

  /** Negative experience counts as none. */
  function Clamped(exp: int): nat
  {
    if exp < 0 then 0 else exp
  }

  /** What calculateLevelData(exp) returns. */
  function LevelOf(exp: int): (d: LevelData)
    ensures d.level >= 1 && d.totalExpNeeded + d.currentExp == Clamped(exp)
    ensures 0 <= d.currentExp < d.levelExp
  {
    var e := Clamped(exp);
    var level := Climb(e, 1);
    var current := e - Threshold(level);
    LevelData(level, current, Requirement(level), Threshold(level),
              (current as real / Requirement(level) as real) * 100.0)
  }

  lemma {:induction false} ThresholdMonotone(a: nat, b: nat)
    requires 1 <= a <= b
    ensures Threshold(a) <= Threshold(b)
    decreases b - a
  {
    if a < b {
      ThresholdMonotone(a, b - 1);
    }
  }

  /** A level whose thresholds bracket `e` is the level Climb finds from 1. */
  lemma LevelUnique(e: nat, level: nat)
    requires level >= 1 && Threshold(level) <= e < Threshold(level + 1)
    ensures Climb(e, 1) == level
  {
    var r := Climb(e, 1);
    if r < level {
      ThresholdMonotone(r + 1, level);
    } else if r > level {
      ThresholdMonotone(level + 1, r);
    }
  }

  /**
   * The level of `exp` is exactly the level whose threshold the (clamped)
   * experience has reached and whose successor's it has not; the data
   * returned are that level's requirement and threshold.
   */
  lemma LevelCharacterised(exp: int, level: nat)
    ensures LevelOf(exp).level == level
      <==> level >= 1 && Threshold(level) <= Clamped(exp) < Threshold(level + 1)
    ensures LevelOf(exp).levelExp == Requirement(LevelOf(exp).level)
    ensures LevelOf(exp).totalExpNeeded == Threshold(LevelOf(exp).level)
  {
    if level >= 1 && Threshold(level) <= Clamped(exp) < Threshold(level + 1) {
      LevelUnique(Clamped(exp), level);
    }
  }

  /** More experience never means a lower level. */
  lemma LevelMonotone(e1: int, e2: int)
    requires e1 <= e2
    ensures LevelOf(e1).level <= LevelOf(e2).level
  {
    var l1, l2 := LevelOf(e1).level, LevelOf(e2).level;
    if l1 > l2 {
      ThresholdMonotone(l2 + 1, l1);
    }
  }

  /** Progress is a percentage of the current level, below 100. */
  lemma ProgressBounds(exp: int)
    ensures 0.0 <= LevelOf(exp).progress < 100.0
  {
    var d := LevelOf(exp);
    assert d.progress == (d.currentExp as real / d.levelExp as real) * 100.0;
    PercentBelowHundred(d.currentExp as real, d.levelExp as real);
  }

  lemma PercentBelowHundred(x: real, y: real)
    requires 0.0 <= x < y
    ensures 0.0 <= (x / y) * 100.0 < 100.0
  {
    assert x / y < 1.0 by {
      assert x / y * y == x;
    }
  }

  /** The first levels: 100, 120 and 150 points; 219 points is level 2, 220 is level 3. */
  lemma FirstLevels()
    ensures Requirement(1) == 100 && Requirement(2) == 120 && Requirement(3) == 150
    ensures LevelOf(-5).level == 1 && LevelOf(99).level == 1 && LevelOf(100).level == 2
    ensures LevelOf(219).level == 2 && LevelOf(220).level == 3
  {
    assert Threshold(2) == 100 && Threshold(3) == 220 && Threshold(4) == 370;
    LevelUnique(0, 1);
    LevelUnique(99, 1);
    LevelUnique(100, 2);
    LevelUnique(219, 2);
    LevelUnique(220, 3);
  }

  /** calculateLevelData(exp). */
  method CalculateLevelData(exp0: int) returns (d: LevelData)
    ensures d == LevelOf(exp0)
  {
    var exp := exp0;
    if exp < 0 {
      exp := 0;
    }
    var expIncrease := FirstIncrease;
    var totalExpNeeded := 0;
    var level := 1;
    var currentLevelExp := BaseExp;
    while exp >= totalExpNeeded + currentLevelExp
      invariant level >= 1 && totalExpNeeded == Threshold(level) <= exp
      invariant expIncrease == FirstIncrease + Progression * (level - 1)
      invariant currentLevelExp == Requirement(level)
      decreases exp - totalExpNeeded
    {
      totalExpNeeded := totalExpNeeded + currentLevelExp;
      level := level + 1;
      expIncrease := expIncrease + Progression;
      currentLevelExp := BaseExp + (level - 1) * expIncrease;
    }
    LevelUnique(exp, level);
    var currentExp := exp - totalExpNeeded;
    d := LevelData(level, currentExp, currentLevelExp, totalExpNeeded,
                   (currentExp as real / currentLevelExp as real) * 100.0);
  }

  /** getProgressBarOffset: the wider offset from level 10 on. */
  function ProgressBarOffset(level: int): (s: string)
    ensures s == "35px" || s == "30px"
    ensures s == "35px" <==> level >= 10
  {
    if level >= 10 then "35px" else "30px"
  }

  /** Level 10 starts at 2460 points, so the wide offset is shown exactly from there. */
  lemma WideOffsetFrom(exp: int)
    ensures ProgressBarOffset(LevelOf(exp).level) == "35px" <==> exp >= 2460
  {
    assert Threshold(2) == 100;
    assert Threshold(3) == 220;
    assert Threshold(4) == 370;
    assert Threshold(5) == 560;
    assert Threshold(6) == 800;
    assert Threshold(7) == 1100;
    assert Threshold(8) == 1470;
    assert Threshold(9) == 1920;
    assert Threshold(10) == 2460;
    assert Threshold(11) == 3100;
    LevelUnique(2459, 9);
    LevelUnique(2460, 10);
    if exp >= 2460 {
      LevelMonotone(2460, exp);
    } else {
      LevelMonotone(exp, 2459);
    }
  }
}
