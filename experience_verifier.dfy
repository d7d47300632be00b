// The experience-task verifier (ExperienceVerifier.js): a 'reach_level'
// task is met once the level of the user's experience reaches the task's
// required level, 3 when the task names none.
module ExperienceVerifier {
  import opened Js
  import Experience

  const DefaultRequiredLevel := 3

  /** The fields of an experience task the verifier reads. */
  datatype Task = Task(experienceType: Option<string>, requiredLevel: Option<int>)

  /** A JavaScript number field is truthy when present and not 0. */
  predicate Present(n: Option<int>)
  {
    n.Some? && n.value != 0
  }

  /** `task.requiredLevel || 3`. */
  function RequiredLevel(t: Task): int
  {
    if Present(t.requiredLevel) then t.requiredLevel.value else DefaultRequiredLevel
  }

  /** `userData.exp || 0`. */
  function ExpOrZero(exp: Option<int>): int
  {
    if exp.Some? then exp.value else 0
  }

  /**
   * checkLevelAchievement: false without a Telegram user id, otherwise
   * whether the level of the user's experience reaches the required level.
   */
  function CheckLevelAchievement(userId: Option<int>, exp: Option<int>, t: Task): (ok: bool)
    ensures !Present(userId) ==> !ok
  {
    Present(userId) && Experience.LevelOf(ExpOrZero(exp)).level >= RequiredLevel(t)
  }

  /** checkExperience: only 'reach_level' tasks are checked; any other kind fails. */
  function CheckExperience(userId: Option<int>, exp: Option<int>, t: Task): (ok: bool)
    ensures t.experienceType != Some("reach_level") ==> !ok
    ensures t.experienceType == Some("reach_level") ==> ok == CheckLevelAchievement(userId, exp, t)
  {
    if t.experienceType == Some("reach_level") then CheckLevelAchievement(userId, exp, t) else false
  }

  /**
   * For a user with an id and a required level of at least 1, the task is
   * met exactly when the experience has reached that level's threshold.
   */
  lemma AchievementByThreshold(userId: Option<int>, exp: Option<int>, t: Task)
    requires Present(userId) && RequiredLevel(t) >= 1
    ensures CheckLevelAchievement(userId, exp, t)
      <==> Experience.Clamped(ExpOrZero(exp)) >= Experience.Threshold(RequiredLevel(t))
  {
    var e := ExpOrZero(exp);
    var level, required := Experience.LevelOf(e).level, RequiredLevel(t);
    Experience.LevelCharacterised(e, level);
    if level >= required {
      Experience.ThresholdMonotone(required, level);
    } else {
      Experience.ThresholdMonotone(level + 1, required);
    }
  }

  /** A task met at some experience stays met at any larger experience. */
  lemma AchievementStays(userId: Option<int>, e1: int, e2: int, t: Task)
    requires e1 <= e2 && CheckLevelAchievement(userId, Some(e1), t)
    ensures CheckLevelAchievement(userId, Some(e2), t)
  {
    Experience.LevelMonotone(e1, e2);
  }

  /** With the default required level 3 a user passes exactly from 220 points. */
  lemma DefaultTaskFrom220(userId: Option<int>, exp: int, t: Task)
    requires Present(userId) && !Present(t.requiredLevel)
    ensures CheckLevelAchievement(userId, Some(exp), t) <==> exp >= 220
  {
    Experience.FirstLevels();
    if exp >= 220 {
      Experience.LevelMonotone(220, exp);
    } else {
      Experience.LevelMonotone(exp, 219);
    }
  }
}
