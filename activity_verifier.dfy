// ActivityVerifier.js: checkAppActivity's dispatch on the task's activity
// type, and checkGamesPlayed's decision over the task list the server
// returns.
module ActivityVerifier {
  import opened Js

  /** A task as the server lists it; absent properties are None. */
  datatype ServerTask = ServerTask(activityType: Option<string>, requiredCount: Option<int>, status: Option<string>, progress: Option<int>)

  /**
   * The answer to POST /api/tasks/get: `response.ok`, the truthiness of
   * `success`, and `tasks` (None when absent, so that `.find` throws).
   */
  datatype TasksReply = TasksReply(ok: bool, success: bool, tasks: Option<seq<ServerTask>>)

  /** The predicate handed to `Array.prototype.find` (both comparisons strict). */
  predicate Matches(t: ServerTask, required: int)
  {
    t.activityType == Some("play_games") && t.requiredCount == Some(required)
  }

  /** The index `find` stops at, searching from `i`. */
  function FindFrom(tasks: seq<ServerTask>, required: int, i: nat): (k: Option<nat>)
    requires i <= |tasks|
    decreases |tasks| - i
    ensures k.Some? ==> i <= k.value < |tasks| && Matches(tasks[k.value], required)
    ensures k.Some? ==> forall j :: i <= j < k.value ==> !Matches(tasks[j], required)
    ensures k.None? ==> forall j :: i <= j < |tasks| ==> !Matches(tasks[j], required)
  {
    if i == |tasks| then None
    else if Matches(tasks[i], required) then Some(i)
    else FindFrom(tasks, required, i + 1)
  }

  function Find(tasks: seq<ServerTask>, required: int): Option<nat>
  {
    FindFrom(tasks, required, 0)
  }

  /** The found task counts when it is completed or its progress is at least 100. */
  predicate Done(t: ServerTask)
  {
    t.status == Some("completed") || (t.progress.Some? && t.progress.value >= 100)
  }

  /** checkGamesPlayed; `reply` is None when fetch or response.json() threw. */
  function CheckGamesPlayed(reply: Option<TasksReply>, required: int): bool
  {
    if reply.None? || !reply.value.ok || !reply.value.success then false
    else if reply.value.tasks.None? then false
    else
      var tasks := reply.value.tasks.value;
      match Find(tasks, required)
      case None => false
      case Some(k) => Done(tasks[k])
  }

  /** `task.requiredCount || 0`. */
  function RequiredOrZero(requiredCount: Option<int>): (n: int)
    ensures requiredCount.Some? && requiredCount.value != 0 ==> n == requiredCount.value
    ensures requiredCount.None? || requiredCount.value == 0 ==> n == 0
  {
    if requiredCount.Some? && requiredCount.value != 0 then requiredCount.value else 0
  }

  /** checkAppActivity for a task with the given `activityType` and `requiredCount`. */
  function CheckAppActivity(userId: Option<int>, activityType: Option<string>, requiredCount: Option<int>,
                            reply: Option<TasksReply>): bool
  {
    if userId.None? || userId.value == 0 then false
    else if activityType == Some("login") then true
    else if activityType == Some("play_games") then CheckGamesPlayed(reply, RequiredOrZero(requiredCount))
    else false
  }

  // ---------------------------------------------------------------------
  // Properties.

  /**
   * Login always passes, share_results and unknown types never do, a
   * missing user id never does, and play_games defers to the server's list.
   */
  lemma ActivityDispatch(userId: Option<int>, activityType: Option<string>, requiredCount: Option<int>, reply: Option<TasksReply>)
    ensures CheckAppActivity(userId, activityType, requiredCount, reply)
      <==> userId.Some? && userId.value != 0
           && (activityType == Some("login")
               || (activityType == Some("play_games") && CheckGamesPlayed(reply, RequiredOrZero(requiredCount))))
    ensures activityType == Some("share_results") ==> !CheckAppActivity(userId, activityType, requiredCount, reply)
  {
  }

  /**
   * play_games passes exactly when the list holds a play_games task with
   * the same requiredCount and the first such task is completed or at 100.
   */
  lemma GamesPlayedCharacterised(reply: Option<TasksReply>, required: int)
    ensures CheckGamesPlayed(reply, required)
      <==> reply.Some? && reply.value.ok && reply.value.success && reply.value.tasks.Some?
           && exists k :: 0 <= k < |reply.value.tasks.value| && Matches(reply.value.tasks.value[k], required)
                && Done(reply.value.tasks.value[k])
                && forall j :: 0 <= j < k ==> !Matches(reply.value.tasks.value[j], required)
  {
    if reply.Some? && reply.value.ok && reply.value.success && reply.value.tasks.Some? {
      var tasks := reply.value.tasks.value;
      var k := Find(tasks, required);
      if k.Some? {
        assert Matches(tasks[k.value], required) && Done(tasks[k.value]) == CheckGamesPlayed(reply, required);
      }
    }
  }

  /** With no matching task in the list the answer is no, whatever else the list says. */
  lemma NoMatchRefused(reply: TasksReply, tasks: seq<ServerTask>, required: int)
    requires reply.tasks == Some(tasks)
    requires forall t :: t in tasks ==> !Matches(t, required)
    ensures !CheckGamesPlayed(Some(reply), required)
  {
    forall j | 0 <= j < |tasks| ensures !Matches(tasks[j], required) {
      assert tasks[j] in tasks;
    }
  }

  /** A later matching task that is complete does not help when the first match is not. */
  lemma FirstMatchDecides(before: seq<ServerTask>, first: ServerTask, after: seq<ServerTask>, required: int)
    requires forall t :: t in before ==> !Matches(t, required)
    requires Matches(first, required)
    ensures CheckGamesPlayed(Some(TasksReply(true, true, Some(before + [first] + after))), required) == Done(first)
  {
    var tasks := before + [first] + after;
    assert tasks[|before|] == first;
    forall j | 0 <= j < |before| ensures !Matches(tasks[j], required) {
      assert tasks[j] == before[j] && before[j] in before;
    }
  }
}
