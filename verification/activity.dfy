/** The activity log (services/activityService.js, models/UserActivity.js):
    the record `logActivity` builds, the schema enums that decide whether
    it can be saved, and the paginated activity listings.  The log is a
    sequence in creation order, so its newest entries come last. */
module Activity {
  import opened Common
  import Paging

  /** The schema's `type` enum. */
  const ActivityTypes: set<string> := {
    "login", "logout", "login_failed", "profile_update", "password_change", "email_verification",
    "team_create", "team_update", "team_delete", "team_join", "team_leave", "team_status_toggle",
    "project_create", "project_update", "project_delete", "project_settings_update",
    "task_create", "task_update", "task_delete", "task_complete", "task_assign",
    "user_story_create", "user_story_update", "user_story_delete",
    "comment_added", "comment_updated", "comment_deleted",
    "error",
    "chatbot_interaction",
    "team_members_remove", "team_projects_remove", "project_team_add",
    "repository_linked", "repository_unlinked",
    "team_join_request",
    "attachment_added", "attachment_deleted",
    "subtask_create", "subtask_update", "subtask_delete", "subtask_complete", "subtask_assign", "subtask_reorder",
    "subtask_uncomplete"}

  /** The schema's `status` enum. */
  const Statuses: set<string> := {"success", "error", "warning", "info"}

  /** The schema's `loginMethod` enum besides null. */
  const LoginMethods: set<string> := {"email", "google"}

  /** A saved activity.  `metadata` keeps its string-valued entries. */
  datatype Record = Record(
    user: Option<string>,
    typ: string,
    status: string,
    details: string,
    metadata: map<string, string>,
    loginMethod: Option<string>,
    timestamp: int)

  /** Schema validation of a record against the `type` enum `types`. */
  predicate ValidIn(types: set<string>, r: Record) {
    r.typ in types && r.status in Statuses && (r.loginMethod.None? || r.loginMethod.value in LoginMethods)
  }

  /** The record `logActivity` builds: `user` only for a truthy id,
      `loginMethod` only when one is given. */
  function NewRecord(userId: Option<string>, typ: string, status: string, details: string,
                     metadata: map<string, string>, loginMethod: Option<string>, now: int): Record
  {
    Record(if Truthy(userId) then userId else None, typ, status, details, metadata,
           if Truthy(loginMethod) then loginMethod else None, now)
  }

  /** The record saved when an activity fails validation. */
  function ErrorRecord(userId: Option<string>, typ: string, status: string, details: string, now: int): Record {
    Record(if Truthy(userId) then userId else None, "error", "error", "Failed to log activity",
           map["originalType" := typ, "originalStatus" := status, "originalDetails" := details], None, now)
  }

  /** The log after a `logActivity` call and whether the call returned
      normally (`false`: it threw to its caller). */
  datatype Logged = Logged(log: seq<Record>, ok: bool)

  /** `logActivity` against the `type` enum `types`: the record is saved if
      it validates; otherwise an error record is saved instead and the call
      throws. */
  function LogActivityIn(types: set<string>, log: seq<Record>, userId: Option<string>, typ: string, status: string,
                         details: string, metadata: map<string, string>, loginMethod: Option<string>, now: int): (r: Logged)
    requires "error" in types
    ensures |r.log| == |log| + 1 && r.log[..|log|] == log
    ensures r.ok <==> typ in types && status in Statuses && (!Truthy(loginMethod) || loginMethod.value in LoginMethods)
    ensures ValidIn(types, r.log[|log|])
    ensures r.ok ==> var a := r.log[|log|];
      a.typ == typ && a.status == status && a.details == details && a.metadata == metadata && a.timestamp == now &&
      (a.user.Some? <==> Truthy(userId)) && (a.user.Some? ==> a.user == userId) &&
      (a.loginMethod.Some? <==> Truthy(loginMethod)) && (a.loginMethod.Some? ==> a.loginMethod == loginMethod)
    ensures !r.ok ==> var a := r.log[|log|];
      a.typ == "error" && a.status == "error" && "originalType" in a.metadata && a.metadata["originalType"] == typ
  {
    var a := NewRecord(userId, typ, status, details, metadata, loginMethod, now);
    if ValidIn(types, a) then Logged(log + [a], true)
    else Logged(log + [ErrorRecord(userId, typ, status, details, now)], false)
  }

  /** `logActivity` called with a string where the `metadata` object goes:
      a string cannot be cast to the schema's `Map` path, so the create
      rejects, an error record is saved instead and the call throws,
      whatever the type. */
  function LogActivityTextMetadata(log: seq<Record>, userId: Option<string>, typ: string, status: string,
                                   details: string, now: int): (r: Logged)
    ensures !r.ok
    ensures |r.log| == |log| + 1 && r.log[..|log|] == log
    ensures ValidIn(ActivityTypes, r.log[|log|])
    ensures var a := r.log[|log|];
      a.typ == "error" && a.user.None? == !Truthy(userId) && "originalType" in a.metadata && a.metadata["originalType"] == typ
  {
    Logged(log + [ErrorRecord(userId, typ, status, details, now)], false)
  }

  /** Two enums that both list `typ` log it identically. */
  lemma ListedLogsAgree(types: set<string>, types': set<string>, log: seq<Record>, userId: Option<string>, typ: string,
                        status: string, details: string, metadata: map<string, string>, loginMethod: Option<string>, now: int)
    requires "error" in types && "error" in types' && typ in types && typ in types'
    ensures LogActivityIn(types, log, userId, typ, status, details, metadata, loginMethod, now) ==
            LogActivityIn(types', log, userId, typ, status, details, metadata, loginMethod, now)
  {
  }

  /** `logActivity` with the schema's enum. */
  function LogActivity(log: seq<Record>, userId: Option<string>, typ: string, status: string,
                       details: string, metadata: map<string, string>, loginMethod: Option<string>, now: int): Logged
  {
    LogActivityIn(ActivityTypes, log, userId, typ, status, details, metadata, loginMethod, now)
  }

  /** The two names the handlers use that the enum lacks. */
  lemma UnlistedNames()
    ensures "task_unassign" !in ActivityTypes && "team_status_update" !in ActivityTypes
  {
  }

  /** Two activity names the handlers log are missing from the enum, so
      logging them always throws. */
  lemma UnlistedTypesThrow(log: seq<Record>, userId: Option<string>, details: string, metadata: map<string, string>, now: int)
    ensures !LogActivity(log, userId, "task_unassign", "success", details, metadata, None, now).ok
    ensures !LogActivity(log, userId, "team_status_update", "success", details, metadata, None, now).ok
  {
    assert "task_unassign" !in ActivityTypes;
    assert "team_status_update" !in ActivityTypes;
  }

  /** The enum with the two names the handlers use added. */
  const IntendedActivityTypes: set<string> := ActivityTypes + {"task_unassign", "team_status_update"}

  /** With the names added, both activities are logged as given. */
  lemma IntendedTypesLog(log: seq<Record>, userId: Option<string>, details: string, metadata: map<string, string>, now: int)
    ensures LogActivityIn(IntendedActivityTypes, log, userId, "task_unassign", "success", details, metadata, None, now).ok
    ensures LogActivityIn(IntendedActivityTypes, log, userId, "team_status_update", "success", details, metadata, None, now).ok
  {
  }

  // ---------------------------------------------------------------------
  // Listings
  // ---------------------------------------------------------------------

  /** A log appended in timestamp order. */
  predicate TimeOrdered(log: seq<Record>) {
    forall i, j :: 0 <= i < j < |log| ==> log[i].timestamp <= log[j].timestamp
  }

  /** A listing sorted by descending timestamp. */
  predicate NewestFirst(xs: seq<Record>) {
    forall i, j :: 0 <= i < j < |xs| ==> xs[i].timestamp >= xs[j].timestamp
  }

  /** The last record of an ordered log is the latest, and the rest of the
      log stays ordered. */
  lemma LastIsLatest(log: seq<Record>)
    requires TimeOrdered(log) && log != []
    ensures forall a :: a in log ==> a.timestamp <= log[|log| - 1].timestamp
    ensures TimeOrdered(log[..|log| - 1])
  {
    forall a | a in log
      ensures a.timestamp <= log[|log| - 1].timestamp
    {
      var i :| 0 <= i < |log| && log[i] == a;
    }
  }

  /** Putting a record no older than anything in `before` ahead of a
      newest-first selection of `before` keeps it newest first. */
  lemma ConsNewest(x: Record, rest: seq<Record>, before: seq<Record>)
    requires NewestFirst(rest)
    requires forall a :: a in rest ==> a in before
    requires forall a :: a in before ==> a.timestamp <= x.timestamp
    ensures NewestFirst([x] + rest)
  {
    var xs := [x] + rest;
    forall i, j | 0 <= i < j < |xs|
      ensures xs[i].timestamp >= xs[j].timestamp
    {
      assert xs[j] == rest[j - 1];
      if i > 0 {
        assert xs[i] == rest[i - 1];
      } else {
        assert rest[j - 1] in rest;
      }
    }
  }

  predicate OfTask(a: Record, taskId: string) {
    "taskId" in a.metadata && a.metadata["taskId"] == taskId
  }

  /** The task's activities, newest first: the log read backwards, which is
      the `Timestamp` descending sort for a log appended in timestamp
      order. */
  function ForTask(log: seq<Record>, taskId: string): (r: seq<Record>)
    ensures |r| <= |log|
    ensures forall a :: a in r <==> a in log && OfTask(a, taskId)
    ensures forall a :: multiset(r)[a] == if OfTask(a, taskId) then multiset(log)[a] else 0
    decreases |log|
  {
    if log == [] then []
    else
      var last := log[|log| - 1];
      assert log == log[..|log| - 1] + [last];
      (if OfTask(last, taskId) then [last] else []) + ForTask(log[..|log| - 1], taskId)
  }

  /** For a log appended in timestamp order the task's listing is sorted
      newest first, as `.sort({ Timestamp: -1 })` returns it. */
  lemma {:induction false} ForTaskNewestFirst(log: seq<Record>, taskId: string)
    requires TimeOrdered(log)
    ensures NewestFirst(ForTask(log, taskId))
    decreases |log|
  {
    if log != [] {
      var init := log[..|log| - 1];
      LastIsLatest(log);
      ForTaskNewestFirst(init, taskId);
      if OfTask(log[|log| - 1], taskId) {
        ConsNewest(log[|log| - 1], ForTask(init, taskId), init);
      }
    }
  }

  /** The user's activities, newest first: the log read backwards, which is
      the `Timestamp` descending sort for a log appended in timestamp
      order. */
  function ForUser(log: seq<Record>, userId: string): (r: seq<Record>)
    ensures |r| <= |log|
    ensures forall a :: a in r <==> a in log && a.user == Some(userId)
    ensures forall a :: multiset(r)[a] == if a.user == Some(userId) then multiset(log)[a] else 0
    decreases |log|
  {
    if log == [] then []
    else
      var last := log[|log| - 1];
      assert log == log[..|log| - 1] + [last];
      (if last.user == Some(userId) then [last] else []) + ForUser(log[..|log| - 1], userId)
  }

  /** For a log appended in timestamp order the user's listing is sorted
      newest first, as `.sort({ timestamp: -1 })` returns it. */
  lemma {:induction false} ForUserNewestFirst(log: seq<Record>, userId: string)
    requires TimeOrdered(log)
    ensures NewestFirst(ForUser(log, userId))
    decreases |log|
  {
    if log != [] {
      var init := log[..|log| - 1];
      LastIsLatest(log);
      ForUserNewestFirst(init, userId);
      if log[|log| - 1].user == Some(userId) {
        ConsNewest(log[|log| - 1], ForUser(init, userId), init);
      }
    }
  }

  datatype Page = Page(items: seq<Record>, total: nat, page: int, limit: int, totalPages: Option<int>)

  /** One page of a listing: `skip = (page - 1) * limit`; MongoDB rejects a
      negative skip (500). */
  function PageOf(xs: seq<Record>, page: int, limit: int): (r: Reply<Page>)
    ensures r.Err? <==> (page - 1) * limit < 0
    ensures r.Ok? ==> r.value.total == |xs| && r.value.page == page && r.value.totalPages == Paging.TotalPages(|xs|, limit)
    ensures r.Ok? && limit > 0 ==> |r.value.items| <= limit
  {
    var skip := (page - 1) * limit;
    if skip < 0 then Err(500)
    else Ok(Page(Paging.Window(xs, skip, limit), |xs|, page, limit, Paging.TotalPages(|xs|, limit)))
  }

  /** `GET /:taskId/activity`: `page` and `limit` fall back to 1 and 10
      when absent, unparsable or zero. */
  function TaskActivity(log: seq<Record>, taskId: string, page: Option<int>, limit: Option<int>): Reply<Page> {
    PageOf(ForTask(log, taskId), Paging.OrDefault(page, 1), Paging.OrDefault(limit, 10))
  }

  /** `getUserActivities`: `page` and `limit` default to 1 and 10 when not
      given. */
  function UserActivities(log: seq<Record>, userId: string, page: Option<int>, limit: Option<int>): Reply<Page> {
    PageOf(ForUser(log, userId), if page.Some? then page.value else 1, if limit.Some? then limit.value else 10)
  }

  /** With the defaults a listing is the ten newest activities of the task,
      on page 1 of `ceil(total / 10)`; and for positive page and limit the
      pages list the task's activities in order, each exactly once. */
  lemma TaskActivityPages(log: seq<Record>, taskId: string, p: nat, l: nat)
    requires p >= 1 && l >= 1
    ensures var r := TaskActivity(log, taskId, None, None);
      r.Ok? && r.value.page == 1 && r.value.items == Paging.Limit(ForTask(log, taskId), 10)
    ensures var r := TaskActivity(log, taskId, Some(p), Some(l));
      r.Ok? && r.value.items == Paging.Window(ForTask(log, taskId), Paging.Offset(p - 1, l), l)
    ensures Paging.Pages(ForTask(log, taskId), l, p) == ForTask(log, taskId)[..Paging.Clip(Paging.Offset(p, l), |ForTask(log, taskId)|)]
  {
    var xs := ForTask(log, taskId);
    assert Paging.Skip(xs, 0) == xs;
    assert TaskActivity(log, taskId, None, None) == PageOf(xs, 1, 10);
    var o := Paging.Offset(p - 1, l);
    assert (p - 1) * l == o;
    assert TaskActivity(log, taskId, Some(p), Some(l)) == PageOf(xs, p, l);
    Paging.PagesTile(xs, l, p);
  }

  /** The same for a user's activities, and a zero limit lists them all
      with a page count that is not a number. */
  lemma UserActivitiesPages(log: seq<Record>, userId: string, p: nat, l: nat)
    requires p >= 1 && l >= 1
    ensures var r := UserActivities(log, userId, Some(p), Some(l));
      r.Ok? && r.value.items == Paging.Window(ForUser(log, userId), Paging.Offset(p - 1, l), l)
    ensures var r := UserActivities(log, userId, Some(1), Some(0));
      r.Ok? && r.value.items == ForUser(log, userId) && r.value.totalPages.None?
    ensures Paging.Pages(ForUser(log, userId), l, p) == ForUser(log, userId)[..Paging.Clip(Paging.Offset(p, l), |ForUser(log, userId)|)]
  {
    var xs := ForUser(log, userId);
    assert Paging.Skip(xs, 0) == xs;
    var o := Paging.Offset(p - 1, l);
    assert (p - 1) * l == o;
    assert UserActivities(log, userId, Some(p), Some(l)) == PageOf(xs, p, l);
    Paging.PagesTile(xs, l, p);
  }

  predicate OfProject(a: Record, projectId: string) {
    "projectId" in a.metadata && a.metadata["projectId"] == projectId
  }

  /** The project's activities, newest first: the log read backwards, which is
      the `Timestamp` descending sort for a log appended in timestamp
      order. */
  function ForProject(log: seq<Record>, projectId: string): (r: seq<Record>)
    ensures |r| <= |log|
    ensures forall a :: a in r <==> a in log && OfProject(a, projectId)
    ensures forall a :: multiset(r)[a] == if OfProject(a, projectId) then multiset(log)[a] else 0
    decreases |log|
  {
    if log == [] then []
    else
      var last := log[|log| - 1];
      assert log == log[..|log| - 1] + [last];
      (if OfProject(last, projectId) then [last] else []) + ForProject(log[..|log| - 1], projectId)
  }

  /** For a log appended in timestamp order the project's listing is
      sorted newest first, as `.sort({ timestamp: -1 })` returns it. */
  lemma {:induction false} ForProjectNewestFirst(log: seq<Record>, projectId: string)
    requires TimeOrdered(log)
    ensures NewestFirst(ForProject(log, projectId))
    decreases |log|
  {
    if log != [] {
      var init := log[..|log| - 1];
      LastIsLatest(log);
      ForProjectNewestFirst(init, projectId);
      if OfProject(log[|log| - 1], projectId) {
        ConsNewest(log[|log| - 1], ForProject(init, projectId), init);
      }
    }
  }

  predicate AddsComment(a: Record, comments: map<string, string>) {
    a.typ == "comment_added" && "commentId" in a.metadata && a.metadata["commentId"] in comments
  }

  /** A `comment_added` activity whose comment still exists carries the
      comment's text under `metadata.comment`; `comments` maps comment ids
      to their content.  Nothing else about the activity changes. */
  function WithComment(a: Record, comments: map<string, string>): (r: Record)
    ensures r.typ == a.typ && r.status == a.status && r.user == a.user && r.timestamp == a.timestamp && r.details == a.details
    ensures forall k :: k in a.metadata && k != "comment" ==> k in r.metadata && r.metadata[k] == a.metadata[k]
    ensures AddsComment(a, comments) ==> "comment" in r.metadata && r.metadata["comment"] == comments[a.metadata["commentId"]]
    ensures !AddsComment(a, comments) ==> r == a
  {
    if AddsComment(a, comments)
    then a.(metadata := a.metadata["comment" := comments[a.metadata["commentId"]]])
    else a
  }

  /** `getProjectActivities`: every activity of the project, newest first,
      with the text of added comments attached. */
  function ProjectActivities(log: seq<Record>, projectId: string, comments: map<string, string>): (r: seq<Record>)
    ensures |r| == |ForProject(log, projectId)|
    ensures forall k :: 0 <= k < |r| ==> r[k] == WithComment(ForProject(log, projectId)[k], comments)
  {
    seq(|ForProject(log, projectId)|, k requires 0 <= k < |ForProject(log, projectId)| => WithComment(ForProject(log, projectId)[k], comments))
  }
}
