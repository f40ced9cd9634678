/** The subscription part of a user (models/User.js): whether the premium
    subscription is active, the days left, the free-plan limits, the usage
    counters, and premium activation and deactivation.  `new Date()` is the
    parameter `now` (milliseconds); a date field that may be null is an
    `Option<int>`. */
module UserModel {
  import opened Common

  datatype Plan = Monthly | Annual

  function PlanName(p: Plan): string {
    match p
    case Monthly => "monthly"
    case Annual => "annual"
  }

  /** `subscriptionStatus`. */
  datatype Tier = Free | Premium

  datatype Usage = Usage(projectsCreated: nat, userStoriesCreated: nat, tasksCreated: nat)

  datatype Account = Account(
    isPremiumMember: bool,
    tier: Tier,
    plan: Option<Plan>,
    startDate: Option<int>,
    endDate: Option<int>,
    usage: Usage)

  /** The schema defaults of a new user. */
  const NewAccount := Account(false, Free, None, None, None, Usage(0, 0, 0))

  /** The free-plan limits of `canCreate*`. */
  const FreeProjects: nat := 3
  const FreeUserStories: nat := 3
  const FreeTasks: nat := 20

  /** `isSubscriptionActive`: premium, with an end date that has not
      passed (the end instant itself still counts). */
  predicate IsSubscriptionActive(a: Account, now: int) {
    if !a.isPremiumMember then false
    else if a.endDate.None? then false
    else now <= a.endDate.value
  }

  /** `getDaysUntilExpiry`: whole days left, rounded up, never negative. */
  function DaysUntilExpiry(a: Account, now: int): (d: int)
    ensures d >= 0
    ensures a.endDate.None? || a.endDate.value <= now ==> d == 0
    ensures a.endDate.Some? && a.endDate.value > now ==>
      (d - 1) * DayMs < a.endDate.value - now <= d * DayMs
  {
    if a.endDate.None? then 0
    else Max(0, CeilDiv(a.endDate.value - now, DayMs))
  }

  /** Counting down: a day later there is at most one day fewer left, and
      never more. */
  lemma DaysUntilExpiryMonotone(a: Account, now: int)
    ensures DaysUntilExpiry(a, now + DayMs) <= DaysUntilExpiry(a, now)
    ensures DaysUntilExpiry(a, now) <= DaysUntilExpiry(a, now + DayMs) + 1
  {
  }

  /** `canCreateProject`. */
  predicate CanCreateProject(a: Account, now: int) {
    (a.isPremiumMember && IsSubscriptionActive(a, now)) || a.usage.projectsCreated < FreeProjects
  }

  /** `canCreateUserStory`. */
  predicate CanCreateUserStory(a: Account, now: int) {
    (a.isPremiumMember && IsSubscriptionActive(a, now)) || a.usage.userStoriesCreated < FreeUserStories
  }

  /** `canCreateTask`. */
  predicate CanCreateTask(a: Account, now: int) {
    (a.isPremiumMember && IsSubscriptionActive(a, now)) || a.usage.tasksCreated < FreeTasks
  }

  /** An active subscription lifts every limit; without one, each check is
      a bound on its own counter. */
  lemma CanCreateCases(a: Account, now: int)
    ensures IsSubscriptionActive(a, now) ==> CanCreateProject(a, now) && CanCreateUserStory(a, now) && CanCreateTask(a, now)
    ensures !IsSubscriptionActive(a, now) ==>
      (CanCreateProject(a, now) <==> a.usage.projectsCreated < 3) &&
      (CanCreateUserStory(a, now) <==> a.usage.userStoriesCreated < 3) &&
      (CanCreateTask(a, now) <==> a.usage.tasksCreated < 20)
  {
  }

  /** `incrementUsage(type)`: the named counter goes up by one; an unknown
      type changes nothing. */
  function IncrementUsage(a: Account, typ: string): (r: Account)
    ensures r.usage.projectsCreated == a.usage.projectsCreated + (if typ == "project" then 1 else 0)
    ensures r.usage.userStoriesCreated == a.usage.userStoriesCreated + (if typ == "userStory" then 1 else 0)
    ensures r.usage.tasksCreated == a.usage.tasksCreated + (if typ == "task" then 1 else 0)
    ensures r == a.(usage := r.usage)
  {
    var u := a.usage;
    if typ == "project" then a.(usage := u.(projectsCreated := u.projectsCreated + 1))
    else if typ == "userStory" then a.(usage := u.(userStoriesCreated := u.userStoriesCreated + 1))
    else if typ == "task" then a.(usage := u.(tasksCreated := u.tasksCreated + 1))
    else a
  }

  /** `activatePremium(plan, start, end)`. */
  function ActivatePremium(a: Account, plan: Plan, start: int, end: int): (r: Account)
    ensures r.isPremiumMember && r.tier == Premium && r.plan == Some(plan)
    ensures r.startDate == Some(start) && r.endDate == Some(end)
    ensures r.usage == a.usage
  {
    a.(isPremiumMember := true, tier := Premium, plan := Some(plan), startDate := Some(start), endDate := Some(end))
  }

  /** After activation the subscription is active exactly up to the end
      date, and nothing is limited until then. */
  lemma ActivatedIsActiveUntilEnd(a: Account, plan: Plan, start: int, end: int, now: int)
    ensures IsSubscriptionActive(ActivatePremium(a, plan, start, end), now) <==> now <= end
    ensures now <= end ==> CanCreateProject(ActivatePremium(a, plan, start, end), now)
  {
  }

  /** `deactivatePremium`. */
  function DeactivatePremium(a: Account): (r: Account)
    ensures !r.isPremiumMember && r.tier == Free && r.plan.None?
    ensures r.startDate.None? && r.endDate.None?
    ensures r.usage == a.usage
  {
    a.(isPremiumMember := false, tier := Free, plan := None, startDate := None, endDate := None)
  }

  /** A deactivated account is never active and has no days left, and
      deactivating twice is deactivating once. */
  lemma DeactivatedIsInactive(a: Account, now: int)
    ensures !IsSubscriptionActive(DeactivatePremium(a), now)
    ensures DaysUntilExpiry(DeactivatePremium(a), now) == 0
    ensures DeactivatePremium(DeactivatePremium(a)) == DeactivatePremium(a)
  {
  }
}

/** The usage part of an organization (models/Organization.js): counters
    that start at zero and that only `incrementUsage` changes. */
module OrganizationModel {
  import opened Common

  datatype Counters = Counters(projectsCreated: nat, tasksCreated: nat, userStoriesCreated: nat, teamsCreated: nat)

  datatype Organization = Organization(
    name: string,
    owner: string,
    organizationID: int,
    isActive: bool,
    createdDate: int,
    counters: Counters,
    isPremium: bool,
    plan: string,
    startDate: Option<int>,
    endDate: Option<int>)

  /** A new organization with the schema's defaults. */
  function NewOrganization(name: string, owner: string, id: int, now: int): (o: Organization)
    ensures o.counters == Counters(0, 0, 0, 0)
    ensures !o.isPremium && o.plan == "free" && o.isActive
    ensures o.name == name && o.owner == owner && o.organizationID == id
  {
    Organization(name, owner, id, true, now, Counters(0, 0, 0, 0), false, "free", None, None)
  }

  /** `incrementUsage(type)`: the counter of the named type goes up by one. */
  function IncrementUsage(o: Organization, typ: string): (r: Organization)
    ensures r.counters.projectsCreated == o.counters.projectsCreated + (if typ == "project" then 1 else 0)
    ensures r.counters.tasksCreated == o.counters.tasksCreated + (if typ == "task" then 1 else 0)
    ensures r.counters.userStoriesCreated == o.counters.userStoriesCreated + (if typ == "userStory" then 1 else 0)
    ensures r.counters.teamsCreated == o.counters.teamsCreated + (if typ == "team" then 1 else 0)
    ensures r == o.(counters := r.counters)
  {
    var c := o.counters;
    var c1 := if typ == "project" then c.(projectsCreated := c.projectsCreated + 1) else c;
    var c2 := if typ == "task" then c1.(tasksCreated := c1.tasksCreated + 1) else c1;
    var c3 := if typ == "userStory" then c2.(userStoriesCreated := c2.userStoriesCreated + 1) else c2;
    var c4 := if typ == "team" then c3.(teamsCreated := c3.teamsCreated + 1) else c3;
    o.(counters := c4)
  }

  /** Any type but the four leaves the organization as it is. */
  lemma UnknownTypeChangesNothing(o: Organization, typ: string)
    requires typ != "project" && typ != "task" && typ != "userStory" && typ != "team"
    ensures IncrementUsage(o, typ) == o
  {
  }

  /** `Counters` ordered field by field. */
  predicate AtMost(a: Counters, b: Counters) {
    a.projectsCreated <= b.projectsCreated && a.tasksCreated <= b.tasksCreated &&
    a.userStoriesCreated <= b.userStoriesCreated && a.teamsCreated <= b.teamsCreated
  }

  /** The organization after a series of `incrementUsage` calls. */
  function IncrementAll(o: Organization, types: seq<string>): Organization
    decreases |types|
  {
    if types == [] then o else IncrementAll(IncrementUsage(o, types[0]), types[1..])
  }

  function Occurrences(types: seq<string>, t: string): nat {
    if types == [] then 0 else (if types[0] == t then 1 else 0) + Occurrences(types[1..], t)
  }

  /** Counters never go down, and after any series of increments each
      counter has grown by exactly the number of calls that named it. */
  lemma {:induction false} IncrementAllCounts(o: Organization, types: seq<string>)
    ensures var r := IncrementAll(o, types);
      AtMost(o.counters, r.counters) &&
      r.counters.projectsCreated == o.counters.projectsCreated + Occurrences(types, "project") &&
      r.counters.tasksCreated == o.counters.tasksCreated + Occurrences(types, "task") &&
      r.counters.userStoriesCreated == o.counters.userStoriesCreated + Occurrences(types, "userStory") &&
      r.counters.teamsCreated == o.counters.teamsCreated + Occurrences(types, "team") &&
      r == o.(counters := r.counters)
    decreases |types|
  {
    if types != [] {
      IncrementAllCounts(IncrementUsage(o, types[0]), types[1..]);
    }
  }
}

/** The free-tier limit middleware (middleware/premiumLimits.js): each
    check's order of outcomes and the classification of what was created
    for `incrementUsage`. */
module PremiumLimits {
  import opened Common
  import UserModel
  import OrganizationModel

  datatype Kind = ProjectKind | UserStoryKind | TaskKind | TeamKind

  /** The limit of each check. */
  function Limit(k: Kind): nat {
    match k
    case ProjectKind => 3
    case UserStoryKind => 3
    case TaskKind => 20
    case TeamKind => 3
  }

  /** The `type` reported in the 403 body, which is also the counter name
      `incrementUsage` takes. */
  function KindName(k: Kind): string {
    match k
    case ProjectKind => "project"
    case UserStoryKind => "userStory"
    case TaskKind => "task"
    case TeamKind => "team"
  }

  /** The organization counter each check reads. */
  function Current(c: OrganizationModel.Counters, k: Kind): nat {
    match k
    case ProjectKind => c.projectsCreated
    case UserStoryKind => c.userStoriesCreated
    case TaskKind => c.tasksCreated
    case TeamKind => c.teamsCreated
  }

  /** A user as the middleware sees it: the subscription and the
      organization id (null when the user has none). */
  datatype Member = Member(account: UserModel.Account, organizationID: Option<string>)

  datatype Db = Db(users: map<string, Member>, orgs: map<string, OrganizationModel.Organization>)

  /** The middleware's answer: go on to the handler, or a status code with,
      for 403, the limit, the current counter and the type. */
  datatype Outcome = Next | Reject(status: nat) | LimitReached(limit: nat, current: nat, typ: string)

  /** `check*Limit`.  `userId` is the id the check reads from the body or
      the authenticated user (`ProjectOwner`, `taskDetail.CreatedBy`,
      `taskDetail.Assignee` or `OwnerID`, else `req.user._id`). */
  function CheckLimit(db: Db, k: Kind, userId: Option<string>, now: int): (r: Outcome)
    ensures userId.None? || userId == Some("") ==> r == Reject(400)
    ensures (userId.Some? && userId.value != "" && userId.value !in db.users) ==> r == Reject(404)
    ensures r.LimitReached? ==>
      userId.Some? && userId.value in db.users &&
      var u := db.users[userId.value];
      u.organizationID.Some? && u.organizationID.value in db.orgs &&
      r.limit == Limit(k) && r.typ == KindName(k) && !UserModel.IsSubscriptionActive(u.account, now) &&
      r.current == Current(db.orgs[u.organizationID.value].counters, k) >= Limit(k)
    ensures r == Next ==>
      userId.Some? && userId.value in db.users &&
      var u := db.users[userId.value];
      u.organizationID.Some? && u.organizationID.value in db.orgs &&
      (UserModel.IsSubscriptionActive(u.account, now) ||
       Current(db.orgs[u.organizationID.value].counters, k) < Limit(k))
  {
    if userId.None? || userId == Some("") then Reject(400)
    else if userId.value !in db.users then Reject(404)
    else
      var u := db.users[userId.value];
      if u.organizationID.None? || u.organizationID.value !in db.orgs then Reject(404)
      else
        var counters := db.orgs[u.organizationID.value].counters;
        if u.account.isPremiumMember && UserModel.IsSubscriptionActive(u.account, now) then Next
        else if Current(counters, k) >= Limit(k) then LimitReached(Limit(k), Current(counters, k), KindName(k))
        else Next
  }

  /** Once the user and the organization are found, an active subscription
      always passes and otherwise the counter alone decides. */
  lemma CheckLimitDecision(db: Db, k: Kind, userId: string, now: int)
    requires userId != "" && userId in db.users
    requires var u := db.users[userId]; u.organizationID.Some? && u.organizationID.value in db.orgs
    ensures var u := db.users[userId];
      var current := Current(db.orgs[u.organizationID.value].counters, k);
      CheckLimit(db, k, Some(userId), now) ==
        if UserModel.IsSubscriptionActive(u.account, now) || current < Limit(k) then Next
        else LimitReached(Limit(k), current, KindName(k))
  {
  }

  /** The body fields `incrementUsage` reads. */
  datatype Body = Body(
    name: Option<string>,
    projectOwner: Option<string>,
    taskType: Option<string>,
    createdBy: Option<string>,
    teamName: Option<string>,
    ownerID: Option<string>)

  /** What was created, first match wins: a project (a name and a project
      owner), a user story, any other task type, a team. */
  function Classify(b: Body): (k: Option<Kind>)
    ensures k == Some(ProjectKind) <==> Truthy(b.name) && Truthy(b.projectOwner)
    ensures k == Some(UserStoryKind) <==> !(Truthy(b.name) && Truthy(b.projectOwner)) && b.taskType == Some("User Story")
    ensures k == Some(TeamKind) ==> !Truthy(b.taskType) && Truthy(b.teamName) && Truthy(b.ownerID)
    ensures k.None? <==> !(Truthy(b.name) && Truthy(b.projectOwner)) && !Truthy(b.taskType) &&
                         !(Truthy(b.teamName) && Truthy(b.ownerID))
  {
    if Truthy(b.name) && Truthy(b.projectOwner) then Some(ProjectKind)
    else if b.taskType == Some("User Story") then Some(UserStoryKind)
    else if Truthy(b.taskType) then Some(TaskKind)
    else if Truthy(b.teamName) && Truthy(b.ownerID) then Some(TeamKind)
    else None
  }

  /** The first truthy of the given ids. */
  function FirstTruthy(ids: seq<Option<string>>): (r: Option<string>)
    ensures r.Some? ==> r.value != "" && r in ids
    ensures r.None? ==> forall i :: 0 <= i < |ids| ==> !Truthy(ids[i])
  {
    if ids == [] then None
    else if Truthy(ids[0]) then ids[0]
    else FirstTruthy(ids[1..])
  }

  /** `incrementUsage`: never blocks; when the user and the organization
      are found and the body names something it knows, that one counter of
      the organization goes up. */
  function IncrementUsage(db: Db, b: Body, authUser: Option<string>): (r: Db)
    ensures r.users == db.users && r.orgs.Keys == db.orgs.Keys
  {
    var uid := FirstTruthy([b.projectOwner, b.createdBy, b.ownerID, authUser]);
    if uid.None? || uid.value !in db.users then db
    else
      var u := db.users[uid.value];
      if u.organizationID.None? || u.organizationID.value !in db.orgs then db
      else
        match Classify(b)
        case None => db
        case Some(k) =>
          var o := db.orgs[u.organizationID.value];
          db.(orgs := db.orgs[u.organizationID.value := OrganizationModel.IncrementUsage(o, KindName(k))])
  }

  /** A team body (a team name and an owner, nothing else) raises the team
      counter of the owner's organization by one. */
  lemma TeamBodyCounted(db: Db, teamName: Option<string>, owner: string, authUser: Option<string>)
    requires Truthy(teamName) && owner != "" && owner in db.users
    requires var u := db.users[owner]; u.organizationID.Some? && u.organizationID.value in db.orgs
    ensures var org := db.users[owner].organizationID.value;
      IncrementUsage(db, Body(None, None, None, None, teamName, Some(owner)), authUser).orgs[org].counters.teamsCreated ==
        db.orgs[org].counters.teamsCreated + 1
  {
    var b := Body(None, None, None, None, teamName, Some(owner));
    var ids := [b.projectOwner, b.createdBy, b.ownerID, authUser];
    assert ids[1..][1..] == [Some(owner), authUser];
    assert FirstTruthy(ids[1..][1..]) == Some(owner);
    assert FirstTruthy(ids[1..]) == Some(owner);
    assert Classify(b) == Some(TeamKind);
  }

  /** At most one counter of one organization goes up, by one, and only
      for a classified body; every other organization is untouched. */
  lemma IncrementUsageEffect(db: Db, b: Body, authUser: Option<string>)
    ensures var r := IncrementUsage(db, b, authUser);
      forall id :: id in db.orgs ==>
        var before := db.orgs[id].counters;
        var after := r.orgs[id].counters;
        OrganizationModel.AtMost(before, after) &&
        r.orgs[id] == db.orgs[id].(counters := after) &&
        (Classify(b).None? ==> after == before) &&
        (Classify(b).Some? ==>
           forall k :: Current(after, k) == Current(before, k) ||
                       (k == Classify(b).value && Current(after, k) == Current(before, k) + 1))
  {
  }
}
