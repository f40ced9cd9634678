/** The user handlers outside authentication: the profile update of
    controllers/userController.js and the usage report and organization
    removal of routes/userRoutes.js. */
module Users {
  import opened Common
  import Gateway
  import UserModel
  import OrganizationModel
  import PremiumLimits
  import Workspace

  /** A user document as the profile handlers see it. */
  datatype Profile = Profile(
    id: string,
    email: string,
    role: string,
    status: string,
    organizationID: Option<string>,
    firstName: string,
    lastName: string,
    phone: string,
    phoneExtension: string,
    address: string,
    city: string,
    state: string,
    zipCode: string,
    country: string)

  /** The required name fields are non-empty. */
  predicate ValidProfile(p: Profile) {
    p.email != "" && p.firstName != "" && p.lastName != ""
  }

  function ProfileIndex(ps: seq<Profile>, id: string): (r: Option<nat>)
    ensures r.Some? ==> r.value < |ps| && ps[r.value].id == id
    ensures r.None? <==> forall j :: 0 <= j < |ps| ==> ps[j].id != id
  {
    FirstWhere(ps, (p: Profile) => p.id == id)
  }

  // ---------------------------------------------------------------------
  // PUT /profile
  // ---------------------------------------------------------------------

  /** The fields the request body may carry. */
  datatype Edit = Edit(
    firstName: Option<string>,
    lastName: Option<string>,
    phone: Option<string>,
    phoneExtension: Option<string>,
    address: Option<string>,
    city: Option<string>,
    state: Option<string>,
    zipCode: Option<string>,
    country: Option<string>)

  /** `update || current`. */
  function Fallback(update: Option<string>, current: string): (r: string)
    ensures Truthy(update) ==> r == update.value
    ensures !Truthy(update) ==> r == current
  {
    if Truthy(update) then update.value else current
  }

  function Edited(p: Profile, e: Edit): Profile {
    p.(firstName := Fallback(e.firstName, p.firstName), lastName := Fallback(e.lastName, p.lastName),
       phone := Fallback(e.phone, p.phone), phoneExtension := Fallback(e.phoneExtension, p.phoneExtension),
       address := Fallback(e.address, p.address), city := Fallback(e.city, p.city),
       state := Fallback(e.state, p.state), zipCode := Fallback(e.zipCode, p.zipCode),
       country := Fallback(e.country, p.country))
  }

  datatype Directory = Directory(profiles: seq<Profile>, members: seq<Workspace.Membership>, io: Gateway.Server)

  datatype Response = Response(store: Directory, status: nat)

  /** `updateUser`: each field takes the new value only when it is truthy;
      e-mail, role, status and organization never change.  A user with an
      organization is announced to it. */
  function UpdateUser(st: Directory, userId: string, e: Edit): (r: Response)
    ensures r.status in {200, 404, 500}
    ensures r.status == 404 <==> ProfileIndex(st.profiles, userId).None?
    ensures r.status != 200 ==> r.store == st
    ensures r.status == 200 ==> |r.store.profiles| == |st.profiles| && r.store.members == st.members
    ensures r.status == 200 ==> var i := ProfileIndex(st.profiles, userId).value;
      (forall j :: 0 <= j < |st.profiles| && j != i ==> r.store.profiles[j] == st.profiles[j])
    ensures r.status == 200 ==> var i := ProfileIndex(st.profiles, userId).value;
      var p := st.profiles[i];
      var q := r.store.profiles[i];
      ValidProfile(q) &&
      q.id == p.id && q.email == p.email && q.role == p.role && q.status == p.status &&
      q.organizationID == p.organizationID &&
      q.firstName == Fallback(e.firstName, p.firstName) && q.lastName == Fallback(e.lastName, p.lastName) &&
      q.phone == Fallback(e.phone, p.phone) && q.phoneExtension == Fallback(e.phoneExtension, p.phoneExtension) &&
      q.address == Fallback(e.address, p.address) && q.city == Fallback(e.city, p.city) &&
      q.state == Fallback(e.state, p.state) && q.zipCode == Fallback(e.zipCode, p.zipCode) &&
      q.country == Fallback(e.country, p.country) &&
      (Truthy(p.organizationID) ==>
         r.store.io == Gateway.EmitToOrg(st.io, p.organizationID.value, "org.member.updated", Gateway.NoData)) &&
      (!Truthy(p.organizationID) ==> r.store.io == st.io)
  {
    match ProfileIndex(st.profiles, userId)
    case None => Response(st, 404)
    case Some(i) =>
      var q := Edited(st.profiles[i], e);
      if !ValidProfile(q) then Response(st, 500)
      else
        var p := st.profiles[i];
        var io := if Truthy(p.organizationID) then
                    Gateway.EmitToOrg(st.io, p.organizationID.value, "org.member.updated", Gateway.NoData)
                  else st.io;
        Response(st.(profiles := st.profiles[i := q], io := io), 200)
  }

  /** A valid profile stays valid, so the update of a known valid user
      always succeeds. */
  lemma UpdateUserKeepsValid(st: Directory, userId: string, e: Edit)
    requires ProfileIndex(st.profiles, userId).Some?
    requires ValidProfile(st.profiles[ProfileIndex(st.profiles, userId).value])
    ensures UpdateUser(st, userId, e).status == 200
  {
  }

  /** Sending the same edit twice changes nothing the second time. */
  lemma UpdateUserIdempotent(st: Directory, userId: string, e: Edit)
    requires UpdateUser(st, userId, e).status == 200
    ensures var r := UpdateUser(st, userId, e);
      UpdateUser(r.store, userId, e).store.profiles == r.store.profiles
  {
    var i := ProfileIndex(st.profiles, userId).value;
    var r := UpdateUser(st, userId, e);
    assert forall j :: 0 <= j < i ==> r.store.profiles[j].id == st.profiles[j].id != userId;
    assert ProfileIndex(r.store.profiles, userId) == Some(i);
    assert Edited(r.store.profiles[i], e) == r.store.profiles[i];
  }

  // ---------------------------------------------------------------------
  // GET /:userId/usage-limits
  // ---------------------------------------------------------------------

  datatype Limits = Limits(projects: nat, userStories: nat, tasks: nat)
  datatype Flags = Flags(project: bool, userStory: bool, task: bool)

  datatype Report = Report(
    isPremium: bool,
    tier: UserModel.Tier,
    plan: Option<UserModel.Plan>,
    endDate: Option<int>,
    usage: UserModel.Usage,
    limits: Limits,
    canCreate: Flags)

  /** The reported limits. */
  const ReportedLimits: Limits := Limits(3, 3, 20)

  /** The report as written: the user's own counters and the user model's
      `canCreate*` checks. */
  function UsageReport(db: PremiumLimits.Db, userId: string, now: int): (r: Reply<Report>)
    ensures r.Err? <==> userId !in db.users
    ensures r.Err? ==> r.code == 404
    ensures r.Ok? ==> var a := db.users[userId].account;
      r.value.isPremium == (a.isPremiumMember && UserModel.IsSubscriptionActive(a, now)) &&
      r.value.limits == ReportedLimits && r.value.usage == a.usage &&
      (r.value.canCreate.project <==> r.value.isPremium || a.usage.projectsCreated < ReportedLimits.projects) &&
      (r.value.canCreate.userStory <==> r.value.isPremium || a.usage.userStoriesCreated < ReportedLimits.userStories) &&
      (r.value.canCreate.task <==> r.value.isPremium || a.usage.tasksCreated < ReportedLimits.tasks)
  {
    if userId !in db.users then Err(404)
    else
      var a := db.users[userId].account;
      Ok(Report(a.isPremiumMember && UserModel.IsSubscriptionActive(a, now), a.tier, a.plan, a.endDate, a.usage,
                ReportedLimits,
                Flags(UserModel.CanCreateProject(a, now), UserModel.CanCreateUserStory(a, now),
                      UserModel.CanCreateTask(a, now))))
  }

  /** The counters the limit middleware reads. */
  function OrgUsage(c: OrganizationModel.Counters): UserModel.Usage {
    UserModel.Usage(c.projectsCreated, c.userStoriesCreated, c.tasksCreated)
  }

  /** The report the middleware's decisions call for: the organization's
      counters, and `canCreate` exactly when the limit check would let the
      request through. */
  function UsageReportIntended(db: PremiumLimits.Db, userId: string, now: int): (r: Reply<Report>)
    ensures r.Err? <==> userId !in db.users
    ensures r.Ok? ==> var u := db.users[userId];
      u.organizationID.Some? && u.organizationID.value in db.orgs && userId != "" ==>
        r.value.usage == OrgUsage(db.orgs[u.organizationID.value].counters) &&
        (r.value.canCreate.project <==> r.value.isPremium || r.value.usage.projectsCreated < r.value.limits.projects) &&
        (r.value.canCreate.userStory <==> r.value.isPremium || r.value.usage.userStoriesCreated < r.value.limits.userStories) &&
        (r.value.canCreate.task <==> r.value.isPremium || r.value.usage.tasksCreated < r.value.limits.tasks)
  {
    if userId !in db.users then Err(404)
    else
      var u := db.users[userId];
      var a := u.account;
      var usage := if u.organizationID.Some? && u.organizationID.value in db.orgs
                   then OrgUsage(db.orgs[u.organizationID.value].counters) else a.usage;
      Ok(Report(a.isPremiumMember && UserModel.IsSubscriptionActive(a, now), a.tier, a.plan, a.endDate, usage,
                ReportedLimits,
                Flags(PremiumLimits.CheckLimit(db, PremiumLimits.ProjectKind, Some(userId), now) == PremiumLimits.Next,
                      PremiumLimits.CheckLimit(db, PremiumLimits.UserStoryKind, Some(userId), now) == PremiumLimits.Next,
                      PremiumLimits.CheckLimit(db, PremiumLimits.TaskKind, Some(userId), now) == PremiumLimits.Next)))
  }

  /** The written report reads counters the middleware never advances:
      counting a creation leaves the report as it was, and a user of an
      organization at its project limit is told a project can be created
      while the middleware refuses it. */
  lemma ReportIgnoresOrganizationCounters(db: PremiumLimits.Db, b: PremiumLimits.Body, authUser: Option<string>,
                                          userId: string, now: int)
    ensures UsageReport(PremiumLimits.IncrementUsage(db, b, authUser), userId, now) == UsageReport(db, userId, now)
    ensures var full := OrganizationModel.Counters(3, 0, 0, 0);
      var o := OrganizationModel.Organization("Acme", "u1", 100001, true, 0, full, false, "free", None, None);
      var d := PremiumLimits.Db(map["u1" := PremiumLimits.Member(UserModel.NewAccount, Some("100001"))], map["100001" := o]);
      UsageReport(d, "u1", now).value.canCreate.project &&
      PremiumLimits.CheckLimit(d, PremiumLimits.ProjectKind, Some("u1"), now).LimitReached? &&
      !UsageReportIntended(d, "u1", now).value.canCreate.project
  {
  }

  /** The intended report's flags are the middleware's decisions. */
  lemma IntendedReportAgreesWithLimits(db: PremiumLimits.Db, userId: string, now: int)
    requires userId != "" && userId in db.users
    requires var u := db.users[userId]; u.organizationID.Some? && u.organizationID.value in db.orgs
    ensures var r := UsageReportIntended(db, userId, now).value;
      (r.canCreate.project <==> PremiumLimits.CheckLimit(db, PremiumLimits.ProjectKind, Some(userId), now) == PremiumLimits.Next) &&
      (r.canCreate.userStory <==> PremiumLimits.CheckLimit(db, PremiumLimits.UserStoryKind, Some(userId), now) == PremiumLimits.Next) &&
      (r.canCreate.task <==> PremiumLimits.CheckLimit(db, PremiumLimits.TaskKind, Some(userId), now) == PremiumLimits.Next)
  {
  }

  // ---------------------------------------------------------------------
  // PATCH /:userId/remove-from-org
  // ---------------------------------------------------------------------

  datatype Removal = Removal(store: Directory, status: nat, removedFromTeams: nat)

  predicate MemberOf(m: Workspace.Membership, userId: string) {
    m.memberId == userId
  }

  /** `remove-from-org`: an unknown user gives 404; otherwise every team
      membership of the user is deleted, the user's organization becomes
      null, and `org.member.removed` goes to the former organization's room
      (`org:null` when there was none).  The answer counts the memberships
      found. */
  function RemoveFromOrg(st: Directory, userId: string): (r: Removal)
    ensures r.status in {200, 404}
    ensures r.status == 404 <==> ProfileIndex(st.profiles, userId).None?
    ensures r.status == 404 ==> r.store == st
    ensures r.status == 200 ==> var i := ProfileIndex(st.profiles, userId).value;
      r.store.profiles == st.profiles[i := st.profiles[i].(organizationID := None)] &&
      (forall m :: m in r.store.members <==> m in st.members && !MemberOf(m, userId)) &&
      r.removedFromTeams == |st.members| - |r.store.members| &&
      r.store.io == Gateway.EmitTo(st.io, Gateway.OrgRoom(Gateway.OrgText(st.profiles[i].organizationID)),
                                   "org.member.removed", Gateway.NoData)
  {
    match ProfileIndex(st.profiles, userId)
    case None => Removal(st, 404, 0)
    case Some(i) =>
      var p := st.profiles[i];
      var kept := Filter(st.members, (m: Workspace.Membership) => !MemberOf(m, userId));
      CountSplit(st.members, (m: Workspace.Membership) => MemberOf(m, userId),
                 (m: Workspace.Membership) => !MemberOf(m, userId));
      var io := Gateway.EmitTo(st.io, Gateway.OrgRoom(Gateway.OrgText(p.organizationID)), "org.member.removed", Gateway.NoData);
      Removal(Directory(st.profiles[i := p.(organizationID := None)], kept, io), 200,
              CountWhere(st.members, (m: Workspace.Membership) => MemberOf(m, userId)))
  }

  /** After a removal the user belongs to no team, so removing again finds
      nothing to remove. */
  lemma RemoveFromOrgTwice(st: Directory, userId: string)
    requires ProfileIndex(st.profiles, userId).Some?
    ensures var r := RemoveFromOrg(st, userId);
      (forall j :: 0 <= j < |r.store.members| ==> !MemberOf(r.store.members[j], userId)) &&
      RemoveFromOrg(r.store, userId).removedFromTeams == 0
  {
    var r := RemoveFromOrg(st, userId);
    assert forall j :: 0 <= j < |r.store.members| ==> r.store.members[j] in r.store.members;
    var i := ProfileIndex(st.profiles, userId).value;
    assert r.store.profiles[i].id == userId;
  }
}
