/** The team routes (routes/teamDetailsRoutes.js, routes/teamRoutes.js):
    owner-only changes to a team and its members, the bulk removals, the
    members' last logins, team creation, listing and join requests. */
module Teams {
  import opened Common
  import Activity
  import Gateway
  import PremiumLimits
  import opened Workspace

  // ---------------------------------------------------------------------
  // Owner check
  // ---------------------------------------------------------------------

  /** `checkOwner`: the index of the team when the body's `OwnerID` is its
      owner; 404 for an unknown team, 403 for anyone else. */
  function CheckOwner(ts: seq<Team>, teamId: string, ownerId: Option<string>): (r: Reply<nat>)
    ensures r == Err(404) <==> TeamIndex(ts, teamId).None?
    ensures r.Ok? <==> TeamIndex(ts, teamId).Some? && ownerId == Some(ts[TeamIndex(ts, teamId).value].ownerId)
    ensures r.Ok? ==> r.value == TeamIndex(ts, teamId).value
    ensures r.Err? ==> r.code == 404 || r.code == 403
  {
    match TeamIndex(ts, teamId)
    case None => Err(404)
    case Some(i) => if ownerId != Some(ts[i].ownerId) then Err(403) else Ok(i)
  }

  // ---------------------------------------------------------------------
  // Members
  // ---------------------------------------------------------------------

  /** The user `add-member` adds: `UserID`, else the user with that e-mail. */
  function ResolveMember(people: seq<Person>, userId: Option<string>, email: Option<string>): (r: Reply<string>)
    ensures r == Err(400) <==> !Truthy(userId) && !Truthy(email)
    ensures Truthy(userId) ==> r == Ok(userId.value)
    ensures r == Err(404) <==> !Truthy(userId) && Truthy(email) && PersonByEmail(people, email.value).None?
    ensures r.Ok? && !Truthy(userId) ==> r == Ok(PersonByEmail(people, email.value).value)
  {
    if Truthy(userId) then Ok(userId.value)
    else if !Truthy(email) then Err(400)
    else match PersonByEmail(people, email.value)
      case None => Err(404)
      case Some(id) => Ok(id)
  }

  /** `POST /:teamId/add-member`: an active membership for a user who is
      not yet in the team. */
  function AddMember(st: Store, teamId: string, ownerId: Option<string>, userId: Option<string>,
                     email: Option<string>, now: int): (r: Response)
    ensures r.status == 201 || r.store == st
    ensures r.status == 201 <==>
      CheckOwner(st.teams, teamId, ownerId).Ok? && ResolveMember(st.people, userId, email).Ok? &&
      ResolveMember(st.people, userId, email).value != "" && teamId != "" &&
      MemberIndex(st.members, teamId, ResolveMember(st.people, userId, email).value).None?
    ensures r.status == 201 ==>
      |r.store.members| == |st.members| + 1 &&
      var m := r.store.members[|st.members|];
      r.store.members == st.members + [m] && m.teamId == teamId && m.isMemberActive &&
      m.memberId == ResolveMember(st.people, userId, email).value && m.modifiedBy == ownerId &&
      r.store == st.(members := r.store.members, io := r.store.io) &&
      Gateway.Sent(st.io, r.store.io, Gateway.Announcement(st.teams[CheckOwner(st.teams, teamId, ownerId).value].organizationID, "team.member.added"))
    ensures r.status == 400 <==>
      CheckOwner(st.teams, teamId, ownerId).Ok? &&
      (ResolveMember(st.people, userId, email) == Err(400) ||
       (ResolveMember(st.people, userId, email).Ok? &&
        MemberIndex(st.members, teamId, ResolveMember(st.people, userId, email).value).Some?))
  {
    match CheckOwner(st.teams, teamId, ownerId)
    case Err(c) => Response(st, c)
    case Ok(i) =>
      match ResolveMember(st.people, userId, email)
      case Err(c) => Response(st, c)
      case Ok(uid) =>
        if MemberIndex(st.members, teamId, uid).Some? then Response(st, 400)
        else
          var m := Membership(teamId, uid, true, now, None, ownerId);
          if !ValidMembership(m) then Response(st, 500)
          else
            var io := Gateway.AnnounceToOrg(st.io, st.teams[i].organizationID, "team.member.added");
            Response(st.(members := st.members + [m], io := io), 201)
  }

  /** Adding a member never creates a second membership of the same user
      in the same team. */
  lemma AddMemberKeepsUnique(st: Store, teamId: string, ownerId: Option<string>, userId: Option<string>,
                             email: Option<string>, now: int)
    requires UniqueMemberships(st.members)
    ensures UniqueMemberships(AddMember(st, teamId, ownerId, userId, email, now).store.members)
  {
    var r := AddMember(st, teamId, ownerId, userId, email, now);
    if r.status == 201 {
      var ms := r.store.members;
      forall i, j | 0 <= i < j < |ms|
        ensures !(ms[i].teamId == ms[j].teamId && ms[i].memberId == ms[j].memberId)
      {
        if j == |st.members| {
          assert ms[i] == st.members[i];
        } else {
          assert ms[i] == st.members[i] && ms[j] == st.members[j];
        }
      }
    }
  }

  /** The membership after a toggle: the flag flipped, the owner as editor. */
  function Flipped(m: Membership, ownerId: Option<string>, now: int): Membership {
    m.(isMemberActive := !m.isMemberActive, modifiedDate := Some(now), modifiedBy := ownerId)
  }

  /** `PATCH /:teamId/member/:memberId/toggle`: flips the active flag of
      that one membership. */
  function ToggleMember(st: Store, teamId: string, ownerId: Option<string>, memberId: string, now: int): (r: Response)
    ensures r.status == 200 || r.store == st
    ensures r.status == 200 <==> CheckOwner(st.teams, teamId, ownerId).Ok? && MemberIndex(st.members, teamId, memberId).Some?
    ensures r.status == 200 ==>
      var j := MemberIndex(st.members, teamId, memberId).value;
      |r.store.members| == |st.members| &&
      r.store.members[j].isMemberActive == !st.members[j].isMemberActive &&
      r.store.members[j].teamId == teamId && r.store.members[j].memberId == memberId &&
      r.store.members[j].modifiedBy == ownerId &&
      (forall k :: 0 <= k < |st.members| && k != j ==> r.store.members[k] == st.members[k]) &&
      r.store == st.(members := r.store.members, io := r.store.io) &&
      Gateway.Sent(st.io, r.store.io, [Gateway.Notice(Gateway.OrgRoom(st.teams[CheckOwner(st.teams, teamId, ownerId).value].organizationID), "team.member.status.updated")])
  {
    match CheckOwner(st.teams, teamId, ownerId)
    case Err(c) => Response(st, c)
    case Ok(i) =>
      match MemberIndex(st.members, teamId, memberId)
      case None => Response(st, 404)
      case Some(j) =>
        var io := Gateway.EmitToOrg(st.io, st.teams[i].organizationID, "team.member.status.updated", Gateway.NoData);
        Response(st.(members := st.members[j := Flipped(st.members[j], ownerId, now)], io := io), 200)
  }

  /** Toggling a membership twice restores its active flag; only the
      editor and the modification date remain changed. */
  lemma ToggleMemberTwice(st: Store, teamId: string, ownerId: Option<string>, memberId: string, now: int, later: int)
    requires ToggleMember(st, teamId, ownerId, memberId, now).status == 200
    ensures var r1 := ToggleMember(st, teamId, ownerId, memberId, now);
      var r2 := ToggleMember(r1.store, teamId, ownerId, memberId, later);
      var j := MemberIndex(st.members, teamId, memberId).value;
      r2.status == 200 &&
      r2.store.members == st.members[j := st.members[j].(modifiedDate := Some(later), modifiedBy := ownerId)]
  {
    var r1 := ToggleMember(st, teamId, ownerId, memberId, now);
    var j := MemberIndex(st.members, teamId, memberId).value;
    assert r1.store.teams == st.teams;
    assert MemberIndex(r1.store.members, teamId, memberId) == Some(j);
  }

  /** `DELETE /:teamId/member/:memberId`: removes that membership, unless
      it is the owner's. */
  function RemoveMember(st: Store, teamId: string, ownerId: Option<string>, memberId: string): (r: Response)
    ensures r.status == 200 || r.store == st
    ensures r.status == 200 <==>
      CheckOwner(st.teams, teamId, ownerId).Ok? && MemberIndex(st.members, teamId, memberId).Some? &&
      memberId != st.teams[CheckOwner(st.teams, teamId, ownerId).value].ownerId
    ensures r.status == 400 <==>
      CheckOwner(st.teams, teamId, ownerId).Ok? && MemberIndex(st.members, teamId, memberId).Some? &&
      memberId == st.teams[CheckOwner(st.teams, teamId, ownerId).value].ownerId
    ensures r.status == 200 ==>
      var j := MemberIndex(st.members, teamId, memberId).value;
      r.store.members == st.members[..j] + st.members[j + 1..] &&
      r.store == st.(members := r.store.members, io := r.store.io) &&
      Gateway.Sent(st.io, r.store.io, Gateway.Announcement(st.teams[CheckOwner(st.teams, teamId, ownerId).value].organizationID, "team.member.removed"))
  {
    match CheckOwner(st.teams, teamId, ownerId)
    case Err(c) => Response(st, c)
    case Ok(i) =>
      match MemberIndex(st.members, teamId, memberId)
      case None => Response(st, 404)
      case Some(j) =>
        if memberId == st.teams[i].ownerId then Response(st, 400)
        else
          var io := Gateway.AnnounceToOrg(st.io, st.teams[i].organizationID, "team.member.removed");
          Response(st.(members := st.members[..j] + st.members[j + 1..], io := io), 200)
  }

  /** The owner of the team stays a member whatever is removed. */
  lemma RemoveMemberKeepsOwner(st: Store, teamId: string, ownerId: Option<string>, memberId: string)
    requires TeamIndex(st.teams, teamId).Some?
    requires OwnerIsMember(st.members, st.teams[TeamIndex(st.teams, teamId).value])
    ensures OwnerIsMember(RemoveMember(st, teamId, ownerId, memberId).store.members,
                          st.teams[TeamIndex(st.teams, teamId).value])
  {
    var r := RemoveMember(st, teamId, ownerId, memberId);
    var t := st.teams[TeamIndex(st.teams, teamId).value];
    if r.status == 200 {
      var j := MemberIndex(st.members, teamId, memberId).value;
      var w :| 0 <= w < |st.members| && st.members[w].teamId == t.teamId && st.members[w].memberId == t.ownerId;
      assert w != j;
      if w < j {
        assert r.store.members[w] == st.members[w];
      } else {
        assert r.store.members[w - 1] == st.members[w];
      }
    }
  }

  /** `DELETE /:teamId/members/remove-members`: a non-empty list that
      does not name the owner removes each listed user's membership. */
  function RemoveMembers(st: Store, teamId: string, ownerId: Option<string>, memberIds: Option<seq<string>>, now: int): (r: Response)
    ensures r.status == 200 || r.store == st
    ensures r.status == 200 <==>
      CheckOwner(st.teams, teamId, ownerId).Ok? && memberIds.Some? && memberIds.value != [] &&
      st.teams[CheckOwner(st.teams, teamId, ownerId).value].ownerId !in memberIds.value
    ensures r.status == 400 <==>
      CheckOwner(st.teams, teamId, ownerId).Ok? &&
      (memberIds.None? || memberIds.value == [] ||
       st.teams[CheckOwner(st.teams, teamId, ownerId).value].ownerId in memberIds.value)
    ensures r.status == 200 ==>
      (forall m :: m in r.store.members <==>
         m in st.members && !(m.teamId == teamId && m.memberId in memberIds.value)) &&
      r.store.teams == st.teams && r.store.projects == st.projects && r.store.assignments == st.assignments &&
      Gateway.Sent(st.io, r.store.io, Gateway.Announcement(st.teams[CheckOwner(st.teams, teamId, ownerId).value].organizationID, "team.members.bulk_removed"))
  {
    match CheckOwner(st.teams, teamId, ownerId)
    case Err(c) => Response(st, c)
    case Ok(i) =>
      if memberIds.None? || memberIds.value == [] || st.teams[i].ownerId in memberIds.value then Response(st, 400)
      else
        var ids := memberIds.value;
        var kept := Filter(st.members, (m: Membership) => !(m.teamId == teamId && m.memberId in ids));
        var removed := |st.members| - |kept|;
        var log := Log(st.log, ownerId, "team_members_remove", "success", "Removed members from team",
                       map["teamId" := teamId, "removedCount" := NatToString(removed)], now);
        var io := Gateway.AnnounceToOrg(st.io, st.teams[i].organizationID, "team.members.bulk_removed");
        Response(st.(members := kept, log := log, io := io), 200)
  }

  /** The owner of the team survives a bulk removal. */
  lemma RemoveMembersKeepsOwner(st: Store, teamId: string, ownerId: Option<string>, memberIds: Option<seq<string>>, now: int)
    requires TeamIndex(st.teams, teamId).Some?
    requires OwnerIsMember(st.members, st.teams[TeamIndex(st.teams, teamId).value])
    ensures OwnerIsMember(RemoveMembers(st, teamId, ownerId, memberIds, now).store.members,
                          st.teams[TeamIndex(st.teams, teamId).value])
  {
    var r := RemoveMembers(st, teamId, ownerId, memberIds, now);
    var i := TeamIndex(st.teams, teamId).value;
    if r.status == 200 {
      assert CheckOwner(st.teams, teamId, ownerId).value == i;
      KeptOwner(st.members, r.store.members, st.teams[i], teamId, memberIds.value);
    }
  }

  /** Dropping the memberships of other users keeps the owner's. */
  lemma KeptOwner(ms: seq<Membership>, kept: seq<Membership>, t: Team, teamId: string, ids: seq<string>)
    requires forall m :: m in kept <==> m in ms && !(m.teamId == teamId && m.memberId in ids)
    requires t.ownerId !in ids
    requires OwnerIsMember(ms, t)
    ensures OwnerIsMember(kept, t)
  {
    var w :| 0 <= w < |ms| && ms[w].teamId == t.teamId && ms[w].memberId == t.ownerId;
    assert ms[w] in kept;
    var v :| 0 <= v < |kept| && kept[v] == ms[w];
  }

  // ---------------------------------------------------------------------
  // The team itself
  // ---------------------------------------------------------------------

  /** The team after `PATCH /:teamId`: a new name; the description and the
      type only when a truthy one is given. */
  function Updated(t: Team, name: string, description: Option<string>, teamType: Option<int>,
                   ownerId: Option<string>, now: int): Team
  {
    t.(name := name,
       description := if Truthy(description) then description else t.description,
       teamType := if teamType.Some? && teamType.value != 0 then teamType.value else t.teamType,
       modifiedDate := Some(now),
       modifiedBy := ownerId)
  }

  /** `PATCH /:teamId`: the name is required; the old description and type
      stay when none is given; the save validates the schema. */
  function UpdateTeam(st: Store, teamId: string, ownerId: Option<string>, name: Option<string>,
                      description: Option<string>, teamType: Option<int>, now: int): (r: Response)
    ensures r.status == 200 || r.store == st
    ensures r.status == 400 <==> CheckOwner(st.teams, teamId, ownerId).Ok? && (!Truthy(name) || !Truthy(ownerId))
    ensures r.status == 200 ==>
      CheckOwner(st.teams, teamId, ownerId).Ok? && |r.store.teams| == |st.teams| &&
      var i := CheckOwner(st.teams, teamId, ownerId).value;
      var t := r.store.teams[i];
      Some(t.name) == name && ValidTeam(t) &&
      (Truthy(description) ==> t.description == description) &&
      (!Truthy(description) ==> t.description == st.teams[i].description) &&
      (teamType.None? || teamType == Some(0) ==> t.teamType == st.teams[i].teamType) &&
      t.ownerId == st.teams[i].ownerId && t.isActive == st.teams[i].isActive &&
      (forall k :: 0 <= k < |st.teams| && k != i ==> r.store.teams[k] == st.teams[k]) &&
      r.store == st.(teams := r.store.teams, io := r.store.io) &&
      Gateway.Sent(st.io, r.store.io, Gateway.Announcement(st.teams[i].organizationID, "team.updated"))
  {
    match CheckOwner(st.teams, teamId, ownerId)
    case Err(c) => Response(st, c)
    case Ok(i) =>
      if !Truthy(name) || !Truthy(ownerId) then Response(st, 400)
      else
        var t := Updated(st.teams[i], name.value, description, teamType, ownerId, now);
        if !ValidTeam(t) then Response(st, 500)
        else
          var io := Gateway.AnnounceToOrg(st.io, t.organizationID, "team.updated");
          Response(st.(teams := st.teams[i := t], io := io), 200)
  }

  /** Repeating an update changes nothing more. */
  lemma UpdateTeamIdempotent(st: Store, teamId: string, ownerId: Option<string>, name: Option<string>,
                             description: Option<string>, teamType: Option<int>, now: int)
    requires UpdateTeam(st, teamId, ownerId, name, description, teamType, now).status == 200
    ensures var r1 := UpdateTeam(st, teamId, ownerId, name, description, teamType, now);
      var r2 := UpdateTeam(r1.store, teamId, ownerId, name, description, teamType, now);
      r2.status == 200 && r2.store.teams == r1.store.teams
  {
    var r1 := UpdateTeam(st, teamId, ownerId, name, description, teamType, now);
    var i := CheckOwner(st.teams, teamId, ownerId).value;
    assert TeamIndex(r1.store.teams, teamId) == Some(i);
  }

  /** The team after `toggle-status`. */
  function ToggledTeam(t: Team, ownerId: Option<string>, now: int): Team {
    t.(isActive := !t.isActive, modifiedDate := Some(now), modifiedBy := ownerId)
  }

  /** `PATCH /:teamId/toggle-status` with the activity names `types`: the
      flag is flipped, saved and announced, then the activity is logged;
      when logging throws, the handler logs an error activity and answers
      500 although the change is already saved. */
  function ToggleStatusIn(types: set<string>, st: Store, teamId: string, ownerId: Option<string>, now: int): (r: Response)
    requires "error" in types
    ensures r.status == 200 <==>
      CheckOwner(st.teams, teamId, ownerId).Ok? &&
      ValidTeam(ToggledTeam(st.teams[CheckOwner(st.teams, teamId, ownerId).value], ownerId, now)) &&
      "team_status_update" in types
    ensures CheckOwner(st.teams, teamId, ownerId).Ok? ==>
      var i := CheckOwner(st.teams, teamId, ownerId).value;
      var t := ToggledTeam(st.teams[i], ownerId, now);
      (ValidTeam(t) ==> r.store.teams == st.teams[i := t] && r.store.teams[i].isActive == !st.teams[i].isActive &&
                        r.store.members == st.members &&
                        Gateway.Sent(st.io, r.store.io, Gateway.Announcement(st.teams[i].organizationID, "team.status.updated"))) &&
      (!ValidTeam(t) ==> r.status == 500 && r.store.teams == st.teams && r.store.io == st.io)
    ensures CheckOwner(st.teams, teamId, ownerId).Err? ==> r.store == st
  {
    match CheckOwner(st.teams, teamId, ownerId)
    case Err(c) => Response(st, c)
    case Ok(i) =>
      var t := ToggledTeam(st.teams[i], ownerId, now);
      if !ValidTeam(t) then
        var failed := Activity.LogActivityIn(types, st.log, ownerId, "team_status_update", "error",
                                             "Failed to update team status", map["teamId" := teamId], None, now);
        Response(st.(log := failed.log), 500)
      else
        var io := Gateway.AnnounceToOrg(st.io, t.organizationID, "team.status.updated");
        var logged := Activity.LogActivityIn(types, st.log, ownerId, "team_status_update", "success",
                                             if t.isActive then "Activated team" else "Deactivated team",
                                             map["teamId" := t.teamId, "teamName" := t.name], None, now);
        var saved := st.(teams := st.teams[i := t], io := io);
        if logged.ok then Response(saved.(log := logged.log), 200)
        else
          var failed := Activity.LogActivityIn(types, logged.log, ownerId, "team_status_update", "error",
                                               "Failed to update team status", map["teamId" := teamId], None, now);
          Response(saved.(log := failed.log), 500)
  }

  /** The handler as written, with the schema's activity names. */
  function ToggleStatus(st: Store, teamId: string, ownerId: Option<string>, now: int): (r: Response)
    ensures r.status != 200
  {
    Activity.UnlistedNames();
    ToggleStatusIn(Activity.ActivityTypes, st, teamId, ownerId, now)
  }

  /** The handler with the activity name it logs accepted by the schema. */
  function ToggleStatusIntended(st: Store, teamId: string, ownerId: Option<string>, now: int): (r: Response)
    ensures r.status == 200 <==>
      CheckOwner(st.teams, teamId, ownerId).Ok? &&
      ValidTeam(ToggledTeam(st.teams[CheckOwner(st.teams, teamId, ownerId).value], ownerId, now))
  {
    ToggleStatusIn(Activity.IntendedActivityTypes, st, teamId, ownerId, now)
  }

  /** As written, a successful toggle is saved, announced with a dashboard
      refresh, and still answers 500, with two error activities in the
      log; the intended
      handler answers 200 with the same team. */
  lemma ToggleStatusFailsAfterSave(st: Store, teamId: string, ownerId: Option<string>, now: int)
    requires CheckOwner(st.teams, teamId, ownerId).Ok?
    requires ValidTeam(ToggledTeam(st.teams[CheckOwner(st.teams, teamId, ownerId).value], ownerId, now))
    ensures var r := ToggleStatus(st, teamId, ownerId, now);
      var i := CheckOwner(st.teams, teamId, ownerId).value;
      r.status == 500 && r.store.teams[i].isActive == !st.teams[i].isActive &&
      |r.store.log| == |st.log| + 2 &&
      r.store.log[|st.log|].typ == "error" && r.store.log[|st.log| + 1].typ == "error" &&
      Gateway.Sent(st.io, r.store.io, Gateway.Announcement(st.teams[i].organizationID, "team.status.updated"))
    ensures var r := ToggleStatusIntended(st, teamId, ownerId, now);
      r.status == 200 && r.store.teams == ToggleStatus(st, teamId, ownerId, now).store.teams
  {
    Activity.UnlistedNames();
    ToggleUnlistedFails(Activity.ActivityTypes, st, teamId, ownerId, now);
  }

  /** Under an enum without the toggle's activity name, a valid toggle is
      saved and announced, both log calls fail, and the answer is 500. */
  lemma ToggleUnlistedFails(types: set<string>, st: Store, teamId: string, ownerId: Option<string>, now: int)
    requires "error" in types && "team_status_update" !in types
    requires CheckOwner(st.teams, teamId, ownerId).Ok?
    requires ValidTeam(ToggledTeam(st.teams[CheckOwner(st.teams, teamId, ownerId).value], ownerId, now))
    ensures var r := ToggleStatusIn(types, st, teamId, ownerId, now);
      var i := CheckOwner(st.teams, teamId, ownerId).value;
      r.status == 500 && r.store.teams[i].isActive == !st.teams[i].isActive &&
      |r.store.log| == |st.log| + 2 &&
      r.store.log[|st.log|].typ == "error" && r.store.log[|st.log| + 1].typ == "error" &&
      Gateway.Sent(st.io, r.store.io, Gateway.Announcement(st.teams[i].organizationID, "team.status.updated"))
  {
  }

  /** `DELETE /:teamId`: the team and all its memberships go, the deletion
      is logged; `announce` says whether `team.deleted` reaches the
      organization room. */
  function DeleteTeamWith(st: Store, teamId: string, ownerId: Option<string>, userId: Option<string>,
                          now: int, announce: bool): (r: Response)
    ensures r.status == 200 || r.store == st
    ensures r.status == 200 <==> CheckOwner(st.teams, teamId, ownerId).Ok?
    ensures r.status == 200 ==>
      var i := CheckOwner(st.teams, teamId, ownerId).value;
      r.store.teams == st.teams[..i] + st.teams[i + 1..] &&
      (forall m :: m in r.store.members <==> m in st.members && m.teamId != teamId) &&
      r.store.assignments == st.assignments && r.store.projects == st.projects &&
      |r.store.log| == |st.log| + 1 && r.store.log[|st.log|].typ == "team_delete"
    ensures !announce ==> r.store.io == st.io
    ensures announce && r.status == 200 ==>
      Gateway.Sent(st.io, r.store.io, Gateway.Announcement(st.teams[CheckOwner(st.teams, teamId, ownerId).value].organizationID, "team.deleted"))
  {
    match CheckOwner(st.teams, teamId, ownerId)
    case Err(c) => Response(st, c)
    case Ok(i) =>
      var t := st.teams[i];
      var members := Filter(st.members, (m: Membership) => m.teamId != teamId);
      var log := Log(st.log, userId, "team_delete", "success", "Deleted team",
                     map["teamId" := t.teamId, "teamName" := t.name], now);
      var io := if announce then Gateway.AnnounceToOrg(st.io, t.organizationID, "team.deleted") else st.io;
      Response(st.(teams := st.teams[..i] + st.teams[i + 1..], members := members, log := log, io := io), 200)
  }

  /** The handler as written: the announcement reads an undefined
      variable, the error is swallowed, and nothing is emitted. */
  function DeleteTeam(st: Store, teamId: string, ownerId: Option<string>, userId: Option<string>, now: int): Response {
    DeleteTeamWith(st, teamId, ownerId, userId, now, false)
  }

  /** The handler with the announcement it evidently intends. */
  function DeleteTeamIntended(st: Store, teamId: string, ownerId: Option<string>, userId: Option<string>, now: int): Response {
    DeleteTeamWith(st, teamId, ownerId, userId, now, true)
  }

  /** A deleted team is never announced as written, while the intended
      handler sends `team.deleted` to the team's organization room; both
      leave the same collections. */
  lemma DeletedTeamNotAnnounced(st: Store, teamId: string, ownerId: Option<string>, userId: Option<string>, now: int)
    requires CheckOwner(st.teams, teamId, ownerId).Ok? && st.io.initialized
    ensures DeleteTeam(st, teamId, ownerId, userId, now).status == 200
    ensures DeleteTeam(st, teamId, ownerId, userId, now).store.io == st.io
    ensures var t := st.teams[CheckOwner(st.teams, teamId, ownerId).value];
      DeleteTeamIntended(st, teamId, ownerId, userId, now).store.io.outbox ==
        st.io.outbox + Gateway.Announcement(t.organizationID, "team.deleted")
    ensures DeleteTeamIntended(st, teamId, ownerId, userId, now).store ==
      DeleteTeam(st, teamId, ownerId, userId, now).store.(io := DeleteTeamIntended(st, teamId, ownerId, userId, now).store.io)
  {
  }

  /** The projects among `ids` that no team is assigned to any more. */
  function Orphans(ids: seq<string>, assigns: seq<Assignment>): (r: seq<string>)
    ensures forall p :: p in r <==> p in ids && AssignedCount(assigns, p) == 0
  {
    Filter(ids, (p: string) => AssignedCount(assigns, p) == 0)
  }

  /** `updateMany` setting status 1 on the listed projects. */
  function ResetStatus(ps: seq<Project>, orphans: seq<string>, ownerId: Option<string>, now: int): (r: seq<Project>)
    ensures |r| == |ps|
    ensures forall k :: 0 <= k < |ps| && ps[k].projectId in orphans ==>
      r[k] == ps[k].(statusId := Unassigned, modifiedDate := Some(now), modifiedBy := ownerId)
    ensures forall k :: 0 <= k < |ps| && ps[k].projectId !in orphans ==> r[k] == ps[k]
  {
    seq(|ps|, k requires 0 <= k < |ps| =>
      if ps[k].projectId in orphans then ps[k].(statusId := Unassigned, modifiedDate := Some(now), modifiedBy := ownerId)
      else ps[k])
  }

  /** `DELETE /:teamId/projects/remove-projects`: the team leaves each
      listed project, and every listed project that no team is assigned to
      any more goes back to status 1. */
  function RemoveProjects(st: Store, teamId: string, ownerId: Option<string>, projectIds: Option<seq<string>>, now: int): (r: Response)
    ensures r.status == 200 || r.store == st
    ensures r.status == 200 <==>
      CheckOwner(st.teams, teamId, ownerId).Ok? && projectIds.Some? && projectIds.value != []
    ensures r.status == 200 ==>
      var ids := projectIds.value;
      (forall a :: a in r.store.assignments <==> a in st.assignments && !(a.teamId == teamId && a.projectId in ids)) &&
      |r.store.projects| == |st.projects| &&
      (forall k :: 0 <= k < |st.projects| ==>
         var p := st.projects[k];
         if p.projectId in ids && AssignedCount(r.store.assignments, p.projectId) == 0
         then r.store.projects[k].statusId == Unassigned && r.store.projects[k] == p.(statusId := Unassigned, modifiedDate := Some(now), modifiedBy := ownerId)
         else r.store.projects[k] == p) &&
      r.store.members == st.members && r.store.teams == st.teams &&
      Gateway.Sent(st.io, r.store.io, Gateway.Announcement(st.teams[CheckOwner(st.teams, teamId, ownerId).value].organizationID, "team.projects.bulk_removed"))
  {
    match CheckOwner(st.teams, teamId, ownerId)
    case Err(c) => Response(st, c)
    case Ok(i) =>
      if projectIds.None? || projectIds.value == [] then Response(st, 400)
      else
        var ids := projectIds.value;
        var assigns := Filter(st.assignments, (a: Assignment) => !(a.teamId == teamId && a.projectId in ids));
        var orphans := Orphans(ids, assigns);
        var log := Log(st.log, ownerId, "team_projects_remove", "success", "Removed projects from team",
                       map["teamId" := teamId, "updatedToUnassigned" := NatToString(|orphans|)], now);
        var io := Gateway.AnnounceToOrg(st.io, st.teams[i].organizationID, "team.projects.bulk_removed");
        Response(st.(assignments := assigns, projects := ResetStatus(st.projects, orphans, ownerId, now), log := log, io := io), 200)
  }

  /** After a bulk removal a listed project has no team left exactly when
      every team it had was this one. */
  lemma RemainingTeams(st: Store, teamId: string, ownerId: Option<string>, projectIds: Option<seq<string>>, now: int, p: string)
    requires RemoveProjects(st, teamId, ownerId, projectIds, now).status == 200
    requires p in projectIds.value
    ensures AssignedCount(RemoveProjects(st, teamId, ownerId, projectIds, now).store.assignments, p) == 0 <==>
      forall j :: 0 <= j < |st.assignments| && st.assignments[j].projectId == p ==> st.assignments[j].teamId == teamId
  {
    var r := RemoveProjects(st, teamId, ownerId, projectIds, now);
    RemainingAfterRemoval(st.assignments, r.store.assignments, teamId, projectIds.value, p);
  }

  /** Of the assignments left after removing this team's for the projects
      `ids`, none is for `p` in `ids` exactly when all of `p`'s were this
      team's. */
  lemma RemainingAfterRemoval(before: seq<Assignment>, after: seq<Assignment>, teamId: string, ids: seq<string>, p: string)
    requires forall a :: a in after <==> a in before && !(a.teamId == teamId && a.projectId in ids)
    requires p in ids
    ensures AssignedCount(after, p) == 0 <==>
      forall j :: 0 <= j < |before| && before[j].projectId == p ==> before[j].teamId == teamId
  {
    if AssignedCount(after, p) == 0 {
      forall j | 0 <= j < |before| && before[j].projectId == p
        ensures before[j].teamId == teamId
      {
        assert before[j] in before;
      }
    } else {
      var v :| 0 <= v < |after| && after[v].projectId == p;
      assert after[v] in after;
      var j :| 0 <= j < |before| && before[j] == after[v];
    }
  }

  // ---------------------------------------------------------------------
  // Last logins
  // ---------------------------------------------------------------------

  /** A successful login of one of the users `ids`. */
  predicate IsLoginOf(a: Activity.Record, ids: set<string>) {
    a.user.Some? && a.user.value in ids && a.typ == "login" && a.status == "success"
  }

  /** `lastLoginMap`: for each of the users who ever logged in
      successfully, the latest timestamp of such a login.  The log is read
      in order; a later login replaces an earlier one only when it is
      strictly later. */
  function LastLogins(log: seq<Activity.Record>, ids: set<string>): (m: map<string, int>)
    ensures forall u :: u in m ==> u in ids
    decreases |log|
  {
    if log == [] then map[]
    else
      var m := LastLogins(log[..|log| - 1], ids);
      var a := log[|log| - 1];
      if !IsLoginOf(a, ids) || (a.user.value in m && m[a.user.value] >= a.timestamp) then m
      else m[a.user.value := a.timestamp]
  }

  /** The map holds exactly the users with a successful login, each with
      the timestamp of one of their logins that no other login of theirs
      exceeds. */
  lemma LastLoginsAreLatest(log: seq<Activity.Record>, ids: set<string>)
    ensures var m := LastLogins(log, ids);
      (forall u :: u in m <==> exists k :: 0 <= k < |log| && IsLoginOf(log[k], ids) && log[k].user.value == u) &&
      (forall u :: u in m ==>
         exists k :: 0 <= k < |log| && IsLoginOf(log[k], ids) && log[k].user.value == u && log[k].timestamp == m[u]) &&
      (forall k :: 0 <= k < |log| && IsLoginOf(log[k], ids) ==>
         log[k].user.value in m && log[k].timestamp <= m[log[k].user.value])
  {
    LastLoginsAttained(log, ids);
    LastLoginsBound(log, ids);
  }

  /** Some successful login of `u` in `log` happened at `t`. */
  predicate LoginAt(log: seq<Activity.Record>, ids: set<string>, u: string, t: int) {
    exists k :: 0 <= k < |log| && IsLoginOf(log[k], ids) && log[k].user.value == u && log[k].timestamp == t
  }

  /** Every timestamp in the map is one of that user's logins. */
  lemma {:induction false} LastLoginsAttained(log: seq<Activity.Record>, ids: set<string>)
    ensures var m := LastLogins(log, ids); forall u :: u in m ==> LoginAt(log, ids, u, m[u])
    decreases |log|
  {
    if log != [] {
      var n := |log| - 1;
      var prefix := log[..n];
      LastLoginsAttained(prefix, ids);
      var m0 := LastLogins(prefix, ids);
      assert forall u :: u in LastLogins(prefix, ids) ==> LoginAt(prefix, ids, u, LastLogins(prefix, ids)[u]);
      var m := LastLogins(log, ids);
      forall u | u in m
        ensures LoginAt(log, ids, u, m[u])
      {
        if u in m0 && m[u] == m0[u] {
          assert LoginAt(prefix, ids, u, m0[u]);
          var k :| 0 <= k < |prefix| && IsLoginOf(prefix[k], ids) && prefix[k].user.value == u && prefix[k].timestamp == m0[u];
          assert log[k] == prefix[k];
        } else {
          assert log[n].user.value == u && log[n].timestamp == m[u];
        }
      }
    }
  }

  /** Every login's user is in the map, at a timestamp no earlier. */
  lemma {:induction false} LastLoginsBound(log: seq<Activity.Record>, ids: set<string>)
    ensures var m := LastLogins(log, ids);
      forall k :: 0 <= k < |log| && IsLoginOf(log[k], ids) ==>
        log[k].user.value in m && log[k].timestamp <= m[log[k].user.value]
    decreases |log|
  {
    if log != [] {
      var n := |log| - 1;
      var prefix := log[..n];
      LastLoginsBound(prefix, ids);
      var m := LastLogins(log, ids);
      forall k | 0 <= k < |log| && IsLoginOf(log[k], ids)
        ensures log[k].user.value in m && log[k].timestamp <= m[log[k].user.value]
      {
        if k < n {
          assert prefix[k] == log[k];
        }
      }
    }
  }

  // ---------------------------------------------------------------------
  // Team creation and listing
  // ---------------------------------------------------------------------

  /** The body fields of `POST /api/teams`. */
  datatype TeamBody = TeamBody(name: Option<string>, description: Option<string>, teamType: Option<int>, ownerId: Option<string>)

  /** The body as `incrementUsage` classifies it: a team name and an owner. */
  function UsageBody(b: TeamBody): PremiumLimits.Body {
    PremiumLimits.Body(None, None, None, None, b.name, b.ownerId)
  }

  /** The team-limit gate: `OwnerID`, else the authenticated user. */
  function TeamGate(st: Store, b: TeamBody, authUser: Option<string>, now: int): PremiumLimits.Outcome {
    PremiumLimits.CheckLimit(st.db, PremiumLimits.TeamKind, PremiumLimits.FirstTruthy([b.ownerId, authUser]), now)
  }

  /** `POST /api/teams` behind the team limit: the name and type are
      required (400), the owner must be given and known (401); the team
      starts inactive in the owner's organization with the owner as its
      first active member.  `counted` says whether the organization's team
      counter is raised. */
  function CreateTeamWith(st: Store, b: TeamBody, authUser: Option<string>, teamId: string, now: int, counted: bool): (r: Response)
    ensures r.status == 201 || (r.store.teams == st.teams && r.store.members == st.members && r.store.db == st.db)
    ensures r.status == 400 <==>
      TeamGate(st, b, authUser, now) == PremiumLimits.Reject(400) ||
      (TeamGate(st, b, authUser, now).Next? && (!Truthy(b.name) || b.teamType.None?))
    ensures r.status == 401 <==>
      TeamGate(st, b, authUser, now).Next? && Truthy(b.name) && b.teamType.Some? &&
      (!Truthy(b.ownerId) || b.ownerId.value !in st.db.users)
    ensures TeamGate(st, b, authUser, now).LimitReached? ==> r.status == 403 && r.store == st
    ensures r.status == 201 ==>
      TeamGate(st, b, authUser, now).Next? && Truthy(b.ownerId) && b.ownerId.value in st.db.users &&
      |r.store.teams| == |st.teams| + 1 &&
      var t := r.store.teams[|st.teams|];
      var org := st.db.users[b.ownerId.value].organizationID;
      r.store.teams == st.teams + [t] && t.teamId == teamId && TeamIndex(st.teams, teamId).None? &&
      !t.isActive && t.ownerId == b.ownerId.value && Some(t.name) == b.name &&
      t.organizationID == (if Truthy(org) then org.value else "") && ValidTeam(t) &&
      r.store.members == st.members + [Membership(teamId, t.ownerId, true, now, None, b.ownerId)] &&
      OwnerIsMember(r.store.members, t) &&
      Gateway.Sent(st.io, r.store.io, Gateway.Announcement(Gateway.OrgText(org), "team.created"))
    ensures !counted ==> r.store.db == st.db
    ensures counted && r.status == 201 ==> r.store.db == PremiumLimits.IncrementUsage(st.db, UsageBody(b), authUser)
  {
    match TeamGate(st, b, authUser, now)
    case Reject(c) => Response(st, c)
    case LimitReached(_, _, _) => Response(st, 403)
    case Next =>
      if !Truthy(b.name) || b.teamType.None? then Response(st, 400)
      else if !Truthy(b.ownerId) || b.ownerId.value !in st.db.users then Response(st, 401)
      else
        var owner := b.ownerId.value;
        var org := st.db.users[owner].organizationID;
        var t := Team(teamId, b.name.value, b.description, b.teamType.value, owner,
                      if Truthy(org) then org.value else "", false, now, None, None);
        var m := Membership(teamId, owner, true, now, None, b.ownerId);
        if !ValidTeam(t) || !ValidMembership(m) || TeamIndex(st.teams, teamId).Some? then
          Response(st.(log := Log(st.log, b.ownerId, "team_create", "error", "Failed to create team",
                                  map["teamName" := b.name.value], now)), 500)
        else
          var db := if counted then PremiumLimits.IncrementUsage(st.db, UsageBody(b), authUser) else st.db;
          var log := Log(st.log, b.ownerId, "team_create", "success", "Created new team",
                         map["teamId" := teamId, "teamName" := b.name.value], now);
          var io := Gateway.AnnounceToOrg(st.io, Gateway.OrgText(org), "team.created");
          assert (st.members + [m])[|st.members|] == m;
          Response(st.(teams := st.teams + [t], members := st.members + [m], db := db, log := log, io := io), 201)
  }

  /** The handler as written: it never calls `incrementUsage`. */
  function CreateTeam(st: Store, b: TeamBody, authUser: Option<string>, teamId: string, now: int): Response {
    CreateTeamWith(st, b, authUser, teamId, now, false)
  }

  /** The handler counting the new team like projects and tasks are counted. */
  function CreateTeamIntended(st: Store, b: TeamBody, authUser: Option<string>, teamId: string, now: int): Response {
    CreateTeamWith(st, b, authUser, teamId, now, true)
  }

  /** As written, creating a team never changes the counter the team limit
      reads, so the limit's answer for every user stays what it was and a
      free organization can create any number of teams.  The intended
      handler raises the owner's organization's team counter by one. */
  lemma TeamLimitNeverAdvances(st: Store, b: TeamBody, authUser: Option<string>, teamId: string, now: int,
                               user: Option<string>, later: int)
    ensures PremiumLimits.CheckLimit(CreateTeam(st, b, authUser, teamId, now).store.db, PremiumLimits.TeamKind, user, later) ==
            PremiumLimits.CheckLimit(st.db, PremiumLimits.TeamKind, user, later)
    ensures CreateTeamIntended(st, b, authUser, teamId, now).status == 201 ==>
      var org := st.db.users[b.ownerId.value].organizationID.value;
      org in st.db.orgs &&
      CreateTeamIntended(st, b, authUser, teamId, now).store.db.orgs[org].counters.teamsCreated ==
        st.db.orgs[org].counters.teamsCreated + 1
  {
    if CreateTeamIntended(st, b, authUser, teamId, now).status == 201 {
      IntendedTeamCounted(st, b, authUser, teamId, now);
    }
  }

  /** A team the intended handler creates is counted against its owner's
      organization. */
  lemma IntendedTeamCounted(st: Store, b: TeamBody, authUser: Option<string>, teamId: string, now: int)
    requires CreateTeamIntended(st, b, authUser, teamId, now).status == 201
    ensures var org := st.db.users[b.ownerId.value].organizationID.value;
      org in st.db.orgs &&
      CreateTeamIntended(st, b, authUser, teamId, now).store.db.orgs[org].counters.teamsCreated ==
        st.db.orgs[org].counters.teamsCreated + 1
  {
    assert PremiumLimits.FirstTruthy([b.ownerId, authUser]) == b.ownerId;
    PremiumLimits.TeamBodyCounted(st.db, b.name, b.ownerId.value, authUser);
  }

  /** A user who is an active member of team `teamId`. */
  predicate ActiveMemberOf(ms: seq<Membership>, userId: string, teamId: string) {
    exists j :: 0 <= j < |ms| && ms[j].memberId == userId && ms[j].isMemberActive && ms[j].teamId == teamId
  }

  /** `GET /api/teams/:role/:userId`: every team for `Admin`, otherwise the
      teams the user is an active member of. */
  function ListTeams(st: Store, role: string, userId: string): (r: seq<Team>)
    ensures role == "Admin" ==> r == st.teams
    ensures role != "Admin" ==> forall t :: t in r <==> t in st.teams && ActiveMemberOf(st.members, userId, t.teamId)
  {
    if role == "Admin" then st.teams
    else
      var teamIds := set j | 0 <= j < |st.members| && st.members[j].memberId == userId && st.members[j].isMemberActive
                          :: st.members[j].teamId;
      Filter(st.teams, (t: Team) => t.teamId in teamIds)
  }

  // ---------------------------------------------------------------------
  // Join requests
  // ---------------------------------------------------------------------

  /** A pending request of `userId` for `teamId`. */
  predicate HasPending(rs: seq<JoinRequest>, userId: string, teamId: string) {
    exists j :: 0 <= j < |rs| && rs[j].userId == userId && rs[j].teamId == teamId && rs[j].status == Pending
  }

  /** At most one pending request per user and team. */
  predicate OnePending(rs: seq<JoinRequest>) {
    forall i, j :: 0 <= i < j < |rs| && rs[i].status == Pending && rs[j].status == Pending ==>
      !(rs[i].userId == rs[j].userId && rs[i].teamId == rs[j].teamId)
  }

  /** `POST /:teamId/join-request`: a new pending request unless the user
      already has one for the team (then 200 and nothing changes). */
  function RequestToJoin(st: Store, teamId: string, userId: Option<string>, requestId: string, now: int): (r: Response)
    ensures r.status == 201 || r.store == st
    ensures r.status == 400 <==> !Truthy(userId)
    ensures r.status == 200 <==> Truthy(userId) && HasPending(st.requests, userId.value, teamId)
    ensures r.status == 201 <==> Truthy(userId) && !HasPending(st.requests, userId.value, teamId) && teamId != ""
    ensures r.status == 201 ==>
      r.store.requests == st.requests + [JoinRequest(requestId, userId.value, teamId, Pending, now, None, None)] &&
      r.store.members == st.members && r.store.teams == st.teams &&
      Gateway.Sent(st.io, r.store.io, [Gateway.Notice(Gateway.OrgRoom(OrgOf(st.teams, teamId)), "team.join_request.created")])
  {
    if !Truthy(userId) then Response(st, 400)
    else if HasPending(st.requests, userId.value, teamId) then Response(st, 200)
    else
      var q := JoinRequest(requestId, userId.value, teamId, Pending, now, None, None);
      if !ValidRequest(q) then Response(st, 500)
      else
        var log := Log(st.log, userId, "team_join_request", "success", "Requested to join team", map["teamId" := teamId], now);
        var io := Gateway.EmitToOrg(st.io, OrgOf(st.teams, teamId), "team.join_request.created", Gateway.NoData);
        Response(st.(requests := st.requests + [q], log := log, io := io), 201)
  }

  /** Requests never pile up: at most one is pending per user and team. */
  lemma RequestToJoinKeepsOnePending(st: Store, teamId: string, userId: Option<string>, requestId: string, now: int)
    requires OnePending(st.requests)
    ensures OnePending(RequestToJoin(st, teamId, userId, requestId, now).store.requests)
  {
    var r := RequestToJoin(st, teamId, userId, requestId, now);
    if r.status == 201 {
      var rs := r.store.requests;
      forall i, j | 0 <= i < j < |rs| && rs[i].status == Pending && rs[j].status == Pending
        ensures !(rs[i].userId == rs[j].userId && rs[i].teamId == rs[j].teamId)
      {
        assert rs[i] == st.requests[i];
        if j < |st.requests| {
          assert rs[j] == st.requests[j];
        }
      }
    }
  }

  /** Answering a request: 404 unless it exists and is for this team;
      otherwise it records the answer, and an accepted request adds an
      active membership for the requester. */
  function Respond(st: Store, teamId: string, requestId: string, adminId: Option<string>, now: int, accept: bool): (r: Response)
    ensures r.status == 404 <==>
      RequestIndex(st.requests, requestId).None? || st.requests[RequestIndex(st.requests, requestId).value].teamId != teamId
    ensures r.status != 200 ==> r.store.members == st.members
    ensures r.status == 200 ==>
      var k := RequestIndex(st.requests, requestId).value;
      var q := st.requests[k];
      |r.store.requests| == |st.requests| &&
      r.store.requests[k].status == (if accept then Accepted else Rejected) &&
      r.store.requests[k].respondedBy == adminId && r.store.requests[k].respondedAt == Some(now) &&
      r.store.requests[k].userId == q.userId && r.store.requests[k].teamId == teamId &&
      (forall j :: 0 <= j < |st.requests| && j != k ==> r.store.requests[j] == st.requests[j]) &&
      (accept ==> r.store.members == st.members + [Membership(teamId, q.userId, true, now, None, adminId)] &&
                  Gateway.Sent(st.io, r.store.io, Gateway.Announcement(OrgOf(st.teams, teamId), "team.join_request.accepted"))) &&
      (!accept ==> r.store.members == st.members &&
                   Gateway.Sent(st.io, r.store.io, [Gateway.Notice(Gateway.OrgRoom(OrgOf(st.teams, teamId)), "team.join_request.rejected")]))
  {
    match RequestIndex(st.requests, requestId)
    case None => Response(st, 404)
    case Some(k) =>
      if st.requests[k].teamId != teamId then Response(st, 404)
      else
        var q := st.requests[k].(status := if accept then Accepted else Rejected, respondedAt := Some(now), respondedBy := adminId);
        if !ValidRequest(q) then Response(st, 500)
        else
          var saved := st.(requests := st.requests[k := q]);
          if accept then
            var m := Membership(teamId, q.userId, true, now, None, adminId);
            var io := Gateway.AnnounceToOrg(st.io, OrgOf(st.teams, teamId), "team.join_request.accepted");
            Response(saved.(members := st.members + [m], io := io), 200)
          else
            var io := Gateway.EmitToOrg(st.io, OrgOf(st.teams, teamId), "team.join_request.rejected", Gateway.NoData);
            Response(saved.(io := io), 200)
  }

  /** `POST /:teamId/join-requests/:requestId/accept`. */
  function Accept(st: Store, teamId: string, requestId: string, adminId: Option<string>, now: int): (r: Response)
    ensures r.status == 200 ==> |r.store.members| == |st.members| + 1 && r.store.members[|st.members|].isMemberActive
  {
    Respond(st, teamId, requestId, adminId, now, true)
  }

  /** `POST /:teamId/join-requests/:requestId/reject`. */
  function Reject(st: Store, teamId: string, requestId: string, adminId: Option<string>, now: int): (r: Response)
    ensures r.store.members == st.members
  {
    Respond(st, teamId, requestId, adminId, now, false)
  }
}
