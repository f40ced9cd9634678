/** Invitations to join an organization (models/Invite.js) and the invite
    handlers of controllers/userController.js: listing with the expiry
    sweep, resend, delete and invite.  The acceptance step that the
    registration handlers share also lives here. */
module Invites {
  import opened Common

  datatype Status = Pending | Accepted | Expired

  /** Seven days in milliseconds: the default lifetime of an invite and the
      lifetime a resend grants. */
  const WeekMs: int := 7 * DayMs

  datatype Invite = Invite(
    inviteId: string,
    email: string,
    organizationID: string,
    inviter: string,
    status: Status,
    token: string,
    invitedAt: int,
    acceptedAt: Option<int>,
    expiredAt: int)

  /** Schema validation: the required strings are non-empty. */
  predicate ValidInvite(v: Invite) {
    v.email != "" && v.organizationID != "" && v.inviter != "" && v.token != ""
  }

  /** `isExpired`: strictly past the expiry instant. */
  predicate IsExpired(v: Invite, now: int) {
    now > v.expiredAt
  }

  /** The pre-save hook: a Pending invite past its expiry is saved as
      Expired; every other invite keeps its status. */
  function PreSave(v: Invite, now: int): (r: Invite)
    ensures r == v.(status := r.status)
    ensures r.status == Expired <==> v.status == Expired || (v.status == Pending && IsExpired(v, now))
    ensures r.status == Accepted <==> v.status == Accepted
    ensures r.status == Pending ==> !IsExpired(r, now)
  {
    if v.status == Pending && IsExpired(v, now) then v.(status := Expired) else v
  }

  /** `Invite.create` with the schema defaults, then the pre-save hook. */
  function NewInvite(inviteId: string, email: string, organizationID: string, inviter: string,
                     token: string, now: int): Invite
  {
    PreSave(Invite(inviteId, email, organizationID, inviter, Pending, token, now, None, now + WeekMs), now)
  }

  /** A new invite is Pending, stays Pending through every save for seven
      days, and is saved as Expired from the first instant after that. */
  lemma NewInviteLifetime(inviteId: string, email: string, organizationID: string, inviter: string,
                          token: string, now: int, t: int)
    requires now <= t
    ensures var v := NewInvite(inviteId, email, organizationID, inviter, token, now);
      v.status == Pending && v.acceptedAt.None? && v.invitedAt == now &&
      (PreSave(v, t).status == Pending <==> t <= now + WeekMs)
  {
  }

  // ---------------------------------------------------------------------
  // GET /invites: the organization's invites, expired ones swept
  // ---------------------------------------------------------------------

  datatype Listing = Listing(listed: seq<Invite>, store: seq<Invite>)

  predicate InOrg(v: Invite, organizationID: string) {
    v.organizationID == organizationID
  }

  /** `getInvites`: every Pending invite of the organization that is past
      its expiry is marked Expired and saved; the answer lists the
      organization's invites. */
  function ListInvites(invites: seq<Invite>, organizationID: string, now: int): (r: Listing)
    ensures |r.store| == |invites|
    ensures forall i :: 0 <= i < |invites| ==>
      r.store[i] == invites[i].(status := r.store[i].status) &&
      (r.store[i].status != invites[i].status <==>
         InOrg(invites[i], organizationID) && invites[i].status == Pending && IsExpired(invites[i], now))
    ensures forall i :: 0 <= i < |invites| && r.store[i].status != invites[i].status ==> r.store[i].status == Expired
    ensures forall v :: v in r.listed <==> v in r.store && InOrg(v, organizationID)
    ensures forall v :: v in r.listed ==> !(v.status == Pending && IsExpired(v, now))
  {
    var store := seq(|invites|, i requires 0 <= i < |invites| =>
      if InOrg(invites[i], organizationID) then PreSave(invites[i], now) else invites[i]);
    Listing(Filter(store, (v: Invite) => InOrg(v, organizationID)), store)
  }

  /** Listing twice at the same instant changes nothing the second time. */
  lemma ListInvitesIdempotent(invites: seq<Invite>, organizationID: string, now: int)
    ensures var once := ListInvites(invites, organizationID, now);
      ListInvites(once.store, organizationID, now) == once
  {
    var once := ListInvites(invites, organizationID, now);
    var twice := ListInvites(once.store, organizationID, now);
    assert twice.store == once.store;
  }

  // ---------------------------------------------------------------------
  // Resend, delete, invite
  // ---------------------------------------------------------------------

  datatype Response = Response(invites: seq<Invite>, status: nat)

  function InviteIndex(invites: seq<Invite>, inviteId: string): (r: Option<nat>)
    ensures r.Some? ==> r.value < |invites| && invites[r.value].inviteId == inviteId
    ensures r.None? <==> forall j :: 0 <= j < |invites| ==> invites[j].inviteId != inviteId
  {
    FirstWhere(invites, (v: Invite) => v.inviteId == inviteId)
  }

  /** `resendInvite`: only a Pending invite that has not expired is resent;
      it gets the new token and a fresh seven-day expiry. */
  function Resend(invites: seq<Invite>, inviteId: string, token: string, now: int): (r: Response)
    ensures r.status in {200, 400, 404}
    ensures r.status == 404 <==> InviteIndex(invites, inviteId).None?
    ensures r.status == 200 <==> (InviteIndex(invites, inviteId).Some? &&
      invites[InviteIndex(invites, inviteId).value].status == Pending &&
      !IsExpired(invites[InviteIndex(invites, inviteId).value], now))
    ensures r.status != 200 ==> r.invites == invites
    ensures r.status == 200 ==> var k := InviteIndex(invites, inviteId).value;
      |r.invites| == |invites| &&
      (forall j :: 0 <= j < |invites| && j != k ==> r.invites[j] == invites[j]) &&
      r.invites[k] == invites[k].(token := token, expiredAt := now + WeekMs)
  {
    match InviteIndex(invites, inviteId)
    case None => Response(invites, 404)
    case Some(k) =>
      var v := invites[k];
      if v.status != Pending then Response(invites, 400)
      else if IsExpired(v, now) then Response(invites, 400)
      else Response(invites[k := PreSave(v.(token := token, expiredAt := now + WeekMs), now)], 200)
  }

  /** `deleteInvite`: anything but an Accepted invite can be deleted. */
  function Delete(invites: seq<Invite>, inviteId: string): (r: Response)
    ensures r.status in {200, 400, 404}
    ensures r.status == 404 <==> InviteIndex(invites, inviteId).None?
    ensures r.status == 400 <==> (InviteIndex(invites, inviteId).Some? &&
      invites[InviteIndex(invites, inviteId).value].status == Accepted)
    ensures r.status != 200 ==> r.invites == invites
    ensures r.status == 200 ==> var k := InviteIndex(invites, inviteId).value;
      r.invites == invites[..k] + invites[k + 1..]
  {
    match InviteIndex(invites, inviteId)
    case None => Response(invites, 404)
    case Some(k) =>
      if invites[k].status == Accepted then Response(invites, 400)
      else Response(invites[..k] + invites[k + 1..], 200)
  }

  /** No delete ever loses an accepted invite. */
  lemma DeleteKeepsAccepted(invites: seq<Invite>, inviteId: string)
    ensures forall v :: v in invites && v.status == Accepted ==> v in Delete(invites, inviteId).invites
  {
    var r := Delete(invites, inviteId);
    if r.status == 200 {
      var k := InviteIndex(invites, inviteId).value;
      forall v | v in invites && v.status == Accepted
        ensures v in r.invites
      {
        var j :| 0 <= j < |invites| && invites[j] == v;
        if j < k {
          assert r.invites[j] == v;
        } else {
          assert j != k;
          assert r.invites[j - 1] == v;
        }
      }
    }
  }

  /** An invite that still blocks a new one: Pending and `expiredAt` in the
      future (the query's `$gt`). */
  predicate Live(v: Invite, email: string, organizationID: Option<string>, now: int) {
    v.email == email && organizationID == Some(v.organizationID) && v.status == Pending && v.expiredAt > now
  }

  /** `inviteUser`: an e-mail is required; a live invite for the same e-mail
      and organization gives 409; otherwise a new invite is created, which
      fails validation (500) when the inviter has no organization. */
  function InviteUser(invites: seq<Invite>, email: Option<string>, organizationID: Option<string>,
                      inviter: string, inviteId: string, token: string, now: int): (r: Response)
    ensures r.status in {201, 400, 409, 500}
    ensures r.status == 400 <==> !Truthy(email)
    ensures r.status == 409 <==> (Truthy(email) &&
      exists j :: 0 <= j < |invites| && Live(invites[j], email.value, organizationID, now))
    ensures r.status == 201 ==> Truthy(organizationID) && token != "" && inviter != ""
    ensures r.status != 201 ==> r.invites == invites
    ensures r.status == 201 ==>
      r.invites == invites + [NewInvite(inviteId, email.value, organizationID.value, inviter, token, now)]
  {
    if !Truthy(email) then Response(invites, 400)
    else match FirstWhere(invites, (v: Invite) => Live(v, email.value, organizationID, now))
      case Some(_) => Response(invites, 409)
      case None =>
        var org := if organizationID.Some? then organizationID.value else "";
        var v := NewInvite(inviteId, email.value, org, inviter, token, now);
        if ValidInvite(v) then Response(invites + [v], 201) else Response(invites, 500)
  }

  /** At most one live invite per e-mail and organization. */
  predicate OneLive(invites: seq<Invite>, now: int) {
    forall i, j :: (0 <= i < j < |invites| && invites[i].email == invites[j].email &&
      invites[i].organizationID == invites[j].organizationID &&
      invites[i].status == Pending && invites[i].expiredAt > now) ==>
      !(invites[j].status == Pending && invites[j].expiredAt > now)
  }

  /** Inviting keeps at most one live invite per e-mail and organization. */
  lemma InviteUserKeepsOneLive(invites: seq<Invite>, email: Option<string>, organizationID: Option<string>,
                               inviter: string, inviteId: string, token: string, now: int)
    requires OneLive(invites, now)
    ensures OneLive(InviteUser(invites, email, organizationID, inviter, inviteId, token, now).invites, now)
  {
    var r := InviteUser(invites, email, organizationID, inviter, inviteId, token, now);
    if r.status == 201 {
      var v := r.invites[|invites|];
      forall i | 0 <= i < |invites| && invites[i].email == v.email && invites[i].organizationID == v.organizationID
        ensures !(invites[i].status == Pending && invites[i].expiredAt > now)
      {
        assert !Live(invites[i], email.value, organizationID, now);
      }
    }
  }

  // ---------------------------------------------------------------------
  // Acceptance at registration
  // ---------------------------------------------------------------------

  /** The registering user's organization and the invites after the used
      invite is saved as Accepted. */
  datatype Acceptance = Acceptance(invites: seq<Invite>, organizationID: string)

  /** The invite `Invite.findOne({ token, status: 'Pending', email })`
      selects; `checkExpiry` adds the expiry test the error message
      promises. */
  predicate Usable(v: Invite, token: string, email: string, now: int, checkExpiry: bool) {
    v.token == token && v.status == Pending && v.email == email && !(checkExpiry && IsExpired(v, now))
  }

  function AcceptWith(invites: seq<Invite>, token: string, email: string, now: int, checkExpiry: bool): (r: Reply<Acceptance>)
    ensures r.Err? ==> r.code == 400
    ensures r.Err? <==> forall j :: 0 <= j < |invites| ==> !Usable(invites[j], token, email, now, checkExpiry)
    ensures r.Ok? ==> exists k :: (0 <= k < |invites| && Usable(invites[k], token, email, now, checkExpiry) &&
      r.value.organizationID == invites[k].organizationID &&
      r.value.invites == invites[k := invites[k].(status := Accepted, acceptedAt := Some(now))])
  {
    match FirstWhere(invites, (v: Invite) => Usable(v, token, email, now, checkExpiry))
    case None => Err(400)
    case Some(k) =>
      var v := invites[k];
      Ok(Acceptance(invites[k := PreSave(v.(status := Accepted, acceptedAt := Some(now)), now)], v.organizationID))
  }

  /** The acceptance as the registration handlers perform it. */
  function Accept(invites: seq<Invite>, token: string, email: string, now: int): Reply<Acceptance> {
    AcceptWith(invites, token, email, now, false)
  }

  /** The acceptance with the expiry test. */
  function AcceptIntended(invites: seq<Invite>, token: string, email: string, now: int): Reply<Acceptance> {
    AcceptWith(invites, token, email, now, true)
  }

  /** The lookup never tests the expiry: an invite that is past its expiry
      but has not been swept yet is still accepted, although the rejection
      message speaks of expired tokens.  With the test it is refused. */
  lemma ExpiredInviteAccepted(now: int)
    ensures var v := Invite("i1", "a@x.io", "100001", "u1", Pending, "t", now - WeekMs - 1, None, now - 1);
      Accept([v], "t", "a@x.io", now).Ok? && AcceptIntended([v], "t", "a@x.io", now) == Err(400)
  {
  }

  /** With the test, no expired invite is ever accepted, and an accepted
      invite is one that was Pending and unexpired. */
  lemma AcceptIntendedOnlyLive(invites: seq<Invite>, token: string, email: string, now: int)
    ensures var r := AcceptIntended(invites, token, email, now);
      r.Ok? ==> exists k :: (0 <= k < |invites| && invites[k].status == Pending && !IsExpired(invites[k], now) &&
        r.value.invites[k].status == Accepted && r.value.organizationID == invites[k].organizationID)
  {
  }
}
