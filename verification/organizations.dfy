/** Organization creation, controllers/organizationController.js: a random
    six-digit number not yet used as an organization id, and the new
    organization whose creator becomes an administrator. */
module Organizations {
  import opened Common
  import OrganizationModel
  import Users

  /** `Math.floor(100000 + Math.random() * 900000)` for one draw in [0, 1). */
  function IdFromDraw(d: real): (id: int)
    requires 0.0 <= d < 1.0
    ensures 100000 <= id <= 999999
    ensures id as real <= 100000.0 + d * 900000.0 < id as real + 1.0
  {
    (100000.0 + d * 900000.0).Floor
  }

  /** Every six-digit number is drawn by some random value. */
  lemma EveryIdDrawable(n: int) returns (d: real)
    requires 100000 <= n <= 999999
    ensures 0.0 <= d < 1.0 && IdFromDraw(d) == n
  {
    d := (n - 100000) as real / 900000.0;
    assert 100000.0 + d * 900000.0 == n as real;
  }

  predicate ValidDraws(draws: seq<real>) {
    forall k :: 0 <= k < |draws| ==> 0.0 <= draws[k] < 1.0
  }

  /** Some draw gives an id nobody holds, so the search ends. */
  predicate FindsFreeId(taken: set<int>, draws: seq<real>) {
    ValidDraws(draws) && exists k :: 0 <= k < |draws| && IdFromDraw(draws[k]) !in taken
  }

  /** `generateUniqueOrganizationID`: draw until the id is not taken; the
      result is the first draw's id that is free. */
  method GenerateOrganizationID(taken: set<int>, draws: seq<real>) returns (id: int, used: nat)
    requires FindsFreeId(taken, draws)
    ensures used < |draws| && id == IdFromDraw(draws[used])
    ensures id !in taken && 100000 <= id <= 999999
    ensures forall k :: 0 <= k < used ==> IdFromDraw(draws[k]) in taken
  {
    used := 0;
    id := IdFromDraw(draws[0]);
    while id in taken
      invariant used < |draws| && id == IdFromDraw(draws[used])
      invariant forall k :: 0 <= k < used ==> IdFromDraw(draws[k]) in taken
      invariant exists k :: used <= k < |draws| && IdFromDraw(draws[k]) !in taken
      decreases |draws| - used
    {
      used := used + 1;
      id := IdFromDraw(draws[used]);
    }
  }

  /** The organization ids in use. */
  function Ids(orgs: seq<OrganizationModel.Organization>): (ids: set<int>)
    ensures forall k :: 0 <= k < |orgs| ==> orgs[k].organizationID in ids
    ensures forall id :: id in ids ==> exists k :: 0 <= k < |orgs| && orgs[k].organizationID == id
  {
    set k | 0 <= k < |orgs| :: orgs[k].organizationID
  }

  predicate DistinctIds(orgs: seq<OrganizationModel.Organization>) {
    forall i, j :: 0 <= i < j < |orgs| ==> orgs[i].organizationID != orgs[j].organizationID
  }

  datatype Store = Store(orgs: seq<OrganizationModel.Organization>, profiles: seq<Users.Profile>)

  datatype Created = Created(store: Store, status: nat)

  /** The creator's role, when the creator is found. */
  function MakeAdmin(ps: seq<Users.Profile>, ownerId: string): (r: seq<Users.Profile>)
    ensures |r| == |ps|
    ensures Users.ProfileIndex(ps, ownerId).None? ==> r == ps
    ensures Users.ProfileIndex(ps, ownerId).Some? ==>
      r == ps[Users.ProfileIndex(ps, ownerId).value := ps[Users.ProfileIndex(ps, ownerId).value].(role := "Admin")]
  {
    match Users.ProfileIndex(ps, ownerId)
    case None => ps
    case Some(i) => ps[i := ps[i].(role := "Admin")]
  }

  /** `createOrganization`: a missing or blank name gives 400; otherwise the
      trimmed name is stored under a fresh six-digit id, the creator owns
      the organization and becomes an administrator, and the answer is 201.
      The creator's own organization is left as it was. */
  method CreateOrganization(st: Store, name: Option<string>, ownerId: string, draws: seq<real>, now: int)
    returns (r: Created)
    requires FindsFreeId(Ids(st.orgs), draws)
    ensures r.status in {201, 400}
    ensures r.status == 400 <==> !Truthy(name) || IsBlank(name.value)
    ensures r.status == 400 ==> r.store == st
    ensures r.status == 201 ==>
      |r.store.orgs| == |st.orgs| + 1 && r.store.orgs[..|st.orgs|] == st.orgs &&
      r.store.orgs[|st.orgs|].name == Trim(name.value) && r.store.orgs[|st.orgs|].name != "" &&
      r.store.orgs[|st.orgs|].owner == ownerId &&
      r.store.orgs[|st.orgs|].organizationID !in Ids(st.orgs) &&
      r.store.orgs[|st.orgs|].counters == OrganizationModel.Counters(0, 0, 0, 0) &&
      r.store.profiles == MakeAdmin(st.profiles, ownerId)
    ensures DistinctIds(st.orgs) ==> DistinctIds(r.store.orgs)
  {
    if !Truthy(name) {
      return Created(st, 400);
    }
    TrimEmptyIffBlank(name.value);
    if Trim(name.value) == "" {
      return Created(st, 400);
    }
    var id, _ := GenerateOrganizationID(Ids(st.orgs), draws);
    var o := OrganizationModel.NewOrganization(Trim(name.value), ownerId, id, now);
    var orgs := st.orgs + [o];
    assert orgs[..|st.orgs|] == st.orgs;
    FreshIdKeepsDistinct(st.orgs, o);
    r := Created(Store(orgs, MakeAdmin(st.profiles, ownerId)), 201);
  }

  /** Appending an organization under an unused id keeps the ids distinct. */
  lemma FreshIdKeepsDistinct(orgs: seq<OrganizationModel.Organization>, o: OrganizationModel.Organization)
    requires o.organizationID !in Ids(orgs)
    ensures DistinctIds(orgs) ==> DistinctIds(orgs + [o])
  {
    if DistinctIds(orgs) {
      var all := orgs + [o];
      forall i, j | 0 <= i < j < |all|
        ensures all[i].organizationID != all[j].organizationID
      {
        if j == |orgs| {
          assert all[i] == orgs[i];
        } else {
          assert all[i] == orgs[i] && all[j] == orgs[j];
        }
      }
    }
  }
}
