/** Subscription payments (models/Payment.js): the stored record, whether it
    is active and how many days it has left, an organization's active
    subscription, refund eligibility, and the refund a downgrade records.
    `new Date()` and `Date.now()` are the parameter `now`, in milliseconds. */
module PaymentModel {
  import opened Common

  /** The schema's `status` enum. */
  datatype Status = Pending | Completed | Failed | Refunded

  function StatusName(s: Status): string {
    match s
    case Pending => "pending"
    case Completed => "completed"
    case Failed => "failed"
    case Refunded => "refunded"
  }

  /** Schema validation of a status: exactly the four names are accepted. */
  function ParseStatus(s: string): (r: Option<Status>)
    ensures r.Some? ==> StatusName(r.value) == s
    ensures r.None? ==> forall t: Status :: StatusName(t) != s
  {
    if s == "pending" then Some(Pending)
    else if s == "completed" then Some(Completed)
    else if s == "failed" then Some(Failed)
    else if s == "refunded" then Some(Refunded)
    else None
  }

  /** The schema's `plan` and `billingCycle` enum. */
  datatype Plan = FreePlan | MonthlyPlan | AnnualPlan

  function PlanName(p: Plan): string {
    match p
    case FreePlan => "free"
    case MonthlyPlan => "monthly"
    case AnnualPlan => "annual"
  }

  function ParsePlan(s: string): (r: Option<Plan>)
    ensures r.Some? ==> PlanName(r.value) == s
    ensures r.None? ==> forall p: Plan :: PlanName(p) != s
  {
    if s == "free" then Some(FreePlan)
    else if s == "monthly" then Some(MonthlyPlan)
    else if s == "annual" then Some(AnnualPlan)
    else None
  }

  /** The schema's `paymentMethod` enum. */
  datatype Method = Card | Bank

  function MethodName(m: Method): string {
    match m
    case Card => "card"
    case Bank => "bank"
  }

  function ParseMethod(s: string): (r: Option<Method>)
    ensures r.Some? ==> MethodName(r.value) == s
    ensures r.None? ==> forall m: Method :: MethodName(m) != s
  {
    if s == "card" then Some(Card) else if s == "bank" then Some(Bank) else None
  }

  /** A stored payment.  `last4` is the card's or account's last four
      digits, `brand` the detected card brand; currency, addresses,
      transaction ids and gateway responses are not modelled. */
  datatype Payment = Payment(
    paymentId: string,
    amount: int,
    status: Status,
    plan: Plan,
    billingCycle: Plan,
    paymentMethod: Method,
    last4: Option<string>,
    brand: Option<string>,
    organizationID: string,
    userId: string,
    startDate: int,
    endDate: int,
    autoRenew: bool,
    originalPaymentId: Option<string>,
    refundedPaymentId: Option<string>,
    createdAt: int)

  /** The `isActive` virtual. */
  predicate IsActive(p: Payment, now: int) {
    p.status == Completed && now <= p.endDate
  }

  /** The `daysRemaining` virtual: whole days left rounded up, zero unless
      the payment is completed, never negative. */
  function DaysRemaining(p: Payment, now: int): (d: nat)
    ensures p.status != Completed || p.endDate <= now ==> d == 0
    ensures p.status == Completed && p.endDate > now ==>
      (d - 1) * DayMs < p.endDate - now <= d * DayMs
  {
    if p.status != Completed then 0 else Max(0, CeilDiv(p.endDate - now, DayMs))
  }

  /** Days remain exactly while the payment is active and its end instant
      has not been reached. */
  lemma DaysRemainingIffActive(p: Payment, now: int)
    ensures DaysRemaining(p, now) > 0 <==> IsActive(p, now) && now < p.endDate
  {
  }

  /** The filter of `getActiveSubscription`. */
  predicate Matches(p: Payment, org: string, now: int) {
    p.organizationID == org && p.status == Completed && p.endDate >= now
  }

  /** The query picks out exactly the organization's active payments. */
  lemma MatchesIsActive(p: Payment, org: string, now: int)
    ensures Matches(p, org, now) <==> p.organizationID == org && IsActive(p, now)
  {
  }

  /** `getActiveSubscription`: the index of the newest (greatest
      `createdAt`) matching payment; `None` when no payment matches. */
  function ActiveSubscription(ps: seq<Payment>, org: string, now: int): (r: Option<nat>)
    ensures r.Some? ==> r.value < |ps| && Matches(ps[r.value], org, now)
    ensures r.Some? ==> forall j :: 0 <= j < |ps| && Matches(ps[j], org, now) ==> ps[j].createdAt <= ps[r.value].createdAt
    ensures r.None? ==> forall j :: 0 <= j < |ps| ==> !Matches(ps[j], org, now)
    decreases |ps|
  {
    if ps == [] then None
    else
      var k := |ps| - 1;
      var r := ActiveSubscription(ps[..k], org, now);
      if Matches(ps[k], org, now) && (r.None? || ps[r.value].createdAt <= ps[k].createdAt) then Some(k)
      else r
  }

  /** `isEligibleForDowngradeRefund`. */
  predicate IsEligibleForDowngradeRefund(p: Payment, now: int) {
    if p.plan != AnnualPlan || p.status != Completed then false
    else if now >= p.endDate then false
    else CeilDiv(p.endDate - now, DayMs) >= 7
  }

  /** Eligible exactly when an annual, completed payment has more than six
      whole days left. */
  lemma EligibleIffWeekLeft(p: Payment, now: int)
    ensures IsEligibleForDowngradeRefund(p, now) <==>
      p.plan == AnnualPlan && p.status == Completed && p.endDate - now > 6 * DayMs
  {
  }

  /** `Math.round(n / d)` on the exact quotient: the nearest integer,
      halves rounded up. */
  function RoundDiv(n: int, d: int): (r: int)
    requires d != 0
    ensures d > 0 ==> 2 * r * d - d <= 2 * n < 2 * r * d + d
    ensures d < 0 ==> 2 * r * d + d < 2 * n <= 2 * r * d - d
  {
    if d > 0 then FloorDiv(2 * n + d, 2 * d) else FloorDiv(-2 * n - d, -2 * d)
  }

  /** Whole days left, rounded up (negative once the end has passed). */
  function RemainingDays(p: Payment, now: int): int {
    CeilDiv(p.endDate - now, DayMs)
  }

  /** Whole days of the paid period, rounded up. */
  function TotalDays(p: Payment): int {
    CeilDiv(p.endDate - p.startDate, DayMs)
  }

  /** The refund for the unused part of a payment: the amount times the
      share of days left, rounded.  With an empty period the quotient is not
      a finite number: `None`. */
  function RefundAmount(p: Payment, now: int): (r: Option<int>)
    ensures r.None? <==> TotalDays(p) == 0
    ensures r.Some? && TotalDays(p) > 0 ==>
      2 * r.value * TotalDays(p) - TotalDays(p) <= 2 * p.amount * RemainingDays(p, now) < 2 * r.value * TotalDays(p) + TotalDays(p)
  {
    var t := TotalDays(p);
    if t == 0 then None else Some(RoundDiv(p.amount * RemainingDays(p, now), t))
  }

  /** The refund record `createDowngradeRefund` saves. */
  function RefundRecord(orig: Payment, userId: string, now: int, refund: int): Payment {
    Payment("REFUND_" + orig.paymentId + "_" + IntToString(now), -refund, Refunded,
            orig.plan, orig.billingCycle, orig.paymentMethod, None, None, orig.organizationID, userId,
            now, orig.endDate, false, Some(orig.paymentId), Some(orig.paymentId), now)
  }

  /** `createDowngradeRefund`: the original payment at index `i` becomes
      refunded and a negative, linked refund record is appended. */
  function CreateDowngradeRefund(ps: seq<Payment>, i: nat, userId: string, now: int, refund: int): (r: seq<Payment>)
    requires i < |ps|
    ensures |r| == |ps| + 1
    ensures r[i] == ps[i].(status := Refunded)
    ensures forall j :: 0 <= j < |ps| && j != i ==> r[j] == ps[j]
    ensures r[|ps|].status == Refunded && r[|ps|].amount == -refund
    ensures r[|ps|].originalPaymentId == Some(ps[i].paymentId) && r[|ps|].refundedPaymentId == Some(ps[i].paymentId)
    ensures r[|ps|].organizationID == ps[i].organizationID && r[|ps|].endDate == ps[i].endDate && !r[|ps|].autoRenew
  {
    ps[i := ps[i].(status := Refunded)] + [RefundRecord(ps[i], userId, now, refund)]
  }

  /** After the refund neither the original payment nor the refund record
      is active at any time, so the active subscription is some other
      payment, if any. */
  lemma RefundRetiresSubscription(ps: seq<Payment>, i: nat, userId: string, now: int, refund: int, org: string, t: int)
    requires i < |ps|
    ensures var r := CreateDowngradeRefund(ps, i, userId, now, refund);
      !IsActive(r[i], t) && !IsActive(r[|ps|], t) &&
      ActiveSubscription(r, org, t) != Some(i) && ActiveSubscription(r, org, t) != Some(|ps|)
  {
  }
}

/** The subscription handlers (controllers/paymentController.js): card-brand
    detection, processing a payment, cancelling, downgrading and upgrading,
    the refund quote, premium activation across an organization, and the
    payment-history page.  Calendar arithmetic (`setMonth`, `setFullYear`)
    is the `Clock` parameter; the payment gateway's verdict and the
    generated payment id are parameters. */
module Billing {
  import opened Common
  import opened PaymentModel
  import UserModel
  import OrganizationModel
  import PremiumLimits
  import Paging

  // ---------------------------------------------------------------------
  // Card details
  // ---------------------------------------------------------------------

  /** `cardNumber.replace(/\s/g, '')`. */
  function StripSpaces(s: string): (r: string)
    ensures |r| <= |s|
    ensures forall k :: 0 <= k < |r| ==> !IsSpace(r[k])
  {
    if s == [] then [] else (if IsSpace(s[0]) then [] else [s[0]]) + StripSpaces(s[1..])
  }

  lemma {:induction false} StripSpacesAppend(a: string, b: string)
    ensures StripSpaces(a + b) == StripSpaces(a) + StripSpaces(b)
  {
    if a == [] {
      assert a + b == b;
    } else {
      assert (a + b)[1..] == a[1..] + b;
      StripSpacesAppend(a[1..], b);
    }
  }

  lemma {:induction false} StripSpacesOfClean(s: string)
    requires forall k :: 0 <= k < |s| ==> !IsSpace(s[k])
    ensures StripSpaces(s) == s
  {
    if s != [] {
      StripSpacesOfClean(s[1..]);
    }
  }

  datatype Brand = Visa | Mastercard | Amex | Discover | UnknownBrand

  function BrandName(b: Brand): string {
    match b
    case Visa => "visa"
    case Mastercard => "mastercard"
    case Amex => "amex"
    case Discover => "discover"
    case UnknownBrand => "unknown"
  }

  /** The brand of a number without whitespace, by its leading digits. */
  function BrandOf(c: string): (b: Brand)
    ensures b == Visa <==> |c| >= 1 && c[0] == '4'
    ensures b == Mastercard <==> |c| >= 2 && c[0] == '5' && '1' <= c[1] <= '5'
    ensures b == Amex <==> |c| >= 2 && c[0] == '3' && (c[1] == '4' || c[1] == '7')
    ensures b == Discover <==> |c| >= 1 && c[0] == '6'
  {
    if |c| >= 1 && c[0] == '4' then Visa
    else if |c| >= 2 && c[0] == '5' && '1' <= c[1] <= '5' then Mastercard
    else if |c| >= 2 && c[0] == '3' && (c[1] == '4' || c[1] == '7') then Amex
    else if |c| >= 1 && c[0] == '6' then Discover
    else UnknownBrand
  }

  /** `getCardBrand`. */
  function GetCardBrand(cardNumber: string): Brand {
    BrandOf(StripSpaces(cardNumber))
  }

  /** Whitespace anywhere in the number does not change its brand, and a
      number printed in groups has the brand of its digits. */
  lemma BrandIgnoresSpaces(a: string, b: string, c: char)
    requires IsSpace(c)
    ensures GetCardBrand(a + [c] + b) == GetCardBrand(a + b)
    ensures GetCardBrand(StripSpaces(a)) == GetCardBrand(a)
  {
    StripSpacesAppend(a + [c], b);
    StripSpacesAppend(a, [c]);
    StripSpacesAppend(a, b);
    assert StripSpaces([c]) == [];
    StripSpacesOfClean(StripSpaces(a));
  }

  /** `s.slice(-4)`: the last four characters, or all of a shorter string. */
  function Last4(s: string): (r: string)
    ensures |r| == (if |s| < 4 then |s| else 4)
    ensures s == s[..|s| - |r|] + r
  {
    if |s| < 4 then s else s[|s| - 4..]
  }

  // ---------------------------------------------------------------------
  // Premium across an organization
  // ---------------------------------------------------------------------

  /** The instants one calendar month and one calendar year after `now`. */
  datatype Clock = Clock(now: int, monthLater: int, yearLater: int)

  /** The end of a period that starts now. */
  function PeriodEnd(c: Clock, p: Plan): int {
    match p
    case FreePlan => c.now
    case MonthlyPlan => c.monthLater
    case AnnualPlan => c.yearLater
  }

  function UserPlan(p: Plan): Option<UserModel.Plan> {
    match p
    case FreePlan => None
    case MonthlyPlan => Some(UserModel.Monthly)
    case AnnualPlan => Some(UserModel.Annual)
  }

  predicate InOrg(m: PremiumLimits.Member, org: string) {
    m.organizationID == Some(org)
  }

  /** `User.find({ organizationID })`. */
  function OrgUsers(db: PremiumLimits.Db, org: string): (r: set<string>)
    ensures forall u :: u in r <==> u in db.users && InOrg(db.users[u], org)
  {
    set u | u in db.users && InOrg(db.users[u], org)
  }

  /** `activateOrganizationPremium`: every user of the organization gets the
      plan with the same start and end, and the organization is marked
      premium.  An unknown organization throws; so does the free plan when
      the organization has users, because a user's plan may not be "free". */
  function ActivateOrganizationPremium(db: PremiumLimits.Db, org: string, plan: Plan, c: Clock): (r: Reply<PremiumLimits.Db>)
    ensures r.Err? <==> org !in db.orgs || (plan == FreePlan && OrgUsers(db, org) != {})
    ensures r.Err? ==> r.code == 500
    ensures r.Ok? ==> r.value.orgs.Keys == db.orgs.Keys && r.value.users.Keys == db.users.Keys
    ensures r.Ok? ==> var o := r.value.orgs[org];
      o.isPremium && o.plan == PlanName(plan) && o.startDate == Some(c.now) && o.endDate == Some(PeriodEnd(c, plan)) &&
      o.counters == db.orgs[org].counters
  {
    if org !in db.orgs then Err(500)
    else if plan == FreePlan && OrgUsers(db, org) != {} then Err(500)
    else
      var end := PeriodEnd(c, plan);
      var users := map u | u in db.users ::
        if InOrg(db.users[u], org) && UserPlan(plan).Some?
        then db.users[u].(account := UserModel.ActivatePremium(db.users[u].account, UserPlan(plan).value, c.now, end))
        else db.users[u];
      var o := db.orgs[org].(isPremium := true, plan := PlanName(plan), startDate := Some(c.now), endDate := Some(end));
      Ok(PremiumLimits.Db(users, db.orgs[org := o]))
  }

  /** After activation every user of the organization holds the plan with
      the same dates and is active until the end; no other user and no
      other organization changes. */
  lemma ActivateEffect(db: PremiumLimits.Db, org: string, plan: Plan, c: Clock, u: string, t: int)
    requires ActivateOrganizationPremium(db, org, plan, c).Ok?
    requires u in db.users
    ensures var r := ActivateOrganizationPremium(db, org, plan, c).value;
      (InOrg(db.users[u], org) ==>
        r.users[u].account.plan == UserPlan(plan) &&
        r.users[u].account.startDate == Some(c.now) && r.users[u].account.endDate == Some(PeriodEnd(c, plan)) &&
        (UserModel.IsSubscriptionActive(r.users[u].account, t) <==> t <= PeriodEnd(c, plan)) &&
        r.users[u].account.usage == db.users[u].account.usage) &&
      (!InOrg(db.users[u], org) ==> r.users[u] == db.users[u]) &&
      (forall o :: o in db.orgs && o != org ==> r.orgs[o] == db.orgs[o])
  {
  }

  /** `deactivateOrganizationPremium`. */
  function DeactivateOrganizationPremium(db: PremiumLimits.Db, org: string): (r: Reply<PremiumLimits.Db>)
    ensures r.Err? <==> org !in db.orgs
    ensures r.Err? ==> r.code == 500
    ensures r.Ok? ==> r.value.orgs.Keys == db.orgs.Keys && r.value.users.Keys == db.users.Keys
    ensures r.Ok? ==> var o := r.value.orgs[org];
      !o.isPremium && o.plan == "free" && o.startDate.None? && o.endDate.None? && o.counters == db.orgs[org].counters
  {
    if org !in db.orgs then Err(500)
    else
      var users := map u | u in db.users ::
        if InOrg(db.users[u], org) then db.users[u].(account := UserModel.DeactivatePremium(db.users[u].account))
        else db.users[u];
      var o := db.orgs[org].(isPremium := false, plan := "free", startDate := None, endDate := None);
      Ok(PremiumLimits.Db(users, db.orgs[org := o]))
  }

  /** After deactivation no user of the organization is active at any time,
      their usage is kept, and everyone else is untouched. */
  lemma DeactivateEffect(db: PremiumLimits.Db, org: string, u: string, t: int)
    requires org in db.orgs && u in db.users
    ensures var r := DeactivateOrganizationPremium(db, org).value;
      (InOrg(db.users[u], org) ==>
        !UserModel.IsSubscriptionActive(r.users[u].account, t) && r.users[u].account.tier == UserModel.Free &&
        r.users[u].account.usage == db.users[u].account.usage) &&
      (!InOrg(db.users[u], org) ==> r.users[u] == db.users[u])
  {
  }

  /** `isOrgAdmin`: false for an unknown organization; a missing user id
      throws once the organization is found. */
  function IsOrgAdmin(db: PremiumLimits.Db, org: string, userId: Option<string>): (r: Reply<bool>)
    ensures r == Ok(true) <==> org in db.orgs && userId.Some? && db.orgs[org].owner == userId.value
    ensures r.Err? <==> org in db.orgs && userId.None?
  {
    if org !in db.orgs then Ok(false)
    else if userId.None? then Err(500)
    else Ok(db.orgs[org].owner == userId.value)
  }

  // ---------------------------------------------------------------------
  // Handlers
  // ---------------------------------------------------------------------

  datatype Store = Store(payments: seq<Payment>, db: PremiumLimits.Db)

  /** A handler's effect and HTTP status (200 on success). */
  datatype Response = Response(store: Store, status: nat)

  datatype PaymentRequest = PaymentRequest(
    plan: Option<string>,
    amount: Option<int>,
    paymentMethod: Option<string>,
    organizationID: Option<string>,
    userId: Option<string>,
    cardNumber: Option<string>,
    accountNumber: Option<string>)

  /** The required-field check: every field present, and a non-zero
      amount. */
  predicate HasRequiredFields(q: PaymentRequest) {
    Truthy(q.plan) && q.amount.Some? && q.amount.value != 0 && Truthy(q.paymentMethod) &&
    Truthy(q.organizationID) && Truthy(q.userId)
  }

  /** The number whose last four digits are stored, if the method needs one. */
  function AccountNumber(q: PaymentRequest): Option<string>
    requires q.paymentMethod.Some?
  {
    if q.paymentMethod.value == "card" then q.cardNumber
    else if q.paymentMethod.value == "bank" then q.accountNumber
    else Some("")
  }

  /** The record `processPayment` saves, given a request that passed the
      checks and the gateway's verdict. */
  function NewPayment(q: PaymentRequest, c: Clock, paymentId: string, approved: bool, plan: Plan, m: Method): Payment
    requires HasRequiredFields(q) && AccountNumber(q).Some?
  {
    var number := AccountNumber(q).value;
    Payment(paymentId, q.amount.value, if approved then Completed else Failed, plan, plan, m,
            Some(Last4(number)), if m == Card then Some(BrandName(GetCardBrand(number))) else None,
            q.organizationID.value, q.userId.value, c.now, PeriodEnd(c, plan), true, None, None, c.now)
  }

  /** `processPayment`.  Missing fields give 400 before anything is stored;
      a missing card or account number throws (500); a plan or method
      outside the schema's enums fails validation on save (500).
      Otherwise the record is saved as completed or failed according to
      the gateway; a failure answers 400 and leaves premium untouched, a
      success activates the organization (500 if that throws, with the
      payment already saved). */
  function ProcessPayment(st: Store, q: PaymentRequest, c: Clock, paymentId: string, approved: bool): (r: Response)
    ensures !HasRequiredFields(q) ==> r == Response(st, 400)
    ensures r.store.payments == st.payments ||
      (HasRequiredFields(q) && |r.store.payments| == |st.payments| + 1 && r.store.payments[..|st.payments|] == st.payments)
    ensures |r.store.payments| == |st.payments| + 1 ==>
      var p := r.store.payments[|st.payments|];
      (p.status == Completed <==> approved) && p.amount == q.amount.value &&
      PlanName(p.plan) == q.plan.value && p.organizationID == q.organizationID.value &&
      p.last4.Some? && |p.last4.value| <= 4
    ensures !approved ==> r.store.db == st.db && r.status != 200
    ensures r.status == 200 ==>
      (approved && |r.store.payments| == |st.payments| + 1 &&
       q.organizationID.value in r.store.db.orgs && r.store.db.orgs[q.organizationID.value].isPremium)
  {
    if !HasRequiredFields(q) then Response(st, 400)
    else if AccountNumber(q).None? then Response(st, 500)
    else
      match (ParsePlan(q.plan.value), ParseMethod(q.paymentMethod.value))
      case (Some(plan), Some(m)) =>
        var p := NewPayment(q, c, paymentId, approved, plan, m);
        var saved := st.(payments := st.payments + [p]);
        if !approved then Response(saved, 400)
        else
          (match ActivateOrganizationPremium(st.db, q.organizationID.value, plan, c)
           case Ok(db) => Response(saved.(db := db), 200)
           case Err(_) => Response(saved, 500))
      case _ => Response(st, 500)
  }

  /** `getPremiumUsers`: users of the organization that are premium with
      an end date not yet passed. */
  function PremiumUsers(db: PremiumLimits.Db, org: string, now: int): (r: set<string>)
    ensures r <= OrgUsers(db, org)
    ensures forall u :: u in r <==> u in OrgUsers(db, org) && UserModel.IsSubscriptionActive(db.users[u].account, now)
  {
    set u | u in OrgUsers(db, org) && UserModel.IsSubscriptionActive(db.users[u].account, now)
  }

  /** Until the end of a paid period every user of the organization is
      reported premium; after deactivation none is. */
  lemma PremiumUsersAfterActivation(db: PremiumLimits.Db, org: string, plan: Plan, c: Clock, t: int)
    requires plan != FreePlan && org in db.orgs
    ensures var r := ActivateOrganizationPremium(db, org, plan, c).value;
      PremiumUsers(r, org, t) == (if t <= PeriodEnd(c, plan) then OrgUsers(db, org) else {})
    ensures PremiumUsers(DeactivateOrganizationPremium(db, org).value, org, t) == {}
  {
    var r := ActivateOrganizationPremium(db, org, plan, c).value;
    forall u | u in r.users
      ensures u in PremiumUsers(r, org, t) <==> u in OrgUsers(db, org) && t <= PeriodEnd(c, plan)
    {
      ActivateEffect(db, org, plan, c, u, t);
    }
    var d := DeactivateOrganizationPremium(db, org).value;
    forall u | u in d.users
      ensures u !in PremiumUsers(d, org, t)
    {
      DeactivateEffect(db, org, u, t);
    }
  }

  /** The subscription part of `getSubscriptionStatus`. */
  datatype SubscriptionStatus = SubscriptionStatus(hasActiveSubscription: bool, subscription: Option<Payment>, premiumUsersCount: nat)

  function GetSubscriptionStatus(st: Store, org: string, now: int): (r: SubscriptionStatus)
    ensures r.hasActiveSubscription <==> r.subscription.Some?
    ensures r.subscription.Some? ==> IsActive(r.subscription.value, now) && r.subscription.value.organizationID == org
    ensures !r.hasActiveSubscription <==> forall j :: 0 <= j < |st.payments| ==> !Matches(st.payments[j], org, now)
    ensures r.premiumUsersCount <= |OrgUsers(st.db, org)|
  {
    var a := ActiveSubscription(st.payments, org, now);
    var premium := PremiumUsers(st.db, org, now);
    assert premium <= OrgUsers(st.db, org);
    SubsetCard(premium, OrgUsers(st.db, org));
    SubscriptionStatus(a.Some?, if a.Some? then Some(st.payments[a.value]) else None, |premium|)
  }

  lemma SubsetCard<T>(a: set<T>, b: set<T>)
    requires a <= b
    ensures |a| <= |b|
  {
    if a != {} {
      var x :| x in a;
      SubsetCard(a - {x}, b - {x});
    }
  }

  /** `cancelSubscription`: 404 without an active subscription, 403 unless
      the requester owns the organization; then auto-renewal is switched
      off and premium is deactivated for the whole organization. */
  function CancelSubscription(st: Store, org: string, userId: Option<string>, now: int): (r: Response)
    ensures ActiveSubscription(st.payments, org, now).None? ==> r == Response(st, 404)
    ensures ActiveSubscription(st.payments, org, now).Some? && IsOrgAdmin(st.db, org, userId) == Ok(false) ==> r == Response(st, 403)
    ensures r.status == 200 <==> ActiveSubscription(st.payments, org, now).Some? && IsOrgAdmin(st.db, org, userId) == Ok(true)
    ensures r.status == 200 ==>
      (var i := ActiveSubscription(st.payments, org, now).value;
       r.store.payments == st.payments[i := st.payments[i].(autoRenew := false)] &&
       r.store.db == DeactivateOrganizationPremium(st.db, org).value)
  {
    match ActiveSubscription(st.payments, org, now)
    case None => Response(st, 404)
    case Some(i) =>
      match IsOrgAdmin(st.db, org, userId)
      case Err(code) => Response(st, code)
      case Ok(false) => Response(st, 403)
      case Ok(true) =>
        var ps := st.payments[i := st.payments[i].(autoRenew := false)];
        match DeactivateOrganizationPremium(st.db, org)
        case Ok(db) => Response(Store(ps, db), 200)
        case Err(code) => Response(st.(payments := ps), code)
  }

  /** The price and length of the plan a downgrade to monthly records. */
  const MonthlyPrice: int := 99
  const MonthlyDays: int := 30
  /** The price and length of the plan an upgrade to annual records. */
  const AnnualPrice: int := 708
  const AnnualDays: int := 365

  /** The checks shared by downgrade and its quote, after the plan and the
      active subscription are known: `Ok(true)` when a refund is to be
      made, `Ok(false)` when none is due, or the status that refuses. */
  function RefundCheck(p: Payment, newPlan: string, now: int): (r: Reply<bool>)
    requires newPlan == "monthly" || newPlan == "free"
    ensures newPlan == "free" ==> (r == Ok(true) <==> p.status == Completed && now < p.endDate)
    ensures newPlan == "free" ==> (r.Err? <==> !(p.status == Completed && now < p.endDate))
    ensures newPlan == "monthly" && p.plan == AnnualPlan ==>
      (r == Ok(true) <==> IsEligibleForDowngradeRefund(p, now)) && (r.Err? <==> !IsEligibleForDowngradeRefund(p, now))
    ensures newPlan == "monthly" && p.plan != AnnualPlan ==> r == Ok(false)
    ensures r.Err? ==> r.code == 400
  {
    if newPlan == "free" then
      if p.status != Completed then Err(400)
      else if now >= p.endDate || CeilDiv(p.endDate - now, DayMs) < 1 then Err(400)
      else Ok(true)
    else if p.plan == AnnualPlan then
      if !IsEligibleForDowngradeRefund(p, now) then Err(400) else Ok(true)
    else Ok(false)
  }

  /** `downgradeSubscription`.  In order: the new plan must be "monthly" or
      "free" (400), an active subscription must exist (404), the requester
      must own the organization (403); then the refund checks (400), the
      refund (500 if its amount is not a finite number), and finally either
      a new 30-day monthly payment of 99 with monthly premium, or
      deactivation for the free plan. */
  function DowngradeSubscription(st: Store, org: string, newPlan: Option<string>, userId: Option<string>, c: Clock): (r: Response)
    ensures !(newPlan == Some("monthly") || newPlan == Some("free")) ==> r == Response(st, 400)
    ensures (newPlan == Some("monthly") || newPlan == Some("free")) && ActiveSubscription(st.payments, org, c.now).None? ==> r == Response(st, 404)
    ensures ((newPlan == Some("monthly") || newPlan == Some("free")) && ActiveSubscription(st.payments, org, c.now).Some? &&
             IsOrgAdmin(st.db, org, userId) == Ok(false)) ==> r == Response(st, 403)
    ensures r.status == 200 ==> newPlan.Some? && ActiveSubscription(st.payments, org, c.now).Some? && IsOrgAdmin(st.db, org, userId) == Ok(true)
    ensures r.status != 200 && r.status != 500 ==> r.store == st
    ensures r.status == 200 && newPlan == Some("free") ==> r.store.db == DeactivateOrganizationPremium(st.db, org).value
    ensures r.status == 200 && newPlan == Some("monthly") ==>
      |r.store.payments| > |st.payments| &&
      var p := r.store.payments[|r.store.payments| - 1];
      p.amount == MonthlyPrice && p.plan == MonthlyPlan && p.status == Completed &&
      p.endDate == c.now + MonthlyDays * DayMs && r.store.db == ActivateOrganizationPremium(st.db, org, MonthlyPlan, c).value
  {
    if !(newPlan == Some("monthly") || newPlan == Some("free")) then Response(st, 400)
    else
      match ActiveSubscription(st.payments, org, c.now)
      case None => Response(st, 404)
      case Some(i) =>
        match IsOrgAdmin(st.db, org, userId)
        case Err(code) => Response(st, code)
        case Ok(false) => Response(st, 403)
        case Ok(true) =>
          var active := st.payments[i];
          match RefundCheck(active, newPlan.value, c.now)
          case Err(code) => Response(st, code)
          case Ok(refundDue) =>
            var amount := RefundAmount(active, c.now);
            if refundDue && amount.None? then Response(st, 500)
            else
              var ps := if refundDue then CreateDowngradeRefund(st.payments, i, userId.value, c.now, amount.value) else st.payments;
              if newPlan.value == "monthly" then
                var monthly := Payment("MONTHLY_" + IntToString(c.now), MonthlyPrice, Completed, MonthlyPlan, MonthlyPlan,
                                       active.paymentMethod, None, None, org, userId.value, c.now, c.now + MonthlyDays * DayMs,
                                       true, Some(active.paymentId), None, c.now);
                var ps' := ps + [monthly];
                match ActivateOrganizationPremium(st.db, org, MonthlyPlan, c)
                case Ok(db) => Response(Store(ps', db), 200)
                case Err(code) => Response(Store(ps', st.db), code)
              else
                match DeactivateOrganizationPremium(st.db, org)
                case Ok(db) => Response(Store(ps, db), 200)
                case Err(code) => Response(Store(ps, st.db), code)
  }

  /** The reply of `calculateDowngradeRefund`.  A refund that is not a
      finite number is `None`. */
  datatype Quote = Quote(refundAmount: Option<int>, remainingDays: int, totalDays: int, originalAmount: int)

  /** `calculateDowngradeRefund`: the same plan and subscription checks as
      the downgrade, without the owner check, except that a monthly
      subscription asked to go monthly is refused (400) here while the
      downgrade itself goes ahead without a refund. */
  function CalculateDowngradeRefund(st: Store, org: string, newPlan: Option<string>, now: int): (r: Reply<Quote>)
    ensures !(newPlan == Some("monthly") || newPlan == Some("free")) ==> r == Err(400)
    ensures (newPlan == Some("monthly") || newPlan == Some("free")) && ActiveSubscription(st.payments, org, now).None? ==> r == Err(404)
    ensures r.Ok? ==> var p := st.payments[ActiveSubscription(st.payments, org, now).value];
      r.value == Quote(RefundAmount(p, now), RemainingDays(p, now), TotalDays(p), p.amount)
  {
    if !(newPlan == Some("monthly") || newPlan == Some("free")) then Err(400)
    else
      match ActiveSubscription(st.payments, org, now)
      case None => Err(404)
      case Some(i) =>
        var p := st.payments[i];
        if newPlan.value == "monthly" && p.plan != AnnualPlan then Err(400)
        else
          match RefundCheck(p, newPlan.value, now)
          case Err(code) => Err(code)
          case Ok(_) => Ok(Quote(RefundAmount(p, now), RemainingDays(p, now), TotalDays(p), p.amount))
  }

  /** A quote and the downgrade it describes agree: when the quote is given
      and the owner downgrades at the same instant, the recorded refund is
      the negated quoted amount. */
  lemma QuoteMatchesDowngrade(st: Store, org: string, newPlan: Option<string>, userId: Option<string>, c: Clock)
    requires CalculateDowngradeRefund(st, org, newPlan, c.now).Ok?
    requires CalculateDowngradeRefund(st, org, newPlan, c.now).value.refundAmount.Some?
    requires IsOrgAdmin(st.db, org, userId) == Ok(true)
    ensures var r := DowngradeSubscription(st, org, newPlan, userId, c);
      r.status == 200 &&
      r.store.payments[|st.payments|].amount == -CalculateDowngradeRefund(st, org, newPlan, c.now).value.refundAmount.value &&
      r.store.payments[|st.payments|].status == Refunded
  {
  }

  /** The quote refuses a monthly subscription asked to go monthly, yet the
      owner's downgrade succeeds and records a new monthly payment without
      a refund. */
  lemma QuoteStricterThanDowngrade(st: Store, org: string, userId: Option<string>, c: Clock)
    requires ActiveSubscription(st.payments, org, c.now).Some?
    requires st.payments[ActiveSubscription(st.payments, org, c.now).value].plan == MonthlyPlan
    requires IsOrgAdmin(st.db, org, userId) == Ok(true)
    ensures CalculateDowngradeRefund(st, org, Some("monthly"), c.now) == Err(400)
    ensures var r := DowngradeSubscription(st, org, Some("monthly"), userId, c);
      r.status == 200 && |r.store.payments| == |st.payments| + 1
  {
  }

  /** `upgradeSubscription`: only "annual" (400), then 404 and 403 as for a
      downgrade; records a 365-day annual payment of 708 and makes the
      organization annual premium. */
  function UpgradeSubscription(st: Store, org: string, newPlan: Option<string>, userId: Option<string>, c: Clock): (r: Response)
    ensures newPlan != Some("annual") ==> r == Response(st, 400)
    ensures newPlan == Some("annual") && ActiveSubscription(st.payments, org, c.now).None? ==> r == Response(st, 404)
    ensures (newPlan == Some("annual") && ActiveSubscription(st.payments, org, c.now).Some? &&
             IsOrgAdmin(st.db, org, userId) == Ok(false)) ==> r == Response(st, 403)
    ensures r.status == 200 <==> newPlan == Some("annual") && ActiveSubscription(st.payments, org, c.now).Some? && IsOrgAdmin(st.db, org, userId) == Ok(true)
    ensures r.status == 200 ==>
      |r.store.payments| == |st.payments| + 1 && r.store.payments[..|st.payments|] == st.payments &&
      var p := r.store.payments[|st.payments|];
      p.amount == AnnualPrice && p.plan == AnnualPlan && p.status == Completed && p.endDate == c.now + AnnualDays * DayMs &&
      r.store.db == ActivateOrganizationPremium(st.db, org, AnnualPlan, c).value
  {
    if newPlan != Some("annual") then Response(st, 400)
    else
      match ActiveSubscription(st.payments, org, c.now)
      case None => Response(st, 404)
      case Some(i) =>
        match IsOrgAdmin(st.db, org, userId)
        case Err(code) => Response(st, code)
        case Ok(false) => Response(st, 403)
        case Ok(true) =>
          var active := st.payments[i];
          var annual := Payment("ANNUAL_" + IntToString(c.now), AnnualPrice, Completed, AnnualPlan, AnnualPlan,
                                active.paymentMethod, None, None, org, userId.value, c.now, c.now + AnnualDays * DayMs,
                                true, Some(active.paymentId), None, c.now);
          match ActivateOrganizationPremium(st.db, org, AnnualPlan, c)
          case Ok(db) => Response(Store(st.payments + [annual], db), 200)
          case Err(code) => Response(Store(st.payments + [annual], st.db), code)
  }

  /** The upgrade's new payment is the organization's active subscription
      for the whole year it pays for, provided it is the newest record. */
  lemma UpgradeBecomesActive(st: Store, org: string, userId: Option<string>, c: Clock, t: int)
    requires UpgradeSubscription(st, org, Some("annual"), userId, c).status == 200
    requires forall j :: 0 <= j < |st.payments| ==> st.payments[j].createdAt < c.now
    requires c.now <= t <= c.now + AnnualDays * DayMs
    ensures ActiveSubscription(UpgradeSubscription(st, org, Some("annual"), userId, c).store.payments, org, t) == Some(|st.payments|)
  {
  }

  // ---------------------------------------------------------------------
  // Payment history
  // ---------------------------------------------------------------------

  /** The organization's payments, newest first.  Payments are appended
      with the current time, so the newest record is the last one. */
  function NewestFirst(ps: seq<Payment>, org: string): (r: seq<Payment>)
    ensures |r| <= |ps|
    ensures forall x :: x in r <==> x in ps && x.organizationID == org
    decreases |ps|
  {
    if ps == [] then []
    else
      var last := ps[|ps| - 1];
      (if last.organizationID == org then [last] else []) + NewestFirst(ps[..|ps| - 1], org)
  }

  /** The `pagination` object of the history responses. */
  datatype Pagination = Pagination(current: int, total: Option<int>, hasNext: bool, hasPrev: bool)

  datatype HistoryPage = HistoryPage(payments: seq<Payment>, pagination: Pagination)

  /** `getPaymentHistory` as written: the skip is computed for the
      pagination object but never applied to the query, so every page lists
      the newest `limit` payments. */
  function PaymentHistory(ps: seq<Payment>, org: string, limit: Option<int>, page: Option<int>): (r: HistoryPage)
    ensures var all := NewestFirst(ps, org);
      var l := if limit.Some? then limit.value else 10;
      var p := if page.Some? then page.value else 1;
      r.payments == Paging.Limit(all, l) &&
      (r.pagination.hasPrev <==> p > 1) &&
      (r.pagination.hasNext <==> (p - 1) * l + |r.payments| < |all|) &&
      r.pagination.total == Paging.TotalPages(|all|, l)
  {
    var all := NewestFirst(ps, org);
    var l := if limit.Some? then limit.value else 10;
    var p := if page.Some? then page.value else 1;
    var items := Paging.Limit(all, l);
    HistoryPage(items, Pagination(p, Paging.TotalPages(|all|, l), (p - 1) * l + |items| < |all|, p > 1))
  }

  /** With fifteen payments and ten per page, the second page repeats the
      first page's ten payments and reports no next page, so the five
      oldest payments are on no page at all. */
  lemma HistorySecondPageRepeatsFirst(ps: seq<Payment>, org: string)
    requires |NewestFirst(ps, org)| == 15
    ensures var one := PaymentHistory(ps, org, Some(10), Some(1));
      var two := PaymentHistory(ps, org, Some(10), Some(2));
      two.payments == one.payments && |one.payments| == 10 &&
      one.pagination.hasNext && !two.pagination.hasNext
  {
  }

  /** The history with the skip applied: page `p` lists the `p`-th window
      of `limit` payments.  MongoDB rejects a negative skip (500). */
  function PaymentHistoryPaged(ps: seq<Payment>, org: string, limit: Option<int>, page: Option<int>): (r: Reply<HistoryPage>)
    ensures var l := if limit.Some? then limit.value else 10;
      var p := if page.Some? then page.value else 1;
      r.Err? <==> (p - 1) * l < 0
    ensures r.Ok? ==> var all := NewestFirst(ps, org);
      var l := if limit.Some? then limit.value else 10;
      var p := if page.Some? then page.value else 1;
      (r.value.pagination.hasPrev <==> p > 1) &&
      (r.value.pagination.hasNext <==> (p - 1) * l + |r.value.payments| < |all|)
  {
    var all := NewestFirst(ps, org);
    var l := if limit.Some? then limit.value else 10;
    var p := if page.Some? then page.value else 1;
    var skip := (p - 1) * l;
    if skip < 0 then Err(500)
    else
      var items := Paging.Window(all, skip, l);
      Ok(HistoryPage(items, Pagination(p, Paging.TotalPages(|all|, l), skip + |items| < |all|, p > 1)))
  }

  /** With the skip applied, the pages of a positive limit list every
      payment exactly once, in order, and a page reports a next page exactly
      when older payments remain. */
  lemma PagedHistoryTiles(ps: seq<Payment>, org: string, l: nat, p: nat)
    requires l >= 1 && p >= 1
    ensures PaymentHistoryPaged(ps, org, Some(l), Some(p)).Ok?
    ensures var r := PaymentHistoryPaged(ps, org, Some(l), Some(p)).value;
      r.payments == Paging.Window(NewestFirst(ps, org), Paging.Offset(p - 1, l), l) &&
      (r.pagination.hasNext <==> p * l < |NewestFirst(ps, org)|)
    ensures Paging.Pages(NewestFirst(ps, org), l, p) ==
      NewestFirst(ps, org)[..Paging.Clip(Paging.Offset(p, l), |NewestFirst(ps, org)|)]
  {
    Paging.HasNextIffMore(NewestFirst(ps, org), p, l);
    Paging.PagesTile(NewestFirst(ps, org), l, p);
  }
}
