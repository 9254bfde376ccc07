/**
 Payments, purchases and entitlements (packages/commerce/src/service.ts): the
 records of one deployment as a value, and every transaction that writes a
 payment, a refund, a purchase, a gift or a grant as a function on them.

 A transaction either returns the new records or an error, after which the
 records are as before.  Hashed ids are structured keys; one clock reading is
 taken per transaction.
 */
module Commerce {
  import opened Common
  import Money
  import Calendar

  datatype Environment = Sandbox | Live

  datatype Scope = Scope(owner: string, environment: Environment)

  datatype Benefit =
    | Gallery(resourceId: string)
    | Download(resourceId: string)
    | Package(resourceId: string)
    | DiscordRole(resourceId: string, guildId: string, roleId: string)

  datatype External = External(mappingId: string, validated: bool)

  datatype Offer = Offer(
    id: string, scope: Scope, offerId: string, version: int, billing: Option<Calendar.Interval>, hasRoots: bool,
    connectionId: string, merchantId: string, currency: string, amountMinor: int,
    benefits: seq<Benefit>, files: seq<string>, durationSeconds: Option<int>, external: Option<External>)

  datatype OrderState = Creating | Waiting | Done | Failing | InReview

  datatype Checkout = Checkout(
    id: string, scope: Scope, customerId: string, offerVersionId: string, billing: Option<Calendar.Interval>,
    subscriptionState: string, connectionId: string, merchantId: string, currency: string, amountMinor: int,
    reference: string, providerOrderId: Option<string>, providerPlanId: Option<string>,
    state: OrderState, reviewReason: Option<Reason>)

  datatype Status = Pending | PaidUp | Failed | PartiallyRefunded | Refunded | Reversed | NeedsReview

  datatype Reason =
    | AmbiguousOfferMapping | UnknownOfferMapping | UnsupportedConfiguration | OrderOrMerchantMismatch
    | SubscriptionPlanMismatch | SubscriptionPeriodMissing | AmountOrCurrencyMismatch | BuyerEmailRequired
    | PaymentIdentityMismatch | RefundTotalExceedsPayment | PartialRefundKeepsAccess

  datatype PaymentKey = PaymentKey(scope: Scope, merchantId: string, captureId: string)

  datatype Payment = Payment(
    connectionId: string, checkoutId: Option<string>, offerVersionId: Option<string>, currency: string,
    paidMinor: int, refundedMinor: int, state: Status, providerUpdatedAt: int, reviewReason: Option<Reason>)

  datatype Refund = Refund(amountMinor: int, state: string)

  datatype AccessState = Active | Revoked

  // A purchase's key is its payment's.
  datatype Purchase = Purchase(
    offerVersionId: string, contentOfferVersionId: Option<string>, customerId: Option<string>,
    buyerEmail: Option<string>, state: AccessState, claimedAt: Option<int>, createdAt: int)

  datatype Origin = OfPurchase(payment: PaymentKey) | OfGift(gift: GiftKey) | ByHand

  // Grants of a purchase or a gift have serial 0; those made by hand a fresh one.
  datatype GrantId = GrantId(origin: Origin, benefit: Benefit, serial: nat)

  datatype Asset = File(id: string) | Archive(offerId: string)

  datatype Grant = Grant(
    origin: Origin, benefit: Benefit, customerId: Option<string>, contentRemoved: bool,
    startsAt: int, endsAt: Option<int>, state: AccessState, assets: seq<Asset>, updatedAt: int)

  datatype GiftKey = GiftKey(scope: Scope, requestId: string)

  datatype GiftState = Unclaimed | Claimed | Withdrawn

  datatype Gift = Gift(
    offerVersionId: string, contentOfferVersionId: Option<string>, recipientEmail: string, months: Option<int>,
    customerId: Option<string>, claimedAt: Option<int>, endsAt: Option<int>, state: GiftState)

  datatype Customer = Customer(verifiedEmails: set<string>, erased: bool)

  datatype Claim = Claim(purchase: PaymentKey, email: string, token: string, expiresAt: int, consumed: bool)

  datatype MappingKey = MappingKey(scope: Scope, merchantId: string, mappingId: Option<string>)

  // Offers and checkouts are in the order the store lists them.
  datatype Db = Db(
    offers: seq<Offer>, checkouts: seq<Checkout>, mappings: map<MappingKey, string>, customers: map<string, Customer>,
    payments: map<PaymentKey, Payment>, refunds: map<PaymentKey, map<string, Refund>>, purchases: map<PaymentKey, Purchase>,
    gifts: map<GiftKey, Gift>, grants: map<GrantId, Grant>, claims: map<string, Claim>)

  datatype Error =
    | InvalidEvidence | UnsupportedCurrency | ConnectionMismatch | InvalidRefundEvidence | InvalidEmail | RecordExists
    | InvalidClaim | EmailVerificationRequired | CustomerErased | CancelSubscriptionsFirst
    | GiftNotFound | GrantNotFound | CustomerNotFound | OfferNotFound | InvalidGiftDuration

  // --------------------------------------------------------------- provider evidence

  datatype EmailText = Proper(address: string) | MalformedEmail

  type EvidenceStatus = s: Status | s != NeedsReview witness Pending

  datatype RefundEvidence = RefundEvidence(id: string, amountMinor: int, state: string)

  datatype Evidence = Evidence(
    captureId: string, orderId: Option<string>, reference: Option<string>, mappingId: Option<string>, merchantId: string,
    currency: string, paidMinor: int, refundedMinor: int, status: EvidenceStatus, updatedAt: Option<int>, paidAt: Option<int>,
    subscriptionInterval: Option<Calendar.Interval>, subscriptionPlanId: Option<string>, buyerEmail: Option<EmailText>,
    unsupported: bool, refunds: seq<RefundEvidence>)

  predicate IsSafe(n: int) {
    -Money.MAX_SAFE <= n <= Money.MAX_SAFE
  }

  predicate Malformed(e: Evidence) {
    || e.captureId == "" || e.merchantId == "" || e.currency == ""
    || !IsSafe(e.paidMinor) || e.paidMinor <= 0 || !IsSafe(e.refundedMinor) || e.refundedMinor < 0
    || e.updatedAt.None?
  }

  predicate MalformedRefund(r: RefundEvidence) {
    r.id == "" || !IsSafe(r.amountMinor) || r.amountMinor < 0
  }

  function KeyOf(scope: Scope, e: Evidence): PaymentKey {
    PaymentKey(scope, e.merchantId, e.captureId)
  }

  predicate IsOrderOf(o: Checkout, scope: Scope, orderId: Option<string>) {
    o.scope == scope && o.providerOrderId == orderId && orderId.Some? && orderId.value != ""
  }

  function FindOrder(checkouts: seq<Checkout>, scope: Scope, orderId: Option<string>): (i: nat)
    ensures i <= |checkouts|
    ensures i < |checkouts| ==> IsOrderOf(checkouts[i], scope, orderId)
  {
    if checkouts == [] || IsOrderOf(checkouts[0], scope, orderId) then 0
    else 1 + FindOrder(checkouts[1..], scope, orderId)
  }

  function OrderFor(db: Db, scope: Scope, e: Evidence): Option<Checkout> {
    var i := FindOrder(db.checkouts, scope, e.orderId);
    if i < |db.checkouts| then Some(db.checkouts[i]) else None
  }

  function FindOffer(offers: seq<Offer>, id: string): (o: Option<Offer>)
    ensures o.Some? ==> o.value in offers && o.value.id == id
  {
    if offers == [] then None else if offers[0].id == id then Some(offers[0]) else FindOffer(offers[1..], id)
  }

  predicate IsCandidate(o: Offer, scope: Scope, e: Evidence) {
    && o.scope == scope && o.external.Some? && o.external.value.validated
    && Some(o.external.value.mappingId) == e.mappingId && o.merchantId == e.merchantId
  }

  function Candidates(offers: seq<Offer>, scope: Scope, e: Evidence): seq<Offer> {
    if offers == [] then []
    else (if IsCandidate(offers[0], scope, e) then [offers[0]] else []) + Candidates(offers[1..], scope, e)
  }

  function PriorFor(db: Db, id: PaymentKey): Option<Payment> {
    if id in db.payments then Some(db.payments[id]) else None
  }

  /** The offer version a payment is for: its order's, its own, a proven mapping's, or the only candidate. */
  function OfferFor(db: Db, scope: Scope, e: Evidence): Option<Offer> {
    var order, prior := OrderFor(db, scope, e), PriorFor(db, KeyOf(scope, e));
    var mapping := MappingKey(scope, e.merchantId, e.mappingId);
    var candidates := Candidates(db.offers, scope, e);
    if order.Some? then FindOffer(db.offers, order.value.offerVersionId)
    else if prior.Some? && prior.value.offerVersionId.Some? then FindOffer(db.offers, prior.value.offerVersionId.value)
    else if mapping in db.mappings then FindOffer(db.offers, db.mappings[mapping])
    else if |candidates| == 1 then Some(candidates[0])
    else None
  }

  predicate Ambiguous(db: Db, scope: Scope, e: Evidence) {
    OrderFor(db, scope, e).None? && |Candidates(db.offers, scope, e)| > 1
  }

  predicate Disconnected(db: Db, scope: Scope, connectionId: string, e: Evidence) {
    var order, prior, offer := OrderFor(db, scope, e), PriorFor(db, KeyOf(scope, e)), OfferFor(db, scope, e);
    || (prior.Some? && prior.value.connectionId != connectionId)
    || (order.Some? && order.value.connectionId != connectionId)
    || (offer.Some? && offer.value.connectionId != connectionId)
  }

  function IdOf(order: Option<Checkout>): Option<string> {
    if order.Some? then Some(order.value.id) else None
  }

  predicate PlanMismatch(order: Option<Checkout>, offer: Offer, e: Evidence) {
    || order.None? || order.value.billing != offer.billing || e.subscriptionInterval != order.value.billing
    || order.value.providerPlanId.None? || order.value.providerPlanId.value == ""
    || order.value.providerPlanId != e.subscriptionPlanId
  }

  const CLOCK_SKEW := 300000

  /** Why the evidence cannot be accepted, refund totals aside; a later check overrides an earlier one. */
  function Fault(db: Db, scope: Scope, e: Evidence, now: int): Option<Reason> {
    var order, prior, offer := OrderFor(db, scope, e), PriorFor(db, KeyOf(scope, e)), OfferFor(db, scope, e);
    if prior.Some? && (prior.value.paidMinor != e.paidMinor || prior.value.currency != e.currency || prior.value.checkoutId != IdOf(order))
    then Some(PaymentIdentityMismatch)
    else if order.None? && e.buyerEmail.None? then Some(BuyerEmailRequired)
    else if offer.Some? && (e.currency != (if order.Some? then order.value.currency else offer.value.currency)
                            || e.paidMinor != (if order.Some? then order.value.amountMinor else offer.value.amountMinor))
    then Some(AmountOrCurrencyMismatch)
    else if offer.Some? && offer.value.billing.Some? && (e.paidAt.None? || e.paidAt.value > now + CLOCK_SKEW)
    then Some(SubscriptionPeriodMissing)
    else if offer.Some? && offer.value.billing.Some? && PlanMismatch(order, offer.value, e) then Some(SubscriptionPlanMismatch)
    else if order.Some? && (e.reference != Some(order.value.reference) || order.value.merchantId != e.merchantId)
    then Some(OrderOrMerchantMismatch)
    else if offer.None? then Some(if Ambiguous(db, scope, e) then AmbiguousOfferMapping else UnknownOfferMapping)
    else if e.unsupported then Some(UnsupportedConfiguration)
    else None
  }

  // --------------------------------------------------------------- refunds and the payment's state

  const COMPLETED := "COMPLETED"

  /** The refund records after the first n of the evidence: a completed one is never overwritten. */
  function RecordRefunds(refunds: map<string, Refund>, evidence: seq<RefundEvidence>, n: nat): map<string, Refund>
    requires n <= |evidence|
  {
    if n == 0 then refunds
    else
      var before, r := RecordRefunds(refunds, evidence, n - 1), evidence[n - 1];
      if r.id in before && before[r.id].state == COMPLETED then before
      else before[r.id := Refund(r.amountMinor, r.state)]
  }

  function Completed(refunds: map<string, Refund>): map<string, int> {
    map id | id in refunds && refunds[id].state == COMPLETED :: refunds[id].amountMinor
  }

  ghost function Sum(amounts: map<string, int>): int
    decreases |amounts|
  {
    if amounts == map[] then 0
    else
      var id :| id in amounts;
      amounts[id] + Sum(amounts - {id})
  }

  ghost function CompletedTotal(refunds: map<string, Refund>): int {
    Sum(Completed(refunds))
  }

  predicate Terminal(s: Status) {
    s == Refunded || s == Reversed
  }

  predicate Paid(s: Status) {
    s == PaidUp || s == PartiallyRefunded
  }

  function NextState(p: Payment, e: Evidence, refunded: int): Status
    requires e.updatedAt.Some?
  {
    if e.status == Reversed || p.state == Reversed then Reversed
    else if refunded >= p.paidMinor || p.state == Refunded then Refunded
    else if refunded > 0 || e.status == PartiallyRefunded then PartiallyRefunded
    else if e.updatedAt.value >= p.providerUpdatedAt then e.status
    else p.state
  }

  function RefundedMinor(p: Payment, e: Evidence, total: int): int {
    Max(Max(p.refundedMinor, e.refundedMinor), Max(total, if e.status == Refunded then p.paidMinor else 0))
  }

  function Verdict(p: Payment, e: Evidence, total: int, fault: Option<Reason>): Option<Reason> {
    if RefundedMinor(p, e, total) > p.paidMinor then Some(RefundTotalExceedsPayment) else fault
  }

  /** The payment after the evidence, whose refunds are recorded and whose completed ones sum to total. */
  function Settle(p: Payment, e: Evidence, total: int, fault: Option<Reason>, checkoutId: Option<string>, offerId: Option<string>): Payment
    requires e.updatedAt.Some?
  {
    var refunded := RefundedMinor(p, e, total);
    var invalid := Verdict(p, e, total, fault);
    var state := if invalid.None? then NextState(p, e, refunded) else if Terminal(p.state) then p.state else NeedsReview;
    Payment(
      p.connectionId, if invalid.None? then checkoutId else p.checkoutId, if invalid.None? then offerId else p.offerVersionId,
      p.currency, p.paidMinor, refunded, state, Max(p.providerUpdatedAt, e.updatedAt.value),
      if invalid.Some? then invalid else if state == PartiallyRefunded then Some(PartialRefundKeepsAccess) else None)
  }

  function NewPayment(db: Db, scope: Scope, connectionId: string, e: Evidence): Payment
    requires e.updatedAt.Some?
  {
    var offer := OfferFor(db, scope, e);
    Payment(connectionId, IdOf(OrderFor(db, scope, e)), if offer.Some? then Some(offer.value.id) else None,
            e.currency, e.paidMinor, 0, Pending, e.updatedAt.value, None)
  }

  function Opened(db: Db, scope: Scope, connectionId: string, e: Evidence): Payment
    requires e.updatedAt.Some?
  {
    if KeyOf(scope, e) in db.payments then db.payments[KeyOf(scope, e)] else NewPayment(db, scope, connectionId, e)
  }

  function RefundsOf(db: Db, id: PaymentKey): map<string, Refund> {
    if id in db.refunds then db.refunds[id] else map[]
  }

  // --------------------------------------------------------------- contents and grants

  predicate IsPackage(b: Benefit) { b.Package? }

  predicate IsKept(b: Benefit) { b.Package? || b.DiscordRole? }

  function Galleries(benefits: seq<Benefit>): seq<Benefit> {
    if benefits == [] then [] else (if benefits[0].Gallery? then [benefits[0]] else []) + Galleries(benefits[1..])
  }

  function Kept(benefits: seq<Benefit>): seq<Benefit> {
    if benefits == [] then [] else (if IsKept(benefits[0]) then [benefits[0]] else []) + Kept(benefits[1..])
  }

  /** What a holder of the original offer may use while the contents are those of another version. */
  function AccessBenefits(original: Offer, contents: Offer): seq<Benefit> {
    if !contents.hasRoots then contents.benefits
    else
      Galleries(contents.benefits)
      + (if exists b :: b in original.benefits && b.Download? then seq(|contents.files|, i requires 0 <= i < |contents.files| => Download(contents.files[i])) else [])
      + Kept(original.benefits)
  }

  predicate Succeeds(o: Offer, offer: Offer) {
    o.offerId == offer.offerId && o.scope == offer.scope && o.billing.Some? == offer.billing.Some?
  }

  /** The newest version listed, the first of equals; none if no version matches. */
  function Latest(offers: seq<Offer>, offer: Offer): (l: Option<Offer>)
    ensures l.Some? ==> l.value in offers && Succeeds(l.value, offer)
  {
    if offers == [] then None
    else
      var before := Latest(offers[..|offers| - 1], offer);
      var o := offers[|offers| - 1];
      if Succeeds(o, offer) && (before.None? || o.version > before.value.version) then Some(o) else before
  }

  function CurrentContents(offers: seq<Offer>, offer: Offer): Offer {
    var found := Latest(offers, offer);
    var latest := if found.Some? then found.value else offer;
    if offer.billing.Some? || offer.hasRoots || latest.hasRoots then latest else offer
  }

  function AssetsOf(benefit: Benefit, contents: Offer): seq<Asset> {
    match benefit
    case Gallery(_) => seq(|contents.files|, i requires 0 <= i < |contents.files| => File(contents.files[i]))
    case Download(id) => [File(id)]
    case Package(_) => [Archive(contents.id)]
    case DiscordRole(_, _, _) => []
  }

  predicate IsActive(g: Grant, at: int) {
    g.state == Active && g.startsAt <= at && (g.endsAt.None? || g.endsAt.value > at)
  }

  datatype Terms = Terms(startsAt: int, endsAt: Option<int>)

  function NewGrant(origin: Origin, benefit: Benefit, customer: Option<string>, terms: Terms, contents: Offer, now: int): Grant {
    Grant(origin, benefit, customer, false, terms.startsAt, terms.endsAt, Active, AssetsOf(benefit, contents), now)
  }

  /** Inserting a grant for each of the first n benefits; inserting an id twice fails. */
  function InsertGrants(grants: map<GrantId, Grant>, origin: Origin, benefits: seq<Benefit>, n: nat,
                        customer: Option<string>, terms: Terms, contents: Offer, now: int): Option<map<GrantId, Grant>>
    requires n <= |benefits|
  {
    if n == 0 then Some(grants)
    else
      var before := InsertGrants(grants, origin, benefits, n - 1, customer, terms, contents, now);
      var id := GrantId(origin, benefits[n - 1], 0);
      if before.None? || id in before.value then None
      else Some(before.value[id := NewGrant(origin, benefits[n - 1], customer, terms, contents, now)])
  }

  function RevokeGrant(g: Grant): Grant {
    g.(state := Revoked)
  }

  /** Every grant of one purchase or gift revoked. */
  function RevokeOf(grants: map<GrantId, Grant>, origin: Origin): map<GrantId, Grant> {
    map id | id in grants :: if grants[id].origin == origin then RevokeGrant(grants[id]) else grants[id]
  }

  // --------------------------------------------------------------- reconciliation

  function EndOf(offer: Offer, e: Evidence, now: int): Option<int> {
    if offer.billing.Some? then (if e.paidAt.Some? then Some(Calendar.PeriodEnd(e.paidAt.value, offer.billing.value, 1)) else None)
    else if offer.durationSeconds.Some? && offer.durationSeconds.value != 0 then Some(now + offer.durationSeconds.value * 1000)
    else None
  }

  function OrderAfter(order: Checkout, p: Payment, invalid: Option<Reason>): Checkout {
    order.(state := if invalid.Some? then InReview
                    else if Paid(p.state) || Terminal(p.state) then Done
                    else if p.state == Failed then Failing else Waiting,
           reviewReason := invalid)
  }

  function NewPurchase(order: Option<Checkout>, offer: Offer, contents: Offer, e: Evidence, now: int): Purchase {
    Purchase(offer.id, if offer.billing.Some? || contents.hasRoots then Some(contents.id) else None,
             if order.Some? then Some(order.value.customerId) else None,
             if e.buyerEmail.Some? && e.buyerEmail.value.Proper? then Some(e.buyerEmail.value.address) else None,
             Active, if order.Some? then Some(now) else None, now)
  }

  const CLAIM_LIFE := 86400000

  /** Earlier claims on the purchase are used up and a fresh one made, for an active purchase nobody holds. */
  function CreateClaim(db: Db, id: PaymentKey, claimId: string, token: string, now: int): Db {
    if id !in db.purchases || db.purchases[id].buyerEmail.None? || db.purchases[id].customerId.Some? || db.purchases[id].state != Active
    then db
    else
      var used := map c | c in db.claims :: if db.claims[c].purchase == id then db.claims[c].(consumed := true) else db.claims[c];
      db.(claims := used[claimId := Claim(id, db.purchases[id].buyerEmail.value, token, now + CLAIM_LIFE, false)])
  }

  // Values a transaction draws anew: a claim's id and token.
  datatype Secret = Secret(claimId: string, token: string)

  function Purchased(db: Db, scope: Scope, e: Evidence, offer: Offer, secret: Secret, now: int): Result<Db, Error> {
    var id, order := KeyOf(scope, e), OrderFor(db, scope, e);
    var contents := CurrentContents(db.offers, offer);
    var purchase := NewPurchase(order, offer, contents, e, now);
    var access := AccessBenefits(offer, contents);
    var grants := InsertGrants(db.grants, OfPurchase(id), access, |access|, purchase.customerId,
                               Terms(now, EndOf(offer, e, now)), contents, now);
    if e.buyerEmail == Some(MalformedEmail) then Err(InvalidEmail)
    else if grants.None? then Err(RecordExists)
    else
      var after := db.(purchases := db.purchases[id := purchase], grants := grants.value);
      Ok(if purchase.customerId.None? then CreateClaim(after, id, secret.claimId, secret.token, now) else after)
  }

  lemma ClaimChangesClaims(db: Db, id: PaymentKey, claimId: string, token: string, now: int)
    ensures var t := CreateClaim(db, id, claimId, token, now);
            t.payments == db.payments && t.refunds == db.refunds && t.purchases == db.purchases && t.gifts == db.gifts && t.grants == db.grants
            && t.offers == db.offers && t.checkouts == db.checkouts && t.mappings == db.mappings && t.customers == db.customers
  {
  }

  // What a purchase makes: one record, and a grant for each benefit it gives access to.
  lemma PurchasedIs(db: Db, scope: Scope, e: Evidence, offer: Offer, secret: Secret, now: int)
    requires Purchased(db, scope, e, offer, secret, now).Ok?
    ensures var t := Purchased(db, scope, e, offer, secret, now).value;
            var contents := CurrentContents(db.offers, offer);
            var access := AccessBenefits(offer, contents);
            var purchase := NewPurchase(OrderFor(db, scope, e), offer, contents, e, now);
            && t.payments == db.payments && t.refunds == db.refunds && t.gifts == db.gifts
            && t.purchases == db.purchases[KeyOf(scope, e) := purchase]
            && Some(t.grants) == InsertGrants(db.grants, OfPurchase(KeyOf(scope, e)), access, |access|, purchase.customerId,
                                              Terms(now, EndOf(offer, e, now)), contents, now)
  {
    hide CreateClaim, AccessBenefits, CurrentContents, InsertGrants, EndOf, OrderFor, NewPurchase;
    var id, contents := KeyOf(scope, e), CurrentContents(db.offers, offer);
    var purchase := NewPurchase(OrderFor(db, scope, e), offer, contents, e, now);
    var access := AccessBenefits(offer, contents);
    var grants := InsertGrants(db.grants, OfPurchase(id), access, |access|, purchase.customerId, Terms(now, EndOf(offer, e, now)), contents, now);
    ClaimChangesClaims(db.(purchases := db.purchases[id := purchase], grants := grants.value), id, secret.claimId, secret.token, now);
  }

  function RevokedPurchase(db: Db, id: PaymentKey): Db {
    db.(purchases := if id in db.purchases then db.purchases[id := db.purchases[id].(state := Revoked)] else db.purchases,
        grants := RevokeOf(db.grants, OfPurchase(id)))
  }

  /** The payment, refund and order records after the evidence. */
  ghost function Recorded(db: Db, scope: Scope, connectionId: string, e: Evidence, now: int): Db
    requires e.updatedAt.Some?
  {
    var id, i, offer := KeyOf(scope, e), FindOrder(db.checkouts, scope, e.orderId), OfferFor(db, scope, e);
    var refunds := RecordRefunds(RefundsOf(db, id), e.refunds, |e.refunds|);
    var total := CompletedTotal(refunds);
    var known := Opened(db, scope, connectionId, e);
    var payment := Settle(known, e, total, Fault(db, scope, e, now), IdOf(OrderFor(db, scope, e)),
                          if offer.Some? then Some(offer.value.id) else None);
    var invalid := Verdict(known, e, total, Fault(db, scope, e, now));
    db.(payments := db.payments[id := payment], refunds := db.refunds[id := refunds],
        checkouts := if i < |db.checkouts| then db.checkouts[i := OrderAfter(db.checkouts[i], payment, invalid)] else db.checkouts)
  }

  ghost predicate Accepted(db: Db, scope: Scope, connectionId: string, e: Evidence, now: int)
    requires e.updatedAt.Some?
  {
    var refunds := RecordRefunds(RefundsOf(db, KeyOf(scope, e)), e.refunds, |e.refunds|);
    Verdict(Opened(db, scope, connectionId, e), e, CompletedTotal(refunds), Fault(db, scope, e, now)).None?
  }

  predicate Refused(db: Db, scope: Scope, connectionId: string, e: Evidence) {
    || Malformed(e) || Money.Exponent(e.currency).None? || Disconnected(db, scope, connectionId, e)
    || exists k :: 0 <= k < |e.refunds| && MalformedRefund(e.refunds[k])
  }

  function RefusalOf(db: Db, scope: Scope, connectionId: string, e: Evidence): Error {
    if Malformed(e) then InvalidEvidence
    else if Money.Exponent(e.currency).None? then UnsupportedCurrency
    else if Disconnected(db, scope, connectionId, e) then ConnectionMismatch
    else InvalidRefundEvidence
  }

  ghost function ApplyEvidence(db: Db, scope: Scope, connectionId: string, e: Evidence, secret: Secret, now: int): Result<Db, Error> {
    if Refused(db, scope, connectionId, e) then Err(RefusalOf(db, scope, connectionId, e))
    else
      var id := KeyOf(scope, e);
      var after := Recorded(db, scope, connectionId, e, now);
      var state := after.payments[id].state;
      if Accepted(db, scope, connectionId, e, now) && id !in db.purchases && Paid(state) && OfferFor(db, scope, e).Some?
      then Purchased(after, scope, e, OfferFor(db, scope, e).value, secret, now)
      else if Terminal(state) then Ok(RevokedPurchase(after, id))
      else Ok(after)
  }

  datatype Delivery = Delivery(evidence: Evidence, secret: Secret)

  /** One transaction applies the first n pieces of evidence in turn, or none. */
  ghost function Reconcile(db: Db, scope: Scope, connectionId: string, deliveries: seq<Delivery>, n: nat, now: int): Result<Db, Error>
    requires n <= |deliveries|
  {
    if n == 0 then Ok(db)
    else
      var before := Reconcile(db, scope, connectionId, deliveries, n - 1, now);
      var d := deliveries[n - 1];
      if before.Err? then before else ApplyEvidence(before.value, scope, connectionId, d.evidence, d.secret, now)
  }

  // --------------------------------------------------------------- revised contents

  /** Whether a revision reaches the holders of an offer version. */
  predicate Reaches(original: Offer, revised: Offer, scope: Scope) {
    && (original.billing.Some? || revised.hasRoots)
    && original.billing.Some? == revised.billing.Some?
    && original.offerId == revised.offerId && scope == revised.scope
  }

  ghost predicate HasActive(grants: map<GrantId, Grant>, origin: Origin, now: int) {
    exists id :: id in grants && grants[id].origin == origin && IsActive(grants[id], now)
  }

  // The terms of an active grant of the purchase or gift.
  ghost function ActiveTerms(grants: map<GrantId, Grant>, origin: Origin, now: int): Terms
    requires HasActive(grants, origin, now)
  {
    var id :| id in grants && grants[id].origin == origin && IsActive(grants[id], now);
    Terms(grants[id].startsAt, grants[id].endsAt)
  }

  function Withdraw(g: Grant): Grant {
    g.(state := Revoked, contentRemoved := true)
  }

  function Restore(g: Grant, revised: Offer, now: int): Grant {
    g.(state := if g.contentRemoved then Active else g.state, contentRemoved := false,
       assets := AssetsOf(g.benefit, revised), updatedAt := now)
  }

  function GrantIds(origin: Origin, access: seq<Benefit>): set<GrantId> {
    set b | b in access :: GrantId(origin, b, 0)
  }

  /** Grants of the record for benefits it lost are withdrawn, the others refreshed, and missing ones made. */
  function UpdateGrants(grants: map<GrantId, Grant>, origin: Origin, access: seq<Benefit>, customer: Option<string>,
                        terms: Terms, revised: Offer, now: int): map<GrantId, Grant>
  {
    map id | id in grants.Keys + GrantIds(origin, access) ::
      if id !in grants then NewGrant(origin, id.benefit, customer, terms, revised, now)
      else if grants[id].origin != origin then grants[id]
      else if grants[id].benefit in access then Restore(grants[id], revised, now)
      else Withdraw(grants[id])
  }

  ghost predicate Updates(db: Db, origin: Origin, offerVersionId: string, scope: Scope, revised: Offer, now: int) {
    && FindOffer(db.offers, offerVersionId).Some?
    && Reaches(FindOffer(db.offers, offerVersionId).value, revised, scope)
    && HasActive(db.grants, origin, now)
  }

  ghost function UpdatePurchase(db: Db, id: PaymentKey, revised: Offer, now: int): Db {
    if id !in db.purchases || db.purchases[id].state != Active
       || !Updates(db, OfPurchase(id), db.purchases[id].offerVersionId, id.scope, revised, now)
    then db
    else
      var p := db.purchases[id];
      var access := AccessBenefits(FindOffer(db.offers, p.offerVersionId).value, revised);
      db.(grants := UpdateGrants(db.grants, OfPurchase(id), access, p.customerId, ActiveTerms(db.grants, OfPurchase(id), now), revised, now),
          purchases := db.purchases[id := p.(contentOfferVersionId := Some(revised.id))])
  }

  ghost function UpdateGift(db: Db, id: GiftKey, revised: Offer, now: int): Db {
    if id !in db.gifts || db.gifts[id].state != Claimed
       || !Updates(db, OfGift(id), db.gifts[id].offerVersionId, id.scope, revised, now)
    then db
    else
      var g := db.gifts[id];
      var access := AccessBenefits(FindOffer(db.offers, g.offerVersionId).value, revised);
      db.(grants := UpdateGrants(db.grants, OfGift(id), access, g.customerId, ActiveTerms(db.grants, OfGift(id), now), revised, now),
          gifts := db.gifts[id := g.(contentOfferVersionId := Some(revised.id))])
  }

  /** The purchases and gifts are visited in the order the store lists them. */
  ghost function UpdatePurchases(db: Db, listed: seq<PaymentKey>, n: nat, revised: Offer, now: int): Db
    requires n <= |listed|
  {
    if n == 0 then db else UpdatePurchase(UpdatePurchases(db, listed, n - 1, revised, now), listed[n - 1], revised, now)
  }

  ghost function UpdateGifts(db: Db, listed: seq<GiftKey>, n: nat, revised: Offer, now: int): Db
    requires n <= |listed|
  {
    if n == 0 then db else UpdateGift(UpdateGifts(db, listed, n - 1, revised, now), listed[n - 1], revised, now)
  }

  ghost function UpdateAccessContents(db: Db, revised: Offer, purchases: seq<PaymentKey>, gifts: seq<GiftKey>, now: int): Db {
    UpdateGifts(UpdatePurchases(db, purchases, |purchases|, revised, now), gifts, |gifts|, revised, now)
  }

  // --------------------------------------------------------------- claims, gifts, revocation, erasure

  // The customer record of a subject, made on first use; an erased customer is refused.
  function WithCustomer(db: Db, subject: string): Result<Db, Error> {
    if subject !in db.customers then Ok(db.(customers := db.customers[subject := Customer({}, false)]))
    else if db.customers[subject].erased then Err(CustomerErased)
    else Ok(db)
  }

  function GiveGrantsTo(grants: map<GrantId, Grant>, origin: Origin, customer: string): map<GrantId, Grant> {
    map id | id in grants :: if grants[id].origin == origin then grants[id].(customerId := Some(customer)) else grants[id]
  }

  function RedeemClaim(db: Db, subject: string, claimId: string, token: string, now: int): Result<Db, Error> {
    var known := WithCustomer(db, subject);
    if known.Err? then known
    else if claimId !in db.claims then Err(InvalidClaim)
    else
      var claim := db.claims[claimId];
      if claim.consumed || claim.expiresAt <= now || claim.token != token then Err(InvalidClaim)
      else if claim.email !in known.value.customers[subject].verifiedEmails then Err(EmailVerificationRequired)
      else if claim.purchase !in db.purchases || db.purchases[claim.purchase].customerId.Some? || db.purchases[claim.purchase].state != Active
      then Err(InvalidClaim)
      else
        var held := db.purchases[claim.purchase].(customerId := Some(subject), claimedAt := Some(now), buyerEmail := None);
        Ok(known.value.(purchases := db.purchases[claim.purchase := held], claims := db.claims[claimId := claim.(consumed := true)],
                        grants := GiveGrantsTo(db.grants, OfPurchase(claim.purchase), subject)))
  }

  function ClaimedGift(g: Gift, subject: string, contents: Offer, now: int): Gift {
    g.(contentOfferVersionId := Some(contents.id), customerId := Some(subject), claimedAt := Some(now), state := Claimed,
       endsAt := if g.months.Some? && g.months.value != 0 then Some(Calendar.PeriodEnd(now, Calendar.Month, g.months.value)) else g.endsAt)
  }

  function ClaimGift(db: Db, subject: string, id: GiftKey, now: int): Result<Db, Error>
    requires subject in db.customers
  {
    if id !in db.gifts || db.gifts[id].state != Unclaimed || db.gifts[id].recipientEmail !in db.customers[subject].verifiedEmails
       || FindOffer(db.offers, db.gifts[id].offerVersionId).None?
    then Ok(db)
    else
      var offer := FindOffer(db.offers, db.gifts[id].offerVersionId).value;
      var contents := CurrentContents(db.offers, offer);
      var gift := ClaimedGift(db.gifts[id], subject, contents, now);
      var access := AccessBenefits(offer, contents);
      var grants := InsertGrants(db.grants, OfGift(id), access, |access|, Some(subject), Terms(now, gift.endsAt), contents, now);
      if grants.None? then Err(RecordExists)
      else Ok(db.(gifts := db.gifts[id := gift], grants := grants.value))
  }

  function ClaimGifts(db: Db, subject: string, listed: seq<GiftKey>, n: nat, now: int): (r: Result<Db, Error>)
    requires n <= |listed| && subject in db.customers
    ensures r.Ok? ==> r.value.customers == db.customers
  {
    if n == 0 then Ok(db)
    else
      var before := ClaimGifts(db, subject, listed, n - 1, now);
      if before.Err? then before else ClaimGift(before.value, subject, listed[n - 1], now)
  }

  /** Opening one's library claims the gifts that wait for the customer. */
  function OpenLibrary(db: Db, subject: string, listed: seq<GiftKey>, now: int): Result<Db, Error> {
    var known := WithCustomer(db, subject);
    if known.Err? then known else ClaimGifts(known.value, subject, listed, |listed|, now)
  }

  function GiftOffer(db: Db, id: GiftKey, offerVersionId: string, recipientEmail: string, months: Option<int>): Result<Db, Error> {
    var offer := FindOffer(db.offers, offerVersionId);
    if offer.None? || offer.value.scope != id.scope then Err(OfferNotFound)
    else if (if offer.value.billing.Some? then months.None? || !(1 <= months.value <= 120) else months.Some?) then Err(InvalidGiftDuration)
    else if id in db.gifts then Ok(db)
    else Ok(db.(gifts := db.gifts[id := Gift(offerVersionId, None, recipientEmail, months, None, None, None, Unclaimed)]))
  }

  function RevokeGift(db: Db, owner: string, id: GiftKey): Result<Db, Error> {
    if id !in db.gifts || id.scope.owner != owner then Err(GiftNotFound)
    else Ok(db.(gifts := db.gifts[id := db.gifts[id].(state := Withdrawn)], grants := RevokeOf(db.grants, OfGift(id))))
  }

  function Revoke(db: Db, id: GrantId): Result<Db, Error> {
    if id !in db.grants then Err(GrantNotFound)
    else Ok(db.(grants := db.grants[id := RevokeGrant(db.grants[id])]))
  }

  function ManualGrant(db: Db, customer: string, benefit: Benefit, serial: nat, assets: seq<Asset>, endsAt: Option<int>, now: int): Result<Db, Error> {
    var id := GrantId(ByHand, benefit, serial);
    if customer !in db.customers then Err(CustomerNotFound)
    else if id in db.grants then Err(RecordExists)
    else Ok(db.(grants := db.grants[id := Grant(ByHand, benefit, Some(customer), false, now, endsAt, Active, assets, now)]))
  }

  predicate Subscribes(o: Checkout, customer: string) {
    o.customerId == customer && o.billing.Some? && o.subscriptionState !in ["CANCELLED", "EXPIRED"] && o.state != Failing
  }

  predicate SomeSubscription(checkouts: seq<Checkout>, customer: string) {
    exists i :: 0 <= i < |checkouts| && Subscribes(checkouts[i], customer)
  }

  const ERASED := "erased"

  function RevokeHeld(grants: map<GrantId, Grant>, customer: string): map<GrantId, Grant> {
    map id | id in grants :: if grants[id].customerId == Some(customer) then RevokeGrant(grants[id]) else grants[id]
  }

  function ForgetBuyer(purchases: map<PaymentKey, Purchase>, customer: string): map<PaymentKey, Purchase> {
    map p | p in purchases :: if purchases[p].customerId == Some(customer) then purchases[p].(buyerEmail := None) else purchases[p]
  }

  predicate ClaimsFrom(purchases: map<PaymentKey, Purchase>, c: Claim, customer: string) {
    c.purchase in purchases && purchases[c.purchase].customerId == Some(customer)
  }

  function DropClaims(claims: map<string, Claim>, purchases: map<PaymentKey, Purchase>, customer: string): map<string, Claim> {
    map c | c in claims && !ClaimsFrom(purchases, claims[c], customer) :: claims[c]
  }

  function ForgetRecipient(gifts: map<GiftKey, Gift>, customer: string): map<GiftKey, Gift> {
    map g | g in gifts :: if gifts[g].customerId == Some(customer) then gifts[g].(recipientEmail := ERASED) else gifts[g]
  }

  function EraseCustomer(db: Db, subject: string): Result<Db, Error> {
    var known := WithCustomer(db, subject);
    if known.Err? then known
    else if SomeSubscription(db.checkouts, subject) then Err(CancelSubscriptionsFirst)
    else
      Ok(db.(customers := db.customers[subject := Customer({}, true)],
             grants := RevokeHeld(db.grants, subject), purchases := ForgetBuyer(db.purchases, subject),
             claims := DropClaims(db.claims, db.purchases, subject), gifts := ForgetRecipient(db.gifts, subject)))
  }

  predicate TimedOut(g: Grant, now: int) {
    g.benefit.DiscordRole? && g.endsAt.Some? && g.endsAt.value <= now && g.state == Active
  }

  function RevokeTimedOut(grants: map<GrantId, Grant>, now: int): map<GrantId, Grant> {
    map id | id in grants :: if TimedOut(grants[id], now) then RevokeGrant(grants[id]) else grants[id]
  }

  /** The worker's sweep: timed roles whose time is over. */
  function ExpireRoles(db: Db, now: int): Db {
    db.(grants := RevokeTimedOut(db.grants, now))
  }

  // --------------------------------------------------------------- runs

  datatype Event =
    | Evidenced(scope: Scope, connectionId: string, deliveries: seq<Delivery>, now: int)
    | Revised(offer: Offer, purchases: seq<PaymentKey>, giftOrder: seq<GiftKey>, now: int)
    | ClaimRedeemed(subject: string, claimId: string, token: string, now: int)
    | LibraryOpened(subject: string, giftOrder: seq<GiftKey>, now: int)
    | GiftOffered(gift: GiftKey, offerVersionId: string, recipientEmail: string, months: Option<int>)
    | GiftRevoked(owner: string, gift: GiftKey)
    | GrantRevoked(grant: GrantId)
    | GrantedByHand(customer: string, benefit: Benefit, serial: nat, assets: seq<Asset>, endsAt: Option<int>, now: int)
    | CustomerErasedNow(subject: string)
    | RolesExpired(now: int)
    // Whatever else writes offers, checkouts, mappings, customers and claims.
    | Elsewhere(offers: seq<Offer>, checkouts: seq<Checkout>, mappings: map<MappingKey, string>,
                customers: map<string, Customer>, claims: map<string, Claim>)

  function Committed(db: Db, r: Result<Db, Error>): Db {
    if r.Ok? then r.value else db
  }

  ghost function Step(db: Db, event: Event): Db {
    match event
    case Evidenced(scope, connectionId, deliveries, now) =>
      Committed(db, Reconcile(db, scope, connectionId, deliveries, |deliveries|, now))
    case Revised(offer, purchases, gifts, now) =>
      UpdateAccessContents(db.(offers := db.offers + [offer]), offer, purchases, gifts, now)
    case ClaimRedeemed(subject, claimId, token, now) => Committed(db, RedeemClaim(db, subject, claimId, token, now))
    case LibraryOpened(subject, gifts, now) => Committed(db, OpenLibrary(db, subject, gifts, now))
    case GiftOffered(gift, offer, email, months) => Committed(db, GiftOffer(db, gift, offer, email, months))
    case GiftRevoked(owner, gift) => Committed(db, RevokeGift(db, owner, gift))
    case GrantRevoked(grant) => Committed(db, Revoke(db, grant))
    case GrantedByHand(customer, benefit, serial, assets, endsAt, now) =>
      Committed(db, ManualGrant(db, customer, benefit, serial, assets, endsAt, now))
    case CustomerErasedNow(subject) => Committed(db, EraseCustomer(db, subject))
    case RolesExpired(now) => ExpireRoles(db, now)
    case Elsewhere(offers, checkouts, mappings, customers, claims) =>
      db.(offers := offers, checkouts := checkouts, mappings := mappings, customers := customers, claims := claims)
  }

  ghost function Run(db: Db, events: seq<Event>): Db
    decreases |events|
  {
    if events == [] then db else Run(Step(db, events[0]), events[1..])
  }

  const EMPTY := Db([], [], map[], map[], map[], map[], map[], map[], map[], map[])
}
