/** The payment side of the marketplace: the webhook handler that turns a
    completed checkout session into an order, the `pay` action that opens a
    checkout session, the price a new offer registers, and the flag that
    marks a seller's payout account as ready. Every call into the Stripe SDK
    is a parameter: it returns a value or throws. */
module Stripe {
  import opened Wrappers
  import opened Seqs
  import opened Store
  import Orders

  // ---------------------------------------------------------------------
  // handleStripeWebhook

  /** A checkout session as the webhook event carries it. */
  datatype Session = Session(id: string, metadata: Option<map<string, string>>)

  /** A verified event: its type, and the session it is about. */
  datatype Event = Event(eventType: string, session: Session)

  const CheckoutCompleted := "checkout.session.completed"
  const SignatureFailed := "Webhook signature verification failed."

  /** The value the handler resolves to, `{ success: true }`. */
  datatype Ack = Ack(success: bool)

  /** `session.metadata.<key>`: an absent key reads as undefined, which the
      handler's truthiness test treats like the empty string. */
  function MetadataField(m: map<string, string>, key: string): (v: string)
    ensures key !in m ==> v == ""
    ensures key in m ==> v == m[key]
  {
    if key in m then m[key] else ""
  }

  /** Some field the handler requires is absent or empty. */
  predicate MissingField(m: map<string, string>) {
    || MetadataField(m, "offerId") == ""
    || MetadataField(m, "gigId") == ""
    || MetadataField(m, "buyerId") == ""
    || MetadataField(m, "sellerId") == ""
    || MetadataField(m, "tier") == ""
  }

  /** `internal.offers.getOffer({gigId, tier})`, the first offer of the gig
      whose tier is named `tier`. */
  function GetOffer(offers: seq<Doc<Offer>>, gigId: Id, tier: string): (r: Option<Doc<Offer>>)
    ensures r.Some? ==> r.value in offers && r.value.fields.gigId == gigId && TierName(r.value.fields.tier) == tier
    ensures r.None? <==> forall i :: 0 <= i < |offers| ==>
                           !(offers[i].fields.gigId == gigId && TierName(offers[i].fields.tier) == tier)
  {
    First(offers, (o: Doc<Offer>) => o.fields.gigId == gigId && TierName(o.fields.tier) == tier)
  }

  /** The order a completed checkout session yields: the metadata guards and
      the offer lookup run in that order, and the record copies the offer's
      terms, the metadata's ids and the session id, with fixed statuses. */
  function OrderFromSession(session: Session, offers: seq<Doc<Offer>>): (r: Result<OrderArgs>)
    ensures session.metadata.None? ==> r == Fail("No metadata found in session")
    ensures (session.metadata.Some? && MissingField(session.metadata.value))
              ==> r == Fail("Missing required metadata in session")
    ensures (&& session.metadata.Some? && !MissingField(session.metadata.value)
             && GetOffer(offers, MetadataField(session.metadata.value, "gigId"),
                         MetadataField(session.metadata.value, "tier")).None?)
              ==> r == Fail("Offer not found")
    ensures (&& session.metadata.Some? && !MissingField(session.metadata.value)
             && GetOffer(offers, MetadataField(session.metadata.value, "gigId"),
                         MetadataField(session.metadata.value, "tier")).Some?)
              ==> r.Ok?
    ensures r.Ok? ==>
      var m := session.metadata.value;
      var offer := GetOffer(offers, MetadataField(m, "gigId"), MetadataField(m, "tier")).value;
      && session.metadata.Some? && !MissingField(m)
      && offer in offers
      && TierName(offer.fields.tier) == MetadataField(m, "tier")
      && r.value == OrderArgs(
           MetadataField(m, "offerId"), MetadataField(m, "gigId"), MetadataField(m, "buyerId"),
           MetadataField(m, "sellerId"), "pending", offer.fields.price, offer.fields.title,
           offer.fields.deliveryDays, offer.fields.revisions, "paid", session.id)
  {
    if session.metadata.None? then Fail("No metadata found in session")
    else
      var m := session.metadata.value;
      if MissingField(m) then Fail("Missing required metadata in session")
      else
        var offer := GetOffer(offers, MetadataField(m, "gigId"), MetadataField(m, "tier"));
        if offer.None? then Fail("Offer not found")
        else
          Ok(OrderArgs(
            MetadataField(m, "offerId"), MetadataField(m, "gigId"), MetadataField(m, "buyerId"),
            MetadataField(m, "sellerId"), "pending", offer.value.fields.price, offer.value.fields.title,
            offer.value.fields.deliveryDays, offer.value.fields.revisions, "paid", session.id))
  }

  /** What the handler does with the outcome of signature verification: a
      rejected signature fails, an event of another type is acknowledged with
      no order, a completed checkout yields the order to insert or fails. */
  function WebhookOrder(event: Option<Event>, offers: seq<Doc<Offer>>): (r: Result<Option<OrderArgs>>)
    ensures event.None? ==> r == Fail(SignatureFailed)
    ensures event.Some? && event.value.eventType != CheckoutCompleted ==> r == Ok(None)
    ensures r.Ok? && r.value.Some? ==>
              && event.Some? && event.value.eventType == CheckoutCompleted
              && OrderFromSession(event.value.session, offers) == Ok(r.value.value)
    ensures (event.Some? && event.value.eventType == CheckoutCompleted && OrderFromSession(event.value.session, offers).Ok?)
              ==> r == Ok(Some(OrderFromSession(event.value.session, offers).value))
    ensures (event.Some? && event.value.eventType == CheckoutCompleted && OrderFromSession(event.value.session, offers).Err?)
              ==> r == Err(OrderFromSession(event.value.session, offers).thrown)
  {
    if event.None? then Fail(SignatureFailed)
    else if event.value.eventType != CheckoutCompleted then Ok(None)
    else
      var order :- OrderFromSession(event.value.session, offers);
      Ok(Some(order))
  }

  /** `handleStripeWebhook`. `constructEvent` is the SDK's signature check
      and event parse, with the webhook secret as its third argument. Every
      failure happens before the single write, and the only write is one
      appended order. */
  method HandleStripeWebhook(
    db: Database, rawBody: string, signature: string, secret: string,
    constructEvent: (string, string, string) -> Option<Event>, now: int)
    returns (r: Result<Ack>)
    requires db.orders.Valid()
    modifies db.orders
    ensures db.orders.Valid()
    ensures var d := WebhookOrder(constructEvent(rawBody, signature, secret), db.offers.docs);
      && (r.Ok? <==> d.Ok?)
      && (r.Ok? ==> r.value == Ack(true))
      && (r.Err? ==> r.thrown == d.thrown)
      && (d.Err? || d.value.None? ==> db.orders.docs == old(db.orders.docs))
      && (d.Ok? && d.value.Some? ==>
            && |db.orders.docs| == |old(db.orders.docs)| + 1
            && db.orders.docs[..|old(db.orders.docs)|] == old(db.orders.docs)
            && db.orders.docs[|old(db.orders.docs)|].fields == Order(d.value.value, now)
            && forall i :: 0 <= i < |old(db.orders.docs)| ==>
                 old(db.orders.docs)[i].id != db.orders.docs[|old(db.orders.docs)|].id)
  {
    var event := constructEvent(rawBody, signature, secret);
    if event.None? {
      return Fail(SignatureFailed);
    }
    if event.value.eventType == CheckoutCompleted {
      var order := OrderFromSession(event.value.session, db.offers.docs);
      if order.Err? {
        return Err(order.thrown);
      }
      var _ := Orders.Create(db, order.value, now);
    }
    return Ok(Ack(true));
  }

  /** The handler keeps no record of sessions it has processed: delivering the
      same accepted event twice inserts two orders. */
  method RedeliveredEvent(
    db: Database, rawBody: string, signature: string, secret: string,
    constructEvent: (string, string, string) -> Option<Event>, now: int)
    requires db.orders.Valid()
    requires WebhookOrder(constructEvent(rawBody, signature, secret), db.offers.docs).Ok?
    requires WebhookOrder(constructEvent(rawBody, signature, secret), db.offers.docs).value.Some?
    modifies db.orders
    ensures |db.orders.docs| == |old(db.orders.docs)| + 2
    ensures db.orders.docs[|old(db.orders.docs)|].fields == db.orders.docs[|old(db.orders.docs)| + 1].fields
  {
    var first := HandleStripeWebhook(db, rawBody, signature, secret, constructEvent, now);
    var second := HandleStripeWebhook(db, rawBody, signature, secret, constructEvent, now);
  }

  /** The worked example: metadata {o1, g1, b1, s1, Standard} and an offer
      of g1 at Standard with price 100, 3 days and 2 revisions give a paid,
      pending order with those terms. */
  lemma ReconcileExample(offerDoc: Doc<Offer>, sessionId: string)
    requires offerDoc.fields.gigId == "g1" && offerDoc.fields.tier == Standard
    requires offerDoc.fields.price == 100 && offerDoc.fields.deliveryDays == 3 && offerDoc.fields.revisions == 2
    ensures var m := map["offerId" := "o1", "gigId" := "g1", "buyerId" := "b1", "sellerId" := "s1", "tier" := "Standard"];
      var r := OrderFromSession(Session(sessionId, Some(m)), [offerDoc]);
      && r.Ok?
      && r.value.price == 100 && r.value.deliveryDays == 3 && r.value.revisions == 2
      && r.value.paymentStatus == "paid" && r.value.fulfillmentStatus == "pending"
      && r.value.offerId == "o1" && r.value.gigId == "g1" && r.value.title == offerDoc.fields.title
      && r.value.buyerId == "b1" && r.value.sellerId == "s1" && r.value.stripeSessionId == sessionId
  {
    var m := map["offerId" := "o1", "gigId" := "g1", "buyerId" := "b1", "sellerId" := "s1", "tier" := "Standard"];
    assert !MissingField(m);
    assert GetOffer([offerDoc], "g1", "Standard") == Some(offerDoc);
  }

  // ---------------------------------------------------------------------
  // pay

  datatype PayArgs = PayArgs(
    priceId: string, title: string, sellerId: Id, offerId: Id, gigId: Id, buyerId: Id, tier: Tier)

  /** A Stripe price; `unit_amount` may be null. */
  datatype Price = Price(unitAmount: Option<int>)

  datatype LineItem = LineItem(currency: string, productName: string, unitAmount: int, quantity: nat)

  /** The checkout-session parameters `pay` builds (the fee and the redirect
      URLs are not modelled). */
  datatype CheckoutRequest = CheckoutRequest(mode: string, lineItems: seq<LineItem>, metadata: map<string, string>)

  datatype CheckoutSession = CheckoutSession(url: Option<string>)

  /** The foreign calls `pay` makes, in the order it makes them. */
  datatype PayCall =
    | RetrievePrice(priceId: string)
    | GetStripeAccountId(userId: Id)
    | CreateCheckoutSession(request: CheckoutRequest, stripeAccount: string)

  /** The result `pay` returns (the session URL, possibly null) together with
      the calls it made. */
  datatype PayRun = PayRun(result: Result<Option<string>>, calls: seq<PayCall>)

  /** The metadata attached to the session, read back by the webhook. */
  function SessionMetadata(args: PayArgs): (m: map<string, string>)
    ensures m.Keys == {"offerId", "gigId", "buyerId", "sellerId", "tier"}
    ensures m["offerId"] == args.offerId && m["gigId"] == args.gigId && m["buyerId"] == args.buyerId
    ensures m["sellerId"] == args.sellerId && m["tier"] == TierName(args.tier)
  {
    map["offerId" := args.offerId, "gigId" := args.gigId, "buyerId" := args.buyerId,
        "sellerId" := args.sellerId, "tier" := TierName(args.tier)]
  }

  /** The checkout session `pay` requests: a payment with a single line item
      of quantity 1 in usd, named after the title, and the session metadata. */
  function CheckoutRequestFor(args: PayArgs, unitAmount: int): (r: CheckoutRequest)
    ensures r.mode == "payment"
    ensures |r.lineItems| == 1 && r.lineItems[0].quantity == 1
    ensures r.lineItems[0].unitAmount == unitAmount && r.lineItems[0].currency == "usd"
    ensures r.lineItems[0].productName == args.title
    ensures r.metadata == SessionMetadata(args)
  {
    CheckoutRequest("payment", [LineItem("usd", args.title, unitAmount, 1)], SessionMetadata(args))
  }

  /** `pay`. A missing unit amount fails before the seller's account is looked
      up, a missing account fails before a session is created, and a created
      session carries exactly the five ids and tier as metadata and one line
      item of quantity 1 at the retrieved unit amount. */
  function Pay(
    args: PayArgs,
    retrievePrice: string -> Result<Price>,
    stripeAccountOf: Id -> Option<string>,
    createSession: (CheckoutRequest, string) -> Result<CheckoutSession>): (run: PayRun)
    ensures |run.calls| >= 1 && run.calls[0] == RetrievePrice(args.priceId)
    ensures retrievePrice(args.priceId).Err? ==> run == PayRun(Err(retrievePrice(args.priceId).thrown), [RetrievePrice(args.priceId)])
    ensures (retrievePrice(args.priceId) == Ok(Price(None)))
              ==> run == PayRun(Fail("Error: Stripe price doesn't have unit_amount."), [RetrievePrice(args.priceId)])
    ensures (retrievePrice(args.priceId).Ok? && retrievePrice(args.priceId).value.unitAmount.Some? && stripeAccountOf(args.sellerId).None?)
              ==> run == PayRun(Fail("Error: Stripe account not found."), [RetrievePrice(args.priceId), GetStripeAccountId(args.sellerId)])
    ensures |run.calls| == 3 ==>
      && retrievePrice(args.priceId).Ok? && retrievePrice(args.priceId).value.unitAmount.Some?
      && stripeAccountOf(args.sellerId).Some?
      && run.calls[2].CreateCheckoutSession?
      && var request := run.calls[2].request;
         && run.calls[2] == CreateCheckoutSession(request, stripeAccountOf(args.sellerId).value)
         && request.metadata.Keys == {"offerId", "gigId", "buyerId", "sellerId", "tier"}
         && request.metadata["offerId"] == args.offerId && request.metadata["gigId"] == args.gigId
         && request.metadata["buyerId"] == args.buyerId && request.metadata["sellerId"] == args.sellerId
         && request.metadata["tier"] == TierName(args.tier)
         && request.lineItems == [LineItem("usd", args.title, retrievePrice(args.priceId).value.unitAmount.value, 1)]
    ensures (&& retrievePrice(args.priceId).Ok? && retrievePrice(args.priceId).value.unitAmount.Some?
             && stripeAccountOf(args.sellerId).Some?) ==>
      var request := CheckoutRequestFor(args, retrievePrice(args.priceId).value.unitAmount.value);
      var account := stripeAccountOf(args.sellerId).value;
      && run.calls == [RetrievePrice(args.priceId), GetStripeAccountId(args.sellerId), CreateCheckoutSession(request, account)]
      && (createSession(request, account).Err? ==> run.result == Err(createSession(request, account).thrown))
      && (createSession(request, account).Ok? ==> run.result == Ok(createSession(request, account).value.url))
    ensures run.result.Ok? ==> |run.calls| == 3 && run.calls[2].CreateCheckoutSession? && createSession(run.calls[2].request, run.calls[2].stripeAccount) == Ok(CheckoutSession(run.result.value))
  {
    var calls := [RetrievePrice(args.priceId)];
    match retrievePrice(args.priceId)
    case Err(e) => PayRun(Err(e), calls)
    case Ok(price) =>
      if price.unitAmount.None? then PayRun(Fail("Error: Stripe price doesn't have unit_amount."), calls)
      else
        var calls := calls + [GetStripeAccountId(args.sellerId)];
        match stripeAccountOf(args.sellerId)
        case None => PayRun(Fail("Error: Stripe account not found."), calls)
        case Some(account) =>
          var request := CheckoutRequestFor(args, price.unitAmount.value);
          var calls := calls + [CreateCheckoutSession(request, account)];
          match createSession(request, account)
          case Err(e) => PayRun(Err(e), calls)
          case Ok(session) => PayRun(Ok(session.url), calls)
  }

  /** The metadata `pay` attaches is exactly what the webhook reads back:
      once the session completes, the order carries the ids `pay` was given,
      and it exists exactly when the gig has an offer at the paid tier. */
  lemma PayMetadataReconciles(args: PayArgs, sessionId: string, offers: seq<Doc<Offer>>)
    requires args.offerId != "" && args.gigId != "" && args.buyerId != "" && args.sellerId != ""
    ensures var r := OrderFromSession(Session(sessionId, Some(SessionMetadata(args))), offers);
      && (r.Ok? <==> GetOffer(offers, args.gigId, TierName(args.tier)).Some?)
      && (r.Ok? ==> r.value.offerId == args.offerId && r.value.gigId == args.gigId
                    && r.value.buyerId == args.buyerId && r.value.sellerId == args.sellerId
                    && r.value.stripeSessionId == sessionId)
  {
    var m := SessionMetadata(args);
    assert TierName(args.tier) != "";
    assert !MissingField(m);
  }

  // ---------------------------------------------------------------------
  // addPrice

  /** The parameters `addPrice` sends to `prices.create`. */
  datatype PriceRequest = PriceRequest(currency: string, unitAmount: int, productName: string)

  function TierPrefix(tier: Tier): string {
    "[" + TierName(tier) + "] "
  }

  /** The product name of an offer's price: its tier in brackets, then its title. */
  function ProductName(tier: Tier, title: string): string {
    TierPrefix(tier) + title
  }

  /** `addPrice`: the amount is the offer price in cents. */
  function PriceRequestFor(tier: Tier, price: int, title: string): (r: PriceRequest)
    ensures r.currency == "usd"
    ensures r.unitAmount % 100 == 0 && r.unitAmount / 100 == price
    ensures r.productName == ProductName(tier, title)
  {
    PriceRequest("usd", price * 100, ProductName(tier, title))
  }

  predicate HasPrefix(s: string, prefix: string) {
    |prefix| <= |s| && s[..|prefix|] == prefix
  }

  /** Reads tier and title back out of a product name. */
  function ParseProductName(name: string): Option<(Tier, string)> {
    if HasPrefix(name, TierPrefix(Basic)) then Some((Basic, name[|TierPrefix(Basic)|..]))
    else if HasPrefix(name, TierPrefix(Standard)) then Some((Standard, name[|TierPrefix(Standard)|..]))
    else if HasPrefix(name, TierPrefix(Premium)) then Some((Premium, name[|TierPrefix(Premium)|..]))
    else None
  }

  /** The product name determines the tier and the title it was built from. */
  lemma ProductNameRoundTrip(tier: Tier, title: string)
    ensures ParseProductName(ProductName(tier, title)) == Some((tier, title))
  {
    var name := ProductName(tier, title);
    assert name[..|TierPrefix(tier)|] == TierPrefix(tier);
    assert name[|TierPrefix(tier)|..] == title;
    assert name[1] == TierName(tier)[0];
  }

  // ---------------------------------------------------------------------
  // setStripeAccountSetupComplete

  /** What `accounts.retrieve` reports. */
  datatype Account = Account(chargesEnabled: bool)

  /** The guards of `setStripeAccountSetupComplete`, in order: the user must
      exist, must have an account id, the account must be retrievable, and
      it must have charges enabled. */
  function SetupCheck(user: Option<Doc<User>>, retrieveAccount: string -> Result<Account>): (r: Result<()>)
    ensures user.None? ==> r == Fail("User not found")
    ensures (user.Some? && (user.value.fields.stripeAccountId.None? || user.value.fields.stripeAccountId == Some("")))
              ==> r == Fail("Stripe account not found")
    ensures r.Ok? <==> && user.Some? && user.value.fields.stripeAccountId.Some?
                       && user.value.fields.stripeAccountId.value != ""
                       && retrieveAccount(user.value.fields.stripeAccountId.value) == Ok(Account(true))
    ensures (user.Some? && user.value.fields.stripeAccountId.Some? && user.value.fields.stripeAccountId.value != ""
             && retrieveAccount(user.value.fields.stripeAccountId.value) == Ok(Account(false)))
              ==> r == Fail("Stripe account not setup")
    ensures (user.Some? && user.value.fields.stripeAccountId.Some? && user.value.fields.stripeAccountId.value != ""
             && retrieveAccount(user.value.fields.stripeAccountId.value).Err?)
              ==> r == Err(retrieveAccount(user.value.fields.stripeAccountId.value).thrown)
  {
    if user.None? then Fail("User not found")
    else
      var accountId := user.value.fields.stripeAccountId;
      if accountId.None? || accountId.value == "" then Fail("Stripe account not found")
      else
        var account :- retrieveAccount(accountId.value);
        if account.chargesEnabled then Ok(()) else Fail("Stripe account not setup")
  }

  /** `setStripeAccountSetupComplete`: sets the user's setup flag when the
      checks pass; otherwise throws and changes nothing. */
  method SetStripeAccountSetupComplete(db: Database, userId: Id, retrieveAccount: string -> Result<Account>)
    returns (r: Result<()>)
    requires db.users.Valid()
    modifies db.users
    ensures db.users.Valid()
    ensures r == SetupCheck(GetById(old(db.users.docs), userId), retrieveAccount)
    ensures r.Err? ==> db.users.docs == old(db.users.docs)
    ensures r.Ok? ==>
      var i := IndexOfId(old(db.users.docs), userId).value;
      var u := old(db.users.docs)[i];
      db.users.docs == old(db.users.docs)[i := Doc(userId, u.fields.(stripeAccountSetupComplete := Some(true)))]
  {
    r := SetupCheck(GetById(db.users.docs, userId), retrieveAccount);
    if r.Ok? {
      var i := IndexOfId(db.users.docs, userId).value;
      var u := db.users.docs[i];
      db.users.Patch(i, u.fields.(stripeAccountSetupComplete := Some(true)));
    }
  }
}
