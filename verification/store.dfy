/** The Convex document store as the backend sees it: one table per
    document kind, each an append-ordered sequence of documents with ids.
    Only the fields the modelled functions read or write are kept. */
module Store {
  import opened Wrappers
  import opened Seqs

  /** Convex ids are opaque strings. */
  type Id = string

  /** A stored document: its `_id` and its fields. */
  datatype Doc<T> = Doc(id: Id, fields: T)

  datatype Tier = Basic | Standard | Premium

  function TierName(t: Tier): string {
    match t
    case Basic => "Basic"
    case Standard => "Standard"
    case Premium => "Premium"
  }

  datatype User = User(
    username: string,
    tokenIdentifier: string,
    stripeAccountId: Option<string>,
    stripeAccountSetupComplete: Option<bool>)

  datatype Gig = Gig(
    title: string,
    sellerId: Id,
    subcategoryId: Id,
    published: Option<bool>)

  datatype Subcategory = Subcategory(categoryId: Id, name: string)

  /** A row of `userFavorites`. */
  datatype Favorite = Favorite(userId: Id, gigId: Id)

  datatype GigMedia = GigMedia(storageId: Id, gigId: Id)

  datatype Review = Review(authorId: Id, gigId: Id, comment: string)

  datatype Offer = Offer(
    gigId: Id,
    title: string,
    tier: Tier,
    price: int,
    deliveryDays: int,
    revisions: int,
    stripePriceId: string)

  /** The arguments of `orders.create`, which are stored unchanged. */
  datatype OrderArgs = OrderArgs(
    offerId: Id,
    gigId: Id,
    buyerId: Id,
    sellerId: Id,
    fulfillmentStatus: string,
    price: int,
    title: string,
    deliveryDays: int,
    revisions: int,
    paymentStatus: string,
    stripeSessionId: string)

  /** An order row: the create arguments spread, plus `orderDate`. */
  datatype Order = Order(details: OrderArgs, orderDate: int)

  /** The `data` of a webhook log (any JSON value); the one producer in this
      model is the "received" record of the HTTP route. */
  datatype LogData =
    | Receipt(timestamp: string, hasSignature: bool, payloadLength: nat)
    | OtherData(json: string)

  datatype WebhookLog = WebhookLog(stage: string, data: LogData, timestamp: int)

  datatype Conversation = Conversation(participantOneId: Id, participantTwoId: Id)

  datatype Message = Message(userId: Id, text: Option<string>, seen: bool, conversationId: Id)

  /** The `n`-th id a table hands out. Ids of different lengths differ, so a
      counter that only grows never reuses one. */
  function MintId(n: nat): (id: Id)
    ensures |id| == n + 1
  {
    seq(n + 1, _ => 'k')
  }

  predicate IdsDistinct<T>(docs: seq<Doc<T>>) {
    forall i, j :: 0 <= i < j < |docs| ==> docs[i].id != docs[j].id
  }

  /** One table. `ctx.db.insert` appends a document under a fresh id. */
  class Table<T> {
    var docs: seq<Doc<T>>
    var nextId: nat

    ghost predicate Valid()
      reads this
    {
      && (forall i :: 0 <= i < |docs| ==> |docs[i].id| <= nextId)
      && IdsDistinct(docs)
    }

    constructor ()
      ensures Valid() && docs == []
    {
      docs := [];
      nextId := 0;
    }

    /** `ctx.db.insert(table, value)` */
    method Insert(value: T) returns (id: Id)
      requires Valid()
      modifies this
      ensures Valid()
      ensures docs == old(docs) + [Doc(id, value)]
      ensures forall i :: 0 <= i < |old(docs)| ==> old(docs)[i].id != id
    {
      id := MintId(nextId);
      docs := docs + [Doc(id, value)];
      nextId := nextId + 1;
    }

    /** `ctx.db.patch`: replaces the fields of the document at position `i`. */
    method Patch(i: nat, value: T)
      requires Valid() && i < |docs|
      modifies this
      ensures Valid()
      ensures docs == old(docs)[i := Doc(old(docs)[i].id, value)]
    {
      docs := docs[i := Doc(docs[i].id, value)];
    }

    /** A mutation that throws commits none of its writes: the documents it
        appended after the first `n` are discarded. The id counter is not
        reset, so a discarded id is never handed out again. */
    method Rollback(n: nat)
      requires Valid() && n <= |docs|
      modifies this
      ensures Valid()
      ensures docs == old(docs)[..n]
    {
      docs := docs[..n];
    }
  }

  /** The contents of every table at one moment; queries are functions of it. */
  datatype Snapshot = Snapshot(
    users: seq<Doc<User>>,
    gigs: seq<Doc<Gig>>,
    subcategories: seq<Doc<Subcategory>>,
    userFavorites: seq<Doc<Favorite>>,
    gigMedia: seq<Doc<GigMedia>>,
    reviews: seq<Doc<Review>>,
    offers: seq<Doc<Offer>>,
    orders: seq<Doc<Order>>,
    webhookLogs: seq<Doc<WebhookLog>>,
    conversations: seq<Doc<Conversation>>,
    messages: seq<Doc<Message>>)

  class Database {
    const users: Table<User>
    const gigs: Table<Gig>
    const subcategories: Table<Subcategory>
    const userFavorites: Table<Favorite>
    const gigMedia: Table<GigMedia>
    const reviews: Table<Review>
    const offers: Table<Offer>
    const orders: Table<Order>
    const webhookLogs: Table<WebhookLog>
    const conversations: Table<Conversation>
    const messages: Table<Message>

    constructor ()
      ensures Snap() == Snapshot([], [], [], [], [], [], [], [], [], [], [])
      ensures users.Valid() && gigs.Valid() && subcategories.Valid() && userFavorites.Valid()
      ensures gigMedia.Valid() && reviews.Valid() && offers.Valid() && orders.Valid()
      ensures webhookLogs.Valid() && conversations.Valid() && messages.Valid()
    {
      users := new Table();
      gigs := new Table();
      subcategories := new Table();
      userFavorites := new Table();
      gigMedia := new Table();
      reviews := new Table();
      offers := new Table();
      orders := new Table();
      webhookLogs := new Table();
      conversations := new Table();
      messages := new Table();
    }

    function Snap(): Snapshot
      reads users, gigs, subcategories, userFavorites, gigMedia, reviews, offers,
            orders, webhookLogs, conversations, messages
    {
      Snapshot(users.docs, gigs.docs, subcategories.docs, userFavorites.docs, gigMedia.docs,
               reviews.docs, offers.docs, orders.docs, webhookLogs.docs, conversations.docs,
               messages.docs)
    }
  }

  /** The message of the error `.unique()` throws when more than one document matches. */
  const NotUnique := "unique() query returned more than one document"

  /** `.unique()` on the documents a query matched: null for none, the
      document for one, and an error for more. */
  function Unique<T>(matches: seq<T>): (r: Result<Option<T>>)
    ensures r == Ok(None) <==> matches == []
    ensures (r.Ok? && r.value.Some?) <==> |matches| == 1
    ensures r.Ok? && r.value.Some? ==> matches == [r.value.value]
    ensures r.Err? ==> r == Fail(NotUnique)
  {
    if |matches| == 0 then Ok(None)
    else if |matches| == 1 then Ok(Some(matches[0]))
    else Fail(NotUnique)
  }

  /** The documents whose `_id` is `id` (a `.filter` on `_id`). */
  function WithId<T>(docs: seq<Doc<T>>, id: Id): (r: seq<Doc<T>>)
  {
    Filter(docs, (d: Doc<T>) => d.id == id)
  }

  /** An id no document carries matches nothing. */
  lemma WithIdAbsent<T>(docs: seq<Doc<T>>, id: Id)
    requires forall i :: 0 <= i < |docs| ==> docs[i].id != id
    ensures WithId(docs, id) == []
  {
  }

  /** In a table with distinct ids, `_id` matches at most one document. */
  lemma {:induction false} WithIdAtMostOne<T>(docs: seq<Doc<T>>, id: Id)
    requires IdsDistinct(docs)
    ensures |WithId(docs, id)| <= 1
    decreases |docs|
  {
    if docs != [] {
      var rest := docs[1..];
      assert IdsDistinct(rest) by {
        forall i, j | 0 <= i < j < |rest| ensures rest[i].id != rest[j].id {
          assert rest[i] == docs[i + 1] && rest[j] == docs[j + 1];
        }
      }
      WithIdAtMostOne(rest, id);
      if docs[0].id == id {
        assert forall i :: 0 <= i < |rest| ==> rest[i] == docs[i + 1];
        WithIdAbsent(rest, id);
      }
    }
  }

  /** The position of the document whose `_id` is `id`. */
  function IndexOfId<T>(docs: seq<Doc<T>>, id: Id): (r: Option<nat>)
    ensures r.Some? ==> r.value < |docs| && docs[r.value].id == id
    ensures r.None? <==> forall i :: 0 <= i < |docs| ==> docs[i].id != id
    decreases |docs|
  {
    if docs == [] then None
    else if docs[0].id == id then Some(0)
    else
      match IndexOfId(docs[1..], id)
      case None => None
      case Some(k) => Some(k + 1)
  }

  /** `ctx.db.get(id)` */
  function GetById<T>(docs: seq<Doc<T>>, id: Id): (r: Option<Doc<T>>)
    ensures r.Some? ==> r.value in docs && r.value.id == id
    ensures r.None? <==> forall i :: 0 <= i < |docs| ==> docs[i].id != id
  {
    match IndexOfId(docs, id)
    case None => None
    case Some(i) => Some(docs[i])
  }

  /** The caller's identity as the auth provider reports it. */
  datatype Identity = Identity(tokenIdentifier: string)

  function UsersWithToken(users: seq<Doc<User>>, token: string): seq<Doc<User>>
  {
    Filter(users, (u: Doc<User>) => u.fields.tokenIdentifier == token)
  }

  function UsersWithUsername(users: seq<Doc<User>>, name: string): seq<Doc<User>>
  {
    Filter(users, (u: Doc<User>) => u.fields.username == name)
  }

  /** The authentication preamble shared by the queries and mutations: no
      identity is "Unauthorized", no user with its token is "Couldn't
      authenticate user", otherwise the single user holding the token. */
  function CurrentUser(users: seq<Doc<User>>, identity: Option<Identity>): (r: Result<Doc<User>>)
    ensures identity.None? ==> r == Fail("Unauthorized")
    ensures (identity.Some? && UsersWithToken(users, identity.value.tokenIdentifier) == [])
            ==> r == Fail("Couldn't authenticate user")
    ensures r.Ok? <==> identity.Some? && |UsersWithToken(users, identity.value.tokenIdentifier)| == 1
    ensures r.Ok? ==> r.value in users && r.value.fields.tokenIdentifier == identity.value.tokenIdentifier
    ensures r.Err? ==> r == Fail("Unauthorized") || r == Fail("Couldn't authenticate user") || r == Fail(NotUnique)
    ensures (identity.Some? && |UsersWithToken(users, identity.value.tokenIdentifier)| >= 2) ==> r == Fail(NotUnique)
  {
    if identity.None? then Fail("Unauthorized")
    else
      var user :- Unique(UsersWithToken(users, identity.value.tokenIdentifier));
      if user.None? then Fail("Couldn't authenticate user") else Ok(user.value)
  }
}
