# goCofwe marketplace core, modelled in Dafny

goCofwe is a freelance marketplace. Its backend runs on Convex and takes
payments through Stripe. This project models the backend pieces whose
behaviour can be stated without the surrounding services:

- the marketplace listing `get`: a search or published start set, then a
  three-stage subcategory filter, then the favorites flag and filter, then
  the seller/image/review/offer join;
- the seller-facing gig queries `getBySellerName` and
  `getGigsWithOrderAmountAndRevenue`;
- the Stripe side:
  - the webhook handler that turns a completed checkout session into an
    order;
  - `pay`, which opens a checkout session;
  - `addPrice`, which registers an offer's price;
  - `setStripeAccountSetupComplete`, which marks a seller's payout
    account as ready;
- the `/stripe` HTTP route, which logs a receipt and maps the handler's
  outcome to a status code;
- the `orders` table operations and the webhook diagnostic log;
- direct-message conversations: `getByUser`, `getConversation` and
  `getOrCreateConversation`;
- the hex text input of the colour picker, and the value it displays.

The Convex database is an in-memory store (`store.dfy`):

- One `Table<T>` object per table. Each holds an append-ordered sequence of
  documents with ids.
- `insert` appends under a fresh id. `patch` replaces one document's fields.
- `.unique()` yields null for no match, the document for one match, and
  throws for more (`Store.Unique`). `.first()` is the first match.
- Read-only queries are functions of a `Snapshot` of every table.
- Operations that write are methods on a `Database` that modify only the
  tables they name.

A thrown value is a `Result` error, and the `Thrown` type can hold an
`Error` (with its message) or some other value. The identity of the caller,
the clock, the full-text search index, the storage URL lookup and every
Stripe SDK call are parameters.

Modules:

- `wrappers.dfy`: Option and Result.
- `seqs.dfy`: array filter/find/map, `Promise.all` read as a sequential
  map, and subsequences.
- `text.dfy`: the `trim`, `toLowerCase` and `includes` string operations.
- `store.dfy`: the document store.
- `orders.dfy`, `debug.dfy`, `stripe.dfy`, `http.dfy`, `gigs.dfy`,
  `conversations.dfy` and `color_picker.dfy`: one module per source file.

## Model

| member | source | states |
|---|---|---|
| Store.Unique | convex/gigs.ts:49-52 | `.unique()`: null exactly when nothing matched, the document exactly when one matched, and the "more than one document" error otherwise |
| Store.Table.Insert | convex/orders.ts:20-23 | insert appends exactly the given value under an id no earlier document carries, and keeps ids distinct |
| Store.Table.Patch | convex/stripe.ts:192 | patch replaces the fields of one document, keeps its id, and leaves every other document unchanged |
| Store.Table.Rollback | convex/conversations.ts:123-211 | a mutation that throws commits nothing: the documents appended after the first `n` are discarded and the table stays valid |
| Store.GetById | convex/conversations.ts:174 | `db.get(id)`: the document with that id, or null exactly when no document has it |
| Store.WithIdAtMostOne | convex/gigs.ts:114-117 | in a table with distinct ids, a filter on `_id` matches at most one document, so `.unique()` on it cannot throw |
| Store.CurrentUser | convex/conversations.ts:20-35 | no identity is "Unauthorized"; no user with the token is "Couldn't authenticate user"; two users with it are the `.unique()` error; otherwise it is the single user holding the token |
| Seqs.First | convex/gigs.ts:60-62 | `.find` / `.first()`: null exactly when nothing satisfies the predicate, otherwise the earliest element that does |
| Seqs.Filter | convex/gigs.ts:65 | `Array.filter`: exactly the satisfying elements, in their original order |
| Seqs.FilterCounts | convex/gigs.ts:65 | `Array.filter` keeps every copy: each satisfying element occurs in the result as often as in the input |
| Seqs.MapResult | convex/gigs.ts:108-140 | `Promise.all` over a map, read in order: succeeds exactly when every call does, with one result per element; otherwise it fails with the first failing element's error |
| Text.Trim | convex/gigs.ts:24 | `trim` removes exactly the leading and trailing whitespace |
| Text.TrimEmptyIffAllWhitespace | convex/gigs.ts:24-29 | a string trims to "" exactly when all of it is whitespace |
| Text.TrimIdempotent | convex/gigs.ts:46 | trimming twice is trimming once |
| Text.Lower | convex/gigs.ts:61 | `toLowerCase` maps each ASCII capital to its small letter and keeps every other character and the length |
| Text.LowerIdempotent | convex/gigs.ts:61 | lower-casing twice is lower-casing once |
| Text.IncludesIffOccurs | convex/gigs.ts:69 | `includes` holds exactly when the term occurs at some position |
| Text.IncludesItself | convex/gigs.ts:69 | every string includes itself, so a name equal to the term ignoring case also contains it |
| Orders.Create | convex/orders.ts:5-25 | appends exactly one order holding the arguments unchanged plus `orderDate` = now, returns its fresh id, and writes no other table |
| Orders.OrdersByBuyer | convex/orders.ts:27-35 | exactly the orders whose buyerId is the argument, in table order |
| Orders.OrdersByGig | convex/orders.ts:37-45 | exactly the orders whose gigId is the argument, in table order |
| Orders.OrdersByBuyerAfterInsert | convex/orders.ts:20-34 | after a create, the buyer listing gains the new order at its end when it is that buyer's, and is otherwise unchanged |
| Orders.OrdersByGigAfterInsert | convex/orders.ts:20-44 | after a create, the gig listing gains the new order at its end when it is for that gig, and is otherwise unchanged |
| Debug.LogWebhook | convex/debug.ts:10-16 | appends exactly one log holding stage and data as given and timestamp = now; earlier logs and every other table are unchanged |
| Stripe.MetadataField | convex/stripe.ts:40-46 | an absent metadata key reads as empty, which the truthiness guard rejects |
| Stripe.GetOffer | convex/stripe.ts:51-54 | the offer lookup yields an offer of that gig at that tier, or null exactly when there is none |
| Stripe.OrderFromSession | convex/stripe.ts:33-73 | no metadata gives "No metadata found in session"; an empty or absent field gives "Missing required metadata in session"; no offer gives "Offer not found". Metadata with all five fields and an existing offer always succeeds, and the order is "pending"/"paid", with the offer's price, title, days and revisions, the metadata's ids and the session id |
| Stripe.WebhookOrder | convex/stripe.ts:22-76 | a failed signature check gives "Webhook signature verification failed."; another event type gives no order; a completed checkout gives exactly the session's order when it builds, and its error otherwise |
| Stripe.HandleStripeWebhook | convex/stripe.ts:8-78 | succeeds with `{success: true}` exactly when `WebhookOrder` does. Every failure and every other event type leaves the orders unchanged. Otherwise exactly one order is appended, under a fresh id |
| Stripe.RedeliveredEvent | convex/stripe.ts:61-73 | delivering the same accepted event twice inserts two orders with equal contents, because nothing looks up the session id |
| Stripe.ReconcileExample | convex/stripe.ts:40-73 | metadata {o1, g1, b1, s1, Standard} and a Standard offer of g1 at price 100, 3 days and 2 revisions give a paid, pending order for offer o1 of gig g1, bought by b1 from s1, with the offer's price, title, days and revisions and the session id |
| Stripe.Pay | convex/stripe.ts:81-148 | the price is retrieved first. The SDK's error is returned as is. A null unit amount throws before the account lookup, and a missing account throws before a session is created. Once both guards pass, exactly three calls are made, the third requesting `CheckoutRequestFor` on the seller's account, and the result is that call's error or its session URL |
| Stripe.SessionMetadata | convex/stripe.ts:128-134 | the session metadata has exactly the keys offerId, gigId, buyerId, sellerId and tier, holding the arguments and the tier name |
| Stripe.CheckoutRequestFor | convex/stripe.ts:113-134 | the requested session is a payment with one line item of quantity 1, in usd, named after the title, at the given unit amount, with the session metadata |
| Stripe.PayMetadataReconciles | convex/stripe.ts:128-134 | the metadata `pay` attaches is what the webhook reads: the order exists exactly when the gig has an offer at the paid tier, and it carries the ids `pay` was given |
| Stripe.PriceRequestFor | convex/stripe.ts:160-166 | the price is in usd, its unit amount is the offer price times 100, and the product is named with the tier in brackets followed by the title |
| Stripe.ProductNameRoundTrip | convex/stripe.ts:164 | the product name determines the tier and the title it was built from |
| Stripe.SetupCheck | convex/stripe.ts:180-196 | the guards run in order ("User not found", "Stripe account not found", the SDK's own error, "Stripe account not setup"), and the check passes exactly when the account has charges enabled |
| Stripe.SetStripeAccountSetupComplete | convex/stripe.ts:173-198 | sets `stripeAccountSetupComplete` to true on that user and nothing else exactly when the checks pass; otherwise it throws and changes nothing |
| Http.ErrorResponse | convex/http.ts:36-41 | status 400 with JSON `{error}` holding the thrown Error's message, or "Unknown error" for any other thrown value |
| Http.RouteResponse | convex/http.ts:30-41 | status 200 with a null body exactly when the action completes; otherwise the error response |
| Http.StripeRoute | convex/http.ts:11-43 | a missing or empty signature gives 400 "No signature" with no log and no order. Otherwise exactly one "received" log (timestamp, hasSignature true, payload length) is written first and kept. The action then sees the body and signature unchanged, and the response and any order follow its outcome. Every path returns a response |
| Gigs.PublishedNewestFirst | convex/gigs.ts:37-41 | the `by_published` read is the published gigs in reverse insertion order: exactly the gigs whose `published` is true |
| Gigs.StartSet | convex/gigs.ts:24-42 | a non-blank search uses the search index on the trimmed term; otherwise the start set holds exactly the published gigs |
| Gigs.StartSetWithoutSearch | convex/gigs.ts:24-41 | with no search string, or one made only of whitespace, the start set is exactly the published gigs |
| Gigs.StartSetTrimsSearch | convex/gigs.ts:24-35 | the search string is trimmed first: surrounding whitespace never changes the start set |
| Gigs.FallbackStage | convex/gigs.ts:54-76 | with no exact match: the first subcategory equal to the term ignoring case; else every subcategory whose name contains it ignoring case, if any; else no filter |
| Gigs.ChooseStage | convex/gigs.ts:44-80 | an absent or empty filter applies nothing. Two exact matches throw the `.unique()` error. One exact match is chosen. With none, the fallback stage applies |
| Gigs.ExactMatchChosen | convex/gigs.ts:46-52 | a subcategory named exactly like the trimmed filter is the one chosen, unless another shares its name and the query throws |
| Gigs.CaseInsensitiveMatchChosen | convex/gigs.ts:56-65 | with no exact match, the first subcategory in table order whose name equals the term ignoring case is chosen |
| Gigs.NoMatchLeavesUnfiltered | convex/gigs.ts:66-76 | when no name contains the term ignoring case, the list is left unfiltered |
| Gigs.InSubcategory | convex/gigs.ts:65 | exactly the gigs of that subcategory, in order |
| Gigs.InSubcategories | convex/gigs.ts:73-74 | exactly the gigs whose subcategory is one of the matched ones, in order |
| Gigs.ApplyStage | convex/gigs.ts:64-78 | each stage only removes gigs and keeps the order of the rest, and keeps every gig of the chosen subcategory or subcategories |
| Gigs.FavoriteOf | convex/gigs.ts:84-97 | a gig is flagged exactly when a favorites row exists for (the gig's seller, the gig); two such rows throw |
| Gigs.FavoritesStage | convex/gigs.ts:82-105 | without an identity gigs are unflagged and none are removed. With one, the stage succeeds exactly when no gig has two favorite rows under its key (otherwise it is the `.unique()` error), every gig is flagged, and only `favorites == "true"` cuts the list to the flagged gigs, keeping all of them |
| Gigs.FavoritesStageKeepsOrder | convex/gigs.ts:99-104 | the favorites stage only removes gigs and keeps their order |
| Gigs.JoinGig | convex/gigs.ts:108-139 | a missing seller throws "Seller not found". Otherwise the gig carries its seller, every review of the gig, its first offer in table order (null exactly when it has none), and the storage id of its first image (null exactly when it has none) |
| Gigs.JoinFailsOnlyWithoutSeller | convex/gigs.ts:114-121 | with distinct user ids, the join fails exactly when the seller is missing |
| Gigs.FilterBySubcategory | convex/gigs.ts:44-80 | the local list after the subcategory stage is the start list filtered by the chosen stage, or the `.unique()` error |
| Gigs.FlagFavorites | convex/gigs.ts:82-105 | the local list after the favorites step is the favorites stage of its input |
| Gigs.Listed | convex/gigs.ts:44-105 | the listing before the join fails only with the `.unique()` error |
| Gigs.GetSpec | convex/gigs.ts:16-144 | what `get` returns fails only with the `.unique()` error or "Seller not found"; on success it has one entry per listed gig, in the same order, carrying that gig and its favorite flag |
| Gigs.Get | convex/gigs.ts:16-144 | the method reassigning its local list returns what the stages compose to: start set, subcategory stage, favorites stage, then the join |
| Gigs.SellersCarried | convex/gigs.ts:114-139 | every gig a successful listing returns carries a stored user whose id is the gig's sellerId |
| Gigs.GetKeepsOrder | convex/gigs.ts:65-101 | the returned gigs are a subsequence of the subcategory-filtered list and of the start set |
| Gigs.ExactStageMembers | convex/gigs.ts:77-78 | whatever keeps the order of an exact-stage list lies in that subcategory |
| Gigs.ExactMatchRestrictsListing | convex/gigs.ts:46-78 | when a subcategory's name equals the trimmed filter, a successful listing holds only gigs of that subcategory |
| Gigs.JoinAllFailsOnlyWithoutSeller | convex/gigs.ts:108-121 | with distinct user ids, joining a list fails exactly when some gig in it has no seller, and then with "Seller not found" |
| Gigs.MissingSellerFailsQuery | convex/gigs.ts:108-142 | once the listing before the join succeeds, the whole query fails exactly when some listed gig's seller is missing, with "Seller not found" |
| Gigs.SellerGigs | convex/gigs.ts:160-163 | exactly the gigs of that seller, in order |
| Gigs.GetBySellerName | convex/gigs.ts:146-167 | null exactly when no user has the name; the `.unique()` error exactly when several do; otherwise all and only that user's gigs |
| Gigs.FoldPricesIsSum | convex/gigs.ts:267 | the left-to-right `reduce` from an accumulator equals the accumulator plus the sum of the prices |
| Gigs.StatsOf | convex/gigs.ts:244-294 | `orderAmount` is the number of orders of the gig; `totalRevenue` is the sum of the gig's offer prices; the image URL is the storage URL of its first image, or null when it has none |
| Gigs.GigsWithOrderAmountAndRevenue | convex/gigs.ts:219-301 | "Unauthorized" without identity and "Couldn't authenticate user" for an unknown token. Otherwise there is exactly one row per gig of the caller, newest first, and for no other gig, each carrying these counts and sums |
| Gigs.StatsAfterOrder | convex/gigs.ts:246-267 | a new order raises only its own gig's order count, by one, and never changes revenue, which sums offers, not orders |
| Conversations.ConversationsBetween | convex/conversations.ts:152-166 | exactly the stored conversations whose participants are the two users, in either order |
| Conversations.BetweenSymmetric | convex/conversations.ts:154-165 | the match for (A, B) finds the same conversations as the match for (B, A) |
| Conversations.MessagesOf | convex/conversations.ts:181-184 | exactly the messages of the conversation, in table order |
| Conversations.AuthorOf | convex/conversations.ts:186-200 | a message whose author is missing throws "Message user not found"; otherwise it is paired with the user whose id is its userId |
| Conversations.AuthorFailsOnlyWhenMissing | convex/conversations.ts:188-195 | with distinct user ids, the author join fails exactly when the author is missing |
| Conversations.GetByUser | convex/conversations.ts:18-48 | "Unauthorized" and "Couldn't authenticate user" first. Otherwise exactly the conversations in which the caller is either participant, in table order |
| Conversations.MaybeAuthorOf | convex/conversations.ts:99-107 | each message is paired with its author, or with null exactly when the author is missing; only two users with the same id make it throw |
| Conversations.GetConversation | convex/conversations.ts:52-118 | the caller is authenticated first. The other user is null exactly when the username is unknown, and then there is no conversation and there are no messages. The conversation is the single one between the two users, or null when there is none. The messages are exactly the conversation's, in order, each with its author or null. It succeeds exactly when no `.unique()` call meets two matches, and otherwise fails with the authentication error, or, once the caller is authenticated, with that error |
| Conversations.FindConversation | convex/conversations.ts:126-166 | the guards run in order ("Unauthorized", "Couldn't authenticate user", "User not found"). It succeeds exactly when the caller authenticates, one user has the name and at most one conversation is stored between them. That conversation is then the existing one, or null when none is stored. An authentication failure is passed on unchanged, and two users with the name, or two conversations between the pair, are the `.unique()` error |
| Conversations.Respond | convex/conversations.ts:181-209 | succeeds exactly when every message's author is found. The response holds the two users, the conversation, and each of its messages with its author, in order |
| Conversations.RespondFailsOnMissingAuthor | convex/conversations.ts:193-195 | with distinct user ids, a failed response is "Message user not found" |
| Conversations.GetOrCreateConversation | convex/conversations.ts:123-211 | every failed guard throws before the write, and finding an existing conversation writes nothing. Otherwise a conversation with a fresh id, participantOne = caller and participantTwo = other user is appended and the response is built from it. A throw leaves the table as it was |
| Conversations.CreateAndRespond | convex/conversations.ts:168-209 | the insert branch: the response is built from a new conversation with a fresh id and the two participants, which stays appended exactly when the response succeeds |
| Conversations.FindAfterCreate | convex/conversations.ts:152-179 | once a conversation was inserted for a pair, the lookup for that pair finds exactly it |
| Conversations.GetOrCreateTwice | convex/conversations.ts:123-211 | two calls in a row insert at most one conversation; once the first succeeds, the second returns exactly the same response |
| ColorPicker.HexGroupsIff | components/custom-color-picker.tsx:81 | `n` repetitions of the three-digit group are exactly `3n` hex digits |
| ColorPicker.HexPatternIff | components/custom-color-picker.tsx:81 | the pattern accepts exactly an optional `#` followed by three or six hex digits of either case |
| ColorPicker.OnHexInput | components/custom-color-picker.tsx:78-83 | rejected input reaches `onChange` never. Accepted input starting with `#` is passed unchanged, and other accepted input gets `#` prepended. Every emitted value starts with `#`, has length 4 or 7, and carries the input's digits |
| ColorPicker.OnHexInputFixpoint | components/custom-color-picker.tsx:81-82 | an emitted value, typed again, is accepted and emitted unchanged |
| ColorPicker.ParsedValue | components/custom-color-picker.tsx:50-52 | the displayed value is `value` when it is non-empty, otherwise the CSS form of the last used colour |

## Left out

- Stripe SDK calls are parameters that return a value or fail. These are
  `webhooks.constructEvent` (its HMAC signature check and its event
  parsing), `prices.retrieve`, `checkout.sessions.create`,
  `accounts.retrieve` and `prices.create`.
- `application_fee_amount` (10% of the unit amount) is left out, because it
  is a floating-point product with no rounding. The redirect URLs, the API
  version and the environment secrets are left out too.
- `Date.now()` and `new Date().toISOString()` are parameters.
- Http.ErrorResponse: `ctx.runAction` is assumed to pass the action's
  thrown `Error` to the HTTP action with its message unchanged. The
  Convex runtime between the two is not modelled.
- Http.StripeRoute: it passes one `now` both to the receipt log and to the
  order's `orderDate`. The source reads the clock separately for each, so
  the two timestamps may differ there.
- The caller's identity is a parameter. The full-text search index is a
  function of the gig table and the term, because its ranking is not
  modelled. `ctx.storage.getUrl` is a parameter.
- Index ordering: the `by_published` and `by_sellerId` reads in descending
  order are modelled as reverse insertion order. The other index reads are
  in insertion order.
- `toLowerCase` is modelled on ASCII letters only.
- JavaScript numbers are modelled as unbounded integers. Fractional prices
  and floating-point rounding of `price * 100` are not modelled.
- `payloadLength` counts characters of the body. JavaScript's `length`
  counts UTF-16 code units, and the two differ for characters outside the
  Basic Multilingual Plane.
- `Promise.all` over a map runs its calls in order, and the first failure in
  list order is the one reported. Concurrent interleavings are not modelled.
  Every modelled call reads a table that no concurrent call writes.
- convex/offers.ts is not part of this model. Its `getOffer` is modelled as
  the first offer of the gig whose tier has the given name.
- convex/users.ts is not part of this model:
  - `getStripeAccountId` is a parameter of `pay`;
  - `users.get` is a lookup by id;
  - `updateStripeSetup` is a patch that sets the setup flag and keeps every
    other field.
- The `data` argument of `logWebhook` accepts any JSON value. The model has
  the "received" record the route writes, plus an opaque alternative.
- The Next.js webhook route (app/api/webhook/stripe.ts) is a second entry
  point to the same handler, and is left out. It differs from the Convex
  route:
  - it answers 405 to any method but POST;
  - it has no missing-signature guard and writes no receipt log;
  - it answers success with `{received: true}`;
  - it answers failure with the text `Webhook Error: <message>` instead of
    JSON.
- Convex argument validators (`v.id`, `v.string`, the tier literal union)
  are left out, and `PayArgs` takes its tier from `Tier`. The client-facing
  functions are modelled on values that already passed them.
- Stripe.OrderFromSession: the webhook reads `offerId`, `gigId`, `buyerId`
  and `sellerId` from session metadata strings. `orders.create` validates
  them with `v.id` (convex/orders.ts:7-10) and throws on a string that is
  not an id of the right table. The model treats every string as an id and
  does not model that rejection. `ReconcileExample`'s "o1" and "g1" stand
  for such ids.
- The orders table in convex/schema.ts:102-112 has only `offerId`,
  `buyerId`, `sellerId`, `paymentStatus`, `orderDate` and `gigId`. The
  model's `Order` stores all the create arguments instead (title, price,
  delivery days, revisions, fulfillment status, Stripe session id), because
  `orders.create` spreads them all into the insert (convex/orders.ts:19-23).
  Convex's check of an inserted document against the schema is not
  modelled.
- The colour picker's React state, popover, debounced picker, refs and
  `colorToCss` are left out. `colorToCss` is a parameter of
  `ParsedValue`.
- Transactions: a Convex mutation that throws commits none of its writes.
  Only getOrCreateConversation can throw after a write, and the model rolls
  that insert back. The other mutations write last. The webhook receipt log
  is written by its own mutation, so it stays when the action then fails.
- getOrCreateConversation's "Failed to create conversation" branch is not
  modelled as a branch. `CreateAndRespond` proves that the `get`
  after the insert finds the new conversation, so the branch cannot be
  taken.
- The webhook handler does not deduplicate by session id, although a design
  goal of the system is that a session produces a single order.
  `Stripe.RedeliveredEvent` models the code as written.
- The order record carries no tier, because `orders.create` takes none.
- The favorites lookup in `get` is keyed by the gig's seller rather than by
  the viewer. `Gigs.FavoriteOf` models it as written.
- Gigs.Get: its contract ties the result to `GetSpec`. The listing's
  properties are the lemmas on `GetSpec` (`SellersCarried`,
  `GetKeepsOrder`, `ExactMatchRestrictsListing`,
  `MissingSellerFailsQuery`), and are not restated on the method.
- Gigs.ExactMatchChosen: it states that the exact match is chosen or the
  query throws. It does not state which case occurs, because the store does
  not forbid two subcategories with the same name.
- Conversations.GetOrCreateTwice: it bounds the number of inserted
  conversations by one. It does not state which call inserted it. When the
  first call's response throws, its insert is rolled back, and the second
  call may insert again.
