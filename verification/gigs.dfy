/** The gig queries: the marketplace listing `get` (search or published
    start set, the three-stage subcategory filter, the favorites flag and
    filter, and the join with image, seller, reviews and offer), the
    listing of one seller's gigs, and the seller dashboard's order counts
    and revenue. */
module Gigs {
  import opened Wrappers
  import opened Seqs
  import opened Text
  import opened Store
  import Orders

  // ---------------------------------------------------------------------
  // Start set

  /** The full-text search index: the gigs whose title matches the term, in
      the index's relevance order. Its ranking is not modelled. */
  type SearchIndex = (seq<Doc<Gig>>, string) -> seq<Doc<Gig>>

  function IsPublished(g: Doc<Gig>): bool {
    g.fields.published == Some(true)
  }

  /** The `by_published` index read for `published == true` in descending
      order: the published gigs, newest first, that is, in reverse insertion
      order. */
  function PublishedNewestFirst(gigs: seq<Doc<Gig>>): (r: seq<Doc<Gig>>)
    ensures r == Reverse(Filter(gigs, IsPublished))
    ensures |r| <= |gigs|
    ensures forall i :: 0 <= i < |r| ==> r[i] in gigs && r[i].fields.published == Some(true)
    ensures forall i :: 0 <= i < |gigs| && gigs[i].fields.published == Some(true) ==> gigs[i] in r
  {
    var published := Filter(gigs, IsPublished);
    ReverseMembers(published);
    Reverse(published)
  }

  /** The list `get` starts from: the search results for the trimmed search
      string when that is non-empty, otherwise the published gigs. */
  function StartSet(gigs: seq<Doc<Gig>>, search: Option<string>, searchIndex: SearchIndex): (r: seq<Doc<Gig>>)
    ensures (search.Some? && Trim(search.value) != "") ==> r == searchIndex(gigs, Trim(search.value))
    ensures (search.None? || Trim(search.value) == "") ==>
      && (forall i :: 0 <= i < |r| ==> r[i] in gigs && r[i].fields.published == Some(true))
      && (forall i :: 0 <= i < |gigs| && gigs[i].fields.published == Some(true) ==> gigs[i] in r)
  {
    if search.Some? && Trim(search.value) != "" then searchIndex(gigs, Trim(search.value))
    else PublishedNewestFirst(gigs)
  }

  /** With no search string, or one made only of whitespace, the start set is
      exactly the published gigs. */
  lemma StartSetWithoutSearch(gigs: seq<Doc<Gig>>, search: Option<string>, searchIndex: SearchIndex)
    requires search.None? || forall k :: 0 <= k < |search.value| ==> IsWhitespace(search.value[k])
    ensures var r := StartSet(gigs, search, searchIndex);
      && (forall i :: 0 <= i < |r| ==> r[i] in gigs && r[i].fields.published == Some(true))
      && (forall i :: 0 <= i < |gigs| && gigs[i].fields.published == Some(true) ==> gigs[i] in r)
  {
    if search.Some? {
      TrimEmptyIffAllWhitespace(search.value);
    }
  }

  /** The search string is trimmed before use: surrounding whitespace does
      not change the start set. */
  lemma StartSetTrimsSearch(gigs: seq<Doc<Gig>>, s: string, searchIndex: SearchIndex)
    ensures StartSet(gigs, Some(s), searchIndex) == StartSet(gigs, Some(Trim(s)), searchIndex)
  {
    TrimIdempotent(s);
  }

  // ---------------------------------------------------------------------
  // Subcategory filter

  /** Which subcategory filter `get` applies. */
  datatype Stage =
    | Unfiltered
    | Exact(sub: Doc<Subcategory>)
    | CaseInsensitive(sub: Doc<Subcategory>)
    | Partial(subs: seq<Doc<Subcategory>>)

  function ExactName(term: string): Doc<Subcategory> -> bool {
    (s: Doc<Subcategory>) => s.fields.name == term
  }

  function NameIgnoringCase(term: string): Doc<Subcategory> -> bool {
    (s: Doc<Subcategory>) => Lower(s.fields.name) == Lower(term)
  }

  function NameContains(term: string): Doc<Subcategory> -> bool {
    (s: Doc<Subcategory>) => Includes(Lower(s.fields.name), Lower(term))
  }

  /** The stages tried once no subcategory is named exactly `term`: the
      first name equal to it ignoring case, else every name containing it
      ignoring case, else nothing. */
  function FallbackStage(subs: seq<Doc<Subcategory>>, term: string): (r: Stage)
    ensures !r.Exact?
    ensures r.CaseInsensitive? ==>
      exists i :: 0 <= i < |subs| && subs[i] == r.sub
                  && Lower(subs[i].fields.name) == Lower(term)
                  && forall j :: 0 <= j < i ==> Lower(subs[j].fields.name) != Lower(term)
    ensures r.Partial? ==>
      && (forall i :: 0 <= i < |subs| ==> Lower(subs[i].fields.name) != Lower(term))
      && r.subs != []
      && r.subs == Filter(subs, NameContains(term))
    ensures r.Unfiltered? ==> forall i :: 0 <= i < |subs| ==> !Includes(Lower(subs[i].fields.name), Lower(term))
  {
    match First(subs, NameIgnoringCase(term))
    case Some(s) => CaseInsensitive(s)
    case None =>
      var partial := Filter(subs, NameContains(term));
      if |partial| > 0 then Partial(partial) else Unfiltered
  }

  /** The subcategory stage of `get`. An absent or empty filter applies
      nothing. Otherwise, for the trimmed term: a single exact name match
      wins (two or more make `.unique()` throw); failing that, the
      fallback stages. */
  function ChooseStage(subs: seq<Doc<Subcategory>>, filter: Option<string>): (r: Result<Stage>)
    ensures (filter.None? || filter.value == "") ==> r == Ok(Unfiltered)
    ensures r.Err? ==>
      && r == Fail(NotUnique)
      && filter.Some? && |Filter(subs, ExactName(Trim(filter.value)))| >= 2
    ensures r.Ok? && r.value.Exact? ==>
      && filter.Some? && filter.value != ""
      && r.value.sub in subs && r.value.sub.fields.name == Trim(filter.value)
      && Filter(subs, ExactName(Trim(filter.value))) == [r.value.sub]
    ensures (r.Ok? && !r.value.Exact? && filter.Some? && filter.value != "") ==>
      && (forall i :: 0 <= i < |subs| ==> subs[i].fields.name != Trim(filter.value))
      && r.value == FallbackStage(subs, Trim(filter.value))
  {
    if filter.None? || filter.value == "" then Ok(Unfiltered)
    else
      var term := Trim(filter.value);
      var exact :- Unique(Filter(subs, ExactName(term)));
      if exact.Some? then Ok(Exact(exact.value)) else Ok(FallbackStage(subs, term))
  }

  /** A subcategory named exactly like the trimmed filter is chosen, unless
      another has the same name, in which case the query throws. */
  lemma ExactMatchChosen(subs: seq<Doc<Subcategory>>, filter: string, i: nat)
    requires filter != "" && i < |subs| && subs[i].fields.name == Trim(filter)
    ensures ChooseStage(subs, Some(filter)) == Ok(Exact(subs[i]))
            || ChooseStage(subs, Some(filter)) == Fail(NotUnique)
  {
    var matches := Filter(subs, ExactName(Trim(filter)));
    assert subs[i] in matches;
  }

  /** With no exact match, the first subcategory equal to the term ignoring
      case is chosen, whatever later ones match. */
  lemma CaseInsensitiveMatchChosen(subs: seq<Doc<Subcategory>>, filter: string, i: nat)
    requires filter != "" && i < |subs|
    requires forall k :: 0 <= k < |subs| ==> subs[k].fields.name != Trim(filter)
    requires Lower(subs[i].fields.name) == Lower(Trim(filter))
    requires forall k :: 0 <= k < i ==> Lower(subs[k].fields.name) != Lower(Trim(filter))
    ensures ChooseStage(subs, Some(filter)) == Ok(CaseInsensitive(subs[i]))
  {
    var term := Trim(filter);
    forall k | 0 <= k < |subs| ensures !ExactName(term)(subs[k]) {
    }
    FilterNone(subs, ExactName(term));
    FirstCaseInsensitive(subs, term, i);
  }

  /** The fallback picks the first name equal to the term ignoring case. */
  lemma FirstCaseInsensitive(subs: seq<Doc<Subcategory>>, term: string, i: nat)
    requires i < |subs| && Lower(subs[i].fields.name) == Lower(term)
    requires forall k :: 0 <= k < i ==> Lower(subs[k].fields.name) != Lower(term)
    ensures FallbackStage(subs, term) == CaseInsensitive(subs[i])
  {
    var first := First(subs, NameIgnoringCase(term));
    assert NameIgnoringCase(term)(subs[i]);
    var j :| 0 <= j < |subs| && subs[j] == first.value && NameIgnoringCase(term)(subs[j])
             && forall k :: 0 <= k < j ==> !NameIgnoringCase(term)(subs[k]);
    assert j == i;
  }

  /** When no name contains the term, even ignoring case, the list is left
      unfiltered. */
  lemma NoMatchLeavesUnfiltered(subs: seq<Doc<Subcategory>>, filter: string)
    requires forall k :: 0 <= k < |subs| ==> !Includes(Lower(subs[k].fields.name), Lower(Trim(filter)))
    ensures ChooseStage(subs, Some(filter)) == Ok(Unfiltered)
  {
    var term := Trim(filter);
    forall k | 0 <= k < |subs|
      ensures !ExactName(term)(subs[k]) && !NameIgnoringCase(term)(subs[k]) && !NameContains(term)(subs[k])
    {
      IncludesItself(Lower(subs[k].fields.name));
    }
    FilterNone(subs, ExactName(term));
    FilterNone(subs, NameContains(term));
    assert FallbackStage(subs, term) == Unfiltered;
  }

  function InSubcategory(gigs: seq<Doc<Gig>>, id: Id): (r: seq<Doc<Gig>>)
    ensures forall i :: 0 <= i < |r| ==> r[i] in gigs && r[i].fields.subcategoryId == id
    ensures forall i :: 0 <= i < |gigs| && gigs[i].fields.subcategoryId == id ==> gigs[i] in r
    ensures IsSubsequence(r, gigs)
  {
    Filter(gigs, (g: Doc<Gig>) => g.fields.subcategoryId == id)
  }

  function IdsOf(subs: seq<Doc<Subcategory>>): set<Id> {
    set i | 0 <= i < |subs| :: subs[i].id
  }

  function InSubcategories(gigs: seq<Doc<Gig>>, ids: set<Id>): (r: seq<Doc<Gig>>)
    ensures forall i :: 0 <= i < |r| ==> r[i] in gigs && r[i].fields.subcategoryId in ids
    ensures forall i :: 0 <= i < |gigs| && gigs[i].fields.subcategoryId in ids ==> gigs[i] in r
    ensures IsSubsequence(r, gigs)
  {
    Filter(gigs, (g: Doc<Gig>) => g.fields.subcategoryId in ids)
  }

  /** Applies the chosen stage: it only removes gigs and keeps the order of
      the rest. */
  function ApplyStage(gigs: seq<Doc<Gig>>, stage: Stage): (r: seq<Doc<Gig>>)
    ensures IsSubsequence(r, gigs)
    ensures stage.Unfiltered? ==> r == gigs
    ensures (stage.Exact? || stage.CaseInsensitive?) ==>
      && (forall i :: 0 <= i < |r| ==> r[i].fields.subcategoryId == stage.sub.id)
      && (forall i :: 0 <= i < |gigs| && gigs[i].fields.subcategoryId == stage.sub.id ==> gigs[i] in r)
    ensures stage.Partial? ==>
      && (forall i :: 0 <= i < |r| ==> exists k :: 0 <= k < |stage.subs| && stage.subs[k].id == r[i].fields.subcategoryId)
      && (forall i, k :: 0 <= i < |gigs| && 0 <= k < |stage.subs| && stage.subs[k].id == gigs[i].fields.subcategoryId ==> gigs[i] in r)
  {
    match stage
    case Unfiltered => SubsequenceReflexive(gigs); gigs
    case Exact(s) => InSubcategory(gigs, s.id)
    case CaseInsensitive(s) => InSubcategory(gigs, s.id)
    case Partial(subs) => InSubcategories(gigs, IdsOf(subs))
  }

  // ---------------------------------------------------------------------
  // Favorites

  /** A gig as the listing carries it after the favorites stage; `favorited`
      is absent when the caller is not signed in. */
  datatype ListedGig = ListedGig(gig: Doc<Gig>, favorited: Option<bool>)

  function GigOfListed(l: ListedGig): Doc<Gig> {
    l.gig
  }

  function ListedGigs(ls: seq<ListedGig>): seq<Doc<Gig>> {
    Map(GigOfListed, ls)
  }

  function FavoriteKey(userId: Id, gigId: Id): Doc<Favorite> -> bool {
    (f: Doc<Favorite>) => f.fields.userId == userId && f.fields.gigId == gigId
  }

  /** A `userFavorites` row for the gig under its seller's id, which is the
      key the listing looks up (not the viewer's id). */
  predicate HasFavoriteRow(favs: seq<Doc<Favorite>>, g: Doc<Gig>) {
    exists i :: 0 <= i < |favs| && favs[i].fields.userId == g.fields.sellerId && favs[i].fields.gigId == g.id
  }

  /** The favorite flag of one gig: the `by_user_gig` lookup keyed by the
      gig's seller, which throws when two rows share the key. */
  function FavoriteOf(favs: seq<Doc<Favorite>>, g: Doc<Gig>): (r: Result<ListedGig>)
    ensures r.Ok? ==> r.value.gig == g && r.value.favorited == Some(HasFavoriteRow(favs, g))
    ensures r.Err? ==> r == Fail(NotUnique) && |Filter(favs, FavoriteKey(g.fields.sellerId, g.id))| >= 2
    ensures r.Ok? <==> |Filter(favs, FavoriteKey(g.fields.sellerId, g.id))| <= 1
  {
    var rows := Filter(favs, FavoriteKey(g.fields.sellerId, g.id));
    assert HasFavoriteRow(favs, g) <==> rows != [] by {
      if rows != [] {
        assert rows[0] in favs;
      }
    }
    var f :- Unique(rows);
    Ok(ListedGig(g, Some(f.Some?)))
  }

  function FlagStep(favs: seq<Doc<Favorite>>): Doc<Gig> -> Result<ListedGig> {
    (g: Doc<Gig>) => FavoriteOf(favs, g)
  }

  function Unflagged(gigs: seq<Doc<Gig>>): seq<ListedGig> {
    Map((g: Doc<Gig>) => ListedGig(g, None), gigs)
  }

  function IsFavorited(l: ListedGig): bool {
    l.favorited == Some(true)
  }

  /** The favorites stage: only a signed-in caller gets flags, and only a
      signed-in caller asking for `favorites == "true"` gets the list cut
      down to the flagged gigs. */
  function FavoritesStage(favs: seq<Doc<Favorite>>, identity: Option<Identity>, favorites: Option<string>,
                          gigs: seq<Doc<Gig>>): (r: Result<seq<ListedGig>>)
    ensures identity.None? ==> r.Ok? && |r.value| == |gigs|
                               && forall i :: 0 <= i < |gigs| ==> r.value[i] == ListedGig(gigs[i], None)
    ensures r.Err? ==> identity.Some? && r == Fail(NotUnique)
    ensures identity.Some? ==>
      (r.Ok? <==> forall i :: 0 <= i < |gigs| ==> |Filter(favs, FavoriteKey(gigs[i].fields.sellerId, gigs[i].id))| <= 1)
    ensures (r.Ok? && favorites != Some("true")) ==> |r.value| == |gigs|
    ensures (identity.Some? && r.Ok?) ==>
      forall i :: 0 <= i < |r.value| ==> r.value[i].favorited == Some(HasFavoriteRow(favs, r.value[i].gig))
    ensures (identity.Some? && favorites != Some("true") && r.Ok?) ==> ListedGigs(r.value) == gigs
    ensures (identity.Some? && favorites == Some("true") && r.Ok?) ==>
      && (forall i :: 0 <= i < |r.value| ==> r.value[i].favorited == Some(true) && r.value[i].gig in gigs)
      && (forall i :: 0 <= i < |gigs| && HasFavoriteRow(favs, gigs[i]) ==> ListedGig(gigs[i], Some(true)) in r.value)
  {
    if identity.None? then Ok(Unflagged(gigs))
    else
      var flagged :- MapResult(FlagStep(favs), gigs);
      assert forall i :: 0 <= i < |gigs| ==> flagged[i] == ListedGig(gigs[i], Some(HasFavoriteRow(favs, gigs[i])));
      if favorites == Some("true") then Ok(Filter(flagged, IsFavorited)) else Ok(flagged)
  }

  /** The favorites stage only removes gigs and keeps the order of the rest. */
  lemma FavoritesStageKeepsOrder(favs: seq<Doc<Favorite>>, identity: Option<Identity>, favorites: Option<string>,
                                 gigs: seq<Doc<Gig>>)
    requires FavoritesStage(favs, identity, favorites, gigs).Ok?
    ensures IsSubsequence(ListedGigs(FavoritesStage(favs, identity, favorites, gigs).value), gigs)
  {
    var r := FavoritesStage(favs, identity, favorites, gigs).value;
    if identity.None? {
      assert ListedGigs(r) == gigs;
      SubsequenceReflexive(gigs);
    } else {
      var flagged := MapResult(FlagStep(favs), gigs).value;
      assert ListedGigs(flagged) == gigs;
      if favorites == Some("true") {
        MapSubsequence(GigOfListed, r, flagged);
      } else {
        SubsequenceReflexive(gigs);
      }
    }
  }

  // ---------------------------------------------------------------------
  // Join

  /** A listed gig with its first image, its seller, its reviews and its
      first offer. */
  datatype FullGig = FullGig(
    gig: Doc<Gig>,
    favorited: Option<bool>,
    storageId: Option<Id>,
    seller: Doc<User>,
    reviews: seq<Doc<Review>>,
    offer: Option<Doc<Offer>>)

  function GigOfFull(f: FullGig): Doc<Gig> {
    f.gig
  }

  function FullGigs(fs: seq<FullGig>): seq<Doc<Gig>> {
    Map(GigOfFull, fs)
  }

  function MediaOfGig(gigId: Id): Doc<GigMedia> -> bool {
    (m: Doc<GigMedia>) => m.fields.gigId == gigId
  }

  function ReviewOfGig(gigId: Id): Doc<Review> -> bool {
    (r: Doc<Review>) => r.fields.gigId == gigId
  }

  function OfferOfGig(gigId: Id): Doc<Offer> -> bool {
    (o: Doc<Offer>) => o.fields.gigId == gigId
  }

  /** The per-gig join of `get`: a missing seller throws "Seller not found". */
  function JoinGig(snap: Snapshot, l: ListedGig): (r: Result<FullGig>)
    ensures (forall i :: 0 <= i < |snap.users| ==> snap.users[i].id != l.gig.fields.sellerId)
              ==> r == Fail("Seller not found")
    ensures r.Ok? ==>
      && r.value.gig == l.gig && r.value.favorited == l.favorited
      && r.value.seller in snap.users && r.value.seller.id == l.gig.fields.sellerId
      && (forall i :: 0 <= i < |r.value.reviews| ==> r.value.reviews[i] in snap.reviews && r.value.reviews[i].fields.gigId == l.gig.id)
      && (forall i :: 0 <= i < |snap.reviews| && snap.reviews[i].fields.gigId == l.gig.id ==> snap.reviews[i] in r.value.reviews)
      && (r.value.offer.None? <==> forall i :: 0 <= i < |snap.offers| ==> snap.offers[i].fields.gigId != l.gig.id)
      && (r.value.offer.Some? ==> r.value.offer.value in snap.offers && r.value.offer.value.fields.gigId == l.gig.id)
      && (r.value.storageId.None? <==> forall i :: 0 <= i < |snap.gigMedia| ==> snap.gigMedia[i].fields.gigId != l.gig.id)
      && r.value.offer == First(snap.offers, OfferOfGig(l.gig.id))
      && (First(snap.gigMedia, MediaOfGig(l.gig.id)).Some? ==>
            r.value.storageId == Some(First(snap.gigMedia, MediaOfGig(l.gig.id)).value.fields.storageId))
  {
    var image := First(snap.gigMedia, MediaOfGig(l.gig.id));
    var seller :- Unique(WithId(snap.users, l.gig.fields.sellerId));
    if seller.None? then Fail("Seller not found")
    else
      Ok(FullGig(
        l.gig, l.favorited,
        if image.Some? then Some(image.value.fields.storageId) else None,
        seller.value,
        Filter(snap.reviews, ReviewOfGig(l.gig.id)),
        First(snap.offers, OfferOfGig(l.gig.id))))
  }

  /** With distinct user ids, the join fails exactly when the seller is
      missing, and then with "Seller not found". */
  lemma JoinFailsOnlyWithoutSeller(snap: Snapshot, l: ListedGig)
    requires IdsDistinct(snap.users)
    ensures JoinGig(snap, l).Err? <==> forall i :: 0 <= i < |snap.users| ==> snap.users[i].id != l.gig.fields.sellerId
    ensures JoinGig(snap, l).Err? ==> JoinGig(snap, l) == Fail("Seller not found")
  {
    WithIdAtMostOne(snap.users, l.gig.fields.sellerId);
    var matches := WithId(snap.users, l.gig.fields.sellerId);
    if exists i :: 0 <= i < |snap.users| && snap.users[i].id == l.gig.fields.sellerId {
      var i :| 0 <= i < |snap.users| && snap.users[i].id == l.gig.fields.sellerId;
      assert snap.users[i] in matches;
    }
  }

  function JoinStep(snap: Snapshot): ListedGig -> Result<FullGig> {
    (l: ListedGig) => JoinGig(snap, l)
  }

  // ---------------------------------------------------------------------
  // get

  /** The listing before the join: start set, subcategory stage, favorites. */
  function Listed(snap: Snapshot, identity: Option<Identity>, search: Option<string>, favorites: Option<string>,
                  filter: Option<string>, searchIndex: SearchIndex): (r: Result<seq<ListedGig>>)
    ensures r.Err? ==> r == Fail(NotUnique)
  {
    var stage :- ChooseStage(snap.subcategories, filter);
    FavoritesStage(snap.userFavorites, identity, favorites, ApplyStage(StartSet(snap.gigs, search, searchIndex), stage))
  }

  /** What `get` returns. */
  function GetSpec(snap: Snapshot, identity: Option<Identity>, search: Option<string>, favorites: Option<string>,
                   filter: Option<string>, searchIndex: SearchIndex): (r: Result<seq<FullGig>>)
    ensures r.Err? ==> r == Fail(NotUnique) || r == Fail("Seller not found")
    ensures r.Ok? ==>
      && Listed(snap, identity, search, favorites, filter, searchIndex).Ok?
      && var listed := Listed(snap, identity, search, favorites, filter, searchIndex).value;
      && |r.value| == |listed|
      && forall i :: 0 <= i < |r.value| ==> r.value[i].gig == listed[i].gig && r.value[i].favorited == listed[i].favorited
  {
    var listed :- Listed(snap, identity, search, favorites, filter, searchIndex);
    MapResult(JoinStep(snap), listed)
  }

  /** The subcategory stage of `get`, run on its local list: the exact
      lookup, then the case-insensitive search, then the partial matches. */
  method FilterBySubcategory(db: Database, gigs: seq<Doc<Gig>>, filter: Option<string>)
    returns (r: Result<seq<Doc<Gig>>>)
    ensures ChooseStage(db.subcategories.docs, filter).Err? ==> r == Err(ChooseStage(db.subcategories.docs, filter).thrown)
    ensures ChooseStage(db.subcategories.docs, filter).Ok? ==> r == Ok(ApplyStage(gigs, ChooseStage(db.subcategories.docs, filter).value))
  {
    ghost var stage := Unfiltered;
    r := Ok(gigs);
    if filter.Some? && filter.value != "" {
      var filterTerm := Trim(filter.value);
      var subcategory := Unique(Filter(db.subcategories.docs, ExactName(filterTerm)));
      if subcategory.Err? {
        return Err(subcategory.thrown);
      }
      if subcategory.value.None? {
        var allSubcategories := db.subcategories.docs;
        var matching := First(allSubcategories, NameIgnoringCase(filterTerm));
        if matching.Some? {
          stage := CaseInsensitive(matching.value);
          r := Ok(InSubcategory(gigs, matching.value.id));
        } else {
          var matchingSubcategories := Filter(allSubcategories, NameContains(filterTerm));
          if |matchingSubcategories| > 0 {
            stage := Partial(matchingSubcategories);
            r := Ok(InSubcategories(gigs, IdsOf(matchingSubcategories)));
          }
        }
      } else {
        stage := Exact(subcategory.value.value);
        r := Ok(InSubcategory(gigs, subcategory.value.value.id));
      }
    }
    assert ChooseStage(db.subcategories.docs, filter) == Ok(stage);
  }

  /** The favorites stage of `get`, run on its local list. */
  method FlagFavorites(db: Database, identity: Option<Identity>, favorites: Option<string>, gigs: seq<Doc<Gig>>)
    returns (r: Result<seq<ListedGig>>)
    ensures r == FavoritesStage(db.userFavorites.docs, identity, favorites, gigs)
  {
    var listed := Unflagged(gigs);
    if identity.Some? {
      var withFavorite := MapResult(FlagStep(db.userFavorites.docs), gigs);
      if withFavorite.Err? {
        return Err(withFavorite.thrown);
      }
      if favorites == Some("true") {
        listed := Filter(withFavorite.value, IsFavorited);
      } else {
        listed := withFavorite.value;
      }
    }
    return Ok(listed);
  }

  /** `get`, reassigning its local list stage by stage; what it returns is
      `GetSpec`, whose properties are the lemmas below. */
  method Get(db: Database, identity: Option<Identity>, search: Option<string>, favorites: Option<string>,
             filter: Option<string>, searchIndex: SearchIndex)
    returns (r: Result<seq<FullGig>>)
    ensures r == GetSpec(db.Snap(), identity, search, favorites, filter, searchIndex)
  {
    ghost var snap := db.Snap();
    var gigs: seq<Doc<Gig>>;
    var title := if search.Some? then Some(Trim(search.value)) else None;
    if title.Some? && title.value != "" {
      gigs := searchIndex(db.gigs.docs, title.value);
    } else {
      gigs := PublishedNewestFirst(db.gigs.docs);
    }
    ghost var start := gigs;
    assert start == StartSet(snap.gigs, search, searchIndex);

    var filtered := FilterBySubcategory(db, gigs, filter);
    if filtered.Err? {
      return Err(filtered.thrown);
    }
    gigs := filtered.value;
    assert ChooseStage(snap.subcategories, filter).Ok?;
    assert gigs == ApplyStage(start, ChooseStage(snap.subcategories, filter).value);

    var listed := FlagFavorites(db, identity, favorites, gigs);
    if listed.Err? {
      return Err(listed.thrown);
    }
    assert Listed(snap, identity, search, favorites, filter, searchIndex) == listed;

    r := MapResult(JoinStep(db.Snap()), listed.value);
  }

  /** Every gig a successful listing returns carries its seller. */
  lemma SellersCarried(snap: Snapshot, identity: Option<Identity>, search: Option<string>, favorites: Option<string>,
                       filter: Option<string>, searchIndex: SearchIndex)
    requires GetSpec(snap, identity, search, favorites, filter, searchIndex).Ok?
    ensures var r := GetSpec(snap, identity, search, favorites, filter, searchIndex).value;
      forall i :: 0 <= i < |r| ==> r[i].seller in snap.users && r[i].seller.id == r[i].gig.fields.sellerId
  {
    var listed := Listed(snap, identity, search, favorites, filter, searchIndex).value;
    var r := GetSpec(snap, identity, search, favorites, filter, searchIndex).value;
    forall i | 0 <= i < |r| ensures r[i].seller in snap.users && r[i].seller.id == r[i].gig.fields.sellerId {
      assert JoinStep(snap)(listed[i]) == Ok(r[i]);
    }
  }

  /** The returned gigs keep the order of the filtered start set; in
      particular they are a subsequence of the start set. */
  lemma {:induction false} GetKeepsOrder(snap: Snapshot, identity: Option<Identity>, search: Option<string>,
                                         favorites: Option<string>, filter: Option<string>, searchIndex: SearchIndex)
    requires GetSpec(snap, identity, search, favorites, filter, searchIndex).Ok?
    ensures ChooseStage(snap.subcategories, filter).Ok?
    ensures var start := StartSet(snap.gigs, search, searchIndex);
      var result := FullGigs(GetSpec(snap, identity, search, favorites, filter, searchIndex).value);
      && IsSubsequence(result, ApplyStage(start, ChooseStage(snap.subcategories, filter).value))
      && IsSubsequence(result, start)
  {
    var start := StartSet(snap.gigs, search, searchIndex);
    var stage := ChooseStage(snap.subcategories, filter).value;
    var staged := ApplyStage(start, stage);
    var listed := FavoritesStage(snap.userFavorites, identity, favorites, staged).value;
    var result := GetSpec(snap, identity, search, favorites, filter, searchIndex).value;
    assert FullGigs(result) == ListedGigs(listed);
    FavoritesStageKeepsOrder(snap.userFavorites, identity, favorites, staged);
    SubsequenceTransitive(FullGigs(result), staged, start);
  }

  /** Whatever keeps the order of an exact-stage list lies in that
      subcategory. */
  lemma ExactStageMembers(start: seq<Doc<Gig>>, sub: Doc<Subcategory>, gigs: seq<Doc<Gig>>)
    requires IsSubsequence(gigs, ApplyStage(start, Exact(sub)))
    ensures forall i :: 0 <= i < |gigs| ==> gigs[i].fields.subcategoryId == sub.id
  {
    var staged := ApplyStage(start, Exact(sub));
    SubsequenceMembers(gigs, staged);
    forall i | 0 <= i < |gigs| ensures gigs[i].fields.subcategoryId == sub.id {
      assert gigs[i] in gigs;
      var j :| 0 <= j < |staged| && staged[j] == gigs[i];
    }
  }

  /** The same for the joined gigs of a result. */
  lemma ExactStageFullMembers(start: seq<Doc<Gig>>, sub: Doc<Subcategory>, result: seq<FullGig>)
    requires IsSubsequence(FullGigs(result), ApplyStage(start, Exact(sub)))
    ensures forall i :: 0 <= i < |result| ==> result[i].gig.fields.subcategoryId == sub.id
  {
    var gigs := FullGigs(result);
    ExactStageMembers(start, sub, gigs);
    forall i | 0 <= i < |result| ensures result[i].gig.fields.subcategoryId == sub.id {
      assert gigs[i] == result[i].gig;
    }
  }

  /** A subcategory named exactly like the trimmed filter restricts a
      successful listing to that subcategory's gigs. */
  lemma ExactMatchRestrictsListing(snap: Snapshot, identity: Option<Identity>, search: Option<string>,
                                   favorites: Option<string>, filter: string, searchIndex: SearchIndex, k: nat)
    requires filter != "" && k < |snap.subcategories| && snap.subcategories[k].fields.name == Trim(filter)
    requires GetSpec(snap, identity, search, favorites, Some(filter), searchIndex).Ok?
    ensures var result := GetSpec(snap, identity, search, favorites, Some(filter), searchIndex).value;
      forall i :: 0 <= i < |result| ==> result[i].gig.fields.subcategoryId == snap.subcategories[k].id
  {
    var result := GetSpec(snap, identity, search, favorites, Some(filter), searchIndex).value;
    ExactMatchChosen(snap.subcategories, filter, k);
    GetKeepsOrder(snap, identity, search, favorites, Some(filter), searchIndex);
    ExactStageFullMembers(StartSet(snap.gigs, search, searchIndex), snap.subcategories[k], result);
  }

  /** With distinct user ids, joining a list fails exactly when some gig in
      it has no seller, and then with "Seller not found". */
  lemma JoinAllFailsOnlyWithoutSeller(snap: Snapshot, listed: seq<ListedGig>)
    requires IdsDistinct(snap.users)
    ensures var r := MapResult(JoinStep(snap), listed);
      && (r.Err? <==> exists i :: 0 <= i < |listed| &&
                        forall u :: 0 <= u < |snap.users| ==> snap.users[u].id != listed[i].gig.fields.sellerId)
      && (r.Err? ==> r == Fail("Seller not found"))
  {
    var f := JoinStep(snap);
    forall i | 0 <= i < |listed|
      ensures f(listed[i]).Err? <==> forall u :: 0 <= u < |snap.users| ==> snap.users[u].id != listed[i].gig.fields.sellerId
      ensures f(listed[i]).Err? ==> f(listed[i]) == Fail("Seller not found")
    {
      JoinFailsOnlyWithoutSeller(snap, listed[i]);
    }
  }

  /** The query is the join of the listing, once the listing succeeds. */
  lemma GetSpecJoinsListing(snap: Snapshot, identity: Option<Identity>, search: Option<string>,
                            favorites: Option<string>, filter: Option<string>, searchIndex: SearchIndex)
    requires Listed(snap, identity, search, favorites, filter, searchIndex).Ok?
    ensures GetSpec(snap, identity, search, favorites, filter, searchIndex)
         == MapResult(JoinStep(snap), Listed(snap, identity, search, favorites, filter, searchIndex).value)
  {
  }

  /** With distinct user ids, once the listing before the join succeeds, the
      whole query fails exactly when some listed gig has no seller, and then
      with "Seller not found". */
  lemma MissingSellerFailsQuery(snap: Snapshot, identity: Option<Identity>, search: Option<string>,
                                favorites: Option<string>, filter: Option<string>, searchIndex: SearchIndex)
    requires IdsDistinct(snap.users)
    requires Listed(snap, identity, search, favorites, filter, searchIndex).Ok?
    ensures var listed := Listed(snap, identity, search, favorites, filter, searchIndex).value;
      var r := GetSpec(snap, identity, search, favorites, filter, searchIndex);
      && (r.Err? <==> exists i :: 0 <= i < |listed| &&
                        forall u :: 0 <= u < |snap.users| ==> snap.users[u].id != listed[i].gig.fields.sellerId)
      && (r.Err? ==> r == Fail("Seller not found"))
  {
    GetSpecJoinsListing(snap, identity, search, favorites, filter, searchIndex);
    JoinAllFailsOnlyWithoutSeller(snap, Listed(snap, identity, search, favorites, filter, searchIndex).value);
  }

  // ---------------------------------------------------------------------
  // getBySellerName

  function SellerGigs(gigs: seq<Doc<Gig>>, sellerId: Id): (r: seq<Doc<Gig>>)
    ensures forall i :: 0 <= i < |r| ==> r[i] in gigs && r[i].fields.sellerId == sellerId
    ensures forall i :: 0 <= i < |gigs| && gigs[i].fields.sellerId == sellerId ==> gigs[i] in r
    ensures IsSubsequence(r, gigs)
  {
    Filter(gigs, (g: Doc<Gig>) => g.fields.sellerId == sellerId)
  }

  /** `getBySellerName`: null when no user has the name, the gigs of the one
      user who has it, and the `.unique()` error when several do. */
  function GetBySellerName(users: seq<Doc<User>>, gigs: seq<Doc<Gig>>, sellerName: string)
    : (r: Result<Option<seq<Doc<Gig>>>>)
    ensures r == Ok(None) <==> forall i :: 0 <= i < |users| ==> users[i].fields.username != sellerName
    ensures r.Err? <==> |UsersWithUsername(users, sellerName)| >= 2
    ensures r.Err? ==> r == Fail(NotUnique)
    ensures r.Ok? && r.value.Some? ==>
      && UsersWithUsername(users, sellerName) != []
      && var seller := UsersWithUsername(users, sellerName)[0];
      && seller in users && seller.fields.username == sellerName
      && UsersWithUsername(users, sellerName) == [seller]
      && (forall i :: 0 <= i < |r.value.value| ==> r.value.value[i] in gigs && r.value.value[i].fields.sellerId == seller.id)
      && (forall i :: 0 <= i < |gigs| && gigs[i].fields.sellerId == seller.id ==> gigs[i] in r.value.value)
  {
    var user :- Unique(UsersWithUsername(users, sellerName));
    if user.None? then Ok(None)
    else Ok(Some(SellerGigs(gigs, user.value.id)))
  }

  // ---------------------------------------------------------------------
  // getGigsWithOrderAmountAndRevenue

  /** A dashboard row: the gig, its number of orders, the sum of its offer
      prices, and the URL of its first image (or null). */
  datatype GigStats = GigStats(gig: Doc<Gig>, orderAmount: nat, totalRevenue: int, imageUrl: Option<string>)

  /** `offers.reduce((acc, offer) => acc + offer.price, acc)`, left to right. */
  function FoldPrices(acc: int, offers: seq<Doc<Offer>>): int
    decreases |offers|
  {
    if offers == [] then acc else FoldPrices(acc + offers[0].fields.price, offers[1..])
  }

  /** The sum of the prices, as a reference for the fold. */
  function SumPrices(offers: seq<Doc<Offer>>): int
    decreases |offers|
  {
    if offers == [] then 0 else offers[0].fields.price + SumPrices(offers[1..])
  }

  lemma {:induction false} FoldPricesIsSum(acc: int, offers: seq<Doc<Offer>>)
    ensures FoldPrices(acc, offers) == acc + SumPrices(offers)
    decreases |offers|
  {
    if offers != [] {
      FoldPricesIsSum(acc + offers[0].fields.price, offers[1..]);
    }
  }

  function OffersOfGig(offers: seq<Doc<Offer>>, gigId: Id): seq<Doc<Offer>> {
    Filter(offers, OfferOfGig(gigId))
  }

  /** One dashboard row; `getUrl` is the storage URL lookup. */
  function StatsOf(snap: Snapshot, getUrl: Id -> Option<string>, g: Doc<Gig>): (s: GigStats)
    ensures s.gig == g
    ensures s.orderAmount == |Orders.OrdersByGig(snap.orders, g.id)|
    ensures s.totalRevenue == SumPrices(OffersOfGig(snap.offers, g.id))
    ensures (forall i :: 0 <= i < |snap.gigMedia| ==> snap.gigMedia[i].fields.gigId != g.id) ==> s.imageUrl.None?
    ensures First(snap.gigMedia, MediaOfGig(g.id)).Some? ==>
      s.imageUrl == getUrl(First(snap.gigMedia, MediaOfGig(g.id)).value.fields.storageId)
  {
    var offers := OffersOfGig(snap.offers, g.id);
    FoldPricesIsSum(0, offers);
    var image := First(snap.gigMedia, MediaOfGig(g.id));
    GigStats(g, |Orders.OrdersByGig(snap.orders, g.id)|, FoldPrices(0, offers),
             if image.Some? then getUrl(image.value.fields.storageId) else None)
  }

  function StatsStep(snap: Snapshot, getUrl: Id -> Option<string>): Doc<Gig> -> GigStats {
    (g: Doc<Gig>) => StatsOf(snap, getUrl, g)
  }

  /** `getGigsWithOrderAmountAndRevenue`: the caller must be signed in and
      known; the rows are the caller's own gigs, newest first. */
  function GigsWithOrderAmountAndRevenue(snap: Snapshot, identity: Option<Identity>, getUrl: Id -> Option<string>)
    : (r: Result<seq<GigStats>>)
    ensures identity.None? ==> r == Fail("Unauthorized")
    ensures (identity.Some? && UsersWithToken(snap.users, identity.value.tokenIdentifier) == [])
              ==> r == Fail("Couldn't authenticate user")
    ensures r.Ok? <==> CurrentUser(snap.users, identity).Ok?
    ensures r.Ok? ==>
      var caller := CurrentUser(snap.users, identity).value;
      && (forall i :: 0 <= i < |r.value| ==>
            && r.value[i].gig in snap.gigs && r.value[i].gig.fields.sellerId == caller.id
            && r.value[i].orderAmount == |Orders.OrdersByGig(snap.orders, r.value[i].gig.id)|
            && r.value[i].totalRevenue == SumPrices(OffersOfGig(snap.offers, r.value[i].gig.id)))
      && (forall i :: 0 <= i < |snap.gigs| && snap.gigs[i].fields.sellerId == caller.id ==>
            exists k :: 0 <= k < |r.value| && r.value[k].gig == snap.gigs[i])
      && |r.value| == |SellerGigs(snap.gigs, caller.id)|
      && (forall i :: 0 <= i < |r.value| ==> r.value[i] == StatsOf(snap, getUrl, Reverse(SellerGigs(snap.gigs, caller.id))[i]))
  {
    var user :- CurrentUser(snap.users, identity);
    var gigs := Reverse(SellerGigs(snap.gigs, user.id));
    ReverseMembers(SellerGigs(snap.gigs, user.id));
    var rows := Map(StatsStep(snap, getUrl), gigs);
    assert forall i :: 0 <= i < |rows| ==> rows[i].gig == gigs[i];
    Ok(rows)
  }

  /** A new order changes only the order count of its own gig, by one, and
      never the revenue, which is summed over offers, not orders. */
  lemma StatsAfterOrder(snap: Snapshot, getUrl: Id -> Option<string>, g: Doc<Gig>, d: Doc<Order>)
    ensures var before := StatsOf(snap, getUrl, g);
      var after := StatsOf(snap.(orders := snap.orders + [d]), getUrl, g);
      && after.orderAmount == before.orderAmount + (if d.fields.details.gigId == g.id then 1 else 0)
      && after.totalRevenue == before.totalRevenue
  {
    Orders.OrdersByGigAfterInsert(snap.orders, d, g.id);
  }
}
