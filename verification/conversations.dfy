/** Direct-message conversations between two users: the caller's
    conversations, one conversation with its messages, and get-or-create.
    A conversation between two users may be stored with either of them as
    participant one. */
module Conversations {
  import opened Wrappers
  import opened Seqs
  import opened Store

  /** The stored conversation is between `a` and `b`, in either order. */
  predicate Between(c: Doc<Conversation>, a: Id, b: Id) {
    || (c.fields.participantOneId == a && c.fields.participantTwoId == b)
    || (c.fields.participantOneId == b && c.fields.participantTwoId == a)
  }

  function PairFilter(a: Id, b: Id): Doc<Conversation> -> bool {
    (c: Doc<Conversation>) => Between(c, a, b)
  }

  /** The conversations query of `getConversation` and
      `getOrCreateConversation`. */
  function ConversationsBetween(cs: seq<Doc<Conversation>>, a: Id, b: Id): (r: seq<Doc<Conversation>>)
    ensures forall i :: 0 <= i < |r| ==> r[i] in cs && Between(r[i], a, b)
    ensures forall i :: 0 <= i < |cs| && Between(cs[i], a, b) ==> cs[i] in r
  {
    Filter(cs, PairFilter(a, b))
  }

  /** The participant match is symmetric: the same conversations are found
      whichever of the two users asks. */
  lemma BetweenSymmetric(cs: seq<Doc<Conversation>>, a: Id, b: Id)
    ensures ConversationsBetween(cs, a, b) == ConversationsBetween(cs, b, a)
  {
    FilterAgrees(cs, PairFilter(a, b), PairFilter(b, a));
  }

  /** A message together with its author. */
  datatype MessageWithUser = MessageWithUser(message: Doc<Message>, user: Doc<User>)

  function InConversation(conversationId: Id): Doc<Message> -> bool {
    (m: Doc<Message>) => m.fields.conversationId == conversationId
  }

  /** The messages of one conversation, in table order. */
  function MessagesOf(messages: seq<Doc<Message>>, conversationId: Id): (r: seq<Doc<Message>>)
    ensures forall i :: 0 <= i < |r| ==> r[i] in messages && r[i].fields.conversationId == conversationId
    ensures forall i :: 0 <= i < |messages| && messages[i].fields.conversationId == conversationId ==> messages[i] in r
    ensures IsSubsequence(r, messages)
  {
    Filter(messages, InConversation(conversationId))
  }

  /** The author join of `getOrCreateConversation`: a message whose author
      is missing throws "Message user not found". */
  function AuthorOf(users: seq<Doc<User>>, m: Doc<Message>): (r: Result<MessageWithUser>)
    ensures (forall i :: 0 <= i < |users| ==> users[i].id != m.fields.userId) ==> r == Fail("Message user not found")
    ensures r.Ok? ==> r.value.message == m && r.value.user in users && r.value.user.id == m.fields.userId
  {
    var user :- Unique(WithId(users, m.fields.userId));
    if user.None? then Fail("Message user not found") else Ok(MessageWithUser(m, user.value))
  }

  /** With distinct user ids the author join fails exactly when the author
      is missing. */
  lemma AuthorFailsOnlyWhenMissing(users: seq<Doc<User>>, m: Doc<Message>)
    requires IdsDistinct(users)
    ensures AuthorOf(users, m).Err? <==> forall i :: 0 <= i < |users| ==> users[i].id != m.fields.userId
  {
    WithIdAtMostOne(users, m.fields.userId);
    if exists i :: 0 <= i < |users| && users[i].id == m.fields.userId {
      var i :| 0 <= i < |users| && users[i].id == m.fields.userId;
      assert users[i] in WithId(users, m.fields.userId);
    }
  }

  function AuthorStep(users: seq<Doc<User>>): Doc<Message> -> Result<MessageWithUser> {
    (m: Doc<Message>) => AuthorOf(users, m)
  }

  // ---------------------------------------------------------------------
  // getByUser

  function InvolvesFilter(userId: Id): Doc<Conversation> -> bool {
    (c: Doc<Conversation>) => c.fields.participantOneId == userId || c.fields.participantTwoId == userId
  }

  /** `getByUser`: after authentication, exactly the conversations in which
      the caller is either participant, in table order. */
  function GetByUser(users: seq<Doc<User>>, cs: seq<Doc<Conversation>>, identity: Option<Identity>)
    : (r: Result<seq<Doc<Conversation>>>)
    ensures identity.None? ==> r == Fail("Unauthorized")
    ensures (identity.Some? && UsersWithToken(users, identity.value.tokenIdentifier) == [])
              ==> r == Fail("Couldn't authenticate user")
    ensures r.Ok? <==> CurrentUser(users, identity).Ok?
    ensures r.Ok? ==>
      var me := CurrentUser(users, identity).value.id;
      && (forall i :: 0 <= i < |r.value| ==>
            r.value[i] in cs && (r.value[i].fields.participantOneId == me || r.value[i].fields.participantTwoId == me))
      && (forall i :: 0 <= i < |cs| && (cs[i].fields.participantOneId == me || cs[i].fields.participantTwoId == me)
            ==> cs[i] in r.value)
      && IsSubsequence(r.value, cs)
  {
    var me :- CurrentUser(users, identity);
    Ok(Filter(cs, InvolvesFilter(me.id)))
  }

  // ---------------------------------------------------------------------
  // getConversation

  /** A message with its author, or with null when the author is missing. */
  datatype MessageWithMaybeUser = MessageWithMaybeUser(message: Doc<Message>, user: Option<Doc<User>>)

  function MaybeAuthorOf(users: seq<Doc<User>>, m: Doc<Message>): (r: Result<MessageWithMaybeUser>)
    ensures r.Ok? ==> r.value.message == m
    ensures r.Ok? && r.value.user.Some? ==> r.value.user.value in users && r.value.user.value.id == m.fields.userId
    ensures r.Ok? && r.value.user.None? ==> forall i :: 0 <= i < |users| ==> users[i].id != m.fields.userId
    ensures r.Ok? <==> |WithId(users, m.fields.userId)| <= 1
    ensures r.Err? ==> r == Fail(NotUnique)
  {
    var user :- Unique(WithId(users, m.fields.userId));
    Ok(MessageWithMaybeUser(m, user))
  }

  function MaybeAuthorStep(users: seq<Doc<User>>): Doc<Message> -> Result<MessageWithMaybeUser> {
    (m: Doc<Message>) => MaybeAuthorOf(users, m)
  }

  datatype ConversationView = ConversationView(
    currentUser: Doc<User>,
    otherUser: Option<Doc<User>>,
    conversation: Option<Doc<Conversation>>,
    messagesWithUsers: seq<MessageWithMaybeUser>)

  /** `getConversation`, which unlike get-or-create tolerates a missing other
      user, conversation or message author (each comes back null). A query
      for participants equal to `undefined` matches no stored conversation,
      and a query for a conversation id equal to `undefined` matches no
      stored message. */
  function GetConversation(snap: Snapshot, identity: Option<Identity>, username: string): (r: Result<ConversationView>)
    ensures identity.None? ==> r == Fail("Unauthorized")
    ensures (identity.Some? && UsersWithToken(snap.users, identity.value.tokenIdentifier) == [])
              ==> r == Fail("Couldn't authenticate user")
    ensures r.Ok? ==>
      var v := r.value;
      && CurrentUser(snap.users, identity) == Ok(v.currentUser)
      && (v.otherUser.None? <==> forall i :: 0 <= i < |snap.users| ==> snap.users[i].fields.username != username)
      && (v.otherUser.Some? ==> v.otherUser.value in snap.users && v.otherUser.value.fields.username == username)
      && (v.otherUser.None? ==> v.conversation.None? && v.messagesWithUsers == [])
      && (v.conversation.Some? ==>
            && v.otherUser.Some?
            && ConversationsBetween(snap.conversations, v.currentUser.id, v.otherUser.value.id) == [v.conversation.value])
      && (v.otherUser.Some? && v.conversation.None? ==>
            ConversationsBetween(snap.conversations, v.currentUser.id, v.otherUser.value.id) == [])
      && (v.conversation.Some? ==>
            && |v.messagesWithUsers| == |MessagesOf(snap.messages, v.conversation.value.id)|
            && forall i :: 0 <= i < |v.messagesWithUsers| ==>
                 Ok(v.messagesWithUsers[i]) == MaybeAuthorOf(snap.users, MessagesOf(snap.messages, v.conversation.value.id)[i]))
    ensures r.Ok? <==>
      && CurrentUser(snap.users, identity).Ok?
      && |UsersWithUsername(snap.users, username)| <= 1
      && (|UsersWithUsername(snap.users, username)| == 1 ==>
            var between := ConversationsBetween(snap.conversations, CurrentUser(snap.users, identity).value.id,
                                                UsersWithUsername(snap.users, username)[0].id);
            && |between| <= 1
            && (|between| == 1 ==>
                  forall i :: 0 <= i < |MessagesOf(snap.messages, between[0].id)| ==>
                    MaybeAuthorOf(snap.users, MessagesOf(snap.messages, between[0].id)[i]).Ok?))
    ensures r.Err? ==> r == Fail("Unauthorized") || r == Fail("Couldn't authenticate user") || r == Fail(NotUnique)
    ensures CurrentUser(snap.users, identity).Err? ==> r == Err(CurrentUser(snap.users, identity).thrown)
    ensures (CurrentUser(snap.users, identity).Ok? && r.Err?) ==> r == Fail(NotUnique)
  {
    var me :- CurrentUser(snap.users, identity);
    var other :- Unique(UsersWithUsername(snap.users, username));
    if other.None? then Ok(ConversationView(me, None, None, []))
    else
      var conversation :- Unique(ConversationsBetween(snap.conversations, me.id, other.value.id));
      if conversation.None? then Ok(ConversationView(me, other, None, []))
      else
        var joined :- MapResult(MaybeAuthorStep(snap.users), MessagesOf(snap.messages, conversation.value.id));
        Ok(ConversationView(me, other, conversation, joined))
  }

  // ---------------------------------------------------------------------
  // getOrCreateConversation

  /** The two users of a get-or-create call and the conversation already
      stored between them, if any. */
  datatype Parties = Parties(currentUser: Doc<User>, otherUser: Doc<User>, existing: Option<Doc<Conversation>>)

  /** The checks and the lookup `getOrCreateConversation` makes before it
      may insert. */
  function FindConversation(users: seq<Doc<User>>, cs: seq<Doc<Conversation>>, identity: Option<Identity>,
                            otherUsername: string): (r: Result<Parties>)
    ensures identity.None? ==> r == Fail("Unauthorized")
    ensures (identity.Some? && UsersWithToken(users, identity.value.tokenIdentifier) == [])
              ==> r == Fail("Couldn't authenticate user")
    ensures (CurrentUser(users, identity).Ok? && UsersWithUsername(users, otherUsername) == [])
              ==> r == Fail("User not found")
    ensures r.Ok? ==>
      && CurrentUser(users, identity) == Ok(r.value.currentUser)
      && r.value.otherUser in users && r.value.otherUser.fields.username == otherUsername
      && UsersWithUsername(users, otherUsername) == [r.value.otherUser]
      && (r.value.existing.None? <==>
            forall i :: 0 <= i < |cs| ==> !Between(cs[i], r.value.currentUser.id, r.value.otherUser.id))
      && (r.value.existing.Some? ==>
            ConversationsBetween(cs, r.value.currentUser.id, r.value.otherUser.id) == [r.value.existing.value])
    ensures r.Ok? <==>
      && CurrentUser(users, identity).Ok?
      && |UsersWithUsername(users, otherUsername)| == 1
      && |ConversationsBetween(cs, CurrentUser(users, identity).value.id, UsersWithUsername(users, otherUsername)[0].id)| <= 1
    ensures r.Err? ==>
      r == Fail("Unauthorized") || r == Fail("Couldn't authenticate user") || r == Fail("User not found") || r == Fail(NotUnique)
    ensures CurrentUser(users, identity).Err? ==> r == Err(CurrentUser(users, identity).thrown)
    ensures (CurrentUser(users, identity).Ok? && |UsersWithUsername(users, otherUsername)| >= 2) ==> r == Fail(NotUnique)
    ensures (CurrentUser(users, identity).Ok? && |UsersWithUsername(users, otherUsername)| == 1
             && |ConversationsBetween(cs, CurrentUser(users, identity).value.id, UsersWithUsername(users, otherUsername)[0].id)| >= 2)
            ==> r == Fail(NotUnique)
  {
    var me :- CurrentUser(users, identity);
    var other :- Unique(UsersWithUsername(users, otherUsername));
    if other.None? then Fail("User not found")
    else
      var existing :- Unique(ConversationsBetween(cs, me.id, other.value.id));
      Ok(Parties(me, other.value, existing))
  }

  /** What `getOrCreateConversation` returns. */
  datatype ConversationResponse = ConversationResponse(
    currentUser: Doc<User>,
    otherUser: Doc<User>,
    conversation: Doc<Conversation>,
    messagesWithUsers: seq<MessageWithUser>)

  /** The response for a found or created conversation: its messages, each
      with its author. */
  function Respond(users: seq<Doc<User>>, messages: seq<Doc<Message>>, p: Parties, c: Doc<Conversation>)
    : (r: Result<ConversationResponse>)
    ensures r.Ok? <==> forall i :: 0 <= i < |MessagesOf(messages, c.id)| ==> AuthorOf(users, MessagesOf(messages, c.id)[i]).Ok?
    ensures r.Ok? ==>
      && r.value.currentUser == p.currentUser && r.value.otherUser == p.otherUser && r.value.conversation == c
      && |r.value.messagesWithUsers| == |MessagesOf(messages, c.id)|
      && forall i :: 0 <= i < |r.value.messagesWithUsers| ==>
           && r.value.messagesWithUsers[i].message == MessagesOf(messages, c.id)[i]
           && r.value.messagesWithUsers[i].user in users
           && r.value.messagesWithUsers[i].user.id == MessagesOf(messages, c.id)[i].fields.userId
  {
    var joined :- MapResult(AuthorStep(users), MessagesOf(messages, c.id));
    Ok(ConversationResponse(p.currentUser, p.otherUser, c, joined))
  }

  /** With distinct user ids, a failed response is "Message user not found". */
  lemma RespondFailsOnMissingAuthor(users: seq<Doc<User>>, messages: seq<Doc<Message>>, p: Parties, c: Doc<Conversation>)
    requires IdsDistinct(users)
    ensures Respond(users, messages, p, c).Err? ==> Respond(users, messages, p, c) == Fail("Message user not found")
  {
    var ms := MessagesOf(messages, c.id);
    var r := MapResult(AuthorStep(users), ms);
    if r.Err? {
      var i :| 0 <= i < |ms| && AuthorStep(users)(ms[i]) == Err(r.thrown) && forall j :: 0 <= j < i ==> AuthorStep(users)(ms[j]).Ok?;
      AuthorFailsOnlyWhenMissing(users, ms[i]);
    }
  }

  /** `getOrCreateConversation`. Every failure of the checks happens before
      the write. When no conversation is stored between the two users, one
      is appended, with the caller as participant one, and the response is
      built from it; the mutation is a transaction, so when building the
      response throws, the insert is not committed. */
  method GetOrCreateConversation(db: Database, identity: Option<Identity>, otherUsername: string)
    returns (r: Result<ConversationResponse>)
    requires db.conversations.Valid()
    modifies db.conversations
    ensures db.conversations.Valid()
    ensures r.Err? ==> db.conversations.docs == old(db.conversations.docs)
    ensures var p := FindConversation(db.users.docs, old(db.conversations.docs), identity, otherUsername);
      && (p.Err? ==> r == Err(p.thrown))
      && (p.Ok? && p.value.existing.Some? ==>
            && db.conversations.docs == old(db.conversations.docs)
            && r == Respond(db.users.docs, db.messages.docs, p.value, p.value.existing.value))
      && (p.Ok? && p.value.existing.None? ==>
            exists c: Doc<Conversation> ::
              && c.fields == Conversation(p.value.currentUser.id, p.value.otherUser.id)
              && (forall i :: 0 <= i < |old(db.conversations.docs)| ==> old(db.conversations.docs)[i].id != c.id)
              && r == Respond(db.users.docs, db.messages.docs, p.value, c)
              && (r.Ok? ==> db.conversations.docs == old(db.conversations.docs) + [c]))
  {
    var parties := FindConversation(db.users.docs, db.conversations.docs, identity, otherUsername);
    if parties.Err? {
      return Err(parties.thrown);
    }
    if parties.value.existing.Some? {
      r := Respond(db.users.docs, db.messages.docs, parties.value, parties.value.existing.value);
    } else {
      r := CreateAndRespond(db, parties.value);
    }
  }

  /** The insert branch of `getOrCreateConversation`: appends the
      conversation, reads it back by id and builds the response, and rolls
      the insert back when building the response throws. */
  method CreateAndRespond(db: Database, parties: Parties) returns (r: Result<ConversationResponse>)
    requires db.conversations.Valid()
    modifies db.conversations
    ensures db.conversations.Valid()
    ensures r.Err? ==> db.conversations.docs == old(db.conversations.docs)
    ensures exists c: Doc<Conversation> ::
      && c.fields == Conversation(parties.currentUser.id, parties.otherUser.id)
      && (forall i :: 0 <= i < |old(db.conversations.docs)| ==> old(db.conversations.docs)[i].id != c.id)
      && r == Respond(db.users.docs, db.messages.docs, parties, c)
      && (r.Ok? ==> db.conversations.docs == old(db.conversations.docs) + [c])
  {
    var committed := |db.conversations.docs|;
    var fields := Conversation(parties.currentUser.id, parties.otherUser.id);
    var conversationId := db.conversations.Insert(fields);
    var conversation := GetById(db.conversations.docs, conversationId);
    assert db.conversations.docs[|db.conversations.docs| - 1] == Doc(conversationId, fields);
    assert conversation == Some(Doc(conversationId, fields)) by {
      assert IdsDistinct(db.conversations.docs);
    }
    r := Respond(db.users.docs, db.messages.docs, parties, conversation.value);
    if r.Err? {
      db.conversations.Rollback(committed);
    }
  }

  /** Get-or-create is idempotent: once a call has inserted the conversation
      between two users, the next call for the same pair finds that one
      conversation and so inserts nothing. */
  lemma {:induction false} FindAfterCreate(users: seq<Doc<User>>, cs: seq<Doc<Conversation>>, identity: Option<Identity>,
                                           otherUsername: string, id: Id)
    requires FindConversation(users, cs, identity, otherUsername).Ok?
    requires FindConversation(users, cs, identity, otherUsername).value.existing.None?
    ensures var p := FindConversation(users, cs, identity, otherUsername).value;
      var created := Doc(id, Conversation(p.currentUser.id, p.otherUser.id));
      FindConversation(users, cs + [created], identity, otherUsername) == Ok(p.(existing := Some(created)))
  {
    var p := FindConversation(users, cs, identity, otherUsername).value;
    var created := Doc(id, Conversation(p.currentUser.id, p.otherUser.id));
    FilterSnoc(cs, created, PairFilter(p.currentUser.id, p.otherUser.id));
  }

  /** The response depends only on the two users and the conversation. */
  lemma RespondIgnoresExisting(users: seq<Doc<User>>, messages: seq<Doc<Message>>, p: Parties, q: Parties,
                               c: Doc<Conversation>)
    requires p.currentUser == q.currentUser && p.otherUser == q.otherUser
    ensures Respond(users, messages, p, c) == Respond(users, messages, q, c)
  {
  }

  /** Two calls in a row for the same pair: at most one conversation is
      inserted, and once the first call succeeds the second returns exactly
      what the first returned. */
  method GetOrCreateTwice(db: Database, identity: Option<Identity>, otherUsername: string)
    returns (first: Result<ConversationResponse>, second: Result<ConversationResponse>)
    requires db.conversations.Valid()
    modifies db.conversations
    ensures |db.conversations.docs| <= |old(db.conversations.docs)| + 1
    ensures first.Ok? ==> second == first
  {
    ghost var users := db.users.docs;
    ghost var before := db.conversations.docs;
    ghost var p := FindConversation(users, before, identity, otherUsername);
    first := GetOrCreateConversation(db, identity, otherUsername);
    ghost var afterFirst := db.conversations.docs;
    if p.Ok? && p.value.existing.None? && first.Ok? {
      ghost var c: Doc<Conversation> :|
        && c.fields == Conversation(p.value.currentUser.id, p.value.otherUser.id)
        && (forall i :: 0 <= i < |before| ==> before[i].id != c.id)
        && first == Respond(users, db.messages.docs, p.value, c)
        && (first.Ok? ==> afterFirst == before + [c]);
      FindAfterCreate(users, before, identity, otherUsername, c.id);
      assert FindConversation(users, afterFirst, identity, otherUsername) == Ok(p.value.(existing := Some(c)));
      RespondIgnoresExisting(users, db.messages.docs, p.value, p.value.(existing := Some(c)), c);
    } else {
      assert first.Ok? ==> p.Ok? && p.value.existing.Some?;
      assert afterFirst == before || first.Ok?;
    }
    second := GetOrCreateConversation(db, identity, otherUsername);
  }
}
