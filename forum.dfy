/**
 * The API object: the seven operations over an abstract document store,
 * and the events it emits ('newTopic' and 'mail').
 *
 * The store library is not part of this model. What it does with each
 * request is written below as explicit assumptions (StoreId,
 * FindSubscriberId, AddToSet, Without, FindOrCreateAlt, and the comment
 * relation: `addComment` appends a Link, and `topic.comments` reads the
 * linked comments in link order, LinkedComments); everything else is what
 * the API code itself decides.
 */
module Forum {
  import opened Wrappers
  import opened JsValues
  import opened Subscribers
  import opened Requests
  import opened Responses

  /** A comment linked under a topic (the topicComments relation). */
  datatype Link = Link(topicId: string, commentId: string)

  datatype Store = Store(
    topics: map<string, TopicDoc>,
    altIds: map<string, string>,     // alternate topic id -> topic id
    comments: map<string, CommentDoc>,
    links: seq<Link>)                // in the order they were made

  /**
   * What the store keeps true: a topic is filed under its own id, its
   * subscriber array holds each id once, an alternate id names an existing
   * topic, and every link names an existing comment.
   */
  ghost predicate Consistent(st: Store) {
    && (forall t :: t in st.topics ==> st.topics[t].id == t && NoDup(st.topics[t].subscriberIds))
    && (forall a :: a in st.altIds ==> st.altIds[a] in st.topics)
    && (forall k :: 0 <= k < |st.links| ==> st.links[k].commentId in st.comments)
  }

  datatype Event =
    | NewTopic(topic: TopicDoc)
    | Mail(topic: TopicDoc, from: string, to: seq<string>, addedTo: seq<string>, message: CommentDoc)

  // ---------------------------------------------------------------- assumed store semantics

  /** Assumed: the id the store gives a new topic for each kind of `_id`. */
  function StoreId(choice: IdChoice, generated: string): (r: string) {
    match choice
    case Explicit(id) => id
    case Prefixed(prefix) => prefix + generated
    case StoreGenerated => generated
  }

  /** Assumed: `findSubscriberId(u)` yields u when subscribed and nothing otherwise. */
  function FindSubscriberId(topic: TopicDoc, userId: string): (r: Option<string>)
    ensures r.Some? <==> userId in topic.subscriberIds
    ensures r.Some? ==> r.value == userId
  {
    if userId in topic.subscriberIds then Some(userId) else None
  }

  /** Assumed: `AltTopicID.find.orCreate(alt, {topicId})` keeps an existing mapping. */
  function FindOrCreateAlt(altIds: map<string, string>, alt: string, topicId: string): (r: map<string, string>)
    ensures alt in r && r.Keys == altIds.Keys + {alt}
    ensures alt in altIds ==> r == altIds
    ensures alt !in altIds ==> r[alt] == topicId
    ensures forall a :: a in altIds ==> r[a] == altIds[a]
  {
    if alt in altIds then altIds else altIds[alt := topicId]
  }

  /**
   * Assumed: `topic.comments` yields the comments linked under a topic in
   * the order the links were made (the store library's join decides this).
   */
  function LinkedComments(st: Store, topicId: string): seq<CommentDoc> {
    CommentsOf(st.links, st.comments, topicId)
  }

  function CommentsOf(links: seq<Link>, comments: map<string, CommentDoc>, topicId: string): (r: seq<CommentDoc>) {
    if links == [] then []
    else
      var rest := CommentsOf(links[..|links| - 1], comments, topicId);
      var l := links[|links| - 1];
      if l.topicId == topicId && l.commentId in comments then rest + [comments[l.commentId]] else rest
  }

  /**
   * Filing a new comment and linking it under topicId appends it to that
   * topic's comments and leaves every other topic's comments as they were.
   */
  lemma {:induction false} LinkAppendsComment(
    links: seq<Link>, comments: map<string, CommentDoc>, topicId: string, c: CommentDoc, other: string)
    requires c.id !in comments
    requires forall k :: 0 <= k < |links| ==> links[k].commentId in comments
    ensures CommentsOf(links + [Link(topicId, c.id)], comments[c.id := c], topicId) ==
            CommentsOf(links, comments, topicId) + [c]
    ensures other != topicId ==>
      CommentsOf(links + [Link(topicId, c.id)], comments[c.id := c], other) == CommentsOf(links, comments, other)
  {
    assert (links + [Link(topicId, c.id)])[..|links|] == links;
    CommentsOfFresh(links, comments, c, topicId);
    CommentsOfFresh(links, comments, c, other);
  }

  lemma {:induction false} CommentsOfFresh(links: seq<Link>, comments: map<string, CommentDoc>, c: CommentDoc, topicId: string)
    requires c.id !in comments
    requires forall k :: 0 <= k < |links| ==> links[k].commentId in comments
    ensures CommentsOf(links, comments[c.id := c], topicId) == CommentsOf(links, comments, topicId)
  {
    if links != [] {
      CommentsOfFresh(links[..|links| - 1], comments, c, topicId);
    }
  }

  /** Replacing a topic's subscriber array by a duplicate-free one keeps the store consistent. */
  lemma ConsistentWithSubscribers(st: Store, tid: string, subscribers: seq<string>)
    requires Consistent(st) && tid in st.topics && NoDup(subscribers)
    ensures Consistent(st.(topics := st.topics[tid := st.topics[tid].(subscriberIds := subscribers)]))
  {
  }

  /** Filing a comment under a fresh id, linked under a topic or not, keeps the store consistent. */
  lemma ConsistentWithComment(st: Store, c: CommentDoc, tid: string)
    requires Consistent(st) && c.id !in st.comments
    ensures Consistent(st.(comments := st.comments[c.id := c]))
    ensures Consistent(st.(comments := st.comments[c.id := c], links := st.links + [Link(tid, c.id)]))
  {
    var links := st.links + [Link(tid, c.id)];
    assert forall k :: 0 <= k < |st.links| ==> links[k] == st.links[k];
  }

  // ---------------------------------------------------------------- deliverMessage

  /**
   * deliverMessage: the 'mail' event. `to` is the topic's subscribers
   * before the post, without the poster. `addedTo` is the computed
   * needToAddIds as it stands: the poster is not removed from it.
   */
  function MailEvent(topic: TopicDoc, message: CommentDoc, from: string, current: seq<string>, need: seq<string>): (e: Event)
    ensures e.Mail? && e.topic == topic && e.message == message && e.from == from
    ensures forall y :: y in e.to <==> y in current && y != from
    ensures NoDup(current) ==> NoDup(e.to)
    ensures e.addedTo == need
  {
    WithoutMembers(current, from);
    Mail(topic, from, Without(current, from), need, message)
  }

  /** A first post to a topic that only its creator follows mails exactly the creator. */
  lemma FirstPostMailsCreator(topic: TopicDoc, message: CommentDoc, poster: string, creator: string, need: seq<string>)
    requires poster != creator
    ensures MailEvent(topic, message, poster, [creator], need).to == [creator]
  {
    assert [creator][..0] == [];
    assert Without([], poster) == [];
  }

  /**
   * The poster is in `addedTo` whenever the poster was not yet subscribed:
   * the filtered list is stored in a different variable than the one emitted.
   */
  lemma AddedToKeepsPoster(topic: TopicDoc, message: CommentDoc, poster: string, others: seq<string>, current: seq<string>)
    requires poster != "" && poster !in current
    ensures poster in MailEvent(topic, message, poster, current, NeedToAdd([poster] + others, current)).addedTo
  {
    PosterAddedIffNotSubscribed(poster, others, current);
  }

  /**
   * A post's subscriber update: the array grows by exactly the computed ids,
   * stays duplicate-free, and then holds the poster.
   */
  lemma PostAddsNeeded(uid: string, sanitized: seq<string>, current: seq<string>)
    requires NoDup(current)
    ensures var need := NeedToAdd([uid] + sanitized, current);
      && AddToSet(current, need) == current + need
      && NoDup(current + need)
      && (uid != "" ==> uid in current + need)
  {
    var need := NeedToAdd([uid] + sanitized, current);
    RepostAddsNothing([uid] + sanitized, current);
    AddToSetUnion(current, need);
    NeedToAddCharacterized([uid] + sanitized, current);
  }

  // ---------------------------------------------------------------- the API object

  /** The spec of the id a created topic receives. */
  function NewTopicId(p: Params, generated: string): (r: string) {
    if NonEmptyText(p.topicId).Some? then ToStr(p.topicId)
    else if NonEmptyText(p.topicPrefix).Some? then ToStr(p.topicPrefix) + generated
    else generated
  }

  class Api {
    var store: Store
    var events: seq<Event>   // what has been emitted, oldest first

    ghost predicate Valid()
      reads this
    {
      Consistent(store)
    }

    constructor ()
      ensures Valid()
      ensures store == Store(map[], map[], map[], []) && events == []
    {
      store := Store(map[], map[], map[], []);
      events := [];
    }

    /**
     * createTopic: checks, then inserts the topic, subscribes the author and
     * the sanitised ids, maps the alternate id if it is new, and emits
     * 'newTopic'. The id returned is the new topic's, even when the
     * alternate id already named another topic.
     */
    method CreateTopic(userId: Value, p: Params, generated: string, now: int) returns (r: Result<string, Error>)
      requires Valid()
      modifies this
      ensures Valid()
      ensures CreateTopicGuard(userId, p).Some? ==>
        r == Failure(CreateTopicGuard(userId, p).value) && store == old(store) && events == old(events)
      ensures CreateTopicGuard(userId, p).None? && NewTopicId(p, generated) in old(store.topics) ==>
        r == Failure(StoreFailure(DuplicateKey)) && store == old(store) && events == old(events)
      ensures CreateTopicGuard(userId, p).None? && NewTopicId(p, generated) !in old(store.topics) ==>
        var id := NewTopicId(p, generated);
        var created := TopicDoc(id, ToStr(userId), ToStr(p.subject), ToStr(p.body), AndToString(p.altTopicId),
                                now, now, false, []);
        var subscribers := AddToSet([], [ToStr(userId)] + SanitizedIds(p.subscriberIds));
        && r == Success(id)
        && store.topics == old(store.topics)[id := created.(subscriberIds := subscribers)]
        && ToStr(userId) in store.topics[id].subscriberIds
        && store.altIds == (if NonEmptyText(p.altTopicId).Some?
                            then FindOrCreateAlt(old(store.altIds), ToStr(p.altTopicId), id)
                            else old(store.altIds))
        && store.comments == old(store.comments) && store.links == old(store.links)
        && events == old(events) + [NewTopic(created)]
    {
      var guard := CreateTopicGuard(userId, p);
      if guard.Some? {
        return Failure(guard.value);
      }
      var record, subscriberIds := BuildTopicRecord(userId, p);
      var id := StoreId(record.id, generated);
      if id in store.topics {
        return Failure(StoreFailure(DuplicateKey));
      }
      var created := TopicDoc(id, record.authorId, record.subject, record.body, record.altTopicId,
                              now, now, false, []);
      // second stage, issued together: subscribe, and map the alternate id
      var subscribers := AddToSet(created.subscriberIds, subscriberIds);
      AddToSetUnion([], subscriberIds);
      var altIds := store.altIds;
      if record.altTopicId.Some? && record.altTopicId.value != "" {
        altIds := FindOrCreateAlt(altIds, record.altTopicId.value, id);
      }
      store := store.(topics := store.topics[id := created.(subscriberIds := subscribers)], altIds := altIds);
      events := events + [NewTopic(created)];
      r := Success(id);
    }

    /** findTopicIdFromAltId: the topic an alternate id names. */
    method FindTopicIdFromAltId(userId: Value, p: Params) returns (r: Result<string, Error>)
      ensures !Truthy(p.altTopicId) ==> r == Failure(MissingParameter("altTopicId"))
      ensures Truthy(p.altTopicId) && ToStr(p.altTopicId) in store.altIds ==>
        r == Success(store.altIds[ToStr(p.altTopicId)])
      ensures Truthy(p.altTopicId) && ToStr(p.altTopicId) !in store.altIds ==> r == Failure(StoreFailure(NotFound))
    {
      var guard := AltIdGuard(userId, p);
      if guard.Some? {
        return Failure(guard.value);
      }
      var alt := ToStr(p.altTopicId);
      if alt !in store.altIds {
        return Failure(StoreFailure(NotFound));
      }
      r := Success(store.altIds[alt]);
    }

    /** getSubscriptionState: whether the caller is among the topic's subscribers. */
    method GetSubscriptionState(userId: Value, p: Params) returns (r: Result<bool, Error>)
      ensures TopicAccessGuard(userId, p).Some? ==> r == Failure(TopicAccessGuard(userId, p).value)
      ensures TopicAccessGuard(userId, p).None? && ToStr(p.topicId) !in store.topics ==>
        r == Failure(StoreFailure(NotFound))
      ensures TopicAccessGuard(userId, p).None? && ToStr(p.topicId) in store.topics ==>
        r == Success(ToStr(userId) in store.topics[ToStr(p.topicId)].subscriberIds)
    {
      var guard := TopicAccessGuard(userId, p);
      if guard.Some? {
        return Failure(guard.value);
      }
      var uid := ToStr(userId);
      var tid := ToStr(p.topicId);
      if tid !in store.topics {
        return Failure(StoreFailure(NotFound));
      }
      var subId := FindSubscriberId(store.topics[tid], uid);
      r := Success(subId == Some(uid));
    }

    /**
     * setSubscriptionState: adds or removes the caller per `isSubscribed`;
     * afterwards the caller is subscribed exactly when it asked to be.
     */
    method SetSubscriptionState(userId: Value, p: Params) returns (r: Result<(), Error>)
      requires Valid()
      modifies this
      ensures Valid() && events == old(events)
      ensures TopicAccessGuard(userId, p).Some? ==>
        r == Failure(TopicAccessGuard(userId, p).value) && store == old(store)
      ensures TopicAccessGuard(userId, p).None? && ToStr(p.topicId) !in old(store.topics) ==>
        r == Failure(StoreFailure(NotFound)) && store == old(store)
      ensures TopicAccessGuard(userId, p).None? && ToStr(p.topicId) in old(store.topics) ==>
        var tid := ToStr(p.topicId);
        var before := old(store.topics[tid]);
        var after := if Truthy(p.isSubscribed) then AddToSet(before.subscriberIds, [ToStr(userId)])
                     else Without(before.subscriberIds, ToStr(userId));
        && r == Success(())
        && store == old(store).(topics := old(store.topics)[tid := before.(subscriberIds := after)])
        && (ToStr(userId) in store.topics[tid].subscriberIds <==> Truthy(p.isSubscribed))
        && (forall x :: x != ToStr(userId) ==> (x in after <==> x in before.subscriberIds))
    {
      var guard := TopicAccessGuard(userId, p);
      if guard.Some? {
        return Failure(guard.value);
      }
      var uid := ToStr(userId);
      var tid := ToStr(p.topicId);
      if tid !in store.topics {
        return Failure(StoreFailure(NotFound));
      }
      var topic := store.topics[tid];
      var after: seq<string>;
      if Truthy(p.isSubscribed) {
        after := AddToSet(topic.subscriberIds, [uid]);
        AddToSetUnion(topic.subscriberIds, [uid]);
      } else {
        after := Without(topic.subscriberIds, uid);
        WithoutMembers(topic.subscriberIds, uid);
      }
      store := store.(topics := store.topics[tid := topic.(subscriberIds := after)]);
      r := Success(());
    }

    /**
     * postMessage: files the comment (even when the topic turns out to be
     * missing), links it under the topic, subscribes the poster and the
     * sanitised ids that are not subscribed yet, and emits 'mail'.
     */
    method PostMessage(userId: Value, p: Params, commentId: string, now: int) returns (r: Result<(), Error>)
      requires Valid()
      requires commentId !in store.comments   // the store generates a fresh id
      modifies this
      ensures Valid()
      ensures PostMessageGuard(userId, p).Some? ==>
        r == Failure(PostMessageGuard(userId, p).value) && store == old(store) && events == old(events)
      ensures PostMessageGuard(userId, p).None? ==>
        store.comments == old(store.comments)[commentId := CommentDoc(commentId, ToStr(p.body), ToStr(userId), now, now)]
      ensures PostMessageGuard(userId, p).None? && ToStr(p.topicId) !in old(store.topics) ==>
        && r == Failure(StoreFailure(NotFound))
        && store.topics == old(store.topics) && store.altIds == old(store.altIds) && store.links == old(store.links)
        && events == old(events)
      ensures PostMessageGuard(userId, p).None? && ToStr(p.topicId) in old(store.topics) ==>
        var uid := ToStr(userId);
        var tid := ToStr(p.topicId);
        var before := old(store.topics[tid]);
        var message := CommentDoc(commentId, ToStr(p.body), uid, now, now);
        var need := NeedToAdd([uid] + SanitizedIds(p.subscriberIds), before.subscriberIds);
        && r == Success(())
        && store.topics == old(store.topics)[tid := before.(subscriberIds := before.subscriberIds + need)]
        && store.altIds == old(store.altIds)
        && store.links == old(store.links) + [Link(tid, commentId)]
        && LinkedComments(store, tid) == LinkedComments(old(store), tid) + [message]
        && (uid != "" ==> uid in store.topics[tid].subscriberIds)
        && events == old(events) + [MailEvent(before, message, uid, before.subscriberIds, need)]
    {
      var guard := PostMessageGuard(userId, p);
      if guard.Some? {
        return Failure(guard.value);
      }
      var uid := ToStr(userId);
      var sanitized := SanitizeSubscriberIds(p.subscriberIds);
      var newSubscriberIds := [uid] + sanitized;
      var tid := ToStr(p.topicId);
      // first stage, issued together: fetch the topic, file the comment, link it
      var message := CommentDoc(commentId, ToStr(p.body), uid, now, now);
      if tid !in store.topics {
        ConsistentWithComment(store, message, tid);
        store := store.(comments := store.comments[commentId := message]);
        return Failure(StoreFailure(NotFound));
      }
      var topic := store.topics[tid];
      LinkAppendsComment(store.links, store.comments, tid, message, tid);
      ConsistentWithComment(store, message, tid);
      store := store.(comments := store.comments[commentId := message], links := store.links + [Link(tid, commentId)]);
      ghost var filed := store;
      assert LinkedComments(filed, tid) == LinkedComments(old(store), tid) + [message];
      DeliverMessagesAndAddSubscription(tid, topic, message, uid, newSubscriberIds);
      assert store.links == filed.links && store.comments == filed.comments;
      assert LinkedComments(store, tid) == LinkedComments(filed, tid);
      r := Success(());
    }

    /**
     * deliverMessagesAndAddSubscription: add the ids that are not subscribed
     * yet (no store call when there are none), then emit 'mail'.
     */
    method DeliverMessagesAndAddSubscription(tid: string, topic: TopicDoc, message: CommentDoc, uid: string,
                                             newSubscriberIds: seq<string>)
      requires Valid() && tid in store.topics && store.topics[tid] == topic
      requires |newSubscriberIds| > 0 && newSubscriberIds[0] == uid
      modifies this
      ensures Valid()
      ensures var need := NeedToAdd(newSubscriberIds, topic.subscriberIds);
        && store == old(store).(topics := old(store.topics)[tid := topic.(subscriberIds := topic.subscriberIds + need)])
        && (uid != "" ==> uid in store.topics[tid].subscriberIds)
        && events == old(events) + [MailEvent(topic, message, uid, topic.subscriberIds, need)]
    {
      var current := topic.subscriberIds;
      var need := NeedToAddIds(newSubscriberIds, current);
      assert newSubscriberIds == [uid] + newSubscriberIds[1..];
      PostAddsNeeded(uid, newSubscriberIds[1..], current);
      if |need| > 0 {
        ConsistentWithSubscribers(store, tid, AddToSet(current, need));
        store := store.(topics := store.topics[tid := topic.(subscriberIds := AddToSet(current, need))]);
      } else {
        assert store.topics == store.topics[tid := topic.(subscriberIds := current + need)];
      }
      events := events + [MailEvent(topic, message, uid, current, need)];
    }

    /**
     * getAllTopicDetails: the topic's fields, its messages in the order they
     * were linked, and its subscriber ids.
     */
    method GetAllTopicDetails(userId: Value, p: Params) returns (r: Result<TopicDetails, Error>)
      requires Valid()
      ensures TopicAccessGuard(userId, p).Some? ==> r == Failure(TopicAccessGuard(userId, p).value)
      ensures TopicAccessGuard(userId, p).None? && ToStr(p.topicId) !in store.topics ==>
        r == Failure(StoreFailure(NotFound))
      ensures TopicAccessGuard(userId, p).None? && ToStr(p.topicId) in store.topics ==>
        var topic := store.topics[ToStr(p.topicId)];
        var comments := LinkedComments(store, ToStr(p.topicId));
        && r.Success?
        && r.value.topicId == topic.id && r.value.authorId == topic.authorId
        && r.value.subject == topic.subject && r.value.body == topic.body
        && r.value.altTopicId == topic.altTopicId
        && r.value.createdTime == topic.createdTime && r.value.updatedTime == topic.updatedTime
        && r.value.subscriberIds == topic.subscriberIds && NoDup(r.value.subscriberIds)
        && |r.value.messages| == |comments|
        && forall i :: 0 <= i < |comments| ==>
             r.value.messages[i].messageId == comments[i].id && r.value.messages[i].body == comments[i].body &&
             r.value.messages[i].authorId == comments[i].authorId &&
             r.value.messages[i].createdTime == comments[i].createdTime &&
             r.value.messages[i].updatedTime == comments[i].updatedTime
    {
      var guard := TopicAccessGuard(userId, p);
      if guard.Some? {
        return Failure(guard.value);
      }
      var tid := ToStr(p.topicId);
      if tid !in store.topics {
        return Failure(StoreFailure(NotFound));
      }
      var topic := store.topics[tid];
      var details := FormatDetails(topic, Some(LinkedComments(store, tid)), Some(topic.subscriberIds));
      r := Success(details);
    }
  }
}
