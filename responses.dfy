/**
 * The documents the store hands back and the response shapes built from
 * them: formatTopics and getAllTopicDetails' formatResponse.
 */
module Responses {
  import opened Wrappers

  /** A stored topic. */
  datatype TopicDoc = TopicDoc(
    id: string,
    authorId: string,
    subject: string,
    body: string,
    altTopicId: Option<string>,
    createdTime: int,
    updatedTime: int,
    deleted: bool,
    subscriberIds: seq<string>)

  /** A stored comment (a message posted in a topic). */
  datatype CommentDoc = CommentDoc(
    id: string,
    body: string,
    authorId: string,
    createdTime: int,
    updatedTime: int)

  /** One entry of getRecentTopics' `topics` list. */
  datatype TopicSummary = TopicSummary(topicId: string, subject: string, body: string, authorId: string)

  /** One entry of getAllTopicDetails' `messages` list. */
  datatype MessageSummary = MessageSummary(
    messageId: string,
    body: string,
    authorId: string,
    createdTime: int,
    updatedTime: int)

  /** getAllTopicDetails' response. */
  datatype TopicDetails = TopicDetails(
    topicId: string,
    authorId: string,
    body: string,
    subject: string,
    altTopicId: Option<string>,
    createdTime: int,
    updatedTime: int,
    messages: seq<MessageSummary>,
    subscriberIds: seq<string>)

  /**
   * formatTopics: one summary per topic, in the order the store returned
   * them; a missing list gives an empty one.
   */
  method FormatTopics(topics: Option<seq<TopicDoc>>) returns (r: seq<TopicSummary>)
    ensures topics.None? ==> r == []
    ensures topics.Some? ==> |r| == |topics.value|
    ensures topics.Some? ==> forall i :: 0 <= i < |r| ==>
      var t := topics.value[i];
      r[i] == TopicSummary(t.id, t.subject, t.body, t.authorId)
  {
    var list := if topics.Some? then topics.value else [];
    r := [];
    var i := 0;
    while i < |list|
      invariant 0 <= i <= |list|
      invariant |r| == i
      invariant forall k :: 0 <= k < i ==>
        r[k] == TopicSummary(list[k].id, list[k].subject, list[k].body, list[k].authorId)
    {
      var t := list[i];
      r := r + [TopicSummary(t.id, t.subject, t.body, t.authorId)];
      i := i + 1;
    }
  }

  /**
   * getAllTopicDetails' formatResponse: the topic's fields, one summary per
   * message in stored order, and the subscriber ids (empty when missing).
   */
  method FormatDetails(topic: TopicDoc, messages: Option<seq<CommentDoc>>, subscriberIds: Option<seq<string>>)
    returns (r: TopicDetails)
    ensures r.topicId == topic.id && r.authorId == topic.authorId && r.subject == topic.subject
    ensures r.body == topic.body && r.altTopicId == topic.altTopicId
    ensures r.createdTime == topic.createdTime && r.updatedTime == topic.updatedTime
    ensures r.subscriberIds == if subscriberIds.Some? then subscriberIds.value else []
    ensures messages.None? ==> r.messages == []
    ensures messages.Some? ==> |r.messages| == |messages.value|
    ensures messages.Some? ==> forall i :: 0 <= i < |r.messages| ==>
      var m := messages.value[i];
      r.messages[i] == MessageSummary(m.id, m.body, m.authorId, m.createdTime, m.updatedTime)
  {
    r := TopicDetails(topic.id, topic.authorId, topic.body, topic.subject, topic.altTopicId,
                      topic.createdTime, topic.updatedTime, [],
                      if subscriberIds.Some? then subscriberIds.value else []);
    var list := if messages.Some? then messages.value else [];
    var i := 0;
    while i < |list|
      invariant 0 <= i <= |list|
      invariant r.topicId == topic.id && r.authorId == topic.authorId && r.subject == topic.subject
      invariant r.body == topic.body && r.altTopicId == topic.altTopicId
      invariant r.createdTime == topic.createdTime && r.updatedTime == topic.updatedTime
      invariant r.subscriberIds == if subscriberIds.Some? then subscriberIds.value else []
      invariant |r.messages| == i
      invariant forall k :: 0 <= k < i ==>
        r.messages[k] == MessageSummary(list[k].id, list[k].body, list[k].authorId, list[k].createdTime, list[k].updatedTime)
    {
      var m := list[i];
      r := r.(messages := r.messages + [MessageSummary(m.id, m.body, m.authorId, m.createdTime, m.updatedTime)]);
      i := i + 1;
    }
  }
}
