/**
 * Clients of the API object that replay the repository's test scenarios on
 * a fresh store; what each returns follows from the operations' contracts.
 */
module Scenarios {
  import opened Wrappers
  import opened JsValues
  import opened Requests
  import opened Responses
  import opened Subscribers
  import opened Forum

  /** A parameter object with every field left out. */
  function NoParams(): Params {
    Params(Undefined, Undefined, Undefined, Undefined, Undefined, Undefined, Undefined, Undefined, Undefined, Undefined)
  }

  /**
   * Two topics created with the same alternate id: lookup keeps naming the
   * first, while the second call still answers with its own, orphaned, id.
   */
  method CreateTwiceWithSameAltId(creator: string, alt: string, generated1: string, generated2: string)
    returns (first: Result<string, Error>, second: Result<string, Error>, found: Result<string, Error>)
    requires creator != "" && alt != "" && generated1 != generated2
    ensures first.Success? && second.Success?
    ensures found == Success(first.value)
    ensures second.value != first.value
  {
    var api := new Api();
    var p := NoParams().(subject := Str("Yo Yo!"), body := Str("Yo yo Ma!"), altTopicId := Str(alt));
    first := api.CreateTopic(Str(creator), p, generated1, 1);
    second := api.CreateTopic(Str(creator), p.(subject := Str("Yo Yo 2!"), body := Str("Yo yo Ma 2!")), generated2, 2);
    found := api.FindTopicIdFromAltId(Str(creator), NoParams().(altTopicId := Str(alt)));
  }

  /** The creator is subscribed to a new topic, and no longer after unsubscribing. */
  method UnsubscribeAfterCreate(creator: string, generated: string)
    returns (before: Result<bool, Error>, unsubscribed: Result<(), Error>, after: Result<bool, Error>)
    requires creator != "" && generated != ""
    ensures before == Success(true)
    ensures unsubscribed == Success(())
    ensures after == Success(false)
  {
    var api := new Api();
    var created := api.CreateTopic(Str(creator), NoParams().(subject := Str("Yo"), body := Str("Ma")), generated, 1);
    var topic := NoParams().(topicId := Str(created.value));
    before := api.GetSubscriptionState(Str(creator), topic);
    unsubscribed := api.SetSubscriptionState(Str(creator), topic.(isSubscribed := Bool(false)));
    after := api.GetSubscriptionState(Str(creator), topic);
  }

  /**
   * A first post by someone else to a topic only its creator follows mails
   * the creator only, and subscribes the poster. The store starts as
   * createTopic leaves it: one topic whose only subscriber is its creator.
   */
  method PostSubscribesPoster(creator: string, poster: string, tid: string)
    returns (mailedTo: seq<string>, subscribed: Result<bool, Error>)
    requires creator != "" && poster != "" && creator != poster && tid != ""
    ensures mailedTo == [creator]
    ensures subscribed == Success(true)
  {
    var api := new Api();
    var topic := TopicDoc(tid, creator, "Yo Yo!", "Yo yo Ma!", None, 1, 1, false, [creator]);
    api.store := Store(map[tid := topic], map[], map[], []);
    var post := NoParams().(topicId := Str(tid), body := Str("Whats that you say?"));
    assert [poster] + SanitizedIds(post.subscriberIds) == [poster];
    assert NeedToAdd([poster], [creator]) == [poster] by {
      assert [poster][..0] == [];
    }
    var sent := api.PostMessage(Str(poster), post, "c1", 2);
    mailedTo := api.events[|api.events| - 1].to;
    FirstPostMailsCreator(topic, CommentDoc("c1", "Whats that you say?", poster, 2, 2), poster, creator, [poster]);
    subscribed := api.GetSubscriptionState(Str(poster), NoParams().(topicId := Str(tid)));
  }
}
