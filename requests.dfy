/**
 * Request validation and the decisions each operation takes before it
 * touches the store: the ordered parameter checks, createTopic's record
 * and identifier choice, and getRecentTopics' query.
 */
module Requests {
  import opened Wrappers
  import opened JsValues
  import opened Subscribers

  /** The caller's parameter object; a field the caller left out is Undefined. */
  datatype Params = Params(
    subject: Value,
    body: Value,
    topicId: Value,
    topicPrefix: Value,
    altTopicId: Value,
    subscriberIds: Value,
    isSubscribed: Value,
    kind: Value,     // `params.type`
    skip: Value,
    limit: Value)

  /** What the store reports when a lookup or an insert fails. */
  datatype StoreFault = NotFound | DuplicateKey

  datatype Error =
    | AccessDenied
    | MissingParameter(name: string)
    | InvalidType
    | StoreFailure(fault: StoreFault)

  /** The error text a completion handler receives for a failed check (store errors pass through as they are). */
  function Message(e: Error): string
    requires !e.StoreFailure?
  {
    match e
    case AccessDenied => "Access denied"
    case MissingParameter(name) => "Missing parameter: " + name
    case InvalidType => "Invalid or missing parameter: type"
  }

  // ---------------------------------------------------------------- ordered checks

  /** One `if (!x) return done(error)` line. */
  datatype Check = Check(passes: bool, error: Error)

  /** The error of the first check that fails, if any. */
  function FirstFailure(checks: seq<Check>): (r: Option<Error>)
    ensures r.None? <==> forall i :: 0 <= i < |checks| ==> checks[i].passes
    ensures forall i :: 0 <= i < |checks| && !checks[i].passes && (forall j :: 0 <= j < i ==> checks[j].passes) ==>
      r == Some(checks[i].error)
  {
    if checks == [] then None
    else if !checks[0].passes then Some(checks[0].error)
    else
      FirstFailure(checks[1..])
  }

  /** createTopic: userId, then subject, then body. */
  function CreateTopicGuard(userId: Value, p: Params): (r: Option<Error>)
    ensures r.None? <==> Truthy(userId) && Truthy(p.subject) && Truthy(p.body)
    ensures !Truthy(userId) ==> r == Some(AccessDenied) && Message(r.value) == "Access denied"
    ensures Truthy(userId) && !Truthy(p.subject) ==>
      r == Some(MissingParameter("subject")) && Message(r.value) == "Missing parameter: subject"
    ensures Truthy(userId) && Truthy(p.subject) && !Truthy(p.body) ==>
      r == Some(MissingParameter("body")) && Message(r.value) == "Missing parameter: body"
  {
    var checks := [
      Check(Truthy(userId), AccessDenied),
      Check(Truthy(p.subject), MissingParameter("subject")),
      Check(Truthy(p.body), MissingParameter("body"))];
    assert checks[0] == Check(Truthy(userId), AccessDenied);
    assert checks[1] == Check(Truthy(p.subject), MissingParameter("subject"));
    assert checks[2] == Check(Truthy(p.body), MissingParameter("body"));
    FirstFailure(checks)
  }

  /** findTopicIdFromAltId: altTopicId only; the caller's id is never checked. */
  function AltIdGuard(userId: Value, p: Params): (r: Option<Error>)
    ensures r.None? <==> Truthy(p.altTopicId)
    ensures r.Some? ==> r.value == MissingParameter("altTopicId") && Message(r.value) == "Missing parameter: altTopicId"
  {
    var checks := [
      Check(Truthy(p.altTopicId), MissingParameter("altTopicId"))];
    assert checks[0] == Check(Truthy(p.altTopicId), MissingParameter("altTopicId"));
    FirstFailure(checks)
  }

  /** get/setSubscriptionState and getAllTopicDetails: userId, then topicId. */
  function TopicAccessGuard(userId: Value, p: Params): (r: Option<Error>)
    ensures r.None? <==> Truthy(userId) && Truthy(p.topicId)
    ensures !Truthy(userId) ==> r == Some(AccessDenied) && Message(r.value) == "Access denied"
    ensures Truthy(userId) && !Truthy(p.topicId) ==>
      r == Some(MissingParameter("topicId")) && Message(r.value) == "Missing parameter: topicId"
  {
    var checks := [
      Check(Truthy(userId), AccessDenied),
      Check(Truthy(p.topicId), MissingParameter("topicId"))];
    assert checks[0] == Check(Truthy(userId), AccessDenied);
    assert checks[1] == Check(Truthy(p.topicId), MissingParameter("topicId"));
    FirstFailure(checks)
  }

  /** postMessage: userId, then topicId, then body. */
  function PostMessageGuard(userId: Value, p: Params): (r: Option<Error>)
    ensures r.None? <==> Truthy(userId) && Truthy(p.topicId) && Truthy(p.body)
    ensures !Truthy(userId) ==> r == Some(AccessDenied) && Message(r.value) == "Access denied"
    ensures Truthy(userId) && !Truthy(p.topicId) ==>
      r == Some(MissingParameter("topicId")) && Message(r.value) == "Missing parameter: topicId"
    ensures Truthy(userId) && Truthy(p.topicId) && !Truthy(p.body) ==>
      r == Some(MissingParameter("body")) && Message(r.value) == "Missing parameter: body"
  {
    var checks := [
      Check(Truthy(userId), AccessDenied),
      Check(Truthy(p.topicId), MissingParameter("topicId")),
      Check(Truthy(p.body), MissingParameter("body"))];
    assert checks[0] == Check(Truthy(userId), AccessDenied);
    assert checks[1] == Check(Truthy(p.topicId), MissingParameter("topicId"));
    assert checks[2] == Check(Truthy(p.body), MissingParameter("body"));
    FirstFailure(checks)
  }

  // ---------------------------------------------------------------- createTopic record

  /** The `_id` given to the store: caller-chosen, a prefix the store completes, or absent. */
  datatype IdChoice = Explicit(id: string) | Prefixed(prefix: string) | StoreGenerated

  /** The record createTopic asks the store to insert. */
  datatype TopicRecord = TopicRecord(
    id: IdChoice,
    authorId: string,
    subject: string,
    body: string,
    altTopicId: Option<string>)

  /** `v && v.toString()` used as a condition: a non-empty string form of a truthy value. */
  function NonEmptyText(v: Value): (r: Option<string>)
    ensures r.Some? <==> Truthy(v) && ToStr(v) != ""
    ensures r.Some? ==> r.value == ToStr(v)
  {
    match AndToString(v)
    case Some(s) => if s != "" then Some(s) else None
    case None => None
  }

  /**
   * createTopic's record, rebuilt from the parameters, with `_id` set from an
   * explicit topicId, else from a topicPrefix, else left to the store; and
   * the ids to subscribe, the author first.
   */
  method BuildTopicRecord(userId: Value, p: Params) returns (rec: TopicRecord, subscriberIds: seq<string>)
    requires CreateTopicGuard(userId, p).None?
    ensures rec.authorId == ToStr(userId) && rec.subject == ToStr(p.subject) && rec.body == ToStr(p.body)
    ensures rec.altTopicId == AndToString(p.altTopicId)
    ensures NonEmptyText(p.topicId).Some? ==> rec.id == Explicit(ToStr(p.topicId))
    ensures NonEmptyText(p.topicId).None? && NonEmptyText(p.topicPrefix).Some? ==>
      rec.id == Prefixed(ToStr(p.topicPrefix))
    ensures NonEmptyText(p.topicId).None? && NonEmptyText(p.topicPrefix).None? ==> rec.id == StoreGenerated
    ensures subscriberIds == [rec.authorId] + SanitizedIds(p.subscriberIds)
  {
    var sanitized := SanitizeSubscriberIds(p.subscriberIds);
    var topicId := NonEmptyText(p.topicId);
    var topicPrefix := NonEmptyText(p.topicPrefix);
    rec := TopicRecord(StoreGenerated, ToStr(userId), ToStr(p.subject), ToStr(p.body), AndToString(p.altTopicId));
    if topicId.Some? {
      rec := rec.(id := Explicit(topicId.value));
    } else if topicPrefix.Some? {
      rec := rec.(id := Prefixed(topicPrefix.value));
    }
    subscriberIds := [rec.authorId] + sanitized;
  }

  // ---------------------------------------------------------------- getRecentTopics

  /** `parseInt(v || fallback)`, with NaN replaced by the fallback. */
  function PageValue(v: Value, fallback: nat): (r: int) {
    match ParseInt(Or(v, Num(fallback)))
    case Some(n) => n
    case None => fallback
  }

  /** A number is taken as given; a missing or zero one becomes the fallback. */
  lemma PageValueOfNumber(v: Value, fallback: nat)
    requires v.Num? || v.Undefined? || v.Null?
    requires v.Num? ==> -PlainDecimalBound < v.n < PlainDecimalBound
    requires fallback < PlainDecimalBound
    ensures PageValue(v, fallback) == if Truthy(v) then v.n else fallback
  {
    if Truthy(v) {
      ParseIntOfNumber(v.n);
    } else {
      ParseIntOfNumber(fallback);
    }
  }

  /** A value whose string form starts with no sign and no digit is NaN: the fallback. */
  lemma PageValueOfText(text: string, fallback: nat)
    requires text != "" && !IsDigit(text[0]) && text[0] != '-' && text[0] != '+' && !IsJsWhiteSpace(text[0])
    ensures PageValue(Str(text), fallback) == fallback
  {
  }

  /** The skip and limit getRecentTopics passes to the store. */
  method NormalizePaging(p: Params) returns (skip: int, limit: int)
    ensures skip == PageValue(p.skip, 0)
    ensures limit == PageValue(p.limit, 100)
  {
    var parsedSkip := ParseInt(Or(p.skip, Num(0)));
    var parsedLimit := ParseInt(Or(p.limit, Num(100)));
    if parsedSkip.None? {
      parsedSkip := Some(0);
    }
    if parsedLimit.None? {
      parsedLimit := Some(100);
    }
    skip, limit := parsedSkip.value, parsedLimit.value;
  }

  /** Which topics a search selects: never deleted ones, optionally one author's. */
  datatype Filter = Filter(excludeDeleted: bool, authorId: Option<string>)

  /**
   * The store request getRecentTopics issues. A search is sorted by `_id`
   * (descending when idDescending), which is creation order only for
   * store-generated ids, not for caller-chosen or prefixed ones.
   */
  datatype TopicQuery =
    | Search(filter: Filter, idDescending: bool, skip: int, limit: int)
    | SubscribedBy(userId: string)

  predicate IsKind(v: Value, name: string)
    requires name == "all" || name == "my" || name == "subscribed"
  {
    LooselyEquals(v, name)
  }

  /**
   * getRecentTopics up to the store call: the caller's id is checked first,
   * then `type` selects a query; any other type is refused with no query.
   */
  method RecentTopicsQuery(userId: Value, p: Params) returns (r: Result<TopicQuery, Error>)
    ensures !Truthy(userId) ==> r == Failure(AccessDenied) && Message(r.error) == "Access denied"
    ensures Truthy(userId) && !IsKind(p.kind, "all") && !IsKind(p.kind, "my") && !IsKind(p.kind, "subscribed") ==>
      r == Failure(InvalidType) && Message(r.error) == "Invalid or missing parameter: type"
    ensures Truthy(userId) && IsKind(p.kind, "all") ==>
      r == Success(Search(Filter(true, None), true, PageValue(p.skip, 0), PageValue(p.limit, 100)))
    ensures Truthy(userId) && IsKind(p.kind, "my") ==>
      r == Success(Search(Filter(true, Some(ToStr(userId))), true, PageValue(p.skip, 0), PageValue(p.limit, 100)))
    ensures Truthy(userId) && IsKind(p.kind, "subscribed") ==> r == Success(SubscribedBy(ToStr(userId)))
  {
    if !Truthy(userId) {
      return Failure(AccessDenied);
    }
    var uid := ToStr(userId);
    var filter: Filter;
    if IsKind(p.kind, "all") {
      filter := Filter(true, None);
    } else if IsKind(p.kind, "my") {
      filter := Filter(true, Some(uid));
    } else if IsKind(p.kind, "subscribed") {
      return Success(SubscribedBy(uid));
    } else {
      return Failure(InvalidType);
    }
    var skip, limit := NormalizePaging(p);
    r := Success(Search(filter, true, skip, limit));
  }
}
