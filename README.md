# mongodb-discuss API core, modelled in Dafny

This project models `api.js` of mongodb-discuss. That file is the request layer of a threaded discussion service. Callers create topics, optionally under a caller-chosen alternate id. They look up a topic by that alternate id, subscribe and unsubscribe, post messages, list recent topics and fetch all of a topic's details. A post subscribes the poster and any named ids that are missing, then emits a `mail` event for the topic's subscribers.

Modules:

- `JsValues` (`js_values.dfy`) covers the JavaScript value semantics the handlers rely on:
  - truthiness (`!x`, `x || d`, `x && x.toString()`);
  - `toString()`, including arrays joined by commas;
  - `parseInt` in radix 10, with NaN as `None`;
  - `==` against the literals `'all'`, `'my'` and `'subscribed'`.
- `Subscribers` (`subscribers.dfy`) holds the list logic:
  - `sanitizeSubscriberIds`;
  - the `needToAddIds` loop;
  - `_(to).without(from)`;
  - the store's add-to-set applied by `addSubscriberIds`.
- `Requests` (`requests.dfy`) holds the decisions taken before any store call:
  - the ordered parameter checks of every operation;
  - createTopic's record, including the `_id` choice: an explicit id beats a prefix, and without either the store generates the id;
  - getRecentTopics' `type` dispatch and its skip/limit normalisation.
- `Responses` (`responses.dfy`) holds the stored documents and the response shapes: `formatTopics` and getAllTopicDetails' `formatResponse`.
- `Forum` (`forum.dfy`) holds the API object, class `Api`. Its state is an abstract store (topics, alternate-id map, comments, comment links) plus the log of emitted events. Each operation is a method. The store library's behaviour appears as explicitly assumed functions:
  - `StoreId`: the id a new topic receives;
  - `FindSubscriberId`;
  - `AddToSet`;
  - `Without` for `removeSubscriberId`;
  - `FindOrCreateAlt`;
  - the comment relation: `addComment` appends a `Link`, and `topic.comments` reads the linked comments in link order (`LinkedComments`). The contracts of `Api.PostMessage` and `Api.GetAllTopicDetails` depend on this order.
- `Scenarios` (`scenarios.dfy`) replays the repository's test scenarios as clients of `Api`. Their results follow from the operations' contracts. `PostSubscribesPoster` does not call `CreateTopic`: it starts from the store state that createTopic leaves behind, a single topic followed only by its creator.

Behaviour of the code that the model keeps as written:

- The `mail` event's `addedTo` is the unfiltered `needToAddIds`. The filtered list is assigned to a different, misspelt variable (`addTo`, api.js:202), so a poster who was not yet subscribed appears in `addedTo` (`Forum.AddedToKeepsPoster`).
- createTopic returns the new topic's id even when the alternate id already named an earlier topic. The alternate-id lookup keeps naming the earlier topic, and the new topic is orphaned (`Scenarios.CreateTwiceWithSameAltId`).
- createTopic adds the author and the sanitised ids without dropping empty strings. postMessage does drop them (the `id &&` test, api.js:118).
- A post to a missing topic still files its comment, because the comment is created alongside the topic lookup. The error is returned and no link and no mail follow.

## Model

| member | source | states |
|---|---|---|
| `JsValues.ParseIntOfNumber` | api.js:139 | `parseInt` of an integral number below 10^21 in magnitude (one `String` writes in plain decimal) gives that number back |
| `Subscribers.SanitizeSubscriberIds` | api.js:188-193 | the loop returns the string forms of the truthy entries in order; a falsy or non-array input gives `[]` |
| `Subscribers.TruthyStringsLength` | api.js:191 | sanitising never yields more ids than the input has entries |
| `Subscribers.TruthyStringsAppend` | api.js:191 | sanitising works entry by entry: the result for `a + b` is the result for `a` followed by the result for `b`, so input order is kept |
| `Subscribers.TruthyStringsMembers` | api.js:191 | an id is in the result exactly when some truthy entry has it as its string form |
| `Subscribers.SanitizedStrings` | api.js:191 | an array of strings sanitises to non-empty ids only |
| `Subscribers.NeedToAddIds` | api.js:116-119 | the `needToAddIds` loop computes the first-occurrence list of non-empty ids that are not yet subscribed |
| `Subscribers.NeedToAddCharacterized` | api.js:117-118 | the ids to add have no duplicate; an id is among them exactly when it is offered, non-empty and not subscribed |
| `Subscribers.NeedToAddOrder` | api.js:117-118 | the ids to add keep the order of their first occurrence among the offered ids |
| `Subscribers.PosterAddedIffNotSubscribed` | api.js:104-119 | with the poster offered first, the poster is added exactly when not yet subscribed, and is then the first id added |
| `Subscribers.NeedToAddEmpty` | api.js:117-121 | nothing is added (and no store add is issued) exactly when every non-empty offered id is already subscribed |
| `Subscribers.RepostAddsNothing` | api.js:117-120 | once the computed ids are added they are appended as they are, and the same post again finds nothing to add |
| `Subscribers.AddToSetUnion` | api.js:58 | (assumed store semantics) adding ids keeps the subscriber array duplicate-free and yields the union, old ids first |
| `Subscribers.AddToSetFresh` | api.js:120 | (assumed store semantics) adding new, distinct ids appends them unchanged |
| `Subscribers.WithoutMembers` | api.js:201 | `without(from)` drops every occurrence of `from`, keeps everything else, and keeps a duplicate-free list duplicate-free |
| `Requests.FirstFailure` | api.js:38-40 | a chain of `if (!x) return done(error)` lines fails exactly when some check fails, with the error of the first failing one |
| `Requests.CreateTopicGuard` | api.js:38-40 | createTopic refuses an absent userId ('Access denied'), then an absent subject ('Missing parameter: subject'), then an absent body ('Missing parameter: body'), and passes otherwise |
| `Requests.AltIdGuard` | api.js:69 | findTopicIdFromAltId refuses only an absent altTopicId ('Missing parameter: altTopicId') and never looks at userId |
| `Requests.TopicAccessGuard` | api.js:76-77 | get/setSubscriptionState (and getAllTopicDetails, api.js:150-151) refuse an absent userId ('Access denied'), then an absent topicId ('Missing parameter: topicId') |
| `Requests.PostMessageGuard` | api.js:99-101 | postMessage refuses an absent userId, then an absent topicId, then an absent body, each with its message text |
| `Requests.NonEmptyText` | api.js:43-44 | `v && v.toString()` used as a condition holds exactly for a truthy value with a non-empty string form |
| `Requests.BuildTopicRecord` | api.js:42-52 | the rebuilt record carries author, subject, body and altTopicId as strings; `_id` is the explicit topicId, else the prefix, else absent; the ids to subscribe are the author followed by the sanitised ids |
| `Requests.PageValueOfNumber` | api.js:139-141 | a numeric skip or limit (below 10^21 in magnitude) is used as given; a missing or zero one becomes the default (0 or 100) |
| `Requests.PageValueOfText` | api.js:139-141 | a skip or limit text that does not start with white space, a sign or a digit parses to NaN and becomes the default |
| `Requests.NormalizePaging` | api.js:139-141 | skip is `parseInt(skip \|\| 0)` and limit is `parseInt(limit \|\| 100)`, each reset to its default when NaN |
| `Requests.RecentTopicsQuery` | api.js:129-143 | an absent userId is refused first; type 'all' searches non-deleted topics sorted by descending `_id` (creation order only for store-generated ids); 'my' also filters on the caller as author; 'subscribed' asks for the caller's subscribed topics; any other type is refused ('Invalid or missing parameter: type') with no query |
| `Responses.FormatTopics` | api.js:180-186 | one `{topicId, subject, body, authorId}` per topic, same length and order; a missing list gives an empty one |
| `Responses.FormatDetails` | api.js:159-177 | the topic's fields are copied; one message summary per comment in order; subscriberIds is empty when missing |
| `Forum.FindSubscriberId` | api.js:80 | (assumed store semantics) the lookup yields something exactly when the caller is subscribed, and then the caller's id |
| `Forum.FindOrCreateAlt` | api.js:59 | (assumed store semantics) an existing alternate-id mapping is kept; a new one maps to the new topic |
| `Forum.LinkAppendsComment` | api.js:106-107 | linking a newly filed comment appends it to that topic's comments and leaves other topics' comments unchanged |
| `Forum.ConsistentWithSubscribers` | api.js:120 | replacing a topic's subscriber array by a duplicate-free one keeps the store invariant |
| `Forum.ConsistentWithComment` | api.js:106-107 | filing a comment under a fresh id, linked or not, keeps the store invariant |
| `Forum.MailEvent` | api.js:200-204 | the 'mail' event's `to` is the prior subscribers without the poster (duplicate-free when they were), and `addedTo` is the unfiltered list of ids to add |
| `Forum.FirstPostMailsCreator` | test/api.test.js:68-72 | a post to a topic only its creator follows mails exactly the creator |
| `Forum.AddedToKeepsPoster` | api.js:202-203 | a poster who was not yet subscribed appears in the emitted `addedTo` |
| `Forum.PostAddsNeeded` | api.js:116-121 | a post's subscriber array grows by exactly the computed ids, stays duplicate-free and then holds the poster |
| `Forum.Api.constructor` | api.js:27 | the API object starts with an empty store and no emitted events |
| `Forum.Api.CreateTopic` | api.js:37-66 | refusals come before any store change. A taken id fails with a duplicate key. Otherwise the topic is stored with the author and the sanitised ids as subscribers (the author always among them) and the alternate id is mapped if new. 'newTopic' is emitted and the new topic's id is returned |
| `Forum.Api.FindTopicIdFromAltId` | api.js:68-73 | without altTopicId the call is refused; otherwise it returns the mapped topic id, or not found |
| `Forum.Api.GetSubscriptionState` | api.js:75-84 | after the checks, `isSubscribed` is whether the caller's id is in the topic's subscriber array |
| `Forum.Api.SetSubscriptionState` | api.js:86-96 | after the checks, the caller is added or removed per `isSubscribed` and is then subscribed exactly when it asked to be; other subscribers are unchanged; the result is `{}` |
| `Forum.Api.PostMessage` | api.js:98-113 | refusals come before any store change. The comment is filed, even for a missing topic. For an existing topic it is linked in order, the missing ids are added, the poster is then subscribed, and one 'mail' event is emitted |
| `Forum.Api.DeliverMessagesAndAddSubscription` | api.js:115-126 | the subscriber array grows by exactly the ids to add (unchanged when there are none), then the 'mail' event is emitted |
| `Forum.Api.GetAllTopicDetails` | api.js:149-178 | after the checks, the response carries the topic's fields, its duplicate-free subscriber ids and one summary per linked comment, in link order |
| `Scenarios.CreateTwiceWithSameAltId` | test/api.test.js:46-57 | two creations with one alternate id both succeed; lookup returns the first topic, and the second call returns a different, orphaned id |
| `Scenarios.UnsubscribeAfterCreate` | test/api.test.js:97-116 | the creator is subscribed after creation, unsubscribing returns `{}`, and the creator is then not subscribed |
| `Scenarios.PostSubscribesPoster` | test/api.test.js:60-80 | a first post mails only the creator and subscribes the poster |

## Left out

- Entity and relation wiring (`createClass`, `addLink`, `addReference`, api.js:7-25) is declarative configuration of the store library. The likes relations are never used.
- The asynchronous combinators (`.wrapped`, `.sync`, `.done`, `.method`, `.successValue`) are not modelled. The store calls issued together in one stage run in a fixed order here. Within postMessage, the comment is filed first and then linked under the topic (`addComment` waits for the created comment, api.js:106-107). The topic lookup reads nothing the other two write.
- Store failures other than a missing document and a duplicate key are not modelled: connection faults, and a failing `addSubscriberIds` whose error postMessage would pass on after the mail.
- Forum.Api.PostMessage: which error is reported when both the topic lookup and the comment insert fail is not modelled. The comment id is required to be fresh, as the store generates it.
- getRecentTopics' store search (`find.bySearch` with its sort, skip and limit) and `getSubscribedTopics` are not modelled. The model stops at the query issued (`Requests.RecentTopicsQuery`) and at `FormatTopics` applied to whatever list the store returns.
- Concurrency between requests is not modelled. Each `Api` method is one atomic step, with no other request running between its store calls. In the source, another request (a post, or an unsubscribe through api.js:93) can run between the read of a topic (api.js:111) and the add of subscribers to it (api.js:120). The stored array is then the add-to-set of the array at that later moment, and the `mail` event's `to` can be out of date. The results of `Forum.PostAddsNeeded`, `Forum.Api.DeliverMessagesAndAddSubscription` and `Forum.Api.PostMessage` that the array "grows by exactly the computed ids" hold only on this assumption. The model does not show how the store's atomic add-to-set keeps concurrent adds from losing updates.
- The EventEmitter's listeners are not modelled. Emitted events are appended to `Api.events`.
- The store sets `createdTime` and `updatedTime`. The model takes both as the `now` argument of the operation.
- Numbers are integers: fractions, NaN and infinities are left out.
- Numbers whose `String` form is exponential (magnitude 10^21 and up, e.g. "1e+21") and integers above 2^53, which a JavaScript number cannot hold exactly, are not modelled: `ToStr` writes every integer in plain decimal, so for those the model differs from the source in `parseInt` (api.js:139-141) and in a numeric subscriber id's string form (api.js:191). `parseInt` is modelled without leading whitespace and without hexadecimal prefixes. Loose equality is modelled only against the non-numeric literals the code compares with.
- `toString()` on null or undefined throws in JavaScript. The model calls it only where the code's checks have ruled that out, except that an undefined parameter object is not modelled. A falsy altTopicId is stored as absent, whatever its falsy value was.
- Forum.LinkedComments: the order in which `topic.comments` (api.js:155) returns a topic's comments is decided by the store library's join query; the model assumes link order, and that `addComment` (api.js:107) appends one link.
- Subscribers.AddToSetUnion: the add-to-set semantics of `addSubscriberIds` and the pull semantics of `removeSubscriberId` (`Without`) are assumptions about the store library, not facts proved about it.
