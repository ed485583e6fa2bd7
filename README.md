# MoodMirror, modelled in Dafny

MoodMirror annotates posts in a social-media feed with the emotion they express and the
topics they touch. There are two parts:

- a small HTTP proxy whose `/analyze` endpoint passes a post's text to a sentiment model and
  to a zero-shot topic model. It normalises the replies into one lower-cased emotion label
  and at most three topic labels, ranked by score.
- a browser content script that watches the feed. It finds each post's text, derives a key
  for the post, and sends each key for analysis at most once. While a request is in flight
  it shows a loading indicator. When a usable reply arrives it appends an emotion tag and up
  to two topic tags.

The project has six modules:

| file | module | what it models |
|---|---|---|
| `Wrappers.dfy` | `Wrappers` | an `Option` type |
| `Numbers.dfy` | `Numbers` | `Min`, shared by both components |
| `Text.dfy` | `Text` | `String.prototype.trim` (the ECMAScript whitespace and line-terminator set) and `toLowerCase`, restricted to ASCII letters |
| `Proxy.dfy` | `AnalysisProxy` | the `/analyze` handler (see below) |
| `Watcher.dfy` | `FeedWatcher` | the content script (see below) |
| `Pipeline.dfy` | `Pipeline` | the two parts together: how a proxy response reaches the script's `fetch`, and which tags a post ends up with |

What `Proxy.dfy` models of the `/analyze` handler:

- request validation;
- unwrapping one level of nesting in the sentiment reply;
- choosing the first maximum-score entry;
- decoding both shapes of topic reply;
- stable ranking and the top three;
- the 400 and 500 error paths.

What `Watcher.dfy` models of the content script:

- text extraction and key derivation;
- the `analyzedTweets` set;
- the loading indicator's life cycle;
- tag rendering;
- the per-page scan.

The rest of this section explains how the model represents the system.

**Scores are integers.** The models' scores are floats, but the proxy only compares them, so
an integer model keeps every decision.

**Model calls are inputs.** `AnalysisProxy.Analyze` takes what each model call gives back
(`Downstream`: a reply or a failure). It returns the response together with the list of
calls it made. This shows that the topic model is not asked after the sentiment call fails.

**`processTweet` is split at its `await`.** The content script's `processTweet` runs
synchronously up to its `await`, then continues when the reply arrives. The model splits it
into two methods of the `FeedWatcher.Watcher` class:

- `Begin`: derive the key, check it, extract the text, record the key, append the
  indicator, issue the request.
- `Finish`: remove the indicator, append the tags.

Every interleaving of scans and replies is a sequence of these calls. Each issued request
gets a ticket, which is its position in the `requests` log. `Loading(t)` is its indicator.

**The page is an abstraction.** Each post names the element its indicator and tags are
appended to (`container`). The model records, per container, the children the script
appended, in order.

**The watcher's invariant.** `Valid()` keeps the following true across every `Begin`,
`Finish` and `Scan`:

- the recorded keys are exactly the keys of the issued requests, and those keys are
  distinct;
- every pending request has its indicator in its own container;
- no container holds the same request's indicator twice, so each pending request has
  exactly one indicator on the page;
- no other indicator exists.

**The random fallback key is a parameter.** A post with neither identifier gets a random key
in the source. Here that key is a parameter (`fallback`). Each scan draws a new fallback, so
such a post gets a new key every time and is analysed again on every scan;
`FallbackKeysRequestTwice` shows this. The script's own appends of an indicator and of a
tag group (`extension/content.js:81`, `:92`) are child-list changes under the page body, so
they start a new `findTweets` themselves (`extension/content.js:103-110`): such a post is
requested again after each of its own indicator appends, not only when the page changes.

**Parallel topic replies.** For a reply with parallel `labels` and `scores` arrays, the
handler pairs every label with its score, ranks all the pairs by score and keeps the first
three. Labels `a b c d` scored `1 9 5 2` therefore give `b c d`, as
`AnalysisProxy.ParallelExample` proves.

## Model

| member | source | states |
|---|---|---|
| Text.Lower | server.js:46 | the result has the input's length, and each character is mapped by `LowerChar`: ASCII `A`-`Z` shift to `a`-`z` and every other character is unchanged (`LowerChar` never returns an upper-case ASCII letter) |
| Text.Trim | extension/content.js:8 | the result is a contiguous slice of the input; everything removed before and after it is whitespace; a non-empty result starts and ends with a non-whitespace character |
| Text.TrimEmptyIffAllSpace | extension/content.js:8 | trimming gives the empty string exactly when every character is whitespace |
| Text.TrimIdempotent | extension/content.js:8 | trimming a trimmed string changes nothing |
| Text.LowerIdempotent | server.js:46 | lower-casing twice is the same as lower-casing once |
| AnalysisProxy.Entries | server.js:41-44 | the plain entries of a sentiment reply are exactly those that occur in it as entries, and there are no more of them than reply elements |
| AnalysisProxy.EntriesAppend | server.js:41-44 | taking the plain entries distributes over concatenation, so they keep their reply order and multiplicity |
| AnalysisProxy.EntriesOfOne | server.js:41-44 | a single element contributes its entry, or nothing when it is a nested list |
| AnalysisProxy.Reduce | server.js:44 | no contract of its own: the `reduce` call for a reply that starts with an entry, replacing the running maximum only on a strictly higher score. `ReduceIsFirstMaximum` and `EmotionIsReduction` state what it keeps |
| AnalysisProxy.ReduceIsFirstMaximum | server.js:43-44 | the strict-`>` reduction over a reply that starts with an entry, with later nested lists included (their missing score never wins the comparison), keeps the first maximum of the plain entries |
| AnalysisProxy.EmotionIsReduction | server.js:41-46 | for a reply that starts with an entry, the emotion is the lower-cased label that the reduction over the whole reply keeps |
| AnalysisProxy.Unwrap | server.js:41 | a reply that does not start with a list is read as exactly the entries that occur in it, no more of them than reply elements; `UnwrapNested` and `UnwrapFlat` state the nested and the flat case |
| AnalysisProxy.UnwrapNested | server.js:41 | a sentiment reply whose first element is a list is replaced by that list, whatever follows |
| AnalysisProxy.UnwrapFlat | server.js:41-44 | a flat sentiment reply is used entry for entry |
| AnalysisProxy.ArgMax | server.js:43-44 | a left-to-right reduction with a strict `>` keeps a position with the maximum score, and no earlier entry reaches that score (the first maximum wins ties) |
| AnalysisProxy.EmotionOfEmpty | server.js:43-45 | an empty sentiment list gives the emotion "neutral" |
| AnalysisProxy.EmotionIsFirstMaximum | server.js:43-46 | any position holding the maximum score, with every earlier score strictly lower, is the selected one, and the emotion is that entry's label lower-cased |
| AnalysisProxy.Emotion | server.js:43-46 | no contract of its own: the emotion selection, characterised by `EmotionOfEmpty` (an empty list gives "neutral") and `EmotionIsFirstMaximum` (otherwise the first maximum's label, lower-cased) |
| AnalysisProxy.Insert | server.js:73 | inserting one entry into a ranking is a permutation of the list plus that entry |
| AnalysisProxy.InsertSorted | server.js:73 | inserting into a descending ranking keeps it descending |
| AnalysisProxy.Rank | server.js:73 | ranking by `b.score - a.score` is a permutation of its input in non-increasing score order |
| AnalysisProxy.RankStable | server.js:73 | ranking is stable: for every score, the entries with that score keep their input order |
| AnalysisProxy.TopEntries | server.js:72-74 | the top entries number min(3, n), are drawn from the input without duplication, are in non-increasing order, and no entry left out scores above a selected one |
| AnalysisProxy.Labels | server.js:75 | the labels keep the entries' order, one per entry |
| AnalysisProxy.Pair | server.js:78-79 | the i-th label is paired with the i-th score, one entry per label |
| AnalysisProxy.Candidates | server.js:68-83 | no contract of its own: an array reply decodes to its entries, a parallel reply to its labels paired with their scores, any other shape to none; `TopicsAreTopRanked` states the parallel case entry by entry |
| AnalysisProxy.Topics | server.js:68-83 | no contract of its own: the topic normalisation, characterised by `TopicsAreTopRanked` (the labels of the top min(3, n) ranked entries; none for another shape) and `TopicsOccur` (each topic is the label of a reply entry) |
| AnalysisProxy.TopicsAreTopRanked | server.js:68-83 | for either reply shape, the topics are the labels of the top min(3, n) entries, ranked as above; a reply of any other shape gives no topics; a parallel reply decodes entry by entry |
| AnalysisProxy.TopicsOccur | server.js:68-83 | every returned topic is the label of an entry of the reply |
| AnalysisProxy.RequestText | server.js:21 | no contract of its own: a missing `text` field reads as the empty string; `Analyze` states that this and an empty string both give the 400 response |
| AnalysisProxy.Analyze | server.js:18-102 | 400 with error "No text provided" exactly when the text is missing or empty, with no model called; otherwise the sentiment model is called first and the topic model only after the sentiment model replies; a failure of either gives 500 with error "Analysis failed" and that failure's details; 200 exactly when both reply, with the first-maximum emotion and the top-ranked topics |
| AnalysisProxy.NestedJoyExample | server.js:41-46 | the nested reply `[[joy 0.9, anger 0.1]]` gives "joy" |
| AnalysisProxy.ParallelExample | server.js:76-83 | parallel labels `a b c d` with scores `1 9 5 2` give `b c d` |
| AnalysisProxy.PairsExample | server.js:70-75 | an array reply ranks its entries before taking their labels |
| FeedWatcher.ExtractTweetText | extension/content.js:5-9 | no text exactly when the post has no text element; otherwise the element's text trimmed, which is empty exactly when the element holds only whitespace and else has no whitespace at either end |
| FeedWatcher.DeriveKey | extension/content.js:62-64 | the key is the non-empty `data-tweet-id`, else the non-empty permalink, else the fallback |
| FeedWatcher.KeyIsStableWithIdentifier | extension/content.js:62-64 | a post with an identifier gets the same key whatever fallback is drawn |
| FeedWatcher.HasText | extension/content.js:70-73 | no contract of its own: a post is processed only when it yields non-empty text; `Watcher.Begin` and `ScanOfOne` state that a post without it changes nothing and is not requested |
| FeedWatcher.AnalyzeTweet | extension/content.js:40-59 | the call yields a body exactly when the response arrived with an `ok` status and a parsed body, and then yields that body; a failed status or an exception yields nothing |
| FeedWatcher.TagList | extension/content.js:11-28 | one emotion tag first, then a topic tag for each of the first min(2, n) topics, in order |
| FeedWatcher.TopicTags | extension/content.js:20-25 | one topic tag per topic, in order |
| FeedWatcher.CreateSentimentTags | extension/content.js:11-28 | building the tags one topic at a time gives exactly `TagList` |
| FeedWatcher.Renderable | extension/content.js:87 | no contract of its own: tags are rendered only for a present analysis with both an emotion and topics; `Pipeline.DeliveredResponseRendering` states which responses that admits |
| FeedWatcher.Rendered | extension/content.js:87-93 | no contract of its own: the one tag group appended for a renderable analysis, else nothing; `Watcher.Finish` states that it is what follows the container's remaining children, and `Pipeline.DeliveredResponseRendering` what it is for each response |
| FeedWatcher.Without | extension/content.js:85 | the removed indicator is gone; every other child stays, and only those; with no such indicator the children are unchanged |
| FeedWatcher.WithoutAppend | extension/content.js:85 | removal distributes over concatenation, so the remaining children keep their order |
| FeedWatcher.WithoutCons | extension/content.js:85 | the first child is kept unless it is the removed indicator, and removal goes on with the rest |
| FeedWatcher.WithoutOne | extension/content.js:85 | a single child is dropped exactly when it is the removed indicator |
| FeedWatcher.WithoutCounts | extension/content.js:85 | removal drops every copy of the indicator and keeps each other child as often as it occurred |
| FeedWatcher.WithoutLast | extension/content.js:80-85 | removing an indicator that was appended last restores the container's earlier children |
| FeedWatcher.KeysCount | extension/content.js:66-75 | a request log with distinct keys has as many keys as requests |
| FeedWatcher.SeenGrowth | extension/content.js:66-75 | extending a log of distinct-key requests adds exactly one key per added request |
| FeedWatcher.IssueKeepsConsistent | extension/content.js:66-83 | issuing a request for an unrecorded key, with its indicator, keeps the watcher's invariant |
| FeedWatcher.IssueKeepsKeys | extension/content.js:66-75 | recording an unrecorded key with its request keeps the keys distinct and exactly those of the requests |
| FeedWatcher.IssueKeepsIndicated | extension/content.js:77-83 | the new ticket's indicator in the request's container keeps every pending request indicated and every indicator owned by a pending request of its container |
| FeedWatcher.IssueKeepsSingle | extension/content.js:80-81 | appending the new ticket's indicator keeps each indicator single in its container |
| FeedWatcher.CompleteKeepsConsistent | extension/content.js:83-93 | removing a pending request's indicator and appending tag groups keeps the watcher's invariant |
| FeedWatcher.CompleteKeepsIndicated | extension/content.js:85-93 | removing the indicator and retiring its ticket keep every remaining indicator owned by a pending request |
| FeedWatcher.IndicatorRetired | extension/content.js:85 | once a pending request's indicator is removed, it is on no container of the page |
| FeedWatcher.CompleteKeepsSingle | extension/content.js:85-93 | removing an indicator and appending tag groups keep each indicator single |
| FeedWatcher.Watcher.constructor | extension/content.js:3 | the page starts with no recorded keys, requests or appended children |
| FeedWatcher.Watcher.Begin | extension/content.js:61-83 | a post whose key is recorded, or whose text is missing or blank, changes nothing; otherwise its key is recorded, one request with its trimmed text is issued under the next ticket, and one indicator is appended to its container; the invariant is kept |
| FeedWatcher.Watcher.Finish | extension/content.js:83-93 | the request's indicator is removed from its container, the rest of the page is kept, and the tags are appended only for a renderable analysis; no indicator of that request is left anywhere; the invariant is kept |
| FeedWatcher.Watcher.Scan | extension/content.js:96-101 | after processing the posts in order, the recorded keys grow by exactly the keys of the posts with text; the new requests are, in post order, one per post with text whose key was not recorded before it, each with that key, the post's trimmed text and its container; each container gains exactly the loading indicators of the new requests made for it, in ticket order, and keeps its children; the returned tickets are exactly those of the new requests, in order, and they are all pending |
| FeedWatcher.ScanOfOne | extension/content.js:96-101 | a scan of one post records its key exactly when it has text, and requests it exactly when, in addition, its key was not recorded before |
| FeedWatcher.ScanKeys | extension/content.js:96-101 | no contract of its own: the keys a scan records, those of the posts with text; `Watcher.Scan` states that the recorded keys grow by exactly these, and `ScanOfOne` what one post adds |
| FeedWatcher.ScanRequests | extension/content.js:96-101 | no contract of its own: the requests a scan issues, in post order; `Watcher.Scan` states that the log grows by exactly these, and `ScanOfOne` and `ScanRequestsStep` what one more post adds |
| FeedWatcher.IndicatorsFor | extension/content.js:80-81 | the indicators that new requests leave on one container are loading indicators, no more of them than requests, each for one of those requests' tickets, in strictly increasing ticket order (so at most one per request) |
| FeedWatcher.AppendedIndicatorsGrow | extension/content.js:80-81 | gaining exactly the indicators of new requests means that each container keeps its children and gains only loading indicators |
| FeedWatcher.ScanRequestsStep | extension/content.js:96-101 | scanning one more post adds its request exactly when processing that post issues one |
| FeedWatcher.ScanTwiceBeforeReply | extension/content.js:61-75 | a post with an identifier that is scanned twice before its reply is requested once, with its key, its trimmed text and its container |
| FeedWatcher.FallbackKeysRequestTwice | extension/content.js:62-75 | a post with neither identifier is requested again when a later scan draws another fallback |
| FeedWatcher.RetryAfterTextAppears | extension/content.js:66-75 | a post skipped for lack of text is not recorded, and is requested once its text has rendered |
| FeedWatcher.FailedReplyLeavesNoTrace | extension/content.js:80-93 | a failed analysis leaves the container as it was before the post was processed, and the key stays recorded |
| Pipeline.DeliveredResponseRendering | server.js:88-100 | a 200 response renders exactly its emotion and its first two topics; a 400 or 500 response renders nothing |
| Pipeline.Deliver | server.js:88-100 | the response reaches the script's `fetch` with a body; its status reads as `ok` exactly for the 200 response; the body has an emotion and topics exactly for the 200 response, and for it the script's analysis call yields exactly the response's emotion and its whole topic list |
| Pipeline.RenderedTagsOfReplies | server.js:43-91 | for any sentiment reply and any decodable topic reply, a post's tags are the dominant emotion, then the labels of the top min(2, n) ranked topic entries, best first |

## Left out

- HTTP, the network and JSON serialisation are not modelled. The model calls are inputs of
  `Analyze`. The script's `fetch` is a `FetchOutcome` input of `Finish`.
- Authorization headers, the model URLs, the token and the port are left out; none of them
  affects the handler's logic.
- Console logging is left out, because it has no effect on behaviour.
- The `MutationObserver` and the two-second startup timer are left out. They only decide
  when `findTweets` runs, and any schedule is a sequence of `Scan` calls.
- The DOM is left out. Class names, styling, the "Analyzing..." text and element creation
  are abstracted to the `Child` and `Tag` values appended to a container.
- The choice of container (the text element's parent, else the post) is abstracted to the
  post's `container` field.
- Floating-point scores, `NaN` and a comparator that returns `NaN` are not modelled; scores
  are integers.
- `Math.random().toString(36)` is not modelled; the fallback key is a parameter.
- AnalysisProxy.Pair: the model requires at least as many scores as labels. The source
  pairs extra labels with an undefined score, which sorts unpredictably.
- AnalysisProxy.Unwrap: a nested list after the first element is dropped before the
  selection. In the source it takes part in the reduction but never wins, because its score
  is undefined; `ReduceIsFirstMaximum` proves that the two agree.
- Only one level of nesting in the sentiment reply is modelled.
- A sentiment reply that is not an array is not modelled. For an object, the source reads
  no first element and no length, so it reports "neutral" and goes on to 200. A `null` or
  missing reply makes the source throw, which gives a 500.
- A `null` or missing topic reply makes the source throw when it reads `labels`, which gives
  a 500. The model's `Other` covers only replies that are non-null objects without both
  arrays, which give no topics.
- Text.Lower: lower-cases ASCII letters only, not the full Unicode case mapping of
  `toLowerCase`.
- The error `details` (`error.response?.data || error.message`) is opaque: it is the
  `details` string of the failed call.
- The topic reply array is sorted in place in the source. The model ranks a copy, and the
  mutated reply is not observed afterwards.
- The candidate-label list is recorded in the `TopicCall` sent to the topic model. The
  model does not check that the model's labels come from that list, because the source
  does not check it either.
- A sentiment entry without a label makes the source throw when the selected entry's label
  is lower-cased, which gives a 500. Topic entries without a label give an undefined label
  in the topic list and do not throw. The model gives every entry a label.
- A 200 body whose topic object lacks a `labels` array makes the script throw in
  `createSentimentTags`. The model's `Analysis` has one optional emotion string and one
  optional label list.
