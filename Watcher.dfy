/**
 * The feed watcher: it scans the posts on the page, derives a key for each, analyses every
 * key at most once for the life of the page, shows a loading indicator while a request is in
 * flight and renders an emotion tag and up to two topic tags when the reply is usable.
 *
 * `processTweet` runs synchronously up to its `await`; that prefix is `Begin`, and the
 * continuation after the reply is `Finish`. Any interleaving of scans and replies is a
 * sequence of these calls.
 */
module FeedWatcher {
  import opened Wrappers
  import opened Numbers
  import Text

  /** The element a post's indicator and tags are appended to (the parent of its text element). */
  type ContainerId = nat

  /** What the watcher reads of one post element. */
  datatype Post = Post(
    tweetId: Option<string>,      // the `data-tweet-id` attribute
    permalink: Option<string>,    // the href of the first link whose URL contains "/status/"
    textElement: Option<string>,  // the rendered text of the post's text element, if it has one
    container: ContainerId)

  /** The body of the proxy's reply, as far as the watcher reads it. */
  datatype Analysis = Analysis(emotion: Option<string>, topicLabels: Option<seq<string>>)

  /** How a `fetch` to the proxy ends: a response (its `ok` flag and its parsed body), or an exception. */
  datatype FetchOutcome = Responded(ok: bool, body: Option<Analysis>) | Thrown

  datatype Tag = EmotionTag(text: string) | TopicTag(text: string)

  /** A child the watcher appends to a container: a loading indicator or a group of tags. */
  datatype Child = Loading(ticket: nat) | TagGroup(tags: seq<Tag>)

  /** An analysis request sent to the proxy. */
  datatype Request = Request(key: string, text: string, container: ContainerId)

  /** How many topic tags are shown at most. */
  const ShownTopics: nat := 2

  /**
   * The post's text: absent exactly when it has no text element; otherwise its text trimmed,
   * which is empty only when the element holds nothing but whitespace.
   */
  function ExtractTweetText(post: Post): (text: Option<string>)
    ensures text.None? <==> post.textElement.None?
    ensures text.Some? ==> text.value == Text.Trim(post.textElement.value)
    ensures text.Some? ==> (text.value == "" <==> forall k :: 0 <= k < |post.textElement.value| ==> Text.IsSpace(post.textElement.value[k]))
    ensures text.Some? && text.value != "" ==> !Text.IsSpace(text.value[0]) && !Text.IsSpace(text.value[|text.value| - 1])
  {
    match post.textElement
    case None => None
    case Some(inner) =>
      Text.TrimEmptyIffAllSpace(inner);
      Some(Text.Trim(inner))
  }

  /** A post is processed only when it yields non-empty text. */
  predicate HasText(post: Post)
  {
    var text := ExtractTweetText(post);
    text.Some? && text.value != ""
  }

  /**
   * The post's key: its non-empty `data-tweet-id`, else its non-empty permalink, else the
   * fallback (a random string in the page).
   */
  function DeriveKey(post: Post, fallback: string): (key: string)
    ensures post.tweetId.Some? && post.tweetId.value != "" ==> key == post.tweetId.value
    ensures !(post.tweetId.Some? && post.tweetId.value != "") && post.permalink.Some? && post.permalink.value != "" ==>
      key == post.permalink.value
    ensures !(post.tweetId.Some? && post.tweetId.value != "") && !(post.permalink.Some? && post.permalink.value != "") ==>
      key == fallback
  {
    if post.tweetId.Some? && post.tweetId.value != "" then post.tweetId.value
    else if post.permalink.Some? && post.permalink.value != "" then post.permalink.value
    else fallback
  }

  /** Only a post with neither identifier depends on the fallback. */
  lemma KeyIsStableWithIdentifier(post: Post, f1: string, f2: string)
    requires (post.tweetId.Some? && post.tweetId.value != "") || (post.permalink.Some? && post.permalink.value != "")
    ensures DeriveKey(post, f1) == DeriveKey(post, f2)
  {
  }

  /**
   * What the analysis call resolves to: the parsed body of a successful response, and
   * nothing for a failed status, an unparsable body or an exception.
   */
  function AnalyzeTweet(outcome: FetchOutcome): (analysis: Option<Analysis>)
    ensures analysis.Some? <==> outcome.Responded? && outcome.ok && outcome.body.Some?
    ensures analysis.Some? ==> analysis.value == outcome.body.value
  {
    match outcome
    case Responded(ok, body) => if ok then body else None
    case Thrown => None
  }

  /** Tags are rendered only for a present analysis that has both an emotion and topics. */
  predicate Renderable(analysis: Option<Analysis>)
  {
    analysis.Some? && analysis.value.emotion.Some? && analysis.value.topicLabels.Some?
  }

  /** The tags for a result: one emotion tag, then the first two topics in order. */
  function TagList(emotion: string, topics: seq<string>): (tags: seq<Tag>)
    ensures |tags| == 1 + Min(ShownTopics, |topics|)
    ensures tags[0] == EmotionTag(emotion)
    ensures forall i :: 1 <= i < |tags| ==> tags[i] == TopicTag(topics[i - 1])
  {
    [EmotionTag(emotion)] + TopicTags(topics[..Min(ShownTopics, |topics|)])
  }

  function TopicTags(topics: seq<string>): (tags: seq<Tag>)
    ensures |tags| == |topics|
    ensures forall i :: 0 <= i < |topics| ==> tags[i] == TopicTag(topics[i])
  {
    if topics == [] then [] else [TopicTag(topics[0])] + TopicTags(topics[1..])
  }

  /** Builds the tag group for a result, one topic at a time. */
  method CreateSentimentTags(emotion: string, topics: seq<string>) returns (tags: seq<Tag>)
    ensures tags == TagList(emotion, topics)
  {
    tags := [EmotionTag(emotion)];
    var shown := topics[..Min(ShownTopics, |topics|)];
    for i := 0 to |shown|
      invariant |tags| == 1 + i
      invariant tags[0] == EmotionTag(emotion)
      invariant forall j :: 1 <= j <= i ==> tags[j] == TopicTag(shown[j - 1])
    {
      tags := tags + [TopicTag(shown[i])];
    }
    assert forall j :: 0 <= j < |tags| ==> tags[j] == TagList(emotion, topics)[j];
  }

  /** What the continuation appends after removing the indicator. */
  function Rendered(analysis: Option<Analysis>): seq<Child>
  {
    if Renderable(analysis)
    then [TagGroup(TagList(analysis.value.emotion.value, analysis.value.topicLabels.value))]
    else []
  }

  /** `children` with the loading indicator of `ticket` removed, the rest in order. */
  function Without(children: seq<Child>, ticket: nat): (r: seq<Child>)
    ensures Loading(ticket) !in r
    ensures forall x :: x in r <==> x in children && x != Loading(ticket)
    ensures Loading(ticket) !in children ==> r == children
  {
    if children == [] then []
    else (if children[0] == Loading(ticket) then [] else [children[0]]) + Without(children[1..], ticket)
  }

  /** Removal drops every copy of the indicator and keeps each other child as often as it occurred. */
  lemma {:induction false} WithoutCounts(children: seq<Child>, ticket: nat)
    ensures multiset(Without(children, ticket)) == multiset(children)[Loading(ticket) := 0]
  {
    if children != [] {
      WithoutCounts(children[1..], ticket);
      assert children == [children[0]] + children[1..];
    }
  }

  /** Removal works child by child: the rest keep their order on both sides of a split. */
  lemma {:induction false} WithoutAppend(a: seq<Child>, b: seq<Child>, ticket: nat)
    ensures Without(a + b, ticket) == Without(a, ticket) + Without(b, ticket)
  {
    if a == [] {
      assert a + b == b;
    } else {
      var x, rest := a[0], a[1..];
      var h := if x == Loading(ticket) then [] else [x];
      assert a == [x] + rest;
      assert a + b == [x] + (rest + b);
      calc {
        Without(a + b, ticket);
        { WithoutCons(x, rest + b, ticket); }
        h + Without(rest + b, ticket);
        { WithoutAppend(rest, b, ticket); }
        h + (Without(rest, ticket) + Without(b, ticket));
        (h + Without(rest, ticket)) + Without(b, ticket);
        { WithoutCons(x, rest, ticket); }
        Without(a, ticket) + Without(b, ticket);
      }
    }
  }

  /** Removal from a list with a first child: that child is kept unless it is the indicator. */
  lemma WithoutCons(x: Child, rest: seq<Child>, ticket: nat)
    ensures Without([x] + rest, ticket) == (if x == Loading(ticket) then [] else [x]) + Without(rest, ticket)
  {
    assert ([x] + rest)[0] == x && ([x] + rest)[1..] == rest;
  }

  /** A single child is dropped exactly when it is the indicator removed. */
  lemma WithoutOne(x: Child, ticket: nat)
    ensures Without([x], ticket) == if x == Loading(ticket) then [] else [x]
  {
    assert [x][1..] == [];
  }

  /** The children the watcher has appended to container `c`. */
  function ChildrenOf(containers: map<ContainerId, seq<Child>>, c: ContainerId): seq<Child>
  {
    if c in containers then containers[c] else []
  }

  /** Container `c` kept its children and gained only loading indicators. */
  ghost predicate GrowsAt(before: map<ContainerId, seq<Child>>, after: map<ContainerId, seq<Child>>, c: ContainerId)
  {
    && ChildrenOf(before, c) <= ChildrenOf(after, c)
    && forall k :: |ChildrenOf(before, c)| <= k < |ChildrenOf(after, c)| ==> ChildrenOf(after, c)[k].Loading?
  }

  /** From `before` to `after`, every container kept its children and gained only loading indicators. */
  ghost predicate GrowsByIndicators(before: map<ContainerId, seq<Child>>, after: map<ContainerId, seq<Child>>)
  {
    forall c :: GrowsAt(before, after, c)
  }

  lemma AppendIndicator(m: map<ContainerId, seq<Child>>, box: ContainerId, t: nat)
    ensures GrowsByIndicators(m, m[box := ChildrenOf(m, box) + [Loading(t)]])
  {
    var m' := m[box := ChildrenOf(m, box) + [Loading(t)]];
    forall c ensures GrowsAt(m, m', c) {
      if c != box {
        assert ChildrenOf(m', c) == ChildrenOf(m, c);
      }
    }
  }

  lemma GrowsByIndicatorsReflexive(m: map<ContainerId, seq<Child>>)
    ensures GrowsByIndicators(m, m)
  {
    forall c ensures GrowsAt(m, m, c) {
    }
  }

  /** The tickets from `lo` up to but excluding `hi`, in order. */
  function TicketList(lo: nat, hi: nat): (r: seq<nat>)
    ensures |r| == if lo <= hi then hi - lo else 0
    ensures forall i :: 0 <= i < |r| ==> r[i] == lo + i
    decreases hi
  {
    if hi <= lo then [] else TicketList(lo, hi - 1) + [hi - 1]
  }

  /** The keys of a list of requests. */
  ghost function Keys(requests: seq<Request>): set<string>
  {
    set r | r in requests :: r.key
  }

  ghost predicate DistinctKeys(requests: seq<Request>)
  {
    forall i, j :: 0 <= i < j < |requests| ==> requests[i].key != requests[j].key
  }

  /** With distinct keys there are exactly as many keys as requests. */
  lemma {:induction false} KeysCount(requests: seq<Request>)
    requires DistinctKeys(requests)
    ensures |Keys(requests)| == |requests|
  {
    if requests != [] {
      var n := |requests| - 1;
      var init := requests[..n];
      assert DistinctKeys(init);
      KeysCount(init);
      assert requests == init + [requests[n]];
      assert Keys(requests) == Keys(init) + {requests[n].key};
      forall r | r in init ensures r.key != requests[n].key {
        var i :| 0 <= i < n && init[i] == r;
        assert requests[i] == r;
      }
    }
  }

  /**
   * The watcher's invariant on its state: no key was ever requested twice, the recorded keys
   * are exactly the requested ones, and a loading indicator is on the page exactly while its
   * request is pending, once, in the container of that request.
   */
  ghost predicate Consistent(seen: set<string>, requests: seq<Request>, pending: set<nat>,
                             containers: map<ContainerId, seq<Child>>)
  {
    && DistinctKeys(requests)
    && seen == Keys(requests)
    && Indicated(requests, pending, containers)
    && SingleIndicators(containers)
  }

  /**
   * Every pending request has its indicator in its own container, and every indicator on the
   * page belongs to a pending request of that container.
   */
  ghost predicate Indicated(requests: seq<Request>, pending: set<nat>, containers: map<ContainerId, seq<Child>>)
  {
    && (forall t :: t in pending ==> t < |requests| && Loading(t) in ChildrenOf(containers, requests[t].container))
    && (forall c, t: nat :: Loading(t) in ChildrenOf(containers, c) ==> t in pending && requests[t].container == c)
  }

  /** No container holds the indicator of one request twice. */
  ghost predicate SingleIndicators(containers: map<ContainerId, seq<Child>>)
  {
    forall c, t: nat :: multiset(ChildrenOf(containers, c))[Loading(t)] <= 1
  }

  /** Recording a new key, showing an indicator and issuing its request keep the invariant. */
  lemma IssueKeepsConsistent(seen: set<string>, requests: seq<Request>, pending: set<nat>,
                             containers: map<ContainerId, seq<Child>>, r: Request)
    requires Consistent(seen, requests, pending, containers)
    requires r.key !in seen
    ensures var t := |requests|;
      Consistent(seen + {r.key}, requests + [r], pending + {t},
                 containers[r.container := ChildrenOf(containers, r.container) + [Loading(t)]])
  {
    IssueKeepsKeys(seen, requests, r);
    IssueKeepsIndicated(requests, pending, containers, r);
    IssueKeepsSingle(requests, pending, containers, r.container);
  }

  /** A request for an unrecorded key keeps the keys distinct and recorded. */
  lemma IssueKeepsKeys(seen: set<string>, requests: seq<Request>, r: Request)
    requires DistinctKeys(requests) && seen == Keys(requests)
    requires r.key !in seen
    ensures DistinctKeys(requests + [r]) && seen + {r.key} == Keys(requests + [r])
  {
    var t := |requests|;
    var requests' := requests + [r];
    assert Keys(requests') == Keys(requests) + {r.key};
    forall i, j | 0 <= i < j < |requests'| ensures requests'[i].key != requests'[j].key {
      if j == t {
        assert requests'[i] in requests;
      }
    }
  }

  /** Issuing the next ticket with its indicator in the request's container keeps every indicator accounted for. */
  lemma IssueKeepsIndicated(requests: seq<Request>, pending: set<nat>, containers: map<ContainerId, seq<Child>>, r: Request)
    requires Indicated(requests, pending, containers)
    ensures var t := |requests|;
      Indicated(requests + [r], pending + {t}, containers[r.container := ChildrenOf(containers, r.container) + [Loading(t)]])
  {
    var t := |requests|;
    var requests', pending' := requests + [r], pending + {t};
    var containers' := containers[r.container := ChildrenOf(containers, r.container) + [Loading(t)]];
    forall u | u in pending'
      ensures u < |requests'| && Loading(u) in ChildrenOf(containers', requests'[u].container)
    {
      if u != t {
        assert requests'[u] == requests[u];
        assert Loading(u) in ChildrenOf(containers, requests[u].container);
      }
    }
    forall c, u: nat | Loading(u) in ChildrenOf(containers', c)
      ensures u in pending' && requests'[u].container == c
    {
      if c != r.container {
        assert ChildrenOf(containers', c) == ChildrenOf(containers, c);
        assert u < t && requests'[u] == requests[u];
      } else if u != t {
        assert ChildrenOf(containers', c) == ChildrenOf(containers, c) + [Loading(t)];
        assert Loading(u) in ChildrenOf(containers, c);
        assert u < t && requests'[u] == requests[u];
      }
    }
  }

  /**
   * Removing a pending request's indicator, appending children that are not indicators, and
   * retiring the ticket keep the invariant.
   */
  lemma CompleteKeepsConsistent(seen: set<string>, requests: seq<Request>, pending: set<nat>,
                                containers: map<ContainerId, seq<Child>>, t: nat, added: seq<Child>)
    requires Consistent(seen, requests, pending, containers)
    requires t in pending
    requires forall x :: x in added ==> x.TagGroup?
    ensures var c := requests[t].container;
      Consistent(seen, requests, pending - {t},
                 containers[c := Without(ChildrenOf(containers, c), t) + added])
  {
    CompleteKeepsIndicated(requests, pending, containers, t, added);
    CompleteKeepsSingle(containers, requests[t].container, t, added);
  }

  /** Removing a pending request's indicator and retiring its ticket keep every indicator accounted for. */
  lemma CompleteKeepsIndicated(requests: seq<Request>, pending: set<nat>, containers: map<ContainerId, seq<Child>>,
                               t: nat, added: seq<Child>)
    requires Indicated(requests, pending, containers)
    requires t in pending
    requires forall x :: x in added ==> x.TagGroup?
    ensures var c := requests[t].container;
      Indicated(requests, pending - {t}, containers[c := Without(ChildrenOf(containers, c), t) + added])
  {
    var c := requests[t].container;
    var containers' := containers[c := Without(ChildrenOf(containers, c), t) + added];
    forall u | u in pending - {t}
      ensures u < |requests| && Loading(u) in ChildrenOf(containers', requests[u].container)
    {
      assert Loading(u) in ChildrenOf(containers, requests[u].container);
    }
    forall d, u: nat | Loading(u) in ChildrenOf(containers', d)
      ensures u in pending - {t} && requests[u].container == d
    {
      if d != c {
        assert ChildrenOf(containers', d) == ChildrenOf(containers, d);
      } else {
        assert Loading(u) in Without(ChildrenOf(containers, c), t);
      }
    }
  }

  /** Appending the indicator of a ticket that is on no container keeps each indicator single. */
  lemma IssueKeepsSingle(requests: seq<Request>, pending: set<nat>, containers: map<ContainerId, seq<Child>>, box: ContainerId)
    requires Indicated(requests, pending, containers) && SingleIndicators(containers)
    ensures var t := |requests|;
      SingleIndicators(containers[box := ChildrenOf(containers, box) + [Loading(t)]])
  {
    var t := |requests|;
    assert t !in pending;
    var containers' := containers[box := ChildrenOf(containers, box) + [Loading(t)]];
    forall c, u: nat ensures multiset(ChildrenOf(containers', c))[Loading(u)] <= 1 {
      assert multiset(ChildrenOf(containers, c))[Loading(u)] <= 1;
      if c == box {
        assert multiset(ChildrenOf(containers', c)) == multiset(ChildrenOf(containers, c)) + multiset{Loading(t)};
        if u == t {
          assert Loading(t) !in ChildrenOf(containers, c);
        }
      } else {
        assert ChildrenOf(containers', c) == ChildrenOf(containers, c);
      }
    }
  }

  /** Removing an indicator and appending tag groups keeps each indicator single. */
  lemma CompleteKeepsSingle(containers: map<ContainerId, seq<Child>>, box: ContainerId, t: nat, added: seq<Child>)
    requires SingleIndicators(containers)
    requires forall x :: x in added ==> x.TagGroup?
    ensures SingleIndicators(containers[box := Without(ChildrenOf(containers, box), t) + added])
  {
    var containers' := containers[box := Without(ChildrenOf(containers, box), t) + added];
    forall d, u: nat ensures multiset(ChildrenOf(containers', d))[Loading(u)] <= 1 {
      assert multiset(ChildrenOf(containers, d))[Loading(u)] <= 1;
      if d == box {
        var kept := Without(ChildrenOf(containers, box), t);
        WithoutCounts(ChildrenOf(containers, box), t);
        assert ChildrenOf(containers', d) == kept + added;
        assert Loading(u) !in added;
        assert multiset(kept + added)[Loading(u)] == multiset(kept)[Loading(u)];
      } else {
        assert ChildrenOf(containers', d) == ChildrenOf(containers, d);
      }
    }
  }

  /** The indicator of ticket `t` is on no container. */
  ghost predicate Retired(containers: map<ContainerId, seq<Child>>, t: nat)
  {
    forall c :: Loading(t) !in ChildrenOf(containers, c)
  }

  /** Once a request's indicator is removed, it is on no container of the page. */
  lemma IndicatorRetired(requests: seq<Request>, pending: set<nat>, containers: map<ContainerId, seq<Child>>,
                         t: nat, added: seq<Child>)
    requires Indicated(requests, pending, containers)
    requires t in pending
    requires forall x :: x in added ==> x.TagGroup?
    ensures var c := requests[t].container;
      Retired(containers[c := Without(ChildrenOf(containers, c), t) + added], t)
  {
    var c := requests[t].container;
    var containers' := containers[c := Without(ChildrenOf(containers, c), t) + added];
    forall d ensures Loading(t) !in ChildrenOf(containers', d) {
      if d != c {
        assert ChildrenOf(containers', d) == ChildrenOf(containers, d);
      }
    }
  }

  /** The keys a scan of `posts` records: those of the posts that yield text. */
  ghost function ScanKeys(posts: seq<Post>, fallbacks: seq<string>): set<string>
    requires |fallbacks| == |posts|
  {
    if posts == [] then {}
    else
      var n := |posts| - 1;
      ScanKeys(posts[..n], fallbacks[..n]) + (if HasText(posts[n]) then {DeriveKey(posts[n], fallbacks[n])} else {})
  }

  /**
   * The requests a scan issues, in post order: one for each post that yields text and whose
   * key was neither recorded before the scan (`seen0`) nor recorded earlier in the same scan,
   * carrying that key, the post's trimmed text and the post's container.
   */
  ghost function ScanRequests(seen0: set<string>, posts: seq<Post>, fallbacks: seq<string>): seq<Request>
    requires |fallbacks| == |posts|
  {
    if posts == [] then []
    else
      var n := |posts| - 1;
      var earlier := ScanRequests(seen0, posts[..n], fallbacks[..n]);
      var key := DeriveKey(posts[n], fallbacks[n]);
      if key in seen0 + ScanKeys(posts[..n], fallbacks[..n]) || !HasText(posts[n]) then earlier
      else earlier + [Request(key, ExtractTweetText(posts[n]).value, posts[n].container)]
  }

  /** A scan of a single post records and requests it exactly as processing that post does. */
  lemma ScanOfOne(seen0: set<string>, post: Post, fallback: string)
    ensures ScanKeys([post], [fallback]) == if HasText(post) then {DeriveKey(post, fallback)} else {}
    ensures ScanRequests(seen0, [post], [fallback])
      == if DeriveKey(post, fallback) in seen0 || !HasText(post) then []
         else [Request(DeriveKey(post, fallback), ExtractTweetText(post).value, post.container)]
  {
    assert [post][..0] == [] && [fallback][..0] == [];
  }

  /** A scan of one more post issues that post's request exactly when `Begin` does. */
  lemma ScanRequestsStep(seen0: set<string>, posts: seq<Post>, fallbacks: seq<string>, i: nat,
                         requests0: seq<Request>, requests: seq<Request>, requests': seq<Request>)
    requires |fallbacks| == |posts| && i < |posts|
    requires requests == requests0 + ScanRequests(seen0, posts[..i], fallbacks[..i])
    requires var key := DeriveKey(posts[i], fallbacks[i]);
      requests' == if key in seen0 + ScanKeys(posts[..i], fallbacks[..i]) || !HasText(posts[i]) then requests
                   else requests + [Request(key, ExtractTweetText(posts[i]).value, posts[i].container)]
    ensures requests' == requests0 + ScanRequests(seen0, posts[..i + 1], fallbacks[..i + 1])
  {
    assert posts[..i + 1][..i] == posts[..i] && fallbacks[..i + 1][..i] == fallbacks[..i];
    assert posts[..i + 1][i] == posts[i] && fallbacks[..i + 1][i] == fallbacks[i];
  }

  /**
   * The loading indicators of the requests `rs`, whose tickets start at `lo`, that target
   * container `c`, in ticket order.
   */
  function IndicatorsFor(rs: seq<Request>, lo: nat, c: ContainerId): (r: seq<Child>)
    ensures |r| <= |rs|
    ensures forall k :: 0 <= k < |r| ==> r[k].Loading? && lo <= r[k].ticket < lo + |rs|
    ensures forall k, l :: 0 <= k < l < |r| ==> r[k].ticket < r[l].ticket
    decreases |rs|
  {
    if rs == [] then []
    else
      var n := |rs| - 1;
      IndicatorsFor(rs[..n], lo, c) + (if rs[n].container == c then [Loading(lo + n)] else [])
  }

  /**
   * From `containers0` to `containers`, each container gained exactly the loading indicators
   * of the requests `added`, whose tickets start at `lo`, that target it, in ticket order.
   */
  ghost predicate AppendedIndicators(containers0: map<ContainerId, seq<Child>>, containers: map<ContainerId, seq<Child>>,
                                     added: seq<Request>, lo: nat)
  {
    forall c :: ChildrenOf(containers, c) == ChildrenOf(containers0, c) + IndicatorsFor(added, lo, c)
  }

  /** Gaining the indicators of new requests is gaining only loading indicators. */
  lemma AppendedIndicatorsGrow(containers0: map<ContainerId, seq<Child>>, containers: map<ContainerId, seq<Child>>,
                               added: seq<Request>, lo: nat)
    requires AppendedIndicators(containers0, containers, added, lo)
    ensures GrowsByIndicators(containers0, containers)
  {
    forall c ensures GrowsAt(containers0, containers, c) {
      var more := IndicatorsFor(added, lo, c);
      assert ChildrenOf(containers, c) == ChildrenOf(containers0, c) + more;
      forall k | |ChildrenOf(containers0, c)| <= k < |ChildrenOf(containers, c)|
        ensures ChildrenOf(containers, c)[k].Loading?
      {
        assert ChildrenOf(containers, c)[k] == more[k - |ChildrenOf(containers0, c)|];
      }
    }
  }

  /** No request issued yet: no container has gained anything. */
  lemma AppendedNothing(containers: map<ContainerId, seq<Child>>, lo: nat)
    ensures AppendedIndicators(containers, containers, [], lo)
  {
    forall c ensures ChildrenOf(containers, c) == ChildrenOf(containers, c) + IndicatorsFor([], lo, c) {
    }
  }

  /** One more request adds its indicator to its own container's list and to no other. */
  lemma IndicatorsForSnoc(rs: seq<Request>, r: Request, lo: nat, c: ContainerId)
    ensures IndicatorsFor(rs + [r], lo, c) == IndicatorsFor(rs, lo, c) + (if r.container == c then [Loading(lo + |rs|)] else [])
  {
    assert (rs + [r])[..|rs|] == rs;
  }

  /** Issuing one more request, whose indicator goes to its container, keeps the indicators exact. */
  lemma AppendedIndicatorsStep(containers0: map<ContainerId, seq<Child>>, containers: map<ContainerId, seq<Child>>,
                               added: seq<Request>, lo: nat, r: Request)
    requires AppendedIndicators(containers0, containers, added, lo)
    ensures AppendedIndicators(containers0, containers[r.container := ChildrenOf(containers, r.container) + [Loading(lo + |added|)]],
                               added + [r], lo)
  {
    var containers' := containers[r.container := ChildrenOf(containers, r.container) + [Loading(lo + |added|)]];
    forall c ensures ChildrenOf(containers', c) == ChildrenOf(containers0, c) + IndicatorsFor(added + [r], lo, c) {
      AppendedAt(containers0, containers, added, lo, r, c);
    }
  }

  /** `AppendedIndicatorsStep` for one container. */
  lemma AppendedAt(containers0: map<ContainerId, seq<Child>>, containers: map<ContainerId, seq<Child>>,
                   added: seq<Request>, lo: nat, r: Request, c: ContainerId)
    requires ChildrenOf(containers, c) == ChildrenOf(containers0, c) + IndicatorsFor(added, lo, c)
    ensures var containers' := containers[r.container := ChildrenOf(containers, r.container) + [Loading(lo + |added|)]];
      ChildrenOf(containers', c) == ChildrenOf(containers0, c) + IndicatorsFor(added + [r], lo, c)
  {
    IndicatorsForSnoc(added, r, lo, c);
    var containers' := containers[r.container := ChildrenOf(containers, r.container) + [Loading(lo + |added|)]];
    if c == r.container {
      assert ChildrenOf(containers', c) == ChildrenOf(containers, c) + [Loading(lo + |added|)];
    } else {
      assert ChildrenOf(containers', c) == ChildrenOf(containers, c);
    }
  }

  /**
   * How a scan has changed the state so far, relative to the state it started from: the
   * request log only grew, the tickets returned are those of the new requests, in order,
   * exactly those are pending in addition, and each container gained exactly the loading
   * indicators of the new requests that target it, in ticket order.
   */
  ghost predicate ScanBookkeeping(requests0: seq<Request>, pending0: set<nat>, containers0: map<ContainerId, seq<Child>>,
                                  requests: seq<Request>, pending: set<nat>, containers: map<ContainerId, seq<Child>>,
                                  tickets: seq<nat>)
  {
    && |requests0| <= |requests| && requests[..|requests0|] == requests0
    && tickets == TicketList(|requests0|, |requests|)
    && pending == pending0 + (set t | t in tickets)
    && AppendedIndicators(containers0, containers, requests[|requests0|..], |requests0|)
  }

  /** A processed post that issues request `r` keeps the scan's bookkeeping. */
  lemma ScanStep(requests0: seq<Request>, pending0: set<nat>, containers0: map<ContainerId, seq<Child>>,
                 requests: seq<Request>, pending: set<nat>, containers: map<ContainerId, seq<Child>>, tickets: seq<nat>,
                 r: Request)
    requires ScanBookkeeping(requests0, pending0, containers0, requests, pending, containers, tickets)
    ensures ScanBookkeeping(requests0, pending0, containers0, requests + [r], pending + {|requests|},
                            containers[r.container := ChildrenOf(containers, r.container) + [Loading(|requests|)]],
                            tickets + [|requests|])
  {
    var lo, requests' := |requests0|, requests + [r];
    var containers' := containers[r.container := ChildrenOf(containers, r.container) + [Loading(|requests|)]];
    assert lo <= |requests'| && requests'[..lo] == requests0 by {
      PrefixStep(requests0, requests, r);
    }
    assert tickets + [|requests|] == TicketList(lo, |requests'|)
        && pending + {|requests|} == pending0 + (set t | t in tickets + [|requests|]) by {
      TicketsStep(lo, |requests|, tickets, pending0, pending);
    }
    assert AppendedIndicators(containers0, containers', requests'[lo..], lo) by {
      IndicatorsStep(containers0, containers, requests, lo, r);
    }
  }

  /** A log keeps its prefix when one more request is issued. */
  lemma PrefixStep(requests0: seq<Request>, requests: seq<Request>, r: Request)
    requires |requests0| <= |requests| && requests[..|requests0|] == requests0
    ensures (requests + [r])[..|requests0|] == requests0
  {
    assert (requests + [r])[..|requests0|] == requests[..|requests0|];
  }

  /** The next ticket joins the returned list at its end and the pending set. */
  lemma TicketsStep(lo: nat, n: nat, tickets: seq<nat>, pending0: set<nat>, pending: set<nat>)
    requires lo <= n && tickets == TicketList(lo, n) && pending == pending0 + (set t | t in tickets)
    ensures TicketList(lo, n + 1) == tickets + [n]
    ensures pending + {n} == pending0 + (set t | t in tickets + [n])
  {
    assert (set t | t in tickets + [n]) == (set t | t in tickets) + {n};
  }

  /** `AppendedIndicatorsStep` for the requests after the first `lo` of a growing log. */
  lemma IndicatorsStep(containers0: map<ContainerId, seq<Child>>, containers: map<ContainerId, seq<Child>>,
                       requests: seq<Request>, lo: nat, r: Request)
    requires lo <= |requests|
    requires AppendedIndicators(containers0, containers, requests[lo..], lo)
    ensures AppendedIndicators(containers0, containers[r.container := ChildrenOf(containers, r.container) + [Loading(|requests|)]],
                               (requests + [r])[lo..], lo)
  {
    assert (requests + [r])[lo..] == requests[lo..] + [r];
    AppendedIndicatorsStep(containers0, containers, requests[lo..], lo, r);
  }

  /** A scan of one more post records that post's key when it yields text. */
  lemma ScanKeysStep(posts: seq<Post>, fallbacks: seq<string>, i: nat, seen0: set<string>, seen: set<string>, seen': set<string>)
    requires |fallbacks| == |posts| && i < |posts|
    requires seen == seen0 + ScanKeys(posts[..i], fallbacks[..i])
    requires seen' == seen + (if HasText(posts[i]) then {DeriveKey(posts[i], fallbacks[i])} else {})
    ensures seen' == seen0 + ScanKeys(posts[..i + 1], fallbacks[..i + 1])
  {
    assert posts[..i + 1][..i] == posts[..i] && fallbacks[..i + 1][..i] == fallbacks[..i];
  }

  /** The watcher's page-lifetime state. */
  class Watcher {
    /** Keys of the posts analysed or in flight (`analyzedTweets`); never pruned. */
    var seen: set<string>
    /** Every analysis request issued, in order; a request's ticket is its position. */
    var requests: seq<Request>
    /** Tickets whose reply has not been handled yet. */
    var pending: set<nat>
    /** The children the watcher has appended to each container, in order. */
    var containers: map<ContainerId, seq<Child>>

    ghost predicate Valid()
      reads this
    {
      Consistent(seen, requests, pending, containers)
    }

    constructor ()
      ensures Valid()
      ensures seen == {} && requests == [] && pending == {} && containers == map[]
    {
      seen, requests, pending, containers := {}, [], {}, map[];
    }

    /**
     * `processTweet` up to its `await`: a post whose key is already recorded, or that yields
     * no text, changes nothing; otherwise the key is recorded, an indicator is appended and a
     * request is issued, whose ticket is returned.
     */
    method Begin(post: Post, fallback: string) returns (ticket: Option<nat>)
      requires Valid()
      modifies this
      ensures Valid()
      ensures ticket.None? <==> DeriveKey(post, fallback) in old(seen) || !HasText(post)
      ensures seen == old(seen) + (if HasText(post) then {DeriveKey(post, fallback)} else {})
      ensures ticket.None? ==>
        requests == old(requests) && pending == old(pending) && containers == old(containers)
      ensures ticket.Some? ==>
        && ticket.value == |old(requests)|
        && requests == old(requests) + [Request(DeriveKey(post, fallback), ExtractTweetText(post).value, post.container)]
        && pending == old(pending) + {ticket.value}
        && containers == old(containers)[post.container := ChildrenOf(old(containers), post.container) + [Loading(ticket.value)]]
      ensures GrowsByIndicators(old(containers), containers)
    {
      var key := DeriveKey(post, fallback);
      if key in seen {
        GrowsByIndicatorsReflexive(containers);
        return None;
      }
      var text := ExtractTweetText(post);
      if text.None? || text.value == "" {
        GrowsByIndicatorsReflexive(containers);
        return None;
      }
      var t := |requests|;
      IssueKeepsConsistent(seen, requests, pending, containers, Request(key, text.value, post.container));
      AppendIndicator(containers, post.container, t);
      seen := seen + {key};
      containers := containers[post.container := ChildrenOf(containers, post.container) + [Loading(t)]];
      requests := requests + [Request(key, text.value, post.container)];
      pending := pending + {t};
      ticket := Some(t);
    }

    /**
     * `processTweet` after its `await`: the indicator of the request is removed whatever the
     * outcome, and the tags are appended when the analysis is renderable.
     */
    method Finish(ticket: nat, outcome: FetchOutcome)
      requires Valid()
      requires ticket in pending
      modifies this
      ensures Valid()
      ensures seen == old(seen) && requests == old(requests) && pending == old(pending) - {ticket}
      ensures var c := requests[ticket].container;
        containers == old(containers)[c := Without(ChildrenOf(old(containers), c), ticket) + Rendered(AnalyzeTweet(outcome))]
      ensures Retired(containers, ticket)
    {
      var c := requests[ticket].container;
      var analysis := AnalyzeTweet(outcome);
      var kept := Without(ChildrenOf(containers, c), ticket);
      CompleteKeepsConsistent(seen, requests, pending, containers, ticket, Rendered(analysis));
      IndicatorRetired(requests, pending, containers, ticket, Rendered(analysis));
      ghost var after := containers[c := kept + Rendered(analysis)];
      containers := containers[c := kept];
      if Renderable(analysis) {
        var tags := CreateSentimentTags(analysis.value.emotion.value, analysis.value.topicLabels.value);
        containers := containers[c := kept + [TagGroup(tags)]];
        assert Rendered(analysis) == [TagGroup(tags)];
      } else {
        assert kept + Rendered(analysis) == kept;
      }
      assert containers == after;
      pending := pending - {ticket};
    }

    /**
     * `findTweets`: processes the posts on the page in order, the i-th with fallback key
     * `fallbacks[i]`. Records exactly the keys of the posts that yield text, issues one
     * request per newly recorded key, in post order, and otherwise only appends loading
     * indicators.
     */
    method Scan(posts: seq<Post>, fallbacks: seq<string>) returns (tickets: seq<nat>)
      requires Valid()
      requires |fallbacks| == |posts|
      modifies this
      ensures Valid()
      ensures seen == old(seen) + ScanKeys(posts, fallbacks)
      ensures requests == old(requests) + ScanRequests(old(seen), posts, fallbacks)
      ensures |requests| == |old(requests)| + |seen - old(seen)|
      ensures ScanBookkeeping(old(requests), old(pending), old(containers), requests, pending, containers, tickets)
      ensures GrowsByIndicators(old(containers), containers)
    {
      tickets := [];
      AppendedNothing(containers, |requests|);
      assert requests[|requests|..] == [];
      for i := 0 to |posts|
        invariant Valid()
        invariant seen == old(seen) + ScanKeys(posts[..i], fallbacks[..i])
        invariant requests == old(requests) + ScanRequests(old(seen), posts[..i], fallbacks[..i])
        invariant ScanBookkeeping(old(requests), old(pending), old(containers), requests, pending, containers, tickets)
      {
        ghost var seen1, requests1, pending1, containers1 := seen, requests, pending, containers;
        var ticket := Begin(posts[i], fallbacks[i]);
        if ticket.Some? {
          ScanStep(old(requests), old(pending), old(containers), requests1, pending1, containers1, tickets,
                   Request(DeriveKey(posts[i], fallbacks[i]), ExtractTweetText(posts[i]).value, posts[i].container));
        }
        ScanKeysStep(posts, fallbacks, i, old(seen), seen1, seen);
        ScanRequestsStep(old(seen), posts, fallbacks, i, old(requests), requests1, requests);
        if ticket.Some? {
          tickets := tickets + [ticket.value];
        }
      }
      assert posts[..|posts|] == posts && fallbacks[..|fallbacks|] == fallbacks;
      SeenGrowth(old(requests), requests);
      AppendedIndicatorsGrow(old(containers), containers, requests[|old(requests)|..], |old(requests)|);
    }
  }

  /** Extending a request log with distinct keys adds one key per request. */
  lemma SeenGrowth(before: seq<Request>, after: seq<Request>)
    requires |before| <= |after| && after[..|before|] == before
    requires DistinctKeys(after)
    ensures Keys(before) <= Keys(after)
    ensures |Keys(after) - Keys(before)| == |after| - |before|
  {
    assert DistinctKeys(before);
    KeysCount(before);
    KeysCount(after);
    assert Keys(before) <= Keys(after) by {
      forall k | k in Keys(before) ensures k in Keys(after) {
        var r :| r in before && r.key == k;
        var i :| 0 <= i < |before| && before[i] == r;
        assert after[i] == r;
      }
    }
    assert |Keys(after) - Keys(before)| == |Keys(after)| - |Keys(before)|;
  }

  /** Removing an indicator from a list that ends with it removes exactly that last child. */
  lemma WithoutLast(children: seq<Child>, t: nat)
    requires Loading(t) !in children
    ensures Without(children + [Loading(t)], t) == children
  {
    WithoutAppend(children, [Loading(t)], t);
    WithoutOne(Loading(t), t);
  }

  // ---------------------------------------------------------------------------------------
  // Scenarios: what callers of the watcher can rely on

  /**
   * A post with a stable identifier seen by two scans before its reply arrives (a sibling
   * insertion fires the observer again) is requested once, whatever fallbacks the scans draw.
   */
  method ScanTwiceBeforeReply(w: Watcher, post: Post, f1: string, f2: string)
    requires w.Valid()
    requires (post.tweetId.Some? && post.tweetId.value != "") || (post.permalink.Some? && post.permalink.value != "")
    requires HasText(post) && DeriveKey(post, f1) !in w.seen
    modifies w
    ensures w.Valid()
    ensures w.requests == old(w.requests) + [Request(DeriveKey(post, f1), ExtractTweetText(post).value, post.container)]
  {
    ScanOfOne(w.seen, post, f1);
    var first := w.Scan([post], [f1]);
    KeyIsStableWithIdentifier(post, f1, f2);
    ScanOfOne(w.seen, post, f2);
    var second := w.Scan([post], [f2]);
  }

  /**
   * The known weakness of random keys: a post with neither identifier gets a fresh key on
   * every scan, so two scans that draw different fallbacks request it twice.
   */
  method FallbackKeysRequestTwice(w: Watcher, post: Post, f1: string, f2: string)
    requires w.Valid()
    requires post.tweetId.None? && post.permalink.None?
    requires HasText(post) && f1 != f2 && f1 !in w.seen && f2 !in w.seen
    modifies w
    ensures w.Valid()
    ensures |w.requests| == |old(w.requests)| + 2
  {
    var first := w.Begin(post, f1);
    var second := w.Begin(post, f2);
  }

  /**
   * A post whose text element has not rendered yet is skipped without a trace and is
   * analysed on a later scan once its text is there.
   */
  method RetryAfterTextAppears(w: Watcher, post: Post, fallback: string, text: string)
    requires w.Valid()
    requires post.textElement.None? && DeriveKey(post, fallback) !in w.seen
    requires exists k :: 0 <= k < |text| && !Text.IsSpace(text[k])
    modifies w
    ensures w.Valid()
    ensures |w.requests| == |old(w.requests)| + 1
    ensures w.requests[|old(w.requests)|].key == DeriveKey(post, fallback)
  {
    var first := w.Begin(post, fallback);
    assert first.None? && w.seen == old(w.seen);
    var rendered := post.(textElement := Some(text));
    assert DeriveKey(rendered, fallback) == DeriveKey(post, fallback);
    assert HasText(rendered);
    var second := w.Begin(rendered, fallback);
  }

  /**
   * A reply that fails leaves its container as it was before the post was processed (no
   * indicator, no tags), and the key stays recorded, so the post is not retried.
   */
  method FailedReplyLeavesNoTrace(w: Watcher, post: Post, fallback: string, outcome: FetchOutcome)
    requires w.Valid()
    requires HasText(post) && DeriveKey(post, fallback) !in w.seen
    requires AnalyzeTweet(outcome).None?
    modifies w
    ensures w.Valid()
    ensures ChildrenOf(w.containers, post.container) == ChildrenOf(old(w.containers), post.container)
    ensures DeriveKey(post, fallback) in w.seen
  {
    var ticket := w.Begin(post, fallback);
    var t := ticket.value;
    assert Loading(t) !in ChildrenOf(old(w.containers), post.container);
    w.Finish(t, outcome);
    WithoutLast(ChildrenOf(old(w.containers), post.container), t);
  }
}
