/**
 * The analysis proxy's `/analyze` handler: it validates the request text, asks a sentiment
 * model and a zero-shot topic model, and normalises their replies into one emotion label and
 * at most three ranked topic labels.
 *
 * Scores are only ever compared, so they are integers here.
 */
module AnalysisProxy {
  import opened Wrappers
  import opened Numbers
  import Text

  /** One `{label, score}` entry of a model reply. */
  datatype Item = Item(name: string, score: int)

  /** An element of the sentiment reply: an entry, or a nested list of entries. */
  datatype SentimentElem = Entry(item: Item) | Group(items: seq<Item>)

  /**
   * The two shapes of topic reply: an array of entries, or an object with parallel `labels`
   * and `scores` arrays; anything else is `Other`.
   */
  datatype TopicReply = Pairs(items: seq<Item>) | Parallel(labels: seq<string>, scores: seq<int>) | Other

  /** What a downstream model call gives back: its reply, or the error it raised. */
  datatype Downstream<T> = Replied(data: T) | Failed(details: string)

  /** A request the handler sends to one of the two models. */
  datatype Call = SentimentCall(inputs: string) | TopicCall(inputs: string, candidateLabels: seq<string>)

  /** The handler's HTTP reply. */
  datatype Response = Ok(emotion: string, topics: seq<string>) | BadRequest | ServerError(details: string) {

    function Status(): int
    {
      match this
      case Ok(_, _) => 200
      case BadRequest => 400
      case ServerError(_) => 500
    }

    /** The `error` field of the JSON body; the 200 body has none. */
    function ErrorMessage(): string
    {
      match this
      case Ok(_, _) => ""
      case BadRequest => "No text provided"
      case ServerError(_) => "Analysis failed"
    }
  }

  /** The emotion reported when the sentiment model returns no entries. */
  const DefaultEmotion: string := "neutral"

  /** The fixed label set the topic model classifies against. */
  const CandidateLabels: seq<string> := [
    "politics", "technology", "sports", "finance", "entertainment",
    "education", "science", "relationships", "crime", "mental health", "insult",
    "racism", "humor", "motivation", "violence", "social issues", "religion",
    "personal life", "news"
  ]

  /** How many topic labels the proxy returns at most. */
  const TopicCount: nat := 3

  // ---------------------------------------------------------------------------------------
  // Sentiment normalisation

  /** The plain entries of a reply, in order. */
  function Entries(reply: seq<SentimentElem>): (r: seq<Item>)
    ensures |r| <= |reply|
    ensures forall x :: x in r <==> Entry(x) in reply
  {
    if reply == [] then []
    else (if reply[0].Entry? then [reply[0].item] else []) + Entries(reply[1..])
  }

  /**
   * Unwraps one level of nesting when the first element is itself a list. Otherwise the
   * entries are used as they are; a nested list further on carries no score, so the strict
   * comparison of the selection never picks it, and it is dropped here.
   */
  function Unwrap(reply: seq<SentimentElem>): (r: seq<Item>)
    ensures !(|reply| > 0 && reply[0].Group?) ==> |r| <= |reply| && forall x :: x in r <==> Entry(x) in reply
  {
    if |reply| > 0 && reply[0].Group? then reply[0].items else Entries(reply)
  }

  /** A reply whose first element is a list is replaced by that list, whatever follows it. */
  lemma UnwrapNested(inner: seq<Item>, rest: seq<SentimentElem>)
    ensures Unwrap([Group(inner)] + rest) == inner
  {
  }

  /** The plain entries of a concatenation are those of each part, in order. */
  lemma {:induction false} EntriesAppend(a: seq<SentimentElem>, b: seq<SentimentElem>)
    ensures Entries(a + b) == Entries(a) + Entries(b)
  {
    if a == [] {
      assert a + b == b;
    } else {
      var ab := a + b;
      assert ab[0] == a[0];
      assert ab[1..] == a[1..] + b;
      var head := if a[0].Entry? then [a[0].item] else [];
      assert Entries(ab) == head + Entries(ab[1..]);
      assert Entries(a) == head + Entries(a[1..]);
      EntriesAppend(a[1..], b);
    }
  }

  /** A single element contributes its entry, or nothing when it is a nested list. */
  lemma EntriesOfOne(e: SentimentElem)
    ensures Entries([e]) == if e.Entry? then [e.item] else []
  {
    assert [e][1..] == [];
  }

  /**
   * The reduction over a reply whose first element is an entry, read left to right: an
   * entry replaces the running maximum only with a strictly higher score, and a nested
   * list has no score, so its comparison is false and it never replaces the maximum.
   */
  function Reduce(reply: seq<SentimentElem>): Item
    requires |reply| > 0 && reply[0].Entry?
  {
    if |reply| == 1 then reply[0].item
    else
      var max := Reduce(reply[..|reply| - 1]);
      match reply[|reply| - 1]
      case Entry(x) => if x.score > max.score then x else max
      case Group(_) => max
  }

  /**
   * The reduction over the whole reply, nested lists included, keeps the first maximum of
   * its plain entries, so dropping the nested lists does not change the result.
   */
  lemma {:induction false} ReduceIsFirstMaximum(reply: seq<SentimentElem>)
    requires |reply| > 0 && reply[0].Entry?
    ensures |Entries(reply)| > 0
    ensures Reduce(reply) == Entries(reply)[ArgMax(Entries(reply))]
  {
    var n := |reply| - 1;
    assert reply == reply[..n] + [reply[n]];
    EntriesAppend(reply[..n], [reply[n]]);
    EntriesOfOne(reply[n]);
    if n == 0 {
      assert Entries(reply) == [reply[0].item];
    } else {
      ReduceIsFirstMaximum(reply[..n]);
      var e := Entries(reply[..n]);
      if reply[n].Entry? {
        assert Entries(reply) == e + [reply[n].item];
        assert (e + [reply[n].item])[..|e|] == e;
      } else {
        assert Entries(reply) == e;
      }
    }
  }

  /** For a reply that starts with an entry, the emotion is the lower-cased label the reduction keeps. */
  lemma EmotionIsReduction(reply: seq<SentimentElem>)
    requires |reply| > 0 && reply[0].Entry?
    ensures Emotion(Unwrap(reply)) == Text.Lower(Reduce(reply).name)
  {
    ReduceIsFirstMaximum(reply);
  }

  /** A flat reply is taken entry for entry. */
  lemma {:induction false} UnwrapFlat(items: seq<Item>)
    ensures Unwrap(seq(|items|, i requires 0 <= i < |items| => Entry(items[i]))) == items
  {
    var reply := seq(|items|, i requires 0 <= i < |items| => Entry(items[i]));
    EntriesOfFlat(items);
  }

  lemma {:induction false} EntriesOfFlat(items: seq<Item>)
    ensures Entries(seq(|items|, i requires 0 <= i < |items| => Entry(items[i]))) == items
  {
    if items != [] {
      var reply := seq(|items|, i requires 0 <= i < |items| => Entry(items[i]));
      assert reply[1..] == seq(|items[1..]|, i requires 0 <= i < |items[1..]| => Entry(items[1..][i]));
      EntriesOfFlat(items[1..]);
      assert items == [items[0]] + items[1..];
    }
  }

  /**
   * The position a left-to-right reduction with a strict `>` keeps: a maximum score, and the
   * earliest of the entries that share it.
   */
  function ArgMax(items: seq<Item>): (k: nat)
    requires |items| > 0
    ensures k < |items|
    ensures forall j :: 0 <= j < |items| ==> items[j].score <= items[k].score
    ensures forall j :: 0 <= j < k ==> items[j].score < items[k].score
  {
    if |items| == 1 then 0
    else
      var k := ArgMax(items[..|items| - 1]);
      if items[|items| - 1].score > items[k].score then |items| - 1 else k
  }

  /** The dominant emotion: the lower-cased label of the selected entry, or the default. */
  function Emotion(items: seq<Item>): string
  {
    if |items| == 0 then DefaultEmotion else Text.Lower(items[ArgMax(items)].name)
  }

  /** An empty sentiment list yields "neutral". */
  lemma EmotionOfEmpty()
    ensures Emotion([]) == "neutral"
  {
  }

  /**
   * Any position holding a maximum score with no earlier entry as high is the one selected,
   * and the emotion is the lower-cased label found there.
   */
  lemma EmotionIsFirstMaximum(items: seq<Item>, k: nat)
    requires k < |items|
    requires forall j :: 0 <= j < |items| ==> items[j].score <= items[k].score
    requires forall j :: 0 <= j < k ==> items[j].score < items[k].score
    ensures ArgMax(items) == k
    ensures Emotion(items) == Text.Lower(items[k].name)
  {
    var m := ArgMax(items);
    assert items[m].score <= items[k].score;
    assert items[k].score <= items[m].score;
  }

  // ---------------------------------------------------------------------------------------
  // Topic normalisation

  predicate SortedDesc(s: seq<Item>)
  {
    forall i, j :: 0 <= i < j < |s| ==> s[i].score >= s[j].score
  }

  /** The entries of `s` with score `v`, in order. */
  function WithScore(s: seq<Item>, v: int): seq<Item>
  {
    if s == [] then []
    else (if s[0].score == v then [s[0]] else []) + WithScore(s[1..], v)
  }

  /** Puts `x` in front of the first entry that does not outscore it. */
  function Insert(x: Item, s: seq<Item>): (r: seq<Item>)
    ensures multiset(r) == multiset(s) + multiset{x}
  {
    if s == [] || s[0].score <= x.score then [x] + s
    else
      assert s == [s[0]] + s[1..];
      [s[0]] + Insert(x, s[1..])
  }

  /** Inserting into a descending list keeps it descending. */
  lemma {:induction false} InsertSorted(x: Item, s: seq<Item>)
    requires SortedDesc(s)
    ensures SortedDesc(Insert(x, s))
  {
    if s != [] && s[0].score > x.score {
      var t := Insert(x, s[1..]);
      assert SortedDesc(s[1..]);
      InsertSorted(x, s[1..]);
      forall j | 0 <= j < |t| ensures t[j].score <= s[0].score {
        assert t[j] in multiset(s[1..]) + multiset{x};
        if t[j] != x {
          assert t[j] in s[1..];
          var k :| 0 <= k < |s[1..]| && s[1..][k] == t[j];
          assert s[k + 1] == t[j];
        }
      }
      var r := [s[0]] + t;
      assert r == Insert(x, s);
      forall i, j | 0 <= i < j < |r| ensures r[i].score >= r[j].score {
        if i > 0 {
          assert r[i] == t[i - 1] && r[j] == t[j - 1];
        } else {
          assert r[j] == t[j - 1];
        }
      }
    }
  }

  /** Stable ordering by score, highest first (a comparator of `b.score - a.score`). */
  function Rank(s: seq<Item>): (r: seq<Item>)
    ensures multiset(r) == multiset(s)
    ensures SortedDesc(r)
  {
    if s == [] then []
    else
      assert s == [s[0]] + s[1..];
      InsertSorted(s[0], Rank(s[1..]));
      Insert(s[0], Rank(s[1..]))
  }

  lemma {:induction false} InsertWithScore(x: Item, s: seq<Item>, v: int)
    requires SortedDesc(s)
    ensures WithScore(Insert(x, s), v) == if x.score == v then [x] + WithScore(s, v) else WithScore(s, v)
  {
    if s == [] || s[0].score <= x.score {
      assert ([x] + s)[1..] == s;
      if x.score == v && s != [] && s[0].score != v {
        assert s[0].score < v;
        WithScoreBelow(s, v);
      }
    } else {
      assert SortedDesc(s[1..]);
      InsertWithScore(x, s[1..], v);
      assert ([s[0]] + Insert(x, s[1..]))[1..] == Insert(x, s[1..]);
      if x.score == v {
        assert s[0].score > v;
      }
    }
  }

  /** In a descending list whose head is below `v`, nothing has score `v`. */
  lemma {:induction false} WithScoreBelow(s: seq<Item>, v: int)
    requires SortedDesc(s)
    requires s != [] && s[0].score < v
    ensures WithScore(s, v) == []
  {
    if |s| > 1 {
      assert SortedDesc(s[1..]);
      assert s[1].score <= s[0].score;
      WithScoreBelow(s[1..], v);
    }
  }

  /** Ranking is stable: entries with equal scores keep their relative order. */
  lemma {:induction false} RankStable(s: seq<Item>, v: int)
    ensures WithScore(Rank(s), v) == WithScore(s, v)
  {
    if s != [] {
      RankStable(s[1..], v);
      InsertWithScore(s[0], Rank(s[1..]), v);
    }
  }

  /**
   * The top entries: the first three of the ranking. They number min(3, |s|), are drawn from
   * `s`, are in non-increasing score order, and none of them scores below an entry left out.
   */
  function TopEntries(s: seq<Item>): (top: seq<Item>)
    ensures |top| == Min(TopicCount, |s|)
    ensures multiset(top) <= multiset(s)
    ensures SortedDesc(top)
    ensures forall x, y :: x in top && y in multiset(s) - multiset(top) ==> x.score >= y.score
  {
    var r := Rank(s);
    var k := Min(TopicCount, |s|);
    PrefixDominates(r, k);
    PrefixSorted(r, k);
    r[..k]
  }

  /** In a descending list, no entry of a prefix scores below an entry after it. */
  lemma PrefixDominates(r: seq<Item>, k: nat)
    requires SortedDesc(r) && k <= |r|
    ensures multiset(r[..k]) <= multiset(r)
    ensures forall x, y :: x in r[..k] && y in multiset(r) - multiset(r[..k]) ==> x.score >= y.score
  {
    PrefixSplit(r, k);
    PrefixAboveSuffix(r, k);
  }

  /** A prefix and the rest make up the whole list. */
  lemma PrefixSplit(r: seq<Item>, k: nat)
    requires k <= |r|
    ensures multiset(r[..k]) <= multiset(r)
    ensures multiset(r) - multiset(r[..k]) == multiset(r[k..])
  {
    assert r == r[..k] + r[k..];
  }

  /** In a descending list, every entry of a prefix scores at least every entry after it. */
  lemma PrefixAboveSuffix(r: seq<Item>, k: nat)
    requires SortedDesc(r) && k <= |r|
    ensures forall x, y :: x in r[..k] && y in r[k..] ==> x.score >= y.score
  {
    forall x, y | x in r[..k] && y in r[k..] ensures x.score >= y.score {
      var i :| 0 <= i < k && r[..k][i] == x;
      var j :| 0 <= j < |r| - k && r[k..][j] == y;
      assert r[i] == x && r[k + j] == y;
    }
  }

  lemma PrefixSorted(r: seq<Item>, k: nat)
    requires SortedDesc(r) && k <= |r|
    ensures SortedDesc(r[..k])
  {
  }

  /** The labels of a list of entries, in order. */
  function Labels(s: seq<Item>): (r: seq<string>)
    ensures |r| == |s|
    ensures forall i :: 0 <= i < |s| ==> r[i] == s[i].name
  {
    if s == [] then [] else [s[0].name] + Labels(s[1..])
  }

  /** Pairs `labels[i]` with `scores[i]`; scores beyond the labels are ignored. */
  function Pair(labels: seq<string>, scores: seq<int>): (r: seq<Item>)
    requires |labels| <= |scores|
    ensures |r| == |labels|
    ensures forall i :: 0 <= i < |r| ==> r[i] == Item(labels[i], scores[i])
  {
    if labels == [] then [] else [Item(labels[0], scores[0])] + Pair(labels[1..], scores[1..])
  }

  /** A parallel-array reply has a score for every label. */
  predicate Decodable(reply: TopicReply)
  {
    reply.Parallel? ==> |reply.labels| <= |reply.scores|
  }

  /** The candidate entries a topic reply decodes to; `Other` decodes to none. */
  function Candidates(reply: TopicReply): (c: seq<Item>)
    requires Decodable(reply)
  {
    match reply
    case Pairs(items) => items
    case Parallel(labels, scores) => Pair(labels, scores)
    case Other => []
  }

  /** The normalised topic labels: those of the top entries of the decoded reply. */
  function Topics(reply: TopicReply): seq<string>
    requires Decodable(reply)
  {
    match reply
    case Other => []
    case _ => Labels(TopEntries(Candidates(reply)))
  }

  /**
   * What the normalised topics promise: at most min(3, number of entries) labels, each the
   * label of one entry of a ranked selection drawn from the reply, highest score first, with
   * no omitted entry scoring above a selected one; `Other` gives no topics.
   */
  lemma TopicsAreTopRanked(reply: TopicReply)
    requires Decodable(reply)
    ensures var c := Candidates(reply);
      && var top := TopEntries(c);
      && Topics(reply) == Labels(top)
      && |Topics(reply)| == Min(TopicCount, |c|)
      && multiset(top) <= multiset(c)
      && SortedDesc(top)
      && (forall x, y :: x in top && y in multiset(c) - multiset(top) ==> x.score >= y.score)
    ensures reply.Other? ==> Topics(reply) == []
    ensures reply.Parallel? ==> (|Candidates(reply)| == |reply.labels|
      && forall i :: 0 <= i < |reply.labels| ==> Candidates(reply)[i] == Item(reply.labels[i], reply.scores[i]))
  {
  }

  /** Every returned topic is the label of an entry of the reply. */
  lemma {:induction false} TopicsOccur(reply: TopicReply, i: nat)
    requires Decodable(reply)
    requires i < |Topics(reply)|
    ensures exists x :: x in Candidates(reply) && x.name == Topics(reply)[i]
  {
    var top := TopEntries(Candidates(reply));
    var x := top[i];
    assert x in multiset(top);
    assert x in multiset(Candidates(reply));
    assert x.name == Topics(reply)[i];
  }

  // ---------------------------------------------------------------------------------------
  // The handler

  /** The text of the request body: the `text` field, with a missing one read as empty. */
  function RequestText(text: Option<string>): string
  {
    text.GetOr("")
  }

  /**
   * Handles one `/analyze` request, given its `text` field and what each model call gives
   * back. Returns the response and the model calls made, in order.
   */
  method Analyze(text: Option<string>, sentiment: Downstream<seq<SentimentElem>>, topic: Downstream<TopicReply>)
    returns (response: Response, calls: seq<Call>)
    requires topic.Replied? ==> Decodable(topic.data)
    ensures RequestText(text) == "" <==> response == BadRequest
    ensures RequestText(text) == "" ==> calls == []
    ensures RequestText(text) != "" ==>
      calls == [SentimentCall(RequestText(text))] + (if sentiment.Replied? then [TopicCall(RequestText(text), CandidateLabels)] else [])
    ensures RequestText(text) != "" && sentiment.Failed? ==> response == ServerError(sentiment.details)
    ensures RequestText(text) != "" && sentiment.Replied? && topic.Failed? ==> response == ServerError(topic.details)
    ensures response.Ok? <==> RequestText(text) != "" && sentiment.Replied? && topic.Replied?
    ensures response.Ok? ==>
      response.emotion == Emotion(Unwrap(sentiment.data)) && response.topics == Topics(topic.data)
    ensures RequestText(text) == "" ==> response.Status() == 400 && response.ErrorMessage() == "No text provided"
    ensures RequestText(text) != "" && (sentiment.Failed? || topic.Failed?) ==>
      response.Status() == 500 && response.ErrorMessage() == "Analysis failed"
    ensures RequestText(text) != "" && sentiment.Replied? && topic.Replied? ==> response.Status() == 200
  {
    var body := RequestText(text);
    if body == "" {
      return BadRequest, [];
    }
    calls := [SentimentCall(body)];
    if sentiment.Failed? {
      return ServerError(sentiment.details), calls;
    }
    var sentiments := Unwrap(sentiment.data);
    var emotion := Emotion(sentiments);
    calls := calls + [TopicCall(body, CandidateLabels)];
    if topic.Failed? {
      return ServerError(topic.details), calls;
    }
    var topics := Topics(topic.data);
    response := Ok(emotion, topics);
  }

  // ---------------------------------------------------------------------------------------
  // Worked examples

  /** A singly nested reply `[[joy 0.9, anger 0.1]]` yields "joy". */
  lemma NestedJoyExample()
    ensures Emotion(Unwrap([Group([Item("joy", 9), Item("anger", 1)])])) == "joy"
  {
    var items := [Item("joy", 9), Item("anger", 1)];
    EmotionIsFirstMaximum(items, 0);
  }

  /** Parallel arrays `a b c d` scored `1 9 5 2` yield `b c d`. */
  lemma ParallelExample()
    ensures Topics(Parallel(["a", "b", "c", "d"], [1, 9, 5, 2])) == ["b", "c", "d"]
  {
    ParallelExampleAt(Item("a", 1), Item("b", 9), Item("c", 5), Item("d", 2));
  }

  lemma ParallelExampleAt(a: Item, b: Item, c: Item, d: Item)
    requires a == Item("a", 1) && b == Item("b", 9) && c == Item("c", 5) && d == Item("d", 2)
    ensures Topics(Parallel(["a", "b", "c", "d"], [1, 9, 5, 2])) == ["b", "c", "d"]
  {
    PairExample(a, b, c, d);
    TopicsOfExample(a, b, c, d);
    RankExample(a, b, c, d);
    TopEntriesExample(a, b, c, d);
    LabelsExample(b, c, d);
  }

  lemma TopicsOfExample(a: Item, b: Item, c: Item, d: Item)
    requires Pair(["a", "b", "c", "d"], [1, 9, 5, 2]) == [a, b, c, d]
    ensures Topics(Parallel(["a", "b", "c", "d"], [1, 9, 5, 2])) == Labels(TopEntries([a, b, c, d]))
  {
  }

  lemma TopEntriesExample(a: Item, b: Item, c: Item, d: Item)
    requires Rank([a, b, c, d]) == [b, c, d, a]
    ensures TopEntries([a, b, c, d]) == [b, c, d]
  {
  }

  lemma LabelsExample(b: Item, c: Item, d: Item)
    requires b == Item("b", 9) && c == Item("c", 5) && d == Item("d", 2)
    ensures Labels([b, c, d]) == ["b", "c", "d"]
  {
  }

  lemma PairExample(a: Item, b: Item, c: Item, d: Item)
    requires a == Item("a", 1) && b == Item("b", 9) && c == Item("c", 5) && d == Item("d", 2)
    ensures Pair(["a", "b", "c", "d"], [1, 9, 5, 2]) == [a, b, c, d]
  {
  }

  lemma RankExample(a: Item, b: Item, c: Item, d: Item)
    requires a == Item("a", 1) && b == Item("b", 9) && c == Item("c", 5) && d == Item("d", 2)
    ensures Rank([a, b, c, d]) == [b, c, d, a]
  {
    RankTailExample(b, c, d);
    InsertExample(a, b, c, d);
    assert [a, b, c, d][1..] == [b, c, d];
  }

  lemma RankTailExample(b: Item, c: Item, d: Item)
    requires b == Item("b", 9) && c == Item("c", 5) && d == Item("d", 2)
    ensures Rank([b, c, d]) == [b, c, d]
  {
    assert [b, c, d][1..] == [c, d];
    assert [c, d][1..] == [d];
    assert Rank([d]) == [d] by { assert [d][1..] == []; }
    assert Rank([c, d]) == [c, d];
  }

  lemma InsertExample(a: Item, b: Item, c: Item, d: Item)
    requires a == Item("a", 1) && b == Item("b", 9) && c == Item("c", 5) && d == Item("d", 2)
    ensures Insert(a, [b, c, d]) == [b, c, d, a]
  {
    assert [b, c, d][1..] == [c, d];
    assert [c, d][1..] == [d];
    assert Insert(a, [d]) == [d, a] by { assert [d][1..] == []; }
    assert Insert(a, [c, d]) == [c, d, a];
  }

  /** Entries `x 0.3, y 0.7` yield `y x`. */
  lemma PairsExample()
    ensures Topics(Pairs([Item("x", 3), Item("y", 7)])) == ["y", "x"]
  {
    PairsExampleAt(Item("x", 3), Item("y", 7));
  }

  lemma PairsExampleAt(x: Item, y: Item)
    requires x == Item("x", 3) && y == Item("y", 7)
    ensures Topics(Pairs([Item("x", 3), Item("y", 7)])) == ["y", "x"]
  {
    PairsRankExample(x, y);
    PairsTopExample(x, y);
    PairsLabelsExample(x, y);
  }

  lemma PairsTopExample(x: Item, y: Item)
    requires Rank([x, y]) == [y, x]
    ensures TopEntries([x, y]) == [y, x]
  {
  }

  lemma PairsLabelsExample(x: Item, y: Item)
    requires x == Item("x", 3) && y == Item("y", 7)
    ensures Labels([y, x]) == ["y", "x"]
  {
    assert [y, x][1..] == [x];
  }

  lemma PairsRankExample(x: Item, y: Item)
    requires x == Item("x", 3) && y == Item("y", 7)
    ensures Rank([x, y]) == [y, x]
  {
    assert [x, y][1..] == [y];
    assert Rank([y]) == [y] by { assert [y][1..] == []; }
    assert Insert(x, [y]) == [y, x] by { assert [y][1..] == []; }
  }
}
