/**
 * The two components together: how the proxy's response reaches the watcher's fetch, and
 * which tags a post ends up with.
 */
module Pipeline {
  import opened Wrappers
  import Numbers
  import AnalysisProxy
  import FeedWatcher

  /**
   * The proxy's response as the watcher's `fetch` sees it: `ok` for a 2xx status; a success
   * body carries the emotion and the topic labels, an error body carries neither.
   */
  function Deliver(response: AnalysisProxy.Response): (r: FeedWatcher.FetchOutcome)
    ensures r.Responded? && r.body.Some?
    ensures r.ok <==> response.Ok?
    ensures r.body.value.emotion.Some? <==> response.Ok?
    ensures r.body.value.topicLabels.Some? <==> response.Ok?
    ensures response.Ok? ==>
      FeedWatcher.AnalyzeTweet(r) == Some(FeedWatcher.Analysis(Some(response.emotion), Some(response.topics)))
  {
    var ok := 200 <= response.Status() < 300;
    match response
    case Ok(emotion, topics) => FeedWatcher.Responded(ok, Some(FeedWatcher.Analysis(Some(emotion), Some(topics))))
    case _ => FeedWatcher.Responded(ok, Some(FeedWatcher.Analysis(None, None)))
  }

  /** A 200 response renders exactly its emotion and its first two topics; an error renders nothing. */
  lemma DeliveredResponseRendering(response: AnalysisProxy.Response)
    ensures response.Ok? ==>
      FeedWatcher.Rendered(FeedWatcher.AnalyzeTweet(Deliver(response)))
        == [FeedWatcher.TagGroup(FeedWatcher.TagList(response.emotion, response.topics))]
    ensures !response.Ok? ==>
      FeedWatcher.AnalyzeTweet(Deliver(response)).None? && FeedWatcher.Rendered(FeedWatcher.AnalyzeTweet(Deliver(response))) == []
  {
  }

  /**
   * For given model replies, the tags a post gets are the lower-cased dominant emotion and
   * then the labels of the two best-scored topic entries, best first: one emotion tag and
   * min(2, number of topic entries) topic tags.
   */
  lemma RenderedTagsOfReplies(sentiment: seq<AnalysisProxy.SentimentElem>, topic: AnalysisProxy.TopicReply)
    requires AnalysisProxy.Decodable(topic)
    ensures var emotion := AnalysisProxy.Emotion(AnalysisProxy.Unwrap(sentiment));
      var top := AnalysisProxy.TopEntries(AnalysisProxy.Candidates(topic));
      var tags := FeedWatcher.TagList(emotion, AnalysisProxy.Topics(topic));
      && |tags| == 1 + Numbers.Min(2, |AnalysisProxy.Candidates(topic)|)
      && tags[0] == FeedWatcher.EmotionTag(emotion)
      && forall i :: 1 <= i < |tags| ==> tags[i] == FeedWatcher.TopicTag(top[i - 1].name)
  {
    AnalysisProxy.TopicsAreTopRanked(topic);
  }
}
