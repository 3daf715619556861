/**
 * How the parts meet: the embedding worker's log lines are what the dashboard classifies,
 * the publisher's versions are what the client chooses from, and a retrieving handler's
 * outcome is what the chat page shows.
 */
module EndToEnd {
  import opened Wrappers
  import opened Text
  import opened Documents
  import opened RetrievalEnvelope
  import EmbeddingPage
  import EmbeddingWorker
  import PublishVersion
  import AwsClient

  /** The events CloudWatch holds for a run's log lines, one event per line. */
  function EventsOf(log: seq<string>, times: seq<int>): (events: seq<EmbeddingPage.LogEvent>)
    requires |times| == |log|
    ensures |events| == |log|
    ensures forall i :: 0 <= i < |log| ==> events[i].message == Some(log[i])
  {
    if |log| == 0 then [] else [EmbeddingPage.LogEvent(Some(times[0]), Some(log[0]))] + EventsOf(log[1..], times[1..])
  }

  /**
   * A stream holding the worker's "COMPLETE TASK" line is shown as complete, whatever else
   * the stream holds.
   */
  lemma CompleteLineShowsComplete(events: seq<EmbeddingPage.LogEvent>, i: nat)
    requires i < |events| && events[i].message == Some(EmbeddingWorker.CompleteTaskLine)
    ensures EmbeddingPage.DetermineLogStatus(events) == EmbeddingPage.StatusComplete
  {
    assert OccursAt(EmbeddingWorker.CompleteTaskLine, EmbeddingPage.CompleteMarker, 5);
    EmbeddingPage.MarkerInOneMessage(events, i, EmbeddingPage.CompleteMarker);
  }

  /** The stream of a successful embedding run is shown as complete. */
  lemma SuccessfulRunShowsComplete(log: seq<string>, times: seq<int>)
    requires |times| == |log| && |log| > 0 && log[|log| - 1] == EmbeddingWorker.CompleteTaskLine
    ensures EmbeddingPage.DetermineLogStatus(EventsOf(log, times)) == EmbeddingPage.StatusComplete
  {
    CompleteLineShowsComplete(EventsOf(log, times), |log| - 1);
  }

  /** A version number the publisher returns is never the $LATEST qualifier. */
  lemma NumberIsNotLatest(n: nat)
    ensures NatToString(n) != AwsClient.LatestQualifier
  {
    assert !IsDecimalDigit(AwsClient.LatestQualifier[0]);
  }

  /**
   * After a clean publish of version n, a listing that shows exactly the versions the
   * function holds makes the client invoke `function:n`.
   */
  lemma CleanPublishIsInvoked(held: set<string>, listed: seq<string>, api: PublishVersion.PublishApi,
                              n: nat, shown: seq<AwsClient.FunctionVersion>, functionName: string)
    requires PublishVersion.Latest in held
    requires forall v :: v in held <==> v in listed
    requires forall i, j :: 0 <= i < j < |listed| ==> listed[i] != listed[j]
    requires n > 0 && PublishVersion.Published(api) == Some(NatToString(n))
    requires forall i :: 0 <= i < |shown| ==>
      shown[i].version.Some? && shown[i].version.value in PublishVersion.AfterRun(held, Success(listed), api)
    requires exists i :: 0 <= i < |shown| && shown[i].version == Some(NatToString(n))
    ensures AwsClient.LatestVersion(Some(shown)) == n
    ensures AwsClient.QualifiedName(functionName, AwsClient.LatestVersion(Some(shown))) == functionName + ":" + NatToString(n)
  {
    PublishVersion.CleanRunLeavesLatestAndNew(held, listed, api);
    forall i | 0 <= i < |shown| && AwsClient.Numbered(shown[i])
      ensures AwsClient.VersionNumber(shown[i]) == Num(n)
    {
      assert shown[i].version == Some(NatToString(n));
      PublishedVersionNumber(shown[i], n);
    }
    AwsClient.LatestVersionIsMaximum(shown);
    var k :| 0 <= k < |shown| && shown[k].version == Some(NatToString(n));
    PublishedVersionNumber(shown[k], n);
  }

  /** The client reads a version the publisher named `n` as the number n, and not as $LATEST. */
  lemma PublishedVersionNumber(v: AwsClient.FunctionVersion, n: nat)
    requires v.version == Some(NatToString(n))
    ensures AwsClient.Numbered(v) && AwsClient.VersionNumber(v) == Num(n)
  {
    NumberIsNotLatest(n);
    ParseIntNatToStringPrefix(n, "");
    assert NatToString(n) + "" == NatToString(n);
  }

  /**
   * A question asked on the chat page and answered by a retrieving handler over `index`:
   * the page shows the chain's answer and its source documents' metadata; when the chain
   * raises, it shows the client's JSON parse error and no references.
   */
  lemma ChatShowsHandlerAnswer(question: string, env: AwsClient.LambdaClientEnv, index: seq<Document>,
                               retrieve: (seq<Document>, string) -> Result<QaAnswer>)
    requires env.session.Success? && env.listVersions(env.functionName).Success?
    requires forall target :: env.invoke(target, question) == Success(Outcome(Handle(Event(Some(question)), q => retrieve(index, q))))
    ensures retrieve(index, question).Success? ==>
      AwsClient.InvokeSearchLambda(question, env)
        == AnswerBody(retrieve(index, question).value.result, References(retrieve(index, question).value.sourceDocuments))
    ensures retrieve(index, question).Failure? ==>
      AwsClient.InvokeSearchLambda(question, env) == AnswerBody(AwsClient.MissingBodyMessage, [])
  {
    var target := AwsClient.TargetName(env, env.listVersions(env.functionName).value);
    assert env.invoke(target, question) == Success(Outcome(Handle(Event(Some(question)), q => retrieve(index, q))));
  }
}
