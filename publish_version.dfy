/**
 * The version publisher run after each re-embedding: it deletes every published version of
 * the retrieving function except $LATEST, touches the function's description so that a new
 * version can be published, waits for that update, publishes, and reports the outcome.
 * The Lambda service is a class holding the function's versions and its description; the
 * answers of its API calls that the model does not derive from that state are an oracle.
 */
module PublishVersion {
  import opened Wrappers

  const Latest := "$LATEST"
  /** `MAX_RETRIES` ("30 seconds" in intent: three polls ten seconds apart). */
  const MaxRetries := 3
  /** What each failed poll adds to `retries`, and the seconds it then sleeps. */
  const RetryStep := 10
  const SuccessStatus := "Success"

  const StatusPublished := 200
  const StatusFailed := 500
  const PublishedPrefix := "New version is published: "
  const FailureMessage := "Failed to publish new version"

  /** The function's state in the Lambda service. */
  class LambdaService {
    var versions: set<string>
    var description: string

    constructor (versions: set<string>, description: string)
      ensures this.versions == versions && this.description == description
    {
      this.versions, this.description := versions, description;
    }
  }

  // ---------------------------------------------------------------------------
  // delete_function_versions

  /**
   * The versions held after the delete loop over the listed ones: each listed version other
   * than $LATEST is deleted in turn; deleting one the service does not hold raises, which
   * ends the loop (the error is only printed).
   */
  function AfterDeletes(held: set<string>, listed: seq<string>): set<string>
    decreases |listed|
  {
    if |listed| == 0 then held
    else if listed[0] == Latest then AfterDeletes(held, listed[1..])
    else if listed[0] in held then AfterDeletes(held - {listed[0]}, listed[1..])
    else held
  }

  /**
   * Deleting removes versions and adds none, never removes $LATEST, and never removes a
   * version that was not listed.
   */
  lemma {:induction false} AfterDeletesKeeps(held: set<string>, listed: seq<string>)
    ensures AfterDeletes(held, listed) <= held
    ensures Latest in held ==> Latest in AfterDeletes(held, listed)
    ensures forall v :: v in held && v !in listed ==> v in AfterDeletes(held, listed)
    decreases |listed|
  {
    if |listed| > 0 {
      var rest := listed[1..];
      assert forall v :: v !in listed ==> v !in rest;
      if listed[0] == Latest {
        AfterDeletesKeeps(held, rest);
      } else if listed[0] in held {
        AfterDeletesKeeps(held - {listed[0]}, rest);
      }
    }
  }

  /** The versions of a listing other than $LATEST. */
  function Numbered(listed: seq<string>): set<string> {
    set v | v in listed && v != Latest
  }

  /**
   * When the listing is exact (each listed version is held, none twice), every listed
   * version except $LATEST is deleted and nothing else is.
   */
  lemma {:induction false} AfterDeletesExact(held: set<string>, listed: seq<string>)
    requires forall i :: 0 <= i < |listed| ==> listed[i] in held
    requires forall i, j :: 0 <= i < j < |listed| ==> listed[i] != listed[j]
    ensures AfterDeletes(held, listed) == held - Numbered(listed)
    decreases |listed|
  {
    if |listed| > 0 {
      var v, rest := listed[0], listed[1..];
      assert listed == [v] + rest;
      assert v !in rest by {
        forall j | 0 <= j < |rest|
          ensures rest[j] != v
        {
          assert rest[j] == listed[j + 1];
        }
      }
      if v == Latest {
        AfterDeletesExact(held, rest);
        assert Numbered(listed) == Numbered(rest);
      } else {
        forall i | 0 <= i < |rest|
          ensures rest[i] in held - {v}
        {
          assert rest[i] == listed[i + 1];
        }
        AfterDeletesExact(held - {v}, rest);
        assert Numbered(listed) == {v} + Numbered(rest);
      }
    }
  }

  /**
   * The delete loop over the result of `list_versions_by_function`: a failed listing deletes
   * nothing, and any error is swallowed.
   */
  method DeleteFunctionVersions(svc: LambdaService, listing: Result<seq<string>>)
    modifies svc
    ensures svc.description == old(svc.description)
    ensures listing.Failure? ==> svc.versions == old(svc.versions)
    ensures listing.Success? ==> svc.versions == AfterDeletes(old(svc.versions), listing.value)
  {
    if listing.Failure? {
      return;
    }
    var listed := listing.value;
    var i := 0;
    var failed := false;
    while i < |listed| && !failed
      invariant 0 <= i <= |listed|
      invariant svc.description == old(svc.description)
      invariant !failed ==> AfterDeletes(svc.versions, listed[i..]) == AfterDeletes(old(svc.versions), listed)
      invariant failed ==> svc.versions == AfterDeletes(old(svc.versions), listed)
      decreases |listed| - i, !failed
    {
      var v := listed[i];
      assert listed[i..] == [v] + listed[i + 1..];
      if v != Latest {
        if v in svc.versions {
          svc.versions := svc.versions - {v};
        } else {
          failed := true;
        }
      }
      i := i + 1;
    }
    if !failed {
      assert listed[i..] == [];
    }
  }

  // ---------------------------------------------------------------------------
  // create_new_version

  /**
   * The answers of the calls `create_new_version` makes: whether the configuration update
   * succeeds, the `LastUpdateStatus` of the n-th configuration read (absent when the response
   * has none), and the result of `publish_version`.
   */
  datatype PublishApi = PublishApi(
    update: Result<()>,
    status: nat -> Result<Option<string>>,
    publish: Result<string>)

  /** The new description, from the current local time formatted as the source formats it. */
  function Description(now: string): string {
    "Version created at " + now
  }

  /**
   * What `create_new_version` returns: the published version, or None when a call before it
   * raised. The update status read by the poll plays no part.
   */
  function Published(api: PublishApi): (version: Option<string>)
    ensures version.Some? <==> api.update.Success? && api.status(0).Success? && api.publish.Success?
    ensures version.Some? ==> version.value == api.publish.value
  {
    if api.update.Failure? || api.status(0).Failure? || api.publish.Failure? then None
    else Some(api.publish.value)
  }

  /** Two runs that differ only in the statuses they read publish the same version. */
  lemma PublishIgnoresStatus(api: PublishApi, status: nat -> Result<Option<string>>)
    requires api.status(0).Success? == status(0).Success?
    ensures Published(api) == Published(api.(status := status))
  {
  }

  /**
   * The update, the poll loop, the timeout check and the publish. `retries` goes from 0 to 10
   * after one unsuccessful poll, which already ends the loop, so the loop polls once and sleeps
   * at most once; it ends with `retries` at 0 or 10, never at `MAX_RETRIES`, so the timeout is
   * never raised and the version is published whatever the status.
   */
  method CreateNewVersion(svc: LambdaService, now: string, api: PublishApi)
    returns (version: Option<string>, ghost polls: nat, ghost sleeps: nat, ghost retriesAtCheck: Option<int>)
    modifies svc
    ensures version == Published(api)
    ensures polls == if api.update.Success? then 1 else 0
    ensures sleeps == if api.update.Success? && api.status(0).Success? && api.status(0).value != Some(SuccessStatus) then 1 else 0
    ensures retriesAtCheck.Some? <==> api.update.Success? && api.status(0).Success?
    ensures retriesAtCheck.Some? ==> retriesAtCheck.value != MaxRetries
    ensures retriesAtCheck.Some? ==> (retriesAtCheck.value == 0 <==> api.status(0).value == Some(SuccessStatus))
    ensures svc.description == if api.update.Success? then Description(now) else old(svc.description)
    ensures svc.versions == if version.Some? then old(svc.versions) + {version.value} else old(svc.versions)
  {
    polls, sleeps, retriesAtCheck := 0, 0, None;
    if api.update.Failure? {
      version := None;
      return;
    }
    svc.description := Description(now);
    var retries := 0;
    var attempts := 0;
    while retries < MaxRetries
      invariant retries == 0 || retries == RetryStep
      invariant attempts == polls && polls == if retries == 0 then 0 else 1
      invariant retries == RetryStep ==> api.status(0).Success? && api.status(0).value != Some(SuccessStatus)
      invariant sleeps == polls
      invariant svc.description == Description(now) && svc.versions == old(svc.versions)
      decreases MaxRetries - retries
    {
      var response := api.status(attempts);
      attempts := attempts + 1;
      polls := attempts;
      if response.Failure? {
        version := None;
        return;
      }
      if response.value == Some(SuccessStatus) {
        break;
      }
      retries := retries + RetryStep;
      sleeps := sleeps + 1;
    }
    retriesAtCheck := Some(retries);
    if retries == MaxRetries {
      version := None;
      return;
    }
    if api.publish.Failure? {
      version := None;
      return;
    }
    version := Some(api.publish.value);
    svc.versions := svc.versions + {api.publish.value};
  }

  // ---------------------------------------------------------------------------
  // lambda_handler

  /** The handler's response; the body is the message before its JSON encoding. */
  datatype Response = Response(statusCode: int, body: string)

  /**
   * A truthy (non-empty) version gives 200 and a message naming `function:version`; no version,
   * or an empty one, gives 500 and the fixed failure message.
   */
  function HandlerResponse(functionName: string, newVersion: Option<string>): (r: Response)
    ensures r.statusCode == StatusPublished <==> newVersion.Some? && newVersion.value != ""
    ensures r.statusCode != StatusPublished ==> r == Response(StatusFailed, FailureMessage)
  {
    if newVersion.Some? && newVersion.value != "" then
      Response(StatusPublished, PublishedPrefix + functionName + ":" + newVersion.value)
    else
      Response(StatusFailed, FailureMessage)
  }

  /** A success message starts with the fixed prefix and ends with `function:version`. */
  lemma PublishedMessageNamesVersion(functionName: string, version: string)
    requires version != ""
    ensures var body := HandlerResponse(functionName, Some(version)).body;
      |body| == |PublishedPrefix| + |functionName| + 1 + |version|
      && body[..|PublishedPrefix|] == PublishedPrefix
      && body[|PublishedPrefix|..|PublishedPrefix| + |functionName|] == functionName
      && body[|PublishedPrefix| + |functionName|] == ':'
      && body[|PublishedPrefix| + |functionName| + 1..] == version
  {
    var body := HandlerResponse(functionName, Some(version)).body;
    assert body == PublishedPrefix + functionName + ":" + version;
  }

  /** The versions held after a run of the handler. */
  function AfterRun(held: set<string>, listing: Result<seq<string>>, api: PublishApi): set<string> {
    var kept := if listing.Success? then AfterDeletes(held, listing.value) else held;
    if Published(api).Some? then kept + {Published(api).value} else kept
  }

  /** Delete the old versions, then create one; a failed delete does not stop the publish. */
  method LambdaHandler(svc: LambdaService, functionName: string, listing: Result<seq<string>>, now: string, api: PublishApi)
    returns (r: Response)
    modifies svc
    ensures r == HandlerResponse(functionName, Published(api))
    ensures svc.versions == AfterRun(old(svc.versions), listing, api)
    ensures svc.description == if api.update.Success? then Description(now) else old(svc.description)
  {
    DeleteFunctionVersions(svc, listing);
    var newVersion, _, _, _ := CreateNewVersion(svc, now, api);
    r := HandlerResponse(functionName, newVersion);
  }

  /**
   * After a run whose listing was exact and whose publish succeeded, the function holds
   * $LATEST and the new version and nothing else.
   */
  lemma CleanRunLeavesLatestAndNew(held: set<string>, listed: seq<string>, api: PublishApi)
    requires Latest in held
    requires forall v :: v in held <==> v in listed
    requires forall i, j :: 0 <= i < j < |listed| ==> listed[i] != listed[j]
    requires Published(api).Some?
    ensures AfterRun(held, Success(listed), api) == {Latest, Published(api).value}
  {
    forall i | 0 <= i < |listed|
      ensures listed[i] in held
    {
    }
    AfterDeletesExact(held, listed);
    assert held - Numbered(listed) == {Latest};
  }
}
