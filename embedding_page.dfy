/**
 * The ingestion-log view of the embedding page: each of the ten most recent log streams of
 * the embedding function is classified from the text of its events, and the events of a
 * selected stream are shown newest first. Fetching the streams and their events is an
 * oracle; the streams' events are fetched one stream after another here (the page fetches
 * them concurrently, keeping their order).
 */
module EmbeddingPage {
  import opened Wrappers
  import opened Text
  import Sorting

  datatype LogEvent = LogEvent(timestamp: Option<int>, message: Option<string>)

  datatype LogStream = LogStream(logStreamName: Option<string>, creationTime: Option<int>, lastIngestionTime: Option<int>)

  const StatusComplete := "complete"
  const StatusError := "error"
  const StatusProcessing := "processing"
  const StatusUnknown := "unknown"

  const CompleteMarker := "COMPLETE TASK"
  const ErrorMarker := "ERROR"
  const TimeoutMarker := "Task timed out"

  const MaxStreams := 10

  /** `events.map(event => event.message || "")`. */
  function Messages(events: seq<LogEvent>): (ms: seq<string>)
    ensures |ms| == |events|
    ensures forall i :: 0 <= i < |events| ==> ms[i] == events[i].message.GetOr("")
  {
    if |events| == 0 then [] else [events[0].message.GetOr("")] + Messages(events[1..])
  }

  /** The messages joined with one space. */
  function CombinedMessage(events: seq<LogEvent>): string {
    Join(Messages(events), " ")
  }

  /**
   * A "COMPLETE TASK" anywhere in the joined text means complete, whatever else it holds;
   * failing that, "ERROR" or "Task timed out" means error; otherwise the stream is processing.
   */
  function DetermineLogStatus(events: seq<LogEvent>): (status: string)
    ensures status == StatusComplete <==> Occurs(CombinedMessage(events), CompleteMarker)
    ensures status == StatusError <==>
      !Occurs(CombinedMessage(events), CompleteMarker) &&
      (Occurs(CombinedMessage(events), ErrorMarker) || Occurs(CombinedMessage(events), TimeoutMarker))
    ensures status == StatusProcessing <==>
      !Occurs(CombinedMessage(events), CompleteMarker) &&
      !Occurs(CombinedMessage(events), ErrorMarker) && !Occurs(CombinedMessage(events), TimeoutMarker)
  {
    var combined := CombinedMessage(events);
    IncludesIff(combined, CompleteMarker);
    IncludesIff(combined, ErrorMarker);
    IncludesIff(combined, TimeoutMarker);
    if Includes(combined, CompleteMarker) then StatusComplete
    else if Includes(combined, ErrorMarker) || Includes(combined, TimeoutMarker) then StatusError
    else StatusProcessing
  }

  /** A stream without events has not finished and has not failed. */
  lemma NoEventsIsProcessing()
    ensures DetermineLogStatus([]) == StatusProcessing
  {
    assert CombinedMessage([]) == "";
    forall pat: string, i | |pat| > 0
      ensures !OccursAt("", pat, i)
    {
    }
  }

  /** A marker inside any one message decides the status as if it were the whole text. */
  lemma MarkerInOneMessage(events: seq<LogEvent>, i: nat, marker: string)
    requires i < |events| && events[i].message.Some? && Occurs(events[i].message.value, marker)
    ensures Occurs(CombinedMessage(events), marker)
  {
    var ms := Messages(events);
    JoinContainsPart(ms, " ", i);
    var k :| OccursAt(CombinedMessage(events), ms[i], k);
    var j :| OccursAt(ms[i], marker, j);
    OccursWithin(CombinedMessage(events), ms[i], marker, k, j);
  }

  /**
   * A marker split across two adjacent events, the first ending in "COMPLETE" and the next
   * starting with "TASK", is still found, because the join puts exactly one space between them.
   */
  lemma CompleteAcrossAdjacentEvents(events: seq<LogEvent>, i: nat, before: string, after: string)
    requires i + 1 < |events|
    requires events[i].message == Some(before + "COMPLETE")
    requires events[i + 1].message == Some("TASK" + after)
    ensures DetermineLogStatus(events) == StatusComplete
  {
    var ms := Messages(events);
    JoinAdjacent(ms, " ", i);
    var piece := ms[i] + " " + ms[i + 1];
    var k :| OccursAt(CombinedMessage(events), piece, k);
    assert piece == before + CompleteMarker + after;
    assert OccursAt(piece, CompleteMarker, |before|) by {
      assert piece[|before|..|before| + |CompleteMarker|] == CompleteMarker;
    }
    OccursWithin(CombinedMessage(events), piece, CompleteMarker, k, |before|);
  }

  /** `a.lastIngestionTime || a.creationTime || 0` (0 counts as missing). */
  function StreamTime(s: LogStream): int {
    if s.lastIngestionTime.Some? && s.lastIngestionTime.value != 0 then s.lastIngestionTime.value
    else if s.creationTime.Some? && s.creationTime.value != 0 then s.creationTime.value
    else 0
  }

  /**
   * `[...streams].sort(newest first).slice(0, 10)`: at most ten streams of the input, newest
   * first, and none of the streams left out is newer than one that was kept.
   */
  function TopStreams(streams: seq<LogStream>): (top: seq<LogStream>)
    ensures |top| == if |streams| < MaxStreams then |streams| else MaxStreams
    ensures multiset(top) <= multiset(streams)
    ensures Sorting.SortedDesc(top, StreamTime)
    ensures forall i, y :: 0 <= i < |top| && y in multiset(streams) - multiset(top) ==> StreamTime(top[i]) >= StreamTime(y)
  {
    var n := if |streams| < MaxStreams then |streams| else MaxStreams;
    Sorting.SortDescTake(streams, StreamTime, n);
    Sorting.SortDesc(streams, StreamTime)[..n]
  }

  /** A row of the streams table: the stream, its status, and its events when they were fetched. */
  datatype StreamRow = StreamRow(stream: LogStream, status: string, events: Option<seq<LogEvent>>)

  /** A stream without a name is unknown; a failed fetch is an error; otherwise classify the events. */
  function StreamStatus(stream: LogStream, getEvents: string -> Result<seq<LogEvent>>): StreamRow {
    if stream.logStreamName.None? || stream.logStreamName.value == "" then StreamRow(stream, StatusUnknown, None)
    else match getEvents(stream.logStreamName.value)
      case Failure(_) => StreamRow(stream, StatusError, None)
      case Success(events) => StreamRow(stream, DetermineLogStatus(events), Some(events))
  }

  function StatusAll(streams: seq<LogStream>, getEvents: string -> Result<seq<LogEvent>>): (rows: seq<StreamRow>)
    ensures |rows| == |streams|
    ensures forall i :: 0 <= i < |streams| ==> rows[i] == StreamStatus(streams[i], getEvents)
  {
    if |streams| == 0 then [] else [StreamStatus(streams[0], getEvents)] + StatusAll(streams[1..], getEvents)
  }

  /** The rows of `fetchLogStreamsWithEvents`, in the order of TopStreams. */
  function StreamsWithEvents(streams: seq<LogStream>, getEvents: string -> Result<seq<LogEvent>>): seq<StreamRow> {
    StatusAll(TopStreams(streams), getEvents)
  }

  /**
   * Row `i` is the `i`-th newest stream; its status is "unknown" exactly when the stream has no
   * name, "error" when its events could not be fetched, and otherwise the classification of
   * the fetched events.
   */
  lemma StreamRowsFacts(streams: seq<LogStream>, getEvents: string -> Result<seq<LogEvent>>, i: nat)
    requires i < |StreamsWithEvents(streams, getEvents)|
    ensures var row := StreamsWithEvents(streams, getEvents)[i];
      var s := TopStreams(streams)[i];
      row.stream == s
      && (row.status == StatusUnknown <==> s.logStreamName.None? || s.logStreamName.value == "")
      && (s.logStreamName.Some? && s.logStreamName.value != "" && getEvents(s.logStreamName.value).Failure?
          ==> row.status == StatusError)
      && (s.logStreamName.Some? && s.logStreamName.value != "" && getEvents(s.logStreamName.value).Success?
          ==> row.status == DetermineLogStatus(getEvents(s.logStreamName.value).value)
              && row.events == Some(getEvents(s.logStreamName.value).value))
  {
  }

  /** The status column. */
  function StatusLabel(status: string): string {
    if status == StatusComplete then "完了"
    else if status == StatusError then "エラー"
    else if status == StatusProcessing then "処理中"
    else "不明"
  }

  /** Each of the three classifications has its own label, and only other values show 不明. */
  lemma StatusLabelsFacts(events: seq<LogEvent>, status: string)
    ensures StatusLabel(DetermineLogStatus(events)) != "不明"
    ensures StatusLabel(status) == "不明" <==> status !in {StatusComplete, StatusError, StatusProcessing}
    ensures StatusLabel(StatusComplete) != StatusLabel(StatusError)
         && StatusLabel(StatusError) != StatusLabel(StatusProcessing)
         && StatusLabel(StatusComplete) != StatusLabel(StatusProcessing)
  {
  }

  function EventTime(e: LogEvent): int {
    e.timestamp.GetOr(0)
  }

  /** `[...logEvents].sort(newest first)`, a missing timestamp counting as 0. */
  function ModalEvents(events: seq<LogEvent>): (shown: seq<LogEvent>)
    ensures multiset(shown) == multiset(events)
    ensures forall i, j :: 0 <= i < j < |shown| ==> shown[i].timestamp.GetOr(0) >= shown[j].timestamp.GetOr(0)
  {
    Sorting.SortDescFacts(events, EventTime);
    var shown := Sorting.SortDesc(events, EventTime);
    assert forall i, j :: 0 <= i < j < |shown| ==> EventTime(shown[i]) >= EventTime(shown[j]);
    shown
  }
}
