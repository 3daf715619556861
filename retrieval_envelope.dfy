/**
 * The response both retrieving handlers build around the answer of the RetrievalQA chain,
 * and what the Lambda service hands back to a caller that invokes them. The JSON text of
 * the body is modelled by the structured value it encodes (json.dumps on the handler side
 * and JSON.parse on the client side are taken to be inverse).
 */
module RetrievalEnvelope {
  import opened Wrappers
  import opened Documents

  /** The invocation event: the "question" member when present. */
  datatype Event = Event(question: Option<string>)

  /** What `qa(question)` returns: the generated text and the retrieved source documents. */
  datatype QaAnswer = QaAnswer(result: string, sourceDocuments: seq<Document>)

  /** The body `{"result": ..., "references": [...]}`. */
  datatype AnswerBody = AnswerBody(result: string, references: seq<Metadata>)

  datatype HandlerResponse = HandlerResponse(statusCode: int, body: AnswerBody)

  /**
   * What a synchronous invocation yields: the handler's return value, or, when the handler
   * raised, a function error whose payload has "errorMessage" and no "body".
   */
  datatype InvokeOutcome = Returned(response: HandlerResponse) | FunctionError(errorMessage: string)

  const DefaultQuestion := "EC2とはなんですか？"
  const StatusOk := 200

  /** `event.get("question", DefaultQuestion)`: the default only replaces an absent member. */
  function Question(event: Event): (q: string)
    ensures event.question.Some? ==> q == event.question.value
    ensures event.question.None? ==> q == DefaultQuestion
  {
    event.question.GetOr(DefaultQuestion)
  }

  /** `[doc.metadata for doc in docs]`. */
  function References(docs: seq<Document>): (refs: seq<Metadata>)
    ensures |refs| == |docs|
    ensures forall i :: 0 <= i < |docs| ==> refs[i] == docs[i].metadata
  {
    if |docs| == 0 then [] else [docs[0].metadata] + References(docs[1..])
  }

  /** The envelope around an answer: always status 200, the answer text and its references. */
  function Respond(answer: QaAnswer): (r: HandlerResponse)
    ensures r.statusCode == StatusOk
    ensures r.body.result == answer.result
    ensures |r.body.references| == |answer.sourceDocuments|
    ensures forall i :: 0 <= i < |answer.sourceDocuments| ==> r.body.references[i] == answer.sourceDocuments[i].metadata
  {
    HandlerResponse(StatusOk, AnswerBody(answer.result, References(answer.sourceDocuments)))
  }

  /**
   * The handler shared by both retrieving Lambdas: the question (or its default) goes to the
   * chain; an exception from the chain is not caught and becomes the invocation's error.
   */
  function Handle(event: Event, qa: string -> Result<QaAnswer>): (r: Result<HandlerResponse>)
    ensures r.Success? <==> qa(Question(event)).Success?
    ensures r.Success? ==> r.value == Respond(qa(Question(event)).value)
    ensures r.Failure? ==> r.message == qa(Question(event)).message
  {
    var answer :- qa(Question(event));
    Success(Respond(answer))
  }

  /** The Lambda service's view of a handler run. */
  function Outcome(r: Result<HandlerResponse>): InvokeOutcome {
    match r
    case Success(resp) => Returned(resp)
    case Failure(m) => FunctionError(m)
  }

  /** An empty question is a question: only an absent one is replaced. */
  lemma EmptyQuestionKept()
    ensures Question(Event(Some(""))) == ""
    ensures Question(Event(None)) == DefaultQuestion
  {
  }

  /** The references of concatenated document lists are the concatenated references. */
  lemma {:induction false} ReferencesAppend(a: seq<Document>, b: seq<Document>)
    ensures References(a + b) == References(a) + References(b)
    decreases |a|
  {
    if |a| > 0 {
      assert (a + b)[1..] == a[1..] + b;
      ReferencesAppend(a[1..], b);
    }
  }
}
