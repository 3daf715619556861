/**
 * The chat page: the question box, the history of questions and answers, and the
 * references shown under an answer. History entries are objects; the page keeps the
 * array of them in React state and replaces the array on every update, while a toggle
 * changes the `showReferences` field of an entry object in place.
 */
module Conversations {
  import opened Wrappers
  import opened Text
  import opened Documents
  import opened RetrievalEnvelope
  import AwsClient

  /** One bubble of the history. */
  class ChatEntry {
    const text: string
    const isUser: bool
    const references: seq<Metadata>
    var showReferences: Option<bool>

    constructor (text: string, isUser: bool, references: seq<Metadata>, showReferences: Option<bool>)
      ensures this.text == text && this.isUser == isUser && this.references == references
      ensures this.showReferences == showReferences
    {
      this.text, this.isUser, this.references, this.showReferences := text, isUser, references, showReferences;
    }
  }

  /** No entry object appears twice in a history. */
  ghost predicate DistinctEntries(s: seq<ChatEntry>) {
    forall i, j :: 0 <= i < j < |s| ==> s[i] != s[j]
  }

  /** The entry of an asked question. */
  ghost predicate IsQuestion(e: ChatEntry, question: string)
    reads e
  {
    e.text == question && e.isUser && e.references == [] && e.showReferences == None
  }

  /** The entry of an answer, with its references folded. */
  ghost predicate IsAnswer(e: ChatEntry, answer: AnswerBody)
    reads e
  {
    e.text == answer.result && !e.isUser && e.references == answer.references && e.showReferences == Some(false)
  }

  class ChatPage {
    var results: seq<ChatEntry>
    var value: string
    var isLoading: bool

    ghost predicate Valid()
      reads this
    {
      DistinctEntries(results)
    }

    constructor ()
      ensures Valid() && results == [] && value == "" && !isLoading
    {
      results, value, isLoading := [], "", false;
    }

    /** The text area's `onChange`. */
    method SetValue(text: string)
      modifies this
      ensures value == text && results == old(results) && isLoading == old(isLoading)
    {
      value := text;
    }

    /**
     * The part of `handleinvokeLambda` before the `await`: loading starts and the question is
     * shown at the end of the history. The history at this moment is what the rest of the
     * handler builds on.
     */
    method BeginRequest() returns (snapshot: seq<ChatEntry>, question: string)
      requires Valid() && !isLoading
      modifies this
      ensures Valid() && isLoading && value == old(value)
      ensures snapshot == old(results) && question == old(value)
      ensures |results| == |snapshot| + 1 && results[..|snapshot|] == snapshot
      ensures fresh(results[|snapshot|]) && IsQuestion(results[|snapshot|], question)
    {
      snapshot, question := results, value;
      isLoading := true;
      var asked := new ChatEntry(value, true, [], None);
      results := results + [asked];
    }

    /**
     * The part after the `await`: the history becomes the snapshot taken before it, a new
     * question entry and the answer entry; loading ends.
     */
    method FinishRequest(snapshot: seq<ChatEntry>, question: string, answer: AnswerBody)
      requires DistinctEntries(snapshot)
      modifies this
      ensures Valid() && !isLoading && value == old(value)
      ensures |results| == |snapshot| + 2 && results[..|snapshot|] == snapshot
      ensures fresh(results[|snapshot|]) && IsQuestion(results[|snapshot|], question)
      ensures fresh(results[|snapshot| + 1]) && IsAnswer(results[|snapshot| + 1], answer)
    {
      var asked := new ChatEntry(question, true, [], None);
      var answered := new ChatEntry(answer.result, false, answer.references, Some(false));
      results := snapshot + [asked, answered];
      isLoading := false;
    }

    /**
     * `handleinvokeLambda` with nothing else happening during the request: the history grows
     * by exactly the question and its answer, the answer being what invokeSearchLambda returns.
     */
    method HandleInvokeLambda(env: AwsClient.LambdaClientEnv)
      requires Valid() && !isLoading
      modifies this
      ensures Valid() && !isLoading && value == old(value)
      ensures |results| == |old(results)| + 2 && results[..|old(results)|] == old(results)
      ensures fresh(results[|old(results)|]) && IsQuestion(results[|old(results)|], old(value))
      ensures fresh(results[|old(results)| + 1])
      ensures IsAnswer(results[|old(results)| + 1], AwsClient.InvokeSearchLambda(old(value), env))
    {
      var snapshot, question := BeginRequest();
      var answer := AwsClient.InvokeSearchLambda(question, env);
      FinishRequest(snapshot, question, answer);
    }

    /**
     * The click handler of a references header (offered only for an entry with references): a shallow copy of the history in which the
     * clicked entry's `showReferences` is negated (an unset flag becomes true); the entry object
     * is shared with the previous history, and no other entry changes.
     */
    method ToggleReferences(index: nat)
      requires Valid() && index < |results| && |results[index].references| > 0
      modifies this, results[index]
      ensures Valid() && results == old(results) && value == old(value) && isLoading == old(isLoading)
      ensures results[index].showReferences == Some(!old(results[index].showReferences).GetOr(false))
      ensures forall j :: 0 <= j < |results| && j != index ==> results[j].showReferences == old(results[j].showReferences)
    {
      var newResults := results;
      var entry := newResults[index];
      entry.showReferences := Some(!entry.showReferences.GetOr(false));
      results := newResults;
    }

    /**
     * A toggle made while an answer is awaited survives the answer: the snapshot holds the
     * same entry object, which the toggle changed in place.
     */
    method ToggleWhileWaiting(env: AwsClient.LambdaClientEnv, index: nat)
      requires Valid() && !isLoading && index < |results| && |results[index].references| > 0
      modifies this, results[index]
      ensures Valid() && !isLoading
      ensures |results| == |old(results)| + 2 && results[..|old(results)|] == old(results)
      ensures results[index].showReferences == Some(!old(results[index].showReferences).GetOr(false))
    {
      var snapshot, question := BeginRequest();
      ToggleReferences(index);
      var answer := AwsClient.InvokeSearchLambda(question, env);
      FinishRequest(snapshot, question, answer);
    }
  }

  // ---------------------------------------------------------------------------
  // The references table

  /** `item.title || item.source`. */
  function TitleCell(m: Metadata): string {
    if m.title.Some? && m.title.value != "" then m.title.value else m.source
  }

  /** `item.author || "-"`. */
  function AuthorCell(m: Metadata): string {
    if m.author.Some? && m.author.value != "" then m.author.value else "-"
  }

  /** `{item.page_label || item.page}{item.total_pages ? ` / ${item.total_pages}` : ""}`. */
  function PageCell(m: Metadata): string {
    (if m.pageLabel.Some? && m.pageLabel.value != "" then m.pageLabel.value else NatToString(m.page))
    + (if m.totalPages.Some? && m.totalPages.value != 0 then " / " + NatToString(m.totalPages.value) else "")
  }

  /** `item.page_label` is missing or empty, so the page cell falls back to `item.page`. */
  predicate Unlabelled(m: Metadata) {
    m.pageLabel.None? || m.pageLabel.value == ""
  }

  /**
   * The cells show what is set and fall back as the page intends: a set title or author is
   * shown, a missing or empty one gives the source or "-"; a set page label is shown as it is,
   * and " / total" follows it exactly when a total is set.
   */
  lemma CellFallbacks(m: Metadata)
    ensures m.title.Some? && m.title.value != "" ==> TitleCell(m) == m.title.value
    ensures m.title.None? || m.title.value == "" ==> TitleCell(m) == m.source
    ensures m.source != "" ==> TitleCell(m) != ""
    ensures m.author.Some? && m.author.value != "" ==> AuthorCell(m) == m.author.value
    ensures m.author.None? || m.author.value == "" ==> AuthorCell(m) == "-"
    ensures AuthorCell(m) != ""
    ensures !Unlabelled(m) && m.totalPages.Some? && m.totalPages.value > 0 ==>
      PageCell(m) == m.pageLabel.value + " / " + NatToString(m.totalPages.value)
    ensures !Unlabelled(m) && (m.totalPages.None? || m.totalPages.value == 0) ==>
      PageCell(m) == m.pageLabel.value
  {
    if !Unlabelled(m) {
      var shown := m.pageLabel.value;
      if m.totalPages.Some? && m.totalPages.value != 0 {
        assert PageCell(m) == shown + (" / " + NatToString(m.totalPages.value));
      } else {
        assert PageCell(m) == shown + "";
      }
    }
  }

  /**
   * Without a page label (missing or empty) the page cell is the page number, which `parseInt`
   * reads back, followed by " / " and the total exactly when one is set.
   */
  lemma PageCellReadsBack(m: Metadata)
    ensures Unlabelled(m) ==> ParseInt(PageCell(m)) == Num(m.page)
    ensures Unlabelled(m) && m.totalPages.Some? && m.totalPages.value > 0 ==>
      PageCell(m) == NatToString(m.page) + " / " + NatToString(m.totalPages.value)
    ensures Unlabelled(m) && (m.totalPages.None? || m.totalPages.value == 0) ==>
      PageCell(m) == NatToString(m.page)
  {
    if Unlabelled(m) {
      var digits := NatToString(m.page);
      if m.totalPages.Some? && m.totalPages.value != 0 {
        var suffix := " / " + NatToString(m.totalPages.value);
        assert PageCell(m) == digits + suffix;
        assert digits + suffix == digits + " / " + NatToString(m.totalPages.value);
        ParseIntNatToStringPrefix(m.page, suffix);
      } else {
        assert PageCell(m) == digits + "";
        assert digits + "" == digits;
        ParseIntNatToStringPrefix(m.page, "");
      }
    }
  }

  /** The header of the references block: shown with the number of references, when there are any. */
  function ReferencesCount(e: ChatEntry): (count: Option<nat>)
    reads e
    ensures count.Some? <==> |e.references| > 0
    ensures count.Some? ==> count.value == |e.references|
  {
    if |e.references| > 0 then Some(|e.references|) else None
  }

  datatype ReferenceRow = ReferenceRow(title: string, author: string, page: string)

  function ReferenceRows(refs: seq<Metadata>): (rows: seq<ReferenceRow>)
    ensures |rows| == |refs|
    ensures forall i :: 0 <= i < |refs| ==> rows[i] == ReferenceRow(TitleCell(refs[i]), AuthorCell(refs[i]), PageCell(refs[i]))
  {
    if |refs| == 0 then [] else [ReferenceRow(TitleCell(refs[0]), AuthorCell(refs[0]), PageCell(refs[0]))] + ReferenceRows(refs[1..])
  }

  /**
   * The table under an answer: while the block is unfolded, one row per reference in order,
   * each from the cell rules; while it is folded, nothing.
   */
  function ReferenceTable(e: ChatEntry): (rows: seq<ReferenceRow>)
    reads e
    ensures e.showReferences == Some(true) ==>
      |rows| == |e.references|
      && forall i :: 0 <= i < |rows| ==>
           rows[i] == ReferenceRow(TitleCell(e.references[i]), AuthorCell(e.references[i]), PageCell(e.references[i]))
    ensures e.showReferences != Some(true) ==> rows == []
  {
    if |e.references| > 0 && e.showReferences == Some(true) then ReferenceRows(e.references) else []
  }

  /** A fresh answer shows its count but keeps its table folded; one toggle unfolds it. */
  lemma AnswerStartsFolded(e: ChatEntry, answer: AnswerBody)
    requires IsAnswer(e, answer)
    ensures ReferenceTable(e) == []
    ensures ReferencesCount(e) == if answer.references == [] then None else Some(|answer.references|)
  {
  }
}
