/**
 * The extension's background script: the word count reported after a reader-mode copy, the pump
 * that forwards a summary to the page piece by piece, and the tab-id reply.
 */
module JulianBackground {
  import opened Wrappers
  import opened Text
  import opened Json
  import opened JulianService

  /** A message the background script sends to a tab. `completed` is absent on notices. */
  datatype TabMessage =
    | ShowResponse(text: Json, kind: string, completed: Option<bool>)
    | ShowError(error: string)

  /** A message the background script receives. `stream` is absent when the sender does not set it. */
  datatype Incoming =
    | SummarizeMsg(text: string, stream: Option<bool>, tabId: int)
    | GetCurrentTabIdMsg
    | TextCopiedMsg(copied: Option<string>, tabId: int)
    | OtherMsg(action: string)

  /** What the background script hands to `sendResponse`. */
  datatype Answer = TabIdAnswer(tabId: int) | CopySuccess

  // ---------------------------------------------------------------- word count

  /**
   * The word count of a reader-mode copy: the non-empty pieces of the trimmed text split on
   * white-space runs, which is the number of maximal runs of non-space characters.
   */
  function WordCount(copied: Option<string>): (n: nat)
    ensures copied.None? || copied == Some("") ==> n == 0
    ensures copied.Some? ==> n == WordRuns(copied.value)
  {
    match copied
    case None => 0
    case Some(s) =>
      if s == "" then 0
      else
        SplitCountsWords(Trim(s));
        TrimKeepsWords(s);
        NonEmptyCount(SplitSpaces(Trim(s)))
  }

  /** White space alone counts no words, and white space around the text changes nothing. */
  lemma WordCountIgnoresSpace(s: string)
    ensures AllSpace(s) ==> WordCount(Some(s)) == 0
    ensures WordCount(Some(Trim(s))) == WordCount(Some(s))
  {
    if AllSpace(s) { RunsAllSpace(s, false); }
    TrimKeepsWords(s);
  }

  /** The notice sent after a reader-mode copy: the word count as `toLocaleString` writes it. */
  function CopiedNotice(copied: Option<string>): (m: TabMessage)
    ensures m.ShowResponse? && m.kind == "info" && m.completed.None?
    ensures m.text == JStr(GroupThousands(WordRuns(copied.GetOr(""))) + " words copied to clipboard in reader mode format.")
  {
    ShowResponse(JStr(GroupThousands(WordCount(copied)) + " words copied to clipboard in reader mode format."), "info", None)
  }

  /** The count in the notice reads back, once its commas are taken out, as the number of words copied. */
  lemma CopiedNoticeCount(copied: Option<string>)
    ensures var g := GroupThousands(WordRuns(copied.GetOr("")));
            && CopiedNotice(copied).text == JStr(g + " words copied to clipboard in reader mode format.")
            && CommaGrouped(g)
            && ParseInt(WithoutCommas(g)) == Some(WordRuns(copied.GetOr("")))
  {
    var n := WordRuns(copied.GetOr(""));
    GroupedNumber(n);
    ParseNatToString(n);
  }

  // ---------------------------------------------------------------- pump

  /** How many chunks a reader has still to deliver. */
  function Remaining(rd: Reader): nat
  {
    if rd.pos < |rd.body.chunks| then |rd.body.chunks| - rd.pos else 0
  }

  /** The error raised by calling `read` on a whole (non-streaming) reply, which has no `read`. */
  const NoReadError: string := "TypeError: streamResponse.read is not a function"

  /**
   * The summarize pump: every chunk still in the reader is forwarded in order as a "summarize"
   * response that is not completed; then comes either the completed empty response or, if the
   * body fails, one error. A failed request, or a reply that cannot be read, gives one error.
   */
  method Pump(reply: Result<Reply, string>, parse: string -> Option<Json>) returns (sent: seq<TabMessage>)
    ensures reply.Failure? ==> sent == [ShowError(reply.error)]
    ensures reply.Success? && reply.value.Whole? ==> sent == [ShowError(NoReadError)]
    ensures reply.Success? && reply.value.Streaming? ==>
              var r0 := reply.value.reader;
              |sent| == Remaining(r0) + 1
              && (forall i :: 0 <= i < Remaining(r0) ==>
                    sent[i] == ShowResponse(ChunkText(r0.providerId, r0.body.chunks[r0.pos + i], parse), "summarize", Some(false)))
              && sent[Remaining(r0)] == (match r0.body.error
                                          case None => ShowResponse(JStr(""), "summarize", Some(true))
                                          case Some(e) => ShowError(e))
  {
    match reply
    case Failure(e) =>
      sent := [ShowError(e)];
    case Success(Whole(_)) =>
      sent := [ShowError(NoReadError)];
    case Success(Streaming(r0)) =>
      var rd := r0;
      sent := [];
      while true
        invariant rd.providerId == r0.providerId && rd.body == r0.body
        invariant rd.pos == r0.pos + |sent|
        invariant |sent| + Remaining(rd) == Remaining(r0)
        invariant forall i :: 0 <= i < |sent| ==>
                    sent[i] == ShowResponse(ChunkText(r0.providerId, r0.body.chunks[r0.pos + i], parse), "summarize", Some(false))
        decreases Remaining(rd)
      {
        match Read(rd, parse)
        case Failure(e) =>
          sent := sent + [ShowError(e)];
          return;
        case Success((inc, next)) =>
          sent := sent + [ShowResponse(inc.text, "summarize", Some(inc.completed))];
          if inc.completed {
            return;
          }
          rd := next;
      }
  }

  /** A summary requested without a stream flag is fetched whole, so it can never be pumped. */
  lemma UnflaggedSummaryIsWhole(store: SyncStore, text: string, server: Request -> Response, parse: string -> Option<Json>)
    ensures var r := Summarize(store, text, false, server, parse);
            r.Failure? || r.value.Whole?
  {
  }

  // ---------------------------------------------------------------- messages

  /** `getCurrentTabId`: a reply only when the message came from a tab. */
  function TabIdReply(senderTab: Option<int>): (a: Option<Answer>)
    ensures a.Some? <==> senderTab.Some?
    ensures a.Some? ==> a.value == TabIdAnswer(senderTab.value)
  {
    match senderTab
    case None => None
    case Some(id) => Some(TabIdAnswer(id))
  }

  /**
   * The runtime message listener: what it sends to the tab and what it answers. A summary
   * request without a stream flag, as the page script sends it, ends in exactly one error.
   */
  method Handle(msg: Incoming, senderTab: Option<int>, store: SyncStore, server: Request -> Response,
                parse: string -> Option<Json>) returns (sent: seq<TabMessage>, answer: Option<Answer>)
    ensures msg.SummarizeMsg? && msg.stream != Some(true) ==> |sent| == 1 && sent[0].ShowError? && answer.None?
    ensures msg.SummarizeMsg? ==> |sent| >= 1 && answer.None?
    ensures msg.SummarizeMsg? ==> forall i :: 0 <= i < |sent| - 1 ==> sent[i].ShowResponse? && sent[i].completed == Some(false)
    ensures msg.GetCurrentTabIdMsg? ==> sent == [] && answer == TabIdReply(senderTab)
    ensures msg.TextCopiedMsg? ==> sent == [CopiedNotice(msg.copied)] && answer == Some(CopySuccess)
    ensures msg.OtherMsg? ==> sent == [] && answer.None?
  {
    match msg
    case SummarizeMsg(text, stream, _) =>
      var flag := stream.GetOr(false);
      UnflaggedSummaryIsWhole(store, text, server, parse);
      sent := Pump(Summarize(store, text, flag, server, parse), parse);
      answer := None;
    case GetCurrentTabIdMsg =>
      sent := [];
      answer := TabIdReply(senderTab);
    case TextCopiedMsg(copied, _) =>
      sent := [CopiedNotice(copied)];
      answer := Some(CopySuccess);
    case OtherMsg(_) =>
      sent := [];
      answer := None;
  }
}
