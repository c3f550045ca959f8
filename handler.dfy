/**
 * The message handler (`handle_text_message`) and the stores it reads and
 * writes: the summary table keyed by URL, the blob bucket of archived
 * notes, the model and the chat reply channel.
 *
 * `Handle` states on values what one message does to those stores;
 * `SummaryBot.HandleTextMessage` performs it step by step on the fields of
 * an object and is proved to agree with it.
 */
module Handler {
  import opened Wrappers
  import Url
  import Content
  import Prompt
  import Archive

  /** The reply to a message that is not a valid URL. */
  const InvalidUrlReply: string := "不正なURLです。"

  /** The chat model the handler configures, and its sampling temperature. */
  const ModelName: string := "gpt-4o-2024-05-13"
  const Temperature: int := 0

  /** An item of the summary table; `cost` is kept as decimal text. */
  datatype Record = Record(id: string, url: string, answer: string, cost: string)

  /** A chat message sent to the model. */
  datatype Message = HumanMessage(content: string)

  /** One request to the model: the configured model, temperature and messages. */
  datatype ModelCall = ModelCall(modelName: string, temperature: int, messages: seq<Message>)

  /** What the model returns: the generated text and the cost of the call. */
  datatype Completion = Completion(content: string, cost: string)

  /** An inbound text message and the token to reply with. */
  datatype MessageEvent = MessageEvent(replyToken: string, text: string)

  /** A reply sent through the chat platform. */
  datatype Reply = Reply(replyToken: string, text: string)

  /**
   * The collaborators the handler calls: the URL parser, the page fetcher
   * and parser (`None` when the request raises) and the model (`None` when
   * the call raises).
   */
  datatype Services = Services(
    parse: string -> Url.ParseOutcome,
    fetch: string -> Option<Content.Document>,
    complete: ModelCall -> Option<Completion>)

  /** An exception that escapes the handler: nothing catches it, so no reply is sent. */
  datatype Fault =
    | FetchRaised
    | ElementMissing(element: Content.MissingElement)
    | ModelRaised
    | TitleNotText

  /** Which way the handler went. */
  datatype Outcome = InvalidUrl | CacheHit | Summarised | Aborted(fault: Fault)

  /** Everything the handler can change or observe. */
  datatype World = World(
    table: map<string, Record>,
    blobs: map<string, string>,
    modelCalls: seq<ModelCall>,
    replies: seq<Reply>)

  /** The table is keyed by the `url` attribute of its items. */
  predicate KeyedByUrl(table: map<string, Record>) {
    forall k :: k in table ==> table[k].url == k
  }

  /** `put_item`: the item replaces whatever the table held under its URL. */
  function PutItem(table: map<string, Record>, item: Record): (t: map<string, Record>)
    ensures t.Keys == table.Keys + {item.url}
    ensures t[item.url] == item
    ensures forall k :: k in table && k != item.url ==> t[k] == table[k]
    ensures KeyedByUrl(table) ==> KeyedByUrl(t)
  {
    table[item.url := item]
  }

  /** `check_url`: the stored answer for the URL, or `None` (the code's `False`). */
  function Lookup(table: map<string, Record>, url: string): (r: Option<string>)
    ensures r.Some? <==> url in table
    ensures r.Some? ==> r.value == table[url].answer
  {
    if url in table then Some(table[url].answer) else None
  }

  /** The handler takes the cache branch when the lookup result is truthy. */
  predicate IsHit(r: Option<string>) {
    r.Some? && Url.Truthy(r.value)
  }

  /** The blob key of the archived note of a page. */
  function ArchiveName(title: string): string {
    title + ".md"
  }

  /** The single-message request made for the extracted content. */
  function SummaryCall(content: string): ModelCall {
    ModelCall(ModelName, Temperature, [HumanMessage(Prompt.BuildPrompt(content, Prompt.DefaultTargetChars))])
  }

  /** The world after replying `text` to the event. */
  function Answered(w: World, e: MessageEvent, text: string): World {
    w.(replies := w.replies + [Reply(e.replyToken, text)])
  }

  /** What handling one message does, and which way it went. */
  function Handle(w: World, e: MessageEvent, svc: Services, id: string): (World, Outcome) {
    var url := e.text;
    if !Url.ValidateUrl(svc.parse(url)) then
      (Answered(w, e, InvalidUrlReply), InvalidUrl)
    else if IsHit(Lookup(w.table, url)) then
      (Answered(w, e, Lookup(w.table, url).value), CacheHit)
    else
      match svc.fetch(url)
      case None => (w, Aborted(FetchRaised))
      case Some(page) =>
        match Content.GetContent(page)
        case Failure(missing) => (w, Aborted(ElementMissing(missing)))
        case Success(extracted) =>
          var call := SummaryCall(extracted.text);
          var called := w.(modelCalls := w.modelCalls + [call]);
          match svc.complete(call)
          case None => (called, Aborted(ModelRaised))
          case Some(completion) =>
            match extracted.title
            case None => (called, Aborted(TitleNotText))
            case Some(title) =>
              var stored := called.(
                blobs := called.blobs[ArchiveName(title) := Archive.ConvertMd(completion.content, url, title)],
                table := PutItem(called.table, Record(id, url, completion.content, completion.cost)));
              (Answered(stored, e, completion.content), Summarised)
  }

  /**
   * An invalid URL gets the fixed reply and nothing else happens: no
   * lookup result matters, no model call, no blob and no table write.
   */
  lemma HandleInvalidUrl(w: World, e: MessageEvent, svc: Services, id: string)
    requires !Url.ValidateUrl(svc.parse(e.text))
    ensures var (w', o) := Handle(w, e, svc, id);
      && o == InvalidUrl
      && w'.table == w.table && w'.blobs == w.blobs && w'.modelCalls == w.modelCalls
      && w'.replies == w.replies + [Reply(e.replyToken, "不正なURLです。")]
  {
  }

  /**
   * A valid URL whose stored answer is non-empty is answered with that
   * answer verbatim, with no model call, no blob write and no table write.
   */
  lemma HandleCacheHit(w: World, e: MessageEvent, svc: Services, id: string)
    requires Url.ValidateUrl(svc.parse(e.text))
    requires e.text in w.table && w.table[e.text].answer != ""
    ensures var (w', o) := Handle(w, e, svc, id);
      && o == CacheHit
      && w'.table == w.table && w'.blobs == w.blobs && w'.modelCalls == w.modelCalls
      && w'.replies == w.replies + [Reply(e.replyToken, w.table[e.text].answer)]
  {
  }

  /** A stored empty answer is falsy: the handler summarises the page again. */
  lemma HandleEmptyAnswerIsMiss(w: World, e: MessageEvent, svc: Services, id: string)
    requires Url.ValidateUrl(svc.parse(e.text))
    requires e.text in w.table && w.table[e.text].answer == ""
    ensures var (w', o) := Handle(w, e, svc, id);
      && o != CacheHit && o != InvalidUrl
      && (svc.fetch(e.text).Some? && Content.GetContent(svc.fetch(e.text).value).Success? ==>
            |w'.modelCalls| == |w.modelCalls| + 1)
  {
  }

  /**
   * A cache miss that runs to the end makes one model call with the prompt
   * built from the extracted text, writes one note named after the title,
   * upserts the record for the URL, and replies with the generated answer.
   */
  lemma HandleMiss(w: World, e: MessageEvent, svc: Services, id: string,
                   page: Content.Document, text: string, title: string, c: Completion)
    requires Url.ValidateUrl(svc.parse(e.text))
    requires !IsHit(Lookup(w.table, e.text))
    requires svc.fetch(e.text) == Some(page)
    requires Content.GetContent(page) == Success(Content.Extracted(text, Some(title)))
    requires svc.complete(SummaryCall(text)) == Some(c)
    ensures var (w', o) := Handle(w, e, svc, id);
      && o == Summarised
      && w'.modelCalls == w.modelCalls +
           [ModelCall("gpt-4o-2024-05-13", 0, [HumanMessage(Prompt.BuildPrompt(text, 1000))])]
      && w'.blobs == w.blobs[title + ".md" := Archive.ConvertMd(c.content, e.text, title)]
      && w'.table.Keys == w.table.Keys + {e.text}
      && w'.table[e.text] == Record(id, e.text, c.content, c.cost)
      && (forall k :: k in w.table && k != e.text ==> w'.table[k] == w.table[k])
      && w'.replies == w.replies + [Reply(e.replyToken, c.content)]
  {
  }

  /** Every branch that completes sends exactly one reply, to the event's token; a fault sends none. */
  lemma HandleRepliesOnce(w: World, e: MessageEvent, svc: Services, id: string)
    ensures var (w', o) := Handle(w, e, svc, id);
      && |w'.replies| == |w.replies| + (if o.Aborted? then 0 else 1)
      && w'.replies[..|w.replies|] == w.replies
      && (!o.Aborted? ==> w'.replies[|w.replies|].replyToken == e.replyToken)
  {
  }

  /** Only a completed cache miss writes the table or the bucket. */
  lemma HandleWritesOnlyOnMiss(w: World, e: MessageEvent, svc: Services, id: string)
    ensures var (w', o) := Handle(w, e, svc, id);
      o != Summarised ==> w'.table == w.table && w'.blobs == w.blobs
  {
  }

  /** The outcomes reached after the model was called. */
  predicate CalledModel(o: Outcome) {
    o == Summarised || o == Aborted(ModelRaised) || o == Aborted(TitleNotText)
  }

  /** The model is called at most once, and only on a cache miss whose page was extracted. */
  lemma HandleModelCalls(w: World, e: MessageEvent, svc: Services, id: string)
    ensures var (w', o) := Handle(w, e, svc, id);
      && w'.modelCalls[..|w.modelCalls|] == w.modelCalls
      && |w'.modelCalls| == |w.modelCalls| + (if CalledModel(o) then 1 else 0)
  {
  }

  /** Handling a message keeps the table keyed by URL. */
  lemma HandleKeepsKeying(w: World, e: MessageEvent, svc: Services, id: string)
    requires KeyedByUrl(w.table)
    ensures KeyedByUrl(Handle(w, e, svc, id).0.table)
  {
  }

  /**
   * The note archived on a miss can be rendered again from the record the
   * table now holds for the URL.
   */
  lemma HandleArchiveMatchesRecord(w: World, e: MessageEvent, svc: Services, id: string,
                                   page: Content.Document, text: string, title: string)
    requires svc.fetch(e.text) == Some(page)
    requires Content.GetContent(page) == Success(Content.Extracted(text, Some(title)))
    requires Handle(w, e, svc, id).1 == Summarised
    ensures var w' := Handle(w, e, svc, id).0;
      && e.text in w'.table && ArchiveName(title) in w'.blobs
      && w'.blobs[ArchiveName(title)] == Archive.ConvertMd(w'.table[e.text].answer, w'.table[e.text].url, title)
  {
  }

  /**
   * A second message with the same URL after a summarised one whose answer
   * is non-empty is a cache hit: it repeats the first reply's text and
   * changes neither store nor calls the model.
   */
  lemma RepeatRequestIsCacheHit(w: World, e1: MessageEvent, e2: MessageEvent, svc: Services, id1: string, id2: string)
    requires e2.text == e1.text
    requires Handle(w, e1, svc, id1).1 == Summarised
    requires Url.Truthy(Handle(w, e1, svc, id1).0.replies[|w.replies|].text)
    ensures var w1 := Handle(w, e1, svc, id1).0;
      var (w2, o2) := Handle(w1, e2, svc, id2);
      && o2 == CacheHit
      && w2.table == w1.table && w2.blobs == w1.blobs && w2.modelCalls == w1.modelCalls
      && w2.replies == w1.replies + [Reply(e2.replyToken, w1.replies[|w.replies|].text)]
  {
  }

  /**
   * After a summarised message whose answer was empty, a second message with
   * the same URL goes down the miss path again: it is neither a cache hit
   * nor rejected, and once its page extracts the model is called again.
   * The second message has collaborators of its own, so its fetch or model
   * call may raise where the first did not.
   */
  lemma RepeatRequestAfterEmptyAnswer(w: World, e1: MessageEvent, e2: MessageEvent,
                                      svc1: Services, svc2: Services, id1: string, id2: string)
    requires e2.text == e1.text
    requires svc2.parse(e2.text) == svc1.parse(e1.text)
    requires Handle(w, e1, svc1, id1).1 == Summarised
    requires Handle(w, e1, svc1, id1).0.replies[|w.replies|].text == ""
    ensures var w1 := Handle(w, e1, svc1, id1).0;
      var (w2, o2) := Handle(w1, e2, svc2, id2);
      && o2 != CacheHit && o2 != InvalidUrl
      && (svc2.fetch(e2.text).Some? && Content.GetContent(svc2.fetch(e2.text).value).Success? ==>
            |w2.modelCalls| == |w1.modelCalls| + 1)
  {
    var w1 := Handle(w, e1, svc1, id1).0;
    HandleEmptyAnswerIsMiss(w1, e2, svc2, id2);
  }

  /** The handler's state: the stores it writes and the log of what it sent. */
  class SummaryBot {
    var table: map<string, Record>
    var blobs: map<string, string>
    var modelCalls: seq<ModelCall>
    var replies: seq<Reply>

    ghost predicate Valid()
      reads this
    {
      KeyedByUrl(table)
    }

    function State(): World
      reads this
    {
      World(table, blobs, modelCalls, replies)
    }

    /** A handler over an existing table and bucket that has sent nothing yet. */
    constructor (table0: map<string, Record>, blobs0: map<string, string>)
      requires KeyedByUrl(table0)
      ensures Valid()
      ensures State() == World(table0, blobs0, [], [])
    {
      table, blobs := table0, blobs0;
      modelCalls, replies := [], [];
    }

    /** `check_url`: reads the table item for the URL. */
    method CheckUrl(url: string) returns (r: Option<string>)
      ensures r.Some? <==> url in table
      ensures r.Some? ==> r.value == table[url].answer
    {
      if url in table {
        r := Some(table[url].answer);
      } else {
        r := None;
      }
    }

    /** `put_summary_generate_table`: upserts the record under its URL. */
    method PutSummaryGenerateTable(url: string, answer: string, cost: string, id: string)
      requires Valid()
      modifies this`table
      ensures Valid()
      ensures table == PutItem(old(table), Record(id, url, answer, cost))
    {
      table := table[url := Record(id, url, answer, cost)];
    }

    /** `put_file_to_s3_bucket`: writes one blob. */
    method PutFileToS3Bucket(fileContent: string, fileName: string)
      modifies this`blobs
      ensures blobs == old(blobs)[fileName := fileContent]
    {
      blobs := blobs[fileName := fileContent];
    }

    /** `get_answer`: sends one request to the model. */
    method GetAnswer(svc: Services, call: ModelCall) returns (r: Option<Completion>)
      modifies this`modelCalls
      ensures modelCalls == old(modelCalls) + [call]
      ensures r == svc.complete(call)
    {
      modelCalls := modelCalls + [call];
      r := svc.complete(call);
    }

    /** `reply_message`: sends one reply. */
    method ReplyMessage(replyToken: string, text: string)
      modifies this`replies
      ensures replies == old(replies) + [Reply(replyToken, text)]
    {
      replies := replies + [Reply(replyToken, text)];
    }

    /** `handle_text_message`. */
    method HandleTextMessage(e: MessageEvent, svc: Services, id: string) returns (outcome: Outcome)
      requires Valid()
      modifies this
      ensures Valid()
      ensures (State(), outcome) == Handle(old(State()), e, svc, id)
    {
      var messages: seq<Message> := [];
      var url := e.text;
      var isValidUrl := Url.ValidateUrl(svc.parse(url));
      var answer: string;
      if !isValidUrl {
        answer := InvalidUrlReply;
        outcome := InvalidUrl;
      } else {
        var stored := CheckUrl(url);
        if IsHit(stored) {
          // The lookup is repeated. The two table reads are taken to agree:
          // both see the same, last completed, state of the table.
          var again := CheckUrl(url);
          answer := again.value;
          outcome := CacheHit;
        } else {
          var page := svc.fetch(url);
          if page.None? {
            return Aborted(FetchRaised);
          }
          var extracted := Content.GetContent(page.value);
          if extracted.Failure? {
            return Aborted(ElementMissing(extracted.error));
          }
          var prompt := Prompt.BuildPrompt(extracted.value.text, Prompt.DefaultTargetChars);
          messages := messages + [HumanMessage(prompt)];
          assert ModelCall(ModelName, Temperature, messages) == SummaryCall(extracted.value.text);
          var completion := GetAnswer(svc, ModelCall(ModelName, Temperature, messages));
          if completion.None? {
            return Aborted(ModelRaised);
          }
          answer := completion.value.content;
          // A title element without a single string gives `None`, and
          // `title + ".md"` raises before the note is written.
          if extracted.value.title.None? {
            return Aborted(TitleNotText);
          }
          var title := extracted.value.title.value;
          PutFileToS3Bucket(Archive.ConvertMd(answer, url, title), ArchiveName(title));
          PutSummaryGenerateTable(url, answer, completion.value.cost, id);
          outcome := Summarised;
        }
      }
      ReplyMessage(e.replyToken, answer);
    }
  }
}
