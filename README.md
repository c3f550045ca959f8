# Deduplicating summariser of a LINE bot, modelled in Dafny

The bot receives a chat message holding a URL. It checks that the URL has a
scheme and a network location. It looks the URL up in a table of earlier
summaries. On a miss it fetches the page and picks its main text region. It
builds a Japanese prompt from at most 4000 characters of that text and asks
the chat model for a summary. It archives the summary as a Markdown note in
a bucket, stores the record under the URL and replies with the summary.

Modules, one per component of `src/generate_summary/handler.py`:

- `Wrappers` (wrappers.dfy): `Option` and `Result`.
- `Url` (url.dfy): `validate_url`, over an abstract parse result that is
  either the scheme and network location or a raised `ValueError`.
- `Content` (content.dfy): `get_content`'s region priority over a
  `Document` with optional `<main>`, `<article>` and `<body>` texts and an
  optional `<title>` element whose string may itself be `None`.
- `Prompt` (prompt.dfy): `build_prompt` as the exact template text, with
  `n_chars` rendered as Python renders an `int` and `content[:4000]` as
  `Truncate`.
- `Archive` (archive.dfy): `split_sentences` and `convert_md` as the exact note
  template. Both are Dafny functions, so rendering the same inputs twice
  gives the same text by construction.
- `Handler` (handler.dfy): the class `SummaryBot` holds the table
  (`map<string, Record>`), the bucket (`map<string, string>`), the log of
  model requests and the log of replies. Its method `HandleTextMessage`
  follows `handle_text_message` step by step. It is proved equal to the
  value-level function `Handle`, and the lemmas about `Handle` state what a
  message does to the stores.

The parser, the page fetcher and the model are the fields of a `Services`
value. The fetcher and the model return `None` when the call raises. The
handler has no `try`, so an exception ends the handler without a reply;
`Handle` reports it as `Aborted`. Writes made before the exception remain.
The faults are:

- the fetch raises;
- `<body>` is missing when it is reached, or `<title>` is missing (an
  `AttributeError` in `get_content`);
- the model call raises;
- the title element has no single string, so `title + ".md"` raises at
  line 82. This happens after the model was called and before any write.

Two behaviours of the code are worth stating:

- The code does not check the HTTP status of the page, and it has no
  error reply.
- `check_url` returns the stored answer. A stored empty answer is falsy, so
  the next message with that URL goes down the miss path again (`HandleEmptyAnswerIsMiss`,
  `RepeatRequestAfterEmptyAnswer`).

## Model

| member | source | states |
|---|---|---|
| `Url.AllTruthy` | src/generate_summary/handler.py:132 | `all` of a list of strings holds iff every string is non-empty |
| `Url.ValidateUrl` | src/generate_summary/handler.py:129-134 | a URL is valid iff it parses with a non-empty scheme and a non-empty network location; a `ValueError` gives false |
| `Content.FirstPresent` | src/generate_summary/handler.py:93-98 | the index returned is the first present region; all regions before it are absent |
| `Content.GetContentFirstMatch` | src/generate_summary/handler.py:89-98 | extraction succeeds iff some region is present and there is a title element; the text is the first present of main, article, body, paired with the title's string; with no region it fails on the missing body |
| `Content.MainWins` | src/generate_summary/handler.py:93-94 | a present `<main>` is chosen whatever the article and body hold |
| `Prompt.NatToDecimal` | src/generate_summary/handler.py:104 | a number renders as decimal digits with no leading zero |
| `Prompt.DecimalRoundTrip` | src/generate_summary/handler.py:104 | reading back the rendering of a number gives the number |
| `Prompt.IntToDecimal` | src/generate_summary/handler.py:104 | an integer renders with a leading minus iff it is negative, then digits |
| `Prompt.IntToDecimalInjective` | src/generate_summary/handler.py:104 | different target lengths render differently |
| `Prompt.Truncate` | src/generate_summary/handler.py:108 | the embedded content is a prefix of the content of length min(length, 4000) |
| `Prompt.BuildPromptEmbedsPrefix` | src/generate_summary/handler.py:102-118 | the prompt is the head, exactly the first min(length, 4000) content characters, then the fixed constraints |
| `Prompt.BuildPromptShortContentWhole` | src/generate_summary/handler.py:108 | content of at most 4000 characters is embedded whole |
| `Prompt.BuildPromptIgnoresTail` | src/generate_summary/handler.py:108 | appending to content of 4000 or more characters does not change the prompt |
| `Prompt.BuildPromptSameIff` | src/generate_summary/handler.py:102-118 | two contents give the same prompt iff their first 4000 characters agree |
| `Prompt.BuildPromptDeterminesTarget` | src/generate_summary/handler.py:102-104 | equal prompts have equal target lengths `n_chars` |
| `Archive.SplitSentences` | src/generate_summary/handler.py:155-156 | the output length is the input length plus the number of full stops |
| `Archive.SplitWithoutStop` | src/generate_summary/handler.py:155-156 | text without a full stop is returned unchanged |
| `Archive.SplitStopThenNewline` | src/generate_summary/handler.py:155-156 | every full stop of the output is immediately followed by a line break |
| `Archive.SplitAppend` | src/generate_summary/handler.py:155-156 | splitting distributes over concatenation, so the rewrite is character by character |
| `Archive.JoinSplit` | src/generate_summary/handler.py:155-156 | deleting the line break after each full stop recovers the input |
| `Archive.SplitInjective` | src/generate_summary/handler.py:155-156 | different texts split to different texts |
| `Archive.ConvertMdLayout` | src/generate_summary/handler.py:160-176 | the note starts with the tag header and link heading, holds `[title](url)` on its own line, then the split summary, then the empty trailing section |
| `Archive.ConvertMdRecoversSummary` | src/generate_summary/handler.py:170-171 | joining the summary section of the note gives back the summary |
| `Archive.ConvertMdInjective` | src/generate_summary/handler.py:160-176 | for one title and URL, the note determines the summary |
| `Handler.PutItem` | src/generate_summary/handler.py:138-142 | the upsert adds the URL key, stores the item under it, keeps other keys and keeps the table keyed by URL |
| `Handler.Lookup` | src/generate_summary/handler.py:146-151 | the lookup is present iff the URL is in the table, and then it is the stored answer |
| `Handler.HandleInvalidUrl` | src/generate_summary/handler.py:70-73 | an invalid URL gets only the reply "不正なURLです。" (sent at line 85); table, bucket and model log are unchanged |
| `Handler.HandleCacheHit` | src/generate_summary/handler.py:74-75 | a stored non-empty answer is replied verbatim; no model call, no blob write and no table write |
| `Handler.HandleEmptyAnswerIsMiss` | src/generate_summary/handler.py:74 | a stored empty answer is not a hit; once the page is extracted the model is called again |
| `Handler.HandleMiss` | src/generate_summary/handler.py:76-85 | a completed miss makes one model call with the prompt built with the default target length 1000, writes one blob `title + ".md"` holding `convert_md`, upserts the record for the URL, keeps other keys and replies with the answer |
| `Handler.HandleRepliesOnce` | src/generate_summary/handler.py:85 | each completed branch appends exactly one reply to the event's token; a fault appends none |
| `Handler.HandleWritesOnlyOnMiss` | src/generate_summary/handler.py:72-83 | only a completed miss changes the table or the bucket |
| `Handler.HandleModelCalls` | src/generate_summary/handler.py:77-81 | the model log grows by exactly one entry iff the model was reached, otherwise it is unchanged |
| `Handler.HandleKeepsKeying` | src/generate_summary/handler.py:138-142 | handling a message keeps every record stored under its own URL |
| `Handler.HandleArchiveMatchesRecord` | src/generate_summary/handler.py:82-83 | after a miss, the archived note can be rendered again from the stored record |
| `Handler.RepeatRequestIsCacheHit` | src/generate_summary/handler.py:74-83 | the same URL sent again after a summary with a non-empty answer is a hit: it repeats the first reply's text without any write or model call |
| `Handler.RepeatRequestAfterEmptyAnswer` | src/generate_summary/handler.py:150-151 | after a summary with an empty answer, a second message with the same URL is neither a hit nor rejected, whatever its own fetch and model do; once its page extracts, the model is called again |
| `Handler.SummaryBot.constructor` | src/generate_summary/handler.py:47 | a handler over a table keyed by URL and a bucket, with nothing sent yet |
| `Handler.SummaryBot.CheckUrl` | src/generate_summary/handler.py:146-151 | returns the stored answer iff the URL is in the table |
| `Handler.SummaryBot.PutSummaryGenerateTable` | src/generate_summary/handler.py:138-142 | the table becomes the upsert of the record `(id, url, answer, cost)` |
| `Handler.SummaryBot.PutFileToS3Bucket` | src/generate_summary/handler.py:180-182 | the bucket gains, or overwrites, exactly the named blob |
| `Handler.SummaryBot.GetAnswer` | src/generate_summary/handler.py:122-125 | one request is logged and the model's result is returned |
| `Handler.SummaryBot.ReplyMessage` | src/generate_summary/handler.py:85 | exactly one reply is appended |
| `Handler.SummaryBot.HandleTextMessage` | src/generate_summary/handler.py:64-85 | the new state and the outcome are those `Handle` gives for the old state; the table stays keyed by URL |

## Left out

- `lambda_handler` and webhook signature verification (lines 50-60) belong to the chat platform's SDK.
- Reading secrets and building clients at start-up (lines 25-47) is configuration; the bucket and table are the fields of `SummaryBot`.
- URL parsing itself is left out: `Services.parse` gives its result, and only the rule applied to it is modelled.
- The HTTP request, HTML parsing and `get_text` are left out: a page is a `Document` of region texts.
- The model's text is an opaque input. Its cost is a float formatted with `str`, kept as opaque decimal text.
- `uuid.uuid4()` is the `id` parameter; uniqueness of ids is not modelled.
- `os.path.isfile` / `os.remove` after the upload (lines 183-184) touch the local file system only.
- Failures of the bucket or table writes are not modelled: writes to the bucket and the table always succeed.
- Three more foreign calls are taken never to raise: the table read `table.get_item` in `check_url` (line 147), building the `ChatOpenAI` client (line 77) and `line_bot_api.reply_message` (line 85). The model does not capture a reply that raises after a miss has already written the blob and the record. One such case is the chat platform refusing an empty reply text. So `HandleRepliesOnce` and `HandleMiss` promise a reply that the real call could fail to deliver.
- The `print` at line 149 is logging only.
- `RepeatRequestIsCacheHit` and the other lemmas about the lookup take every table read to see the last completed write. `get_item` at line 147 passes no `ConsistentRead`, so the table's default read is only eventually consistent. A second message whose read comes before the first write has spread would go down the miss path and fetch, call the model and write again. For the same reason the two reads at lines 74 and 75 could disagree; the model takes them to agree.
- Races between concurrent invocations on the same URL are concurrency, outside a sequential model.
