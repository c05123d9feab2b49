# Meeting transcripts: compiler, upload requests and upload listing, in Dafny

This project models the three AWS Lambda handlers at the core of a
serverless meeting-transcription back end, and proves properties of them.

- **The transcript compiler** (`lambda/generate_compiled/index.py`) is
  triggered by a transcription result in the bucket. It does these steps in
  order:
  1. Takes the transcript name from the object key.
  2. Groups the recognised words into one line per speaker turn.
  3. Has the transcript summarised, and stores the summary as the notes
     artifact.
  4. For a transcript whose language code does not start with `en`,
     requests an English translation and stores it.
  5. Joins the compiled document with newlines and stores it.
  6. Writes the document into the upload's record as `combined_summary`.
  7. When emailing is on, emails the document to the record's owner.
- **The upload request handler** (`lambda/pre_signed_url/index.py`) runs when
  the web client wants to upload a recording. It takes the format from the
  file name and accepts only `mp3` and `m4a`. On acceptance it writes a
  placeholder record keyed by a fresh identifier, optionally emails the
  uploader, and answers with a pre-signed PUT URL for
  `<prefix>/<id>.<format>`.
- **The upload listing** (`lambda/list_uploads/index.py`) scans the table for
  the caller's records. It sorts them in place, newest first, by their
  upload-time string, and returns them.

Modules:

- `Wrappers`: `Option`, `Result`, and the Python exceptions the handlers can raise.
- `Text`: Python's `str.split` for a one-character separator and
  `str.join`, with their round trips.
- `SpeakerTurns`: the speaker loop.
  - The reference definition is `Turns`: maximal runs of items with the
    same label.
  - The loop itself is the method `GroupBySpeaker`, proved to produce
    `SpeakerLines`.
- `CompiledDocument`: the fixed layout of the compiled document.
- `Cloud`: the services as one object (`Services`).
  - It holds the table (DynamoDB), the bucket (S3) and a ghost log of every
    call, in order.
  - Its invariant says that the state is what the logged calls made of the
    initial state.
  - The file also defines `update_item`'s upsert semantics and the shared
    response shape.
- `GenerateCompiled`: the compiler's handler, as methods over `Services`.
  They are proved to make exactly the calls, and end exactly as, the
  reference function `Expected` says.
- `CompilerProperties`: what the compiler promises, stated about `Expected`.
- `PreSignedUrl`: the upload request handler, its reference function and
  its properties.
- `ListUploads`: the owner scan, Python string order, the stable descending
  sort (an in-place insertion sort on an array, proved against `SortDesc`),
  the handler and its properties.

External collaborators and non-determinism become parameters:

- The summarisation chain is a `Summariser` function (the transcript to its
  summary, or the message of the error it raised).
- Translation is a `Translator` function.
- URL signing is a `PreSigner` function.
- The fresh identifier and the clock reading are method parameters.
- The scan's visiting order is a parameter: every key of the table, each once.
- Environment variables are a `Config` value of strings.

Where the documented behaviour and the code differ, the model follows the code:

- A record missing at the compiler's update is not an error in itself. The
  update is an upsert and creates a record holding only `file_name` and
  `combined_summary`. The invocation fails afterwards only when emailing is
  on: with `KeyError('Item')` when the lookup found nothing, or
  `KeyError('file_owner')` when the record has no owner.
- A failure to send the email is not caught. The model has no email
  failure at all (see "Left out").
- The summary is a single opaque call. There is no recursive reduction.
- When the translation fails, the notes artifact has already been written.

## Model

| member | source | states |
|---|---|---|
| Text.JoinSplit | lambda/generate_compiled/index.py:49 | joining the pieces of `s.split(c)` with `c` gives `s` back |
| Text.SplitJoin | lambda/generate_compiled/index.py:173 | splitting a join of non-empty, separator-free parts gives the parts back |
| Text.SplitHead | lambda/generate_compiled/index.py:181 | the first piece of a split is the longest separator-free prefix; there is one piece exactly when the separator is absent |
| Text.SplitAtFirst | lambda/generate_compiled/index.py:49 | `(a + [c] + b).split(c)` is `[a]` followed by the pieces of `b` when `a` has no `c` |
| Text.JoinWithout | lambda/generate_compiled/index.py:84 | a join holds no character that neither the separator nor any part holds |
| Text.Split | lambda/generate_compiled/index.py:49 | `s.split(c)` always gives at least one piece, and no piece holds the separator; `JoinSplit` is its inverse |
| Text.Join | lambda/generate_compiled/index.py:84 | `sep.join(parts)` is empty for no parts and starts with the first part; `SplitJoin` is its inverse |
| SpeakerTurns.Turns | lambda/generate_compiled/index.py:77-93 | the maximal runs of equal labels: never more turns than items, none exactly for no items, the last turn has the last item's label |
| SpeakerTurns.TurnsExpand | lambda/generate_compiled/index.py:77-93 | spreading the turns back into items gives the items, in order |
| SpeakerTurns.TurnsWellFormed | lambda/generate_compiled/index.py:82-86 | every turn has a word and no two neighbouring turns share a label |
| SpeakerTurns.TurnsUnique | lambda/generate_compiled/index.py:77-93 | any well-formed turn sequence that spreads back into the items is `Turns(items)`, so the runs are maximal |
| SpeakerTurns.TurnsCount | lambda/generate_compiled/index.py:77-93 | for non-empty items there is one turn more than there are label changes |
| SpeakerTurns.TurnsKeepWords | lambda/generate_compiled/index.py:82-93 | the words of all turns, in order, are the item contents, none dropped or duplicated |
| SpeakerTurns.SpeakerLinesWithout | lambda/generate_compiled/index.py:84-93 | a line holds no character other than space or hyphen that no label or word holds |
| SpeakerTurns.GroupBySpeaker | lambda/generate_compiled/index.py:66-93 | the loop emits `label + " - " + words joined by spaces` per turn, and the single line `" - "` for no items |
| SpeakerTurns.SpeakerLines | lambda/generate_compiled/index.py:66-93 | the grouped section is the single line `" - "` for no items, and otherwise one line per maximal speaker turn, never more lines than items |
| CompiledDocument.Layout | lambda/generate_compiled/index.py:69-73 | the document is, line by line, `"Original Transcript", "", transcript, "", "", "", "Full Transcript - Grouped by Speaker", ""`, then the speaker lines, then `"", "", "Summarisation Results", "", "Summary", summary, "", "Summary Chunks"` with no chunk summaries, then, with a translation, `"", "", "Translation Results", text` as the last four lines |
| CompiledDocument.Document | lambda/generate_compiled/index.py:69-161 | the document has 16 lines plus one per speaker line, plus 4 with a translation |
| CompiledDocument.Message | lambda/generate_compiled/index.py:173-177 | the stored text is the lines joined with newlines: for newline-free lines, splitting it at newlines gives the lines back |
| CompiledDocument.TranslationAppends | lambda/generate_compiled/index.py:158-161 | a translation only appends `"", "", "Translation Results", text` after every other section |
| CompiledDocument.MessageDeterminesDocument | lambda/generate_compiled/index.py:173-177 | with newline-free inputs, splitting the stored text at newlines gives the document's lines back |
| GenerateCompiled.ParseKey | lambda/generate_compiled/index.py:48-52 | a failure is an index error; the name and format hold no `/` or `.` |
| GenerateCompiled.RecordKey | lambda/generate_compiled/index.py:181 | the record key is the longest `_`-free prefix of the name: the whole name without `_`, else followed by `_` |
| GenerateCompiled.LanguagePrefix | lambda/generate_compiled/index.py:63 | `code[:2]`: a prefix of the code, of length two or the whole shorter code |
| GenerateCompiled.Expected | lambda/generate_compiled/index.py:44-220 | the invocation makes no call exactly when the key does not parse or the summary fails; a success returns the transcript name taken from the key |
| GenerateCompiled.Publish | lambda/generate_compiled/index.py:143-220 | from the summary on, the first call stores the summary as the notes artifact, and at least one more call follows; a success returns the transcript name |
| GenerateCompiled.Translated | lambda/generate_compiled/index.py:149-166 | for a language other than `en` whose translation fails, the only call is the translation request, and the invocation fails |
| GenerateCompiled.Persist | lambda/generate_compiled/index.py:170-220 | the persisting tail fails only when emailing is `"true"`, and then with a key error: the update itself never fails |
| GenerateCompiled.HandleTranscript | lambda/generate_compiled/index.py:44-220 | the handler makes exactly the calls of `Expected`, in order, and ends as it says |
| GenerateCompiled.PublishCompiled | lambda/generate_compiled/index.py:143-166 | from the summary on, the handler makes the calls `Publish` lists, for the document built so far |
| GenerateCompiled.TranslateAndPersist | lambda/generate_compiled/index.py:149-220 | a transcript not in English has its translation requested, stored and appended before the document is persisted; a failing translation raises before anything else is written |
| GenerateCompiled.StoreAndNotify | lambda/generate_compiled/index.py:170-220 | the compiled write, lookup, update and optional email are the calls `Persist` lists |
| GenerateCompiled.Store | lambda/generate_compiled/index.py:170-193 | the compiled write, the lookup and the update are logged in that order; the lookup returns the record the table held before the update |
| GenerateCompiled.Notify | lambda/generate_compiled/index.py:195-216 | with emailing on, a missing record raises `KeyError('Item')` and a record without owner `KeyError('file_owner')`; otherwise the owner is emailed the text; with emailing off nothing is sent; no state changes |
| GenerateCompiled.PublishCases | lambda/generate_compiled/index.py:147-166 | the English, failed-translation and translated branches, each as a call sequence |
| CompilerProperties.ParseKeySucceedsIff | lambda/generate_compiled/index.py:48-52 | the key parses exactly when it has a `/` and its second `/`-segment holds a `.`; without `/` it raises an index error |
| CompilerProperties.ParseKeyOfTranscriptKey | lambda/generate_compiled/index.py:48-54 | `<prefix>/<name>.<format>` parses back to that name and format |
| CompilerProperties.ArtifactKeyParses | lambda/generate_compiled/index.py:147 | the notes, translation and compiled artifacts go to `<prefix>/<name>.txt`, a key of the transcript key's shape that parses back to the name and `txt` |
| CompilerProperties.RecordKeyOfJobName | lambda/generate_compiled/index.py:181-189 | a name `<id>_<rest>` with a `_`-free id looks up and updates the record of that id |
| CompilerProperties.NothingBeforeSummary | lambda/generate_compiled/index.py:138-147 | a key that does not parse, or a failing summary, raises before any call |
| CompilerProperties.TranslationRequestedIff | lambda/generate_compiled/index.py:150-155 | a translation is requested exactly when the summary is there and the prefix is not `en`; it is the transcript, from the prefix, to `en` |
| CompilerProperties.TranslatedRequests | lambda/generate_compiled/index.py:149-155 | the translation step requests a translation exactly when the language is not `en`, and only of the transcript into `en` |
| CompilerProperties.DocumentPersisted | lambda/generate_compiled/index.py:173-216 | the compiled write, the lookup and the update are consecutive; the same text is the compiled artifact, the update value and the email body; lookup and update use the same key; the email goes to the owner found |
| CompilerProperties.PersistedTail | lambda/generate_compiled/index.py:174-203 | after any object writes or requests, the tail stores, looks up, updates, and puts any email last |
| CompilerProperties.EmailAndOutcome | lambda/generate_compiled/index.py:199-203 | an email is sent exactly when the invocation compiles, emailing is `"true"` and the record has an owner; the invocation succeeds exactly when it compiles and either emailing is off or the owner exists |
| CompilerProperties.EffectOrder | lambda/generate_compiled/index.py:147-203 | the notes artifact comes first, every object write precedes the record update, and an email is last |
| CompilerProperties.PersistOrder | lambda/generate_compiled/index.py:170-203 | the persisting tail keeps the earlier calls first, puts every object write before the update and any email last |
| CompilerProperties.RunLeaves | lambda/generate_compiled/index.py:147-193 | the state a run leaves does not depend on what the lookup found: the notes, translation and compiled artifacts and the upserted record |
| CompilerProperties.RerunLeavesSameState | lambda/generate_compiled/index.py:147-193 | running again on the same result leaves the bucket and table exactly as the first run did |
| CompilerProperties.LeavesTwice | lambda/generate_compiled/index.py:147-193 | the state an invocation leaves is a fixed point of leaving it again |
| CompilerProperties.CompilerKeepsOwnedRecordsTimestamped | lambda/generate_compiled/index.py:188-193 | the compiler keeps the invariant that every owned record has an upload time |
| CompilerProperties.StoredTextDeterminesDocument | lambda/generate_compiled/index.py:173-177 | with newline-free inputs, the stored compiled text splits back into the compiled document |
| Cloud.Upsert | lambda/generate_compiled/index.py:188-193 | the attribute is set under the key, the record is created if missing, other records are unchanged |
| Cloud.UpsertRecord | lambda/generate_compiled/index.py:188-193 | an existing record keeps its other attributes; a new one holds only its key and the attribute |
| Cloud.UpsertTwice | lambda/generate_compiled/index.py:188-193 | the update is idempotent |
| Cloud.UpsertKeepsOwnedRecordsTimestamped | lambda/generate_compiled/index.py:188-193 | an update of an attribute other than the owner keeps every owned record timestamped |
| Cloud.Services.PutObject | lambda/generate_compiled/index.py:147 | an object write overwrites the object under the key and is logged |
| Cloud.Services.TranslateText | lambda/generate_compiled/index.py:153-155 | a translation request returns the translator's answer, changes no state and is logged |
| Cloud.Services.GetItem | lambda/generate_compiled/index.py:184 | a lookup returns the record under the key, if any, changes no state and is logged |
| Cloud.Services.PutItem | lambda/pre_signed_url/index.py:49 | a record write replaces the record under its `file_name` and is logged |
| Cloud.Services.UpdateItem | lambda/generate_compiled/index.py:188-193 | an update upserts the attribute and is logged |
| Cloud.Services.SendEmail | lambda/generate_compiled/index.py:203-220 | an email changes no state and is logged |
| Cloud.Services.PresignPut | lambda/pre_signed_url/index.py:80-82 | signing returns the signer's answer, changes no state and is logged |
| PreSignedUrl.FileFormat | lambda/pre_signed_url/index.py:30-37 | the format is the second `.`-token; a name without `.` raises an index error; the format holds no `.` |
| PreSignedUrl.FileFormatOfName | lambda/pre_signed_url/index.py:31-37 | the format of `<name>.<format>` and of `<name>.<format>.<more>` is `format` |
| PreSignedUrl.MiddleTokenDecides | lambda/pre_signed_url/index.py:37-40 | `talk.mp3.wav` is accepted and `talk.wav.mp3` rejected: the second token decides, not the last |
| PreSignedUrl.Truncate | lambda/pre_signed_url/index.py:47 | `int()` of a float truncates toward zero |
| PreSignedUrl.DecimalString | lambda/pre_signed_url/index.py:47 | `str()` of an integer: non-empty, starting with `-` exactly for a negative number, all digits otherwise |
| PreSignedUrl.Digits | lambda/pre_signed_url/index.py:47 | the decimal digits of a natural number, without leading zeros |
| PreSignedUrl.DigitsValueOfDigits | lambda/pre_signed_url/index.py:47 | reading the digits back gives the number |
| PreSignedUrl.TimestampRoundTrip | lambda/pre_signed_url/index.py:44-47 | the stored upload time reads back as the truncated clock reading |
| PreSignedUrl.PlaceholderRecord | lambda/pre_signed_url/index.py:49 | the record has exactly the five attributes: the id, the caller's email, the time, the requested name and the placeholder summary |
| PreSignedUrl.ObjectKey | lambda/pre_signed_url/index.py:42 | the upload key starts with the prefix and `/`, followed by the id, and ends with `.` and the format |
| PreSignedUrl.Expected | lambda/pre_signed_url/index.py:30-106 | the invocation raises exactly when the name has no `.`, and makes calls exactly when the format is allowed |
| PreSignedUrl.Accepted | lambda/pre_signed_url/index.py:40-92 | an allowed format writes the record first and signs the upload key last, with two or three calls; it answers 200 exactly when signing succeeds, else 500, always with the CORS headers |
| PreSignedUrl.HandleUploadRequest | lambda/pre_signed_url/index.py:17-106 | the handler makes exactly the calls of `Expected`, in order, and ends as it says |
| PreSignedUrl.Accept | lambda/pre_signed_url/index.py:40-92 | for an allowed format the record is written, the uploader emailed when emailing is on, the URL signed, and the answer is 200 with key and URL or 500 with the signing error |
| PreSignedUrl.AcceptedIff | lambda/pre_signed_url/index.py:80-106 | the answer is 200 exactly when the name has a `.`, the format is allowed and signing succeeds, with the key `<prefix>/<id>.<format>` and its URL; every answer is 200 or 500 with the CORS headers |
| PreSignedUrl.RejectionWritesNothing | lambda/pre_signed_url/index.py:93-96 | a name without `.` raises, and a format that is not allowed is answered 500 "Not allowed file type"; neither writes, emails or signs |
| PreSignedUrl.AcceptedWritesRecord | lambda/pre_signed_url/index.py:40-85 | an allowed format writes the placeholder record first and signs last, so a signing error leaves the record; the table gains exactly that record and keeps owned records timestamped |
| PreSignedUrl.EmailIff | lambda/pre_signed_url/index.py:51-72 | the upload email is sent exactly when the format is allowed and emailing is `"true"`, after the record, to the caller, ending with the id |
| ListUploads.StrLessIrreflexive | lambda/list_uploads/index.py:42 | no string sorts before itself |
| ListUploads.StrLessTransitive | lambda/list_uploads/index.py:42 | Python string order is transitive |
| ListUploads.StrLessTotal | lambda/list_uploads/index.py:42 | of two different strings one sorts first |
| ListUploads.Scan | lambda/list_uploads/index.py:22-24 | the scan returns at most one record per visited key |
| ListUploads.ScanSelects | lambda/list_uploads/index.py:19-24 | a record is scanned exactly when it is in the table and owned by the caller |
| ListUploads.ScanCount | lambda/list_uploads/index.py:22-24 | a scan that visits each key once returns exactly one record per key of the caller's records |
| ListUploads.InsertDesc | lambda/list_uploads/index.py:42 | inserting adds exactly the record to the listing |
| ListUploads.SortDesc | lambda/list_uploads/index.py:42 | the sorted listing is a permutation of the records |
| ListUploads.SortDescDescending | lambda/list_uploads/index.py:42 | the sorted listing is in non-increasing order of the time string |
| ListUploads.SortDescStable | lambda/list_uploads/index.py:42 | records with equal times keep their scan order |
| ListUploads.InsertAt | lambda/list_uploads/index.py:42 | one in-place insertion pass inserts `a[i]` into the sorted prefix and leaves the rest |
| ListUploads.SortByTimestampDesc | lambda/list_uploads/index.py:42 | the in-place sort leaves the array holding `SortDesc` of its old contents |
| ListUploads.Listing | lambda/list_uploads/index.py:29-51 | every answer is 200 with the CORS headers; the listing fails exactly when `Items` is present and a scanned record has no time, and then with a key error on `file_timestamp` |
| ListUploads.HandleListUploads | lambda/list_uploads/index.py:16-51 | the handler answers as `Listing`: "No item found in dynamodb", a key error for a record without time, or the sorted records |
| ListUploads.ListingResponse | lambda/list_uploads/index.py:29-51 | both branches answer 200 with the CORS headers; the listing raises exactly when a scanned record lacks a time, else it is a permutation of the scan, newest first, ties in scan order |
| ListUploads.ListingOfTimestampedTable | lambda/list_uploads/index.py:19-46 | on a table whose owned records all have a time, scanned once per key, the listing succeeds, lists exactly the caller's records, and has as many entries as the caller has records |
| ListUploads.StringsNotNumbers | lambda/list_uploads/index.py:42 | times compare as strings: "999" is listed before "1000" |

## Left out

- The summarisation chain, its text splitter (chunks of 1000 with overlap 350), the map and combine prompts and the model client are foreign library calls. The model treats them as one function of the transcript.
- JSON: loading the transcription result and encoding the artifacts and responses are left out. The artifacts are the values that would be dumped (`Body`), and the responses are the values that would be encoded (`Json`).
- The `/tmp` files are left out; the model writes their contents directly.
- The download of the transcription result is left out: the handler receives its transcript, language code and word items. The compiler's own return value, a 200 with a message and the results, is reduced to the transcript name.
- Service failures are left out, except the translation failure and the signing error, which the model does capture: S3 writes, DynamoDB calls and SES sends are assumed to succeed.
- `CompilerProperties.EmailAndOutcome`: does not model an SES failure after the update, because service failures are not modelled.
- Missing event fields, such as the query string or the caller's claims, raise `KeyError` in the source. The model receives these values as parameters.
- Concurrency, Lambda retries and the trigger configuration are left out. Each invocation is one sequential method. `CompilerProperties.RerunLeavesSameState` states what a retried invocation leaves behind.
- `ListUploads.Scan`: the scan is one page. The source does not follow `LastEvaluatedKey` either. The absence of `Items` is a Boolean input.
- `ListUploads.SortByTimestampDesc`: Python's timsort is modelled by insertion sort. For a stable sort the sorted result is the same, but the number of comparisons is not.
- The file-download handler, the CDK stack, the app entry point and the React UI are not part of this model.
