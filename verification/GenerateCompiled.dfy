/**
 * The transcript compiler: triggered by a transcription result landing in the
 * bucket, it builds the compiled document, stores the summary, the optional
 * translation and the document, replaces the placeholder summary of the
 * upload's record with the document and optionally emails it to the owner.
 */
module GenerateCompiled {
  import opened Wrappers
  import opened Text
  import opened Cloud
  import opened SpeakerTurns
  import opened CompiledDocument

  /** The handler's environment variables. */
  datatype Config = Config(
    notesPrefix: string,
    compiledPrefix: string,
    translationsPrefix: string,
    sesSender: string,
    sendEmail: string)

  /** The parts of the transcription result the handler reads. */
  datatype Transcription = Transcription(transcript: string, languageCode: string, items: seq<WordItem>)

  /** The name and the format taken from the transcript's object key. */
  datatype KeyParts = KeyParts(name: string, format: string)

  /** The summarisation chain over the transcript: its results, or the message of the error it raised. */
  type Summariser = string -> Result<Summary, string>

  const EmailSubject := "Transcribe: Your file has been trancribed and summarised"

  /**
   * The object key `<prefix>/<name>.<format>...`: the second `/`-segment,
   * split at `.`, gives the name and the format; a key without a second
   * segment, or whose second segment has no `.`, raises an index error.
   */
  function ParseKey(key: string): (r: Result<KeyParts, Exception>)
    ensures r.Failure? ==> r.error == IndexError
    ensures r.Success? ==> '/' !in r.value.name && '.' !in r.value.name
    ensures r.Success? ==> '/' !in r.value.format && '.' !in r.value.format
  {
    var segments := Split(key, '/');
    if |segments| < 2 then Failure(IndexError)
    else
      var tokens := Split(segments[1], '.');
      SplitPiecesWithout(segments[1], '.', '/');
      if |tokens| < 2 then Failure(IndexError)
      else Success(KeyParts(tokens[0], tokens[1]))
  }

  /** The key of an artifact: `<prefix>/<name>.txt`. */
  function ArtifactKey(prefix: string, name: string): string
  {
    prefix + "/" + name + ".txt"
  }

  /** The record key: the transcript name up to its first `_`. */
  function RecordKey(name: string): (k: string)
    ensures k <= name && '_' !in k
    ensures '_' !in name ==> k == name
    ensures '_' in name ==> |k| < |name| && name[|k|] == '_'
  {
    SplitHead(name, '_');
    Split(name, '_')[0]
  }

  /** Python's `code[:2]`: the first two characters, or all of a shorter code. */
  function LanguagePrefix(code: string): (p: string)
    ensures p <= code && |p| == if |code| < 2 then |code| else 2
  {
    if |code| <= 2 then code else code[..2]
  }

  /** The calls an invocation makes, in order, and how it ends: the transcript name, or the exception raised. */
  datatype Run = Run(calls: seq<Call>, outcome: Result<string, Exception>)

  /**
   * The reference behaviour of one invocation, given the table as it was
   * when the invocation started (nothing before the lookup writes to it).
   */
  function Expected(cfg: Config, key: string, input: Transcription, summarise: Summariser,
                    translate: Translator, table: map<string, Item>): (r: Run)
    ensures r.calls == [] <==> ParseKey(key).Failure? || summarise(input.transcript).Failure?
    ensures r.outcome.Success? ==> ParseKey(key).Success? && r.outcome.value == ParseKey(key).value.name
  {
    match ParseKey(key)
    case Failure(e) => Run([], Failure(e))
    case Success(parts) =>
      match summarise(input.transcript)
      case Failure(m) => Run([], Failure(SummarisationError(m)))
      case Success(summary) => Publish(cfg, parts.name, input, summary, translate, table)
  }

  /** From the summary on: store the summary, then translate (when needed) and persist. */
  function Publish(cfg: Config, name: string, input: Transcription, summary: Summary,
                   translate: Translator, table: map<string, Item>): (r: Run)
    ensures |r.calls| >= 2 && r.calls[0] == PutObject(ArtifactKey(cfg.notesPrefix, name), SummaryJson(summary.outputText))
    ensures r.outcome.Success? ==> r.outcome.value == name
  {
    var notes := PutObject(ArtifactKey(cfg.notesPrefix, name), SummaryJson(summary.outputText));
    var rest := Translated(cfg, name, input.transcript, LanguagePrefix(input.languageCode),
                           Document(input.transcript, SpeakerLines(input.items), summary, None), translate, table);
    Run([notes] + rest.calls, rest.outcome)
  }

  /**
   * For a transcript not in English, request its translation (a failure
   * raises), store it and append it to the document; then persist.
   */
  function Translated(cfg: Config, name: string, transcript: string, language: string, document: seq<string>,
                      translate: Translator, table: map<string, Item>): (r: Run)
    ensures language != "en" && translate(transcript, language, "en").Failure? ==>
            r.calls == [TranslateText(transcript, language, "en")] && r.outcome.Failure?
  {
    if language == "en" then Persist(cfg, name, document, table, [])
    else
      var request := TranslateText(transcript, language, "en");
      match translate(transcript, language, "en")
      case Failure(m) => Run([request], Failure(TranslationError(m)))
      case Success(t) =>
        var stored := PutObject(ArtifactKey(cfg.translationsPrefix, name), TranslationJson(t, language, "en"));
        var tail := Persist(cfg, name, document + TranslationBlock(t), table, []);
        Run([request, stored] + tail.calls, tail.outcome)
  }

  /**
   * The persisting tail of an invocation: store the document, look up the
   * record, write the document into it, then, when emailing is on, send the
   * document to the owner the lookup found (a missing record or owner raises).
   */
  function Persist(cfg: Config, name: string, document: seq<string>, table: map<string, Item>, before: seq<Call>): (r: Run)
    ensures r.outcome.Failure? ==> cfg.sendEmail == "true" && r.outcome.error.KeyError?
  {
    var message := Message(document);
    var recordKey := RecordKey(name);
    var calls := before + [PutObject(ArtifactKey(cfg.compiledPrefix, name), PlainText(message)),
                           GetItem(recordKey), UpdateItem(recordKey, CombinedSummary, message)];
    if cfg.sendEmail != "true" then Run(calls, Success(name))
    else if recordKey !in table then Run(calls, Failure(KeyError("Item")))
    else if FileOwner !in table[recordKey] then Run(calls, Failure(KeyError(FileOwner)))
    else Run(calls + [SendEmail(cfg.sesSender, table[recordKey][FileOwner], EmailSubject, message)], Success(name))
  }

  /** The calls of the persisting tail follow the calls made before it. */
  lemma PersistAfter(cfg: Config, name: string, document: seq<string>, table: map<string, Item>, before: seq<Call>)
    ensures Persist(cfg, name, document, table, before) ==
            var tail := Persist(cfg, name, document, table, []);
            Run(before + tail.calls, tail.outcome)
  {
    var message := Message(document);
    var recordKey := RecordKey(name);
    var middle := [PutObject(ArtifactKey(cfg.compiledPrefix, name), PlainText(message)),
                   GetItem(recordKey), UpdateItem(recordKey, CombinedSummary, message)];
    assert [] + middle == middle;
    if cfg.sendEmail == "true" && recordKey in table && FileOwner in table[recordKey] {
      var email := SendEmail(cfg.sesSender, table[recordKey][FileOwner], EmailSubject, message);
      assert before + middle + [email] == before + (middle + [email]);
    }
  }

  /** Publish, case by case: the calls made before the persisting tail. */
  lemma PublishCases(cfg: Config, name: string, input: Transcription, summary: Summary,
                     translate: Translator, table: map<string, Item>)
    ensures var run := Publish(cfg, name, input, summary, translate, table);
      var notes := PutObject(ArtifactKey(cfg.notesPrefix, name), SummaryJson(summary.outputText));
      var speakerLines := SpeakerLines(input.items);
      var language := LanguagePrefix(input.languageCode);
      var request := TranslateText(input.transcript, language, "en");
      var translated := translate(input.transcript, language, "en");
      (language == "en" ==>
         run == Persist(cfg, name, Document(input.transcript, speakerLines, summary, None), table, [notes])) &&
      (language != "en" && translated.Failure? ==>
         run == Run([notes, request], Failure(TranslationError(translated.error)))) &&
      (language != "en" && translated.Success? ==>
         run == Persist(cfg, name, Document(input.transcript, speakerLines, summary, Some(translated.value)), table,
                        [notes, request, PutObject(ArtifactKey(cfg.translationsPrefix, name), TranslationJson(translated.value, language, "en"))]))
  {
    var notes := PutObject(ArtifactKey(cfg.notesPrefix, name), SummaryJson(summary.outputText));
    var speakerLines := SpeakerLines(input.items);
    var language := LanguagePrefix(input.languageCode);
    var document := Document(input.transcript, speakerLines, summary, None);
    if language == "en" {
      PersistAfter(cfg, name, document, table, [notes]);
    } else if translate(input.transcript, language, "en").Success? {
      var t := translate(input.transcript, language, "en").value;
      var request := TranslateText(input.transcript, language, "en");
      var stored := PutObject(ArtifactKey(cfg.translationsPrefix, name), TranslationJson(t, language, "en"));
      TranslationAppends(input.transcript, speakerLines, summary, t);
      var tail := Persist(cfg, name, document + TranslationBlock(t), table, []);
      PersistAfter(cfg, name, document + TranslationBlock(t), table, [notes, request, stored]);
      assert [notes] + ([request, stored] + tail.calls) == [notes, request, stored] + tail.calls;
    }
  }

  /** One invocation of the compiler on the transcription result stored under `key`. */
  method HandleTranscript(services: Services, cfg: Config, key: string, input: Transcription,
                          summarise: Summariser, translate: Translator) returns (outcome: Result<string, Exception>)
    requires services.Valid()
    modifies services
    ensures services.Valid()
    ensures var run := Expected(cfg, key, input, summarise, translate, old(services.table));
      outcome == run.outcome && services.log == old(services.log) + run.calls
  {
    var parsed := ParseKey(key);
    if parsed.Failure? {
      return Failure(parsed.error);
    }
    var name := parsed.value.name;

    var compiled := ["Original Transcript", "", input.transcript, "", "", ""];
    compiled := compiled + ["Full Transcript - Grouped by Speaker"];
    compiled := compiled + [""];
    var speakerLines := GroupBySpeaker(input.items);
    compiled := compiled + speakerLines;

    var result := summarise(input.transcript);
    if result.Failure? {
      return Failure(SummarisationError(result.error));
    }
    var summary := result.value;
    compiled := compiled + ["", "", "Summarisation Results", "", "Summary", summary.outputText, "", "Summary Chunks"];
    if ReturnIntermediateSteps {
      compiled := compiled + summary.intermediateSteps;
    }
    outcome := PublishCompiled(services, cfg, name, input, summary, compiled, translate);
  }

  /** The handler from the summary on: the three object writes, the record update and the email. */
  method PublishCompiled(services: Services, cfg: Config, name: string, input: Transcription, summary: Summary,
                         compiled: seq<string>, translate: Translator) returns (outcome: Result<string, Exception>)
    requires services.Valid()
    requires compiled == Document(input.transcript, SpeakerLines(input.items), summary, None)
    modifies services
    ensures services.Valid()
    ensures var run := Publish(cfg, name, input, summary, translate, old(services.table));
      outcome == run.outcome && services.log == old(services.log) + run.calls
  {
    var language := LanguagePrefix(input.languageCode);
    services.PutObject(ArtifactKey(cfg.notesPrefix, name), SummaryJson(summary.outputText));
    ghost var notes := services.log[|services.log| - 1];
    outcome := TranslateAndPersist(services, cfg, name, input.transcript, language, compiled, translate);
    Regroup(old(services.log), [notes],
            Translated(cfg, name, input.transcript, language, compiled, translate, old(services.table)).calls);
  }

  lemma Regroup(a: seq<Call>, b: seq<Call>, c: seq<Call>)
    ensures a + b + c == a + (b + c)
  {
  }

  /**
   * The handler after the summary artifact: for a transcript not in English,
   * request the translation (a failure raises), store it and append it to
   * the document; then persist.
   */
  method TranslateAndPersist(services: Services, cfg: Config, name: string, transcript: string, language: string,
                             compiled: seq<string>, translate: Translator) returns (outcome: Result<string, Exception>)
    requires services.Valid()
    modifies services
    ensures services.Valid()
    ensures var run := Translated(cfg, name, transcript, language, compiled, translate, old(services.table));
      outcome == run.outcome && services.log == old(services.log) + run.calls
  {
    if language == "en" {
      outcome := StoreAndNotify(services, cfg, name, compiled);
      return;
    }
    var translated := services.TranslateText(translate, transcript, language, "en");
    if translated.Failure? {
      return Failure(TranslationError(translated.error));
    }
    var withTranslation := compiled + ["", "", "Translation Results", translated.value];
    services.PutObject(ArtifactKey(cfg.translationsPrefix, name), TranslationJson(translated.value, language, "en"));
    ghost var request := Call.TranslateText(transcript, language, "en");
    ghost var stored := Call.PutObject(ArtifactKey(cfg.translationsPrefix, name), TranslationJson(translated.value, language, "en"));
    ghost var table := services.table;
    assert withTranslation == compiled + TranslationBlock(translated.value);
    outcome := StoreAndNotify(services, cfg, name, withTranslation);
    Regroup(old(services.log), [request, stored], Persist(cfg, name, withTranslation, table, []).calls);
  }

  /** The persisting tail of the handler, from the write of the compiled document on. */
  method StoreAndNotify(services: Services, cfg: Config, name: string, compiled: seq<string>)
    returns (outcome: Result<string, Exception>)
    requires services.Valid()
    modifies services
    ensures services.Valid()
    ensures var run := Persist(cfg, name, compiled, old(services.table), []);
      outcome == run.outcome && services.log == old(services.log) + run.calls
  {
    var message := Join("\n", compiled);
    var recordKey := RecordKey(name);
    var record := Store(services, cfg, name, recordKey, message);
    ghost var stored := services.log;
    outcome := Notify(services, cfg, name, record, message);
    ghost var calls := [Call.PutObject(ArtifactKey(cfg.compiledPrefix, name), PlainText(message)),
                        Call.GetItem(recordKey), Call.UpdateItem(recordKey, CombinedSummary, message)];
    assert [] + calls == calls;
    Regroup(old(services.log), calls, services.log[|stored|..]);
  }

  /** The three storage calls: write the compiled artifact, look up the record, write the text into it. */
  method Store(services: Services, cfg: Config, name: string, recordKey: string, message: string)
    returns (record: Option<Item>)
    requires services.Valid()
    modifies services
    ensures services.Valid()
    ensures record == if recordKey in old(services.table) then Some(old(services.table)[recordKey]) else None
    ensures services.log == old(services.log) + [Call.PutObject(ArtifactKey(cfg.compiledPrefix, name), PlainText(message)),
                                                 Call.GetItem(recordKey), Call.UpdateItem(recordKey, CombinedSummary, message)]
  {
    services.PutObject(ArtifactKey(cfg.compiledPrefix, name), PlainText(message));
    record := services.GetItem(recordKey);
    services.UpdateItem(recordKey, CombinedSummary, message);
  }

  /**
   * The email step: when emailing is on, the record found must exist and
   * have an owner (else a key error is raised), and the owner is sent the text.
   */
  method Notify(services: Services, cfg: Config, name: string, record: Option<Item>, message: string)
    returns (outcome: Result<string, Exception>)
    requires services.Valid()
    modifies services
    ensures services.Valid() && services.State() == old(services.State())
    ensures var emails := cfg.sendEmail == "true" && record.Some? && FileOwner in record.value;
      services.log == old(services.log) +
                      (if emails then [SendEmail(cfg.sesSender, record.value[FileOwner], EmailSubject, message)] else []) &&
      outcome == if cfg.sendEmail != "true" || emails then Success(name)
                 else Failure(KeyError(if record.None? then "Item" else FileOwner))
  {
    if cfg.sendEmail == "true" {
      if record.None? {
        return Failure(KeyError("Item"));
      }
      if FileOwner !in record.value {
        return Failure(KeyError(FileOwner));
      }
      services.SendEmail(cfg.sesSender, record.value[FileOwner], EmailSubject, message);
    }
    return Success(name);
  }
}
