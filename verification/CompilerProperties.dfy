/**
 * What one invocation of the transcript compiler promises, stated about its
 * reference behaviour `GenerateCompiled.Expected` (which the handler method
 * is proved to follow call for call).
 */
module CompilerProperties {
  import opened Wrappers
  import opened Text
  import opened Cloud
  import opened SpeakerTurns
  import opened CompiledDocument
  import opened GenerateCompiled

  /** The key parses exactly when it has a second `/`-segment and that segment holds a `.`. */
  lemma ParseKeySucceedsIff(key: string)
    ensures '/' !in key ==> ParseKey(key) == Failure(IndexError)
    ensures '/' in key ==> |Split(key, '/')| >= 2 && (ParseKey(key).Success? <==> '.' in Split(key, '/')[1])
  {
    SplitHead(key, '/');
    if '/' in key {
      SplitHead(Split(key, '/')[1], '.');
    }
  }

  /**
   * A key `<prefix>/<name>.<format>` whose parts hold no `/` and whose name
   * and format hold no `.` parses back to that name and format.
   */
  lemma ParseKeyOfTranscriptKey(prefix: string, name: string, format: string)
    requires '/' !in prefix && '/' !in name && '/' !in format
    requires '.' !in name && '.' !in format
    ensures ParseKey(prefix + "/" + name + "." + format) == Success(KeyParts(name, format))
  {
    var segment := name + "." + format;
    assert '/' !in segment;
    assert prefix + "/" + name + "." + format == prefix + ['/'] + segment;
    SplitAtFirst(prefix, segment, '/');
    SplitWithout(segment, '/');
    assert segment == name + ['.'] + format;
    SplitAtFirst(name, format, '.');
    SplitWithout(format, '.');
  }

  /**
   * The notes, translation and compiled artifacts are stored under keys of
   * the transcript key's own shape: `<prefix>/<name>.txt` parses back to the
   * transcript name and the format `txt`.
   */
  lemma ArtifactKeyParses(prefix: string, name: string)
    requires '/' !in prefix && '/' !in name && '.' !in name
    ensures ParseKey(ArtifactKey(prefix, name)) == Success(KeyParts(name, "txt"))
  {
    assert ArtifactKey(prefix, name) == prefix + "/" + name + "." + "txt";
    ParseKeyOfTranscriptKey(prefix, name, "txt");
  }

  /** A job name `<id>_<rest>` whose id holds no `_` looks up the record of that id. */
  lemma RecordKeyOfJobName(id: string, rest: string)
    requires '_' !in id
    ensures RecordKey(id + "_" + rest) == id
  {
    var name := id + "_" + rest;
    assert name == id + ['_'] + rest;
    SplitAtFirst(id, rest, '_');
  }

  /** The invocation got past the summary and, for a transcript not in English, the translation. */
  predicate Compiles(key: string, input: Transcription, summarise: Summariser, translate: Translator)
  {
    ParseKey(key).Success? && summarise(input.transcript).Success? &&
    var language := LanguagePrefix(input.languageCode);
    (language == "en" || translate(input.transcript, language, "en").Success?)
  }

  /** The document such an invocation compiles. */
  function CompiledLines(key: string, input: Transcription, summarise: Summariser, translate: Translator): seq<string>
    requires Compiles(key, input, summarise, translate)
  {
    var language := LanguagePrefix(input.languageCode);
    Document(input.transcript, SpeakerLines(input.items), summarise(input.transcript).value,
             if language == "en" then None else Some(translate(input.transcript, language, "en").value))
  }

  /** The persisting tail, spelled out: store, look up, update, then possibly the email. */
  lemma PersistCalls(cfg: Config, name: string, document: seq<string>, table: map<string, Item>, before: seq<Call>)
    ensures var run := Persist(cfg, name, document, table, before);
      var m := Message(document);
      var rk := RecordKey(name);
      var core := before + [PutObject(ArtifactKey(cfg.compiledPrefix, name), PlainText(m)), GetItem(rk), UpdateItem(rk, CombinedSummary, m)];
      var emails := cfg.sendEmail == "true" && rk in table && FileOwner in table[rk];
      run.calls == core + (if emails then [SendEmail(cfg.sesSender, table[rk][FileOwner], EmailSubject, m)] else []) &&
      run.outcome == (if cfg.sendEmail != "true" || emails then Success(name)
                      else Failure(KeyError(if rk !in table then "Item" else FileOwner)))
  {
  }

  /** Nothing is written or requested before the key has parsed and the summary is there. */
  lemma NothingBeforeSummary(cfg: Config, key: string, input: Transcription, summarise: Summariser,
                             translate: Translator, table: map<string, Item>)
    requires ParseKey(key).Failure? || summarise(input.transcript).Failure?
    ensures Expected(cfg, key, input, summarise, translate, table).calls == []
    ensures Expected(cfg, key, input, summarise, translate, table).outcome ==
            if ParseKey(key).Failure? then Failure(IndexError)
            else Failure(SummarisationError(summarise(input.transcript).error))
  {
  }

  /**
   * A translation is requested exactly when the key parsed, the summary is
   * there and the language code does not start with "en"; the request is for
   * the whole transcript, from those two characters to "en".
   */
  lemma TranslationRequestedIff(cfg: Config, key: string, input: Transcription, summarise: Summariser,
                                translate: Translator, table: map<string, Item>)
    ensures var calls := Expected(cfg, key, input, summarise, translate, table).calls;
      var language := LanguagePrefix(input.languageCode);
      ((exists c :: c in calls && c.TranslateText?) <==>
         ParseKey(key).Success? && summarise(input.transcript).Success? && language != "en") &&
      (forall c :: c in calls && c.TranslateText? ==> c == TranslateText(input.transcript, language, "en"))
  {
    var calls := Expected(cfg, key, input, summarise, translate, table).calls;
    if ParseKey(key).Success? && summarise(input.transcript).Success? {
      var name := ParseKey(key).value.name;
      var summary := summarise(input.transcript).value;
      var language := LanguagePrefix(input.languageCode);
      var notes := PutObject(ArtifactKey(cfg.notesPrefix, name), SummaryJson(summary.outputText));
      var rest := Translated(cfg, name, input.transcript, language,
                             Document(input.transcript, SpeakerLines(input.items), summary, None), translate, table).calls;
      TranslatedRequests(cfg, name, input.transcript, language,
                         Document(input.transcript, SpeakerLines(input.items), summary, None), translate, table);
      assert calls == [notes] + rest;
      assert forall c :: c in calls && c.TranslateText? ==> c in rest;
      assert forall c :: c in rest ==> c in calls;
    }
  }

  /** The translation step requests a translation exactly when the language is not "en", and only of the transcript into "en". */
  lemma TranslatedRequests(cfg: Config, name: string, transcript: string, language: string, document: seq<string>,
                           translate: Translator, table: map<string, Item>)
    ensures var calls := Translated(cfg, name, transcript, language, document, translate, table).calls;
      ((exists c :: c in calls && c.TranslateText?) <==> language != "en") &&
      (forall c :: c in calls && c.TranslateText? ==> c == TranslateText(transcript, language, "en"))
  {
    var calls := Translated(cfg, name, transcript, language, document, translate, table).calls;
    if language == "en" {
      PersistCalls(cfg, name, document, table, []);
    } else {
      var t := translate(transcript, language, "en");
      if t.Success? {
        PersistCalls(cfg, name, document + TranslationBlock(t.value), table, []);
      }
      assert calls[0] == TranslateText(transcript, language, "en");
    }
  }

  /** Only object writes and translation requests come before the persisting tail. */
  ghost predicate Preparatory(before: seq<Call>)
  {
    forall c :: c in before ==> c.PutObject? || c.TranslateText?
  }

  /**
   * The persisting tail stores the message, then looks up and updates the
   * record under the key cut from the name with that same message; an email,
   * if any, carries the message to the owner found and comes last.
   */
  lemma PersistedTail(cfg: Config, name: string, document: seq<string>, table: map<string, Item>, before: seq<Call>)
    requires Preparatory(before)
    ensures var calls := Persist(cfg, name, document, table, before).calls;
      var m := Message(document);
      var rk := RecordKey(name);
      var j := |before|;
      j + 3 <= |calls| &&
      calls[j] == PutObject(ArtifactKey(cfg.compiledPrefix, name), PlainText(m)) &&
      calls[j + 1] == GetItem(rk) && calls[j + 2] == UpdateItem(rk, CombinedSummary, m) &&
      (forall c :: c in calls && c.UpdateItem? ==> c == UpdateItem(rk, CombinedSummary, m)) &&
      (forall c :: c in calls && c.GetItem? ==> c == GetItem(rk)) &&
      (forall i :: 0 <= i < |calls| && calls[i].SendEmail? ==>
         i == |calls| - 1 && rk in table && FileOwner in table[rk] &&
         calls[i] == SendEmail(cfg.sesSender, table[rk][FileOwner], EmailSubject, m))
  {
    PersistCalls(cfg, name, document, table, before);
    var calls := Persist(cfg, name, document, table, before).calls;
    forall i | 0 <= i < |before|
      ensures !calls[i].SendEmail?
    {
      assert calls[i] == before[i] && before[i] in before;
    }
  }

  /** The calls an invocation that compiles makes before persisting. */
  function Preparation(cfg: Config, key: string, input: Transcription, summarise: Summariser, translate: Translator): (before: seq<Call>)
    requires Compiles(key, input, summarise, translate)
    ensures Preparatory(before)
  {
    var name := ParseKey(key).value.name;
    var summary := summarise(input.transcript).value;
    var language := LanguagePrefix(input.languageCode);
    var notes := PutObject(ArtifactKey(cfg.notesPrefix, name), SummaryJson(summary.outputText));
    if language == "en" then [notes]
    else
      var t := translate(input.transcript, language, "en").value;
      [notes, TranslateText(input.transcript, language, "en"),
       PutObject(ArtifactKey(cfg.translationsPrefix, name), TranslationJson(t, language, "en"))]
  }

  /** An invocation that compiles is its preparation followed by the persisting tail. */
  lemma CompilesThenPersists(cfg: Config, key: string, input: Transcription, summarise: Summariser,
                             translate: Translator, table: map<string, Item>)
    requires Compiles(key, input, summarise, translate)
    ensures Expected(cfg, key, input, summarise, translate, table) ==
            Persist(cfg, ParseKey(key).value.name, CompiledLines(key, input, summarise, translate), table,
                    Preparation(cfg, key, input, summarise, translate))
  {
    PublishCases(cfg, ParseKey(key).value.name, input, summarise(input.transcript).value, translate, table);
  }

  /**
   * When the invocation compiles, the same text (the compiled lines joined
   * with newlines) is stored as the compiled artifact, written into the
   * record under the key cut from the name, and is the body of any email;
   * the lookup uses the same key as the update, and the email goes to the
   * owner the lookup found.
   */
  lemma DocumentPersisted(cfg: Config, key: string, input: Transcription, summarise: Summariser,
                          translate: Translator, table: map<string, Item>)
    requires Compiles(key, input, summarise, translate)
    ensures var calls := Expected(cfg, key, input, summarise, translate, table).calls;
      var name := ParseKey(key).value.name;
      var m := Message(CompiledLines(key, input, summarise, translate));
      var rk := RecordKey(name);
      (exists j :: 0 <= j && j + 2 < |calls| &&
         calls[j] == PutObject(ArtifactKey(cfg.compiledPrefix, name), PlainText(m)) &&
         calls[j + 1] == GetItem(rk) && calls[j + 2] == UpdateItem(rk, CombinedSummary, m)) &&
      (forall c :: c in calls && c.UpdateItem? ==> c == UpdateItem(rk, CombinedSummary, m)) &&
      (forall c :: c in calls && c.GetItem? ==> c == GetItem(rk)) &&
      (forall c :: c in calls && c.SendEmail? ==>
         rk in table && FileOwner in table[rk] &&
         c == SendEmail(cfg.sesSender, table[rk][FileOwner], EmailSubject, m))
  {
    var before := Preparation(cfg, key, input, summarise, translate);
    CompilesThenPersists(cfg, key, input, summarise, translate, table);
    PersistedTail(cfg, ParseKey(key).value.name, CompiledLines(key, input, summarise, translate), table, before);
    var calls := Expected(cfg, key, input, summarise, translate, table).calls;
    var j := |before|;
    assert calls[j].PutObject?;
  }

  /**
   * Whether the invocation emails the document: emailing is on and the
   * record of the transcript has an owner when it is looked up.
   */
  predicate Notifies(cfg: Config, key: string, table: map<string, Item>)
  {
    cfg.sendEmail == "true" && ParseKey(key).Success? &&
    var recordKey := RecordKey(ParseKey(key).value.name);
    recordKey in table && FileOwner in table[recordKey]
  }

  /**
   * An email goes out exactly when the invocation compiles and notifies; the
   * invocation succeeds, returning the transcript name, exactly when it
   * compiles and either emailing is off or the owner was found.
   */
  lemma EmailAndOutcome(cfg: Config, key: string, input: Transcription, summarise: Summariser,
                        translate: Translator, table: map<string, Item>)
    ensures var run := Expected(cfg, key, input, summarise, translate, table);
      ((exists c :: c in run.calls && c.SendEmail?) <==>
         Compiles(key, input, summarise, translate) && Notifies(cfg, key, table)) &&
      (run.outcome.Success? <==>
         Compiles(key, input, summarise, translate) && (cfg.sendEmail != "true" || Notifies(cfg, key, table))) &&
      (run.outcome.Success? ==> run.outcome.value == ParseKey(key).value.name)
  {
    var run := Expected(cfg, key, input, summarise, translate, table);
    if Compiles(key, input, summarise, translate) {
      CompilesThenPersists(cfg, key, input, summarise, translate, table);
      PersistedTail(cfg, ParseKey(key).value.name, CompiledLines(key, input, summarise, translate), table,
                    Preparation(cfg, key, input, summarise, translate));
      PersistCalls(cfg, ParseKey(key).value.name, CompiledLines(key, input, summarise, translate), table,
                   Preparation(cfg, key, input, summarise, translate));
      if Notifies(cfg, key, table) {
        assert run.calls[|run.calls| - 1] in run.calls;
      } else {
        forall c | c in run.calls
          ensures !c.SendEmail?
        {
          var i :| 0 <= i < |run.calls| && run.calls[i] == c;
        }
      }
    } else if ParseKey(key).Success? && summarise(input.transcript).Success? {
      PublishCases(cfg, ParseKey(key).value.name, input, summarise(input.transcript).value, translate, table);
    }
  }

  /**
   * The order of the effects: the summary artifact is the first call; every
   * object write comes before the record update; an email comes last.
   */
  lemma EffectOrder(cfg: Config, key: string, input: Transcription, summarise: Summariser,
                    translate: Translator, table: map<string, Item>)
    ensures var calls := Expected(cfg, key, input, summarise, translate, table).calls;
      (|calls| > 0 ==>
         ParseKey(key).Success? && summarise(input.transcript).Success? &&
         calls[0] == PutObject(ArtifactKey(cfg.notesPrefix, ParseKey(key).value.name),
                               SummaryJson(summarise(input.transcript).value.outputText))) &&
      (forall i, j :: 0 <= i < |calls| && 0 <= j < |calls| && calls[i].PutObject? && calls[j].UpdateItem? ==> i < j) &&
      (forall i :: 0 <= i < |calls| && calls[i].SendEmail? ==> i == |calls| - 1)
  {
    if Compiles(key, input, summarise, translate) {
      var before := Preparation(cfg, key, input, summarise, translate);
      CompilesThenPersists(cfg, key, input, summarise, translate, table);
      PersistOrder(cfg, ParseKey(key).value.name, CompiledLines(key, input, summarise, translate), table, before);
    } else if ParseKey(key).Success? && summarise(input.transcript).Success? {
      PublishCases(cfg, ParseKey(key).value.name, input, summarise(input.transcript).value, translate, table);
    }
  }

  /** In the persisting tail, the calls before it come first, then every object write precedes the update, and an email is last. */
  lemma PersistOrder(cfg: Config, name: string, document: seq<string>, table: map<string, Item>, before: seq<Call>)
    requires Preparatory(before)
    ensures var calls := Persist(cfg, name, document, table, before).calls;
      calls[..|before|] == before &&
      (forall i, j :: 0 <= i < |calls| && 0 <= j < |calls| && calls[i].PutObject? && calls[j].UpdateItem? ==> i < j) &&
      (forall i :: 0 <= i < |calls| && calls[i].SendEmail? ==> i == |calls| - 1)
  {
    PersistCalls(cfg, name, document, table, before);
    PersistedTail(cfg, name, document, table, before);
    var calls := Persist(cfg, name, document, table, before).calls;
    forall i | 0 <= i < |before|
      ensures !calls[i].UpdateItem?
    {
      assert calls[i] == before[i] && before[i] in before;
    }
  }

  /**
   * The bucket and table an invocation leaves behind: the summary artifact;
   * when it compiles, the translation artifact (for a transcript not in
   * English), the compiled artifact and the document in the record.
   */
  function Leaves(cfg: Config, key: string, input: Transcription, summarise: Summariser,
                  translate: Translator, st: Store): Store
  {
    if ParseKey(key).Failure? || summarise(input.transcript).Failure? then st
    else
      var name := ParseKey(key).value.name;
      var summary := summarise(input.transcript).value;
      var objects := st.objects[ArtifactKey(cfg.notesPrefix, name) := SummaryJson(summary.outputText)];
      if !Compiles(key, input, summarise, translate) then st.(objects := objects)
      else
        var language := LanguagePrefix(input.languageCode);
        var message := Message(CompiledLines(key, input, summarise, translate));
        var translated :=
          if language == "en" then objects
          else objects[ArtifactKey(cfg.translationsPrefix, name) :=
                         TranslationJson(translate(input.transcript, language, "en").value, language, "en")];
        Store(Upsert(st.table, RecordKey(name), CombinedSummary, message),
              translated[ArtifactKey(cfg.compiledPrefix, name) := PlainText(message)])
  }

  /** The persisting tail stores the document and writes it into the record, whatever came before. */
  lemma PersistLeaves(cfg: Config, name: string, document: seq<string>, table: map<string, Item>,
                      before: seq<Call>, st: Store)
    ensures var mid := ApplyAll(st, before);
      var message := Message(document);
      ApplyAll(st, Persist(cfg, name, document, table, before).calls) ==
      Store(Upsert(mid.table, RecordKey(name), CombinedSummary, message),
            mid.objects[ArtifactKey(cfg.compiledPrefix, name) := PlainText(message)])
  {
    var m := Message(document);
    var rk := RecordKey(name);
    var calls := Persist(cfg, name, document, table, before).calls;
    var tail := [PutObject(ArtifactKey(cfg.compiledPrefix, name), PlainText(m)), GetItem(rk), UpdateItem(rk, CombinedSummary, m)];
    PersistCalls(cfg, name, document, table, before);
    ApplyAllConcat(st, before, tail);
    ApplyAllThree(ApplyAll(st, before), tail[0], tail[1], tail[2]);
    if calls != before + tail {
      var email := calls[|before + tail|..];
      assert calls == (before + tail) + email;
      ApplyAllConcat(st, before + tail, email);
      ApplyAllOne(ApplyAll(st, before + tail), email[0]);
    }
  }

  /** The preparation stores the summary and, for a transcript not in English, the translation. */
  lemma PreparationLeaves(cfg: Config, key: string, input: Transcription, summarise: Summariser,
                          translate: Translator, st: Store)
    requires Compiles(key, input, summarise, translate)
    ensures var name := ParseKey(key).value.name;
      var language := LanguagePrefix(input.languageCode);
      var objects := st.objects[ArtifactKey(cfg.notesPrefix, name) := SummaryJson(summarise(input.transcript).value.outputText)];
      ApplyAll(st, Preparation(cfg, key, input, summarise, translate)) ==
      st.(objects := if language == "en" then objects
                     else objects[ArtifactKey(cfg.translationsPrefix, name) :=
                                    TranslationJson(translate(input.transcript, language, "en").value, language, "en")])
  {
    var before := Preparation(cfg, key, input, summarise, translate);
    if |before| == 3 {
      ApplyAllThree(st, before[0], before[1], before[2]);
    } else {
      ApplyAllOne(st, before[0]);
    }
  }

  /**
   * What an invocation leaves behind does not depend on what its lookup
   * found: the lookup, the translation request and the email change nothing.
   */
  lemma RunLeaves(cfg: Config, key: string, input: Transcription, summarise: Summariser,
                  translate: Translator, table: map<string, Item>, st: Store)
    ensures ApplyAll(st, Expected(cfg, key, input, summarise, translate, table).calls) ==
            Leaves(cfg, key, input, summarise, translate, st)
  {
    var calls := Expected(cfg, key, input, summarise, translate, table).calls;
    if Compiles(key, input, summarise, translate) {
      CompilesThenPersists(cfg, key, input, summarise, translate, table);
      PersistLeaves(cfg, ParseKey(key).value.name, CompiledLines(key, input, summarise, translate), table,
                    Preparation(cfg, key, input, summarise, translate), st);
      PreparationLeaves(cfg, key, input, summarise, translate, st);
    } else if ParseKey(key).Success? && summarise(input.transcript).Success? {
      PublishCases(cfg, ParseKey(key).value.name, input, summarise(input.transcript).value, translate, table);
      ApplyAllCons(st, calls[0], [calls[1]]);
      ApplyAllOne(Apply(st, calls[0]), calls[1]);
    }
  }

  /**
   * Running the handler again on the same transcription result (as a retried
   * event does) leaves the bucket and the table exactly as the first run left them.
   */
  lemma RerunLeavesSameState(cfg: Config, key: string, input: Transcription, summarise: Summariser,
                             translate: Translator, st: Store)
    ensures var first := ApplyAll(st, Expected(cfg, key, input, summarise, translate, st.table).calls);
      ApplyAll(first, Expected(cfg, key, input, summarise, translate, first.table).calls) == first
  {
    var first := ApplyAll(st, Expected(cfg, key, input, summarise, translate, st.table).calls);
    RunLeaves(cfg, key, input, summarise, translate, st.table, st);
    RunLeaves(cfg, key, input, summarise, translate, first.table, first);
    LeavesTwice(cfg, key, input, summarise, translate, st);
  }

  /** What an invocation leaves behind is a fixed point: leaving it again changes nothing. */
  lemma LeavesTwice(cfg: Config, key: string, input: Transcription, summarise: Summariser,
                    translate: Translator, st: Store)
    ensures var once := Leaves(cfg, key, input, summarise, translate, st);
      Leaves(cfg, key, input, summarise, translate, once) == once
  {
    if Compiles(key, input, summarise, translate) {
      var name := ParseKey(key).value.name;
      var message := Message(CompiledLines(key, input, summarise, translate));
      UpsertTwice(st.table, RecordKey(name), CombinedSummary, message);
    }
  }

  /**
   * The compiler keeps the table invariant that every owned record has an
   * upload time: it only sets the summary of a record, or creates a record
   * without an owner.
   */
  lemma CompilerKeepsOwnedRecordsTimestamped(cfg: Config, key: string, input: Transcription, summarise: Summariser,
                                             translate: Translator, st: Store)
    requires OwnedRecordsTimestamped(st.table)
    ensures OwnedRecordsTimestamped(ApplyAll(st, Expected(cfg, key, input, summarise, translate, st.table).calls).table)
  {
    RunLeaves(cfg, key, input, summarise, translate, st.table, st);
    if Compiles(key, input, summarise, translate) {
      UpsertKeepsOwnedRecordsTimestamped(st.table, RecordKey(ParseKey(key).value.name), CombinedSummary,
                                         Message(CompiledLines(key, input, summarise, translate)));
    }
  }

  /**
   * When neither the transcript, its words and labels, the summary nor the
   * translation holds a newline, the text stored as the compiled artifact
   * (and written into the record) splits back, line by line, into the
   * compiled document.
   */
  lemma StoredTextDeterminesDocument(key: string, input: Transcription, summarise: Summariser, translate: Translator)
    requires Compiles(key, input, summarise, translate)
    requires '\n' !in input.transcript && '\n' !in summarise(input.transcript).value.outputText
    requires forall i :: 0 <= i < |input.items| ==> '\n' !in input.items[i].content && '\n' !in input.items[i].speakerLabel
    requires LanguagePrefix(input.languageCode) != "en" ==>
             '\n' !in translate(input.transcript, LanguagePrefix(input.languageCode), "en").value
    ensures Split(Message(CompiledLines(key, input, summarise, translate)), '\n') == CompiledLines(key, input, summarise, translate)
  {
    var language := LanguagePrefix(input.languageCode);
    SpeakerLinesWithout(input.items, '\n');
    MessageDeterminesDocument(input.transcript, SpeakerLines(input.items), summarise(input.transcript).value,
                              if language == "en" then None else Some(translate(input.transcript, language, "en").value));
  }
}
