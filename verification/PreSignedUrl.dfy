/**
 * The upload request handler: given the file name the web client wants to
 * upload, it checks the format, writes the placeholder record of the upload,
 * optionally emails the uploader, and answers with a pre-signed PUT URL for
 * the object key made from a fresh identifier.
 */
module PreSignedUrl {
  import opened Wrappers
  import opened Text
  import opened Cloud

  /** The handler's environment variables. */
  datatype Config = Config(sourcePrefix: string, sendEmail: string, sesSender: string)

  /** What the handler reads from the request: the file name and the caller's email claim. */
  datatype Request = Request(file: string, email: string)

  /** The summary a record holds until the compiler replaces it. */
  const Placeholder := "File summary not ready yet - please try again in a few moments."

  const EmailSubject := "Transcribe: Your file has been uploaded"
  const EmailIntro := "Your file has been uploaded and is ready to be processed. File key:"
  const Rejection := "Not allowed file type"

  /** The formats accepted for upload. */
  const AllowedFormats: set<string> := {"mp3", "m4a"}

  /** The format: the second `.`-token of the file name (not the last one); none if the name has no `.`. */
  function FileFormat(file: string): (r: Result<string, Exception>)
    ensures r.Failure? <==> '.' !in file
    ensures r.Failure? ==> r.error == IndexError
    ensures r.Success? ==> '.' !in r.value
  {
    SplitHead(file, '.');
    var tokens := Split(file, '.');
    if |tokens| < 2 then Failure(IndexError) else Success(tokens[1])
  }

  /** The object key the upload goes to: `<prefix>/<id>.<format>`. */
  function ObjectKey(prefix: string, id: string, format: string): (k: string)
    ensures |k| == |prefix| + |id| + |format| + 2 && prefix <= k && k[|prefix|] == '/'
    ensures k[|prefix| + 1..|prefix| + 1 + |id|] == id
    ensures k[|k| - |format| - 1] == '.' && k[|k| - |format|..] == format
  {
    prefix + "/" + id + "." + format
  }

  /** Python's `int()` of a float: the integer part, truncated toward zero. */
  function Truncate(x: real): (n: int)
    ensures x >= 0.0 ==> 0 <= n && n as real <= x < n as real + 1.0
    ensures x < 0.0 ==> n <= 0 && n as real - 1.0 < x <= n as real
  {
    if x >= 0.0 then x.Floor else -((-x).Floor)
  }

  function DigitChar(d: nat): char
    requires d < 10
  {
    "0123456789"[d]
  }

  predicate IsDigit(c: char)
  {
    '0' <= c <= '9'
  }

  /** The decimal digits of a natural number, most significant first, without leading zeros. */
  function Digits(n: nat): (s: string)
    ensures |s| >= 1 && forall i :: 0 <= i < |s| ==> IsDigit(s[i])
    ensures s[0] == '0' ==> n == 0
    decreases n
  {
    if n < 10 then [DigitChar(n)] else Digits(n / 10) + [DigitChar(n % 10)]
  }

  /** Python's `str()` of an integer. */
  function DecimalString(n: int): (s: string)
    ensures |s| >= 1 && (s[0] == '-' <==> n < 0)
    ensures n >= 0 ==> forall i :: 0 <= i < |s| ==> IsDigit(s[i])
  {
    if n < 0 then "-" + Digits(-n) else Digits(n)
  }

  /** The value of a string of decimal digits. */
  function DigitsValue(s: string): nat
    requires forall i :: 0 <= i < |s| ==> IsDigit(s[i])
  {
    if s == [] then 0
    else
      assert IsDigit(s[|s| - 1]);
      DigitsValue(s[..|s| - 1]) * 10 + (s[|s| - 1] as int - '0' as int)
  }

  /** Reading a decimal string back: the inverse of `DecimalString`. */
  function DecimalValue(s: string): Option<int>
  {
    if |s| >= 2 && s[0] == '-' && forall i :: 1 <= i < |s| ==> IsDigit(s[i]) then Some(0 - DigitsValue(s[1..]) as int)
    else if |s| >= 1 && forall i :: 0 <= i < |s| ==> IsDigit(s[i]) then Some(DigitsValue(s))
    else None
  }

  lemma {:induction false} DigitsValueOfDigits(n: nat)
    ensures DigitsValue(Digits(n)) == n
    decreases n
  {
    if n >= 10 {
      DigitsValueOfDigits(n / 10);
      var s := Digits(n);
      assert s[..|s| - 1] == Digits(n / 10);
    }
  }

  /** The upload time written into a record reads back as the truncated clock reading. */
  lemma TimestampRoundTrip(now: real)
    ensures DecimalValue(DecimalString(Truncate(now))) == Some(Truncate(now))
  {
    var n := Truncate(now);
    if n < 0 {
      DigitsValueOfDigits(-n);
      assert DecimalString(n)[1..] == Digits(-n);
    } else {
      DigitsValueOfDigits(n);
    }
  }

  /** The placeholder record of an upload. */
  function PlaceholderRecord(id: string, request: Request, now: real): (item: Item)
    ensures item.Keys == {FileName, FileOwner, FileTimestamp, FileOriginal, CombinedSummary}
    ensures item[FileName] == id && item[FileOwner] == request.email && item[FileOriginal] == request.file
    ensures item[FileTimestamp] == DecimalString(Truncate(now)) && item[CombinedSummary] == Placeholder
  {
    map[FileName := id, FileOwner := request.email, FileTimestamp := DecimalString(Truncate(now)),
        FileOriginal := request.file, CombinedSummary := Placeholder]
  }

  /** The calls one invocation makes, in order, and how it ends: the response, or the exception raised. */
  datatype Run = Run(calls: seq<Call>, outcome: Result<Response, Exception>)

  /**
   * The reference behaviour of one invocation, given the fresh identifier,
   * the clock reading and the signer.
   */
  function Expected(cfg: Config, request: Request, id: string, now: real, presign: PreSigner): (r: Run)
    ensures r.outcome.Failure? <==> '.' !in request.file
    ensures r.calls != [] <==> FileFormat(request.file).Success? && FileFormat(request.file).value in AllowedFormats
  {
    match FileFormat(request.file)
    case Failure(e) => Run([], Failure(e))
    case Success(format) =>
      if format !in AllowedFormats then
        Run([], Success(Response(500, JsonString(Rejection), CorsHeaders)))
      else
        Accepted(cfg, request, id, now, presign, format)
  }

  /**
   * An allowed format: write the placeholder record, email the uploader when
   * emailing is on, then sign the upload URL; a signing error is answered 500
   * with its message.
   */
  function Accepted(cfg: Config, request: Request, id: string, now: real, presign: PreSigner, format: string): (r: Run)
    ensures 2 <= |r.calls| <= 3 && r.calls[0].PutItem? && r.calls[|r.calls| - 1] == PresignPut(ObjectKey(cfg.sourcePrefix, id, format))
    ensures r.outcome.Success? && r.outcome.value.statusCode in {200, 500} && r.outcome.value.headers == CorsHeaders
    ensures r.outcome.value.statusCode == 200 <==> presign(ObjectKey(cfg.sourcePrefix, id, format)).Success?
  {
    var key := ObjectKey(cfg.sourcePrefix, id, format);
    var record := PutItem(PlaceholderRecord(id, request, now));
    var email := if cfg.sendEmail == "true"
                 then [SendEmail(cfg.sesSender, request.email, EmailSubject, EmailIntro + id)]
                 else [];
    var calls := [record] + email + [PresignPut(key)];
    var response := match presign(key)
      case Failure(message) => Response(500, JsonString(message), CorsHeaders)
      case Success(url) => Response(200, JsonUpload(key, url), CorsHeaders);
    Run(calls, Success(response))
  }

  /** One invocation of the upload request handler. */
  method HandleUploadRequest(services: Services, cfg: Config, request: Request, id: string, now: real,
                             presign: PreSigner) returns (outcome: Result<Response, Exception>)
    requires services.Valid()
    modifies services
    ensures services.Valid()
    ensures var run := Expected(cfg, request, id, now, presign);
      outcome == run.outcome && services.log == old(services.log) + run.calls
  {
    var tokens := Split(request.file, '.');
    if |tokens| < 2 {
      return Failure(IndexError);
    }
    var format := tokens[1];
    if format in AllowedFormats {
      var response := Accept(services, cfg, request, id, now, presign, format);
      return Success(response);
    }
    return Success(Response(500, JsonString(Rejection), CorsHeaders));
  }

  /** The handler for an allowed format: the record, the optional email and the signed URL. */
  method Accept(services: Services, cfg: Config, request: Request, id: string, now: real, presign: PreSigner,
                format: string) returns (response: Response)
    requires services.Valid()
    modifies services
    ensures services.Valid()
    ensures var run := Accepted(cfg, request, id, now, presign, format);
      Success(response) == run.outcome && services.log == old(services.log) + run.calls
  {
    var key := ObjectKey(cfg.sourcePrefix, id, format);
    var timestamp := DecimalString(Truncate(now));
    ghost var record := Call.PutItem(PlaceholderRecord(id, request, now));
    services.PutItem(map[FileName := id, FileOwner := request.email, FileTimestamp := timestamp,
                         FileOriginal := request.file, CombinedSummary := Placeholder]);
    ghost var email: seq<Call> := [];
    if cfg.sendEmail == "true" {
      services.SendEmail(cfg.sesSender, request.email, EmailSubject, EmailIntro + id);
      email := [SendEmail(cfg.sesSender, request.email, EmailSubject, EmailIntro + id)];
    }
    assert services.log == old(services.log) + ([record] + email);
    var signed := services.PresignPut(presign, key);
    assert Accepted(cfg, request, id, now, presign, format).calls == [record] + email + [Call.PresignPut(key)];
    if signed.Failure? {
      response := Response(500, JsonString(signed.error), CorsHeaders);
    } else {
      response := Response(200, JsonUpload(key, signed.value), CorsHeaders);
    }
  }

  /** The format of `<name>.<format>`, and of `<name>.<format>.<more>`, is the token after the first `.`. */
  lemma FileFormatOfName(name: string, format: string, more: string)
    requires '.' !in name && '.' !in format
    ensures FileFormat(name + "." + format) == Success(format)
    ensures FileFormat(name + "." + format + "." + more) == Success(format)
  {
    assert name + "." + format == name + ['.'] + format;
    SplitAtFirst(name, format, '.');
    SplitWithout(format, '.');
    assert name + "." + format + "." + more == name + ['.'] + (format + ['.'] + more);
    SplitAtFirst(name, format + ['.'] + more, '.');
    SplitAtFirst(format, more, '.');
  }

  /** A name with two dots is judged by its middle token: `talk.mp3.wav` is accepted as an mp3 upload, `talk.wav.mp3` is not. */
  lemma MiddleTokenDecides(cfg: Config, email: string, id: string, now: real, presign: PreSigner)
    ensures Expected(cfg, Request("talk.mp3.wav", email), id, now, presign).calls != []
    ensures Expected(cfg, Request("talk.wav.mp3", email), id, now, presign) ==
            Run([], Success(Response(500, JsonString(Rejection), CorsHeaders)))
  {
    assert "talk.mp3.wav" == "talk" + "." + "mp3" + "." + "wav";
    FileFormatOfName("talk", "mp3", "wav");
    assert "talk.wav.mp3" == "talk" + "." + "wav" + "." + "mp3";
    FileFormatOfName("talk", "wav", "mp3");
    assert "wav" !in AllowedFormats;
  }

  /**
   * The handler answers 200 with the object key and its URL exactly when the
   * file name has a `.`, its format is allowed and the signer succeeds; the
   * key is `<prefix>/<id>.<format>`. Every response carries the CORS headers.
   */
  lemma AcceptedIff(cfg: Config, request: Request, id: string, now: real, presign: PreSigner)
    ensures var outcome := Expected(cfg, request, id, now, presign).outcome;
      (outcome.Success? ==> outcome.value.headers == CorsHeaders && outcome.value.statusCode in {200, 500}) &&
      (outcome.Success? && outcome.value.statusCode == 200 <==>
         FileFormat(request.file).Success? && FileFormat(request.file).value in AllowedFormats &&
         presign(ObjectKey(cfg.sourcePrefix, id, FileFormat(request.file).value)).Success?) &&
      (outcome.Success? && outcome.value.statusCode == 200 ==>
         var key := ObjectKey(cfg.sourcePrefix, id, FileFormat(request.file).value);
         outcome.value.body == JsonUpload(key, presign(key).value))
  {
  }

  /**
   * A file name without a `.` raises before any call; a format that is not
   * allowed is answered 500 with "Not allowed file type" and nothing written
   * or sent.
   */
  lemma RejectionWritesNothing(cfg: Config, request: Request, id: string, now: real, presign: PreSigner)
    requires FileFormat(request.file).Failure? || FileFormat(request.file).value !in AllowedFormats
    ensures var run := Expected(cfg, request, id, now, presign);
      run.calls == [] &&
      run.outcome == if '.' !in request.file then Failure(IndexError)
                     else Success(Response(500, JsonString(Rejection), CorsHeaders))
  {
  }

  /**
   * An allowed format writes the placeholder record first and signs the URL
   * last, so the record stays whether or not signing fails; the record is
   * keyed by the fresh identifier, owned by the caller and timestamped, so
   * the table keeps every owned record timestamped.
   */
  lemma AcceptedWritesRecord(cfg: Config, request: Request, id: string, now: real, presign: PreSigner, st: Store)
    requires FileFormat(request.file).Success? && FileFormat(request.file).value in AllowedFormats
    ensures var run := Expected(cfg, request, id, now, presign);
      var after := ApplyAll(st, run.calls);
      |run.calls| >= 2 && run.calls[0] == PutItem(PlaceholderRecord(id, request, now)) &&
      run.calls[|run.calls| - 1] == PresignPut(ObjectKey(cfg.sourcePrefix, id, FileFormat(request.file).value)) &&
      after == st.(table := st.table[id := PlaceholderRecord(id, request, now)]) &&
      (OwnedRecordsTimestamped(st.table) ==> OwnedRecordsTimestamped(after.table))
  {
    var run := Expected(cfg, request, id, now, presign);
    var record := PlaceholderRecord(id, request, now);
    if |run.calls| == 3 {
      assert run.calls == [run.calls[0], run.calls[1], run.calls[2]];
      ApplyAllThree(st, run.calls[0], run.calls[1], run.calls[2]);
    } else {
      assert run.calls == [run.calls[0]] + [run.calls[1]];
      ApplyAllCons(st, run.calls[0], [run.calls[1]]);
      ApplyAllOne(Apply(st, run.calls[0]), run.calls[1]);
    }
  }

  /**
   * The upload email goes out exactly when the format is allowed and
   * emailing is on; it goes to the caller, after the record, and its text
   * ends with the fresh identifier.
   */
  lemma EmailIff(cfg: Config, request: Request, id: string, now: real, presign: PreSigner)
    ensures var calls := Expected(cfg, request, id, now, presign).calls;
      ((exists c :: c in calls && c.SendEmail?) <==>
         FileFormat(request.file).Success? && FileFormat(request.file).value in AllowedFormats &&
         cfg.sendEmail == "true") &&
      (forall i :: 0 <= i < |calls| && calls[i].SendEmail? ==>
         i == 1 && calls[i].recipient == request.email && calls[i].subject == EmailSubject &&
         calls[i].message == EmailIntro + id && id <= calls[i].message[|EmailIntro|..])
  {
    var calls := Expected(cfg, request, id, now, presign).calls;
    if |calls| == 3 {
      assert calls[1] in calls;
    }
  }
}
