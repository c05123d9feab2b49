/**
 * The AWS services the handlers talk to, as one object: the uploads table
 * (DynamoDB), the application bucket (S3), and a log of every service call in
 * the order it was made, including the calls that change nothing (a lookup,
 * a translation request, an email). The HTTP response shape that API Gateway
 * returns to the web client is here too.
 */
module Cloud {
  import opened Wrappers

  /** A record of the uploads table: attribute name to string value. */
  type Item = map<string, string>

  /** The partition key attribute of the uploads table. */
  const FileName := "file_name"

  /** The other attributes of an upload's record. */
  const FileOwner := "file_owner"
  const FileTimestamp := "file_timestamp"
  const FileOriginal := "file_original"
  const CombinedSummary := "combined_summary"

  /**
   * Every record that has an owner also has an upload time; the uploads
   * listing sorts an owner's records by that time.
   */
  predicate OwnedRecordsTimestamped(table: map<string, Item>)
  {
    forall k :: k in table && FileOwner in table[k] ==> FileTimestamp in table[k]
  }

  /** What an object in the bucket holds. */
  datatype Body =
    | SummaryJson(outputText: string)   // the JSON dump of the summarisation results
    | TranslationJson(translatedText: string, sourceLanguage: string, targetLanguage: string)  // the JSON dump of the translation response
    | PlainText(text: string)

  /** One call to a service. */
  datatype Call =
    | PutObject(key: string, body: Body)
    | TranslateText(text: string, sourceLanguage: string, targetLanguage: string)
    | GetItem(key: string)
    | PutItem(item: Item)
    | UpdateItem(key: string, attribute: string, value: string)
    | SendEmail(sender: string, recipient: string, subject: string, message: string)
    | PresignPut(key: string)   // the S3 client signing a PUT URL for `key`

  /** The durable state: the table keyed by `file_name` and the bucket keyed by object key. */
  datatype Store = Store(table: map<string, Item>, objects: map<string, Body>)

  /** A translation service: text, source and target language to the translated text or an error message. */
  type Translator = (string, string, string) -> Result<string, string>

  /** A URL signer: the object key to the pre-signed PUT URL, or the message of the client error raised. */
  type PreSigner = string -> Result<string, string>

  /**
   * `update_item` with `set <attribute> = value`: sets one attribute of the
   * record under `key`, creating the record (holding only its key) when it
   * does not exist yet.
   */
  function Upsert(table: map<string, Item>, key: string, attribute: string, value: string): (t: map<string, Item>)
    ensures t.Keys == table.Keys + {key}
    ensures attribute in t[key] && t[key][attribute] == value
    ensures forall k :: k in table && k != key ==> t[k] == table[k]
  {
    var base := if key in table then table[key] else map[FileName := key];
    table[key := base[attribute := value]]
  }

  /**
   * The record `update_item` leaves: an existing record keeps its other
   * attributes; a new one holds only its key and the attribute set.
   */
  lemma UpsertRecord(table: map<string, Item>, key: string, attribute: string, value: string)
    ensures var t := Upsert(table, key, attribute, value);
      (key in table ==>
         t[key].Keys == table[key].Keys + {attribute} &&
         forall a :: a in table[key] && a != attribute ==> t[key][a] == table[key][a]) &&
      (key !in table ==>
         t[key].Keys == {FileName, attribute} && (attribute != FileName ==> t[key][FileName] == key))
  {
  }

  /** Setting an attribute to the value it already has changes nothing: `update_item` is idempotent. */
  lemma UpsertTwice(table: map<string, Item>, key: string, attribute: string, value: string)
    ensures var once := Upsert(table, key, attribute, value);
      Upsert(once, key, attribute, value) == once
  {
    var once := Upsert(table, key, attribute, value);
    assert once[key][attribute := value] == once[key];
  }

  /** An update that does not set an owner keeps every owned record timestamped. */
  lemma UpsertKeepsOwnedRecordsTimestamped(table: map<string, Item>, key: string, attribute: string, value: string)
    requires OwnedRecordsTimestamped(table)
    requires attribute != FileOwner
    ensures OwnedRecordsTimestamped(Upsert(table, key, attribute, value))
  {
    UpsertRecord(table, key, attribute, value);
  }

  /** The effect of one call on the durable state. */
  function Apply(st: Store, c: Call): Store
  {
    match c
    case PutObject(key, body) => st.(objects := st.objects[key := body])
    case PutItem(item) => if FileName in item then st.(table := st.table[item[FileName] := item]) else st
    case UpdateItem(key, attribute, value) => st.(table := Upsert(st.table, key, attribute, value))
    case _ => st
  }

  /** The effect of a sequence of calls, made one after the other. */
  function ApplyAll(st: Store, calls: seq<Call>): Store
  {
    if calls == [] then st else Apply(ApplyAll(st, calls[..|calls| - 1]), calls[|calls| - 1])
  }

  lemma ApplyAllSnoc(st: Store, calls: seq<Call>, c: Call)
    ensures ApplyAll(st, calls + [c]) == Apply(ApplyAll(st, calls), c)
  {
    assert (calls + [c])[..|calls|] == calls;
  }

  lemma ApplyAllCons(st: Store, c: Call, rest: seq<Call>)
    ensures ApplyAll(st, [c] + rest) == ApplyAll(Apply(st, c), rest)
  {
    ApplyAllConcat(st, [c], rest);
    ApplyAllOne(st, c);
  }

  lemma ApplyAllOne(st: Store, c: Call)
    ensures ApplyAll(st, [c]) == Apply(st, c)
  {
    ApplyAllSnoc(st, [], c);
    assert [] + [c] == [c];
  }

  lemma ApplyAllThree(st: Store, a: Call, b: Call, c: Call)
    ensures ApplyAll(st, [a, b, c]) == Apply(Apply(Apply(st, a), b), c)
  {
    ApplyAllOne(st, a);
    ApplyAllSnoc(st, [a], b);
    ApplyAllSnoc(st, [a, b], c);
    assert [a] + [b] == [a, b];
    assert [a, b] + [c] == [a, b, c];
  }

  lemma {:induction false} ApplyAllConcat(st: Store, first: seq<Call>, second: seq<Call>)
    ensures ApplyAll(st, first + second) == ApplyAll(ApplyAll(st, first), second)
    decreases |second|
  {
    if second == [] {
      assert first + second == first;
    } else {
      var init := second[..|second| - 1];
      var last := second[|second| - 1];
      assert first + second == (first + init) + [last];
      assert second == init + [last];
      ApplyAllSnoc(st, first + init, last);
      ApplyAllSnoc(ApplyAll(st, first), init, last);
      ApplyAllConcat(st, first, init);
    }
  }

  /** The response a handler gives API Gateway; `body` is the value that is JSON-encoded. */
  datatype Response = Response(statusCode: int, body: Json, headers: map<string, string>)

  /** The values the handlers JSON-encode as response bodies. */
  datatype Json =
    | JsonString(text: string)
    | JsonUpload(key: string, preSignedUrl: string)
    | JsonItems(items: seq<Item>)

  /** The headers of every response. */
  const CorsHeaders: map<string, string> :=
    map["Content-Type" := "application/json", "Access-Control-Allow-Origin" := "*"]

  /**
   * The services as one object. The durable state is always what the logged
   * calls made of the state the services started from.
   */
  class Services {
    var table: map<string, Item>
    var objects: map<string, Body>
    ghost var log: seq<Call>
    ghost const initial: Store

    /** The durable state. */
    function State(): Store
      reads this
    {
      Store(table, objects)
    }

    ghost predicate Valid()
      reads this
    {
      State() == ApplyAll(initial, log)
    }

    constructor (table: map<string, Item>, objects: map<string, Body>)
      ensures Valid() && State() == Store(table, objects) && initial == State() && log == []
    {
      this.table := table;
      this.objects := objects;
      log := [];
      initial := Store(table, objects);
    }

    method PutObject(key: string, body: Body)
      requires Valid()
      modifies this
      ensures Valid() && log == old(log) + [Call.PutObject(key, body)]
      ensures table == old(table) && objects == old(objects)[key := body]
    {
      ApplyAllSnoc(initial, log, Call.PutObject(key, body));
      objects := objects[key := body];
      log := log + [Call.PutObject(key, body)];
    }

    method TranslateText(translate: Translator, text: string, source: string, target: string) returns (r: Result<string, string>)
      requires Valid()
      modifies this
      ensures Valid() && log == old(log) + [Call.TranslateText(text, source, target)]
      ensures r == translate(text, source, target)
      ensures State() == old(State())
    {
      ApplyAllSnoc(initial, log, Call.TranslateText(text, source, target));
      r := translate(text, source, target);
      log := log + [Call.TranslateText(text, source, target)];
    }

    method GetItem(key: string) returns (item: Option<Item>)
      requires Valid()
      modifies this
      ensures Valid() && log == old(log) + [Call.GetItem(key)]
      ensures item == if key in table then Some(table[key]) else None
      ensures State() == old(State())
    {
      ApplyAllSnoc(initial, log, Call.GetItem(key));
      item := if key in table then Some(table[key]) else None;
      log := log + [Call.GetItem(key)];
    }

    method PutItem(item: Item)
      requires Valid()
      requires FileName in item
      modifies this
      ensures Valid() && log == old(log) + [Call.PutItem(item)]
      ensures table == old(table)[item[FileName] := item] && objects == old(objects)
    {
      ApplyAllSnoc(initial, log, Call.PutItem(item));
      table := table[item[FileName] := item];
      log := log + [Call.PutItem(item)];
    }

    method UpdateItem(key: string, attribute: string, value: string)
      requires Valid()
      modifies this
      ensures Valid() && log == old(log) + [Call.UpdateItem(key, attribute, value)]
      ensures table == Upsert(old(table), key, attribute, value) && objects == old(objects)
    {
      ApplyAllSnoc(initial, log, Call.UpdateItem(key, attribute, value));
      table := Upsert(table, key, attribute, value);
      log := log + [Call.UpdateItem(key, attribute, value)];
    }

    method SendEmail(sender: string, recipient: string, subject: string, body: string)
      requires Valid()
      modifies this
      ensures Valid() && log == old(log) + [Call.SendEmail(sender, recipient, subject, body)]
      ensures State() == old(State())
    {
      ApplyAllSnoc(initial, log, Call.SendEmail(sender, recipient, subject, body));
      log := log + [Call.SendEmail(sender, recipient, subject, body)];
    }

    method PresignPut(presign: PreSigner, key: string) returns (r: Result<string, string>)
      requires Valid()
      modifies this
      ensures Valid() && log == old(log) + [Call.PresignPut(key)]
      ensures r == presign(key)
      ensures State() == old(State())
    {
      ApplyAllSnoc(initial, log, Call.PresignPut(key));
      r := presign(key);
      log := log + [Call.PresignPut(key)];
    }
  }
}
