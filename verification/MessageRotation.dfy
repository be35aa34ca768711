/** The storage formats of message bodies and their migration to a target key. */
module MessageRotation {
  import opened Hashing
  import opened KeyIds
  import opened Maintenance

  const MAX_TOKEN_LENGTH := 524288
  const V2_PREFIX := "enc:v2:"
  const RESERVED_PREFIX := "enc:"
  const V2_FIELD := "_enc_v2"
  const LEGACY_FIELD := "_enc_v1"
  const RESERVED_FIELD := "_enc_"

  datatype Value = Text(text: string) | Object(fields: map<string, Value>) | Other(id: nat)

  type Document = map<string, Value>

  /** Version, time, vector, padded ciphertext and signature, in base64. */
  function FernetLength(bytes: nat): nat {
    var raw := 1 + 8 + 16 + 16 * (bytes / 16 + 1) + 32;
    4 * ((raw + 2) / 3)
  }

  /** Fernet under the ring's keys and the legacy key, and JSON text. */
  datatype Crypto = Crypto(
    keys: set<string>,
    encrypt: (string, string, int) -> string,
    decrypt: (string, string) -> Option<string>,
    decryptLegacy: string -> Option<string>,
    looksLegacy: string -> bool,
    utf8Length: string -> nat,
    dumps: Document -> string,
    loads: string -> Option<Value>)
  {
    /** Decryption undoes encryption, a token is as long as Fernet makes it for its
        plaintext, one that decrypts is no shorter (lenient base64 skips extra characters),
        and JSON text reads back to the document it was written from. */
    ghost predicate Lawful() {
      && (forall k, p, salt :: decrypt(k, encrypt(k, p, salt)) == Some(p))
      && (forall k, p, salt :: |encrypt(k, p, salt)| == FernetLength(utf8Length(p)))
      && (forall k, token :: decrypt(k, token).Some? ==> |token| >= FernetLength(utf8Length(decrypt(k, token).value)))
      && (forall token :: decryptLegacy(token).Some? ==> |token| >= FernetLength(utf8Length(decryptLegacy(token).value)))
      && (forall p :: |p| <= utf8Length(p))
      && (forall d :: loads(dumps(d)) == Some(Object(d)))
    }
  }

  /** The longest plaintext whose token the parser accepts. */
  const MAX_PLAIN_BYTES := 393151

  lemma FernetBound(bytes: nat)
    ensures 0 < FernetLength(bytes) && (FernetLength(bytes) <= MAX_TOKEN_LENGTH <==> bytes <= MAX_PLAIN_BYTES)
  {
  }

  predicate TokenOk(token: string) { 0 < |token| <= MAX_TOKEN_LENGTH }

  predicate LooksLegacy(c: Crypto, value: string) { TokenOk(value) && c.looksLegacy(value) }

  datatype Envelope = NotV2 | BadV2 | V2(keyId: string, token: string)

  datatype Format = Unknown | Current(keyId: string) | Legacy | Plain

  datatype Content = TextContent(text: string) | JsonContent(document: Document)

  // ----- text bodies -----

  predicate StartsWith(s: string, prefix: string) { |prefix| <= |s| && s[..|prefix|] == prefix }

  function FirstColon(s: string): nat {
    if s == [] || s[0] == ':' then 0 else 1 + FirstColon(s[1..])
  }

  lemma {:induction false} FirstColonFinds(k: string, rest: string)
    requires forall i :: 0 <= i < |k| ==> k[i] != ':'
    ensures FirstColon(k + [':'] + rest) == |k|
  {
    var s := k + [':'] + rest;
    if k != [] {
      assert s[1..] == k[1..] + [':'] + rest;
      FirstColonFinds(k[1..], rest);
    }
  }

  function ParseText(value: string): Envelope {
    if !StartsWith(value, V2_PREFIX) then NotV2
    else
      var rest := value[|V2_PREFIX|..];
      var n := FirstColon(rest);
      if n >= |rest| then BadV2
      else if !ValidKeyId(rest[..n]) || !TokenOk(rest[n + 1..]) then BadV2
      else V2(rest[..n], rest[n + 1..])
  }

  function TextEnvelope(keyId: string, token: string): string {
    V2_PREFIX + (keyId + [':'] + token)
  }

  function TextFormat(c: Crypto, value: string): Format {
    match ParseText(value)
    case V2(keyId, _) => Current(keyId)
    case BadV2 => Unknown
    case NotV2 => if StartsWith(value, RESERVED_PREFIX) then Unknown else if LooksLegacy(c, value) then Legacy else Plain
  }

  function DecryptToken(c: Crypto, keyId: string, token: string): Option<string> {
    if keyId in c.keys then c.decrypt(keyId, token) else None
  }

  function ReadText(c: Crypto, allowPlain: bool, value: string): Option<string> {
    match ParseText(value)
    case V2(keyId, token) => DecryptToken(c, keyId, token)
    case BadV2 => None
    case NotV2 =>
      if StartsWith(value, RESERVED_PREFIX) then None
      else if LooksLegacy(c, value) then c.decryptLegacy(value)
      else if allowPlain then Some(value) else None
  }

  /** A well-made envelope parses back; one whose token is too long is not even recognised. */
  lemma TextEnvelopeParses(keyId: string, token: string)
    requires ValidKeyId(keyId) && token != []
    ensures ParseText(TextEnvelope(keyId, token)) == if |token| <= MAX_TOKEN_LENGTH then V2(keyId, token) else BadV2
  {
    hide FirstColon;
    var value := TextEnvelope(keyId, token);
    var rest := keyId + [':'] + token;
    assert value[..|V2_PREFIX|] == V2_PREFIX && value[|V2_PREFIX|..] == rest;
    FirstColonFinds(keyId, token);
    assert rest[..|keyId|] == keyId && rest[|keyId| + 1..] == token;
  }

  // ----- JSON bodies -----

  function ParseJson(d: Document): Envelope {
    if V2_FIELD !in d then NotV2
    else if d.Keys != {V2_FIELD} || !d[V2_FIELD].Object? then BadV2
    else
      var e := d[V2_FIELD].fields;
      if e.Keys != {"kid", "token"} || !e["kid"].Text? || !e["token"].Text? then BadV2
      else if !ValidKeyId(e["kid"].text) || !TokenOk(e["token"].text) then BadV2
      else V2(e["kid"].text, e["token"].text)
  }

  function JsonEnvelope(keyId: string, token: string): Document {
    map[V2_FIELD := Object(map["kid" := Text(keyId), "token" := Text(token)])]
  }

  predicate HasReservedField(d: Document) {
    exists k :: k in d && StartsWith(k, RESERVED_FIELD)
  }

  predicate LegacyJson(c: Crypto, d: Document) {
    d.Keys == {LEGACY_FIELD} && d[LEGACY_FIELD].Text? && LooksLegacy(c, d[LEGACY_FIELD].text)
  }

  function JsonFormat(c: Crypto, d: Document): Format {
    match ParseJson(d)
    case V2(keyId, _) => Current(keyId)
    case BadV2 => Unknown
    case NotV2 =>
      if LEGACY_FIELD in d then (if LegacyJson(c, d) then Legacy else Unknown)
      else if HasReservedField(d) then Unknown else Plain
  }

  function LoadDocument(c: Crypto, raw: Option<string>): Option<Document> {
    if raw.None? then None else
    match c.loads(raw.value)
    case Some(Object(d)) => Some(d)
    case _ => None
  }

  function ReadJson(c: Crypto, allowPlain: bool, d: Document): Option<Document> {
    match ParseJson(d)
    case V2(keyId, token) => LoadDocument(c, DecryptToken(c, keyId, token))
    case BadV2 => None
    case NotV2 =>
      if LEGACY_FIELD in d then (if LegacyJson(c, d) then LoadDocument(c, c.decryptLegacy(d[LEGACY_FIELD].text)) else None)
      else if HasReservedField(d) then None
      else if allowPlain then Some(d) else None
  }

  lemma JsonEnvelopeParses(keyId: string, token: string)
    requires ValidKeyId(keyId) && token != []
    ensures ParseJson(JsonEnvelope(keyId, token)) == if |token| <= MAX_TOKEN_LENGTH then V2(keyId, token) else BadV2
  {
    assert "kid" != "token";
    var e := map["kid" := Text(keyId), "token" := Text(token)];
    assert e.Keys == {"kid", "token"};
    assert JsonEnvelope(keyId, token).Keys == {V2_FIELD};
  }

  // ----- rows -----

  datatype Message = TextRow(value: Option<string>) | JsonRow(payload: Option<Document>) | OtherRow

  datatype Tool = Tool(c: Crypto, target: string, rotate: bool, allowPlain: bool) {
    ghost predicate Valid() { c.Lawful() && target in c.keys && ValidKeyId(target) }
  }

  function FormatOf(c: Crypto, m: Message): Format {
    match m
    case TextRow(Some(v)) => TextFormat(c, v)
    case JsonRow(Some(d)) => JsonFormat(c, d)
    case _ => Unknown
  }

  function Read(t: Tool, m: Message): Option<Content> {
    match m
    case TextRow(Some(v)) => (match ReadText(t.c, t.allowPlain, v) case Some(p) => Some(TextContent(p)) case None => None)
    case JsonRow(Some(d)) => (match ReadJson(t.c, t.allowPlain, d) case Some(p) => Some(JsonContent(p)) case None => None)
    case _ => None
  }

  /** The text that is encrypted for a content. */
  function Serialized(c: Crypto, content: Content): string {
    match content
    case TextContent(p) => p
    case JsonContent(d) => c.dumps(d)
  }

  function Reencrypted(t: Tool, content: Content, salt: int): Message {
    var token := t.c.encrypt(t.target, Serialized(t.c, content), salt);
    match content
    case TextContent(_) => TextRow(Some(TextEnvelope(t.target, token)))
    case JsonContent(_) => JsonRow(Some(JsonEnvelope(t.target, token)))
  }

  predicate UpToDate(t: Tool, m: Message) {
    match FormatOf(t.c, m)
    case Current(keyId) => !t.rotate || keyId == t.target
    case _ => false
  }

  function ProcessMessage(t: Tool, m: Message, salt: int): Option<Message> {
    if FormatOf(t.c, m).Unknown? then None
    else if UpToDate(t, m) then Some(m)
    else match Read(t, m)
         case None => None
         case Some(content) => Some(Reencrypted(t, content, salt))
  }

  /** The content is short enough for its token to be read again. */
  predicate Fits(t: Tool, content: Content) {
    t.c.utf8Length(Serialized(t.c, content)) <= MAX_PLAIN_BYTES
  }

  /** Rewriting keeps a message readable exactly when its token fits the length the parser
      accepts; the writer does not check. */
  lemma ReencryptedReadsBack(t: Tool, content: Content, salt: int)
    requires t.Valid()
    ensures Fits(t, content) ==> FormatOf(t.c, Reencrypted(t, content, salt)) == Current(t.target)
    ensures !Fits(t, content) ==> FormatOf(t.c, Reencrypted(t, content, salt)).Unknown?
    ensures Read(t, Reencrypted(t, content, salt)) == Some(content) <==> Fits(t, content)
  {
    hide ParseText, ParseJson, TextEnvelope, JsonEnvelope, ValidKeyId, FernetLength;
    var token := t.c.encrypt(t.target, Serialized(t.c, content), salt);
    FernetBound(t.c.utf8Length(Serialized(t.c, content)));
    TextEnvelopeParses(t.target, token);
    JsonEnvelopeParses(t.target, token);
  }

  /** Up to date already, unreadable anyway, or short enough to be rewritten. */
  predicate Rewritable(t: Tool, m: Message) {
    UpToDate(t, m) || Read(t, m).None? || Fits(t, Read(t, m).value)
  }

  lemma ParsedTokenOk(value: string)
    ensures ParseText(value).V2? ==> TokenOk(ParseText(value).token)
  {
  }

  /** A text already stored as a token was short enough before and stays so. */
  lemma StoredTextFits(t: Tool, m: Message)
    requires t.Valid() && m.TextRow? && (FormatOf(t.c, m).Current? || FormatOf(t.c, m).Legacy?)
    ensures Rewritable(t, m)
  {
    hide FernetLength, ParseText, StartsWith;
    if Read(t, m).Some? {
      if m.value.Some? { ParsedTokenOk(m.value.value); }
      FernetBound(t.c.utf8Length(Read(t, m).value.text));
    }
  }

  /** The tool passes a row exactly when it is up to date or can be read. */
  lemma ProcessSucceeds(t: Tool, m: Message, salt: int)
    ensures ProcessMessage(t, m, salt).Some? <==> UpToDate(t, m) || Read(t, m).Some?
  {
    hide FormatOf, Read, Reencrypted;
    if FormatOf(t.c, m).Unknown? {
      UnknownIsUnreadable(t, m);
    }
  }

  lemma ProcessKeepsContent(t: Tool, m: Message, salt: int)
    requires t.Valid() && ProcessMessage(t, m, salt).Some? && Rewritable(t, m)
    ensures var m' := ProcessMessage(t, m, salt).value;
            Read(t, m') == Read(t, m) && UpToDate(t, m')
  {
    hide FormatOf, Read, Reencrypted, Fits;
    if !UpToDate(t, m) && Read(t, m).Some? {
      ReencryptedReadsBack(t, Read(t, m).value, salt);
    }
  }

  /** Conversely a row that is not rewritable is committed in a form nothing reads, and
      every later run stops at it. */
  lemma TooLongBecomesUnreadable(t: Tool, m: Message, salt: int, again: int)
    requires t.Valid() && ProcessMessage(t, m, salt).Some? && !Rewritable(t, m)
    ensures var m' := ProcessMessage(t, m, salt).value;
            Read(t, m').None? && ProcessMessage(t, m', again).None?
  {
    hide FormatOf, Reencrypted, Fits;
    var content := Read(t, m).value;
    ReencryptedReadsBack(t, content, salt);
    UnknownIsUnreadable(t, Reencrypted(t, content, salt));
  }

  /** For instance: a plaintext row of 600000 letters, stored before publishing was capped. */
  lemma LongPlaintextLost(t: Tool, salt: int)
    requires t.Valid() && t.allowPlain
    ensures var value := seq(600000, i => 'a');
            var m := TextRow(Some(value));
            && Read(t, m) == Some(TextContent(value))
            && ProcessMessage(t, m, salt).Some? && Read(t, ProcessMessage(t, m, salt).value).None?
  {
    var value := seq(600000, i => 'a');
    var m := TextRow(Some(value));
    assert value[0] != V2_PREFIX[0] && value[0] != RESERVED_PREFIX[0];
    assert value[..7][0] == 'a' && value[..4][0] == 'a';
    assert FormatOf(t.c, m).Plain? && Read(t, m) == Some(TextContent(value));
    assert t.c.utf8Length(value) >= |value|;
    TooLongBecomesUnreadable(t, m, salt, salt);
  }

  lemma UnknownIsUnreadable(t: Tool, m: Message)
    requires FormatOf(t.c, m).Unknown?
    ensures Read(t, m).None?
  {
    hide ParseText, ParseJson;
  }

  // ----- as a maintenance pass -----

  /** Messages have no file beside their row. */
  datatype NoFile = NoFile

  function Migrate(t: Tool, m: Message, salt: int): Option<(Message, NoFile)> {
    match ProcessMessage(t, m, salt)
    case None => None
    case Some(m') => Some((m', NoFile))
  }

  function MessageKind(t: Tool): Kind<Message, NoFile, int, Option<Content>> {
    Kind((m: Message, f: NoFile, salt: int) => Migrate(t, m, salt), (m: Message, f: NoFile) => Read(t, m),
         (m: Message, f: NoFile) => Rewritable(t, m), (m: Message, f: NoFile) => UpToDate(t, m))
  }

  lemma MessagesKeepContent(t: Tool)
    requires t.Valid()
    ensures Preserves(MessageKind(t)) && Settles(MessageKind(t))
  {
    hide Read, UpToDate, FormatOf;
    var k := MessageKind(t);
    forall m, f, salt | k.process(m, f, salt).Some? && k.safe(m, f)
      ensures KeepsContent(k, m, f, k.process(m, f, salt).value)
    {
      ProcessKeepsContent(t, m, salt);
    }
    forall m, f, salt | k.done(m, f)
      ensures k.process(m, f, salt) == Some((m, f))
    {
      UpToDateStays(t, m, salt);
      assert f == NoFile;
    }
  }

  lemma UpToDateStays(t: Tool, m: Message, salt: int)
    requires UpToDate(t, m)
    ensures ProcessMessage(t, m, salt) == Some(m)
  {
    hide FormatOf;
  }

  /** Up to date, or at least readable. */
  predicate CanPass(t: Tool, m: Message) { UpToDate(t, m) || Read(t, m).Some? }

  lemma ProcessableExactly(t: Tool, m: Message)
    ensures Processable(MessageKind(t), m, NoFile) <==> CanPass(t, m)
  {
    hide Read, UpToDate, ProcessMessage;
    var k := MessageKind(t);
    ProcessSucceeds(t, m, 0);
    if CanPass(t, m) {
      assert k.process(m, NoFile, 0).Some?;
    }
    forall salt | k.process(m, NoFile, salt).Some?
      ensures CanPass(t, m)
    {
      ProcessSucceeds(t, m, salt);
    }
  }

  predicate AllCanPass(t: Tool, messages: seq<Message>) {
    forall i :: 0 <= i < |messages| ==> CanPass(t, messages[i])
  }

  lemma AllProcessableExactly(t: Tool, messages: seq<Message>, files: seq<NoFile>)
    requires |files| == |messages|
    ensures AllProcessable(MessageKind(t), messages, files) <==> AllCanPass(t, messages)
  {
    hide Processable, CanPass;
    forall i | 0 <= i < |messages|
      ensures Processable(MessageKind(t), messages[i], files[i]) <==> CanPass(t, messages[i])
    {
      assert files[i] == NoFile;
      ProcessableExactly(t, messages[i]);
    }
  }

  /** Some run completes, crashes allowed, if and only if every row is up to date or readable. */
  lemma MigrationCompletesExactly(t: Tool, messages: seq<Message>, files: seq<NoFile>, batchSize: nat)
    requires 0 < batchSize && |files| == |messages|
    ensures (exists run :: CompletedBy(MessageKind(t), messages, files, run, batchSize)) <==> AllCanPass(t, messages)
  {
    hide AllCanPass, CompletedBy, AllProcessable, MessageKind;
    AllProcessableExactly(t, messages, files);
    CompletesExactly(MessageKind(t), messages, files, batchSize);
  }

  /** For instance: a deleted message, or one with attachments only, has no stored text and
      stops every migration and rotation of its table. */
  lemma EmptyBodyStopsMigration(t: Tool, messages: seq<Message>, files: seq<NoFile>, i: nat, run: seq<Step<int>>, batchSize: nat)
    requires 0 < batchSize && |files| == |messages| && i < |messages| && messages[i] == TextRow(None)
    ensures !CompletedBy(MessageKind(t), messages, files, run, batchSize)
  {
    hide CompletedBy;
    MigrationCompletesExactly(t, messages, files, batchSize);
    assert !CanPass(t, messages[i]);
  }

  function NoFiles(n: nat): (f: seq<NoFile>)
    ensures |f| == n
  {
    if n == 0 then [] else NoFiles(n - 1) + [NoFile]
  }

  /** From every crash point of a message migration or rotation, a rerun that completes
      leaves every message's content unchanged and stored under a current key, the target
      when rotating; a further rerun changes nothing. */
  lemma EveryMigrationIsSafe(t: Tool, messages: seq<Message>, run: seq<Step<int>>, rerun: seq<Step<int>>, batchSize: nat)
    requires t.Valid() && forall i :: 0 <= i < |messages| ==> Rewritable(t, messages[i])
    requires Legal(MessageKind(t), Fresh(messages, NoFiles(|messages|)), run, batchSize)
    requires Completed(After(MessageKind(t), Fresh(messages, NoFiles(|messages|)), run, batchSize))
    requires var s := After(MessageKind(t), Fresh(messages, NoFiles(|messages|)), run, batchSize);
             Legal(MessageKind(t), Fresh(s.rows, s.files), rerun, batchSize)
    ensures var s := After(MessageKind(t), Fresh(messages, NoFiles(|messages|)), run, batchSize);
            && |s.rows| == |s.files| == |messages|
            && (forall i :: 0 <= i < |messages| ==> Read(t, s.rows[i]) == Read(t, messages[i]) && UpToDate(t, s.rows[i]))
            && var s' := After(MessageKind(t), Fresh(s.rows, s.files), rerun, batchSize);
            && s'.rows == s.rows
  {
    hide Legal, After, Read, UpToDate, Rewritable, Preserves, Settles, Migrate, Tool.Valid;
    var k, files := MessageKind(t), NoFiles(|messages|);
    MessagesKeepContent(t);
    EveryRunKeepsContent(k, messages, files, run, batchSize);
    var s := After(k, Fresh(messages, files), run, batchSize);
    forall i | 0 <= i < |messages|
      ensures Read(t, s.rows[i]) == Read(t, messages[i]) && UpToDate(t, s.rows[i])
    {
      assert Views(k, s.rows, s.files)[i] == Views(k, messages, files)[i];
    }
    FurtherRunChangesNothing(k, Fresh(s.rows, s.files), rerun, batchSize);
  }
}
