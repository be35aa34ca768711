/** Migrating plaintext uploads and rotating encrypted ones to a target key. */
module UploadRotation {
  import opened Hashing
  import opened UploadFormat
  import opened UploadStore
  import opened Maintenance

  /** The columns of one upload row the tool reads or writes; `finalized` is a present public url. */
  datatype Upload = Upload(id: Bytes, finalized: bool, size: nat, checksum: Option<Digest>, version: nat, keyId: Option<Bytes>)

  type File = Option<Bytes>

  datatype Tool = Tool(r: Ring, domain: Bytes, target: Bytes, rotate: bool, allowPlaintext: bool)

  predicate HasMagic(file: Bytes) { |file| >= 8 && file[..8] == MAGIC }

  function RowExpects(u: Upload): Expected { Expected(Some(u.id), None, Some(u.size)) }

  predicate ChecksumOk(t: Tool, u: Upload, plain: Bytes) { u.checksum.None? || t.r.sha(plain) == u.checksum.value }

  /** The header and content of an encrypted file that fits the row, as the validator finds them. */
  function Validated(t: Tool, u: Upload, file: Bytes): Option<(Header, Bytes)>
    requires t.r.Lawful()
  {
    var plain := Decode(t.r, t.domain, file, RowExpects(u));
    if plain.Err? || !ChecksumOk(t, u, plain.value) then None
    else DecodedIsUpload(t.r, t.domain, file, RowExpects(u)); Some((ReadHeader(t.r, file, RowExpects(u)).value, plain.value))
  }

  /** A new file with the given content under the target key. */
  function Reencrypted(t: Tool, u: Upload, plain: Bytes, prefix: Bytes): Option<Bytes> {
    if |u.id| != 16 || |plain| != u.size || !ChecksumOk(t, u, plain) then None
    else match BuildHeader(t.r, u.id, t.target, u.size, prefix)
         case Err(_) => None
         case Ok(h) => Some(EncodeFile(SealingFor(t.r, t.domain, h), plain))
  }

  /** One row of the pass: the new row and file, or none if the tool stops with an error. */
  function ProcessUpload(t: Tool, u: Upload, file: File, prefix: Bytes): Option<(Upload, File)>
    requires t.r.Lawful()
  {
    match file
    case None => if u.finalized then None else Some((u, file))
    case Some(bytes) =>
      if HasMagic(bytes) then
        match Validated(t, u, bytes)
        case None => None
        case Some((h, plain)) =>
          if t.rotate && h.keyId != t.target then
            match Reencrypted(t, u, plain, prefix)
            case None => None
            case Some(bytes') => Some((u.(version := 1, keyId := Some(t.target)), Some(bytes')))
          else Some((u.(version := 1, keyId := Some(h.keyId)), file))
      else if u.version == 1 || !t.allowPlaintext then None
      else
        match Reencrypted(t, u, bytes, prefix)
        case None => None
        case Some(bytes') => Some((u.(version := 1, keyId := Some(t.target)), Some(bytes')))
  }

  /** The content an upload stands for, under whatever key it is stored. */
  function Content(t: Tool, u: Upload, file: File): Option<Bytes>
    requires t.r.Lawful()
  {
    match file
    case None => None
    case Some(bytes) =>
      if HasMagic(bytes) then
        (match Validated(t, u, bytes) case None => None case Some((_, plain)) => Some(plain))
      else if u.version == 1 then None
      else Some(bytes)
  }

  /** Nothing left to do: no file yet, or an encrypted file whose key the row names. */
  predicate Finished(t: Tool, u: Upload, file: File)
    requires t.r.Lawful()
  {
    match file
    case None => !u.finalized
    case Some(bytes) =>
      && HasMagic(bytes) && u.version == 1
      && (match Validated(t, u, bytes)
          case None => false
          case Some((h, _)) => u.keyId == Some(h.keyId) && (t.rotate ==> h.keyId == t.target))
  }

  lemma EncodedHasMagic(f: Sealing, plain: Bytes)
    requires WellFormed(f.h)
    ensures HasMagic(EncodeFile(f, plain))
  {
    hide Canonical, HeaderTag, Frames;
    CanonicalFields(f.h, HeaderTag(f.r, f.key, f.h) + Frames(f, 0, plain));
    assert EncodeFile(f, plain) == Canonical(f.h) + (HeaderTag(f.r, f.key, f.h) + Frames(f, 0, plain));
  }

  /** A re-encrypted file validates to the same content, with the target key in its header. */
  lemma ReencryptedValidates(t: Tool, u: Upload, plain: Bytes, prefix: Bytes)
    requires t.r.Lawful() && Reencrypted(t, u, plain, prefix).Some?
    ensures var bytes := Reencrypted(t, u, plain, prefix).value;
            && HasMagic(bytes) && Validated(t, u, bytes).Some?
            && Validated(t, u, bytes).value.0.keyId == t.target && Validated(t, u, bytes).value.1 == plain
  {
    hide EncodeFile, Decode, ReadHeader, HasMagic;
    var h := BuildHeader(t.r, u.id, t.target, u.size, prefix).value;
    var bytes := Reencrypted(t, u, plain, prefix).value;
    EncodedHasMagic(SealingFor(t.r, t.domain, h), plain);
    UploadReads(t.r, t.domain, bytes, RowExpects(u), h, plain);
  }

  lemma ValidationIgnoresMetadata(t: Tool, u: Upload, file: Bytes, version: nat, keyId: Option<Bytes>)
    requires t.r.Lawful()
    ensures Validated(t, u.(version := version, keyId := keyId), file) == Validated(t, u, file)
  {
    hide Decode, ReadHeader;
  }

  /** Validation does not depend on the target key. */
  lemma SameValidation(t: Tool, target: Bytes, u: Upload, file: Bytes)
    requires t.r.Lawful()
    ensures Validated(t.(target := target), u, file) == Validated(t, u, file)
  {
    hide Decode, ReadHeader;
  }

  // ----- writing a file under the target key -----

  /** When a new file can be written: the content fits the row and the target key is usable. */
  predicate Writable(t: Tool, u: Upload, plain: Bytes, prefix: Bytes) {
    && |plain| == u.size <= MAX_PLAINTEXT_SIZE && ChecksumOk(t, u, plain)
    && ValidKeyId(t.target) && |prefix| == NONCE_PREFIX_SIZE && t.r.derive(t.target, u.id).Some?
  }

  lemma ReencryptedExactly(t: Tool, u: Upload, plain: Bytes, prefix: Bytes)
    ensures Reencrypted(t, u, plain, prefix).Some? <==> |u.id| == 16 && Writable(t, u, plain, prefix)
  {
  }

  const ZERO_PREFIX: Bytes := [0, 0, 0, 0, 0, 0, 0, 0]

  lemma TargetHeader(t: Tool, u: Upload, prefix: Bytes)
    requires |u.id| == 16 && BuildHeader(t.r, u.id, t.target, u.size, prefix).Ok?
    ensures var h := BuildHeader(t.r, u.id, t.target, u.size, prefix).value;
            WellFormed(h) && h.plaintextSize == u.size && t.r.derive(h.keyId, h.uploadId).Some?
  {
  }

  lemma SliceStep(s: Bytes, i: nat, j: nat)
    requires i <= j <= |s|
    ensures s[..j] == s[..i] + s[i..j]
  {
  }

  /** The next frame after `count` full ones, if the encryptor takes it. */
  lemma NextFrameFits(f: Sealing, done: Bytes, count: nat, chunk: Bytes)
    requires WellFormed(f.h) && |done| == count * CHUNK_SIZE && 0 < |chunk| <= CHUNK_SIZE
    ensures EncodeFile(f, done) + Frame(f, count, chunk) == EncodeFile(f, done + chunk)
    ensures |done| + |chunk| <= f.h.plaintextSize ==> count <= MAX_CHUNK_COUNTER
  {
    hide EncodeFile, Frame;
    EncodeAppend(f, done, count, chunk);
  }

  /** Encrypt a plaintext file, read in blocks of one frame. */
  method EncryptPlaintextFile(t: Tool, u: Upload, source: Bytes, prefix: Bytes) returns (result: Option<Bytes>)
    requires |u.id| == 16
    ensures result == Reencrypted(t, u, source, prefix)
    ensures result.Some? <==> Writable(t, u, source, prefix)
  {
    hide EncodeFile, Frame, ValidKeyId;
    var header := BuildHeader(t.r, u.id, t.target, u.size, prefix);
    if header.Err? { return None; }
    TargetHeader(t, u, prefix);
    var f := SealingFor(t.r, t.domain, header.value);
    var e := new Encryptor(f);
    var file, total := Encoded(f.r, f.key, f.h), 0;
    EmptyFile(f);
    while total < |source|
      invariant total <= |source| && e.f == f && e.totalPlaintext == total <= u.size
      invariant total < |source| ==> total == e.nextIndex * CHUNK_SIZE
      invariant file == EncodeFile(f, source[..total])
      decreases |source| - total
    {
      var end := if total + CHUNK_SIZE <= |source| then total + CHUNK_SIZE else |source|;
      var chunk := source[total..end];
      NextFrameFits(f, source[..total], e.nextIndex, chunk);
      SliceStep(source, total, end);
      var frame := e.EncryptChunk(chunk);
      if frame.Err? { return None; }
      file, total := file + frame.value, end;
    }
    assert source[..total] == source;
    if e.totalPlaintext != f.h.plaintextSize { return None; }
    if !ChecksumOk(t, u, source) { return None; }
    result := Some(file);
  }

  lemma EmptyFlat(chunks: seq<Bytes>)
    ensures Flatten(chunks[..0]) == []
  {
  }

  /** Before the last chunk only full ones have been yielded. */
  lemma {:induction false} ChunksFull(chunks: seq<Bytes>, i: nat)
    requires FullButLast(chunks) && i < |chunks|
    ensures |Flatten(chunks[..i])| == i * CHUNK_SIZE && 0 < |chunks[i]| <= CHUNK_SIZE
  {
    if i > 0 {
      ChunksFull(chunks, i - 1);
      assert chunks[..i][..i - 1] == chunks[..i - 1];
    }
  }

  /** What re-encrypting a stored file yields. */
  function ReencryptedFile(t: Tool, u: Upload, source: Bytes, sourceKeyId: Option<Bytes>, prefix: Bytes): Option<Bytes>
    requires t.r.Lawful()
  {
    match Decode(t.r, t.domain, source, Expected(Some(u.id), sourceKeyId, Some(u.size)))
    case Err(_) => None
    case Ok(plain) => Reencrypted(t, u, plain, prefix)
  }

  /** Seal chunks one by one, until one exceeds the declared size. */
  method SealChunks(e: Encryptor, chunks: seq<Bytes>) returns (file: Option<Bytes>)
    requires WellFormed(e.f.h) && e.nextIndex == 0 && e.totalPlaintext == 0 && FullButLast(chunks)
    modifies e
    ensures file.Some? <==> |Flatten(chunks)| <= e.f.h.plaintextSize
    ensures file.Some? ==> file.value == EncodeFile(e.f, Flatten(chunks)) && e.totalPlaintext == |Flatten(chunks)|
  {
    hide EncodeFile, Frame, Flatten, FullButLast, WellFormed;
    var bytes, i := Encoded(e.f.r, e.f.key, e.f.h), 0;
    EmptyFile(e.f);
    EmptyFlat(chunks);
    while i < |chunks|
      invariant 0 <= i <= |chunks| && e.nextIndex == i && e.totalPlaintext == |Flatten(chunks[..i])| <= e.f.h.plaintextSize
      invariant bytes == EncodeFile(e.f, Flatten(chunks[..i]))
    {
      ChunksFull(chunks, i);
      NextFrameFits(e.f, Flatten(chunks[..i]), i, chunks[i]);
      FlattenSnoc(chunks[..i], chunks[i]);
      assert chunks[..i + 1] == chunks[..i] + [chunks[i]];
      FlattenPrefix(chunks, i + 1);
      var frame := e.EncryptChunk(chunks[i]);
      if frame.Err? { return None; }
      bytes, i := bytes + frame.value, i + 1;
    }
    assert chunks[..i] == chunks;
    file := Some(bytes);
  }

  /** Re-encrypt a stored file: frames from the decoder, sealed one by one under the target. */
  method ReencryptFile(t: Tool, u: Upload, source: Bytes, sourceKeyId: Option<Bytes>, prefix: Bytes) returns (result: Option<Bytes>)
    requires t.r.Lawful() && |u.id| == 16
    ensures result == ReencryptedFile(t, u, source, sourceKeyId, prefix)
  {
    hide EncodeFile, ValidKeyId, Decode, Flatten;
    var header := BuildHeader(t.r, u.id, t.target, u.size, prefix);
    if header.Err? { return None; }
    TargetHeader(t, u, prefix);
    var f := SealingFor(t.r, t.domain, header.value);
    var e := new Encryptor(f);
    var decoded, chunks := DecodeSync(t.r, t.domain, source, Expected(Some(u.id), sourceKeyId, Some(u.size)));
    var file := SealChunks(e, chunks);
    if file.None? || decoded.Err? { return None; }
    if e.totalPlaintext != f.h.plaintextSize { return None; }
    if !ChecksumOk(t, u, Flatten(chunks)) { return None; }
    result := file;
  }

  /** The file has to be written anew: it is plaintext, or rotated away from another key. */
  predicate NeedsNewFile(t: Tool, u: Upload, bytes: Bytes)
    requires t.r.Lawful()
  {
    !HasMagic(bytes) || (t.rotate && Validated(t, u, bytes).Some? && Validated(t, u, bytes).value.0.keyId != t.target)
  }

  /** When the tool does not stop at a row: no file and none promised, or a readable content
      that can be rewritten where it has to be. */
  lemma ProcessSucceeds(t: Tool, u: Upload, file: File, prefix: Bytes)
    requires t.r.Lawful()
    ensures ProcessUpload(t, u, file, prefix).Some? <==>
              match file
              case None => !u.finalized
              case Some(bytes) =>
                var content := Content(t, u, file);
                && content.Some? && (HasMagic(bytes) || t.allowPlaintext)
                && (NeedsNewFile(t, u, bytes) ==> Reencrypted(t, u, content.value, prefix).Some?)
  {
    hide Validated, Reencrypted, HasMagic;
  }

  /** Processing keeps the content, both after the batch commits and in the window where
      only the file has been replaced; and the row is finished. */
  lemma ProcessKeepsContent(t: Tool, u: Upload, file: File, prefix: Bytes)
    requires t.r.Lawful() && ProcessUpload(t, u, file, prefix).Some?
    ensures var (u', file') := ProcessUpload(t, u, file, prefix).value;
            && u' == u.(version := u'.version, keyId := u'.keyId)
            && Content(t, u, file') == Content(t, u, file)
            && Content(t, u', file') == Content(t, u, file)
            && Finished(t, u', file')
  {
    hide Validated, Reencrypted, HasMagic;
    var (u', file') := ProcessUpload(t, u, file, prefix).value;
    if file.Some? {
      var bytes := file.value;
      ValidationIgnoresMetadata(t, u, file'.value, u'.version, u'.keyId);
      if !HasMagic(bytes) {
        ReencryptedValidates(t, u, bytes, prefix);
      } else {
        var (h, plain) := Validated(t, u, bytes).value;
        if t.rotate && h.keyId != t.target {
          ReencryptedValidates(t, u, plain, prefix);
        }
      }
    }
  }

  lemma FinishedStays(t: Tool, u: Upload, file: File, prefix: Bytes)
    requires t.r.Lawful() && Finished(t, u, file)
    ensures ProcessUpload(t, u, file, prefix) == Some((u, file))
  {
    hide Validated, Reencrypted, HasMagic;
  }

  // ----- downloads -----

  /** What the download route serves: version-1 rows insist on the key they name, version-0
      rows trust the header, or serve plaintext where that is still allowed. */
  function Download(t: Tool, u: Upload, file: File): Option<Bytes>
    requires t.r.Lawful()
  {
    if file.None? || u.version > 1 || (u.version == 1 && u.keyId.None?) then None
    else if u.version == 0 && !HasMagic(file.value) then (if t.allowPlaintext then Some(file.value) else None)
    else
      match Decode(t.r, t.domain, file.value, Expected(Some(u.id), if u.version == 1 then u.keyId else None, Some(u.size)))
      case Err(_) => None
      case Ok(plain) => Some(plain)
  }

  /** A validated file downloads under its own key and under no other. */
  lemma ValidatedDownloads(t: Tool, u: Upload, bytes: Bytes, keyId: Option<Bytes>)
    requires t.r.Lawful() && Validated(t, u, bytes).Some?
    ensures var (h, plain), served := Validated(t, u, bytes).value, Decode(t.r, t.domain, bytes, Expected(Some(u.id), keyId, Some(u.size)));
            if keyId.None? || keyId.value == h.keyId then served == Ok(plain) else served.Err?
  {
    hide EncodeFile, Decode, ReadHeader;
    var x, y := RowExpects(u), Expected(Some(u.id), keyId, Some(u.size));
    var (h, plain) := Validated(t, u, bytes).value;
    DecodedIsUpload(t.r, t.domain, bytes, x);
    if keyId.None? || keyId.value == h.keyId {
      UploadReads(t.r, t.domain, bytes, y, h, plain);
    } else {
      OtherKeyRefused(t, bytes, x, h, plain, y);
    }
  }

  lemma OtherKeyRefused(t: Tool, bytes: Bytes, x: Expected, h: Header, plain: Bytes, y: Expected)
    requires t.r.Lawful() && IsUpload(t.r, t.domain, bytes, x, h, plain) && y.keyId.Some? && y.keyId.value != h.keyId
    ensures Decode(t.r, t.domain, bytes, y).Err?
  {
    hide EncodeFile, Decode, ReadHeader;
    if Decode(t.r, t.domain, bytes, y).Ok? {
      DecodedIsUpload(t.r, t.domain, bytes, y);
      OneReading(t.r, t.domain, bytes, x, h, plain, y, ReadHeader(t.r, bytes, y).value, Decode(t.r, t.domain, bytes, y).value);
      assert false;
    }
  }

  /** Rotation re-encrypts exactly the validated content. */
  lemma RotationReencrypts(t: Tool, u: Upload, bytes: Bytes, prefix: Bytes)
    requires t.r.Lawful() && Validated(t, u, bytes).Some?
    ensures var (h, plain) := Validated(t, u, bytes).value;
            ReencryptedFile(t, u, bytes, Some(h.keyId), prefix) == Reencrypted(t, u, plain, prefix)
  {
    hide Validated, Reencrypted, Decode;
    ValidatedDownloads(t, u, bytes, Some(Validated(t, u, bytes).value.0.keyId));
  }

  /** Once finished, the download serves exactly the content. */
  lemma FinishedDownloads(t: Tool, u: Upload, file: File)
    requires t.r.Lawful() && Finished(t, u, file) && file.Some?
    ensures Content(t, u, file).Some? && Download(t, u, file) == Content(t, u, file)
  {
    hide Validated, Decode, HasMagic;
    ValidatedDownloads(t, u, file.value, u.keyId);
  }

  /** While only the file has been replaced, the download serves the content if and only if
      the old row is of version 0, or names the target key already. */
  lemma DownloadInWindow(t: Tool, u: Upload, file: File, prefix: Bytes)
    requires t.r.Lawful() && ProcessUpload(t, u, file, prefix).Some? && file.Some? && NeedsNewFile(t, u, file.value)
    ensures var file' := ProcessUpload(t, u, file, prefix).value.1;
            Download(t, u, file') == if u.version == 0 || (u.version == 1 && u.keyId == Some(t.target)) then Content(t, u, file) else None
    ensures Content(t, u, file).Some?
  {
    hide Validated, Reencrypted, Decode, HasMagic;
    var file' := ProcessUpload(t, u, file, prefix).value.1;
    var plain := Content(t, u, file).value;
    ReencryptedValidates(t, u, plain, prefix);
    ValidatedDownloads(t, u, file'.value, if u.version == 1 then u.keyId else None);
  }

  /** Every version-1 row under another key is served before its rotation and after it, and
      not in between. */
  lemma RotationInterruptsDownload(t: Tool, oldKey: Bytes, u: Upload, plain: Bytes, prefix: Bytes, prefix': Bytes)
    requires t.r.Lawful() && t.rotate && oldKey != t.target && |u.id| == 16 && u.version == 1 && u.keyId == Some(oldKey)
    requires Writable(t.(target := oldKey), u, plain, prefix) && Writable(t, u, plain, prefix')
    ensures var file := Reencrypted(t.(target := oldKey), u, plain, prefix);
            && file.Some? && Download(t, u, file) == Some(plain)
            && ProcessUpload(t, u, file, prefix').Some?
            && var (u', file') := ProcessUpload(t, u, file, prefix').value;
               Download(t, u, file') == None && Download(t, u', file') == Some(plain)
  {
    var before := t.(target := oldKey);
    ReencryptedExactly(before, u, plain, prefix);
    ReencryptedExactly(t, u, plain, prefix');
    hide Validated, Reencrypted, Decode, HasMagic, Writable;
    var file := Reencrypted(before, u, plain, prefix);
    ReencryptedValidates(before, u, plain, prefix);
    SameValidation(t, oldKey, u, file.value);
    ValidatedDownloads(t, u, file.value, u.keyId);
    DownloadInWindow(t, u, file, prefix');
    ProcessKeepsContent(t, u, file, prefix');
    var (u', file') := ProcessUpload(t, u, file, prefix').value;
    FinishedDownloads(t, u', file');
  }

  /** An empty upload stored under the key `a` and rotated to the key `b`, with any ring that
      holds both. */
  lemma DownloadCanFail(r: Ring, domain: Bytes)
    requires r.Lawful() && r.derive([97], ZERO_PREFIX + ZERO_PREFIX).Some? && r.derive([98], ZERO_PREFIX + ZERO_PREFIX).Some?
    ensures var t, u := Tool(r, domain, [98], true, false), Upload(ZERO_PREFIX + ZERO_PREFIX, true, 0, None, 1, Some([97]));
            exists file :: Download(t, u, file) == Some([]) && ProcessUpload(t, u, file, ZERO_PREFIX).Some?
                           && Download(t, u, ProcessUpload(t, u, file, ZERO_PREFIX).value.1) == None
  {
    hide Reencrypted, Download, ProcessUpload;
    var t, u := Tool(r, domain, [98], true, false), Upload(ZERO_PREFIX + ZERO_PREFIX, true, 0, None, 1, Some([97]));
    RotationInterruptsDownload(t, [97], u, [], ZERO_PREFIX, ZERO_PREFIX);
    var file := Reencrypted(t.(target := [97]), u, [], ZERO_PREFIX);
    assert Download(t, u, file) == Some([]);
  }

  // ----- as a maintenance pass -----

  /** What the tool needs of a row, its file and the key ring to get past it. */
  predicate CanPass(t: Tool, u: Upload, file: File)
    requires t.r.Lawful()
  {
    match file
    case None => !u.finalized
    case Some(bytes) =>
      && Content(t, u, file).Some? && (HasMagic(bytes) || t.allowPlaintext)
      && (NeedsNewFile(t, u, bytes) ==> |u.id| == 16 && Writable(t, u, Content(t, u, file).value, ZERO_PREFIX))
  }

  function ViewOf(t: Tool, u: Upload, file: File): View
    requires t.r.Lawful()
  {
    View(u.id, u.finalized, u.size, u.checksum, Content(t, u, file))
  }

  function UploadKind(t: Tool): Kind<Upload, File, Bytes, View>
    requires t.r.Lawful()
  {
    Kind((u: Upload, f: File, p: Bytes) => ProcessUpload(t, u, f, p), (u: Upload, f: File) => ViewOf(t, u, f),
         (u: Upload, f: File) => true, (u: Upload, f: File) => Finished(t, u, f))
  }

  lemma PassesExactly(t: Tool, u: Upload, file: File)
    requires t.r.Lawful()
    ensures Processable(UploadKind(t), u, file) <==> CanPass(t, u, file)
  {
    hide Content, HasMagic, NeedsNewFile, ProcessUpload, Reencrypted;
    var k := UploadKind(t);
    forall prefix | k.process(u, file, prefix).Some?
      ensures CanPass(t, u, file)
    {
      ProcessSucceeds(t, u, file, prefix);
      if file.Some? { ReencryptedExactly(t, u, if Content(t, u, file).Some? then Content(t, u, file).value else [], prefix); }
    }
    if CanPass(t, u, file) {
      ProcessSucceeds(t, u, file, ZERO_PREFIX);
      if file.Some? { ReencryptedExactly(t, u, Content(t, u, file).value, ZERO_PREFIX); }
      assert k.process(u, file, ZERO_PREFIX).Some?;
    }
  }

  /** Some migration or rotation run completes if and only if the tool can get past every row. */
  lemma RotationCompletesExactly(t: Tool, uploads: seq<Upload>, files: seq<File>, batchSize: nat)
    requires t.r.Lawful() && 0 < batchSize && |uploads| == |files|
    ensures (exists run :: CompletedBy(UploadKind(t), uploads, files, run, batchSize))
            <==> forall i :: 0 <= i < |uploads| ==> CanPass(t, uploads[i], files[i])
  {
    hide CanPass, Processable, CompletedBy;
    var k := UploadKind(t);
    CompletesExactly(k, uploads, files, batchSize);
    forall i | 0 <= i < |uploads|
      ensures Processable(k, uploads[i], files[i]) <==> CanPass(t, uploads[i], files[i])
    {
      PassesExactly(t, uploads[i], files[i]);
    }
  }

  datatype View = View(id: Bytes, finalized: bool, size: nat, checksum: Option<Digest>, content: Option<Bytes>)

  lemma UploadsKeepContent(t: Tool)
    requires t.r.Lawful()
    ensures Preserves(UploadKind(t)) && Settles(UploadKind(t))
  {
    var k := UploadKind(t);
    forall u, f, p | k.process(u, f, p).Some? && k.safe(u, f)
      ensures KeepsContent(k, u, f, k.process(u, f, p).value)
    {
      ProcessKeepsContent(t, u, f, p);
    }
    forall u, f, p | k.done(u, f)
      ensures k.process(u, f, p) == Some((u, f))
    {
      FinishedStays(t, u, f, p);
    }
  }

  /** From every crash point of a migration or rotation, a rerun that completes leaves every
      upload's content unchanged, its row naming the key in its file, and the target key
      everywhere when rotating; a further rerun changes nothing. */
  lemma EveryRotationIsSafe(t: Tool, uploads: seq<Upload>, files: seq<File>, run: seq<Step<Bytes>>, rerun: seq<Step<Bytes>>, batchSize: nat)
    requires t.r.Lawful() && |uploads| == |files|
    requires Legal(UploadKind(t), Fresh(uploads, files), run, batchSize)
    requires Completed(After(UploadKind(t), Fresh(uploads, files), run, batchSize))
    requires var s := After(UploadKind(t), Fresh(uploads, files), run, batchSize);
             Legal(UploadKind(t), Fresh(s.rows, s.files), rerun, batchSize)
    ensures var s := After(UploadKind(t), Fresh(uploads, files), run, batchSize);
            && |s.rows| == |s.files| == |uploads|
            && (forall i :: 0 <= i < |uploads| ==>
                  ViewOf(t, s.rows[i], s.files[i]) == ViewOf(t, uploads[i], files[i]) && Finished(t, s.rows[i], s.files[i]))
            && var s' := After(UploadKind(t), Fresh(s.rows, s.files), rerun, batchSize);
            && s'.rows == s.rows && s'.files == s.files
  {
    hide Legal, After, Finished, ViewOf, ProcessUpload, Preserves, Settles;
    var k := UploadKind(t);
    UploadsKeepContent(t);
    EveryRunKeepsContent(k, uploads, files, run, batchSize);
    var s := After(k, Fresh(uploads, files), run, batchSize);
    forall i | 0 <= i < |uploads|
      ensures ViewOf(t, s.rows[i], s.files[i]) == ViewOf(t, uploads[i], files[i]) && Finished(t, s.rows[i], s.files[i])
    {
      assert Views(k, s.rows, s.files)[i] == Views(k, uploads, files)[i];
    }
    FurtherRunChangesNothing(k, Fresh(s.rows, s.files), rerun, batchSize);
  }
}
