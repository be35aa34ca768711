/** Storing an upload: the body arrives in chunks of any size and is cut again into the
    frames the format demands. */
module UploadStore {
  import opened Hashing
  import opened UploadFormat

  class Encryptor {
    const f: Sealing
    var nextIndex: nat
    var totalPlaintext: nat

    constructor (f: Sealing)
      ensures this.f == f && nextIndex == 0 && totalPlaintext == 0
    {
      this.f := f;
      nextIndex, totalPlaintext := 0, 0;
    }

    method EncryptChunk(chunk: Bytes) returns (r: Result<Bytes, UploadError>)
      requires WellFormed(f.h)
      modifies this
      ensures r.Ok? <==> && 0 < |chunk| <= CHUNK_SIZE && old(nextIndex) <= MAX_CHUNK_COUNTER
                         && old(totalPlaintext) + |chunk| <= f.h.plaintextSize
      ensures r.Ok? ==> r.value == Frame(f, old(nextIndex), chunk)
      ensures r.Ok? ==> nextIndex == old(nextIndex) + 1 && totalPlaintext == old(totalPlaintext) + |chunk|
      ensures r.Err? ==> r.error == FormatError && nextIndex == old(nextIndex) && totalPlaintext == old(totalPlaintext)
    {
      if chunk == [] || |chunk| > CHUNK_SIZE { return Err(FormatError); }
      if nextIndex > MAX_CHUNK_COUNTER { return Err(FormatError); }
      if totalPlaintext + |chunk| > f.h.plaintextSize { return Err(FormatError); }
      r := Ok(Frame(f, nextIndex, chunk));
      nextIndex := nextIndex + 1;
      totalPlaintext := totalPlaintext + |chunk|;
    }

    /** `file` holds exactly the frames of `written`, and the counters say so. */
    ghost predicate Wrote(file: Bytes, written: Bytes)
      reads this
    {
      && WellFormed(f.h)
      && totalPlaintext == |written| <= f.h.plaintextSize
      && |written| == nextIndex * CHUNK_SIZE
      && file == EncodeFile(f, written)
    }
  }

  lemma EncodeAppend(f: Sealing, full: Bytes, count: nat, chunk: Bytes)
    requires WellFormed(f.h) && |full| == count * CHUNK_SIZE && 0 < |chunk| <= CHUNK_SIZE
    ensures EncodeFile(f, full) + Frame(f, count, chunk) == EncodeFile(f, full + chunk)
  {
    hide Frame, Frames, Encoded;
    FramesAppend(f, 0, full, count, chunk);
  }

  lemma CounterFits(h: Header, index: nat, written: nat)
    requires WellFormed(h) && written == index * CHUNK_SIZE && written < h.plaintextSize
    ensures index <= MAX_CHUNK_COUNTER
  {
  }

  /** Take one piece into the pending buffer and emit every full frame it completes. */
  method AcceptPiece(e: Encryptor, file: Bytes, pending: Bytes, piece: Bytes, ghost written: Bytes)
    returns (file': Bytes, pending': Bytes, ghost written': Bytes)
    requires e.Wrote(file, written) && |pending| < CHUNK_SIZE
    requires |written| + |pending| + |piece| <= e.f.h.plaintextSize
    modifies e
    ensures e.Wrote(file', written') && |pending'| < CHUNK_SIZE
    ensures written' + pending' == written + pending + piece
  {
    hide EncodeFile, Frame, WellFormed;
    file', pending', written' := file, pending + piece, written;
    assert written + (pending + piece) == written + pending + piece;
    while |pending'| >= CHUNK_SIZE
      invariant e.Wrote(file', written')
      invariant written' + pending' == written + pending + piece
      decreases |pending'|
    {
      var chunk := pending'[..CHUNK_SIZE];
      CounterFits(e.f.h, e.nextIndex, |written'|);
      EncodeAppend(e.f, written', e.nextIndex, chunk);
      var frame := e.EncryptChunk(chunk);
      assert pending' == chunk + pending'[CHUNK_SIZE..];
      assert written' + chunk + pending'[CHUNK_SIZE..] == written' + pending';
      written' := written' + chunk;
      pending' := pending'[CHUNK_SIZE..];
      file' := file' + frame.value;
    }
  }

  // ----- the whole upload -----

  lemma {:induction false} FlattenPrefix(chunks: seq<Bytes>, i: nat)
    requires i <= |chunks|
    ensures |Flatten(chunks[..i])| <= |Flatten(chunks)|
    decreases |chunks| - i
  {
    if i == |chunks| {
      assert chunks[..i] == chunks;
    } else {
      FlattenPrefix(chunks, i + 1);
      assert chunks[..i + 1][..i] == chunks[..i];
    }
  }

  datatype StoreError = AlreadyStored | TooLarge | SizeMismatch | ChecksumMismatch | Encryption(error: UploadError)

  datatype Progress = Progress(file: Bytes, pending: Bytes)

  lemma AppendSlice(base: Bytes, s: Bytes, i: nat, j: nat)
    requires i <= j <= |s|
    ensures base + s[..i] + s[i..j] == base + s[..j]
  {
    assert s[..j] == s[..i] + s[i..j];
  }

  /** Feed one received chunk, in slices of at most one frame. */
  method Feed(e: Encryptor, p: Progress, received: Bytes, total: nat, configuredMax: int, ghost written: Bytes)
    returns (r: Result<Progress, StoreError>, total': nat, ghost written': Bytes)
    requires e.Wrote(p.file, written) && |p.pending| < CHUNK_SIZE
    requires total == |written + p.pending| <= e.f.h.plaintextSize <= configuredMax
    modifies e
    ensures r.Ok? <==> total + |received| <= e.f.h.plaintextSize
    ensures r.Ok? ==> && e.Wrote(r.value.file, written') && |r.value.pending| < CHUNK_SIZE
                      && written' + r.value.pending == written + p.pending + received
                      && total' == total + |received|
    ensures r.Err? ==> r.error.SizeMismatch? || (r.error.TooLarge? && total + |received| > configuredMax)
  {
    var file, pending, offset := p.file, p.pending, 0;
    total', written' := total, written;
    assert received[..0] == [] && written + pending + [] == written + pending;
    while offset < |received|
      invariant 0 <= offset <= |received|
      invariant e.Wrote(file, written') && |pending| < CHUNK_SIZE
      invariant total' == |written' + pending| == total + offset <= e.f.h.plaintextSize
      invariant written' + pending == written + p.pending + received[..offset]
      decreases |received| - offset
    {
      hide EncodeFile, WellFormed;
      var end := if offset + CHUNK_SIZE <= |received| then offset + CHUNK_SIZE else |received|;
      var piece := received[offset..end];
      var next := total' + |piece|;
      if next > configuredMax { return Err(TooLarge), total', written'; }
      if next > e.f.h.plaintextSize { return Err(SizeMismatch), total', written'; }
      file, pending, written' := AcceptPiece(e, file, pending, piece, written');
      AppendSlice(written + p.pending, received, offset, end);
      total', offset := next, end;
    }
    assert received[..offset] == received;
    r := Ok(Progress(file, pending));
  }

  /** Store a body that arrives as `chunks`. */
  method StoreContent(r: Ring, domain: Bytes, uploadId: Bytes, keyId: Bytes, prefix: Bytes, declared: nat,
                      configuredMax: int, alreadyStored: bool, checksum: Option<Digest>, chunks: seq<Bytes>)
    returns (result: Result<Bytes, StoreError>)
    requires r.Lawful() && |uploadId| == 16
    ensures var built, body := BuildHeader(r, uploadId, keyId, declared, prefix), Flatten(chunks);
            && (result.Ok? <==> && built.Ok? && !alreadyStored && declared <= configuredMax && |body| == declared
                                && (checksum.None? || r.sha(body) == checksum.value))
            && (result.Ok? ==> WellFormed(built.value) && result.value == EncodeFile(SealingFor(r, domain, built.value), body))
            && (result.Err? && result.error.TooLarge? ==> declared > configuredMax || |body| > configuredMax)
            && (result.Err? && result.error.SizeMismatch? ==> |body| != declared)
            && (result.Err? && result.error.Encryption? ==> built == Err(result.error.error))
  {
    hide EncodeFile, Canonical;
    var header := BuildHeader(r, uploadId, keyId, declared, prefix);
    if header.Err? { return Err(Encryption(header.error)); }
    var f := SealingFor(r, domain, header.value);
    var e := new Encryptor(f);
    if alreadyStored { return Err(AlreadyStored); }
    if declared > configuredMax { return Err(TooLarge); }
    var p, total, i := Progress(Encoded(r, f.key, f.h), []), 0, 0;
    ghost var written: Bytes := [];
    ghost var body := Flatten(chunks);
    EmptyFile(f);
    while i < |chunks|
      invariant 0 <= i <= |chunks|
      invariant e.f == f && e.Wrote(p.file, written) && |p.pending| < CHUNK_SIZE
      invariant written + p.pending == Flatten(chunks[..i]) && total == |written + p.pending| <= declared
      modifies e
    {
      hide WellFormed, SealingFor;
      FlattenPrefix(chunks, i + 1);
      assert chunks[..i + 1][..i] == chunks[..i];
      var fed;
      fed, total, written := Feed(e, p, chunks[i], total, configuredMax, written);
      if fed.Err? { return Err(fed.error); }
      p, i := fed.value, i + 1;
    }
    assert chunks[..i] == chunks;
    if total != declared { return Err(SizeMismatch); }
    if checksum.Some? && r.sha(Flatten(chunks)) != checksum.value { return Err(ChecksumMismatch); }
    var file := p.file;
    if p.pending != [] {
      CounterFits(f.h, e.nextIndex, |written|);
      EncodeAppend(f, written, e.nextIndex, p.pending);
      var frame := e.EncryptChunk(p.pending);
      file := file + frame.value;
    } else {
      assert written + [] == written;
    }
    // The encryptor's closing check cannot fail.
    assert e.totalPlaintext == f.h.plaintextSize;
    result := Ok(file);
  }

  lemma EmptyFile(f: Sealing)
    requires WellFormed(f.h)
    ensures EncodeFile(f, []) == Encoded(f.r, f.key, f.h)
  {
    assert Encoded(f.r, f.key, f.h) + [] == Encoded(f.r, f.key, f.h);
  }

  /** Whatever way the body was split, the stored file decodes to exactly that body. */
  lemma StoredFileDecodes(r: Ring, domain: Bytes, uploadId: Bytes, keyId: Bytes, prefix: Bytes, body: Bytes)
    requires r.Lawful() && |uploadId| == 16 && BuildHeader(r, uploadId, keyId, |body|, prefix).Ok?
    ensures var h := BuildHeader(r, uploadId, keyId, |body|, prefix).value;
            && WellFormed(h)
            && Decode(r, domain, EncodeFile(SealingFor(r, domain, h), body), Expected(Some(uploadId), Some(keyId), Some(|body|))) == Ok(body)
  {
    hide EncodeFile, Decode;
    var h := BuildHeader(r, uploadId, keyId, |body|, prefix).value;
    UploadReads(r, domain, EncodeFile(SealingFor(r, domain, h), body), Expected(Some(uploadId), Some(keyId), Some(|body|)), h, body);
  }
}
