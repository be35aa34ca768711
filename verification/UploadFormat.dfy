/** The encrypted storage format of uploads: an authenticated header followed by
    independently sealed frames of 64 KiB. */
module UploadFormat {
  import opened Hashing
  import opened KeyIds

  const CHUNK_SIZE := 65536
  const MAX_PLAINTEXT_SIZE := 0x100_0000_0000
  const TAG_SIZE := 16
  const NONCE_PREFIX_SIZE := 8
  const HEADER_COUNTER := 0xFFFF_FFFF
  const MAX_CHUNK_COUNTER := 0xFFFF_FFFE
  const HEADER_PREFIX_SIZE := 26
  const HEADER_SUFFIX_SIZE := 20
  const FRAME_HEADER_SIZE := 8
  const VERSION: Byte := 1

  /** The eight bytes of MSGUPENC. */
  const MAGIC: Bytes := [77, 83, 71, 85, 80, 69, 78, 67]

  datatype UploadError = FormatError | IntegrityError | KeyError

  // ----- big-endian integers -----

  function Pow256(w: nat): nat {
    if w == 0 then 1 else 256 * Pow256(w - 1)
  }

  function Pack(n: nat, w: nat): (b: Bytes)
    ensures |b| == w
  {
    if w == 0 then [] else Pack(n / 256, w - 1) + [n % 256]
  }

  function Unpack(b: Bytes): nat {
    if b == [] then 0 else Unpack(b[..|b| - 1]) * 256 + b[|b| - 1]
  }

  lemma {:induction false} UnpackPack(n: nat, w: nat)
    requires n < Pow256(w)
    ensures Unpack(Pack(n, w)) == n
  {
    if w > 0 {
      UnpackPack(n / 256, w - 1);
      assert Pack(n, w)[..w - 1] == Pack(n / 256, w - 1);
    }
  }

  lemma {:induction false} PackUnpack(b: Bytes)
    ensures Unpack(b) < Pow256(|b|) && Pack(Unpack(b), |b|) == b
  {
    if b != [] {
      PackUnpack(b[..|b| - 1]);
      assert Unpack(b) / 256 == Unpack(b[..|b| - 1]);
      assert b == b[..|b| - 1] + [b[|b| - 1]];
    }
  }

  lemma PowerValues()
    ensures Pow256(4) == 0x1_0000_0000 && Pow256(8) == 0x1_0000_0000_0000_0000
  {
    assert Pow256(2) == 65536;
    assert Pow256(4) == 0x1_0000_0000;
    assert Pow256(6) == 0x1_0000_0000_0000;
    assert Pow256(8) == 0x1_0000_0000_0000_0000;
  }

  // ----- keys -----

  /** AES-GCM under the upload keys the ring derives. `derive` fails for a missing key. */
  datatype Ring = Ring(
    derive: (Bytes, Bytes) -> Option<nat>,
    seal: (nat, Bytes, Bytes, Bytes) -> Bytes,
    open: (nat, Bytes, Bytes, Bytes) -> Option<Bytes>,
    sha: Sha256)
  {
    /** What authenticated encryption promises: opening undoes sealing, nothing else opens,
        and the ciphertext is the plaintext plus a tag. */
    ghost predicate Lawful() {
      && (forall k, n, p, a :: |seal(k, n, p, a)| == |p| + TAG_SIZE)
      && (forall k, n, p, a :: open(k, n, seal(k, n, p, a), a) == Some(p))
      && (forall k, n, c, a :: open(k, n, c, a).Some? ==> c == seal(k, n, open(k, n, c, a).value, a))
    }
  }

  /** A key id as the bytes of its text. */
  predicate ValidKeyId(keyId: Bytes) {
    1 <= |keyId| <= MAX_KEY_ID_SIZE && forall i :: 0 <= i < |keyId| ==> KeyChar(keyId[i] as char)
  }

  // ----- the header -----

  datatype Header = Header(uploadId: Bytes, keyId: Bytes, plaintextSize: nat, noncePrefix: Bytes)

  predicate WellFormed(h: Header) {
    && |h.uploadId| == 16 && ValidKeyId(h.keyId)
    && h.plaintextSize <= MAX_PLAINTEXT_SIZE && |h.noncePrefix| == NONCE_PREFIX_SIZE
  }

  function Nonce(prefix: Bytes, counter: nat): Bytes {
    prefix + Pack(counter, 4)
  }

  function Canonical(h: Header): (b: Bytes)
    requires WellFormed(h)
    ensures |b| == HEADER_PREFIX_SIZE + |h.keyId| + HEADER_SUFFIX_SIZE
  {
    MAGIC + [VERSION] + h.uploadId + [|h.keyId|] + h.keyId + Pack(h.plaintextSize, 8) + Pack(CHUNK_SIZE, 4) + h.noncePrefix
  }

  function HeaderTag(r: Ring, key: nat, h: Header): Bytes
    requires WellFormed(h)
  {
    r.seal(key, Nonce(h.noncePrefix, HEADER_COUNTER), [], Canonical(h))
  }

  function Encoded(r: Ring, key: nat, h: Header): Bytes
    requires WellFormed(h)
  {
    Canonical(h) + HeaderTag(r, key, h)
  }

  function BuildHeader(r: Ring, uploadId: Bytes, keyId: Bytes, size: int, prefix: Bytes): Result<Header, UploadError>
    requires |uploadId| == 16
  {
    if !ValidKeyId(keyId) then Err(FormatError)
    else if !(0 <= size <= MAX_PLAINTEXT_SIZE) then Err(FormatError)
    else if |prefix| != NONCE_PREFIX_SIZE then Err(FormatError)
    else if r.derive(keyId, uploadId).None? then Err(KeyError)
    else Ok(Header(uploadId, keyId, size, prefix))
  }

  /** What the database row says the file should be. */
  datatype Expected = Expected(uploadId: Option<Bytes>, keyId: Option<Bytes>, size: Option<nat>)

  predicate Matches(x: Expected, h: Header) {
    (x.uploadId.None? || x.uploadId.value == h.uploadId) && (x.keyId.None? || x.keyId.value == h.keyId)
  }

  /** The fields of a header of the given key id length, at their offsets. */
  function FieldsAt(e: Bytes, n: nat): Header
    requires |e| == HEADER_PREFIX_SIZE + n + HEADER_SUFFIX_SIZE + TAG_SIZE
  {
    Header(e[9..25], e[26..26 + n], Unpack(e[26 + n..34 + n]), e[38 + n..46 + n])
  }

  function ParseHeader(r: Ring, e: Bytes, x: Expected): Result<Header, UploadError> {
    var minimum := HEADER_PREFIX_SIZE + 1 + HEADER_SUFFIX_SIZE + TAG_SIZE;
    if !(minimum <= |e| <= minimum + MAX_KEY_ID_SIZE - 1) then Err(FormatError)
    else if e[..8] != MAGIC then Err(FormatError)
    else if e[8] != VERSION then Err(FormatError)
    else
      var n := e[25];
      if !(1 <= n <= MAX_KEY_ID_SIZE) then Err(FormatError)
      else if |e| != HEADER_PREFIX_SIZE + n + HEADER_SUFFIX_SIZE + TAG_SIZE then Err(FormatError)
      else
        var h := FieldsAt(e, n);
        if !ValidKeyId(h.keyId) then Err(FormatError)
        else if h.plaintextSize > MAX_PLAINTEXT_SIZE then Err(FormatError)
        else if Unpack(e[34 + n..38 + n]) != CHUNK_SIZE then Err(FormatError)
        else if !Matches(x, h) then Err(IntegrityError)
        else
          match r.derive(h.keyId, h.uploadId)
          case None => Err(KeyError)
          case Some(key) =>
            var plain := r.open(key, Nonce(h.noncePrefix, HEADER_COUNTER), e[46 + n..], e[..46 + n]);
            if plain != Some([]) then Err(IntegrityError) else Ok(h)
  }

  /** `e` is the encoding of `h`, which fits what is expected, under an available key. */
  predicate IsHeader(r: Ring, e: Bytes, x: Expected, h: Header) {
    && WellFormed(h) && Matches(x, h)
    && r.derive(h.keyId, h.uploadId).Some?
    && e == Encoded(r, r.derive(h.keyId, h.uploadId).value, h)
  }

  lemma EncodedLength(r: Ring, key: nat, h: Header)
    requires r.Lawful() && WellFormed(h)
    ensures |HeaderTag(r, key, h)| == TAG_SIZE
    ensures |Encoded(r, key, h)| == HEADER_PREFIX_SIZE + |h.keyId| + HEADER_SUFFIX_SIZE + TAG_SIZE
  {
  }

  /** The parts of a canonical header, read back at the offsets the parser uses. */
  lemma CanonicalFields(h: Header, rest: Bytes)
    requires WellFormed(h)
    ensures var e, n := Canonical(h) + rest, |h.keyId|;
            && e[..8] == MAGIC && e[8] == VERSION && e[9..25] == h.uploadId && e[25] == n
            && e[26..26 + n] == h.keyId && e[26 + n..34 + n] == Pack(h.plaintextSize, 8)
            && e[34 + n..38 + n] == Pack(CHUNK_SIZE, 4) && e[38 + n..46 + n] == h.noncePrefix
            && e[..46 + n] == Canonical(h) && e[46 + n..] == rest
  {
    hide Pack;
    var e, n := Canonical(h) + rest, |h.keyId|;
    var a := MAGIC + [VERSION];
    var b := a + h.uploadId;
    var c := b + [n];
    var d := c + h.keyId;
    var f := d + Pack(h.plaintextSize, 8);
    var g := f + Pack(CHUNK_SIZE, 4);
    assert e[..46 + n] == g + h.noncePrefix;
    assert e[..38 + n] == g;
    assert e[..34 + n] == f;
    assert e[..26 + n] == d;
    assert e[..26] == c;
    assert e[..25] == b;
    assert e[..9] == a;
  }

  lemma FieldsMakeCanonical(e: Bytes, n: nat)
    requires |e| == HEADER_PREFIX_SIZE + n + HEADER_SUFFIX_SIZE + TAG_SIZE && WellFormed(FieldsAt(e, n))
    requires e[..8] == MAGIC && e[8] == VERSION && e[25] == n && Unpack(e[34 + n..38 + n]) == CHUNK_SIZE
    ensures e[..46 + n] == Canonical(FieldsAt(e, n))
  {
    hide Pack, Unpack, ValidKeyId;
    PackUnpack(e[26 + n..34 + n]);
    PackUnpack(e[34 + n..38 + n]);
    ConcatenatedFields(e[..46 + n], n);
  }

  lemma ParsedIsHeader(r: Ring, e: Bytes, x: Expected)
    requires r.Lawful() && ParseHeader(r, e, x).Ok?
    ensures IsHeader(r, e, x, ParseHeader(r, e, x).value)
  {
    hide Pack, Unpack, Canonical, ValidKeyId;
    var n, h := e[25], ParseHeader(r, e, x).value;
    FieldsMakeCanonical(e, n);
    var key := r.derive(h.keyId, h.uploadId).value;
    assert e[46 + n..] == r.seal(key, Nonce(h.noncePrefix, HEADER_COUNTER), [], Canonical(h));
    assert e == e[..46 + n] + e[46 + n..];
  }

  lemma ConcatenatedFields(e: Bytes, n: nat)
    requires |e| == 46 + n
    ensures e == e[..8] + [e[8]] + e[9..25] + [e[25]] + e[26..26 + n] + e[26 + n..34 + n] + e[34 + n..38 + n] + e[38 + n..46 + n]
  {
    assert e[..9] == e[..8] + [e[8]];
    assert e[..25] == e[..9] + e[9..25];
    assert e[..26] == e[..25] + [e[25]];
    assert e[..26 + n] == e[..26] + e[26..26 + n];
    assert e[..34 + n] == e[..26 + n] + e[26 + n..34 + n];
    assert e[..38 + n] == e[..34 + n] + e[34 + n..38 + n];
    assert e == e[..38 + n] + e[38 + n..46 + n];
  }

  lemma HeaderParses(r: Ring, e: Bytes, x: Expected, h: Header)
    requires r.Lawful() && IsHeader(r, e, x, h)
    ensures ParseHeader(r, e, x) == Ok(h)
  {
    hide Pack, Unpack, Canonical;
    var n, key := |h.keyId|, r.derive(h.keyId, h.uploadId).value;
    EncodedLength(r, key, h);
    CanonicalFields(h, HeaderTag(r, key, h));
    PowerValues();
    UnpackPack(h.plaintextSize, 8);
    UnpackPack(CHUNK_SIZE, 4);
    assert FieldsAt(e, n) == h;
  }

  /** A header parses exactly when it is the encoding of what it parses to. */
  lemma ParseHeaderExact(r: Ring, e: Bytes, x: Expected, h: Header)
    requires r.Lawful()
    ensures ParseHeader(r, e, x) == Ok(h) <==> IsHeader(r, e, x, h)
  {
    hide ParseHeader, IsHeader;
    if ParseHeader(r, e, x) == Ok(h) {
      ParsedIsHeader(r, e, x);
    }
    if IsHeader(r, e, x, h) {
      HeaderParses(r, e, x, h);
    }
  }

  /** What is built parses back, when the row expects what was built. */
  lemma BuiltHeaderParses(r: Ring, uploadId: Bytes, keyId: Bytes, size: int, prefix: Bytes)
    requires r.Lawful() && |uploadId| == 16 && BuildHeader(r, uploadId, keyId, size, prefix).Ok?
    ensures var h := BuildHeader(r, uploadId, keyId, size, prefix).value;
            && WellFormed(h)
            && ParseHeader(r, Encoded(r, r.derive(keyId, uploadId).value, h), Expected(Some(uploadId), Some(keyId), None)) == Ok(h)
  {
    hide ParseHeader, Encoded;
    var h := BuildHeader(r, uploadId, keyId, size, prefix).value;
    HeaderParses(r, Encoded(r, r.derive(keyId, uploadId).value, h), Expected(Some(uploadId), Some(keyId), None), h);
  }

  // ----- frames -----

  /** SHA-256 of the canonical header binds every frame to it; the domain text is opaque here. */
  function ChunkAad(r: Ring, domain: Bytes, h: Header, index: nat, length: nat): Bytes
    requires WellFormed(h)
  {
    domain + r.sha(Canonical(h)) + Pack(index, 4) + Pack(length, 4)
  }

  /** Everything that is fixed while one file is written or read. */
  datatype Sealing = Sealing(r: Ring, domain: Bytes, key: nat, h: Header)

  function SealChunk(f: Sealing, index: nat, chunk: Bytes): Bytes
    requires WellFormed(f.h)
  {
    f.r.seal(f.key, Nonce(f.h.noncePrefix, index), chunk, ChunkAad(f.r, f.domain, f.h, index, |chunk|))
  }

  function FrameHeader(index: nat, length: nat): (b: Bytes)
    ensures |b| == FRAME_HEADER_SIZE
  {
    Pack(index, 4) + Pack(length, 4)
  }

  function Frame(f: Sealing, index: nat, chunk: Bytes): Bytes
    requires WellFormed(f.h)
  {
    FrameHeader(index, |chunk|) + SealChunk(f, index, chunk)
  }

  function Min(a: nat, b: nat): nat { if a <= b then a else b }

  /** Full frames and one short tail, numbered from `index`. */
  function Frames(f: Sealing, index: nat, plain: Bytes): Bytes
    requires WellFormed(f.h)
    decreases |plain|
  {
    if plain == [] then [] else
      var n := Min(CHUNK_SIZE, |plain|);
      Frame(f, index, plain[..n]) + Frames(f, index + 1, plain[n..])
  }

  function Prepend(front: Bytes, rest: Result<Bytes, UploadError>): Result<Bytes, UploadError> {
    match rest
    case Err(e) => Err(e)
    case Ok(p) => Ok(front + p)
  }

  /** What reading frames from `bytes` yields, with `remaining` plaintext bytes to come. */
  function OpenFrames(f: Sealing, index: nat, remaining: nat, bytes: Bytes): Result<Bytes, UploadError>
    requires WellFormed(f.h)
    decreases remaining
  {
    if remaining == 0 then (if bytes == [] then Ok([]) else Err(FormatError))
    else
      var n := Min(CHUNK_SIZE, remaining);
      if |bytes| < FRAME_HEADER_SIZE then Err(FormatError)
      else if Unpack(bytes[..4]) != index || Unpack(bytes[4..8]) != n then Err(FormatError)
      else if |bytes| < FRAME_HEADER_SIZE + n + TAG_SIZE then Err(FormatError)
      else
        match f.r.open(f.key, Nonce(f.h.noncePrefix, index), bytes[8..8 + n + TAG_SIZE], ChunkAad(f.r, f.domain, f.h, index, n))
        case None => Err(IntegrityError)
        case Some(chunk) => Prepend(chunk, OpenFrames(f, index + 1, remaining - n, bytes[8 + n + TAG_SIZE..]))
  }

  /** Frames can be counted: every index that occurs fits the counter with room to spare. */
  predicate Countable(index: nat, remaining: nat) {
    index * CHUNK_SIZE + remaining <= MAX_PLAINTEXT_SIZE + CHUNK_SIZE && (remaining > 0 ==> index * CHUNK_SIZE + remaining <= MAX_PLAINTEXT_SIZE)
  }

  lemma CountableNext(index: nat, remaining: nat)
    requires Countable(index, remaining) && remaining > 0
    ensures index <= 0x100_0000 && Countable(index + 1, remaining - Min(CHUNK_SIZE, remaining))
  {
  }

  lemma FrameFields(f: Sealing, index: nat, chunk: Bytes, rest: Bytes)
    requires f.r.Lawful() && WellFormed(f.h) && index < 0x1_0000_0000 && |chunk| < 0x1_0000_0000
    ensures var b, n := Frame(f, index, chunk) + rest, |chunk|;
            && |b| == 8 + n + TAG_SIZE + |rest|
            && Unpack(b[..4]) == index && Unpack(b[4..8]) == n
            && b[8..8 + n + TAG_SIZE] == SealChunk(f, index, chunk) && b[8 + n + TAG_SIZE..] == rest
  {
    hide Pack, Unpack, ChunkAad;
    PowerValues();
    UnpackPack(index, 4);
    UnpackPack(|chunk|, 4);
    var b, n := Frame(f, index, chunk) + rest, |chunk|;
    assert b[..4] == Pack(index, 4) && b[4..8] == Pack(n, 4);
  }

  lemma {:induction false} FramesOpen(f: Sealing, index: nat, plain: Bytes)
    requires f.r.Lawful() && WellFormed(f.h) && Countable(index, |plain|)
    ensures OpenFrames(f, index, |plain|, Frames(f, index, plain)) == Ok(plain)
    decreases |plain|
  {
    hide Pack, Unpack, ChunkAad, Frame;
    if plain != [] {
      var n := Min(CHUNK_SIZE, |plain|);
      var rest := Frames(f, index + 1, plain[n..]);
      CountableNext(index, |plain|);
      FrameFields(f, index, plain[..n], rest);
      FramesOpen(f, index + 1, plain[n..]);
      assert plain == plain[..n] + plain[n..];
    }
  }

  lemma OpenedChunk(f: Sealing, index: nat, n: nat, cipher: Bytes)
    requires f.r.Lawful() && WellFormed(f.h) && |cipher| == n + TAG_SIZE
    requires f.r.open(f.key, Nonce(f.h.noncePrefix, index), cipher, ChunkAad(f.r, f.domain, f.h, index, n)).Some?
    ensures var chunk := f.r.open(f.key, Nonce(f.h.noncePrefix, index), cipher, ChunkAad(f.r, f.domain, f.h, index, n)).value;
            |chunk| == n && cipher == SealChunk(f, index, chunk)
  {
  }

  lemma {:induction false} OpenedFrames(f: Sealing, index: nat, remaining: nat, bytes: Bytes)
    requires f.r.Lawful() && WellFormed(f.h) && OpenFrames(f, index, remaining, bytes).Ok?
    ensures var plain := OpenFrames(f, index, remaining, bytes).value;
            |plain| == remaining && bytes == Frames(f, index, plain)
    decreases remaining
  {
    hide Pack, Unpack, ChunkAad;
    if remaining > 0 {
      var n := Min(CHUNK_SIZE, remaining);
      var chunk := f.r.open(f.key, Nonce(f.h.noncePrefix, index), bytes[8..8 + n + TAG_SIZE], ChunkAad(f.r, f.domain, f.h, index, n)).value;
      OpenedChunk(f, index, n, bytes[8..8 + n + TAG_SIZE]);
      OpenedFrames(f, index + 1, remaining - n, bytes[8 + n + TAG_SIZE..]);
      var rest := OpenFrames(f, index + 1, remaining - n, bytes[8 + n + TAG_SIZE..]).value;
      SplitFrame(bytes, index, n);
      FramesOfChunk(f, index, chunk, rest);
    }
  }

  lemma FramesOfChunk(f: Sealing, index: nat, chunk: Bytes, rest: Bytes)
    requires WellFormed(f.h) && 0 < |chunk| <= CHUNK_SIZE && (rest == [] || |chunk| == CHUNK_SIZE)
    ensures Frames(f, index, chunk + rest) == Frame(f, index, chunk) + Frames(f, index + 1, rest)
  {
    hide Frame;
    assert (chunk + rest)[..|chunk|] == chunk && (chunk + rest)[|chunk|..] == rest;
  }

  lemma SplitFrame(bytes: Bytes, index: nat, n: nat)
    requires |bytes| >= 8 + n + TAG_SIZE && Unpack(bytes[..4]) == index && Unpack(bytes[4..8]) == n
    ensures bytes == FrameHeader(index, n) + bytes[8..8 + n + TAG_SIZE] + bytes[8 + n + TAG_SIZE..]
  {
    hide Pack, Unpack;
    PackUnpack(bytes[..4]);
    PackUnpack(bytes[4..8]);
    assert bytes[..8] == bytes[..4] + bytes[4..8];
    assert bytes == bytes[..8] + bytes[8..8 + n + TAG_SIZE] + bytes[8 + n + TAG_SIZE..];
  }

  // ----- whole files -----

  function SealingFor(r: Ring, domain: Bytes, h: Header): Sealing
    requires r.derive(h.keyId, h.uploadId).Some?
  {
    Sealing(r, domain, r.derive(h.keyId, h.uploadId).value, h)
  }

  function EncodeFile(f: Sealing, plain: Bytes): Bytes
    requires WellFormed(f.h)
  {
    Encoded(f.r, f.key, f.h) + Frames(f, 0, plain)
  }

  function HeaderEnd(n: nat): nat { HEADER_PREFIX_SIZE + n + HEADER_SUFFIX_SIZE + TAG_SIZE }

  /** Read the fixed prefix, then as much header as its key id length asks for. */
  function ReadHeader(r: Ring, file: Bytes, x: Expected): Result<Header, UploadError> {
    if |file| < HEADER_PREFIX_SIZE then Err(FormatError)
    else if !(1 <= file[25] <= MAX_KEY_ID_SIZE) then Err(FormatError)
    else if |file| < HeaderEnd(file[25]) then Err(FormatError)
    else ParseHeader(r, file[..HeaderEnd(file[25])], x)
  }

  function Decode(r: Ring, domain: Bytes, file: Bytes, x: Expected): Result<Bytes, UploadError>
    requires r.Lawful()
  {
    match ReadHeader(r, file, x)
    case Err(e) => Err(e)
    case Ok(h) =>
      ParsedIsHeader(r, file[..HeaderEnd(file[25])], x);
      if x.size.Some? && x.size.value != h.plaintextSize then Err(IntegrityError)
      else OpenFrames(SealingFor(r, domain, h), 0, h.plaintextSize, file[HeaderEnd(file[25])..])
  }

  /** `file` is the encoding of `plain` under header `h`, and `h` is what the row expects. */
  predicate IsUpload(r: Ring, domain: Bytes, file: Bytes, x: Expected, h: Header, plain: Bytes) {
    && WellFormed(h) && Matches(x, h) && (x.size.None? || x.size.value == h.plaintextSize)
    && r.derive(h.keyId, h.uploadId).Some?
    && |plain| == h.plaintextSize
    && file == EncodeFile(SealingFor(r, domain, h), plain)
  }

  lemma UploadReads(r: Ring, domain: Bytes, file: Bytes, x: Expected, h: Header, plain: Bytes)
    requires r.Lawful() && IsUpload(r, domain, file, x, h, plain)
    ensures ReadHeader(r, file, x) == Ok(h) && Decode(r, domain, file, x) == Ok(plain)
  {
    hide ParseHeader, Canonical, HeaderTag, Frames, OpenFrames;
    var f, n := SealingFor(r, domain, h), |h.keyId|;
    EncodedLength(r, f.key, h);
    CanonicalFields(h, HeaderTag(r, f.key, h) + Frames(f, 0, plain));
    assert Canonical(h) + (HeaderTag(r, f.key, h) + Frames(f, 0, plain)) == file;
    assert file[..HeaderEnd(n)] == Encoded(r, f.key, h) && file[HeaderEnd(n)..] == Frames(f, 0, plain);
    HeaderParses(r, Encoded(r, f.key, h), x, h);
    FramesOpen(f, 0, plain);
  }

  lemma DecodedIsUpload(r: Ring, domain: Bytes, file: Bytes, x: Expected)
    requires r.Lawful() && Decode(r, domain, file, x).Ok?
    ensures ReadHeader(r, file, x).Ok?
    ensures IsUpload(r, domain, file, x, ReadHeader(r, file, x).value, Decode(r, domain, file, x).value)
  {
    hide ParseHeader, Canonical, HeaderTag, Frames, OpenFrames;
    var h := ReadHeader(r, file, x).value;
    var cut := HeaderEnd(file[25]);
    ParsedIsHeader(r, file[..cut], x);
    var f := SealingFor(r, domain, h);
    OpenedFrames(f, 0, h.plaintextSize, file[cut..]);
    assert file == file[..cut] + file[cut..];
  }

  /** Every accepted file is byte for byte the encoding of its own header and plaintext,
      and every such encoding is accepted. */
  lemma DecodeExact(r: Ring, domain: Bytes, file: Bytes, x: Expected, plain: Bytes)
    requires r.Lawful()
    ensures Decode(r, domain, file, x) == Ok(plain) <==> exists h :: IsUpload(r, domain, file, x, h, plain)
  {
    hide Decode, ReadHeader, IsUpload;
    if Decode(r, domain, file, x) == Ok(plain) {
      DecodedIsUpload(r, domain, file, x);
    }
    if h :| IsUpload(r, domain, file, x, h, plain) {
      UploadReads(r, domain, file, x, h, plain);
    }
  }

  /** A file has at most one reading, whatever the rows of two readers expect. */
  lemma OneReading(r: Ring, domain: Bytes, file: Bytes, x: Expected, h: Header, p: Bytes, x': Expected, h': Header, p': Bytes)
    requires r.Lawful() && IsUpload(r, domain, file, x, h, p) && IsUpload(r, domain, file, x', h', p')
    ensures h == h' && p == p'
  {
    hide Decode, ReadHeader;
    var any := Expected(None, None, None);
    UploadReads(r, domain, file, any, h, p);
    UploadReads(r, domain, file, any, h', p');
  }

  // ----- the two decoders -----

  lemma PrependNothing(rest: Result<Bytes, UploadError>)
    ensures Prepend([], rest) == rest
  {
    if rest.Ok? {
      assert [] + rest.value == rest.value;
    }
  }

  lemma PrependTwice(a: Bytes, b: Bytes, rest: Result<Bytes, UploadError>)
    ensures Prepend(a, Prepend(b, rest)) == Prepend(a + b, rest)
  {
    if rest.Ok? {
      assert a + (b + rest.value) == a + b + rest.value;
    }
  }

  lemma SizeCountable(h: Header)
    requires WellFormed(h)
    ensures Countable(0, h.plaintextSize)
  {
  }

  function Flatten(chunks: seq<Bytes>): Bytes {
    if chunks == [] then [] else Flatten(chunks[..|chunks| - 1]) + chunks[|chunks| - 1]
  }

  lemma FlattenSnoc(chunks: seq<Bytes>, chunk: Bytes)
    ensures Flatten(chunks + [chunk]) == Flatten(chunks) + chunk
  {
    assert (chunks + [chunk])[..|chunks|] == chunks;
  }

  /** Non-empty chunks, all but the last of them full. */
  predicate FullButLast(chunks: seq<Bytes>) {
    forall i :: 0 <= i < |chunks| ==> 0 < |chunks[i]| <= CHUNK_SIZE && (i + 1 < |chunks| ==> |chunks[i]| == CHUNK_SIZE)
  }

  /** `bytes` begins with exactly the sealed frames of these chunks. */
  predicate LeadingFrames(f: Sealing, bytes: Bytes, chunks: seq<Bytes>)
    requires WellFormed(f.h)
  {
    FullButLast(chunks) && Frames(f, 0, Flatten(chunks)) <= bytes
  }

  /** The state of a frame loop that has yielded `chunks` and still has `source` to read. */
  predicate Reading(f: Sealing, bytes: Bytes, chunks: seq<Bytes>, index: nat, remaining: nat, source: Bytes)
    requires WellFormed(f.h)
  {
    && OpenFrames(f, 0, f.h.plaintextSize, bytes) == Prepend(Flatten(chunks), OpenFrames(f, index, remaining, source))
    && bytes == Frames(f, 0, Flatten(chunks)) + source
    && FullButLast(chunks)
    && (remaining > 0 ==> |Flatten(chunks)| == index * CHUNK_SIZE && forall i :: 0 <= i < |chunks| ==> |chunks[i]| == CHUNK_SIZE)
  }

  lemma NothingRead(f: Sealing, bytes: Bytes)
    requires WellFormed(f.h)
    ensures Reading(f, bytes, [], 0, f.h.plaintextSize, bytes) && LeadingFrames(f, bytes, [])
  {
    hide OpenFrames;
    PrependNothing(OpenFrames(f, 0, f.h.plaintextSize, bytes));
    assert [] + bytes == bytes;
  }

  lemma ReadingResult(f: Sealing, bytes: Bytes, chunks: seq<Bytes>, index: nat, remaining: nat, source: Bytes)
    requires WellFormed(f.h) && Reading(f, bytes, chunks, index, remaining, source)
    ensures OpenFrames(f, 0, f.h.plaintextSize, bytes) == Prepend(Flatten(chunks), OpenFrames(f, index, remaining, source))
  {
    hide OpenFrames, Frames;
  }

  lemma AllRead(f: Sealing, bytes: Bytes, chunks: seq<Bytes>, index: nat)
    requires WellFormed(f.h) && Reading(f, bytes, chunks, index, 0, [])
    ensures OpenFrames(f, 0, f.h.plaintextSize, bytes) == Ok(Flatten(chunks))
  {
    hide Frames, Flatten;
    assert Flatten(chunks) + [] == Flatten(chunks);
  }

  /** After full frames, one more frame continues the encoding. */
  lemma {:induction false} FramesAppend(f: Sealing, index: nat, full: Bytes, count: nat, chunk: Bytes)
    requires WellFormed(f.h) && |full| == count * CHUNK_SIZE && 0 < |chunk| <= CHUNK_SIZE
    ensures Frames(f, index, full) + Frame(f, index + count, chunk) == Frames(f, index, full + chunk)
    decreases count
  {
    hide Frame;
    if count == 0 {
      assert full == [] && full + chunk == chunk;
      assert chunk[..|chunk|] == chunk && chunk[|chunk|..] == [];
    } else {
      var front, rest := full[..CHUNK_SIZE], full[CHUNK_SIZE..];
      FramesAppend(f, index + 1, rest, count - 1, chunk);
      assert (full + chunk)[..CHUNK_SIZE] == front && (full + chunk)[CHUNK_SIZE..] == rest + chunk;
      assert Frame(f, index, front) + Frames(f, index + 1, rest) + Frame(f, index + count, chunk)
          == Frame(f, index, front) + (Frames(f, index + 1, rest) + Frame(f, index + count, chunk));
    }
  }

  /** An opened frame is the sealed frame of its chunk. */
  lemma OpenedFrame(f: Sealing, index: nat, n: nat, source: Bytes, chunk: Bytes)
    requires f.r.Lawful() && WellFormed(f.h) && |source| >= 8 + n + TAG_SIZE
    requires Unpack(source[..4]) == index && Unpack(source[4..8]) == n
    requires f.r.open(f.key, Nonce(f.h.noncePrefix, index), source[8..8 + n + TAG_SIZE], ChunkAad(f.r, f.domain, f.h, index, n)) == Some(chunk)
    ensures |chunk| == n && source == Frame(f, index, chunk) + source[8 + n + TAG_SIZE..]
  {
    hide ChunkAad, Unpack, Nonce, FrameHeader;
    OpenedChunk(f, index, n, source[8..8 + n + TAG_SIZE]);
    SplitFrame(source, index, n);
  }

  /** Reading one frame: its chunk has the declared length and the loop state advances. */
  lemma ReadOne(f: Sealing, bytes: Bytes, chunks: seq<Bytes>, index: nat, remaining: nat, source: Bytes, chunk: Bytes)
    requires f.r.Lawful() && WellFormed(f.h) && remaining > 0 && Reading(f, bytes, chunks, index, remaining, source)
    requires var n := Min(CHUNK_SIZE, remaining);
             && |source| >= 8 + n + TAG_SIZE && Unpack(source[..4]) == index && Unpack(source[4..8]) == n
             && f.r.open(f.key, Nonce(f.h.noncePrefix, index), source[8..8 + n + TAG_SIZE], ChunkAad(f.r, f.domain, f.h, index, n)) == Some(chunk)
    ensures var n := Min(CHUNK_SIZE, remaining);
            && |chunk| == n
            && Reading(f, bytes, chunks + [chunk], index + 1, remaining - n, source[8 + n + TAG_SIZE..])
            && LeadingFrames(f, bytes, chunks + [chunk])
  {
    hide ChunkAad, Unpack, Nonce, Frame, Frames, Flatten;
    var n := Min(CHUNK_SIZE, remaining);
    var plain, rest := Flatten(chunks), source[8 + n + TAG_SIZE..];
    OpenedFrame(f, index, n, source, chunk);
    FlattenSnoc(chunks, chunk);
    FramesAppend(f, 0, plain, index, chunk);
    assert Frames(f, 0, plain) + (Frame(f, index, chunk) + rest) == Frames(f, 0, plain) + Frame(f, index, chunk) + rest;
    PrependTwice(plain, chunk, OpenFrames(f, index + 1, remaining - n, rest));
  }

  /** The file begins with the encoding of these chunks under the header that was read. */
  predicate LeadsFile(r: Ring, domain: Bytes, file: Bytes, x: Expected, chunks: seq<Bytes>) {
    && ReadHeader(r, file, x).Ok?
    && var h := ReadHeader(r, file, x).value;
    && WellFormed(h) && r.derive(h.keyId, h.uploadId).Some?
    && FullButLast(chunks) && EncodeFile(SealingFor(r, domain, h), Flatten(chunks)) <= file
  }

  lemma LeadingFile(r: Ring, domain: Bytes, file: Bytes, x: Expected, chunks: seq<Bytes>)
    requires r.Lawful() && ReadHeader(r, file, x).Ok?
    requires var h := ReadHeader(r, file, x).value;
             && WellFormed(h) && r.derive(h.keyId, h.uploadId).Some?
             && LeadingFrames(SealingFor(r, domain, h), file[HeaderEnd(file[25])..], chunks)
    ensures LeadsFile(r, domain, file, x, chunks)
  {
    hide ParseHeader, Frames, Flatten, Canonical, HeaderTag, FullButLast;
    var cut := HeaderEnd(file[25]);
    ParsedIsHeader(r, file[..cut], x);
    var h := ReadHeader(r, file, x).value;
    var f := SealingFor(r, domain, h);
    assert file[..cut] == Encoded(r, f.key, h);
    PrefixAfter(file, cut, Frames(f, 0, Flatten(chunks)));
  }

  lemma PrefixAfter(file: Bytes, cut: nat, part: Bytes)
    requires cut <= |file| && part <= file[cut..]
    ensures file[..cut] + part <= file
  {
    assert file == file[..cut] + file[cut..];
  }

  /** The frame loop of the maintenance tools, with its counter and length checks. What it yields
      before an error are authentic leading frames. */
  method ReadFramesSync(f: Sealing, bytes: Bytes) returns (result: Result<Bytes, UploadError>, yielded: seq<Bytes>)
    requires f.r.Lawful() && WellFormed(f.h)
    ensures result == OpenFrames(f, 0, f.h.plaintextSize, bytes)
    ensures LeadingFrames(f, bytes, yielded) && (result.Ok? ==> Flatten(yielded) == result.value)
  {
    hide ChunkAad, Unpack, Nonce, WellFormed, Countable, Reading, LeadingFrames, Flatten;
    var source := bytes;
    var remaining: nat, index: nat := f.h.plaintextSize, 0;
    yielded := [];
    NothingRead(f, bytes);
    SizeCountable(f.h);
    while remaining != 0
      invariant Countable(index, remaining)
      invariant Reading(f, bytes, yielded, index, remaining, source) && LeadingFrames(f, bytes, yielded)
      decreases remaining
    {
      ReadingResult(f, bytes, yielded, index, remaining, source);
      CountableNext(index, remaining);
      if index > MAX_CHUNK_COUNTER { return Err(FormatError), yielded; }
      if |source| < FRAME_HEADER_SIZE { return Err(FormatError), yielded; }
      var n := Unpack(source[4..8]);
      if Unpack(source[..4]) != index || n != Min(CHUNK_SIZE, remaining) { return Err(FormatError), yielded; }
      if |source| < FRAME_HEADER_SIZE + n + TAG_SIZE { return Err(FormatError), yielded; }
      var cipher := source[8..8 + n + TAG_SIZE];
      var chunk := f.r.open(f.key, Nonce(f.h.noncePrefix, index), cipher, ChunkAad(f.r, f.domain, f.h, index, n));
      if chunk.None? { return Err(IntegrityError), yielded; }
      ReadOne(f, bytes, yielded, index, remaining, source, chunk.value);
      if |chunk.value| != n { return Err(IntegrityError), yielded; }
      yielded, source := yielded + [chunk.value], source[8 + n + TAG_SIZE..];
      remaining, index := remaining - n, index + 1;
    }
    ReadingResult(f, bytes, yielded, index, remaining, source);
    if source != [] { return Err(FormatError), yielded; }
    AllRead(f, bytes, yielded, index);
    return Ok(Flatten(yielded)), yielded;
  }

  /** The frame loop of downloads, which makes neither check and agrees all the same. */
  method ReadFramesAsync(f: Sealing, bytes: Bytes) returns (result: Result<Bytes, UploadError>, yielded: seq<Bytes>)
    requires f.r.Lawful() && WellFormed(f.h)
    ensures result == OpenFrames(f, 0, f.h.plaintextSize, bytes)
    ensures LeadingFrames(f, bytes, yielded) && (result.Ok? ==> Flatten(yielded) == result.value)
  {
    hide ChunkAad, Unpack, Nonce, WellFormed, Countable, Reading, LeadingFrames, Flatten;
    var source := bytes;
    var remaining: nat, index: nat := f.h.plaintextSize, 0;
    yielded := [];
    NothingRead(f, bytes);
    while remaining != 0
      invariant Reading(f, bytes, yielded, index, remaining, source) && LeadingFrames(f, bytes, yielded)
      decreases remaining
    {
      ReadingResult(f, bytes, yielded, index, remaining, source);
      if |source| < FRAME_HEADER_SIZE { return Err(FormatError), yielded; }
      var n := Unpack(source[4..8]);
      if Unpack(source[..4]) != index || n != Min(CHUNK_SIZE, remaining) { return Err(FormatError), yielded; }
      if |source| < FRAME_HEADER_SIZE + n + TAG_SIZE { return Err(FormatError), yielded; }
      var cipher := source[8..8 + n + TAG_SIZE];
      var chunk := f.r.open(f.key, Nonce(f.h.noncePrefix, index), cipher, ChunkAad(f.r, f.domain, f.h, index, n));
      if chunk.None? { return Err(IntegrityError), yielded; }
      ReadOne(f, bytes, yielded, index, remaining, source, chunk.value);
      yielded, source := yielded + [chunk.value], source[8 + n + TAG_SIZE..];
      remaining, index := remaining - n, index + 1;
    }
    ReadingResult(f, bytes, yielded, index, remaining, source);
    if source != [] { return Err(FormatError), yielded; }
    AllRead(f, bytes, yielded, index);
    return Ok(Flatten(yielded)), yielded;
  }

  method DecodeSync(r: Ring, domain: Bytes, file: Bytes, x: Expected) returns (result: Result<Bytes, UploadError>, yielded: seq<Bytes>)
    requires r.Lawful()
    ensures result == Decode(r, domain, file, x)
    ensures result.Ok? ==> Flatten(yielded) == result.value
    ensures yielded != [] ==> LeadsFile(r, domain, file, x, yielded)
  {
    hide ParseHeader, OpenFrames, LeadingFrames, Flatten;
    var header := ReadHeader(r, file, x);
    if header.Err? { return Err(header.error), []; }
    var h := header.value;
    ParsedIsHeader(r, file[..HeaderEnd(file[25])], x);
    if x.size.Some? && x.size.value != h.plaintextSize { return Err(IntegrityError), []; }
    result, yielded := ReadFramesSync(SealingFor(r, domain, h), file[HeaderEnd(file[25])..]);
    LeadingFile(r, domain, file, x, yielded);
  }

  method DecodeAsync(r: Ring, domain: Bytes, file: Bytes, x: Expected) returns (result: Result<Bytes, UploadError>, yielded: seq<Bytes>)
    requires r.Lawful()
    ensures result == Decode(r, domain, file, x)
    ensures result.Ok? ==> Flatten(yielded) == result.value
    ensures yielded != [] ==> LeadsFile(r, domain, file, x, yielded)
  {
    hide ParseHeader, OpenFrames, LeadingFrames, Flatten;
    var header := ReadHeader(r, file, x);
    if header.Err? { return Err(header.error), []; }
    var h := header.value;
    ParsedIsHeader(r, file[..HeaderEnd(file[25])], x);
    if x.size.Some? && x.size.value != h.plaintextSize { return Err(IntegrityError), []; }
    result, yielded := ReadFramesAsync(SealingFor(r, domain, h), file[HeaderEnd(file[25])..]);
    LeadingFile(r, domain, file, x, yielded);
  }

  // ----- nonces -----

  /** How many frames a plaintext of the given size has. */
  function FrameCount(size: nat): nat {
    if size == 0 then 0 else 1 + FrameCount(size - Min(CHUNK_SIZE, size))
  }

  /** The frame count is the ceiling of size / 65536. */
  lemma {:induction false} FrameCountBound(size: nat)
    ensures size <= FrameCount(size) * CHUNK_SIZE < size + CHUNK_SIZE
  {
    if size > 0 {
      FrameCountBound(size - Min(CHUNK_SIZE, size));
    }
  }

  /** A plaintext is sealed in exactly that many frames, each with its own tag. */
  lemma {:induction false} FramesLength(f: Sealing, index: nat, plain: Bytes)
    requires f.r.Lawful() && WellFormed(f.h)
    ensures |Frames(f, index, plain)| == |plain| + FrameCount(|plain|) * (FRAME_HEADER_SIZE + TAG_SIZE)
    ensures |plain| <= FrameCount(|plain|) * CHUNK_SIZE < |plain| + CHUNK_SIZE
    decreases |plain|
  {
    FrameCountBound(|plain|);
    if plain != [] {
      hide ChunkAad, Pack;
      FramesLength(f, index + 1, plain[Min(CHUNK_SIZE, |plain|)..]);
    }
  }

  /** No two seals of one file, header included, share a nonce (NIST SP 800-38D, section 8). */
  lemma NoncesDistinct(h: Header, i: nat, j: nat)
    requires WellFormed(h) && i < FrameCount(h.plaintextSize) && j < FrameCount(h.plaintextSize)
    ensures i != j ==> Nonce(h.noncePrefix, i) != Nonce(h.noncePrefix, j)
    ensures Nonce(h.noncePrefix, i) != Nonce(h.noncePrefix, HEADER_COUNTER)
  {
    hide Pack;
    FrameCountBound(h.plaintextSize);
    assert i <= 0x100_0000 && j <= 0x100_0000;
    if i != j {
      NonceInjective(h.noncePrefix, i, j);
    }
    NonceInjective(h.noncePrefix, i, HEADER_COUNTER);
  }

  lemma NonceInjective(prefix: Bytes, m: nat, n: nat)
    requires m < 0x1_0000_0000 && n < 0x1_0000_0000 && m != n
    ensures Nonce(prefix, m) != Nonce(prefix, n)
  {
    hide Pack;
    PowerValues();
    UnpackPack(m, 4);
    UnpackPack(n, 4);
    assert Nonce(prefix, m)[|prefix|..] == Pack(m, 4) && Nonce(prefix, n)[|prefix|..] == Pack(n, 4);
  }
}
