/** The encrypted backup artifact as a printer and a parser over byte sequences, around an abstract
    authenticated cipher (internal/backupcrypt/encrypt.go). */
module BackupFormat {
  import opened Wrappers

  const CHUNK_SIZE := 65536
  const OVERHEAD := 16
  const PREFIX_SIZE := 8
  const MAX_KEY_ID := 1024
  const VERSION: Byte := 1
  const COUNTERS := 0x1_0000_0000

  /** The magic "CARBONENC". */
  const MAGIC: Bytes := [67, 65, 82, 66, 79, 78, 69, 78, 67]

  datatype Failure = KeyMissing | BadFormat | WrongKey | Tampered | OutputExists

  /** A cipher instance: seal(nonce, plain, header) and open(nonce, sealed, header). */
  datatype Aead = Aead(seal: (Bytes, Bytes, Bytes) -> Bytes, open: (Bytes, Bytes, Bytes) -> Option<Bytes>)

  datatype Key = Key(id: Bytes, aead: Aead)

  /** Opening accepts exactly what sealing makes, and sealing adds the tag. */
  ghost predicate Lawful(a: Aead) {
    && (forall nonce: Bytes, plain: Bytes, header: Bytes :: SealsBack(a, nonce, plain, header))
    && (forall nonce: Bytes, sealed: Bytes, header: Bytes :: OpensSealed(a, nonce, sealed, header))
  }

  predicate SealsBack(a: Aead, nonce: Bytes, plain: Bytes, header: Bytes) {
    var sealed := a.seal(nonce, plain, header);
    |sealed| == |plain| + OVERHEAD && a.open(nonce, sealed, header) == Some(plain)
  }

  predicate OpensSealed(a: Aead, nonce: Bytes, sealed: Bytes, header: Bytes) {
    var plain := a.open(nonce, sealed, header);
    plain.Some? ==> sealed == a.seal(nonce, plain.value, header)
  }

  // ---------------------------------------------------------------- fixed-width numbers

  function U16(n: nat): Bytes {
    [n / 256 % 256, n % 256]
  }

  function U32(n: nat): Bytes {
    [n / 0x100_0000 % 256, n / 0x1_0000 % 256, n / 0x100 % 256, n % 256]
  }

  function FromU16(s: Bytes): nat
    requires |s| == 2
  {
    s[0] as int * 0x100 + s[1]
  }

  function FromU32(s: Bytes): nat
    requires |s| == 4
  {
    s[0] as int * 0x100_0000 + s[1] as int * 0x1_0000 + s[2] as int * 0x100 + s[3]
  }

  lemma U16RoundTrip(n: nat)
    ensures |U16(n)| == 2 && FromU16(U16(n)) == n % 0x1_0000
  {
    var q := n / 256;
    assert n == q * 256 + n % 256 && q == q / 256 * 256 + q % 256;
    assert n == q / 256 * 0x1_0000 + (q % 256 * 256 + n % 256);
  }

  lemma U32RoundTrip(n: nat)
    ensures |U32(n)| == 4 && FromU32(U32(n)) == n % COUNTERS
  {
    var q3 := n / 0x100;
    var q2 := q3 / 0x100;
    assert n / 0x1_0000 == q2 && n / 0x100_0000 == q2 / 0x100;
  }

  lemma U32FromRoundTrip(s: Bytes)
    requires |s| == 4
    ensures FromU32(s) < COUNTERS && U32(FromU32(s)) == s
  {
    var n := FromU32(s);
    assert n / 0x100 == s[0] as int * 0x1_0000 + s[1] as int * 0x100 + s[2];
    assert n / 0x1_0000 == s[0] as int * 0x100 + s[1];
    assert n / 0x100_0000 == s[0];
  }

  // ---------------------------------------------------------------- printing

  /** The header; its bytes are authenticated with every chunk. */
  function Header(id: Bytes, prefix: Bytes): Bytes {
    MAGIC + [VERSION] + U16(|id|) + id + prefix
  }

  /** The nonce of a chunk: a prefix fixed per artifact and a 32-bit counter that wraps. */
  function ChunkNonce(prefix: Bytes, counter: nat): Bytes {
    prefix + U32(counter % COUNTERS)
  }

  /** A plaintext in chunks as the streaming reader cuts it: none for an empty file. */
  function Chunks(plain: Bytes): seq<Bytes> {
    if plain == [] then []
    else if |plain| <= CHUNK_SIZE then [plain]
    else [plain[..CHUNK_SIZE]] + Chunks(plain[CHUNK_SIZE..])
  }

  function Join(chunks: seq<Bytes>): Bytes {
    if chunks == [] then [] else chunks[0] + Join(chunks[1..])
  }

  function Record(a: Aead, prefix: Bytes, header: Bytes, chunk: Bytes, counter: nat): Bytes {
    var sealed := a.seal(ChunkNonce(prefix, counter), chunk, header);
    U32(|sealed|) + sealed
  }

  /** The records of consecutive chunks, the first under `counter`. */
  function Records(a: Aead, prefix: Bytes, header: Bytes, chunks: seq<Bytes>, counter: nat): Bytes {
    if chunks == [] then []
    else Record(a, prefix, header, chunks[0], counter) + Records(a, prefix, header, chunks[1..], counter + 1)
  }

  const TERMINATOR: Bytes := [0, 0, 0, 0]

  /** The chunks framed as an artifact. */
  function Framed(key: Key, prefix: Bytes, chunks: seq<Bytes>): Bytes {
    Header(key.id, prefix) + (Records(key.aead, prefix, Header(key.id, prefix), chunks, 0) + TERMINATOR)
  }

  function Artifact(key: Key, prefix: Bytes, plain: Bytes): Bytes {
    Framed(key, prefix, Chunks(plain))
  }

  // ---------------------------------------------------------------- parsing

  datatype Parsed = Parsed(id: Bytes, prefix: Bytes, size: nat)

  const FIXED := |MAGIC| + 3

  /** readHeader: the key id, the nonce prefix and how many bytes they took. */
  function ReadHeader(s: Bytes): (r: Result<Parsed, Failure>)
    ensures r.Ok? ==> r.value.size <= |s|
  {
    if |s| < FIXED || s[..|MAGIC|] != MAGIC || s[|MAGIC|] != VERSION then Err(BadFormat)
    else
      var n := FromU16(s[|MAGIC| + 1..FIXED]);
      if n == 0 || n > MAX_KEY_ID || |s| < FIXED + n + PREFIX_SIZE then Err(BadFormat)
      else Ok(Parsed(s[FIXED..FIXED + n], s[FIXED + n..FIXED + n + PREFIX_SIZE], FIXED + n + PREFIX_SIZE))
  }

  /** What a decryption leaves: its verdict and the bytes written out, also when it fails. */
  datatype Outcome = Outcome(verdict: Result<(), Failure>, written: Bytes)

  const REJECTED := Outcome(Err(Tampered), [])

  predicate SizeAllowed(n: nat) {
    OVERHEAD <= n <= CHUNK_SIZE + OVERHEAD
  }

  /** The chunk loop of DecryptFile. */
  function Unframe(a: Aead, prefix: Bytes, header: Bytes, s: Bytes, counter: nat): Outcome
    decreases |s|
  {
    if |s| < 4 then REJECTED
    else
      var n := FromU32(s[..4]);
      if n == 0 then if |s| > 4 then REJECTED else Outcome(Ok(()), [])
      else if !SizeAllowed(n) || |s| < 4 + n then REJECTED
      else match a.open(ChunkNonce(prefix, counter), s[4..4 + n], header)
        case None => REJECTED
        case Some(plain) =>
          var rest := Unframe(a, prefix, header, s[4 + n..], counter + 1);
          Outcome(rest.verdict, plain + rest.written)
  }

  function Decrypt(key: Key, s: Bytes): Outcome {
    match ReadHeader(s)
    case Err(e) => Outcome(Err(e), [])
    case Ok(p) =>
      if p.id != key.id then Outcome(Err(WrongKey), [])
      else Unframe(key.aead, p.prefix, Header(p.id, p.prefix), s[p.size..], 0)
  }

  // ---------------------------------------------------------------- header round trip

  lemma HeaderAt(id: Bytes, prefix: Bytes, rest: Bytes)
    ensures var s := Header(id, prefix) + rest;
      && |s| >= FIXED && s[..|MAGIC|] == MAGIC && s[|MAGIC|] == VERSION && s[|MAGIC| + 1..FIXED] == U16(|id|)
      && s[FIXED..] == id + prefix + rest
  {
    var s := Header(id, prefix) + rest;
    assert s == MAGIC + ([VERSION] + U16(|id|) + (id + prefix + rest));
    assert s == MAGIC + [VERSION] + U16(|id|) + (id + prefix + rest);
  }

  /** A header reads back exactly for key ids of 1 to 1024 bytes. For every other id the reader
      refuses the header or finds a different id, since the length field is only 16 bits wide. */
  lemma HeaderRoundTrip(id: Bytes, prefix: Bytes, rest: Bytes)
    requires |prefix| == 8
    ensures var r := ReadHeader(Header(id, prefix) + rest);
      if 1 <= |id| <= 1024 then r == Ok(Parsed(id, prefix, |Header(id, prefix)|))
      else r == Err(BadFormat) || (r.Ok? && r.value.id != id)
  {
    HeaderAt(id, prefix, rest);
    U16RoundTrip(|id|);
    var s := Header(id, prefix) + rest;
    if 1 <= |id| <= MAX_KEY_ID {
      assert s[FIXED..FIXED + |id|] == s[FIXED..][..|id|] == id;
      assert s[FIXED + |id|..FIXED + |id| + PREFIX_SIZE] == s[FIXED..][|id|..|id| + PREFIX_SIZE] == prefix;
    }
  }

  lemma U16IsBigEndian(n: nat)
    requires n < 65536
    ensures |U16(n)| == 2 && n == U16(n)[0] as int * 256 + U16(n)[1]
  {
    assert n / 256 % 256 == n / 256;
  }

  lemma U32IsBigEndian(n: nat)
    requires n < 4294967296
    ensures |U32(n)| == 4
    ensures n == U32(n)[0] as int * 16777216 + U32(n)[1] as int * 65536 + U32(n)[2] as int * 256 + U32(n)[3]
  {
    U32RoundTrip(n);
  }

  /** The bytes of a header, one after the other: the magic "CARBONENC", the version 1, the length of the
      key id as two big-endian bytes, the id, the nonce prefix. */
  lemma HeaderLayout(id: Bytes, prefix: Bytes)
    requires |id| < 65536
    ensures var h := Header(id, prefix);
      && |h| == 12 + |id| + |prefix|
      && h[..9] == [67, 65, 82, 66, 79, 78, 69, 78, 67] && h[9] == 1
      && h[10] as int * 256 + h[11] == |id|
      && h[12..12 + |id|] == id && h[12 + |id|..] == prefix
  {
    U16IsBigEndian(|id|);
    HeaderAt(id, prefix, []);
    var h := Header(id, prefix);
    assert h + [] == h && id + prefix + [] == id + prefix;
    assert h[10..12] == U16(|id|) && h[12..] == id + prefix;
    assert h[10] == U16(|id|)[0] && h[11] == U16(|id|)[1];
    assert h[12..12 + |id|] == h[12..][..|id|] && h[12 + |id|..] == h[12..][|id|..];
  }

  /** The nonce of a chunk: the prefix and the counter as four big-endian bytes. */
  lemma NonceLayout(prefix: Bytes, counter: nat)
    requires counter < 4294967296
    ensures var nonce := ChunkNonce(prefix, counter);
      && |nonce| == |prefix| + 4 && nonce[..|prefix|] == prefix
      && counter == nonce[|prefix|] as int * 16777216 + nonce[|prefix| + 1] as int * 65536
                    + nonce[|prefix| + 2] as int * 256 + nonce[|prefix| + 3]
  {
    U32IsBigEndian(counter);
    var nonce := ChunkNonce(prefix, counter);
    assert counter % COUNTERS == counter && nonce[|prefix|..] == U32(counter);
    assert forall i :: 0 <= i < 4 ==> nonce[|prefix| + i] == nonce[|prefix|..][i];
  }

  /** The record of a chunk: the length of the sealed chunk as four big-endian bytes, and the chunk sealed
      under its nonce with the header authenticated. */
  lemma RecordLayout(a: Aead, prefix: Bytes, header: Bytes, chunk: Bytes, counter: nat)
    requires Lawful(a) && |chunk| <= 65536
    ensures var r := Record(a, prefix, header, chunk, counter);
      var sealed := a.seal(ChunkNonce(prefix, counter), chunk, header);
      && r[0] as int * 16777216 + r[1] as int * 65536 + r[2] as int * 256 + r[3] == |chunk| + 16 == |sealed|
      && r[4..] == sealed
  {
    assert SealsBack(a, ChunkNonce(prefix, counter), chunk, header);
    U32IsBigEndian(|chunk| + OVERHEAD);
  }

  /** An artifact is its header, its records under the counters 0, 1, 2, ..., and four zero bytes. */
  lemma ArtifactLayout(key: Key, prefix: Bytes, plain: Bytes)
    ensures var a, h := Artifact(key, prefix, plain), Header(key.id, prefix);
      && h <= a && (plain == [] ==> a == h + [0, 0, 0, 0])
      && (0 < |plain| <= 65536 ==> a == h + (Record(key.aead, prefix, h, plain, 0) + [0, 0, 0, 0]))
  {
    var h := Header(key.id, prefix);
    if 0 < |plain| <= 65536 {
      assert Records(key.aead, prefix, h, [plain], 0)
          == Record(key.aead, prefix, h, plain, 0) + Records(key.aead, prefix, h, [plain][1..], 1);
    }
  }

  /** Why a decryption fails: before it opens a chunk for the header or the key id, later as tampered. */
  lemma DecryptRefuses(key: Key, s: Bytes)
    ensures ReadHeader(s).Err? ==> Decrypt(key, s) == Outcome(Err(BadFormat), [])
    ensures ReadHeader(s).Ok? && ReadHeader(s).value.id != key.id ==> Decrypt(key, s) == Outcome(Err(WrongKey), [])
    ensures ReadHeader(s).Ok? && ReadHeader(s).value.id == key.id ==> Decrypt(key, s).verdict in {Ok(()), Err(Tampered)}
  {
    if ReadHeader(s).Ok? {
      var p := ReadHeader(s).value;
      ChunksFailAsTampered(key.aead, p.prefix, Header(p.id, p.prefix), s[p.size..], 0);
    }
  }

  lemma {:induction false} ChunksFailAsTampered(a: Aead, prefix: Bytes, header: Bytes, s: Bytes, counter: nat)
    ensures Unframe(a, prefix, header, s, counter).verdict in {Ok(()), Err(Tampered)}
    decreases |s|
  {
    if |s| >= 4 && FromU32(s[..4]) > 0 && SizeAllowed(FromU32(s[..4])) && |s| >= 4 + FromU32(s[..4]) {
      ChunksFailAsTampered(a, prefix, header, s[4 + FromU32(s[..4])..], counter + 1);
    }
  }

  /** Whatever reads as a header is one: the bytes read are the header of the id and prefix found. */
  lemma ReadHeaderReadsAHeader(s: Bytes)
    requires ReadHeader(s).Ok?
    ensures var p := ReadHeader(s).value;
      1 <= |p.id| <= MAX_KEY_ID && |p.prefix| == PREFIX_SIZE && s[..p.size] == Header(p.id, p.prefix)
  {
    var p := ReadHeader(s).value;
    var l := s[|MAGIC| + 1..FIXED];
    assert U16(FromU16(l)) == l;
    assert s[..p.size] == s[..|MAGIC|] + [s[|MAGIC|]] + l + p.id + p.prefix;
  }
}
