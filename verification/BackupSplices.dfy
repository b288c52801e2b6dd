/** What an artifact can contain when nobody can forge a sealed chunk: only a cut of one encrypted
    plaintext, never a reordering, a repetition or a splice (internal/backupcrypt/encrypt.go:144-307). */
module BackupSplices {
  import opened Wrappers
  import opened BackupFormat
  import opened BackupCrypt

  /** One encryption under the key: the nonce prefix it drew and the plaintext. */
  datatype Encryption = Encryption(prefix: Bytes, plain: Bytes)

  /** The encryptions drew different prefixes and stayed within the counter. */
  ghost predicate Proper(runs: set<Encryption>) {
    && (forall e :: e in runs ==> |e.prefix| == PREFIX_SIZE && |Chunks(e.plain)| < COUNTERS)
    && (forall e, d :: e in runs && d in runs && e.prefix == d.prefix ==> e == d)
  }

  /** Some encryption sealed these bytes as its chunk number `i` under this nonce and header. */
  ghost predicate SealedAs(key: Key, e: Encryption, i: nat, nonce: Bytes, sealed: Bytes, header: Bytes) {
    && i < |Chunks(e.plain)|
    && nonce == ChunkNonce(e.prefix, i) && header == Header(key.id, e.prefix)
    && sealed == key.aead.seal(nonce, Chunks(e.plain)[i], header)
  }

  ghost predicate Sealed(key: Key, runs: set<Encryption>, nonce: Bytes, sealed: Bytes, header: Bytes) {
    exists e, i :: e in runs && SealedAs(key, e, i, nonce, sealed, header)
  }

  /** Nothing in these bytes opens unless an encryption sealed it. */
  ghost predicate NoForgery(key: Key, runs: set<Encryption>, prefix: Bytes, header: Bytes, s: Bytes) {
    forall i: nat, j: nat, n: nat :: i <= j <= |s| && key.aead.open(ChunkNonce(prefix, n), s[i..j], header).Some? ==>
      Sealed(key, runs, ChunkNonce(prefix, n), s[i..j], header)
  }

  lemma NoncesDiffer(prefix: Bytes, i: nat, j: nat)
    requires i < COUNTERS && j < COUNTERS && ChunkNonce(prefix, i) == ChunkNonce(prefix, j)
    ensures i == j
  {
    SmallCounter(i);
    SmallCounter(j);
    SameTail(prefix, U32(i), U32(j));
    U32RoundTrip(i);
    U32RoundTrip(j);
  }

  lemma SmallCounter(i: nat)
    requires i < COUNTERS
    ensures i % COUNTERS == i
  {
  }

  lemma SameTail(a: Bytes, b: Bytes, c: Bytes)
    requires a + b == a + c
    ensures b == c
  {
    assert (a + b)[|a|..] == b && (a + c)[|a|..] == c;
  }

  lemma HeaderTellsThePrefix(id: Bytes, p: Bytes, q: Bytes)
    requires |p| == |q| && Header(id, p) == Header(id, q)
    ensures p == q
  {
    var n := |Header(id, p)| - |p|;
    assert Header(id, p)[n..] == p && Header(id, q)[n..] == q;
  }

  /** A chunk that opens under counter `n` of this artifact is chunk `n` of the plaintext, so there is
      such a chunk. */
  lemma OpensOnlyInPlace(key: Key, runs: set<Encryption>, e: Encryption, s: Bytes, i: nat, j: nat, n: nat)
    requires Lawful(key.aead) && Proper(runs) && e in runs && n <= |Chunks(e.plain)| && i <= j <= |s|
    requires NoForgery(key, runs, e.prefix, Header(key.id, e.prefix), s)
    ensures var plain := key.aead.open(ChunkNonce(e.prefix, n), s[i..j], Header(key.id, e.prefix));
      plain.Some? ==> n < |Chunks(e.plain)| && plain.value == Chunks(e.plain)[n]
  {
    var nonce, header := ChunkNonce(e.prefix, n), Header(key.id, e.prefix);
    if key.aead.open(nonce, s[i..j], header).Some? {
      assert Sealed(key, runs, nonce, s[i..j], header);
      var d, k: nat :| d in runs && SealedAs(key, d, k, nonce, s[i..j], header);
      HeaderTellsThePrefix(key.id, e.prefix, d.prefix);
      assert d == e;
      NoncesDiffer(e.prefix, n, k);
      assert SealsBack(key.aead, nonce, Chunks(e.plain)[n], header);
    }
  }

  /** Read from counter `n`, the bytes `s` write the chunks `n..k` of the plaintext, and are only
      accepted when they are the records of those chunks followed by the terminator. */
  ghost predicate Follows(key: Key, e: Encryption, s: Bytes, n: nat, k: nat) {
    && n <= k <= |Chunks(e.plain)|
    && Unframe(key.aead, e.prefix, Header(key.id, e.prefix), s, n).written == Join(Chunks(e.plain)[n..k])
    && (Unframe(key.aead, e.prefix, Header(key.id, e.prefix), s, n).verdict.Ok? ==>
          s == Records(key.aead, e.prefix, Header(key.id, e.prefix), Chunks(e.plain)[n..k], n) + TERMINATOR)
  }

  /** The next record of `s` opens under counter `n`. */
  predicate NextOpens(key: Key, prefix: Bytes, s: Bytes, n: nat) {
    |s| >= 4 &&
    var size := FromU32(s[..4]);
    SizeAllowed(size) && |s| >= 4 + size
    && key.aead.open(ChunkNonce(prefix, n), s[4..4 + size], Header(key.id, prefix)).Some?
  }

  lemma NothingMore(key: Key, e: Encryption, s: Bytes, n: nat)
    requires n <= |Chunks(e.plain)| && !NextOpens(key, e.prefix, s, n)
    ensures Follows(key, e, s, n, n)
  {
    assert Chunks(e.plain)[n..n] == [];
    if |s| == 4 && FromU32(s[..4]) == 0 {
      assert s[..4] == s;
      U32FromRoundTrip(s);
      U32RoundTrip(0);
      assert Records(key.aead, e.prefix, Header(key.id, e.prefix), [], n) + TERMINATOR == TERMINATOR;
    }
  }

  lemma OneMore(key: Key, e: Encryption, s: Bytes, n: nat, k: nat)
    requires Lawful(key.aead) && NextOpens(key, e.prefix, s, n) && n < |Chunks(e.plain)|
    requires var size := FromU32(s[..4]);
      && key.aead.open(ChunkNonce(e.prefix, n), s[4..4 + size], Header(key.id, e.prefix)) == Some(Chunks(e.plain)[n])
      && Follows(key, e, s[4 + size..], n + 1, k)
    ensures Follows(key, e, s, n, k)
  {
    var chunks, header := Chunks(e.plain), Header(key.id, e.prefix);
    OpenedIsARecord(key.aead, e.prefix, header, s, n);
    assert chunks[n..k] == [chunks[n]] + chunks[n + 1..k];
    assert chunks[n..k][1..] == chunks[n + 1..k];
  }

  /** From counter `n` on, what gets written is a run of the next chunks. */
  lemma {:induction false} BodyFollowsTheChunks(
    key: Key, runs: set<Encryption>, e: Encryption, s: Bytes, at: nat, n: nat) returns (k: nat)
    requires Lawful(key.aead) && Proper(runs) && e in runs && n <= |Chunks(e.plain)| && at <= |s|
    requires NoForgery(key, runs, e.prefix, Header(key.id, e.prefix), s)
    ensures Follows(key, e, s[at..], n, k)
    decreases |s| - at
  {
    var rest := s[at..];
    if NextOpens(key, e.prefix, rest, n) {
      var next := at + 4 + FromU32(rest[..4]);
      SliceOfSlice(s, at, 4, next - at);
      OpensOnlyInPlace(key, runs, e, s, at + 4, next, n);
      k := BodyFollowsTheChunks(key, runs, e, s, next, n + 1);
      OneMore(key, e, rest, n, k);
    } else {
      NothingMore(key, e, rest, n);
      k := n;
    }
  }

  lemma SliceOfSlice(s: Bytes, at: nat, i: nat, j: nat)
    requires i <= j && at + j <= |s|
    ensures s[at..][i..j] == s[at + i..at + j] && s[at..][j..] == s[at + j..]
  {
  }

  /** Chunks from the front are a cut of the plaintext at a multiple of the chunk size. */
  lemma {:induction false} FirstChunksAreACut(plain: Bytes, k: nat)
    requires k <= |Chunks(plain)|
    ensures var cut := if k * CHUNK_SIZE < |plain| then k * CHUNK_SIZE else |plain|;
      Join(Chunks(plain)[..k]) == plain[..cut]
    decreases k
  {
    if k > 0 {
      var chunks := Chunks(plain);
      assert chunks[..k][1..] == chunks[1..][..k - 1];
      if |plain| > CHUNK_SIZE {
        assert chunks[1..] == Chunks(plain[CHUNK_SIZE..]);
        FirstChunksAreACut(plain[CHUNK_SIZE..], k - 1);
      }
    }
  }

  /** The plaintext up to a chunk boundary, or all of it. */
  function Cut(plain: Bytes, k: nat): Bytes
    requires k <= |Chunks(plain)|
  {
    plain[..if k * CHUNK_SIZE < |plain| then k * CHUNK_SIZE else |plain|]
  }

  lemma WritesACut(key: Key, runs: set<Encryption>, e: Encryption, s: Bytes) returns (k: nat)
    requires Lawful(key.aead) && Proper(runs) && e in runs
    requires ReadHeader(s).Ok? && ReadHeader(s).value.prefix == e.prefix
    requires NoForgery(key, runs, e.prefix, Header(key.id, e.prefix), s)
    ensures k <= |Chunks(e.plain)| && Decrypt(key, s).written == Cut(e.plain, k)
    ensures Decrypt(key, s).verdict.Ok? ==> s == Framed(key, e.prefix, Chunks(e.plain)[..k])
  {
    var p, chunks := ReadHeader(s).value, Chunks(e.plain);
    ReadHeaderReadsAHeader(s);
    if p.id == key.id {
      k := BodyFollowsTheChunks(key, runs, e, s, p.size, 0);
      assert chunks[0..k] == chunks[..k] && s == s[..p.size] + s[p.size..];
      FirstChunksAreACut(e.plain, k);
    } else {
      k := 0;
    }
  }

  /** An artifact that starts like that of one encryption writes, whether or not it is accepted, only
      that plaintext cut at a chunk boundary, and is accepted exactly when it is the first chunks of
      that very artifact with the terminator moved up: nothing can be reordered, repeated or taken
      from another artifact. */
  lemma AcceptedExactlyWhenCut(key: Key, runs: set<Encryption>, e: Encryption, s: Bytes)
    requires Lawful(key.aead) && Proper(runs) && e in runs && 1 <= |key.id| <= MAX_KEY_ID
    requires ReadHeader(s).Ok? && ReadHeader(s).value.prefix == e.prefix
    requires NoForgery(key, runs, e.prefix, Header(key.id, e.prefix), s)
    ensures exists k: nat :: k <= |Chunks(e.plain)| && Decrypt(key, s).written == Cut(e.plain, k)
    ensures Decrypt(key, s).verdict.Ok? <==>
      exists k: nat :: k <= |Chunks(e.plain)| && s == Framed(key, e.prefix, Chunks(e.plain)[..k])
  {
    var k := WritesACut(key, runs, e, s);
    ChunksCoverThePlaintext(e.plain);
    forall k: nat | k <= |Chunks(e.plain)| && s == Framed(key, e.prefix, Chunks(e.plain)[..k])
      ensures Decrypt(key, s).verdict.Ok?
    {
      FramedDecrypts(key, e.prefix, Chunks(e.plain)[..k]);
    }
  }

  lemma HeadersDiffer(id: Bytes, p: Bytes, q: Bytes)
    requires |p| == |q| && p != q
    ensures Header(id, p) != Header(id, q)
  {
    if Header(id, p) == Header(id, q) { HeaderTellsThePrefix(id, p, q); }
  }

  lemma NobodySealed(key: Key, runs: set<Encryption>, prefix: Bytes, nonce: Bytes, sealed: Bytes)
    requires forall e :: e in runs ==> e.prefix != prefix && |e.prefix| == |prefix|
    ensures !Sealed(key, runs, nonce, sealed, Header(key.id, prefix))
  {
    forall e | e in runs ensures Header(key.id, e.prefix) != Header(key.id, prefix) {
      HeadersDiffer(key.id, e.prefix, prefix);
    }
  }

  lemma NothingOpens(key: Key, runs: set<Encryption>, prefix: Bytes, s: Bytes, at: nat)
    requires at <= |s| && NoForgery(key, runs, prefix, Header(key.id, prefix), s)
    requires forall e :: e in runs ==> e.prefix != prefix && |e.prefix| == |prefix|
    ensures !NextOpens(key, prefix, s[at..], 0)
  {
    var rest := s[at..];
    if |rest| >= 4 && SizeAllowed(FromU32(rest[..4])) && |rest| >= 4 + FromU32(rest[..4]) {
      var size := FromU32(rest[..4]);
      SliceOfSlice(s, at, 4, 4 + size);
      NobodySealed(key, runs, prefix, ChunkNonce(prefix, 0), s[at + 4..at + 4 + size]);
    }
  }

  /** An artifact under a header no encryption made writes nothing at all; it is accepted, as an empty
      file, exactly when it is that header and the terminator: the header of an artifact without
      chunks is not authenticated. */
  lemma ForeignHeaderWritesNothing(key: Key, runs: set<Encryption>, s: Bytes)
    requires Lawful(key.aead) && ReadHeader(s).Ok? && 1 <= |key.id| <= MAX_KEY_ID
    requires forall e :: e in runs ==> e.prefix != ReadHeader(s).value.prefix && |e.prefix| == PREFIX_SIZE
    requires NoForgery(key, runs, ReadHeader(s).value.prefix, Header(key.id, ReadHeader(s).value.prefix), s)
    ensures Decrypt(key, s).written == []
    ensures Decrypt(key, s).verdict.Ok? <==> s == Framed(key, ReadHeader(s).value.prefix, [])
  {
    var p := ReadHeader(s).value;
    ReadHeaderReadsAHeader(s);
    if p.id == key.id {
      var rest, nobody := s[p.size..], Encryption(p.prefix, []);
      NothingOpens(key, runs, p.prefix, s, p.size);
      NothingMore(key, nobody, rest, 0);
      assert s == s[..p.size] + rest && Chunks(nobody.plain)[0..0] == [];
    }
    if s == Framed(key, p.prefix, []) {
      FramedDecrypts(key, p.prefix, []);
    }
  }

  /** The package promises that a truncated artifact always fails. Dropping whole chunks from the end
      and keeping the terminator is accepted and yields the shortened plaintext: nothing binds the
      number of chunks. */
  lemma ShortenedArtifactIsAccepted(key: Key, e: Encryption, k: nat)
    requires Lawful(key.aead) && 1 <= |key.id| <= MAX_KEY_ID && |e.prefix| == PREFIX_SIZE && k <= |Chunks(e.plain)|
    ensures Decrypt(key, Framed(key, e.prefix, Chunks(e.plain)[..k])) == Outcome(Ok(()), Cut(e.plain, k))
  {
    ChunksCoverThePlaintext(e.plain);
    FirstChunksAreACut(e.plain, k);
    FramedDecrypts(key, e.prefix, Chunks(e.plain)[..k]);
  }
}
