/** Encrypting and decrypting backup artifacts, and what an accepted artifact can be
    (internal/backupcrypt/encrypt.go:178-307). */
module BackupCrypt {
  import opened Wrappers
  import opened BackupFormat

  // ---------------------------------------------------------------- chunks

  /** Chunking loses nothing and every chunk is full except perhaps the last. */
  lemma {:induction false} ChunksCoverThePlaintext(plain: Bytes)
    ensures Join(Chunks(plain)) == plain
    ensures forall i :: 0 <= i < |Chunks(plain)| ==> 0 < |Chunks(plain)[i]| <= 65536
    ensures forall i :: 0 <= i < |Chunks(plain)| - 1 ==> |Chunks(plain)[i]| == 65536
    decreases |plain|
  {
    if |plain| > CHUNK_SIZE {
      ChunksCoverThePlaintext(plain[CHUNK_SIZE..]);
      assert Join(Chunks(plain)) == plain[..CHUNK_SIZE] + plain[CHUNK_SIZE..];
    } else if plain != [] {
      assert [plain][1..] == [];
    }
  }

  ghost predicate FitChunks(chunks: seq<Bytes>) {
    forall i :: 0 <= i < |chunks| ==> |chunks[i]| <= CHUNK_SIZE
  }

  // ---------------------------------------------------------------- streaming methods

  /** The 32-bit counter of a loop wraps just as the counter in the nonce does. */
  lemma CounterWraps(prefix: Bytes, index: nat)
    ensures ChunkNonce(prefix, index % COUNTERS) == ChunkNonce(prefix, index)
    ensures (index % COUNTERS + 1) % COUNTERS == (index + 1) % COUNTERS
  {
    var c := index % COUNTERS;
    assert c % COUNTERS == c;
    if c + 1 < COUNTERS {
      assert (index + 1) % COUNTERS == c + 1;
    } else {
      assert index + 1 == (index / COUNTERS + 1) * COUNTERS;
    }
  }

  /** The chunk loop of EncryptFile. */
  method WriteChunks(a: Aead, prefix: Bytes, header: Bytes, src: Bytes) returns (out: Bytes)
    ensures out == Records(a, prefix, header, Chunks(src), 0)
  {
    out := [];
    var rest, counter, last := src, 0, false;
    ghost var index: nat := 0;
    while !last
      invariant counter == index % COUNTERS && (last ==> rest == [])
      invariant out + Records(a, prefix, header, Chunks(rest), index) == Records(a, prefix, header, Chunks(src), 0)
      decreases |rest|, !last
    {
      CounterWraps(prefix, index);
      var n := if |rest| < CHUNK_SIZE then |rest| else CHUNK_SIZE;
      last := n < CHUNK_SIZE;
      if n > 0 {
        WrittenNext(a, prefix, header, out, rest, index);
        out := out + Record(a, prefix, header, rest[..n], counter);
      }
      rest, counter, index := rest[n..], (counter + 1) % COUNTERS, index + 1;
    }
  }

  /** One more record written, one less to write. */
  lemma WrittenNext(a: Aead, prefix: Bytes, header: Bytes, out: Bytes, rest: Bytes, index: nat)
    requires rest != []
    ensures var n := if |rest| < CHUNK_SIZE then |rest| else CHUNK_SIZE;
      out + Records(a, prefix, header, Chunks(rest), index) ==
        (out + Record(a, prefix, header, rest[..n], index % COUNTERS))
        + Records(a, prefix, header, Chunks(rest[n..]), index + 1)
  {
    NextRecord(a, prefix, header, rest, index);
    CounterWraps(prefix, index);
  }

  /** EncryptFile over a readable source: a destination that is already there is not touched. */
  method EncryptFile(src: Bytes, taken: bool, key: Option<Key>, prefix: Bytes)
    returns (r: Result<(), Failure>, dst: Bytes)
    ensures r == if key.None? then Err(KeyMissing) else if taken then Err(OutputExists) else Ok(())
    ensures dst == if r.Ok? then Artifact(key.value, prefix, src) else []
  {
    dst := [];
    if key.None? { return Err(KeyMissing), dst; }
    if taken { return Err(OutputExists), dst; }
    var header := Header(key.value.id, prefix);
    var records := WriteChunks(key.value.aead, prefix, header, src);
    return Ok(()), header + (records + TERMINATOR);
  }

  /** The records of what is left begin with the record of the next read. */
  lemma NextRecord(a: Aead, prefix: Bytes, header: Bytes, rest: Bytes, counter: nat)
    requires rest != []
    ensures var n := if |rest| < CHUNK_SIZE then |rest| else CHUNK_SIZE;
      Records(a, prefix, header, Chunks(rest), counter) ==
        Record(a, prefix, header, rest[..n], counter) + Records(a, prefix, header, Chunks(rest[n..]), counter + 1)
  {
    if |rest| <= CHUNK_SIZE {
      assert rest[..|rest|] == rest && rest[|rest|..] == [] && [rest][1..] == [];
    }
  }

  /** What a run of the chunk loop adds to bytes already written. */
  function After(written: Bytes, rest: Outcome): Outcome {
    Outcome(rest.verdict, written + rest.written)
  }

  lemma AfterAgain(written: Bytes, plain: Bytes, rest: Outcome)
    ensures After(written, Outcome(rest.verdict, plain + rest.written)) == After(written + plain, rest)
  {
  }

  /** The chunk loop of DecryptFile: `dst` is what was written, also on failure. */
  method ReadChunks(a: Aead, prefix: Bytes, header: Bytes, src: Bytes) returns (r: Result<(), Failure>, dst: Bytes)
    ensures Outcome(r, dst) == Unframe(a, prefix, header, src, 0)
  {
    dst := [];
    var rest, counter := src, 0;
    ghost var index: nat := 0;
    while true
      invariant counter == index % COUNTERS
      invariant Unframe(a, prefix, header, src, 0) == After(dst, Unframe(a, prefix, header, rest, index))
      decreases |rest|
    {
      CounterWraps(prefix, index);
      if |rest| < 4 { return Err(Tampered), dst; }
      var n := FromU32(rest[..4]);
      if n == 0 {
        if |rest| > 4 { return Err(Tampered), dst; }
        return Ok(()), dst;
      }
      if n < OVERHEAD || n > CHUNK_SIZE + OVERHEAD { return Err(Tampered), dst; }
      if |rest| < 4 + n { return Err(Tampered), dst; }
      var plain := a.open(ChunkNonce(prefix, counter), rest[4..4 + n], header);
      if plain.None? { return Err(Tampered), dst; }
      AfterAgain(dst, plain.value, Unframe(a, prefix, header, rest[4 + n..], index + 1));
      dst := dst + plain.value;
      rest, counter, index := rest[4 + n..], (counter + 1) % COUNTERS, index + 1;
    }
  }

  /** DecryptFile over a readable source; `dst` is what was written, also on failure. */
  method DecryptFile(src: Bytes, taken: bool, key: Option<Key>)
    returns (r: Result<(), Failure>, dst: Bytes)
    ensures key.None? ==> r == Err(KeyMissing) && dst == []
    ensures key.Some? && !taken ==> Outcome(r, dst) == Decrypt(key.value, src)
    ensures key.Some? && taken ==> r.Err? && dst == []
  {
    dst := [];
    if key.None? { return Err(KeyMissing), dst; }
    var head := ReadHeader(src);
    if head.Err? { return Err(head.error), dst; }
    if head.value.id != key.value.id { return Err(WrongKey), dst; }
    if taken { return Err(OutputExists), dst; }
    r, dst := ReadChunks(
      key.value.aead, head.value.prefix, Header(head.value.id, head.value.prefix), src[head.value.size..]);
  }

  // ---------------------------------------------------------------- what is accepted

  lemma RecordAt(a: Aead, prefix: Bytes, header: Bytes, chunk: Bytes, counter: nat, rest: Bytes)
    requires Lawful(a) && |chunk| <= CHUNK_SIZE
    ensures var s := Record(a, prefix, header, chunk, counter) + rest;
      var n := |chunk| + OVERHEAD;
      && |s| == 4 + n + |rest| && FromU32(s[..4]) == n && s[4 + n..] == rest
      && a.open(ChunkNonce(prefix, counter), s[4..4 + n], header) == Some(chunk)
  {
    var nonce := ChunkNonce(prefix, counter);
    var sealed := a.seal(nonce, chunk, header);
    assert SealsBack(a, nonce, chunk, header);
    U32RoundTrip(|sealed|);
    var s := Record(a, prefix, header, chunk, counter) + rest;
    assert s[..4] == U32(|sealed|) && s[4..4 + |sealed|] == sealed;
  }

  lemma {:induction false} UnframeRecords(a: Aead, prefix: Bytes, header: Bytes, chunks: seq<Bytes>, counter: nat)
    requires Lawful(a) && FitChunks(chunks)
    ensures Unframe(a, prefix, header, Records(a, prefix, header, chunks, counter) + TERMINATOR, counter)
         == Outcome(Ok(()), Join(chunks))
    decreases chunks
  {
    if chunks == [] {
      U32RoundTrip(0);
      assert [] + TERMINATOR == TERMINATOR && TERMINATOR[..4] == U32(0);
    } else {
      var rest := Records(a, prefix, header, chunks[1..], counter + 1) + TERMINATOR;
      RecordAt(a, prefix, header, chunks[0], counter, rest);
      assert Records(a, prefix, header, chunks, counter) + TERMINATOR
        == Record(a, prefix, header, chunks[0], counter) + rest;
      UnframeRecords(a, prefix, header, chunks[1..], counter + 1);
    }
  }

  /** Any chunks framed under a usable key id decrypt to their concatenation; under any other key
      id the very same key refuses the artifact and writes nothing. */
  lemma FramedDecrypts(key: Key, prefix: Bytes, chunks: seq<Bytes>)
    requires Lawful(key.aead) && FitChunks(chunks) && |prefix| == PREFIX_SIZE
    ensures var r := Decrypt(key, Framed(key, prefix, chunks));
      if 1 <= |key.id| <= MAX_KEY_ID then r == Outcome(Ok(()), Join(chunks))
      else r.verdict in {Err(BadFormat), Err(WrongKey)} && r.written == []
  {
    var header := Header(key.id, prefix);
    var rest := Records(key.aead, prefix, header, chunks, 0) + TERMINATOR;
    HeaderRoundTrip(key.id, prefix, rest);
    assert (header + rest)[|header|..] == rest;
    UnframeRecords(key.aead, prefix, header, chunks, 0);
  }

  /** Decryption gives back every plaintext, of any length, exactly when the key id has 1 to 1024
      bytes. Key parsing only refuses the empty id, so a longer one yields artifacts nobody can
      read. */
  lemma RoundTripExactlyForUsableIds(key: Key, prefix: Bytes, plain: Bytes)
    requires Lawful(key.aead) && |prefix| == 8
    ensures Decrypt(key, Artifact(key, prefix, plain)) == Outcome(Ok(()), plain) <==> 1 <= |key.id| <= 1024
    ensures !(1 <= |key.id| <= 1024) ==> Decrypt(key, Artifact(key, prefix, plain)).verdict.Err?
  {
    ChunksCoverThePlaintext(plain);
    FramedDecrypts(key, prefix, Chunks(plain));
  }

  /** A record that opens is the record of what it opens to. */
  lemma OpenedIsARecord(a: Aead, prefix: Bytes, header: Bytes, s: Bytes, counter: nat)
    requires Lawful(a) && |s| >= 4
    requires var n := FromU32(s[..4]);
      SizeAllowed(n) && |s| >= 4 + n && a.open(ChunkNonce(prefix, counter), s[4..4 + n], header).Some?
    ensures var n := FromU32(s[..4]);
      var plain := a.open(ChunkNonce(prefix, counter), s[4..4 + n], header).value;
      |plain| <= CHUNK_SIZE && s == Record(a, prefix, header, plain, counter) + s[4 + n..]
  {
    var n := FromU32(s[..4]);
    var nonce, sealed := ChunkNonce(prefix, counter), s[4..4 + n];
    var plain := a.open(nonce, sealed, header).value;
    assert OpensSealed(a, nonce, sealed, header) && SealsBack(a, nonce, plain, header);
    U32FromRoundTrip(s[..4]);
    assert s == (s[..4] + sealed) + s[4 + n..];
  }

  /** The chunks an accepted body was made of. */
  lemma {:induction false} AcceptedBodyIsRecords(a: Aead, prefix: Bytes, header: Bytes, s: Bytes, counter: nat)
    returns (chunks: seq<Bytes>)
    requires Lawful(a) && Unframe(a, prefix, header, s, counter).verdict.Ok?
    ensures FitChunks(chunks) && s == Records(a, prefix, header, chunks, counter) + TERMINATOR
    ensures Unframe(a, prefix, header, s, counter).written == Join(chunks)
    decreases |s|
  {
    AcceptedBodyShape(a, prefix, header, s, counter);
    var n := FromU32(s[..4]);
    if n == 0 {
      ZeroIsTheTerminator(s);
      chunks := [];
      assert Records(a, prefix, header, chunks, counter) + TERMINATOR == TERMINATOR;
    } else {
      OpenedIsARecord(a, prefix, header, s, counter);
      var rest := AcceptedBodyIsRecords(a, prefix, header, s[4 + n..], counter + 1);
      var chunk := a.open(ChunkNonce(prefix, counter), s[4..4 + n], header).value;
      chunks := [chunk] + rest;
      RecordsUnfold(a, prefix, header, chunk, rest, counter);
    }
  }

  lemma ZeroIsTheTerminator(s: Bytes)
    requires |s| == 4 && FromU32(s[..4]) == 0
    ensures s == TERMINATOR
  {
    U32FromRoundTrip(s);
    assert s[..4] == s;
  }

  lemma RecordsUnfold(a: Aead, prefix: Bytes, header: Bytes, chunk: Bytes, rest: seq<Bytes>, counter: nat)
    ensures Records(a, prefix, header, [chunk] + rest, counter) + TERMINATOR
         == Record(a, prefix, header, chunk, counter) + (Records(a, prefix, header, rest, counter + 1) + TERMINATOR)
    ensures Join([chunk] + rest) == chunk + Join(rest)
  {
    assert ([chunk] + rest)[1..] == rest;
  }

  /** The accepted artifacts are exactly the framed ones: a header of this key, records sealed under
      consecutive counters, and the terminator. */
  lemma AcceptedIsFramed(key: Key, s: Bytes) returns (prefix: Bytes, chunks: seq<Bytes>)
    requires Lawful(key.aead) && Decrypt(key, s).verdict.Ok?
    ensures |prefix| == PREFIX_SIZE && FitChunks(chunks) && 1 <= |key.id| <= MAX_KEY_ID
    ensures s == Framed(key, prefix, chunks) && Decrypt(key, s).written == Join(chunks)
  {
    var p := ReadHeader(s).value;
    ReadHeaderReadsAHeader(s);
    prefix := p.prefix;
    chunks := AcceptedBodyIsRecords(key.aead, p.prefix, Header(p.id, p.prefix), s[p.size..], 0);
    assert s == s[..p.size] + s[p.size..];
  }

  // ---------------------------------------------------------------- truncation and extension

  /** An accepted body is the terminator, or a record and an accepted body. */
  lemma AcceptedBodyShape(a: Aead, prefix: Bytes, header: Bytes, s: Bytes, counter: nat)
    requires Unframe(a, prefix, header, s, counter).verdict.Ok?
    ensures |s| >= 4
    ensures var n := FromU32(s[..4]);
      if n == 0 then |s| == 4 else |s| >= 4 + n && Unframe(a, prefix, header, s[4 + n..], counter + 1).verdict.Ok?
  {
  }

  lemma SameParts(s: Bytes, t: Bytes, n: nat)
    requires n <= |s| && n <= |t| && s[..n] == t[..n] && s[n..] == t[n..]
    ensures s == t
  {
    assert s == s[..n] + s[n..] && t == t[..n] + t[n..];
  }

  /** Length fields that lead exactly to a terminator at the end. */
  predicate Delimited(s: Bytes)
    decreases |s|
  {
    |s| >= 4 &&
    var n := FromU32(s[..4]);
    if n == 0 then |s| == 4 else |s| >= 4 + n && Delimited(s[4 + n..])
  }

  lemma {:induction false} AcceptedBodiesAreDelimited(a: Aead, prefix: Bytes, header: Bytes, s: Bytes, counter: nat)
    requires Unframe(a, prefix, header, s, counter).verdict.Ok?
    ensures Delimited(s)
    decreases |s|
  {
    AcceptedBodyShape(a, prefix, header, s, counter);
    var n := FromU32(s[..4]);
    if n != 0 {
      AcceptedBodiesAreDelimited(a, prefix, header, s[4 + n..], counter + 1);
    }
  }

  lemma {:induction false} DelimitedArePrefixFree(s: Bytes, t: Bytes)
    requires Delimited(s) && Delimited(t) && s <= t
    ensures s == t
    decreases |s|
  {
    SamePrefix(s, t, 4);
    var n := FromU32(s[..4]);
    if n != 0 {
      SamePrefix(s, t, 4 + n);
      DelimitedArePrefixFree(s[4 + n..], t[4 + n..]);
      SameParts(s, t, 4 + n);
    }
  }

  lemma SamePrefix(s: Bytes, t: Bytes, n: nat)
    requires s <= t && n <= |s|
    ensures s[..n] == t[..n] && s[n..] <= t[n..]
    ensures n >= 4 ==> s[4..n] == t[4..n]
  {
  }

  lemma ReadHeaderIgnoresTheRest(s: Bytes, t: Bytes)
    requires s <= t && ReadHeader(s).Ok?
    ensures ReadHeader(t) == ReadHeader(s)
  {
    assert s[..|MAGIC|] == t[..|MAGIC|] && s[|MAGIC| + 1..FIXED] == t[|MAGIC| + 1..FIXED];
    var n := FromU16(s[|MAGIC| + 1..FIXED]);
    assert s[FIXED..FIXED + n] == t[FIXED..FIXED + n];
    assert s[FIXED + n..FIXED + n + PREFIX_SIZE] == t[FIXED + n..FIXED + n + PREFIX_SIZE];
  }

  /** No accepted artifact is a proper prefix of another, so cutting bytes off the end of one, or
      adding bytes to it, is always refused. */
  lemma AcceptedArePrefixFree(key: Key, s: Bytes, t: Bytes)
    requires Decrypt(key, s).verdict.Ok? && Decrypt(key, t).verdict.Ok? && s <= t
    ensures s == t
  {
    ReadHeaderIgnoresTheRest(s, t);
    var p := ReadHeader(s).value;
    AcceptedBodiesAreDelimited(key.aead, p.prefix, Header(p.id, p.prefix), s[p.size..], 0);
    AcceptedBodiesAreDelimited(key.aead, p.prefix, Header(p.id, p.prefix), t[p.size..], 0);
    DelimitedArePrefixFree(s[p.size..], t[p.size..]);
    assert s == s[..p.size] + s[p.size..] && t == t[..p.size] + t[p.size..];
  }
}
