/** The auth server's download protocol (AuthServ/AuthServer.cpp:640-757). */
module Download {
  import opened Bytes
  import opened BufferStream
  import opened Ciphers
  import opened CipherBlocks
  import opened EncryptedStream

  const CHUNK := 0x8000

  /** The downloads in progress: what is sent, and how much has been. */
  type Pending = map<word, Model>

  datatype Reply =
    | Chunk(transId: word, size: nat, offset: nat, data: seq<byte>)
    | FileNotFound(transId: word)
    | NoReply

  /** A client's request; a file that cannot be opened is None. */
  datatype Request = Start(transId: word, file: Option<seq<byte>>, seen: seq<byte>) | Next(transId: word)

  // ---- the protocol on values ----

  /** The first chunk; the rest is kept when there is more. */
  function Started(m: Pending, id: word, bytes: seq<byte>): (r: (Pending, Reply)) {
    if |bytes| > CHUNK then (m[id := Model(bytes, CHUNK)], Chunk(id, |bytes|, 0, bytes[..CHUNK]))
    else (m, Chunk(id, |bytes|, 0, bytes))
  }

  /** The next chunk of a stream. */
  function Advanced(id: word, s: Model): (r: (Model, Reply))
    requires s.Valid()
    ensures r.0.Valid()
  {
    var n := Min(CHUNK, |s.bytes| - s.cursor);
    (Model(s.bytes, s.cursor + n), Chunk(id, |s.bytes|, s.cursor, s.bytes[s.cursor..s.cursor + n]))
  }

  predicate LastChunk(s: Model) {
    |s.bytes| - s.cursor <= CHUNK
  }

  function Without<T>(m: map<word, T>, id: word): (r: map<word, T>)
    ensures forall k :: k in r <==> k in m && k != id
    ensures forall k :: k in r ==> r[k] == m[k]
  {
    m - {id}
  }

  lemma WithoutUpdated<T>(m: map<word, T>, id: word, x: T)
    ensures Without(m[id := x], id) == Without(m, id)
  {
  }

  function Continued(m: Pending, id: word): (r: (Pending, Reply))
    requires ValidPending(m)
  {
    if id !in m then (m, NoReply)
    else
      var (s, reply) := Advanced(id, m[id]);
      (if LastChunk(m[id]) then Without(m, id) else m[id := s], reply)
  }

  predicate ValidPending(m: Pending) {
    forall id :: id in m ==> m[id].Valid()
  }

  /** What is sent for a file: one that is already encrypted as it is, any other sealed. seen is what
      the check of the magic sees: the first twelve bytes, if there are as many. */
  function Outgoing(k: Key, file: seq<byte>, seen: seq<byte>): seq<byte>
    requires |file| < 0x1_0000_0000
  {
    if TypeOf(seen).Some? then file else Sealed(Xxtea, k, file)
  }

  predicate Sendable(req: Request) {
    req.Start? && req.file.Some? ==>
      |req.file.value| < 0xFFFF_FF00 && |req.seen| == 12 && (|req.file.value| >= 12 ==> req.seen == req.file.value[..12])
  }

  function Handled(k: Key, m: Pending, req: Request): (r: (Pending, Reply))
    requires ValidPending(m) && Sendable(req)
    ensures ValidPending(r.0)
  {
    match req
    case Start(id, None, _) => (m, FileNotFound(id))
    case Start(id, Some(file), seen) => Started(m, id, Outgoing(k, file, seen))
    case Next(id) => Continued(m, id)
  }

  /** The replies to a sequence of requests, and the downloads that are left. */
  function Served(k: Key, m: Pending, reqs: seq<Request>): (r: (Pending, seq<Reply>))
    requires ValidPending(m) && forall i :: 0 <= i < |reqs| ==> Sendable(reqs[i])
    ensures ValidPending(r.0) && |r.1| == |reqs|
    decreases |reqs|
  {
    if reqs == [] then (m, [])
    else
      var (m1, replies) := Served(k, m, reqs[..|reqs| - 1]);
      var (m2, reply) := Handled(k, m1, reqs[|reqs| - 1]);
      (m2, replies + [reply])
  }

  // ---- one transaction among others ----

  /** The chunks of transaction id, in order. */
  function ChunksOf(id: word, replies: seq<Reply>): seq<Reply> {
    if replies == [] then []
    else
      var last := replies[|replies| - 1];
      ChunksOf(id, replies[..|replies| - 1]) + (if last.Chunk? && last.transId == id then [last] else [])
  }

  /** How often the client asks for the next chunk of id. */
  function Asked(id: word, reqs: seq<Request>): nat {
    if reqs == [] then 0
    else Asked(id, reqs[..|reqs| - 1]) + (if reqs[|reqs| - 1] == Next(id) then 1 else 0)
  }

  function DataOf(r: Reply): seq<byte> {
    if r.Chunk? then r.data else []
  }

  function Joined(chunks: seq<Reply>): seq<byte> {
    if chunks == [] then [] else Joined(chunks[..|chunks| - 1]) + DataOf(chunks[|chunks| - 1])
  }

  /** The number of chunks of a transaction. */
  function ChunkCount(size: nat): (n: nat)
    ensures n >= 1
    ensures size > 0 ==> (n - 1) * CHUNK < size <= n * CHUNK
    ensures size == 0 ==> n == 1
  {
    if size <= CHUNK then 1 else 1 + ChunkCount(size - CHUNK)
  }

  /** r is chunk number i of a transaction that sends bytes. */
  predicate ChunkAt(id: word, bytes: seq<byte>, i: nat, r: Reply) {
    i * CHUNK <= |bytes| && r == Chunk(id, |bytes|, i * CHUNK, bytes[i * CHUNK..Min((i + 1) * CHUNK, |bytes|)])
  }

  /** chunks are the first of a transaction that sends bytes: each announces the size and the number of
      bytes already sent. */
  predicate FirstChunks(id: word, bytes: seq<byte>, chunks: seq<Reply>) {
    && (forall i :: 0 <= i < |chunks| ==> ChunkAt(id, bytes, i, chunks[i]))
    && |chunks| <= ChunkCount(|bytes|)
    && Joined(chunks) == bytes[..Min(|chunks| * CHUNK, |bytes|)]
  }

  /** Where the transaction stands after its first n chunks. */
  predicate Standing(m: Pending, id: word, bytes: seq<byte>, n: nat) {
    if n < ChunkCount(|bytes|) then id in m && m[id] == Model(bytes, n * CHUNK) && n * CHUNK < |bytes|
    else id !in m
  }

  lemma NextChunk(id: word, bytes: seq<byte>, chunks: seq<Reply>, c: Reply)
    requires FirstChunks(id, bytes, chunks) && |chunks| < ChunkCount(|bytes|) && ChunkAt(id, bytes, |chunks|, c)
    ensures FirstChunks(id, bytes, chunks + [c])
  {
    hide ChunkCount;
    var more := chunks + [c];
    var p, q := |chunks| * CHUNK, Min((|chunks| + 1) * CHUNK, |bytes|);
    assert more[..|chunks|] == chunks;
    assert Joined(more) == Joined(chunks) + c.data;
    Glue(bytes, p, q);
    MoreChunks(id, bytes, chunks, c);
  }

  lemma MoreChunks(id: word, bytes: seq<byte>, chunks: seq<Reply>, c: Reply)
    requires ChunkAt(id, bytes, |chunks|, c) && forall i :: 0 <= i < |chunks| ==> ChunkAt(id, bytes, i, chunks[i])
    ensures forall i :: 0 <= i < |chunks + [c]| ==> ChunkAt(id, bytes, i, (chunks + [c])[i])
  {
    hide ChunkAt;
  }

  lemma Glue(s: seq<byte>, p: nat, q: nat)
    requires p <= q <= |s|
    ensures s[..p] + s[p..q] == s[..q]
  {
  }

  lemma ChunkCountUnique(size: nat, n: nat)
    requires n * CHUNK < size
    ensures n < ChunkCount(size)
    ensures n + 1 < ChunkCount(size) <==> (n + 1) * CHUNK < size
  {
  }

  /** The request for the next chunk. */
  lemma AskedStep(m: Pending, id: word, bytes: seq<byte>, n: nat)
    requires ValidPending(m) && Standing(m, id, bytes, n) && 1 <= n <= ChunkCount(|bytes|)
    ensures var (m', reply) := Continued(m, id);
            if n < ChunkCount(|bytes|) then ChunkAt(id, bytes, n, reply) && Standing(m', id, bytes, n + 1)
            else reply == NoReply && m' == m
  {
    hide ChunkCount;
    if n < ChunkCount(|bytes|) {
      ChunkCountUnique(|bytes|, n);
      assert bytes[n * CHUNK..|bytes|] == bytes[n * CHUNK..];
    }
  }

  /** A request for another transaction. */
  lemma OtherStep(k: Key, m: Pending, id: word, bytes: seq<byte>, n: nat, req: Request)
    requires ValidPending(m) && Sendable(req) && req.transId != id && Standing(m, id, bytes, n)
    ensures var (m', reply) := Handled(k, m, req);
            Standing(m', id, bytes, n) && !(reply.Chunk? && reply.transId == id)
  {
    hide ChunkCount, Outgoing;
  }

  function Extended(id: word, chunks: seq<Reply>, reply: Reply): seq<Reply> {
    if reply.Chunk? && reply.transId == id then chunks + [reply] else chunks
  }

  /** One more request. */
  lemma RequestStep(k: Key, m: Pending, id: word, bytes: seq<byte>, chunks: seq<Reply>, req: Request)
    requires ValidPending(m) && Sendable(req) && !(req.Start? && req.transId == id)
    requires FirstChunks(id, bytes, chunks) && Standing(m, id, bytes, |chunks|) && chunks != []
    ensures var (m', reply) := Handled(k, m, req);
            var more := Extended(id, chunks, reply);
            && FirstChunks(id, bytes, more) && Standing(m', id, bytes, |more|)
            && |more| == if req == Next(id) then Min(|chunks| + 1, ChunkCount(|bytes|)) else |chunks|
  {
    hide FirstChunks, ChunkAt, Standing, Handled, ChunkCount, Sendable;
    CountBounded(id, bytes, chunks);
    if req == Next(id) {
      NextHandled(k, m, id);
      AskedStep(m, id, bytes, |chunks|);
      if |chunks| < ChunkCount(|bytes|) {
        var reply := Handled(k, m, req).1;
        ChunkAtIs(id, bytes, |chunks|, reply);
        NextChunk(id, bytes, chunks, reply);
      }
    } else {
      OtherStep(k, m, id, bytes, |chunks|, req);
    }
  }

  lemma CountBounded(id: word, bytes: seq<byte>, chunks: seq<Reply>)
    requires FirstChunks(id, bytes, chunks)
    ensures |chunks| <= ChunkCount(|bytes|)
  {
  }

  /** Whatever else the client asks for in between, transaction id gets chunk after chunk. */
  lemma {:induction false} TransactionRuns(k: Key, m: Pending, id: word, bytes: seq<byte>, first: Reply, reqs: seq<Request>)
    requires ValidPending(m) && forall i :: 0 <= i < |reqs| ==> Sendable(reqs[i])
    requires forall i :: 0 <= i < |reqs| ==> !(reqs[i].Start? && reqs[i].transId == id)
    requires Standing(m, id, bytes, 1) && FirstChunks(id, bytes, [first])
    ensures var (m', replies) := Served(k, m, reqs);
            var chunks := [first] + ChunksOf(id, replies);
            && FirstChunks(id, bytes, chunks) && Standing(m', id, bytes, |chunks|)
            && |chunks| == Min(1 + Asked(id, reqs), ChunkCount(|bytes|))
    decreases |reqs|
  {
    hide FirstChunks, Standing, Handled, ChunkCount, Sendable, Served, ChunksOf, Asked;
    if reqs == [] {
      ServedNone(k, m, id);
      assert [first] + [] == [first];
    } else {
      var before := reqs[..|reqs| - 1];
      var req := reqs[|reqs| - 1];
      ServedStep(k, m, id, reqs);
      TransactionRuns(k, m, id, bytes, first, before);
      var (m1, replies) := Served(k, m, before);
      var reply := Handled(k, m1, req).1;
      RequestStep(k, m1, id, bytes, [first] + ChunksOf(id, replies), req);
      assert [first] + (ChunksOf(id, replies) + [reply]) == [first] + ChunksOf(id, replies) + [reply];
    }
  }

  lemma ServedNone(k: Key, m: Pending, id: word)
    requires ValidPending(m)
    ensures Served(k, m, []) == (m, []) && ChunksOf(id, []) == [] && Asked(id, []) == 0
  {
  }

  /** The last of the requests. */
  lemma ServedStep(k: Key, m: Pending, id: word, reqs: seq<Request>)
    requires ValidPending(m) && reqs != [] && forall i :: 0 <= i < |reqs| ==> Sendable(reqs[i])
    ensures var (m1, replies) := Served(k, m, reqs[..|reqs| - 1]);
            var req := reqs[|reqs| - 1];
            var (m2, reply) := Handled(k, m1, req);
            && Served(k, m, reqs) == (m2, replies + [reply])
            && ChunksOf(id, replies + [reply]) == Extended(id, ChunksOf(id, replies), reply)
            && Asked(id, reqs) == Asked(id, reqs[..|reqs| - 1]) + if req == Next(id) then 1 else 0
  {
    hide Handled, Sendable;
    var (m1, replies) := Served(k, m, reqs[..|reqs| - 1]);
    RepliesStep(id, replies, Handled(k, m1, reqs[|reqs| - 1]).1);
  }

  lemma NextHandled(k: Key, m: Pending, id: word)
    requires ValidPending(m)
    ensures Sendable(Next(id)) && Handled(k, m, Next(id)) == Continued(m, id)
  {
  }

  lemma ChunkAtIs(id: word, bytes: seq<byte>, i: nat, r: Reply)
    requires ChunkAt(id, bytes, i, r)
    ensures r.Chunk? && r.transId == id
  {
  }

  lemma RepliesStep(id: word, replies: seq<Reply>, reply: Reply)
    ensures ChunksOf(id, replies + [reply])
         == if reply.Chunk? && reply.transId == id then ChunksOf(id, replies) + [reply] else ChunksOf(id, replies)
  {
    assert (replies + [reply])[..|replies|] == replies;
  }

  /** The first chunk is right, and the transaction is on its way, if and only if its number was not in
      use or the file takes more than one chunk: a short file leaves an older download in place. */
  lemma StartsCleanlyIff(m: Pending, id: word, bytes: seq<byte>)
    requires ValidPending(m)
    ensures var (m', reply) := Started(m, id, bytes);
            && FirstChunks(id, bytes, [reply])
            && (Standing(m', id, bytes, 1) <==> id !in m || |bytes| > CHUNK)
  {
    var reply := Started(m, id, bytes).1;
    assert ChunkCount(|bytes|) > 1 <==> |bytes| > CHUNK;
    assert bytes[..Min(CHUNK, |bytes|)] == reply.data;
    assert Joined([reply]) == reply.data by {
      assert [reply][..0] == [];
      assert Joined([]) + reply.data == reply.data;
    }
  }

  /** A file that is sent in one piece under the number of a longer download: the next chunk is one of
      the older download. */
  lemma OlderDownloadGoesOn(k: Key, id: word, long: Request, short: Request)
    requires long.Start? && long.transId == id && long.file.Some? && Sendable(long)
    requires short.Start? && short.transId == id && short.file.Some? && Sendable(short)
    requires |Outgoing(k, long.file.value, long.seen)| > CHUNK >= |Outgoing(k, short.file.value, short.seen)|
    ensures var bytes, other := Outgoing(k, long.file.value, long.seen), Outgoing(k, short.file.value, short.seen);
            Served(k, map[], [long, short, Next(id)]).1
            == [Chunk(id, |bytes|, 0, bytes[..CHUNK]), Chunk(id, |other|, 0, other),
                Chunk(id, |bytes|, CHUNK, bytes[CHUNK..CHUNK + Min(CHUNK, |bytes| - CHUNK)])]
  {
    var bytes, other := Outgoing(k, long.file.value, long.seen), Outgoing(k, short.file.value, short.seen);
    hide Outgoing, Sendable, Served, Handled, Started;
    var none: Pending := map[];
    var m := none[id := Model(bytes, CHUNK)];
    StartHandled(k, none, long);
    StartHandled(k, m, short);
    NextHandled(k, m, id);
    ServedThree(k, long, short, Next(id));
    StartedIs(none, id, bytes);
    StartedIs(m, id, other);
    assert Continued(m, id).1 == Chunk(id, |bytes|, CHUNK, bytes[CHUNK..CHUNK + Min(CHUNK, |bytes| - CHUNK)]);
  }

  lemma StartHandled(k: Key, m: Pending, req: Request)
    requires ValidPending(m) && Sendable(req) && req.Start? && req.file.Some?
    ensures Handled(k, m, req) == Started(m, req.transId, Outgoing(k, req.file.value, req.seen))
  {
    hide Outgoing;
  }

  lemma StartedIs(m: Pending, id: word, bytes: seq<byte>)
    ensures |bytes| > CHUNK ==> Started(m, id, bytes) == (m[id := Model(bytes, CHUNK)], Chunk(id, |bytes|, 0, bytes[..CHUNK]))
    ensures |bytes| <= CHUNK ==> Started(m, id, bytes) == (m, Chunk(id, |bytes|, 0, bytes))
  {
  }

  lemma ServedThree(k: Key, a: Request, b: Request, c: Request)
    requires Sendable(a) && Sendable(b) && Sendable(c)
    ensures var (m1, r1) := Handled(k, map[], a);
            var (m2, r2) := Handled(k, m1, b);
            Served(k, map[], [a, b, c]).1 == [r1, r2, Handled(k, m2, c).1]
  {
    hide Handled, Sendable;
    var none: Pending := map[];
    assert [a, b, c][..2] == [a, b] && [a, b][..1] == [a] && [a][..0] == [];
    assert Served(k, none, []) == (none, []);
    assert Served(k, none, [a]).1 == [Handled(k, none, a).1];
    assert Served(k, none, [a, b]).0 == Handled(k, Handled(k, none, a).0, b).0;
  }

  /** Witness: a plain file of one chunk, which takes two when it is sealed, and then an empty plain file
      under the same number, which is sent as sixteen bytes. */
  lemma ShortFileUnderUsedNumber(k: Key)
    ensures var long, short := Start(1, Some(Zeros(CHUNK)), Zeros(12)), Start(1, Some([]), Zeros(12));
            var bytes := Sealed(Xxtea, k, Zeros(CHUNK));
            && Sendable(long) && Sendable(short) && |bytes| == CHUNK + HEADER
            && Served(k, map[], [long, short, Next(1)]).1
               == [Chunk(1, |bytes|, 0, bytes[..CHUNK]), Chunk(1, HEADER, 0, Sealed(Xxtea, k, [])),
                   Chunk(1, |bytes|, CHUNK, bytes[CHUNK..])]
  {
    hide Sealed, Served;
    assert TEA_MAGIC[0] != 0 && OLD_TEA_MAGIC[0] != 0 && XXTEA_MAGIC[0] != 0;
    assert Zeros(12)[0] == 0 && TypeOf(Zeros(12)).None?;
    assert Padded(Zeros(CHUNK)) == Zeros(CHUNK) && Padded([]) == [];
    var long, short := Start(1, Some(Zeros(CHUNK)), Zeros(12)), Start(1, Some([]), Zeros(12));
    var bytes := Sealed(Xxtea, k, Zeros(CHUNK));
    OlderDownloadGoesOn(k, 1, long, short);
    assert Outgoing(k, Zeros(CHUNK), Zeros(12)) == bytes && Outgoing(k, [], Zeros(12)) == Sealed(Xxtea, k, []);
    assert bytes[CHUNK..CHUNK + HEADER] == bytes[CHUNK..];
  }

  /** The end-to-end property: once the client has asked often enough, and however its requests are
      interleaved with other transactions, the chunks of a download number max(1, ceil(size / CHUNK)),
      join to what is sent for the file, and the transaction is over; a file that was encrypted
      before is what they join to, and any other is what the joined chunks decipher to. */
  lemma DownloadDelivers(k: Key, m: Pending, id: word, file: seq<byte>, seen: seq<byte>, reqs: seq<Request>)
    requires ValidPending(m) && Sendable(Start(id, Some(file), seen)) && forall i :: 0 <= i < |reqs| ==> Sendable(reqs[i])
    requires forall i :: 0 <= i < |reqs| ==> !(reqs[i].Start? && reqs[i].transId == id)
    requires var bytes := Outgoing(k, file, seen);
             (id !in m || |bytes| > CHUNK) && 1 + Asked(id, reqs) >= ChunkCount(|bytes|)
    ensures var bytes := Outgoing(k, file, seen);
            var (m1, first) := Handled(k, m, Start(id, Some(file), seen));
            var (m2, replies) := Served(k, m1, reqs);
            var chunks := [first] + ChunksOf(id, replies);
            && |chunks| == ChunkCount(|bytes|) && (forall i :: 0 <= i < |chunks| ==> ChunkAt(id, bytes, i, chunks[i]))
            && Joined(chunks) == bytes && id !in m2
            && (TypeOf(seen).Some? ==> Joined(chunks) == file)
            && (TypeOf(seen).None? ==> Deciphered(k, Joined(chunks)) == Padded(file) && Announced(Joined(chunks)) == |file|)
  {
    hide Sealed, Served, ChunkAt, ChunkCount, TypeOf, Joined, ChunksOf, Asked, Handled, Sendable;
    DownloadJoins(k, m, Start(id, Some(file), seen), reqs);
    SendableFits(Start(id, Some(file), seen));
    OutgoingIs(k, file, seen);
    SealedOpens(Xxtea, k, file);
  }

  lemma SendableFits(req: Request)
    requires Sendable(req) && req.Start? && req.file.Some?
    ensures |req.file.value| < 0x1_0000_0000
  {
  }

  lemma OutgoingIs(k: Key, file: seq<byte>, seen: seq<byte>)
    requires |file| < 0x1_0000_0000
    ensures Outgoing(k, file, seen) == if TypeOf(seen).Some? then file else Sealed(Xxtea, k, file)
  {
  }

  /** The chunks of a download that starts cleanly and is asked for often enough. */
  lemma DownloadJoins(k: Key, m: Pending, start: Request, reqs: seq<Request>)
    requires ValidPending(m) && Sendable(start) && start.Start? && start.file.Some?
    requires forall i :: 0 <= i < |reqs| ==> Sendable(reqs[i]) && !(reqs[i].Start? && reqs[i].transId == start.transId)
    requires var bytes := Outgoing(k, start.file.value, start.seen);
             (start.transId !in m || |bytes| > CHUNK) && 1 + Asked(start.transId, reqs) >= ChunkCount(|bytes|)
    ensures var id, bytes := start.transId, Outgoing(k, start.file.value, start.seen);
            var (m1, first) := Handled(k, m, start);
            var (m2, replies) := Served(k, m1, reqs);
            var chunks := [first] + ChunksOf(id, replies);
            && |chunks| == ChunkCount(|bytes|) && (forall i :: 0 <= i < |chunks| ==> ChunkAt(id, bytes, i, chunks[i]))
            && Joined(chunks) == bytes && id !in m2
  {
    hide Outgoing, Served, ChunkAt, ChunkCount, Joined, ChunksOf, Asked, Handled, Started;
    SendableFits(start);
    hide Sendable;
    var id, bytes := start.transId, Outgoing(k, start.file.value, start.seen);
    StartHandled(k, m, start);
    var (m1, first) := Handled(k, m, start);
    StartsCleanlyIff(m, id, bytes);
    TransactionRuns(k, m1, id, bytes, first, reqs);
    CountCovers(|bytes|);
    assert bytes[..|bytes|] == bytes;
  }

  /** The size of a chunk: a file of 32768 bytes takes one, and of one more byte two. */
  lemma ChunkBytes()
    ensures ChunkCount(32768) == 1 && ChunkCount(32769) == 2
  {
    assert ChunkCount(1) == 1;
  }

  lemma CountCovers(size: nat)
    ensures size <= ChunkCount(size) * CHUNK
  {
  }

  /** The length in the header of an encrypted stream, and its deciphered blocks. */
  function Announced(bytes: seq<byte>): nat {
    FromLe32(HeaderOf(bytes)[12..])
  }

  function Deciphered(k: Key, bytes: seq<byte>): seq<byte> {
    DecBlocks(Xxtea, k, Blocks(Body(bytes)))
  }

  // ---- the handlers ----

  method SealFile(file: seq<byte>, key: Key) returns (stream: BufferStream)
    requires |file| < 0x1_0000_0000
    ensures fresh(stream) && fresh(stream.buffer) && stream.Valid()
    ensures stream.Contents().bytes == Sealed(Xxtea, key, file)
  {
    hide Sealed, Written, EncBlocks;
    stream := new BufferStream();
    var enc := new EncryptedStream.Create(stream, Xxtea, key);
    var p := 0;
    while p < |file|
      invariant 0 <= p <= |file|
      invariant fresh(enc) && fresh(enc.buffer) && fresh(stream.buffer) && enc.base == stream && enc.mode == WriteMode
      invariant enc.Writing() && enc.ty == Xxtea && enc.key == key && enc.plain == file[..p]
    {
      var n := Min(CHUNK, |file| - p);
      Glue(file, p, p + n);
      var ok := enc.WriteBytes(file[p..p + n]);
      p := p + n;
    }
    assert file[..p] == file;
    enc.Close();
  }

  ghost predicate Held(stream: BufferStream, m: Model)
    reads stream, stream.buffer
  {
    stream.Valid() && stream.Contents() == m
  }

  /** The download part of AuthServer_Private. */
  class Downloads {
    var downloads: map<word, BufferStream>
    const key: Key
    /** What the streams hold. */
    ghost var pending: Pending
    /** The transaction that each stream belongs to. */
    ghost var owners: map<BufferStream, word>

    ghost function Owner(stream: BufferStream): Option<word>
      reads this
    {
      if stream in owners then Some(owners[stream]) else None
    }

    ghost predicate Valid()
      reads this, downloads.Values, set id | id in downloads :: downloads[id].buffer
    {
      && (forall id :: id in downloads <==> id in pending)
      && (forall id :: id in downloads ==> Held(downloads[id], pending[id]) && Owner(downloads[id]) == Some(id))
    }

    constructor (k: Key)
      ensures Valid() && pending == map[] && key == k
    {
      downloads, key, pending, owners := map[], k, map[], map[];
    }

    /** The stream that a file is sent from: all auth downloads must be encrypted. */
    method Outgo(file: seq<byte>, seen: seq<byte>) returns (stream: BufferStream)
      requires Sendable(Start(0, Some(file), seen))
      ensures fresh(stream) && fresh(stream.buffer) && stream.Valid()
      ensures stream.Contents() == Model(Outgoing(key, file, seen), 0)
    {
      hide Sealed;
      if TypeOf(seen).Some? {
        stream := new BufferStream();
        stream.Set(Some(file));
      } else {
        stream := SealFile(file, key);
        SeekStart(stream.Contents());
        stream.SeekTo(0, SeekSet);
      }
    }

    /** Keep a stream of which more is to be sent. */
    method Keep(id: word, stream: BufferStream, ghost m: Model)
      requires Valid() && Held(stream, m) && stream !in downloads.Values
      modifies this
      ensures Valid() && pending == old(pending)[id := m] && downloads == old(downloads)[id := stream]
    {
      hide Held;
      downloads, pending, owners := downloads[id := stream], pending[id := m], owners[stream := id];
      forall j | j in downloads ensures Held(downloads[j], pending[j]) && Owner(downloads[j]) == Some(j) {
        if j != id {
          assert old(Held(downloads[j], pending[j]) && Owner(downloads[j]) == Some(j));
        }
      }
    }

    /** cb_downloadStart */
    method StartDownload(id: word, file: Option<seq<byte>>, seen: seq<byte>) returns (reply: Reply)
      requires Valid() && Sendable(Start(id, file, seen))
      modifies this
      ensures Valid() && ValidPending(old(pending)) && (pending, reply) == Handled(key, old(pending), Start(id, file, seen))
      ensures forall j :: j in downloads ==> downloads[j] in old(downloads.Values) || fresh(downloads[j])
    {
      hide Valid, Outgoing;
      PendingValid();
      if file.None? {
        return FileNotFound(id);
      }
      var stream := Outgo(file.value, seen);
      ghost var bytes := stream.Contents().bytes;
      assert bytes[0..|bytes|] == bytes;
      var more := stream.size > CHUNK;
      var data := Take(stream, if more then CHUNK else stream.size);
      reply := Chunk(id, stream.size, 0, data);
      if more {
        Keep(id, stream, Model(bytes, CHUNK));
      }
    }

    /** The next n bytes of a stream that has as many. */
    method Take(stream: BufferStream, n: nat) returns (data: seq<byte>)
      requires stream.Valid() && stream.position + n <= stream.size
      modifies stream
      ensures stream.Valid() && stream.buffer == old(stream.buffer) && stream.size == old(stream.size)
      ensures var m := old(stream.Contents());
              data == m.bytes[m.cursor..m.cursor + n] && stream.Contents() == Model(m.bytes, m.cursor + n)
    {
      data := stream.ReadBytes(n);
      assert stream.Contents().bytes == old(stream.Contents()).bytes;
    }

    method NextChunkOf(id: word, stream: BufferStream) returns (reply: Reply, last: bool)
      requires stream.Valid()
      modifies stream
      ensures var m := old(stream.Contents());
              Held(stream, Advanced(id, m).0) && reply == Advanced(id, m).1 && last == LastChunk(m)
      ensures stream.buffer == old(stream.buffer)
    {
      var offset := stream.position;
      var bytesLeft := stream.size - offset;
      last := bytesLeft <= CHUNK;
      var data := Take(stream, if last then bytesLeft else CHUNK);
      reply := Chunk(id, stream.size, offset, data);
    }

    /** Send the next chunk of a download. */
    method Advance(id: word) returns (reply: Reply, last: bool)
      requires Valid() && id in downloads
      modifies this, downloads[id]
      ensures Valid() && downloads == old(downloads) && id in old(pending) && old(pending)[id].Valid()
      ensures var m := old(pending)[id];
              pending == old(pending)[id := Advanced(id, m).0] && reply == Advanced(id, m).1 && last == LastChunk(m)
    {
      ghost var m := pending[id];
      assert Held(downloads[id], m);
      reply, last := NextChunkOf(id, downloads[id]);
      pending := pending[id := Advanced(id, m).0];
      hide Held, Advanced, LastChunk;
      Others(id);
    }

    method Remove(id: word)
      requires Valid()
      modifies this
      ensures Valid() && pending == Without(old(pending), id) && downloads == Without(old(downloads), id)
    {
      hide Held, Without;
      downloads, pending := Without(downloads, id), Without(pending, id);
    }

    /** cb_downloadNext */
    method NextDownload(id: word) returns (reply: Reply)
      requires Valid()
      modifies this, if id in downloads then {downloads[id]} else {}
      ensures Valid() && ValidPending(old(pending)) && (pending, reply) == Continued(old(pending), id)
      ensures downloads.Values <= old(downloads.Values)
    {
      hide Valid, Advanced, LastChunk, Without;
      PendingValid();
      if id !in downloads {
        return NoReply;
      }
      var last;
      reply, last := Advance(id);
      if last {
        WithoutUpdated(old(pending), id, pending[id]);
        Remove(id);
      }
    }

    /** One request after another. */
    method Serve(reqs: seq<Request>) returns (replies: seq<Reply>)
      requires Valid() && forall i :: 0 <= i < |reqs| ==> Sendable(reqs[i])
      modifies this, downloads.Values
      ensures Valid() && ValidPending(old(pending)) && (pending, replies) == Served(key, old(pending), reqs)
    {
      hide Valid, Handled, Sendable;
      PendingValid();
      replies := [];
      for i := 0 to |reqs|
        invariant Valid() && |replies| == i && ValidPending(pending)
        invariant (pending, replies) == Served(key, old(pending), reqs[..i])
        invariant forall j :: j in downloads ==> downloads[j] in old(downloads.Values) || fresh(downloads[j])
      {
        ghost var before := pending;
        assert reqs[..i + 1][..i] == reqs[..i];
        var reply := HandleRequest(reqs[i]);
        replies := replies + [reply];
        PendingValid();
      }
      assert reqs[..|reqs|] == reqs;
    }

    method HandleRequest(req: Request) returns (reply: Reply)
      requires Valid() && Sendable(req)
      modifies this, downloads.Values
      ensures Valid() && ValidPending(old(pending)) && (pending, reply) == Handled(key, old(pending), req)
      ensures forall j :: j in downloads ==> downloads[j] in old(downloads.Values) || fresh(downloads[j])
    {
      hide Valid, Continued, Outgoing;
      PendingValid();
      match req {
        case Start(id, file, seen) => reply := StartDownload(id, file, seen);
        case Next(id) => reply := NextDownload(id);
      }
    }

    /** The other streams of the transaction's client are left alone. */
    twostate lemma Others(id: word)
      requires old(Valid()) && id in downloads && downloads == old(downloads) && old(id in pending)
      requires owners == old(owners) && id in pending && Held(downloads[id], pending[id])
      requires pending == old(pending)[id := pending[id]]
      requires forall j :: j in downloads && j != id ==> unchanged(downloads[j]) && unchanged(downloads[j].buffer)
      ensures Valid()
    {
      hide Held;
    }

    lemma PendingValid()
      requires Valid()
      ensures ValidPending(pending) && forall id :: id in downloads <==> id in pending
    {
    }
  }
}
