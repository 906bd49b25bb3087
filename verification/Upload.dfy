/** UploadMedia: one init frame, one frame a chunk, one finish frame, each sent after the ack of the one before. */
module Upload {
  import opened Wrappers
  import opened Bytes
  import Base64

  const CHUNK_SIZE := 512 * 1024
  const MAX_CHUNKS := 100

  datatype Frame =
    | Init(kind: string, filename: string, totalSize: nat, totalChunks: nat, md5: string)
    | Chunk(uploadId: string, index: nat, base64Data: string)
    | Finish(uploadId: string)

  /** The body of an ack, as far as an upload looks at it. */
  datatype Body = NotJson | Fields(uploadId: string, mediaId: string)

  /** What SendAndWait returns for a frame: no ack at all, or the server's ack. */
  datatype Reply = NoAck | Acked(errCode: int, body: Body)

  datatype Options = Options(kind: string, filename: string)

  datatype UploadError =
    | NoData
    | NoTypeOrFilename
    | TooManyChunks(n: nat)
    | SendFailed(reply: Reply)
    | BadInitAck
    | NoUploadId
    | BadFinishAck
    | NoMediaId

  /** The client and the server behind it: frame number i is answered by replies(i). */
  class Connection {
    const replies: nat -> Reply
    var sent: seq<Frame>

    constructor (replies: nat -> Reply)
      ensures this.replies == replies && sent == []
    {
      this.replies := replies;
      sent := [];
    }

    method SendAndWait(frame: Frame) returns (r: Result<Body, UploadError>)
      modifies this
      ensures sent == old(sent) + [frame]
      ensures var reply := replies(|old(sent)|);
              r == if reply.Acked? && reply.errCode == 0 then Ok(reply.body) else Err(SendFailed(reply))
    {
      var reply := replies(|sent|);
      sent := sent + [frame];
      if reply.NoAck? || reply.errCode != 0 {
        return Err(SendFailed(reply));
      }
      return Ok(reply.body);
    }
  }

  /** As few chunks as hold n bytes. */
  function ChunkCount(n: nat): (count: nat)
    ensures n <= count * CHUNK_SIZE
    ensures count > 0 ==> (count - 1) * CHUNK_SIZE < n
  {
    (n + CHUNK_SIZE - 1) / CHUNK_SIZE
  }

  function ChunkOf(data: seq<byte>, i: nat): seq<byte>
    requires i < ChunkCount(|data|)
  {
    var start := i * CHUNK_SIZE;
    ChunkStart(|data|, i);
    data[start..if start + CHUNK_SIZE < |data| then start + CHUNK_SIZE else |data|]
  }

  lemma ChunkStart(n: nat, i: nat)
    requires i < ChunkCount(n)
    ensures i * CHUNK_SIZE < n
  {
  }

  type Md5 = seq<byte> -> string

  /** Frame i of an upload. */
  function FrameAt(md5: Md5, data: seq<byte>, options: Options, uploadId: string, i: nat): Frame
    requires i < ChunkCount(|data|) + 2
  {
    if i == 0 then Init(options.kind, options.filename, |data|, ChunkCount(|data|), md5(data))
    else if i <= ChunkCount(|data|) then Chunk(uploadId, i - 1, Base64.Encode(ChunkOf(data, i - 1)))
    else Finish(uploadId)
  }

  /** The first k frames of an upload. */
  function Plan(md5: Md5, data: seq<byte>, options: Options, uploadId: string, k: nat): (frames: seq<Frame>)
    requires k <= ChunkCount(|data|) + 2
    ensures |frames| == k
  {
    if k == 0 then [] else Plan(md5, data, options, uploadId, k - 1) + [FrameAt(md5, data, options, uploadId, k - 1)]
  }

  /** Whether the reply to frame i of an upload of n chunks lets the upload go on. */
  predicate Good(n: nat, i: nat, reply: Reply) {
    && reply.Acked? && reply.errCode == 0
    && (i == 0 ==> reply.body.Fields? && reply.body.uploadId != "")
    && (i == n + 1 ==> reply.body.Fields? && reply.body.mediaId != "")
  }

  /** The replies to the first k frames of an upload whose first frame is number base. */
  predicate AllGood(n: nat, replies: nat -> Reply, base: nat, k: nat) {
    k == 0 || (AllGood(n, replies, base, k - 1) && Good(n, k - 1, replies(base + k - 1)))
  }

  function UploadIdIn(n: nat, first: Reply): string {
    if Good(n, 0, first) then first.body.uploadId else ""
  }

  /** The first k frames have been sent after `before`, and those but the last have had good replies. */
  ghost predicate Sent(md5: Md5, data: seq<byte>, options: Options, replies: nat -> Reply,
                       before: seq<Frame>, after: seq<Frame>, k: nat) {
    var n := ChunkCount(|data|);
    && 0 < k <= n + 2
    && after == before + Plan(md5, data, options, UploadIdIn(n, replies(|before|)), k)
    && AllGood(n, replies, |before|, k - 1)
  }

  /**
   What an upload that is not refused comes to when its first k frames have been sent. All replies but the last are
   acks with errcode 0, the chunk frames carry the data under the upload id of the first ack, and the last reply
   decides the result.
   */
  ghost predicate Transcript(md5: Md5, data: seq<byte>, options: Options, replies: nat -> Reply,
                             before: seq<Frame>, after: seq<Frame>, k: nat, r: Result<string, UploadError>) {
    var n := (|data| + 524_287) / 524_288;
    && 1 <= k <= n + 2 && |after| == |before| + k && before <= after
    && (forall j :: |before| <= j < |before| + k - 1 ==> replies(j).Acked? && replies(j).errCode == 0)
    && after[|before|] == Init(options.kind, options.filename, |data|, n, md5(data))
    && (k > 1 ==>
          && replies(|before|).Acked?
          && var first := replies(|before|).body;
          && first.Fields? && first.uploadId != ""
          && (forall j :: |before| < j < |before| + k && j <= |before| + n ==>
                IsChunk(data, first.uploadId, j - |before| - 1, after[j]))
          && (k == n + 2 ==> after[|before| + n + 1] == Finish(first.uploadId)))
    && Ends(n, replies(|before| + k - 1), k, r)
  }

  /** How an upload of n chunks ends after k frames, by the reply to the last of them. */
  predicate Ends(n: nat, last: Reply, k: nat, r: Result<string, UploadError>) {
    if !(last.Acked? && last.errCode == 0) then r == Err(SendFailed(last))
    else if k == 1 then
      if last.body.NotJson? then r == Err(BadInitAck) else last.body.uploadId == "" && r == Err(NoUploadId)
    else
      && k == n + 2
      && r == (if last.body.NotJson? then Err(BadFinishAck)
               else if last.body.mediaId == "" then Err(NoMediaId)
               else Ok(last.body.mediaId))
  }

  /** The frame of the chunk that starts at byte 512·1024·i. */
  predicate IsChunk(data: seq<byte>, uploadId: string, i: nat, frame: Frame) {
    var start := 524_288 * i;
    && start < |data| && frame.Chunk? && frame.uploadId == uploadId && frame.index == i
    && Base64.Decode(frame.base64Data) ==
         Some(data[start..if start + 524_288 < |data| then start + 524_288 else |data|])
  }

  lemma {:induction false} AllAccepted(n: nat, replies: nat -> Reply, base: nat, k: nat)
    requires AllGood(n, replies, base, k)
    ensures forall j :: base <= j < base + k ==> replies(j).Acked? && replies(j).errCode == 0
    ensures k > 0 ==> Good(n, 0, replies(base))
  {
    if k == 0 {
    } else {
      assert Good(n, k - 1, replies(base + k - 1));
      AllAccepted(n, replies, base, k - 1);
    }
  }

  lemma {:induction false} PlanAt(md5: Md5, data: seq<byte>, options: Options, uploadId: string, k: nat, i: nat)
    requires i < k <= ChunkCount(|data|) + 2
    ensures Plan(md5, data, options, uploadId, k)[i] == FrameAt(md5, data, options, uploadId, i)
  {
    if i < k - 1 {
      PlanAt(md5, data, options, uploadId, k - 1, i);
    }
  }

  lemma ChunkFrame(md5: Md5, data: seq<byte>, options: Options, uploadId: string, i: nat)
    requires i < ChunkCount(|data|)
    ensures IsChunk(data, uploadId, i, FrameAt(md5, data, options, uploadId, i + 1))
  {
    hide Base64.Encode, Base64.Decode;
    ChunkStart(|data|, i);
    Base64.DecodeInvertsEncode(ChunkOf(data, i));
  }

  /** Once k frames have been sent, what has been sent is as Transcript says. */
  lemma SentMeans(md5: Md5, data: seq<byte>, options: Options, replies: nat -> Reply,
                  before: seq<Frame>, after: seq<Frame>, k: nat, r: Result<string, UploadError>)
    requires Sent(md5, data, options, replies, before, after, k)
    requires Ends(ChunkCount(|data|), replies(|before| + k - 1), k, r)
    ensures Transcript(md5, data, options, replies, before, after, k, r)
  {
    hide ChunkCount, Plan, FrameAt, AllGood, IsChunk;
    var n, id := ChunkCount(|data|), UploadIdIn(ChunkCount(|data|), replies(|before|));
    assert n == (|data| + 524_287) / 524_288 by { CountInBytes(|data|); }
    var plan := Plan(md5, data, options, id, k);
    AllAccepted(n, replies, |before|, k - 1);
    PlanAt(md5, data, options, id, k, 0);
    FirstFrame(md5, data, options, id);
    assert after[|before|] == plan[0];
    forall j | |before| < j < |before| + k && j <= |before| + n ensures IsChunk(data, id, j - |before| - 1, after[j]) {
      PlanAt(md5, data, options, id, k, j - |before|);
      ChunkFrame(md5, data, options, id, j - |before| - 1);
      assert after[j] == plan[j - |before|];
    }
    if k == n + 2 {
      PlanAt(md5, data, options, id, k, n + 1);
      LastFrame(md5, data, options, id);
      assert after[|before| + n + 1] == plan[n + 1];
    }
  }

  lemma CountInBytes(n: nat)
    ensures ChunkCount(n) == (n + 524_287) / 524_288
  {
  }

  lemma FirstFrame(md5: Md5, data: seq<byte>, options: Options, uploadId: string)
    ensures FrameAt(md5, data, options, uploadId, 0) ==
              Init(options.kind, options.filename, |data|, ChunkCount(|data|), md5(data))
  {
  }

  lemma LastFrame(md5: Md5, data: seq<byte>, options: Options, uploadId: string)
    ensures FrameAt(md5, data, options, uploadId, ChunkCount(|data|) + 1) == Finish(uploadId)
  {
  }

  lemma FirstSent(md5: Md5, data: seq<byte>, options: Options, replies: nat -> Reply, before: seq<Frame>)
    ensures var n := ChunkCount(|data|);
            Sent(md5, data, options, replies, before, before + [Init(options.kind, options.filename, |data|, n,
                md5(data))], 1)
  {
  }

  lemma NextSent(md5: Md5, data: seq<byte>, options: Options, replies: nat -> Reply,
                 before: seq<Frame>, after: seq<Frame>, k: nat)
    requires Sent(md5, data, options, replies, before, after, k) && k < ChunkCount(|data|) + 2
    requires AllGood(ChunkCount(|data|), replies, |before|, k)
    ensures var id := UploadIdIn(ChunkCount(|data|), replies(|before|));
            Sent(md5, data, options, replies, before, after + [FrameAt(md5, data, options, id, k)], k + 1)
  {
  }

  method UploadMedia(conn: Connection, md5: Md5, data: seq<byte>, options: Options)
    returns (r: Result<string, UploadError>, ghost k: nat)
    modifies conn
    ensures data == [] ==> r == Err(NoData)
    ensures data != [] && (options.kind == "" || options.filename == "") ==> r == Err(NoTypeOrFilename)
    ensures data != [] && options.kind != "" && options.filename != "" && |data| > 52_428_800 ==>
              r == Err(TooManyChunks((|data| + 524_287) / 524_288))
    ensures if data == [] || options.kind == "" || options.filename == "" || |data| > 52_428_800 then
              conn.sent == old(conn.sent)
            else
              Transcript(md5, data, options, conn.replies, old(conn.sent), conn.sent, k, r)
  {
    k := 0;
    if |data| == 0 {
      return Err(NoData), k;
    }
    if options.kind == "" || options.filename == "" {
      return Err(NoTypeOrFilename), k;
    }
    var totalChunks := (|data| + CHUNK_SIZE - 1) / CHUNK_SIZE;
    LimitInBytes(|data|);
    if totalChunks > MAX_CHUNKS {
      return Err(TooManyChunks(totalChunks)), k;
    }
    assert totalChunks == ChunkCount(|data|);
    hide ChunkCount, Plan, Sent, Transcript;
    ghost var before := conn.sent;
    FirstSent(md5, data, options, conn.replies, before);
    var init := conn.SendAndWait(Init(options.kind, options.filename, |data|, totalChunks, md5(data)));
    k := 1;
    assert AllGood(totalChunks, conn.replies, |before|, 1) <==> Good(totalChunks, 0, conn.replies(|before|)) by {
      assert AllGood(totalChunks, conn.replies, |before|, 0);
    }
    if init.Err? {
      r := Err(init.error);
    } else if init.value.NotJson? {
      r := Err(BadInitAck);
    } else if init.value.uploadId == "" {
      r := Err(NoUploadId);
    } else {
      r, k := SendRest(conn, md5, data, options, totalChunks, init.value.uploadId, before);
    }
    SentMeans(md5, data, options, conn.replies, before, conn.sent, k, r);
  }

  /** What UploadMedia does once it has an upload id. */
  method SendRest(conn: Connection, md5: Md5, data: seq<byte>, options: Options, totalChunks: nat, uploadId: string,
                  ghost before: seq<Frame>)
    returns (r: Result<string, UploadError>, ghost k: nat)
    requires totalChunks == ChunkCount(|data|) && Sent(md5, data, options, conn.replies, before, conn.sent, 1)
    requires AllGood(totalChunks, conn.replies, |before|, 1)
    requires uploadId == UploadIdIn(totalChunks, conn.replies(|before|))
    modifies conn
    ensures k > 1 && Sent(md5, data, options, conn.replies, before, conn.sent, k)
    ensures Ends(totalChunks, conn.replies(|before| + k - 1), k, r)
  {
    hide ChunkCount, Plan, Sent, UploadIdIn;
    var error;
    error, k := SendChunks(conn, md5, data, options, totalChunks, uploadId, before);
    if error.Some? {
      return Err(error.value), k;
    }
    r := SendFinish(conn, md5, data, options, totalChunks, uploadId, before);
    k := totalChunks + 2;
  }

  /** The loop of UploadMedia. */
  method SendChunks(conn: Connection, md5: Md5, data: seq<byte>, options: Options, totalChunks: nat, uploadId: string,
                    ghost before: seq<Frame>)
    returns (error: Option<UploadError>, ghost k: nat)
    requires totalChunks == ChunkCount(|data|) && Sent(md5, data, options, conn.replies, before, conn.sent, 1)
    requires AllGood(totalChunks, conn.replies, |before|, 1)
    requires uploadId == UploadIdIn(totalChunks, conn.replies(|before|))
    modifies conn
    ensures 1 <= k <= totalChunks + 1 && Sent(md5, data, options, conn.replies, before, conn.sent, k)
    ensures error.None? ==> k == totalChunks + 1 && AllGood(totalChunks, conn.replies, |before|, k)
    ensures error.None? <==> forall j :: |before| < j <= |before| + totalChunks ==>
              conn.replies(j).Acked? && conn.replies(j).errCode == 0
    ensures error.Some? ==>
              var last := conn.replies(|before| + k - 1);
              k > 1 && error == Some(SendFailed(last)) && !(last.Acked? && last.errCode == 0)
  {
    hide ChunkCount, Plan, UploadIdIn, Sent;
    k := 1;
    for idx := 0 to totalChunks
      invariant k == idx + 1
      invariant Sent(md5, data, options, conn.replies, before, conn.sent, k)
      invariant AllGood(totalChunks, conn.replies, |before|, k)
      invariant forall j :: |before| < j <= |before| + idx ==>
                  conn.replies(j).Acked? && conn.replies(j).errCode == 0
    {
      var start := idx * CHUNK_SIZE;
      var end := if start + CHUNK_SIZE < |data| then start + CHUNK_SIZE else |data|;
      ChunkStart(|data|, idx);
      SentLength(md5, data, options, conn.replies, before, conn.sent, k);
      NextSent(md5, data, options, conn.replies, before, conn.sent, k);
      var ack := conn.SendAndWait(Chunk(uploadId, idx, Base64.Encode(data[start..end])));
      k := idx + 2;
      if ack.Err? {
        return Some(ack.error), k;
      }
    }
    error := None;
  }

  lemma SentLength(md5: Md5, data: seq<byte>, options: Options, replies: nat -> Reply,
                   before: seq<Frame>, after: seq<Frame>, k: nat)
    requires Sent(md5, data, options, replies, before, after, k)
    ensures |after| == |before| + k
  {
  }

  /** The last frame of UploadMedia. */
  method SendFinish(conn: Connection, md5: Md5, data: seq<byte>, options: Options, totalChunks: nat, uploadId: string,
                    ghost before: seq<Frame>)
    returns (r: Result<string, UploadError>)
    requires totalChunks == ChunkCount(|data|) && Sent(md5, data, options, conn.replies, before, conn.sent,
             totalChunks + 1)
    requires AllGood(totalChunks, conn.replies, |before|, totalChunks + 1)
    requires uploadId == UploadIdIn(totalChunks, conn.replies(|before|))
    modifies conn
    ensures Sent(md5, data, options, conn.replies, before, conn.sent, totalChunks + 2)
    ensures conn.sent == old(conn.sent) + [Finish(uploadId)]
    ensures var reply := conn.replies(|before| + totalChunks + 1);
            r == if !(reply.Acked? && reply.errCode == 0) then Err(SendFailed(reply))
                 else if reply.body.NotJson? then Err(BadFinishAck)
                 else if reply.body.mediaId == "" then Err(NoMediaId)
                 else Ok(reply.body.mediaId)
  {
    hide ChunkCount, Plan, UploadIdIn, Sent;
    SentLength(md5, data, options, conn.replies, before, conn.sent, totalChunks + 1);
    NextSent(md5, data, options, conn.replies, before, conn.sent, totalChunks + 1);
    var finish := conn.SendAndWait(Finish(uploadId));
    if finish.Err? {
      return Err(finish.error);
    }
    if finish.value.NotJson? {
      return Err(BadFinishAck);
    }
    if finish.value.mediaId == "" {
      return Err(NoMediaId);
    }
    return Ok(finish.value.mediaId);
  }

  /** The first k chunks, in index order. */
  function FirstChunks(data: seq<byte>, k: nat): seq<byte>
    requires k <= ChunkCount(|data|)
  {
    if k == 0 then [] else FirstChunks(data, k - 1) + ChunkOf(data, k - 1)
  }

  lemma ChunkExtends(data: seq<byte>, i: nat)
    requires i < ChunkCount(|data|)
    ensures i * CHUNK_SIZE <= |data|
    ensures var end := (i + 1) * CHUNK_SIZE;
            data[..i * CHUNK_SIZE] + ChunkOf(data, i) == if end <= |data| then data[..end] else data
  {
    hide ChunkCount;
    ChunkStart(|data|, i);
    var start := i * CHUNK_SIZE;
    assert (i + 1) * CHUNK_SIZE == start + CHUNK_SIZE;
    var end := if start + CHUNK_SIZE < |data| then start + CHUNK_SIZE else |data|;
    assert data[..start] + data[start..end] == data[..end];
    assert data[..|data|] == data;
  }

  lemma {:induction false} FirstChunksArePrefix(data: seq<byte>, k: nat)
    requires k <= ChunkCount(|data|)
    ensures FirstChunks(data, k) == if k * CHUNK_SIZE <= |data| then data[..k * CHUNK_SIZE] else data
  {
    hide ChunkCount, ChunkOf;
    if k == 0 {
    } else {
      FirstChunksArePrefix(data, k - 1);
      ChunkExtends(data, k - 1);
    }
  }

  /** Frame i + 1 carries chunk i in base64; a chunk is full unless it is the last, which is not empty. */
  predicate CarriesChunk(md5: Md5, data: seq<byte>, options: Options, uploadId: string, i: nat)
    requires i < ChunkCount(|data|)
  {
    var frame := FrameAt(md5, data, options, uploadId, i + 1);
    && frame.Chunk? && frame.index == i && Base64.Decode(frame.base64Data) == Some(ChunkOf(data, i))
    && |ChunkOf(data, i)| > 0 && (i < ChunkCount(|data|) - 1 ==> |ChunkOf(data, i)| == CHUNK_SIZE)
  }

  /** Decoded and put together in index order, the chunks of the plan are the data. */
  lemma ChunksAreTheData(md5: Md5, data: seq<byte>, options: Options, uploadId: string)
    ensures FirstChunks(data, ChunkCount(|data|)) == data
    ensures forall i: nat :: i < ChunkCount(|data|) ==> CarriesChunk(md5, data, options, uploadId, i)
  {
    hide ChunkCount, Base64.Encode, Base64.Decode;
    FirstChunksArePrefix(data, ChunkCount(|data|));
    forall i: nat | i < ChunkCount(|data|) ensures CarriesChunk(md5, data, options, uploadId, i) {
      Base64.DecodeInvertsEncode(ChunkOf(data, i));
      ChunkSize(data, i);
    }
  }

  lemma ChunkSize(data: seq<byte>, i: nat)
    requires i < ChunkCount(|data|)
    ensures var n := ChunkCount(|data|);
            |ChunkOf(data, i)| == (if i < n - 1 then CHUNK_SIZE else |data| - (n - 1) * CHUNK_SIZE) > 0
  {
  }

  /** The limit of 100 chunks is a limit of 50 MiB. */
  lemma LimitInBytes(n: nat)
    ensures ChunkCount(n) <= MAX_CHUNKS <==> n <= 52_428_800
  {
  }
}
