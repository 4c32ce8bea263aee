/** The resumable upload of databricks/sdk/mixins/files.py, against a cloud storage session that may
    keep any part of a chunk, lose replies and answer with errors. */
module ResumableUpload {
  import opened Common
  import Retries

  const READ_AHEAD: nat := 1

  datatype RangeHeader = NoRange | LastByte(last: nat) | Unparsable

  datatype Reply = Reply(status: int, range: RangeHeader)

  datatype PutResult = Answered(reply: Reply) | Interrupted(retryable: bool)

  /** Outcome of a status query with its own retries: an answer, a failed connection, or an error that
      is not a connection error and so is not caught. */
  datatype StatusResult = Status(reply: Reply) | Unreachable | Escaped

  /** A chunk as sent: `Content-Range: bytes first-last/total`, with no total standing for `*`. */
  datatype Chunk = Chunk(first: nat, data: Bytes, total: Option<nat>, retryable: bool)

  datatype UploadResult =
    | Done
    | AlreadyExists
    | UnexpectedStatus
    | UnexpectedOffset
    | UnreadableRange
    | HttpError(status: int)
    | ConnectionFailed
    | StatusCheckFailed

  predicate Retryable(r: PutResult) {
    match r
    case Answered(reply) => reply.status in Retries.RETRYABLE_STATUS_CODES
    case Interrupted(retryable) => retryable
  }

  /** How a faithful session may change on a chunk: nothing, or it appends what is new in some prefix
      of the chunk. It learns the total before it stores a byte of the chunk that announces it. */
  ghost predicate Takes(stored: Bytes, known: Option<nat>, first: nat, data: Bytes, total: Option<nat>,
                        stored': Bytes, known': Option<nat>)
  {
    && (known' == known || (total.Some? && known' == total))
    && (stored' == stored
        || (&& first <= |stored| < |stored'| <= first + |data|
            && stored' == stored + data[|stored| - first..|stored'| - first]
            && (total.Some? ==> known' == total)))
  }

  function RangeOf(stored: Bytes): RangeHeader {
    if stored == [] then NoRange else LastByte(|stored| - 1)
  }

  predicate Finished(stored: Bytes, total: Option<nat>) {
    total.Some? && |stored| == total.value
  }

  /** An honest answer: success once everything is stored, and until then exactly what is stored. */
  ghost predicate Truthful(reply: Reply, stored: Bytes, total: Option<nat>) {
    && (reply.status in {200, 201} ==> Finished(stored, total))
    && (reply.status == 308 ==> !Finished(stored, total) && reply.range == RangeOf(stored))
  }

  datatype View = SessionView(stored: Bytes, total: Option<nat>, lifetime: nat, faults: nat, stalls: nat,
                              log: seq<Chunk>)

  /** The remote end of one upload session. It expires after `lifetime` chunk requests. A session that
      is not faithful may answer anything. */
  class Session {
    const faithful: bool
    var stored: Bytes
    var total: Option<nat>
    var lifetime: nat
    var faults: nat   // interruptions and errors still to come
    var stalls: nat   // 308 answers still to come that ignore every new byte of a chunk
    var aborts: nat
    ghost var log: seq<Chunk>
    ghost var lastPut: PutResult             // what came of the last chunk,
    ghost var lastQuery: Option<StatusResult> // of the status query after it, if any,
    ghost var burst: nat                     // and how many chunks in a row were interrupted

    constructor (faithful: bool, lifetime: nat, faults: nat, stalls: nat)
      ensures this.faithful == faithful && this.lifetime == lifetime
      ensures this.faults == faults && this.stalls == stalls
      ensures stored == [] && total == None && aborts == 0 && log == [] && burst == 0
    {
      this.faithful, this.lifetime, this.faults, this.stalls := faithful, lifetime, faults, stalls;
      stored, total, aborts, log, burst := [], None, 0, [], 0;
    }

    /** The session holds every byte of the announced total; this is the finished object. */
    predicate Complete()
      reads this
    {
      Finished(stored, total)
    }

    ghost function View(): View
      reads this
    {
      SessionView(stored, total, lifetime, faults, stalls, log)
    }

    /** Sends one chunk. */
    method Put(first: nat, data: Bytes, total: Option<nat>) returns (r: PutResult)
      modifies this
      ensures log == old(log) + [Chunk(first, data, total, Retryable(r))] && aborts == old(aborts)
      ensures lastPut == r && lastQuery == None && burst == if Retryable(r) then old(burst) + 1 else 0
      ensures lifetime == if old(lifetime) == 0 then 0 else old(lifetime) - 1
      ensures old(lifetime) == 0 ==> r == Answered(Reply(410, NoRange))
      ensures faithful ==>
                && Takes(old(stored), old(this.total), first, data, total, stored, this.total)
                && (r.Answered? ==> Truthful(r.reply, stored, this.total))
                && (r.Answered? && r.reply.status in {200, 201, 308} && total.Some? ==> this.total == total)
      ensures faithful ==>
                if old(lifetime) > 0 && !(r.Answered? && r.reply.status in {200, 201, 308})
                then old(faults) > 0 && faults == old(faults) - 1
                else faults == old(faults)
      ensures faithful ==>
                if r.Answered? && r.reply.status == 308 && stored == old(stored) && first <= |stored| < first + |data|
                then old(stalls) > 0 && stalls < old(stalls)
                else stalls <= old(stalls)
    {
      if lifetime == 0 {
        r := Answered(Reply(410, NoRange));
      } else {
        lifetime := lifetime - 1;
        var fail: bool := *;
        if !faithful {
          r, stored, this.total, faults, stalls := *, *, *, *, *;
        } else if faults > 0 && fail {
          faults := faults - 1;
          var reached: bool := *;
          if reached {
            Keep(first, data, total);
          }
          var retryable: bool := *;
          var status :| status !in {200, 201, 308};
          var answered: bool := *;
          r := if answered then Answered(Reply(status, NoRange)) else Interrupted(retryable);
        } else {
          Keep(first, data, total);
          r := Answered(if Complete() then Reply(200, NoRange) else Reply(308, RangeOf(stored)));
        }
      }
      Record(Chunk(first, data, total, Retryable(r)), r);
    }

    ghost method Record(c: Chunk, r: PutResult)
      modifies this`log, this`lastPut, this`lastQuery, this`burst
      ensures log == old(log) + [c] && lastPut == r && lastQuery == None
      ensures burst == if c.retryable then old(burst) + 1 else 0
    {
      log, lastPut, lastQuery, burst := log + [c], r, None, if c.retryable then burst + 1 else 0;
    }

    /** Stores any prefix of a chunk; storing nothing new uses up a stall. */
    method Keep(first: nat, data: Bytes, total: Option<nat>)
      modifies this`stored, this`total, this`stalls
      ensures Takes(old(stored), old(this.total), first, data, total, stored, this.total)
      ensures total.Some? ==> this.total == total
      ensures if !Complete() && stored == old(stored) && first <= |stored| < first + |data|
              then old(stalls) > 0 && stalls < old(stalls)
              else stalls == old(stalls)
    {
      if total.Some? {
        this.total := total;
      }
      if first <= |stored| < first + |data| {
        var lazy: bool := *;
        if stalls > 0 && lazy && !Complete() {
          stalls := stalls - 1;
        } else {
          var size :| |stored| < size <= first + |data|;
          stored := stored + data[|stored| - first..size - first];
        }
      }
    }

    /** Asks how much has been stored. Its own retries never hand back a retryable status. */
    method QueryStatus() returns (r: StatusResult)
      modifies this`faults, this`lastQuery
      ensures lastQuery == Some(r)
      ensures r.Status? ==> r.reply.status !in Retries.RETRYABLE_STATUS_CODES
      ensures r.Status? && faithful ==> Truthful(r.reply, stored, total)
      ensures faults <= old(faults)
    {
      var fail: bool := *;
      if !faithful {
        r := *;
        if r.Status? && r.reply.status in Retries.RETRYABLE_STATUS_CODES {
          r := Escaped;
        }
      } else if faults > 0 && fail {
        faults := faults - 1;
        var caught: bool := *;
        r := if caught then Unreachable else Escaped;
      } else {
        r := Status(if Complete() then Reply(200, NoRange) else Reply(308, RangeOf(stored)));
      }
      lastQuery := Some(r);
    }

    /** Asks the session to drop what it stored; the answer is ignored. */
    method Abort()
      modifies this`aborts
      ensures aborts == old(aborts) + 1
    {
      aborts := aborts + 1;
    }
  }

  // ---------- The client ----------

  /** The chunk carries the bytes of its range and nothing else, never starts at offset 1, and announces
      a total exactly when it takes in the last byte that the client has read. */
  ghost predicate Exact(c: Chunk, content: Bytes, chunkSize: nat) {
    && c.first + |c.data| <= |content|
    && c.data == content[c.first..c.first + |c.data|]
    && |c.data| <= chunkSize
    && c.first != 1
    && (c.total.None? ==> c.first + |c.data| < |content|)
    && (c.total.Some? ==> c.total.value == c.first + |c.data|)
  }

  /** RFC 9110, section 14.4: first <= last < complete length, where the length, if announced, is the
      length of the whole content and is announced exactly for the chunk that ends it. */
  ghost predicate ValidContentRange(c: Chunk, content: Bytes) {
    && c.data != []
    && c.first + |c.data| <= |content|
    && c.total == if c.first + |c.data| == |content| then Some(|content|) else None
  }

  ghost predicate AllValid(log: seq<Chunk>, content: Bytes) {
    forall c <- log :: ValidContentRange(c, content)
  }

  /** No more than `limit` consecutive chunk requests end in a retryable way. */
  ghost predicate BoundedBursts(log: seq<Chunk>, limit: nat) {
    forall i, j :: 0 <= i <= j <= |log| && AllRetryable(log, i, j) ==> j - i <= limit
  }

  ghost predicate TailBounded(log: seq<Chunk>, limit: nat) {
    forall i :: 0 <= i <= |log| && AllRetryable(log, i, |log|) ==> |log| - i <= limit
  }

  ghost predicate AllRetryable(log: seq<Chunk>, i: nat, j: nat)
    requires j <= |log|
  {
    forall k :: i <= k < j ==> log[k].retryable
  }

  /** The chunk requests still possible when retryCount interruptions have already been borne. */
  ghost function Potential(stalls: nat, left: nat, retryCount: nat, maxRetries: nat): int {
    Turns(stalls + left, maxRetries) + maxRetries - retryCount
  }

  /** The client and a faithful session agree: the session stores a prefix of the content and lacks its
      last byte, and the client is about to send what follows it, or everything if one byte is stored.
      The session knows the total only when the rest fits into one chunk. */
  ghost predicate Aligned(content: Bytes, chunkSize: nat, chunkOffset: nat, stored: Bytes, total: Option<nat>) {
    && |stored| <= |content|
    && stored == content[..|stored|]
    && (content != [] ==> |stored| < |content|)
    && (total.Some? ==> total.value == |content| > |stored| && |content| - chunkOffset <= chunkSize)
    && (chunkOffset == |stored| != 1 || (chunkOffset == 0 && |stored| == 1))
  }

  /** The client's own state: what is buffered and unread is the content from the chunk offset on. */
  ghost predicate ClientState(content: Bytes, rest: Bytes, buffer: Bytes, uploadedBytesCount: nat, chunkOffset: nat) {
    && uploadedBytesCount <= |buffer| && chunkOffset <= |content| && chunkOffset != 1
    && buffer[uploadedBytesCount..] + rest == content[chunkOffset..]
  }

  /** What the client sends next, as a chunk. */
  ghost function Outgoing(content: Bytes, chunkOffset: nat, length: nat): Chunk
    requires chunkOffset + length <= |content|
  {
    var end := chunkOffset + length;
    Chunk(chunkOffset, content[chunkOffset..end], if end == |content| then Some(end) else None, false)
  }

  /** The length FillChunk settles on: a full chunk unless the content ends before. */
  ghost predicate Planned(content: Bytes, chunkSize: nat, chunkOffset: nat, length: nat) {
    && 1 <= chunkSize && length <= chunkSize && chunkOffset + length <= |content|
    && (chunkOffset + length < |content| ==> length == chunkSize)
  }

  /** A chunk of the client's making: exact and, if the stream reads in full, cut short only by the end
      of the content. */
  ghost predicate Plan(content: Bytes, chunkSize: nat, full: bool, chunkOffset: nat, data: Bytes,
                       fileSize: Option<nat>)
  {
    && Exact(Chunk(chunkOffset, data, fileSize, false), content, chunkSize)
    && (full ==> Planned(content, chunkSize, chunkOffset, |data|)
                 && fileSize == Outgoing(content, chunkOffset, |data|).total)
  }

  /** Where the next chunk starts after a 308 answer, or why the answer is rejected. A confirmed offset
      of zero counts as none. */
  function Advance(range: RangeHeader, chunkOffset: nat, chunkLastByteOffset: int): Progress {
    if range.Unparsable? then
      Rejected(UnreadableRange)
    else if range.LastByte? && range.last != 0 then
      if range.last < chunkOffset - 1 || range.last > chunkLastByteOffset then Rejected(UnexpectedOffset)
      else Next(range.last + 1)
    else if chunkOffset > 0 then
      Rejected(UnexpectedOffset)
    else
      Next(chunkOffset)
  }

  datatype Progress = Next(offset: nat) | Rejected(result: UploadResult)

  datatype Sent = Respond(reply: Reply) | Fail(result: UploadResult)

  /** A session that confirms the first byte alone is taken to have confirmed nothing; with chunks of one
      byte it is then sent that byte again. */
  lemma FirstByteCountsAsNone(chunkOffset: nat, chunkLastByteOffset: int)
    ensures Advance(LastByte(0), chunkOffset, chunkLastByteOffset) == Advance(NoRange, chunkOffset, chunkLastByteOffset)
    ensures Advance(LastByte(0), 0, 0) == Next(0)
  {
  }

  /** A faithful session holding a prefix of the content goes on holding one. */
  lemma TakesPrefix(content: Bytes, chunkOffset: nat, length: nat,
                    stored: Bytes, total: Option<nat>, stored': Bytes, total': Option<nat>)
    requires chunkOffset + length <= |content| && |stored| <= |content| && stored == content[..|stored|]
    requires var c := Outgoing(content, chunkOffset, length);
             Takes(stored, total, chunkOffset, c.data, c.total, stored', total')
    ensures |stored'| <= |content| && stored' == content[..|stored'|]
  {
    if stored' != stored {
      SliceOfSlice(content, chunkOffset, chunkOffset + length, |stored| - chunkOffset, |stored'| - chunkOffset);
    }
  }

  /** An honest 308 answer is never rejected, and leaves client and session aligned. */
  lemma StaysAligned(content: Bytes, chunkSize: nat, chunkOffset: nat, length: nat, announced: Option<nat>,
                     stored: Bytes, total: Option<nat>, stored': Bytes, total': Option<nat>)
    requires Aligned(content, chunkSize, chunkOffset, stored, total)
    requires length <= chunkSize && chunkOffset + length <= |content|
    requires announced == Outgoing(content, chunkOffset, length).total
    requires Takes(stored, total, chunkOffset, content[chunkOffset..chunkOffset + length], announced, stored', total')
    requires total'.None? || |stored'| != total'.value
    ensures Advance(RangeOf(stored'), chunkOffset, chunkOffset + length - 1).Next?
    ensures var next := Advance(RangeOf(stored'), chunkOffset, chunkOffset + length - 1).offset;
            && Aligned(content, chunkSize, next, stored', total')
            && (chunkSize == 1 && |content| >= 2 && chunkOffset == 0 ==> next == 0)
  {
    TakesPrefix(content, chunkOffset, length, stored, total, stored', total');
  }

  lemma Appends(kept: Bytes, next: Bytes, rest': Bytes, rest: Bytes, pending: Bytes)
    requires rest == next + rest' && kept + rest == pending
    ensures (kept + next) + rest' == pending && |kept + next| + |rest'| == |pending|
  {
    assert (kept + next) + rest' == kept + (next + rest');
  }

  lemma StartsChunk(content: Bytes, chunkOffset: nat, buffer: Bytes, rest: Bytes, length: nat)
    requires chunkOffset <= |content| && buffer + rest == content[chunkOffset..] && length <= |buffer|
    ensures chunkOffset + length <= |content| && buffer[..length] == content[chunkOffset..chunkOffset + length]
  {
    assert |buffer| <= |buffer + rest| == |content| - chunkOffset;
    assert buffer[..length] == (buffer + rest)[..length];
    SliceOfSlice(content, chunkOffset, |content|, 0, length);
  }

  /** Either the buffer is sent whole, which is all there is if the stream reads in full, or a chunk of it that
      leaves at least the byte that was read ahead. */
  lemma IsPlan(content: Bytes, chunkSize: nat, full: bool, chunkOffset: nat, buffer: Bytes, rest: Bytes, length: nat,
               fileSize: Option<nat>)
    requires chunkSize >= 1 && chunkOffset <= |content| && chunkOffset != 1 && buffer + rest == content[chunkOffset..]
    requires || (length == |buffer| <= chunkSize && fileSize == Some(chunkOffset + length) && (full ==> rest == []))
             || (length == chunkSize < |buffer| && fileSize == None)
    ensures Plan(content, chunkSize, full, chunkOffset, buffer[..length], fileSize)
  {
    StartsChunk(content, chunkOffset, buffer, rest, length);
    assert |buffer| + |rest| == |content| - chunkOffset;
  }

  /** Tops up the buffer to a chunk and the byte after it, dropping what is confirmed, and decides how
      much to send and whether that is the end. */
  method FillChunk(stream: InputStream, buffer: Bytes, uploadedBytesCount: nat, chunkOffset: nat, chunkSize: nat,
                   ghost content: Bytes)
    returns (buffer': Bytes, length: nat, fileSize: Option<nat>)
    requires stream.Valid() && chunkSize >= 1
    requires ClientState(content, stream.Rest(), buffer, uploadedBytesCount, chunkOffset)
    modifies stream
    ensures stream.Valid()
    ensures buffer' + stream.Rest() == content[chunkOffset..]
    ensures length <= |buffer'|
    ensures Plan(content, chunkSize, stream.full, chunkOffset, buffer'[..length], fileSize)
  {
    hide Plan;
    var minBufferSize := chunkSize + READ_AHEAD;
    var bytesToRead := Max(0, minBufferSize - (|buffer| - uploadedBytesCount));
    ghost var rest := stream.Rest();
    var nextBuf := stream.Read(bytesToRead);
    buffer' := buffer[uploadedBytesCount..] + nextBuf;
    Appends(buffer[uploadedBytesCount..], nextBuf, stream.Rest(), rest, content[chunkOffset..]);
    if |nextBuf| < bytesToRead {
      length := |buffer'|;
      fileSize := Some(chunkOffset + length);
    } else {
      length := chunkSize;
      fileSize := None;
    }
    IsPlan(content, chunkSize, stream.full, chunkOffset, buffer', stream.Rest(), length, fileSize);
  }

  /** How client and session change over one chunk request and the status query that may follow it. */
  ghost predicate Exchange(v: View, c: Chunk, retryCount: nat, sent: Sent, retryCount': nat, v': View) {
    && |v'.log| == |v.log| + 1
    && var c' := v'.log[|v.log|];
    && v'.log == v.log + [c.(retryable := c'.retryable)]
    && (sent.Respond? && sent.reply.status in {200, 201, 308} ==>
          && v.lifetime > 0 && v'.lifetime == v.lifetime - 1
          && retryCount' == if c'.retryable then retryCount + 1 else 0)
  }

  /** The chunk request itself was answered with 308. */
  ghost predicate DirectlyContinued(sent: Sent, log: seq<Chunk>) {
    sent.Respond? && sent.reply.status == 308 && log != [] && !log[|log| - 1].retryable
  }

  /** What a faithful session adds to that. An answered chunk with something new to store either grows
      the session or uses up a stall. */
  ghost predicate HonestExchange(v: View, c: Chunk, sent: Sent, v': View) {
    && Takes(v.stored, v.total, c.first, c.data, c.total, v'.stored, v'.total)
    && v'.stalls <= v.stalls && v'.faults <= v.faults
    && (sent.Respond? ==> Truthful(sent.reply, v'.stored, v'.total))
    && (DirectlyContinued(sent, v'.log) ==>
          && (c.total.Some? ==> v'.total == c.total)
          && (c.first <= |v.stored| < c.first + |c.data| ==>
                v'.stalls - |v'.stored| < v.stalls - |v.stored|))
    && (v.faults == 0 && v.lifetime > 0 ==> sent.Respond? && sent.reply.status in {200, 201, 308})
  }

  /** What a chunk request amounts to: its own result, unless a status query came back with an answer that
      is no error, or failed in an unforeseen way. */
  function Settled(put: PutResult, query: Option<StatusResult>): Sent {
    var own := if put.Answered? then Respond(put.reply) else Fail(ConnectionFailed);
    if query.None? then own
    else match query.value
      case Escaped => Fail(StatusCheckFailed)
      case Status(reply) => if reply.status < 400 then Respond(reply) else own
      case Unreachable => own
  }

  /** A status query is made after every interruption that may still be borne, and only then. */
  predicate Asked(put: PutResult, query: Option<StatusResult>, burst: nat, maxRetries: nat) {
    query.Some? <==> Retryable(put) && burst <= maxRetries
  }

  /** Sends one chunk; after an interruption asks the session for its status instead. */
  method SendChunk(session: Session, chunkOffset: nat, data: Bytes, fileSize: Option<nat>,
                   retryCount: nat, maxRetries: nat)
    returns (sent: Sent, retryCount': nat)
    requires retryCount == session.burst <= maxRetries
    modifies session
    ensures session.aborts == old(session.aborts) && retryCount' <= maxRetries
    ensures sent == Settled(session.lastPut, session.lastQuery)
    ensures Asked(session.lastPut, session.lastQuery, session.burst, maxRetries)
    ensures sent.Respond? && sent.reply.status in {200, 201, 308} ==> retryCount' == session.burst
    ensures Exchange(old(session.View()), Chunk(chunkOffset, data, fileSize, false), retryCount,
                     sent, retryCount', session.View())
    ensures session.faithful ==>
              HonestExchange(old(session.View()), Chunk(chunkOffset, data, fileSize, false),
                             sent, session.View())
    ensures sent.Fail? ==> sent.result in {ConnectionFailed, StatusCheckFailed}
  {
    retryCount' := retryCount;
    var put := session.Put(chunkOffset, data, fileSize);
    if put.Answered? {
      sent := Respond(put.reply);
      if put.reply.status in Retries.RETRYABLE_STATUS_CODES {
        if retryCount < maxRetries {
          retryCount' := retryCount + 1;
          var status := session.QueryStatus();
          // A response with an error status is false, and so is a failed query.
          if status.Escaped? {
            sent := Fail(StatusCheckFailed);
          } else if status.Status? && status.reply.status < 400 {
            sent := Respond(status.reply);
          }
        }
      } else {
        retryCount' := 0;
      }
    } else if put.retryable && retryCount < maxRetries {
      retryCount' := retryCount + 1;
      var status := session.QueryStatus();
      if status.Escaped? {
        sent := Fail(StatusCheckFailed);
      } else if status.Status? && status.reply.status < 400 {
        sent := Respond(status.reply);
      } else {
        sent := Fail(ConnectionFailed);
      }
    } else {
      sent := Fail(ConnectionFailed);
    }
  }

  /** What every run promises, whatever the session answers: each chunk carries exactly the bytes of its
      range, and interruptions are borne only maxRetries times in a row. */
  ghost predicate Disciplined(content: Bytes, chunkSize: nat, maxRetries: nat, log: seq<Chunk>) {
    && (forall c <- log :: Exact(c, content, chunkSize))
    && BoundedBursts(log, maxRetries + 1)
  }

  /** The chunk requests that suffice for `size` bytes and a session that stalls `stalls` times. */
  ghost function RequestBound(size: nat, stalls: nat, maxRetries: nat): int {
    Potential(stalls, size, 0, maxRetries) + 1
  }

  ghost predicate Counted(content: Bytes, chunkSize: nat, maxRetries: nat, retryCount: nat, log: seq<Chunk>) {
    && (forall c <- log :: Exact(c, content, chunkSize))
    && retryCount <= maxRetries
    && BoundedBursts(log, maxRetries) && TailBounded(log, retryCount)
  }

  lemma RequestBoundClosedForm(size: nat, stalls: nat, maxRetries: nat)
    ensures RequestBound(size, stalls, maxRetries) == (size + stalls + 1) * (maxRetries + 1)
  {
    TurnsClosedForm(stalls + size, maxRetries);
  }

  /** The client gets past its first byte: it is stuck exactly when chunks of one byte make every
      confirmed offset look like none. */
  ghost predicate Moves(content: Bytes, chunkSize: nat) {
    chunkSize >= 2 || |content| <= 1
  }

  /** Client and faithful session at the loop head, with v0 the session at the start. */
  ghost predicate Honest(content: Bytes, chunkSize: nat, maxRetries: nat, chunkOffset: nat, retryCount: nat,
                         v0: View, v: View)
  {
    && Aligned(content, chunkSize, chunkOffset, v.stored, v.total)
    && (content != [] ==> AllValid(v.log, content))
    && v.lifetime + |v.log| == v0.lifetime
    && v.faults <= v0.faults
    && (if Moves(content, chunkSize) then
          |v.log| + Potential(v.stalls, |content| - |v.stored|, retryCount, maxRetries)
            < RequestBound(|content|, v0.stalls, maxRetries)
        else
          chunkOffset == 0 && v.total == None)
  }

  /** The verdict on a run against a faithful session. */
  ghost predicate Verdict(content: Bytes, chunkSize: nat, maxRetries: nat, v0: View, v: View, r: UploadResult) {
    && (r.Done? ==> Finished(v.stored, v.total) && v.stored == content)
    && r !in {UnexpectedStatus, UnexpectedOffset, UnreadableRange}
    && (AllValid(v.log, content) <==> content != [])
    && (Moves(content, chunkSize) ==> |v.log| <= RequestBound(|content|, v0.stalls, maxRetries))
    && (!Moves(content, chunkSize) ==> !r.Done?)
    && (v0.faults == 0 && v0.lifetime >= RequestBound(|content|, v0.stalls, maxRetries) ==>
          (r.Done? <==> Moves(content, chunkSize)))
  }

  /** Every range sent is valid, unless the content is empty: then there is no byte to name, and none is. */
  lemma OutgoingIsValid(content: Bytes, chunkSize: nat, chunkOffset: nat, length: nat, v: View, log': seq<Chunk>)
    requires Planned(content, chunkSize, chunkOffset, length)
    requires Aligned(content, chunkSize, chunkOffset, v.stored, v.total)
    requires content != [] ==> AllValid(v.log, content)
    requires |log'| == |v.log| + 1
    requires log' == v.log + [Outgoing(content, chunkOffset, length).(retryable := log'[|v.log|].retryable)]
    ensures AllValid(log', content) <==> content != []
  {
    assert log'[|v.log|] in log';
  }

  /** The bytes and stalls left shrink unless the chunk request was interrupted. */
  lemma StepsShrink(content: Bytes, chunkSize: nat, chunkOffset: nat, length: nat, sent: Sent, v: View, v': View)
    requires Planned(content, chunkSize, chunkOffset, length) && Moves(content, chunkSize)
    requires Aligned(content, chunkSize, chunkOffset, v.stored, v.total)
    requires HonestExchange(v, Outgoing(content, chunkOffset, length), sent, v')
    requires sent.Respond? && sent.reply.status == 308
    ensures |v.stored| <= |v'.stored| <= |content| && v'.stalls <= v.stalls
    ensures DirectlyContinued(sent, v'.log) ==> v'.stalls - |v'.stored| < v.stalls - |v.stored|
  {
    TakesPrefix(content, chunkOffset, length, v.stored, v.total, v'.stored, v'.total);
  }

  /** A 308 answer uses up a byte, a stall or an interruption, unless the client is stuck on one byte. */
  lemma StepUsed(content: Bytes, chunkSize: nat, maxRetries: nat, chunkOffset: nat, length: nat,
                 retryCount: nat, sent: Sent, retryCount': nat, v: View, v': View)
    requires Planned(content, chunkSize, chunkOffset, length) && Moves(content, chunkSize)
    requires Aligned(content, chunkSize, chunkOffset, v.stored, v.total)
    requires Exchange(v, Outgoing(content, chunkOffset, length), retryCount, sent, retryCount', v')
    requires HonestExchange(v, Outgoing(content, chunkOffset, length), sent, v')
    requires sent.Respond? && sent.reply.status == 308 && retryCount <= maxRetries && retryCount' <= maxRetries
    ensures |v'.stored| <= |content|
    ensures Potential(v'.stalls, |content| - |v'.stored|, retryCount', maxRetries)
            < Potential(v.stalls, |content| - |v.stored|, retryCount, maxRetries)
  {
    hide Takes, HonestExchange, Truthful, Planned, Moves, Turns;
    StepsShrink(content, chunkSize, chunkOffset, length, sent, v, v');
    var steps, steps' := v.stalls + |content| - |v.stored|, v'.stalls + |content| - |v'.stored|;
    if steps' < steps {
      TurnsGrow(steps', steps, maxRetries);
    }
  }

  lemma HonestContinues(content: Bytes, chunkSize: nat, maxRetries: nat, chunkOffset: nat, length: nat,
                        retryCount: nat, sent: Sent, retryCount': nat, v0: View, v: View, v': View)
    requires Honest(content, chunkSize, maxRetries, chunkOffset, retryCount, v0, v)
    requires Planned(content, chunkSize, chunkOffset, length)
    requires retryCount <= maxRetries && retryCount' <= maxRetries
    requires Exchange(v, Outgoing(content, chunkOffset, length), retryCount, sent, retryCount', v')
    requires HonestExchange(v, Outgoing(content, chunkOffset, length), sent, v')
    requires sent.Respond? && sent.reply.status == 308
    ensures Advance(sent.reply.range, chunkOffset, chunkOffset + length - 1).Next?
    ensures var next := Advance(sent.reply.range, chunkOffset, chunkOffset + length - 1).offset;
            Honest(content, chunkSize, maxRetries, next, retryCount', v0, v')
  {
    OutgoingIsValid(content, chunkSize, chunkOffset, length, v, v'.log);
    if Moves(content, chunkSize) {
      StepUsed(content, chunkSize, maxRetries, chunkOffset, length, retryCount, sent, retryCount', v, v');
    }
    StaysAligned(content, chunkSize, chunkOffset, length, Outgoing(content, chunkOffset, length).total,
                 v.stored, v.total, v'.stored, v'.total);
  }

  lemma HonestEnds(content: Bytes, chunkSize: nat, maxRetries: nat, chunkOffset: nat, length: nat,
                   retryCount: nat, sent: Sent, retryCount': nat, v0: View, v: View, v': View, r: UploadResult)
    requires Honest(content, chunkSize, maxRetries, chunkOffset, retryCount, v0, v)
    requires Planned(content, chunkSize, chunkOffset, length)
    requires retryCount <= maxRetries
    requires Exchange(v, Outgoing(content, chunkOffset, length), retryCount, sent, retryCount', v')
    requires HonestExchange(v, Outgoing(content, chunkOffset, length), sent, v')
    requires if sent.Fail? then r in {ConnectionFailed, StatusCheckFailed}
             else if sent.reply.status in {200, 201} then
               r == if chunkOffset + length < |content| then UnexpectedStatus else Done
             else sent.reply.status != 308 && (r.AlreadyExists? || r.HttpError?)
    ensures Verdict(content, chunkSize, maxRetries, v0, v', r)
  {
    OutgoingIsValid(content, chunkSize, chunkOffset, length, v, v'.log);
    TakesPrefix(content, chunkOffset, length, v.stored, v.total, v'.stored, v'.total);
    assert content[..|content|] == content;
  }

  /** Where a reply leads: on to the next chunk offset, or out of the loop. */
  function Interpret(sent: Sent, overwrite: bool, fileSize: Option<nat>, chunkOffset: nat, length: nat): (p: Progress)
    ensures p.Next? ==> sent.Respond? && sent.reply.status == 308
    ensures p.Next? ==> chunkOffset <= p.offset <= chunkOffset + length && (p.offset == 1 ==> chunkOffset == 1)
  {
    if sent.Fail? then
      Rejected(sent.result)
    else if sent.reply.status in {200, 201} then
      Rejected(if fileSize.None? then UnexpectedStatus else Done)
    else if sent.reply.status == 308 then
      Advance(sent.reply.range, chunkOffset, chunkOffset + length - 1)
    else if sent.reply.status == 412 && !overwrite then
      Rejected(AlreadyExists)
    else
      Rejected(HttpError(sent.reply.status))
  }

  lemma HonestTurn(content: Bytes, chunkSize: nat, maxRetries: nat, overwrite: bool, chunkOffset: nat, length: nat,
                   retryCount: nat, sent: Sent, retryCount': nat, v0: View, v: View, v': View)
    requires Honest(content, chunkSize, maxRetries, chunkOffset, retryCount, v0, v)
    requires Planned(content, chunkSize, chunkOffset, length)
    requires retryCount <= maxRetries && retryCount' <= maxRetries
    requires Exchange(v, Outgoing(content, chunkOffset, length), retryCount, sent, retryCount', v')
    requires HonestExchange(v, Outgoing(content, chunkOffset, length), sent, v')
    requires sent.Fail? ==> sent.result in {ConnectionFailed, StatusCheckFailed}
    ensures var p := Interpret(sent, overwrite, Outgoing(content, chunkOffset, length).total, chunkOffset, length);
            if p.Next? then Honest(content, chunkSize, maxRetries, p.offset, retryCount', v0, v')
            else Verdict(content, chunkSize, maxRetries, v0, v', p.result)
  {
    if sent.Respond? && sent.reply.status == 308 {
      HonestContinues(content, chunkSize, maxRetries, chunkOffset, length, retryCount, sent, retryCount', v0, v, v');
    } else {
      var p := Interpret(sent, overwrite, Outgoing(content, chunkOffset, length).total, chunkOffset, length);
      HonestEnds(content, chunkSize, maxRetries, chunkOffset, length, retryCount, sent, retryCount', v0, v, v',
                 p.result);
    }
  }

  /** The session was interrupted in a way that it can recover from. */
  ghost predicate WasInterrupted(put: PutResult) {
    match put
    case Answered(reply) => reply.status in {408, 429, 500, 502, 503, 504}
    case Interrupted(retryable) => retryable
  }

  /** The reply that decides what comes next: that of the status query if it is no error, and else that of the
      chunk request. */
  ghost function Deciding(put: PutResult, query: Option<StatusResult>): Option<Reply> {
    if query.Some? && query.value.Status? && query.value.reply.status < 400 then Some(query.value.reply)
    else if query != Some(Escaped) && put.Answered? then Some(put.reply)
    else None
  }

  /** The session says of a 308 that it has stored bytes up to an offset that the chunk does not explain: before
      it or after it, or none though it begins further on. The offset 0 says none. */
  ghost predicate Contradicts(range: RangeHeader, c: Chunk) {
    match range
    case Unparsable => false
    case NoRange => c.first > 0
    case LastByte(last) =>
      if last == 0 then c.first > 0 else last + 1 < c.first || last >= c.first + |c.data|
  }

  /** The result of an upload, for each kind of reply that ends it: c is the last chunk, `put` and `query` are
      what came of it and of the status query after it. */
  ghost predicate Explained(put: PutResult, query: Option<StatusResult>, c: Chunk, overwrite: bool, r: UploadResult) {
    var decided := Deciding(put, query);
    && (r.StatusCheckFailed? <==> query == Some(Escaped))
    && (r.ConnectionFailed? <==> decided == None && query != Some(Escaped))
    && (decided.Some? ==>
          var status := decided.value.status;
          && (r.Done? <==> status in {200, 201} && c.total.Some?)
          && (r.UnexpectedStatus? <==> status in {200, 201} && c.total.None?)
          && (r.UnreadableRange? <==> status == 308 && decided.value.range.Unparsable?)
          && (r.UnexpectedOffset? <==> status == 308 && Contradicts(decided.value.range, c))
          && (r.AlreadyExists? <==> status == 412 && !overwrite)
          && (r.HttpError? <==> status !in {200, 201, 308} && (status == 412 ==> overwrite))
          && (r.HttpError? ==> r.status == status))
  }

  /** The upload ended because its last chunk request, with the status query after it, called for that. A query
      was made exactly if that request was interrupted, and no more than maxRetries times in a row. */
  ghost predicate CalledFor(session: Session, overwrite: bool, maxRetries: nat, r: UploadResult)
    reads session
  {
    && session.log != []
    && (session.lastQuery.Some? <==> WasInterrupted(session.lastPut) && session.burst <= maxRetries)
    && Explained(session.lastPut, session.lastQuery, session.log[|session.log| - 1], overwrite, r)
  }

  lemma InterpretExplains(put: PutResult, query: Option<StatusResult>, c: Chunk, overwrite: bool, burst: nat,
                          maxRetries: nat)
    requires Asked(put, query, burst, maxRetries)
    ensures query.Some? <==> WasInterrupted(put) && burst <= maxRetries
    ensures var p := Interpret(Settled(put, query), overwrite, c.total, c.first, |c.data|);
            && (p.Rejected? ==> Explained(put, query, c, overwrite, p.result))
            && (p.Next? ==> var decided := Deciding(put, query);
                            decided.Some? && decided.value.status == 308
                            && !decided.value.range.Unparsable? && !Contradicts(decided.value.range, c))
  {
  }

  /** A faithful session's upload fails only for an error that is not worth a retry, for too many
      interruptions in a row, or for a status query that failed: whatever else happens is borne. */
  lemma FailureHasCause(session: Session, overwrite: bool, maxRetries: nat, r: UploadResult)
    requires CalledFor(session, overwrite, maxRetries, r)
    requires r !in {Done, UnexpectedStatus, UnexpectedOffset, UnreadableRange}
    ensures var put, query := session.lastPut, session.lastQuery;
            || (!WasInterrupted(put) && (put.Answered? ==> put.reply.status !in {200, 201, 308}))
            || session.burst > maxRetries
            || (query.Some? && (query.value.Status? ==> query.value.reply.status !in {200, 201, 308}))
  {
  }

  /** SendChunk, with what it means for the invariants of the loop. */
  method SendPlanned(session: Session, overwrite: bool, ghost content: Bytes, ghost chunkSize: nat,
                     chunkOffset: nat, data: Bytes, fileSize: Option<nat>,
                     retryCount: nat, maxRetries: nat, ghost full: bool, ghost v0: View)
    returns (sent: Sent, retryCount': nat)
    requires Plan(content, chunkSize, full, chunkOffset, data, fileSize)
    requires Counted(content, chunkSize, maxRetries, retryCount, session.log) && retryCount == session.burst
    requires session.faithful && full ==>
               Honest(content, chunkSize, maxRetries, chunkOffset, retryCount, v0, session.View())
    modifies session
    ensures session.aborts == old(session.aborts)
    ensures Disciplined(content, chunkSize, maxRetries, session.log)
    ensures var p := Interpret(sent, overwrite, fileSize, chunkOffset, |data|);
            && (p.Next? ==> session.lifetime < old(session.lifetime) && retryCount' == session.burst
                            && Counted(content, chunkSize, maxRetries, retryCount', session.log))
            && (p.Rejected? ==> CalledFor(session, overwrite, maxRetries, p.result))
            && (session.faithful && full ==>
                  if p.Next? then Honest(content, chunkSize, maxRetries, p.offset, retryCount', v0, session.View())
                  else Verdict(content, chunkSize, maxRetries, v0, session.View(), p.result))
  {
    ghost var v := session.View();
    sent, retryCount' := SendChunk(session, chunkOffset, data, fileSize, retryCount, maxRetries);
    CountedExtends(content, chunkSize, maxRetries, retryCount, v.log, session.log[|v.log|]);
    InterpretExplains(session.lastPut, session.lastQuery, session.log[|v.log|], overwrite, session.burst, maxRetries);
    hide Explained, Settled, WasInterrupted;
    if session.faithful && full {
      HonestTurn(content, chunkSize, maxRetries, overwrite, chunkOffset, |data|, retryCount, sent, retryCount',
                 v0, v, session.View());
    }
  }

  /** The loop of the upload. */
  method TransferChunks(session: Session, stream: InputStream, overwrite: bool, preRead: Bytes,
                        chunkSize: nat, maxRetries: nat) returns (r: UploadResult)
    requires stream.Valid() && chunkSize >= 1
    requires session.stored == [] && session.total == None && session.log == [] && session.burst == 0
    modifies session, stream
    ensures stream.Valid() && session.aborts == old(session.aborts)
    ensures Disciplined(preRead + old(stream.Rest()), chunkSize, maxRetries, session.log)
    ensures CalledFor(session, overwrite, maxRetries, r)
    ensures session.faithful && stream.full ==>
              Verdict(preRead + old(stream.Rest()), chunkSize, maxRetries, old(session.View()), session.View(), r)
  {
    ghost var content := preRead + stream.Rest();
    ghost var v0 := session.View();
    var buffer := preRead;
    var uploadedBytesCount: nat := 0;
    var chunkOffset: nat := 0;
    var retryCount: nat := 0;
    while true
      invariant stream.Valid() && session.aborts == old(session.aborts)
      invariant ClientState(content, stream.Rest(), buffer, uploadedBytesCount, chunkOffset)
      invariant Counted(content, chunkSize, maxRetries, retryCount, session.log) && retryCount == session.burst
      invariant session.faithful && stream.full ==>
                  Honest(content, chunkSize, maxRetries, chunkOffset, retryCount, v0, session.View())
      decreases session.lifetime
    {
      var length, fileSize, sent;
      buffer, length, fileSize := FillChunk(stream, buffer, uploadedBytesCount, chunkOffset, chunkSize, content);
      sent, retryCount := SendPlanned(session, overwrite, content, chunkSize, chunkOffset, buffer[..length], fileSize,
                                      retryCount, maxRetries, stream.full, v0);
      var progress := Interpret(sent, overwrite, fileSize, chunkOffset, length);
      if progress.Rejected? {
        return progress.result;
      }
      uploadedBytesCount := progress.offset - chunkOffset;
      ClientAdvances(content, stream.Rest(), buffer, chunkOffset, progress.offset);
      chunkOffset := progress.offset;
    }
  }

  /** The upload to a session whose URL is known: whatever goes wrong in the loop, the session is asked
      once to drop what it stored, and the error goes on to the caller. */
  method PerformResumableUpload(session: Session, stream: InputStream, overwrite: bool, preRead: Bytes,
                                chunkSize: nat, maxRetries: nat) returns (r: UploadResult)
    requires stream.Valid() && chunkSize >= 1
    requires session.stored == [] && session.total == None && session.log == [] && session.burst == 0
    modifies session, stream
    ensures stream.Valid()
    ensures session.aborts == old(session.aborts) + if r.Done? then 0 else 1
    ensures Disciplined(preRead + old(stream.Rest()), chunkSize, maxRetries, session.log)
    ensures CalledFor(session, overwrite, maxRetries, r)
    ensures session.faithful && stream.full ==>
              Verdict(preRead + old(stream.Rest()), chunkSize, maxRetries, old(session.View()), session.View(), r)
  {
    r := TransferChunks(session, stream, overwrite, preRead, chunkSize, maxRetries);
    if !r.Done? {
      session.Abort();
    }
  }

  lemma ClientAdvances(content: Bytes, rest: Bytes, buffer: Bytes, chunkOffset: nat, next: nat)
    requires chunkOffset <= |content| && chunkOffset <= next <= chunkOffset + |buffer| && next != 1
    requires buffer + rest == content[chunkOffset..]
    ensures ClientState(content, rest, buffer, next - chunkOffset, next)
  {
    assert |buffer| + |rest| == |content| - chunkOffset;
    assert buffer[next - chunkOffset..] + rest == (buffer + rest)[next - chunkOffset..];
  }

  lemma CountedExtends(content: Bytes, chunkSize: nat, maxRetries: nat, retryCount: nat, log: seq<Chunk>, c: Chunk)
    requires Counted(content, chunkSize, maxRetries, retryCount, log) && Exact(c, content, chunkSize)
    ensures forall x <- log + [c] :: Exact(x, content, chunkSize)
    ensures BoundedBursts(log + [c], maxRetries + 1)
    ensures retryCount < maxRetries || !c.retryable ==>
              Counted(content, chunkSize, maxRetries, if c.retryable then retryCount + 1 else 0, log + [c])
  {
    BurstsExtend(log, c, retryCount, maxRetries);
  }

  lemma BurstsExtend(log: seq<Chunk>, c: Chunk, retryCount: nat, maxRetries: nat)
    requires retryCount <= maxRetries && BoundedBursts(log, maxRetries)
    requires TailBounded(log, retryCount)
    ensures BoundedBursts(log + [c], if c.retryable && retryCount == maxRetries then maxRetries + 1 else maxRetries)
    ensures TailBounded(log + [c], if c.retryable then retryCount + 1 else 0)
  {
    var log' := log + [c];
    forall i, j | 0 <= i <= j <= |log'| && AllRetryable(log', i, j)
      ensures j - i <= if j <= |log| then maxRetries else if c.retryable then retryCount + 1 else 0
    {
      if j <= |log| {
        assert forall k :: i <= k < j ==> log'[k] == log[k];
        assert AllRetryable(log, i, j);
      } else if i < j {
        assert log'[j - 1] == c;
        assert forall k :: i <= k < |log| ==> log'[k] == log[k];
        assert AllRetryable(log, i, |log|);
      }
    }
  }
}
