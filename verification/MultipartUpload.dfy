/** The multipart upload of databricks/sdk/mixins/files.py: parts go to presigned URLs that come in
    batches and may expire, in which case the bytes move on to the next part number. */
module MultipartUpload {
  import opened Common
  import opened Retries

  datatype StoredPart = StoredPart(data: Bytes, etag: nat)

  datatype Part = Part(number: nat, etag: nat)

  datatype UploadResult =
    | Done
    | RequestFailed          // a request to the workspace raised an error
    | NoUrls
    | PartNumberMismatch
    | UrlExpiredTooOften
    | HttpError(status: int)
    | PartFailed(cause: RetryResult)

  predicate Succeeded(r: RetryResult) {
    r.Success? && r.response.status in {200, 201}
  }

  predicate UrlExpiredResponse(r: RetryResult) {
    r.Success? && r.response.status == 403 && r.response.body.UrlExpired?
  }

  function ErrorOf(r: RetryResult): UploadResult {
    if r.Success? then HttpError(r.response.status) else PartFailed(r)
  }

  /** What became of a part request on the remote side: the part was stored, its URL had expired, or
      something else came of it. */
  datatype Fate = Kept | Expired | Refused(cause: RetryResult)

  /** A workspace request that failed, or one that gave no URLs. */
  datatype Trouble = RequestDropped | NoUrlsGiven

  /** Storage that has stored a part answers 200 or 201, and storage whose URL has expired answers 403 and
      says so; it gives no such answers otherwise. */
  ghost function FateOf(result: RetryResult): Fate {
    match result
    case Success(response) =>
      if response.status == 200 || response.status == 201 then Kept
      else if response.status == 403 && response.body == UrlExpired then Expired
      else Refused(result)
    case _ => Refused(result)
  }

  /** The remote end of one upload session. An orderly one numbers URLs consecutively from the part
      number asked for. */
  class Session {
    const orderly: bool
    var parts: map<nat, StoredPart>
    var assembled: Option<Bytes>
    var completed: seq<Part>
    var aborts: nat
    ghost var puts: seq<nat>          // the numbers of the part requests
    ghost var fates: seq<Fate>        // and what became of them
    ghost var trouble: Option<Trouble>

    constructor (orderly: bool)
      ensures this.orderly == orderly && parts == map[] && assembled == None && completed == []
      ensures aborts == 0 && puts == [] && fates == [] && trouble == None
    {
      this.orderly, parts, assembled, completed, aborts := orderly, map[], None, [], 0;
      puts, fates, trouble := [], [], None;
    }

    /** The part numbers of a batch of URLs, or nothing if the request failed. */
    method RequestUrls(start: nat) returns (urls: Option<seq<nat>>)
      modifies this`trouble
      ensures trouble == if urls.None? then Some(RequestDropped)
                         else if urls.value == [] then Some(NoUrlsGiven)
                         else old(trouble)
      ensures orderly && urls.Some? ==> forall i :: 0 <= i < |urls.value| ==> urls.value[i] == start + i
    {
      var failed: bool := *;
      if failed {
        trouble := Some(RequestDropped);
        return None;
      }
      var given :| given >= 0;
      if orderly {
        urls := Some(seq(given, i => start + i));
      } else {
        var numbers: seq<nat> := *;
        urls := Some(numbers);
      }
      if urls.value == [] {
        trouble := Some(NoUrlsGiven);
      }
    }

    /** Puts a chunk to the URL of a part, with retries that rewind the chunk. The session keeps what
        the last attempt sent; attempts that failed may have left anything in this part. */
    method PutPart(number: nat, chunk: Bytes, clock: Clock, timeout: int) returns (result: RetryResult)
      modifies this`parts, this`puts, this`fates, clock
      ensures puts == old(puts) + [number] && fates == old(fates) + [FateOf(result)]
      ensures OnlyPart(number, old(parts), parts)
      ensures FateOf(result).Kept? ==> number in parts && parts[number] == StoredPart(chunk, result.response.etag)
      ensures result.Success? ==> result.response.status !in RETRYABLE_STATUS_CODES
    {
      var request := new Request(chunk, 0, true);
      assert request.body[request.position..] == chunk;
      ghost var slept;
      result, slept := Retried(request, clock, timeout, Some(0));
      if result.Success? && result.response.status in {200, 201} {
        parts := parts[number := StoredPart(request.attempts[|request.attempts| - 1].sent, result.response.etag)];
      } else {
        var leftovers: bool := *;
        if leftovers {
          var some: StoredPart := *;
          parts := parts[number := some];
        }
      }
      puts, fates := puts + [number], fates + [FateOf(result)];
    }

    /** Assembles the listed parts, in the order of the list, if it has each of them. */
    method Complete(list: seq<Part>) returns (ok: bool)
      modifies this`assembled, this`completed, this`trouble
      ensures trouble == if ok then old(trouble) else Some(RequestDropped)
      ensures ok ==> HasAll(parts, list) && assembled == Some(Concat(parts, list)) && completed == list
      ensures !ok ==> assembled == old(assembled) || (HasAll(parts, list) && assembled == Some(Concat(parts, list)))
    {
      var failed: bool := *;
      ok := !failed && HasAll(parts, list);
      if ok {
        assembled, completed := Some(Concat(parts, list)), list;
      } else {
        trouble := Some(RequestDropped);
      }
    }

    method Abort()
      modifies this`aborts
      ensures aborts == old(aborts) + 1
    {
      aborts := aborts + 1;
    }
  }

  /** At most the given part has changed. */
  ghost predicate OnlyPart(partNumber: nat, parts: map<nat, StoredPart>, parts': map<nat, StoredPart>) {
    forall k :: k != partNumber ==> (k in parts' <==> k in parts) && (k in parts ==> parts'[k] == parts[k])
  }

  predicate HasAll(parts: map<nat, StoredPart>, list: seq<Part>) {
    forall p <- list :: p.number in parts && parts[p.number].etag == p.etag
  }

  function Concat(parts: map<nat, StoredPart>, list: seq<Part>): Bytes
    requires HasAll(parts, list)
  {
    if list == [] then [] else Concat(parts, list[..|list| - 1]) + parts[list[|list| - 1].number].data
  }

  /** The items of `etags` with keys 1..n, sorted by key. */
  function SortedItems(etags: map<nat, nat>, n: nat): (list: seq<Part>) {
    if n == 0 then [] else SortedItems(etags, n - 1) + if n in etags then [Part(n, etags[n])] else []
  }

  ghost predicate Ascending(list: seq<Part>) {
    forall i, j :: 0 <= i < j < |list| ==> list[i].number < list[j].number
  }

  lemma {:induction false} SortedItemsSorts(etags: map<nat, nat>, n: nat)
    ensures Ascending(SortedItems(etags, n))
    ensures forall p :: p in SortedItems(etags, n)
                        <==> 1 <= p.number <= n && p.number in etags && p.etag == etags[p.number]
  {
    if n > 0 {
      SortedItemsSorts(etags, n - 1);
    }
  }

  lemma {:induction false} SortedItemsAgree(etags: map<nat, nat>, etags': map<nat, nat>, n: nat)
    requires forall k :: 1 <= k <= n ==> (k in etags <==> k in etags') && (k in etags ==> etags[k] == etags'[k])
    ensures SortedItems(etags, n) == SortedItems(etags', n)
  {
    if n > 0 {
      SortedItemsAgree(etags, etags', n - 1);
    }
  }

  lemma SortedItemsExtend(etags: map<nat, nat>, n: nat, etag: nat)
    requires n >= 1
    ensures SortedItems(etags[n := etag], n) == SortedItems(etags, n - 1) + [Part(n, etag)]
  {
    SortedItemsAgree(etags, etags[n := etag], n - 1);
  }

  lemma {:induction false} ConcatAgrees(parts: map<nat, StoredPart>, parts': map<nat, StoredPart>, list: seq<Part>)
    requires HasAll(parts, list)
    requires forall p <- list :: p.number in parts' && parts'[p.number] == parts[p.number]
    ensures HasAll(parts', list) && Concat(parts', list) == Concat(parts, list)
  {
    if list != [] {
      ConcatAgrees(parts, parts', list[..|list| - 1]);
    }
  }

  /** Tries to fill the buffer up to a minimum size from the stream. */
  method FillBuffer(buffer: Bytes, desiredMinSize: nat, stream: InputStream) returns (buffer': Bytes)
    requires stream.Valid()
    modifies stream
    ensures stream.Valid()
    ensures buffer' + stream.Rest() == buffer + old(stream.Rest())
    ensures |buffer| <= |buffer'| <= Max(|buffer|, desiredMinSize)
    ensures desiredMinSize > 0 && buffer' == [] ==> stream.Rest() == []
    ensures stream.full && |buffer'| < desiredMinSize ==> stream.Rest() == []
  {
    var bytesToRead := Max(0, desiredMinSize - |buffer|);
    if bytesToRead > 0 {
      var nextBuf := stream.Read(bytesToRead);
      buffer' := buffer + nextBuf;
    } else {
      buffer' := buffer;
    }
  }

  // ---------- What holds between two part requests ----------

  /** The parts recorded so far are stored and make up the content up to `offset`. */
  ghost predicate Stored(content: Bytes, parts: map<nat, StoredPart>, etags: map<nat, nat>, partNumber: nat,
                         offset: nat)
  {
    && 1 <= partNumber && offset <= |content|
    && (forall k <- etags :: 1 <= k < partNumber)
    && var list := SortedItems(etags, partNumber - 1);
    && HasAll(parts, list)
    && Concat(parts, list) == content[..offset]
  }

  lemma StoredExtends(content: Bytes, parts: map<nat, StoredPart>, parts': map<nat, StoredPart>,
                      etags: map<nat, nat>, partNumber: nat, offset: nat, length: nat, etag: nat)
    requires Stored(content, parts, etags, partNumber, offset) && offset + length <= |content|
    requires OnlyPart(partNumber, parts, parts')
    requires partNumber in parts' && parts'[partNumber] == StoredPart(content[offset..offset + length], etag)
    ensures Stored(content, parts', etags[partNumber := etag], partNumber + 1, offset + length)
  {
    hide Concat, SortedItems;
    var list := SortedItems(etags, partNumber - 1);
    SortedItemsSorts(etags, partNumber - 1);
    SortedItemsExtend(etags, partNumber, etag);
    ConcatAgrees(parts, parts', list);
    ConcatExtends(parts', list, Part(partNumber, etag));
    assert content[..offset] + content[offset..offset + length] == content[..offset + length];
  }

  lemma ConcatExtends(parts: map<nat, StoredPart>, list: seq<Part>, p: Part)
    requires HasAll(parts, list) && p.number in parts && parts[p.number].etag == p.etag
    ensures HasAll(parts, list + [p]) && Concat(parts, list + [p]) == Concat(parts, list) + parts[p.number].data
  {
    assert (list + [p])[..|list|] == list;
  }

  lemma StoredSkips(content: Bytes, parts: map<nat, StoredPart>, parts': map<nat, StoredPart>,
                    etags: map<nat, nat>, partNumber: nat, offset: nat)
    requires Stored(content, parts, etags, partNumber, offset)
    requires OnlyPart(partNumber, parts, parts')
    ensures Stored(content, parts', etags, partNumber + 1, offset)
  {
    var list := SortedItems(etags, partNumber - 1);
    SortedItemsSorts(etags, partNumber - 1);
    ConcatAgrees(parts, parts', list);
    assert SortedItems(etags, partNumber) == list;
  }

  /** The parts it takes to send n bytes in chunks: n divided by the chunk size, rounded up. */
  ghost function PartCount(n: nat, chunkSize: nat): (count: nat)
    requires chunkSize >= 1
  {
    if n == 0 then 0 else 1 + PartCount(n - Min(n, chunkSize), chunkSize)
  }

  lemma {:induction false} PartCountRoundsUp(n: nat, chunkSize: nat)
    requires chunkSize >= 1
    ensures n <= PartCount(n, chunkSize) * chunkSize < n + chunkSize
  {
    if n > chunkSize {
      PartCountRoundsUp(n - chunkSize, chunkSize);
      var rest := PartCount(n - chunkSize, chunkSize);
      assert (rest + 1) * chunkSize == rest * chunkSize + chunkSize;
    } else if n > 0 {
      assert PartCount(0, chunkSize) == 0;
    }
  }

  /** One upload: the whole content, the configuration, and whether the stream reads in full. */
  datatype Job = Job(content: Bytes, chunkSize: nat, maxRetries: nat, full: bool) {
    ghost predicate Valid() {
      chunkSize >= 1
    }

    /** How many parts the content can take. */
    ghost function MaxParts(): nat
      requires Valid()
    {
      if full then PartCount(|content|, chunkSize) else |content|
    }
  }

  /** A part is cut short only if the stream reads short or the content ends with it. */
  ghost predicate Sized(job: Job, parts: map<nat, StoredPart>, etags: map<nat, nat>, offset: nat) {
    forall k <- etags ::
      && k in parts && 1 <= |parts[k].data| <= job.chunkSize
      && (job.full && |parts[k].data| < job.chunkSize ==> offset == |job.content| && forall j <- etags :: j <= k)
  }

  /** Every recorded part has cost at most maxRetries expired URLs before it. */
  ghost predicate Counted(job: Job, recorded: nat, partNumber: nat, offset: nat, retryCount: nat)
    requires job.Valid()
  {
    && 1 <= partNumber && offset <= |job.content| && retryCount <= job.maxRetries
    && partNumber - 1 <= Turns(recorded, job.maxRetries) + retryCount
    && recorded <= offset
    && (job.full ==> recorded + PartCount(|job.content| - offset, job.chunkSize) == job.MaxParts())
  }

  ghost predicate Consecutive(puts: seq<nat>, partNumber: nat) {
    |puts| == partNumber - 1 && forall i :: 0 <= i < |puts| ==> puts[i] == i + 1
  }

  /** The whole state between two part requests. */
  ghost predicate Uploading(job: Job, parts: map<nat, StoredPart>, puts: seq<nat>,
                            etags: map<nat, nat>, partNumber: nat, offset: nat, retryCount: nat)
  {
    && job.Valid()
    && Stored(job.content, parts, etags, partNumber, offset)
    && Sized(job, parts, etags, offset)
    && Counted(job, |etags|, partNumber, offset, retryCount)
    && Consecutive(puts, partNumber)
  }

  /** The chunk sent next: the bytes from the offset on, as many as fit. */
  ghost predicate NextChunk(job: Job, offset: nat, chunk: Bytes) {
    && 1 <= |chunk| <= job.chunkSize && offset + |chunk| <= |job.content|
    && chunk == job.content[offset..offset + |chunk|]
    && (job.full ==> |chunk| == Min(|job.content| - offset, job.chunkSize))
  }

  lemma CountedExtends(job: Job, recorded: nat, partNumber: nat, offset: nat, retryCount: nat, chunk: Bytes)
    requires job.Valid() && NextChunk(job, offset, chunk)
    requires Counted(job, recorded, partNumber, offset, retryCount)
    ensures Counted(job, recorded + 1, partNumber + 1, offset + |chunk|, 0)
  {
  }

  lemma UploadingExtends(job: Job, parts: map<nat, StoredPart>, parts': map<nat, StoredPart>, puts: seq<nat>,
                         etags: map<nat, nat>, partNumber: nat, offset: nat, retryCount: nat, chunk: Bytes, etag: nat)
    requires Uploading(job, parts, puts, etags, partNumber, offset, retryCount) && NextChunk(job, offset, chunk)
    requires OnlyPart(partNumber, parts, parts')
    requires partNumber in parts' && parts'[partNumber] == StoredPart(chunk, etag)
    ensures Uploading(job, parts', puts + [partNumber], etags[partNumber := etag], partNumber + 1, offset + |chunk|, 0)
  {
    hide Stored, Sized;
    var etags' := etags[partNumber := etag];
    KeysBelow(job.content, parts, etags, partNumber, offset);
    StoredExtends(job.content, parts, parts', etags, partNumber, offset, |chunk|, etag);
    KeyAdded(etags, partNumber, etag);
    CountedExtends(job, |etags|, partNumber, offset, retryCount, chunk);
    SizedExtends(job, parts, parts', etags, partNumber, offset, chunk, etag);
  }

  lemma KeysBelow(content: Bytes, parts: map<nat, StoredPart>, etags: map<nat, nat>, partNumber: nat, offset: nat)
    requires Stored(content, parts, etags, partNumber, offset)
    ensures forall k <- etags :: 1 <= k < partNumber
  {
  }

  lemma KeyAdded<V>(m: map<nat, V>, key: nat, value: V)
    requires key !in m
    ensures |m[key := value]| == |m| + 1
  {
    assert m[key := value].Keys == m.Keys + {key};
  }

  lemma SizedExtends(job: Job, parts: map<nat, StoredPart>, parts': map<nat, StoredPart>,
                     etags: map<nat, nat>, partNumber: nat, offset: nat, chunk: Bytes, etag: nat)
    requires Sized(job, parts, etags, offset) && NextChunk(job, offset, chunk)
    requires OnlyPart(partNumber, parts, parts') && forall k <- etags :: k < partNumber
    requires partNumber in parts' && parts'[partNumber] == StoredPart(chunk, etag)
    ensures Sized(job, parts', etags[partNumber := etag], offset + |chunk|)
  {
  }

  lemma UploadingSkips(job: Job, parts: map<nat, StoredPart>, parts': map<nat, StoredPart>, puts: seq<nat>,
                       etags: map<nat, nat>, partNumber: nat, offset: nat, retryCount: nat)
    requires Uploading(job, parts, puts, etags, partNumber, offset, retryCount) && retryCount < job.maxRetries
    requires OnlyPart(partNumber, parts, parts')
    ensures Uploading(job, parts', puts + [partNumber], etags, partNumber + 1, offset, retryCount + 1)
  {
    hide Stored, Sized;
    StoredSkips(job.content, parts, parts', etags, partNumber, offset);
    KeysBelow(job.content, parts, etags, partNumber, offset);
    SizedSkips(job, parts, parts', etags, partNumber, offset);
  }

  lemma SizedSkips(job: Job, parts: map<nat, StoredPart>, parts': map<nat, StoredPart>,
                   etags: map<nat, nat>, partNumber: nat, offset: nat)
    requires Sized(job, parts, etags, offset)
    requires OnlyPart(partNumber, parts, parts') && forall k <- etags :: k < partNumber
    ensures Sized(job, parts', etags, offset)
  {
  }

  /** Part requests use the numbers from 1 on without a gap, and no more of them than maxRetries + 1 for
      each part the content can take. */
  ghost predicate Numbered(job: Job, puts: seq<nat>)
    requires job.Valid()
  {
    && (forall i :: 0 <= i < |puts| ==> puts[i] == i + 1)
    && |puts| <= Turns(job.MaxParts(), job.maxRetries)
  }

  lemma UploadingIsNumbered(job: Job, parts: map<nat, StoredPart>, puts: seq<nat>,
                            etags: map<nat, nat>, partNumber: nat, offset: nat, retryCount: nat, puts': seq<nat>)
    requires Uploading(job, parts, puts, etags, partNumber, offset, retryCount)
    requires || (puts' == puts && (retryCount == 0 || offset < |job.content|))
             || (puts' == puts + [partNumber] && offset < |job.content|)
    ensures Numbered(job, puts')
  {
    if |etags| < job.MaxParts() {
      TurnsGrow(|etags|, job.MaxParts(), job.maxRetries);
    }
  }

  /** How many expired URLs in a row there were last. */
  ghost function Expiries(fates: seq<Fate>): nat {
    if fates == [] || !fates[|fates| - 1].Expired? then 0 else Expiries(fates[..|fates| - 1]) + 1
  }

  /** Up to now no part was refused and no more URLs in a row had expired than is borne. */
  ghost predicate Borne(fates: seq<Fate>, maxRetries: nat) {
    && (forall i :: 0 <= i < |fates| ==> !fates[i].Refused?)
    && (forall i :: 0 <= i <= |fates| ==> Expiries(fates[..i]) <= maxRetries)
  }

  /** Just the parts that were stored are recorded, under their numbers. */
  ghost predicate Recorded(fates: seq<Fate>, etags: map<nat, nat>) {
    forall n: nat :: n in etags <==> 1 <= n <= |fates| && fates[n - 1].Kept?
  }

  /** The state between two part requests, as far as their fates go. */
  ghost predicate Fated(fates: seq<Fate>, etags: map<nat, nat>, partNumber: nat, retryCount: nat, maxRetries: nat) {
    && |fates| == partNumber - 1 && Borne(fates, maxRetries) && Recorded(fates, etags)
    && Expiries(fates) == retryCount <= maxRetries
  }

  lemma FatesExtend(fates: seq<Fate>, fate: Fate, maxRetries: nat)
    requires Borne(fates, maxRetries)
    ensures Expiries(fates + [fate]) == if fate.Expired? then Expiries(fates) + 1 else 0
    ensures !fate.Refused? && (fate.Expired? ==> Expiries(fates) < maxRetries) ==> Borne(fates + [fate], maxRetries)
    ensures (fates + [fate])[..|fates|] == fates
  {
    var fates' := fates + [fate];
    assert fates'[..|fates|] == fates;
    hide Expiries;
    if !fate.Refused? && (fate.Expired? ==> Expiries(fates) < maxRetries) {
      forall i | 0 <= i <= |fates'|
        ensures Expiries(fates'[..i]) <= maxRetries
      {
        if i <= |fates| {
          assert fates'[..i] == fates[..i];
        } else {
          assert fates'[..i] == fates';
        }
      }
    }
  }

  lemma StoredIsRecorded(fates: seq<Fate>, etags: map<nat, nat>, partNumber: nat, retryCount: nat, maxRetries: nat,
                         etag: nat)
    requires Fated(fates, etags, partNumber, retryCount, maxRetries)
    ensures Fated(fates + [Kept], etags[partNumber := etag], partNumber + 1, 0, maxRetries)
  {
    FatesExtend(fates, Kept, maxRetries);
  }

  lemma ExpiredIsSkipped(fates: seq<Fate>, etags: map<nat, nat>, partNumber: nat, retryCount: nat, maxRetries: nat)
    requires Fated(fates, etags, partNumber, retryCount, maxRetries) && retryCount < maxRetries
    ensures Fated(fates + [Expired], etags, partNumber + 1, retryCount + 1, maxRetries)
  {
    FatesExtend(fates, Expired, maxRetries);
  }

  lemma LastFateEnds(fates: seq<Fate>, etags: map<nat, nat>, partNumber: nat, retryCount: nat, maxRetries: nat,
                     fate: Fate, r: UploadResult)
    requires Fated(fates, etags, partNumber, retryCount, maxRetries)
    requires match fate
             case Kept => false
             case Expired => retryCount == maxRetries && r.UrlExpiredTooOften?
             case Refused(cause) =>
               if cause.Success? then r == HttpError(cause.response.status) else r == PartFailed(cause)
    ensures CalledFor(None, fates + [fate], maxRetries, r)
  {
    FatesExtend(fates, fate, maxRetries);
    assert fates[..|fates|] == fates;
  }

  /** The result is the one that the remote side calls for: a refused part ends the upload at once, as do one
      more expired URL in a row than is borne, and a failed request. Until then none of these has happened. */
  ghost predicate CalledFor(trouble: Option<Trouble>, fates: seq<Fate>, maxRetries: nat, r: UploadResult) {
    var ended := r.UrlExpiredTooOften? || r.HttpError? || r.PartFailed?;
    && (ended ==> fates != [])
    && Borne(if ended then fates[..|fates| - 1] else fates, maxRetries)
    && (trouble == None <==> !r.RequestFailed? && !r.NoUrls?)
    && match r
       case Done => Expiries(fates) == 0
       case PartNumberMismatch => true
       case RequestFailed => trouble == Some(RequestDropped)
       case NoUrls => trouble == Some(NoUrlsGiven)
       case UrlExpiredTooOften => fates[|fates| - 1].Expired? && Expiries(fates) == maxRetries + 1
       case HttpError(status) =>
         var last := fates[|fates| - 1];
         last.Refused? && last.cause.Success? && last.cause.response.status == status
       case PartFailed(cause) => fates[|fates| - 1] == Refused(cause) && !cause.Success?
  }

  lemma NoMoreThanBorne(fates: seq<Fate>, etags: map<nat, nat>, partNumber: nat, retryCount: nat, maxRetries: nat)
    requires Fated(fates, etags, partNumber, retryCount, maxRetries)
    ensures retryCount <= maxRetries
    ensures CalledFor(None, fates, maxRetries, PartNumberMismatch)
    ensures CalledFor(Some(RequestDropped), fates, maxRetries, RequestFailed)
    ensures CalledFor(Some(NoUrlsGiven), fates, maxRetries, NoUrls)
    ensures retryCount == 0 ==> CalledFor(None, fates, maxRetries, Done)
    ensures Recorded(fates, etags) && |fates| == partNumber - 1
  {
  }

  /** The client's view of the content: what is buffered and unread comes after the offset. */
  ghost predicate Pending(job: Job, buffer: Bytes, rest: Bytes, offset: nat) {
    offset <= |job.content| && buffer + rest == job.content[offset..]
  }

  lemma ChunkIsNext(job: Job, buffer: Bytes, rest: Bytes, offset: nat)
    requires job.Valid() && Pending(job, buffer, rest, offset) && buffer != []
    requires job.full && |buffer| < job.chunkSize ==> rest == []
    ensures var length := Min(|buffer|, job.chunkSize);
            NextChunk(job, offset, buffer[..length]) && Pending(job, buffer[length..], rest, offset + length)
  {
    var length := Min(|buffer|, job.chunkSize);
    assert |buffer| + |rest| == |job.content| - offset;
    assert buffer[..length] == (buffer + rest)[..length];
    assert buffer[length..] + rest == (buffer + rest)[length..];
    SliceOfSlice(job.content, offset, |job.content|, 0, length);
  }

  lemma UploadedAll(job: Job, parts: map<nat, StoredPart>, puts: seq<nat>, etags: map<nat, nat>, partNumber: nat)
    requires Uploading(job, parts, puts, etags, partNumber, |job.content|, 0)
    ensures var list := SortedItems(etags, partNumber - 1);
            Completes(job, parts, list) && HasAll(parts, list) && Concat(parts, list) == job.content
  {
    SortedItemsSorts(etags, partNumber - 1);
    assert job.content[..|job.content|] == job.content;
  }

  /** The listed parts come in increasing order, add up to the content, and are full chunks except for
      the last if the stream reads in full. */
  ghost predicate Completes(job: Job, parts: map<nat, StoredPart>, list: seq<Part>) {
    && HasAll(parts, list) && Concat(parts, list) == job.content
    && Ascending(list)
    && (forall i :: 0 <= i < |list| ==>
          && 1 <= |parts[list[i].number].data| <= job.chunkSize
          && (job.full && i < |list| - 1 ==> |parts[list[i].number].data| == job.chunkSize))
  }

  /** The list has just the parts that were stored. */
  ghost predicate Listed(fates: seq<Fate>, list: seq<Part>) {
    && (forall p <- list :: 1 <= p.number <= |fates| && fates[p.number - 1].Kept?)
    && (forall i :: 0 <= i < |fates| && fates[i].Kept? ==> exists p <- list :: p.number == i + 1)
  }

  lemma RecordedIsListed(fates: seq<Fate>, etags: map<nat, nat>)
    requires Recorded(fates, etags)
    ensures Listed(fates, SortedItems(etags, |fates|))
  {
    var list := SortedItems(etags, |fates|);
    SortedItemsSorts(etags, |fates|);
    forall i | 0 <= i < |fates| && fates[i].Kept?
      ensures exists p <- list :: p.number == i + 1
    {
      assert Part(i + 1, etags[i + 1]) in list;
    }
  }

  /** What a run promises: a completed upload assembles the content, whatever URLs expired meanwhile, and
      an upload fails only for an error or for too many expired URLs in a row. */
  ghost predicate Outcome(job: Job, session: Session, r: UploadResult)
    requires job.Valid()
    reads session
  {
    && Numbered(job, session.puts)
    && CalledFor(session.trouble, session.fates, job.maxRetries, r)
    && |session.fates| == |session.puts|
    && (r.Done? ==> Listed(session.fates, session.completed))
    && (session.orderly ==> r != PartNumberMismatch)
    && (r.Done? ==> session.assembled == Some(job.content) && Completes(job, session.parts, session.completed))
  }

  /** All that holds between two part requests. */
  ghost predicate Midway(job: Job, parts: map<nat, StoredPart>, puts: seq<nat>, fates: seq<Fate>,
                         etags: map<nat, nat>, partNumber: nat, offset: nat, retryCount: nat)
  {
    && Uploading(job, parts, puts, etags, partNumber, offset, retryCount)
    && Fated(fates, etags, partNumber, retryCount, job.maxRetries)
    && (offset == |job.content| ==> retryCount == 0)
  }

  /** The upload ends with an error. */
  ghost predicate Ends(job: Job, puts: seq<nat>, fates: seq<Fate>, trouble: Option<Trouble>, r: UploadResult)
    requires job.Valid()
  {
    Numbered(job, puts) && |fates| == |puts| && CalledFor(trouble, fates, job.maxRetries, r) && r != Done
  }

  /** Where an upload ends without another part request. */
  lemma MidwayEnds(job: Job, parts: map<nat, StoredPart>, puts: seq<nat>, fates: seq<Fate>,
                   etags: map<nat, nat>, partNumber: nat, offset: nat, retryCount: nat)
    requires Midway(job, parts, puts, fates, etags, partNumber, offset, retryCount)
    ensures job.Valid() && retryCount <= job.maxRetries
    ensures Ends(job, puts, fates, None, PartNumberMismatch)
    ensures Ends(job, puts, fates, Some(RequestDropped), RequestFailed)
    ensures Ends(job, puts, fates, Some(NoUrlsGiven), NoUrls)
  {
    UploadingIsNumbered(job, parts, puts, etags, partNumber, offset, retryCount, puts);
    NoMoreThanBorne(fates, etags, partNumber, retryCount, job.maxRetries);
    hide Numbered, CalledFor;
  }

  /** What each fate of a part leads to: a stored one is recorded and the bytes after it are next, an expired
      one is skipped and its bytes are next, and anything else ends the upload. */
  lemma PartEnds(job: Job, parts: map<nat, StoredPart>, puts: seq<nat>, fates: seq<Fate>,
                 etags: map<nat, nat>, partNumber: nat, offset: nat, retryCount: nat, chunk: Bytes, fate: Fate,
                 r: UploadResult)
    requires Midway(job, parts, puts, fates, etags, partNumber, offset, retryCount) && NextChunk(job, offset, chunk)
    requires match fate
             case Kept => false
             case Expired => retryCount == job.maxRetries && r.UrlExpiredTooOften?
             case Refused(cause) =>
               if cause.Success? then r == HttpError(cause.response.status) else r == PartFailed(cause)
    ensures job.Valid() && Ends(job, puts + [partNumber], fates + [fate], None, r)
  {
    UploadingIsNumbered(job, parts, puts, etags, partNumber, offset, retryCount, puts + [partNumber]);
    NoMoreThanBorne(fates, etags, partNumber, retryCount, job.maxRetries);
    LastFateEnds(fates, etags, partNumber, retryCount, job.maxRetries, fate, r);
    hide Numbered, Fated, CalledFor;
  }

  lemma PartIsKept(job: Job, parts: map<nat, StoredPart>, parts': map<nat, StoredPart>, puts: seq<nat>,
                   fates: seq<Fate>, etags: map<nat, nat>, partNumber: nat, offset: nat, retryCount: nat, chunk: Bytes,
                   etag: nat)
    requires Midway(job, parts, puts, fates, etags, partNumber, offset, retryCount) && NextChunk(job, offset, chunk)
    requires OnlyPart(partNumber, parts, parts')
    requires partNumber in parts' && parts'[partNumber] == StoredPart(chunk, etag)
    ensures Midway(job, parts', puts + [partNumber], fates + [Kept], etags[partNumber := etag], partNumber + 1,
                   offset + |chunk|, 0)
  {
    UploadingExtends(job, parts, parts', puts, etags, partNumber, offset, retryCount, chunk, etag);
    StoredIsRecorded(fates, etags, partNumber, retryCount, job.maxRetries, etag);
    hide Uploading, Fated;
  }

  lemma PartIsSkipped(job: Job, parts: map<nat, StoredPart>, parts': map<nat, StoredPart>, puts: seq<nat>,
                      fates: seq<Fate>, etags: map<nat, nat>, partNumber: nat, offset: nat, retryCount: nat,
                      chunk: Bytes)
    requires Midway(job, parts, puts, fates, etags, partNumber, offset, retryCount) && NextChunk(job, offset, chunk)
    requires OnlyPart(partNumber, parts, parts') && retryCount < job.maxRetries
    ensures Midway(job, parts', puts + [partNumber], fates + [Expired], etags, partNumber + 1, offset, retryCount + 1)
  {
    UploadingSkips(job, parts, parts', puts, etags, partNumber, offset, retryCount);
    ExpiredIsSkipped(fates, etags, partNumber, retryCount, job.maxRetries);
    hide Uploading, Fated;
  }

  /** One pass of the inner loop: sends the next chunk as part `partNumber`. */
  method UploadPart(session: Session, chunk: Bytes, etags: map<nat, nat>, partNumber: nat, retryCount: nat,
                    maxRetries: nat, clock: Clock, timeout: int, ghost job: Job, ghost offset: nat)
    returns (error: Option<UploadResult>, etags': map<nat, nat>, sent: bool, retryCount': nat)
    requires job.Valid() && session.trouble == None && maxRetries == job.maxRetries
    requires Midway(job, session.parts, session.puts, session.fates, etags, partNumber, offset, retryCount)
    requires NextChunk(job, offset, chunk)
    modifies session`parts, session`puts, session`fates, clock
    ensures error.Some? ==>
              && Ends(job, session.puts, session.fates, None, error.value)
              && !error.value.PartNumberMismatch?
    ensures error.None? && sent ==>
              && retryCount' == 0
              && Midway(job, session.parts, session.puts, session.fates, etags', partNumber + 1, offset + |chunk|, 0)
    ensures error.None? && !sent ==>
              && retryCount' == retryCount + 1
              && Midway(job, session.parts, session.puts, session.fates, etags', partNumber + 1, offset, retryCount')
  {
    hide Midway, Ends, NextChunk;
    MidwayEnds(job, session.parts, session.puts, session.fates, etags, partNumber, offset, retryCount);
    ghost var parts, puts, fates := session.parts, session.puts, session.fates;
    var result := session.PutPart(partNumber, chunk, clock, timeout);
    etags', sent, retryCount', error := etags, false, retryCount, None;
    if Succeeded(result) {
      PartIsKept(job, parts, session.parts, puts, fates, etags, partNumber, offset, retryCount, chunk,
                 result.response.etag);
      etags', sent, retryCount' := etags[partNumber := result.response.etag], true, 0;
    } else if UrlExpiredResponse(result) && retryCount < maxRetries {
      PartIsSkipped(job, parts, session.parts, puts, fates, etags, partNumber, offset, retryCount, chunk);
      retryCount' := retryCount + 1;
    } else {
      error := Some(if UrlExpiredResponse(result) then UrlExpiredTooOften else ErrorOf(result));
      PartEnds(job, parts, puts, fates, etags, partNumber, offset, retryCount, chunk, FateOf(result),
               error.value);
    }
  }

  /** Reads up to a chunk and uploads it under the next URL, if there is anything left. */
  method UploadNext(session: Session, stream: InputStream, buffer: Bytes, etags: map<nat, nat>, partNumber: nat,
                    urlPart: nat, retryCount: nat, chunkSize: nat, maxRetries: nat, clock: Clock, timeout: int,
                    ghost job: Job, ghost offset: nat)
    returns (error: Option<UploadResult>, eof: bool, buffer': Bytes, etags': map<nat, nat>, retryCount': nat,
             ghost offset': nat)
    requires stream.Valid() && job.full == stream.full && chunkSize == job.chunkSize && maxRetries == job.maxRetries
    requires job.Valid() && session.trouble == None
    requires Midway(job, session.parts, session.puts, session.fates, etags, partNumber, offset, retryCount)
    requires Pending(job, buffer, stream.Rest(), offset)
    modifies session`parts, session`puts, session`fates, stream, clock
    ensures stream.Valid() && offset <= offset'
    ensures error.Some? ==>
              && Ends(job, session.puts, session.fates, None, error.value)
              && (error.value.PartNumberMismatch? ==> partNumber != urlPart)
    ensures error.None? ==> Pending(job, buffer', stream.Rest(), offset')
    ensures error.None? && eof ==>
              && offset' == |job.content|
              && Midway(job, session.parts, session.puts, session.fates, etags', partNumber, offset', retryCount')
    ensures error.None? && !eof ==>
              && (offset' == offset ==> retryCount' == retryCount + 1)
              && Midway(job, session.parts, session.puts, session.fates, etags', partNumber + 1, offset', retryCount')
  {
    hide Midway, Ends, NextChunk;
    MidwayEnds(job, session.parts, session.puts, session.fates, etags, partNumber, offset, retryCount);
    buffer' := FillBuffer(buffer, chunkSize, stream);
    error, eof, etags', retryCount', offset' := None, |buffer'| == 0, etags, retryCount, offset;
    if !eof {
      ChunkIsNext(job, buffer', stream.Rest(), offset);
      if partNumber != urlPart {
        error := Some(PartNumberMismatch);
      } else {
        var length := Min(|buffer'|, chunkSize);
        var sent;
        error, etags', sent, retryCount' :=
          UploadPart(session, buffer'[..length], etags, partNumber, retryCount, maxRetries, clock, timeout, job,
                     offset);
        if error.None? && sent {
          buffer' := buffer'[length..];
          offset' := offset + length;
        }
      }
    }
  }

  /** The inner loop: one pass for each URL of a batch, until the stream is at its end. */
  method UploadBatch(session: Session, stream: InputStream, urls: seq<nat>, buffer: Bytes, etags: map<nat, nat>,
                     partNumber: nat, retryCount: nat, chunkSize: nat, maxRetries: nat, clock: Clock, timeout: int,
                     ghost job: Job, ghost offset: nat)
    returns (error: Option<UploadResult>, eof: bool, buffer': Bytes, etags': map<nat, nat>, partNumber': nat,
             retryCount': nat, ghost offset': nat)
    requires stream.Valid() && job.full == stream.full && chunkSize == job.chunkSize && maxRetries == job.maxRetries
    requires job.Valid() && session.trouble == None && urls != []
    requires Midway(job, session.parts, session.puts, session.fates, etags, partNumber, offset, retryCount)
    requires Pending(job, buffer, stream.Rest(), offset)
    modifies session`parts, session`puts, session`fates, stream, clock
    ensures stream.Valid()
    ensures error.Some? ==>
              && Ends(job, session.puts, session.fates, None, error.value)
              && (error.value.PartNumberMismatch? ==> exists i :: 0 <= i < |urls| && urls[i] != partNumber + i)
    ensures error.None? ==>
              && Pending(job, buffer', stream.Rest(), offset')
              && Midway(job, session.parts, session.puts, session.fates, etags', partNumber', offset', retryCount')
              && offset' >= offset
              && (if eof then offset' == |job.content| else offset' > offset || retryCount' > retryCount)
  {
    hide Midway, Ends, Pending;
    error, eof, buffer', etags' := None, false, buffer, etags;
    partNumber', retryCount', offset' := partNumber, retryCount, offset;
    var i := 0;
    while i < |urls|
      invariant 0 <= i <= |urls| && error.None? && !eof
      invariant stream.Valid() && Pending(job, buffer', stream.Rest(), offset')
      invariant Midway(job, session.parts, session.puts, session.fates, etags', partNumber', offset', retryCount')
      invariant partNumber' == partNumber + i
      invariant offset' > offset || (offset' == offset && retryCount' == retryCount + i)
    {
      error, eof, buffer', etags', retryCount', offset' :=
        UploadNext(session, stream, buffer', etags', partNumber', urls[i], retryCount', chunkSize, maxRetries,
                   clock, timeout, job, offset');
      if error.Some? || eof {
        return;
      }
      partNumber' := partNumber' + 1;
      i := i + 1;
    }
  }

  /** The list is what completes the upload, and nothing has gone wrong until then. */
  ghost predicate Ready(job: Job, parts: map<nat, StoredPart>, puts: seq<nat>, fates: seq<Fate>, list: seq<Part>)
    requires job.Valid()
  {
    && Numbered(job, puts) && |fates| == |puts|
    && Completes(job, parts, list) && Listed(fates, list)
    && CalledFor(None, fates, job.maxRetries, Done)
    && Ends(job, puts, fates, Some(RequestDropped), RequestFailed)
  }

  lemma ReadyToComplete(job: Job, parts: map<nat, StoredPart>, puts: seq<nat>, fates: seq<Fate>,
                        etags: map<nat, nat>, partNumber: nat, retryCount: nat)
    requires Midway(job, parts, puts, fates, etags, partNumber, |job.content|, retryCount)
    ensures partNumber >= 1 && job.Valid() && Ready(job, parts, puts, fates, SortedItems(etags, partNumber - 1))
  {
    UploadedAll(job, parts, puts, etags, partNumber);
    NoMoreThanBorne(fates, etags, partNumber, retryCount, job.maxRetries);
    RecordedIsListed(fates, etags);
    MidwayEnds(job, parts, puts, fates, etags, partNumber, |job.content|, retryCount);
    hide Uploading, Completes, SortedItems, Fated, CalledFor, Recorded, Listed, HasAll, Concat;
  }

  lemma ReadyAddsUp(job: Job, parts: map<nat, StoredPart>, puts: seq<nat>, fates: seq<Fate>, list: seq<Part>)
    requires job.Valid() && Ready(job, parts, puts, fates, list)
    ensures HasAll(parts, list) && Concat(parts, list) == job.content
  {
  }

  lemma ReadyIsOutcome(job: Job, session: Session, list: seq<Part>)
    requires job.Valid() && Ready(job, session.parts, session.puts, session.fates, list) && session.trouble == None
    requires session.assembled == Some(job.content) && session.completed == list
    ensures Outcome(job, session, Done)
  {
    hide Numbered, CalledFor, Listed, Completes;
  }

  lemma EndsIsOutcome(job: Job, session: Session, r: UploadResult)
    requires job.Valid() && Ends(job, session.puts, session.fates, session.trouble, r)
    requires session.orderly ==> !r.PartNumberMismatch?
    ensures Outcome(job, session, r)
  {
    hide Numbered, CalledFor, Listed, Completes;
  }

  /** The request that completes the upload. */
  method CompleteUpload(session: Session, etags: map<nat, nat>, partNumber: nat, ghost job: Job, ghost retryCount: nat)
    returns (r: UploadResult)
    requires Midway(job, session.parts, session.puts, session.fates, etags, partNumber, |job.content|, retryCount)
    requires session.trouble == None
    modifies session`assembled, session`completed, session`trouble
    ensures job.Valid() && Outcome(job, session, r)
  {
    hide Midway, Ready, Ends, Outcome, SortedItems;
    ReadyToComplete(job, session.parts, session.puts, session.fates, etags, partNumber, retryCount);
    MidwayEnds(job, session.parts, session.puts, session.fates, etags, partNumber, |job.content|, retryCount);
    var list := SortedItems(etags, partNumber - 1);
    ReadyAddsUp(job, session.parts, session.puts, session.fates, list);
    var ok := session.Complete(list);
    if ok {
      r := Done;
      ReadyIsOutcome(job, session, list);
    } else {
      r := RequestFailed;
      EndsIsOutcome(job, session, r);
    }
  }

  lemma UploadStarts(job: Job)
    requires job.Valid()
    ensures Midway(job, map[], [], [], map[], 1, 0, 0)
  {
    assert job.content[..0] == [];
  }

  /** The outer loop of the upload. */
  method PerformMultipartUpload(session: Session, stream: InputStream, preRead: Bytes, chunkSize: nat,
                                maxRetries: nat, clock: Clock, timeout: int)
    returns (r: UploadResult)
    requires stream.Valid() && chunkSize >= 1
    requires session.parts == map[] && session.puts == [] && session.assembled == None
    requires session.trouble == None && session.fates == []
    modifies session, stream, clock
    ensures stream.Valid() && session.aborts == old(session.aborts)
    ensures Outcome(Job(preRead + old(stream.Rest()), chunkSize, maxRetries, stream.full), session, r)
  {
    hide Midway, Ends, Outcome;
    ghost var job := Job(preRead + stream.Rest(), chunkSize, maxRetries, stream.full);
    var partNumber: nat := 1;
    var etags: map<nat, nat> := map[];
    var buffer := preRead;
    var retryCount: nat := 0;
    ghost var offset: nat := 0;
    var eof := false;
    UploadStarts(job);
    while !eof
      invariant stream.Valid() && session.aborts == old(session.aborts) && session.trouble == None
      invariant Pending(job, buffer, stream.Rest(), offset)
      invariant Midway(job, session.parts, session.puts, session.fates, etags, partNumber, offset, retryCount)
      invariant eof ==> offset == |job.content|
      decreases !eof, |job.content| - offset, maxRetries - retryCount
    {
      buffer := FillBuffer(buffer, chunkSize, stream);
      if |buffer| == 0 {
        break;
      }
      MidwayEnds(job, session.parts, session.puts, session.fates, etags, partNumber, offset, retryCount);
      var urls := session.RequestUrls(partNumber);
      if urls.None? || |urls.value| == 0 {
        r := if urls.None? then RequestFailed else NoUrls;
        EndsIsOutcome(job, session, r);
        return;
      }
      var error;
      error, eof, buffer, etags, partNumber, retryCount, offset :=
        UploadBatch(session, stream, urls.value, buffer, etags, partNumber, retryCount, chunkSize, maxRetries,
                    clock, timeout, job, offset);
      if error.Some? {
        EndsIsOutcome(job, session, error.value);
        return error.value;
      }
      MidwayEnds(job, session.parts, session.puts, session.fates, etags, partNumber, offset, retryCount);
    }
    r := CompleteUpload(session, etags, partNumber, job, retryCount);
  }
}
