/** The resilient download: _ResilientIterator of databricks/sdk/mixins/files.py, which re-opens a failed
    download at its offset, under _StreamingResponse.read of databricks/sdk/_base_client.py, which cuts
    the chunks to the sizes asked for. */
module Download {
  import opened Common

  datatype Phase = Live | Ended | Failed

  /** A download of one version of the file. Once it has ended or failed it only ends. */
  datatype Connection = Connection(snapshot: Bytes, pos: nat, phase: Phase) {
    ghost predicate Valid() {
      && pos <= |snapshot|
      && (phase.Ended? ==> pos == |snapshot|)
    }
  }

  datatype Item = Chunk(bytes: Bytes) | Stop | RequestException | OtherException

  /** The file on the server. It may be replaced at any time; each version has its own modification
      stamp. `finite` says that only `faults` more connections are going to fail, and `dependable` that they do
      so by dropping, while the file stays as it is and can be opened at any time. For the record, `last`
      is what the last chunk request came to, `opens` counts the downloads asked for, and `refused` says
      that the last of those was not opened. */
  class RemoteFile {
    const versions: nat -> Bytes
    const finite: bool
    const dependable: bool
    var modified: nat
    var faults: nat
    ghost var last: Item
    ghost var opens: nat
    ghost var refused: bool

    constructor (versions: nat -> Bytes, finite: bool, dependable: bool, modified: nat, faults: nat)
      ensures this.versions == versions && this.finite == finite && this.dependable == dependable
      ensures this.modified == modified && this.faults == faults
    {
      this.versions, this.finite, this.dependable := versions, finite, dependable;
      this.modified, this.faults := modified, faults;
    }

    /** Opens a download at an offset, unless the file has changed since the given stamp. May fail. */
    method Open(offset: nat, ifUnmodifiedSince: Option<nat>) returns (c: Option<Connection>)
      modifies this`modified, this`opens, this`refused
      ensures modified >= old(modified) && opens == old(opens) + 1 && refused == c.None?
      ensures c.Some? ==> c.value == Connection(versions(modified), offset, Live) && c.value.Valid()
      ensures c.Some? && ifUnmodifiedSince.Some? ==> modified <= ifUnmodifiedSince.value
      ensures dependable ==>
                && modified == old(modified)
                && (c.Some? <==> offset <= |versions(modified)|
                                 && (ifUnmodifiedSince.Some? ==> modified <= ifUnmodifiedSince.value))
    {
      if !dependable {
        var later :| later >= modified;
        modified := later;
      }
      opens, refused := opens + 1, true;
      var failed: bool := *;
      if (failed && !dependable) || offset > |versions(modified)|
         || (ifUnmodifiedSince.Some? && modified > ifUnmodifiedSince.value) {
        return None;
      }
      refused := false;
      c := Some(Connection(versions(modified), offset, Live));
    }

    /** Takes the next chunk of any size from an open download. */
    method Next(c: Connection) returns (item: Item, c': Connection)
      requires c.Valid()
      modifies this`faults, this`last
      ensures last == item
      ensures c'.Valid() && c'.snapshot == c.snapshot
      ensures !c.phase.Live? ==> item == Stop && c' == c
      ensures item.Chunk? ==> c.pos < c'.pos && item.bytes == c.snapshot[c.pos..c'.pos] && c'.phase.Live?
      ensures item.Stop? && c.phase.Live? ==> c' == c.(phase := Ended)
      ensures item.RequestException? || item.OtherException? ==> c'.phase.Failed?
      ensures dependable ==> !item.OtherException?
      ensures if finite && item.RequestException? then old(faults) > 0 && faults == old(faults) - 1
              else faults == old(faults)
    {
      var fails: bool := *;
      if !c.phase.Live? {
        item, c' := Stop, c;
      } else if fails && (!finite || faults > 0) {
        var network: bool := *;
        network := network || dependable;
        item, c' := if network then RequestException else OtherException, c.(phase := Failed);
        faults := if finite && network then faults - 1 else faults;
      } else if c.pos == |c.snapshot| {
        item, c' := Stop, c.(phase := Ended);
      } else {
        var next :| c.pos < next <= |c.snapshot|;
        item, c' := Chunk(c.snapshot[c.pos..next]), c.(pos := next);
      }
      last := item;
    }
  }

  datatype Limits = Limits(total: Option<nat>, withoutProgressing: Option<nat>)

  /** The recoveries are within their limits, and each chunk that was returned made room for at most as
      many more as may happen without progress. */
  ghost predicate Accounted(limits: Limits, total: nat, chunks: nat, current: nat) {
    && (limits.total.Some? ==> total <= limits.total.value)
    && (limits.withoutProgressing.Some? ==>
          current <= limits.withoutProgressing.value
          && total <= chunks * limits.withoutProgressing.value + current)
  }

  lemma Progress(limits: Limits, total: nat, chunks: nat, current: nat)
    requires Accounted(limits, total, chunks, current)
    ensures Accounted(limits, total, chunks + 1, 0)
  {
    if limits.withoutProgressing.Some? {
      var limit := limits.withoutProgressing.value;
      assert (chunks + 1) * limit == chunks * limit + limit;
    }
  }

  lemma Start(limits: Limits)
    ensures Accounted(limits, 0, 0, 0)
  {
  }

  lemma Recovery(limits: Limits, total: nat, chunks: nat, current: nat)
    requires Accounted(limits, total, chunks, current) && limits.total != Some(total)
    requires limits.withoutProgressing.Some? ==> current < limits.withoutProgressing.value
    ensures Accounted(limits, total + 1, chunks, current + 1)
  {
  }

  lemma KeptLimits(limits: Limits, total: nat, chunks: nat, current: nat)
    requires Accounted(limits, total, chunks, current)
    ensures limits.total.Some? ==> total <= limits.total.value
    ensures limits.withoutProgressing.Some? ==> current <= limits.withoutProgressing.value
  {
  }

  /** Tracks the offset that the caller has reached and goes on from there after a failure. */
  class ResilientIterator {
    const file: RemoteFile
    const lastModified: Option<nat>
    const limits: Limits
    var connection: Connection
    var offset: nat
    var totalRecovers: nat
    var recoversWithoutProgressing: nat
    var closed: bool
    ghost var chunksReturned: nat

    /** The download is at the caller's offset, in the version of the file that the stamp names, and the
        recoveries are within their limits. */
    ghost predicate Valid()
      reads this, file
    {
      && connection.Valid()
      && offset <= |connection.snapshot|
      && (!connection.phase.Failed? ==> connection.pos == offset)
      && (lastModified.Some? ==>
            file.modified >= lastModified.value && connection.snapshot == file.versions(lastModified.value))
      && Accounted(limits, totalRecovers, chunksReturned, recoversWithoutProgressing)
    }

    /** The bytes of the version being read. */
    ghost function Source(): Bytes
      reads this
    {
      connection.snapshot
    }

    /** The version that is read cannot change any more: part of it has been returned, or the download is over. */
    ghost predicate Settled()
      reads this
    {
      offset > 0 || !connection.phase.Live?
    }

    /** Some limit is set, or failures are known to stop. */
    ghost predicate Bounded()
      reads this
    {
      limits.total.Some? || limits.withoutProgressing.Some? || file.finite
    }

    constructor (file: RemoteFile, connection: Connection, lastModified: Option<nat>, limits: Limits)
      requires connection.Valid() && connection.phase.Live? && connection.pos == 0
      requires lastModified.Some? ==>
                 file.modified >= lastModified.value && connection.snapshot == file.versions(lastModified.value)
      ensures Valid() && this.file == file && Source() == connection.snapshot && offset == 0
      ensures this.limits == limits && this.lastModified == lastModified && !closed && this.connection.phase.Live?
    {
      hide Accounted;
      Start(limits);
      this.file, this.connection, this.lastModified, this.limits := file, connection, lastModified, limits;
      offset, totalRecovers, recoversWithoutProgressing, closed, chunksReturned := 0, 0, 0, false, 0;
    }

    predicate ShouldRecover()
      reads this
    {
      && limits.total != Some(totalRecovers)
      && (limits.withoutProgressing.Some? ==> recoversWithoutProgressing < limits.withoutProgressing.value)
    }

    /** Without a stamp a download can be re-opened at the beginning only. */
    predicate CanReopen()
      reads this`offset
    {
      offset == 0 || lastModified.Some?
    }

    /** The limits allow one more recovery. */
    ghost predicate WithinLimits()
      reads this
    {
      && (limits.total.Some? ==> limits.total.value != totalRecovers)
      && (limits.withoutProgressing.Some? ==> limits.withoutProgressing.value != recoversWithoutProgressing)
    }

    /** Nothing could be done about the last failure: a limit is used up, there is no stamp to go on with, or the
        download was not opened again. */
    ghost predicate GaveUp()
      reads this, file
    {
      || limits.total == Some(totalRecovers)
      || limits.withoutProgressing == Some(recoversWithoutProgressing)
      || (offset > 0 && lastModified.None?)
      || file.refused
    }

    /** All that can still go wrong is that connections drop, and not more often than the limits allow. */
    ghost predicate Affordable()
      reads this, file
    {
      && file.dependable && file.finite && lastModified.Some? && file.modified == lastModified.value
      && (limits.total.Some? ==> totalRecovers + file.faults <= limits.total.value)
      && (limits.withoutProgressing.Some? ==>
            recoversWithoutProgressing + file.faults <= limits.withoutProgressing.value)
    }

    /** Re-opens the download at the offset. */
    method Recover() returns (recovered: bool)
      requires Valid() && connection.phase.Failed?
      modifies this, file`modified, file`opens, file`refused
      ensures Valid() && offset == old(offset) && closed == old(closed) && chunksReturned == old(chunksReturned)
      ensures recovered <==> old(WithinLimits()) && (offset == 0 || lastModified.Some?) && !file.refused
      ensures recovered ==> connection.phase.Live?
      ensures file.opens
              == old(file.opens) + if old(WithinLimits()) && (offset == 0 || lastModified.Some?) then 1 else 0
      ensures file.dependable ==> file.modified == old(file.modified)
      ensures file.dependable && lastModified == Some(file.modified) ==> recovered == old(WithinLimits())
      ensures !recovered ==> connection == old(connection)
      ensures old(WithinLimits()) ==> totalRecovers == old(totalRecovers) + 1
                                       && recoversWithoutProgressing == old(recoversWithoutProgressing) + 1
      ensures !old(WithinLimits()) ==> totalRecovers == old(totalRecovers)
                                        && recoversWithoutProgressing == old(recoversWithoutProgressing)
      ensures offset > 0 ==> Source() == old(Source())
    {
      LimitsAgree(this);
      hide Accounted;
      if !ShouldRecover() {
        return false;
      }
      Recovery(limits, totalRecovers, chunksReturned, recoversWithoutProgressing);
      totalRecovers := totalRecovers + 1;
      recoversWithoutProgressing := recoversWithoutProgressing + 1;
      if !CanReopen() {
        return false;
      }
      var reopened := file.Open(offset, lastModified);
      if reopened.None? {
        return false;
      }
      connection := reopened.value;
      return true;
    }

    /** Moves past a chunk, which is progress. */
    method Deliver(bytes: Bytes)
      requires Accounted(limits, totalRecovers, chunksReturned, recoversWithoutProgressing)
      modifies this`offset, this`recoversWithoutProgressing, this`chunksReturned
      ensures offset == old(offset) + |bytes|
      ensures recoversWithoutProgressing == 0 && chunksReturned == old(chunksReturned) + 1
      ensures Accounted(limits, totalRecovers, chunksReturned, recoversWithoutProgressing)
    {
      hide Accounted;
      Progress(limits, totalRecovers, chunksReturned, recoversWithoutProgressing);
      offset := offset + |bytes|;
      recoversWithoutProgressing := 0;
      chunksReturned := chunksReturned + 1;
    }

    /** The next chunk, recovering from failed connections as long as the limits allow. */
    method Next() returns (item: Item)
      requires Valid() && Bounded() && !closed
      modifies this, file
      ensures Valid() && !closed && offset <= |Source()|
      ensures old(Settled()) ==> Source() == old(Source())
      ensures item.Chunk? ==>
                old(offset) < offset && item.bytes == Source()[old(offset)..offset] && connection.phase.Live?
      ensures !item.Chunk? ==> offset == old(offset)
      ensures item.Stop? ==> if old(connection.phase.Live?) then connection.phase.Ended?
                             else connection == old(connection)
      ensures item.RequestException? || item.OtherException? ==> connection.phase.Failed?
      // What it returns or raises came from a connection, and is not raised while it can be recovered from.
      ensures item == file.last && (item.RequestException? ==> GaveUp())
      ensures old(CanReopen()) ==> file.opens - old(file.opens) == totalRecovers - old(totalRecovers)
      // As long as what goes wrong can be afforded nothing is raised.
      ensures old(Affordable()) ==> Affordable() && (item.Chunk? || item.Stop?)
      ensures !old(connection.phase.Live?) ==> item == Stop
      ensures chunksReturned == old(chunksReturned) + if item.Chunk? then 1 else 0
      ensures limits.withoutProgressing.Some? ==>
                totalRecovers - old(totalRecovers) <= limits.withoutProgressing.value - old(recoversWithoutProgressing)
    {
      hide Accounted;
      KeptLimits(limits, totalRecovers, chunksReturned, recoversWithoutProgressing);
      while true
        invariant Valid() && !closed && offset == old(offset) && chunksReturned == old(chunksReturned)
        invariant connection.phase == old(connection.phase)
        invariant !connection.phase.Live? ==> connection == old(connection)
        invariant old(offset) > 0 ==> Source() == old(Source())
        invariant CanReopen() ==> file.opens - old(file.opens) == totalRecovers - old(totalRecovers)
        invariant old(Affordable()) ==> Affordable()
        invariant totalRecovers - old(totalRecovers)
                  == recoversWithoutProgressing - old(recoversWithoutProgressing) >= 0
        invariant limits.withoutProgressing.Some? ==> recoversWithoutProgressing <= limits.withoutProgressing.value
        invariant limits.total.Some? ==> totalRecovers <= limits.total.value
        decreases if limits.withoutProgressing.Some? then limits.withoutProgressing.value - recoversWithoutProgressing
                  else if limits.total.Some? then limits.total.value - totalRecovers
                  else file.faults
      {
        item, connection := file.Next(connection);
        match item {
          case Chunk(bytes) =>
            Deliver(bytes);
            return;
          case Stop =>
            return;
          case OtherException =>
            return;
          case RequestException =>
            var recovered := Recover();
            KeptLimits(limits, totalRecovers, chunksReturned, recoversWithoutProgressing);
            if !recovered {
              return;
            }
        }
      }
    }

    method Close()
      modifies this`closed
      ensures closed
    {
      closed := true;
    }
  }

  /** The buffer holds the bytes of the file just before the offset. */
  ghost predicate Buffered(file: Bytes, offset: nat, buffer: Bytes) {
    |buffer| <= offset <= |file| && buffer == file[offset - |buffer|..offset]
  }

  datatype ReadResult = Data(bytes: Bytes) | ClosedFile | NetworkFailure | OtherFailure

  /** The stream handed to the caller. */
  class StreamingResponse {
    const content: ResilientIterator
    var buffer: Bytes
    var closed: bool

    ghost predicate Valid()
      reads this, content, content.file
    {
      && content.Valid()
      && (content.closed ==> closed)
      && Buffered(content.Source(), content.offset, buffer)
    }

    /** How far the caller has read. */
    ghost function Position(): int
      reads this, content
    {
      content.offset - |buffer|
    }

    constructor (content: ResilientIterator)
      requires content.Valid() && content.offset == 0 && !content.closed
      ensures Valid() && this.content == content && Position() == 0 && !closed
    {
      hide Accounted, ResilientIterator.Valid;
      assert content.offset <= |content.Source()| by {
        OffsetInRange(content);
      }
      this.content, buffer, closed := content, [], false;
    }

    method Close()
      requires Valid()
      modifies this`closed, content`closed
      ensures Valid() && closed && Position() == old(Position())
    {
      content.Close();
      closed := true;
    }

    /** Takes the next chunk into the empty buffer. */
    method Refill() returns (item: Item)
      requires Valid() && !closed && buffer == [] && content.Bounded()
      modifies this`buffer, content, content.file
      ensures Valid() && !closed && Position() == old(Position())
      ensures item.Chunk? <==> buffer != []
      ensures old(content.Settled()) ==> content.Source() == old(content.Source())
      ensures content.offset >= old(content.offset) && (item.Chunk? ==> content.offset > 0)
      ensures content.offset <= |content.Source()|
      ensures item.RequestException? || item.OtherException? ==>
                content.connection.phase.Failed? && item == content.file.last
      ensures item.RequestException? ==> content.GaveUp()
      ensures item.Chunk? ==> content.connection.phase.Live?
      ensures item.Stop? ==> if old(content.connection.phase.Live?) then content.connection.phase.Ended?
                             else content.connection == old(content.connection)
      ensures !old(content.connection.phase.Live?) ==> item == Stop
      ensures content.connection.phase.Ended? ==> Position() == |content.Source()|
      ensures content.chunksReturned == old(content.chunksReturned) + if item.Chunk? then 1 else 0
      ensures old(content.Affordable()) ==> content.Affordable() && (item.Chunk? || item.Stop?)
    {
      hide ResilientIterator.Valid, ResilientIterator.GaveUp, ResilientIterator.Affordable;
      item := content.Next();
      AtEndOnceEnded(content);
      if item.Chunk? {
        buffer := item.bytes;
      }
    }

    /** One pass of the loop of a read: gets a chunk if the buffer is empty, and takes from the buffer what
        the read still wants. */
    method NextPiece(remainingBytes: int, readEverything: bool, ghost start: int, ghost res: Bytes)
      returns (item: Item, piece: Bytes)
      requires Valid() && !closed && content.Bounded() && (readEverything || remainingBytes > 0)
      requires Reading(content.Source(), start, Position(), res)
      modifies this`buffer, content, content.file
      ensures Valid() && !closed && content.offset >= old(content.offset)
      ensures old(content.Settled()) ==> content.Source() == old(content.Source())
      ensures Position() == old(Position()) + |piece|
      ensures Reading(content.Source(), start, Position(), res + piece) && Position() <= |content.Source()|
      ensures item.Chunk? ==> piece != [] && content.offset > 0 && (!readEverything ==> |piece| <= remainingBytes)
      ensures !item.Chunk? ==> piece == [] && buffer == old(buffer) == []
      ensures item.RequestException? || item.OtherException? ==>
                content.connection.phase.Failed? && item == content.file.last
      ensures item.RequestException? ==> content.GaveUp()
      ensures item.Chunk? ==> content.connection.phase == old(content.connection.phase)
      ensures item.Stop? ==> if old(content.connection.phase.Live?) then content.connection.phase.Ended?
                             else content.connection == old(content.connection)
      ensures item.Stop? && content.connection.phase.Ended? ==> Position() == |content.Source()|
      ensures !old(content.connection.phase.Live?) ==> item.Chunk? || item.Stop?
      ensures old(buffer) != [] || !old(content.connection.phase.Live?) ==> piece + buffer == old(buffer)
      ensures content.chunksReturned
              == old(content.chunksReturned) + if item.Chunk? && old(buffer) == [] then 1 else 0
      ensures old(content.Affordable()) ==> content.Affordable() && (item.Chunk? || item.Stop?)
    {
      hide ResilientIterator.Valid, ResilientIterator.GaveUp, ResilientIterator.Affordable, Buffered, Reading;
      ghost var source, before := content.Source(), buffer;
      item, piece := Chunk(buffer), [];
      assert res + piece == res;
      if |buffer| == 0 {
        item := Refill();
        ReadingRestarts(source, content.Source(), start, Position(), res);
        if !item.Chunk? {
          return;
        }
      }
      var toRead := if readEverything then |buffer| else Min(remainingBytes, |buffer|);
      ReadingTakes(content.Source(), start, content.offset, buffer, res, toRead);
      piece := buffer[..toRead];
      buffer := buffer[toRead..];
    }

    /** Reads up to n bytes, or everything that is left if n is negative. */
    method Read(n: int) returns (r: ReadResult)
      requires Valid() && content.Bounded()
      modifies this`buffer, content, content.file
      ensures Valid() && closed == old(closed)
      ensures r.ClosedFile? <==> old(closed)
      // The bytes read so far and the bytes to come belong to one version of the file, which a read that
      // returns has settled unless it asked for nothing.
      ensures old(content.Settled()) ==> content.Source() == old(content.Source())
      ensures (n != 0 && !closed) || old(content.Settled()) ==> content.Settled()
      // A read that returns gives the next bytes of that version and moves past them.
      ensures r.Data? && !old(content.connection.phase.Failed?) ==>
                && !content.connection.phase.Failed?
                && r.bytes == ReadAt(content.Source(), old(Position()), n)
                && Position() == old(Position()) + |r.bytes|
      // A read that raises moves past all that it had taken, which is lost: the whole buffer, and every chunk
      // that came during the read. It loses nothing exactly if there was neither.
      ensures Raised(r) ==>
                && content.connection.phase.Failed? && buffer == []
                && old(|buffer|) <= Position() - old(Position())
                && (n > 0 ==> Position() - old(Position()) < n)
                && (Position() == old(Position()) <==>
                      old(buffer) == [] && content.chunksReturned == old(content.chunksReturned))
      // It raises only what a connection raised, and a network failure only if nothing can be done about it.
      ensures r.NetworkFailure? ==> content.file.last == RequestException && content.GaveUp()
      ensures r.OtherFailure? ==> content.file.last == OtherException
      ensures old(content.Affordable()) ==> content.Affordable() && !Raised(r)
      ensures old(content.connection.phase.Failed?) && !closed ==>
                && content.connection.phase.Failed?
                && r == Data(if n < 0 then old(buffer) else old(buffer)[..Min(n, |old(buffer)|)])
                && r.bytes + buffer == old(buffer) && Position() == old(Position()) + |r.bytes|
    {
      hide ResilientIterator.Valid, ResilientIterator.GaveUp, ResilientIterator.Affordable, Buffered, Reading, ReadAt;
      if closed {
        return ClosedFile;
      }
      ghost var start, phase := Position(), content.connection.phase;
      var readEverything := n < 0;
      var remainingBytes := n;
      var res: Bytes := [];
      ReadingStarts(content.Source(), content.offset, buffer);
      while remainingBytes > 0 || readEverything
        invariant Valid() && !closed
        invariant phase == content.connection.phase && (!phase.Live? ==> res + buffer == old(buffer))
        invariant n >= 0 ==> remainingBytes == n - |res| >= 0
        invariant old(content.Affordable()) ==> content.Affordable()
        invariant old(content.Settled()) ==> content.Source() == old(content.Source())
        invariant Reading(content.Source(), start, Position(), res) && Position() <= |content.Source()|
        invariant content.offset >= old(content.offset) && (res != [] ==> content.offset > 0)
        invariant Position() == start + |res| && content.chunksReturned >= old(content.chunksReturned)
        invariant content.chunksReturned == old(content.chunksReturned) ==> res + buffer == old(buffer)
        invariant res == [] ==> buffer == old(buffer) && content.chunksReturned == old(content.chunksReturned)
        decreases content.offset == 0, |content.Source()| - Position()
      {
        var item, piece := NextPiece(remainingBytes, readEverything, start, res);
        match item {
          case Chunk(_) =>
          case Stop =>
            assert res + piece == res;
            break;
          case RequestException => return NetworkFailure;
          case OtherException => return OtherFailure;
        }
        res := res + piece;
        remainingBytes := remainingBytes - |piece|;
      }
      ReadingEnds(content.Source(), start, Position(), res, n);
      return Data(res);
    }
  }

  /** The result so far is what lies between the start of the read and the caller's position. */
  ghost predicate Reading(file: Bytes, start: int, position: int, res: Bytes) {
    0 <= start <= position <= |file| && res == file[start..position]
  }

  lemma ReadingStarts(file: Bytes, offset: nat, buffer: Bytes)
    requires Buffered(file, offset, buffer)
    ensures Reading(file, offset - |buffer|, offset - |buffer|, []) && 0 <= offset - |buffer| <= |file|
  {
  }

  /** A new version can only come in before the first byte. */
  lemma ReadingRestarts(file: Bytes, file': Bytes, start: int, position: int, res: Bytes)
    requires Reading(file, start, position, res)
    requires position > 0 ==> file' == file
    ensures Reading(file', start, position, res) && position <= |file'|
  {
  }

  lemma ReadingTakes(file: Bytes, start: int, offset: nat, buffer: Bytes, res: Bytes, n: nat)
    requires Buffered(file, offset, buffer) && n <= |buffer|
    requires Reading(file, start, offset - |buffer|, res)
    ensures Buffered(file, offset, buffer[n..])
    ensures Reading(file, start, offset - |buffer| + n, res + buffer[..n])
    ensures offset - |buffer| + n <= |file|
  {
  }

  lemma ReadingEnds(file: Bytes, start: int, position: int, res: Bytes, n: int)
    requires Reading(file, start, position, res)
    ensures 0 <= start <= |file| && position == start + |res|
    ensures |res| == n || (position == |file| && (n < 0 || |res| <= n)) ==> res == ReadAt(file, start, n)
  {
  }

  /** The two tests of the limits differ, but not in a state that can be reached. */
  lemma LimitsAgree(content: ResilientIterator)
    requires content.Valid()
    ensures content.ShouldRecover() <==> content.WithinLimits()
  {
  }

  lemma AtEndOnceEnded(content: ResilientIterator)
    requires content.Valid()
    ensures content.connection.phase.Ended? ==> content.offset == |content.Source()|
  {
  }

  lemma PositionInRange(stream: StreamingResponse)
    requires stream.Valid()
    ensures 0 <= stream.Position() <= stream.content.offset <= |stream.content.Source()|
  {
  }

  lemma OffsetInRange(content: ResilientIterator)
    requires content.Valid()
    ensures content.offset <= |content.Source()|
  {
  }

  /** What a plain sequential read of n bytes at a position of a file gives. */
  function ReadAt(file: Bytes, position: int, n: int): (bytes: Bytes)
    requires 0 <= position <= |file|
  {
    if n < 0 then file[position..] else file[position..position + Min(n, |file| - position)]
  }

  /** The results of successive reads of the given sizes. */
  function Reads(file: Bytes, position: nat, sizes: seq<int>): (results: seq<Bytes>)
    requires position <= |file|
    ensures |results| == |sizes|
    decreases |sizes|
  {
    if sizes == [] then []
    else
      var bytes := ReadAt(file, position, sizes[0]);
      [bytes] + Reads(file, position + |bytes|, sizes[1..])
  }

  // ---------- Sequences of reads ----------

  predicate Raised(r: ReadResult) {
    r.NetworkFailure? || r.OtherFailure?
  }

  /** The results of a caller's reads: the first `good` of them are the slices of one version of the file
      that plain reads at the starting position give, the next one raises, and all after it are empty. */
  ghost predicate ReadInSequence(file: Bytes, position: int, sizes: seq<int>, results: seq<ReadResult>, good: nat) {
    && 0 <= position <= |file| && |results| == |sizes| && good <= |sizes|
    && (forall i :: 0 <= i < good ==> results[i] == Data(Reads(file, position, sizes)[i]))
    && (good < |sizes| ==> Raised(results[good]))
    && (forall i :: good < i < |sizes| ==> results[i] == Data([]))
  }

  lemma NoReads(file: Bytes, position: int)
    requires 0 <= position <= |file|
    ensures ReadInSequence(file, position, [], [], 0)
  {
  }

  /** A read that gave data comes in front. A version of the file that came in after it was not settled by it,
      so it asked for nothing at the very beginning. */
  lemma ReadComesFirst(file: Bytes, file': Bytes, position: int, n: int, sizes: seq<int>, bytes: Bytes,
                       results: seq<ReadResult>, good: nat)
    requires 0 <= position <= |file| && bytes == ReadAt(file, position, n)
    requires file' == file || (n == 0 && position == 0)
    requires ReadInSequence(file', position + |bytes|, sizes, results, good)
    ensures ReadInSequence(file', position, [n] + sizes, [Data(bytes)] + results, good + 1)
  {
    var all := [n] + sizes;
    assert all[1..] == sizes;
    assert ReadAt(file', position, n) == bytes;
    var slices := Reads(file', position + |bytes|, sizes);
    assert Reads(file', position, all) == [bytes] + slices;
    forall i | 0 <= i < good + 1
      ensures ([Data(bytes)] + results)[i] == Data(([bytes] + slices)[i])
    {
    }
  }

  lemma RaisingComesFirst(file: Bytes, position: int, n: int, sizes: seq<int>, first: ReadResult,
                          results: seq<ReadResult>)
    requires 0 <= position <= |file| && Raised(first)
    requires |results| == |sizes| && forall i :: 0 <= i < |sizes| ==> results[i] == Data([])
    ensures ReadInSequence(file, position, [n] + sizes, [first] + results, 0)
  {
  }

  /** A caller reads one size after the other and carries on after an error. */
  method ReadAll(stream: StreamingResponse, sizes: seq<int>) returns (results: seq<ReadResult>, ghost good: nat)
    requires stream.Valid() && !stream.closed && stream.content.Bounded()
    requires !stream.content.connection.phase.Failed?
    modifies stream`buffer, stream.content, stream.content.file
    ensures stream.Valid() && !stream.closed
    ensures ReadInSequence(stream.content.Source(), old(stream.Position()), sizes, results, good)
    ensures good == |sizes| <==> !stream.content.connection.phase.Failed?
    // If no more connections drop than the limits allow, and nothing else goes wrong, nothing is raised.
    ensures old(stream.content.Affordable()) ==> stream.content.Affordable() && good == |sizes|
    ensures old(stream.content.Settled()) ==> stream.content.Source() == old(stream.content.Source())
    decreases |sizes|
  {
    hide ResilientIterator.Valid, ResilientIterator.GaveUp, StreamingResponse.Valid;
    hide Buffered, ReadAt, Reads, ReadInSequence;
    ghost var position := stream.Position();
    PositionInRange(stream);
    if sizes == [] {
      NoReads(stream.content.Source(), position);
      return [], 0;
    }
    var first := stream.Read(sizes[0]);
    ghost var file := stream.content.Source();
    assert sizes == [sizes[0]] + sizes[1..];
    PositionInRange(stream);
    if Raised(first) {
      var later := ReadOn(stream, sizes[1..]);
      PositionInRange(stream);
      RaisingComesFirst(stream.content.Source(), position, sizes[0], sizes[1..], first, later);
      return [first] + later, 0;
    }
    var later;
    later, good := ReadAll(stream, sizes[1..]);
    ReadComesFirst(file, stream.content.Source(), position, sizes[0], sizes[1..], first.bytes, later, good);
    results, good := [first] + later, good + 1;
  }

  /** A read on a non-empty buffer that raises loses what was there for good: it returned nothing of it, the
      caller's position is past it, and another read gives nothing. */
  method ReadAgain(stream: StreamingResponse, n: int, m: int) returns (first: ReadResult, second: ReadResult)
    requires stream.Valid() && !stream.closed && stream.content.Bounded()
    requires !stream.content.connection.phase.Failed? && stream.buffer != []
    modifies stream`buffer, stream.content, stream.content.file
    ensures Raised(first) ==> second == Data([])
    ensures Raised(first) ==> stream.Position() >= old(stream.Position()) + old(|stream.buffer|)
  {
    hide ResilientIterator.Valid, StreamingResponse.Valid, Buffered, ReadAt;
    first := stream.Read(n);
    second := stream.Read(m);
  }

  /** Reads after one that raised. */
  method ReadOn(stream: StreamingResponse, sizes: seq<int>) returns (results: seq<ReadResult>)
    requires stream.Valid() && !stream.closed && stream.content.Bounded()
    requires stream.content.connection.phase.Failed? && stream.buffer == []
    modifies stream`buffer, stream.content, stream.content.file
    ensures stream.Valid() && !stream.closed && stream.content.Source() == old(stream.content.Source())
    ensures stream.content.connection.phase.Failed? && stream.buffer == []
    ensures |results| == |sizes| && forall i :: 0 <= i < |sizes| ==> results[i] == Data([])
  {
    results := [];
    for i := 0 to |sizes|
      invariant stream.Valid() && !stream.closed
      invariant stream.content.connection.phase.Failed? && stream.buffer == []
      invariant stream.content.Source() == old(stream.content.Source())
      invariant |results| == i && forall k :: 0 <= k < i ==> results[k] == Data([])
    {
      var result := stream.Read(sizes[i]);
      results := results + [result];
    }
  }

  function Flatten(results: seq<Bytes>): Bytes {
    if results == [] then [] else results[0] + Flatten(results[1..])
  }

  function Sum(sizes: seq<int>): int {
    if sizes == [] then 0 else sizes[0] + Sum(sizes[1..])
  }

  /** Successive reads cut the file into consecutive slices: together they are the bytes from the position
      on, as many as were asked for or are left, and all that is left once one read asks for everything. */
  lemma {:induction false} ReadsAreConsecutive(file: Bytes, position: nat, sizes: seq<int>)
    requires position <= |file|
    ensures var end := position + Wanted(|file| - position, sizes);
            Flatten(Reads(file, position, sizes)) == file[position..end]
    decreases |sizes|
  {
    if sizes != [] {
      var bytes := ReadAt(file, position, sizes[0]);
      var next := position + |bytes|;
      var end := next + Wanted(|file| - next, sizes[1..]);
      assert Reads(file, position, sizes) == [bytes] + Reads(file, next, sizes[1..]);
      assert end == position + Wanted(|file| - position, sizes);
      assert bytes == file[position..next];
      hide Reads, Flatten, Wanted, ReadAt;
      ReadsAreConsecutive(file, next, sizes[1..]);
      FlattenCons(bytes, Reads(file, next, sizes[1..]));
      Adjoin(file, position, next, end);
    }
  }

  lemma Adjoin(file: Bytes, from: nat, via: nat, to: nat)
    requires from <= via <= to <= |file|
    ensures file[from..via] + file[via..to] == file[from..to]
  {
  }

  lemma FlattenCons(head: Bytes, tail: seq<Bytes>)
    ensures Flatten([head] + tail) == head + Flatten(tail)
  {
    assert ([head] + tail)[1..] == tail;
  }

  /** The bytes that reads of the given sizes get out of `left` bytes. */
  function Wanted(left: nat, sizes: seq<int>): (n: nat)
    ensures n <= left
  {
    if sizes == [] then 0
    else if sizes[0] < 0 then left
    else var n := Min(sizes[0], left); n + Wanted(left - n, sizes[1..])
  }

  lemma {:induction false} WantedIsAllOrTheSum(left: nat, sizes: seq<int>)
    ensures (exists i :: 0 <= i < |sizes| && sizes[i] < 0) ==> Wanted(left, sizes) == left
    ensures (forall i :: 0 <= i < |sizes| ==> sizes[i] >= 0) ==>
              Wanted(left, sizes) == Min(Sum(sizes), left) && Sum(sizes) >= 0
  {
    if sizes != [] {
      var rest := sizes[1..];
      WantedIsAllOrTheSum(left - if sizes[0] < 0 then 0 else Min(sizes[0], left), rest);
      if i :| 0 < i < |sizes| && sizes[i] < 0 {
        assert rest[i - 1] < 0;
      }
    }
  }
}
