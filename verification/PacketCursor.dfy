/** The resumable packet reader of a container and the frame counter that must agree with it. */
module PacketCursor {
  import opened Results

  const MAX_PACKET_BYTES: nat := 256 * 1024 * 1024
  const MAX_UINT64: nat := 0xFFFF_FFFF_FFFF_FFFF

  /** A stored frame: its size as the container gives it, whether it can be read, and its bytes. */
  datatype Frame = Frame(size: int, readable: bool, bytes: nat)

  /** A block of one track; a block that reports a negative frame count has no frames. */
  datatype Block = Block(track: int, broken: bool, frames: seq<Frame>, time: int)

  /** A block entry, which may hold no block, and after which the parser may fail to advance. */
  datatype Entry = Entry(block: Option<Block>, nextFails: bool)

  /** A cluster, whose first entry the parser may fail to reach. */
  datatype Cluster = Cluster(firstFails: bool, entries: seq<Entry>)

  datatype Packet = Packet(bytes: nat, pts: int)

  datatype ReadResult = Delivered(packet: Packet) | EndOfStream | Failed

  function FrameCount(block: Block): int {
    if block.broken then -1 else |block.frames|
  }

  predicate Readable(frame: Frame) {
    0 < frame.size <= MAX_PACKET_BYTES && frame.readable
  }

  /** What reading one frame returns. */
  function ReadFrame(frame: Frame, time: int): ReadResult {
    if Readable(frame) then Delivered(Packet(frame.bytes, time)) else Failed
  }

  predicate Selected(entry: Entry, track: int) {
    entry.block.Some? && entry.block.value.track == track
  }

  /** The frames of an entry that a reader of the track visits. */
  function FramesOf(entry: Entry, track: int): seq<Frame> {
    if Selected(entry, track) && !entry.block.value.broken then entry.block.value.frames else []
  }

  function Reads(frames: seq<Frame>, time: int): (r: seq<ReadResult>)
    ensures |r| == |frames| && EndOfStream !in r
  {
    seq(|frames|, k requires 0 <= k < |frames| => ReadFrame(frames[k], time))
  }

  // ---------- What a whole container holds ----------

  /** The results of reading every frame of the track, in container order. */
  function EntryReads(entry: Entry, track: int): seq<ReadResult> {
    if entry.block.Some? then Reads(FramesOf(entry, track), entry.block.value.time) else []
  }

  function ClusterReads(entries: seq<Entry>, track: int): seq<ReadResult> {
    if entries == [] then []
    else ClusterReads(entries[..|entries| - 1], track) + EntryReads(entries[|entries| - 1], track)
  }

  function TrackReads(segment: seq<Cluster>, track: int): seq<ReadResult> {
    if segment == [] then []
    else TrackReads(segment[..|segment| - 1], track) + ClusterReads(segment[|segment| - 1].entries, track)
  }

  /** The parser advances past every entry. */
  predicate Advances(entries: seq<Entry>) {
    forall k :: 0 <= k < |entries| ==> !entries[k].nextFails
  }

  predicate EntriesUnbroken(entries: seq<Entry>, track: int) {
    forall k :: 0 <= k < |entries| && Selected(entries[k], track) ==> !entries[k].block.value.broken
  }

  /** The parser fails nowhere. */
  predicate Sound(segment: seq<Cluster>) {
    forall c :: 0 <= c < |segment| ==> !segment[c].firstFails && Advances(segment[c].entries)
  }

  /** No block of the track reports a negative frame count. */
  predicate Unbroken(segment: seq<Cluster>, track: int) {
    forall c :: 0 <= c < |segment| ==> EntriesUnbroken(segment[c].entries, track)
  }

  // ---------- What is left to read ----------

  /** The results still to come, and whether the parser then fails for good. */
  datatype Stream = Stream(items: seq<ReadResult>, stuck: bool)

  function Join(a: Stream, b: Stream): Stream {
    if a.stuck then a else Stream(a.items + b.items, b.stuck)
  }

  function EntriesFrom(entries: seq<Entry>, track: int, k: nat, frame: nat): (r: Stream)
    requires k < |entries| ==> frame <= |FramesOf(entries[k], track)|
    ensures EndOfStream !in r.items
    decreases |entries| - k
  {
    if k >= |entries| then Stream([], false)
    else
      var own := EntryReads(entries[k], track)[frame..];
      Join(Stream(own, entries[k].nextFails), EntriesFrom(entries, track, k + 1, 0))
  }

  function ClustersFrom(segment: seq<Cluster>, track: int, c: nat): (r: Stream)
    ensures EndOfStream !in r.items
    decreases |segment| - c
  {
    if c >= |segment| then Stream([], false)
    else if segment[c].firstFails then Stream([], true)
    else Join(EntriesFrom(segment[c].entries, track, 0, 0), ClustersFrom(segment, track, c + 1))
  }

  /** Reading one frame of an entry takes the first item of the stream. */
  lemma FrameTaken(entries: seq<Entry>, track: int, k: nat, frame: nat, rest: Stream)
    requires k < |entries| && frame < |FramesOf(entries[k], track)|
    ensures var before := Join(EntriesFrom(entries, track, k, frame), rest);
            && before.items != []
            && before.items[0] == ReadFrame(FramesOf(entries[k], track)[frame], entries[k].block.value.time)
            && Join(EntriesFrom(entries, track, k, frame + 1), rest) == Stream(before.items[1..], before.stuck)
  {
    var own := EntryReads(entries[k], track);
    assert own[frame..] == [own[frame]] + own[frame + 1..];
    var after := Join(EntriesFrom(entries, track, k, frame + 1), rest);
    assert Join(EntriesFrom(entries, track, k, frame), rest).items == [own[frame]] + after.items;
  }

  /** An entry whose frames are used up adds nothing. */
  lemma EntryDone(entries: seq<Entry>, track: int, k: nat, later: Stream)
    requires k < |entries|
    ensures Join(EntriesFrom(entries, track, k, |FramesOf(entries[k], track)|), later)
         == if entries[k].nextFails then Stream([], true)
            else if k + 1 == |entries| then later
            else Join(EntriesFrom(entries, track, k + 1, 0), later)
  {
    var n := |FramesOf(entries[k], track)|;
    assert EntryReads(entries[k], track)[n..] == [];
    var next := EntriesFrom(entries, track, k + 1, 0);
    assert Join(Stream([], false), next) == next;
    assert Join(Stream([], false), later) == later;
  }

  // ---------- The reader ----------

  class WebmPacketReader {
    const segment: seq<Cluster>
    const videoTrack: int
    var cluster: nat
    var blockEntry: Option<nat>
    var blockFrameIndex: nat

    predicate Valid()
      reads this
    {
      blockEntry.Some? ==>
        && cluster < |segment| && blockEntry.value < |segment[cluster].entries|
        && blockFrameIndex <= |FramesOf(segment[cluster].entries[blockEntry.value], videoTrack)|
    }

    function Rest(): Stream
      reads this
      requires Valid()
    {
      match blockEntry
      case None => ClustersFrom(segment, videoTrack, cluster)
      case Some(k) =>
        Join(EntriesFrom(segment[cluster].entries, videoTrack, k, blockFrameIndex),
             ClustersFrom(segment, videoTrack, cluster + 1))
    }

    constructor (segment: seq<Cluster>, videoTrack: int)
      ensures Valid() && this.segment == segment && this.videoTrack == videoTrack
      ensures Rest() == ClustersFrom(segment, videoTrack, 0)
    {
      this.segment := segment;
      this.videoTrack := videoTrack;
      cluster, blockEntry, blockFrameIndex := 0, None, 0;
    }

    /** The parser's step to the first entry of a cluster, or past entry number `k`. */
    static function FirstEntry(entries: seq<Entry>): Option<nat> {
      if entries == [] then None else Some(0)
    }

    static function NextEntry(entries: seq<Entry>, k: nat): Option<nat> {
      if k + 1 < |entries| then Some(k + 1) else None
    }

    /** The loop over the entries of the current cluster; no result means that it is used up. */
    method ReadEntries(ghost later: Stream) returns (result: Option<ReadResult>)
      requires Valid() && cluster < |segment| && later == ClustersFrom(segment, videoTrack, cluster + 1)
      requires blockEntry == None ==> segment[cluster].entries == []
      modifies this`blockEntry, this`blockFrameIndex
      ensures Valid()
      ensures var rest := old(if blockEntry.Some? then Rest() else later);
              if rest.items != [] && result.Some? then
                result.value == rest.items[0] && Rest() == Stream(rest.items[1..], rest.stuck)
              else if result.Some? then Rest() == rest && rest.stuck && result.value == Failed
              else blockEntry == None && later == rest
    {
      hide EntriesFrom, ClustersFrom, Join;
      var entries := segment[cluster].entries;
      ghost var rest := if blockEntry.Some? then Rest() else later;
      while blockEntry.Some?
        invariant Valid()
        invariant if blockEntry.Some? then Rest() == rest else later == rest
        decreases if blockEntry.Some? then |entries| - blockEntry.value else 0
      {
        var k := blockEntry.value;
        var block := entries[k].block;
        if block.Some? && block.value.track == videoTrack {
          // The frame loop leaves the method in its first turn.
          if blockFrameIndex < FrameCount(block.value) {
            FrameTaken(entries, videoTrack, k, blockFrameIndex, later);
            var source := block.value.frames[blockFrameIndex];
            blockFrameIndex := blockFrameIndex + 1;
            if source.size <= 0 || source.size > MAX_PACKET_BYTES {
              return Some(Failed);
            }
            if !source.readable {
              return Some(Failed);
            }
            return Some(Delivered(Packet(source.bytes, block.value.time)));
          }
        }
        EntryDone(entries, videoTrack, k, later);
        if entries[k].nextFails {
          return Some(Failed);
        }
        blockEntry := NextEntry(entries, k);
        blockFrameIndex := 0;
      }
      return None;
    }

    method Read() returns (result: ReadResult)
      requires Valid()
      modifies this
      ensures Valid()
      ensures var rest := old(Rest());
              if rest.items != [] then result == rest.items[0] && Rest() == Stream(rest.items[1..], rest.stuck)
              else Rest() == rest && result == if rest.stuck then Failed else EndOfStream
    {
      ghost var rest := Rest();
      while cluster < |segment|
        invariant Valid() && Rest() == rest
        decreases |segment| - cluster
      {
        if blockEntry == None {
          if segment[cluster].firstFails {
            return Failed;
          }
          blockEntry := FirstEntry(segment[cluster].entries);
          blockFrameIndex := 0;
        }
        ghost var later := ClustersFrom(segment, videoTrack, cluster + 1);
        assert Join(Stream([], false), later) == later;
        assert (if blockEntry.Some? then Rest() else later) == rest;
        var found := ReadEntries(later);
        if found.Some? {
          return found.value;
        }
        cluster := cluster + 1;
        blockEntry := None;
      }
      return EndOfStream;
    }

    /** Repeated reading, until something other than a packet is returned. */
    method ReadAll() returns (packets: seq<Packet>, ending: ReadResult)
      requires Valid()
      modifies this
      ensures Valid() && !ending.Delivered?
      ensures var rest := old(Rest());
              && |packets| <= |rest.items|
              && (forall k :: 0 <= k < |packets| ==> rest.items[k] == Delivered(packets[k]))
              && ending == if |packets| < |rest.items| then rest.items[|packets|]
                           else if rest.stuck then Failed else EndOfStream
    {
      packets := [];
      ghost var rest := Rest();
      hide EntriesFrom, ClustersFrom;
      while true
        invariant Valid() && |packets| <= |rest.items|
        invariant Rest() == Stream(rest.items[|packets|..], rest.stuck)
        invariant forall k :: 0 <= k < |packets| ==> rest.items[k] == Delivered(packets[k])
        invariant EndOfStream !in rest.items
        decreases |rest.items| - |packets|
      {
        ending := Read();
        if !ending.Delivered? {
          return;
        }
        packets := packets + [ending.packet];
      }
    }
  }

  // ---------- The stream and the container ----------

  lemma {:induction false} EntriesStuck(entries: seq<Entry>, track: int, k: nat)
    requires k <= |entries|
    ensures EntriesFrom(entries, track, k, 0).stuck <==> exists j :: k <= j < |entries| && entries[j].nextFails
    decreases |entries| - k
  {
    if k < |entries| {
      EntriesStuck(entries, track, k + 1);
    }
  }

  /** From any entry on, the stream is what the rest of the cluster holds, as far as the parser gets. */
  lemma {:induction false} EntriesAre(entries: seq<Entry>, track: int, k: nat)
    requires k <= |entries|
    ensures var stream := EntriesFrom(entries, track, k, 0);
            && ClusterReads(entries[..k], track) + stream.items <= ClusterReads(entries, track)
            && (!stream.stuck ==> ClusterReads(entries[..k], track) + stream.items == ClusterReads(entries, track))
    decreases |entries| - k
  {
    if k == |entries| {
      assert entries[..k] == entries;
    } else {
      EntriesAre(entries, track, k + 1);
      var own := EntryReads(entries[k], track);
      assert own[0..] == own;
      assert entries[..k + 1][..k] == entries[..k];
      var before, later := ClusterReads(entries[..k], track), EntriesFrom(entries, track, k + 1, 0).items;
      assert ClusterReads(entries[..k + 1], track) == before + own;
      hide ClusterReads, EntryReads;
      Regrouped(before, own, later);
    }
  }

  lemma Regrouped(before: seq<ReadResult>, own: seq<ReadResult>, later: seq<ReadResult>)
    ensures before + (own + later) == (before + own) + later && before + own <= (before + own) + later
    ensures before + [] <= (before + own) + later && before <= before + own
  {
  }

  lemma {:induction false} ClustersAre(segment: seq<Cluster>, track: int, c: nat)
    requires c <= |segment|
    ensures var stream := ClustersFrom(segment, track, c);
            && TrackReads(segment[..c], track) + stream.items <= TrackReads(segment, track)
            && (stream.stuck <==> !Sound(segment[c..]))
            && (!stream.stuck ==> TrackReads(segment[..c], track) + stream.items == TrackReads(segment, track))
    decreases |segment| - c
  {
    if c == |segment| {
      assert segment[..c] == segment;
    } else {
      var entries := segment[c].entries;
      var before := TrackReads(segment[..c], track);
      ClustersAre(segment, track, c + 1);
      EntriesAre(entries, track, 0);
      EntriesStuck(entries, track, 0);
      assert segment[..c + 1][..c] == segment[..c];
      assert segment[c..][1..] == segment[c + 1..] && segment[c..][0] == segment[c];
      SoundFront(segment[c..]);
      var all := TrackReads(segment[..c + 1], track);
      assert all == before + ClusterReads(entries, track);
      var own, later := EntriesFrom(entries, track, 0, 0), ClustersFrom(segment, track, c + 1).items;
      assert ClusterReads(entries[..0], track) + own.items == own.items;
      assert before + (own.items + later) == (before + own.items) + later;
      if own.stuck || segment[c].firstFails {
        TrackReadsGrow(segment, track, c + 1);
      }
    }
  }

  lemma SoundFront(segment: seq<Cluster>)
    requires segment != []
    ensures Sound(segment) <==>
              && !segment[0].firstFails
              && Advances(segment[0].entries)
              && Sound(segment[1..])
  {
    assert forall c :: 1 <= c < |segment| ==> segment[c] == segment[1..][c - 1];
  }

  lemma {:induction false} TrackReadsGrow(segment: seq<Cluster>, track: int, c: nat)
    requires c <= |segment|
    ensures TrackReads(segment[..c], track) <= TrackReads(segment, track)
    decreases |segment|
  {
    if c == |segment| {
      assert segment[..c] == segment;
    } else {
      var front := segment[..|segment| - 1];
      TrackReadsGrow(front, track, c);
      assert front[..c] == segment[..c];
    }
  }

  /**
   * The packets that repeated reading returns are the track's frames in container order. Reading a
   * container to its end of stream returns them all; a failure comes at the first frame that cannot be
   * read, or where the parser fails.
   */
  lemma StreamIsTrack(segment: seq<Cluster>, track: int)
    ensures var stream := ClustersFrom(segment, track, 0);
            && stream.items <= TrackReads(segment, track)
            && (stream.stuck <==> !Sound(segment))
            && (Sound(segment) ==> stream.items == TrackReads(segment, track))
  {
    ClustersAre(segment, track, 0);
    assert segment[0..] == segment;
    var items := ClustersFrom(segment, track, 0).items;
    assert TrackReads(segment[..0], track) + items == items;
  }

  // ---------- The frames of the track ----------

  /** A stored frame and the time of its block. */
  datatype Timed = Timed(frame: Frame, time: int)

  /** A frame that is not delivered: empty, longer than 256 MiB, or not to be read. */
  predicate Refused(frame: Frame) {
    frame.size <= 0 || frame.size > 268435456 || !frame.readable
  }

  /** The frames of an entry if it holds a block of the track, each with the block's own time. */
  function TimedOf(entry: Entry, track: int): seq<Timed> {
    match entry.block
    case None => []
    case Some(block) =>
      if block.track != track || block.broken then []
      else seq(|block.frames|, k requires 0 <= k < |block.frames| => Timed(block.frames[k], block.time))
  }

  function TimedEntries(entries: seq<Entry>, track: int): seq<Timed> {
    if entries == [] then [] else TimedEntries(entries[..|entries| - 1], track) + TimedOf(entries[|entries| - 1], track)
  }

  /** The frames of the track: cluster after cluster, entry after entry, frame after frame. */
  function TimedFrames(segment: seq<Cluster>, track: int): seq<Timed> {
    if segment == [] then []
    else TimedFrames(segment[..|segment| - 1], track) + TimedEntries(segment[|segment| - 1].entries, track)
  }

  /** What reading each of some frames must give. */
  predicate Matches(given: seq<ReadResult>, frames: seq<Timed>) {
    && |given| == |frames|
    && forall k :: 0 <= k < |frames| ==>
         if Refused(frames[k].frame) then given[k] == Failed
         else given[k] == Delivered(Packet(frames[k].frame.bytes, frames[k].time))
  }

  lemma MatchesBoth(a: seq<ReadResult>, b: seq<Timed>, c: seq<ReadResult>, d: seq<Timed>)
    requires Matches(a, b) && Matches(c, d)
    ensures Matches(a + c, b + d)
  {
  }

  lemma EntryMatches(entry: Entry, track: int)
    ensures Matches(EntryReads(entry, track), TimedOf(entry, track))
  {
  }

  lemma {:induction false} EntriesMatch(entries: seq<Entry>, track: int)
    ensures Matches(ClusterReads(entries, track), TimedEntries(entries, track))
  {
    if entries != [] {
      EntriesMatch(entries[..|entries| - 1], track);
      EntryMatches(entries[|entries| - 1], track);
      hide Matches, EntryReads, TimedOf;
      MatchesBoth(ClusterReads(entries[..|entries| - 1], track), TimedEntries(entries[..|entries| - 1], track),
                  EntryReads(entries[|entries| - 1], track), TimedOf(entries[|entries| - 1], track));
    }
  }

  /** The track's reads are, position by position, its frames with their blocks' times. */
  lemma {:induction false} TrackMatches(segment: seq<Cluster>, track: int)
    ensures Matches(TrackReads(segment, track), TimedFrames(segment, track))
  {
    if segment != [] {
      var front, last := segment[..|segment| - 1], segment[|segment| - 1].entries;
      TrackMatches(front, track);
      EntriesMatch(last, track);
      hide Matches, ClusterReads, TimedEntries;
      MatchesBoth(TrackReads(front, track), TimedFrames(front, track),
                  ClusterReads(last, track), TimedEntries(last, track));
    }
  }

  // ---------- The counter ----------

  /** Counts the frames of the track. */
  method CountFrames(segment: seq<Cluster>, track: int) returns (ok: bool, count: nat)
    ensures ok <==>
              Sound(segment) && Unbroken(segment, track) && |TimedFrames(segment, track)| <= 0xFFFF_FFFF_FFFF_FFFF
    ensures ok ==> count == |TimedFrames(segment, track)|
  {
    TrackMatches(segment, track);
    hide Sound, Unbroken, TimedFrames;
    count := 0;
    EmptyIsFine(track);
    assert segment[..0] == [];
    for c := 0 to |segment|
      invariant Sound(segment[..c]) && Unbroken(segment[..c], track)
      invariant count == |TrackReads(segment[..c], track)| <= MAX_UINT64
    {
      TrackReadsGrow(segment, track, c + 1);
      FineSoFar(segment, track, c);
      assert segment[..c + 1][..c] == segment[..c];
      if segment[c].firstFails {
        return false, count;
      }
      var counted;
      counted, count := CountEntries(segment[c].entries, track, count);
      if !counted {
        return false, count;
      }
    }
    assert segment[..|segment|] == segment;
    return true, count;
  }

  lemma EmptyIsFine(track: int)
    ensures Sound([]) && Unbroken([], track)
  {
  }

  /** The first clusters are fine if one less is and the last of them is; all are only if these are. */
  lemma FineSoFar(segment: seq<Cluster>, track: int, c: nat)
    requires c < |segment|
    ensures var entries := segment[c].entries;
            Sound(segment[..c]) && Unbroken(segment[..c], track) && !segment[c].firstFails && Advances(entries)
            && EntriesUnbroken(entries, track)
            ==> Sound(segment[..c + 1]) && Unbroken(segment[..c + 1], track)
    ensures Sound(segment) && Unbroken(segment, track)
            ==> !segment[c].firstFails && Advances(segment[c].entries) && EntriesUnbroken(segment[c].entries, track)
  {
    assert forall j :: 0 <= j < c ==> segment[..c + 1][j] == segment[..c][j];
  }

  /** The loop over the entries of one cluster. */
  method CountEntries(entries: seq<Entry>, track: int, before: nat) returns (ok: bool, count: nat)
    requires before <= MAX_UINT64
    ensures ok <==>
              Advances(entries) && EntriesUnbroken(entries, track)
              && before + |ClusterReads(entries, track)| <= MAX_UINT64
    ensures ok ==> count == before + |ClusterReads(entries, track)|
  {
    hide ClusterReads;
    count := before;
    OneEntry(entries, track, 0);
    for k := 0 to |entries|
      invariant forall j :: 0 <= j < k ==> !entries[j].nextFails
      invariant forall j :: 0 <= j < k && Selected(entries[j], track) ==> !entries[j].block.value.broken
      invariant count == before + |ClusterReads(entries[..k], track)| <= MAX_UINT64
    {
      ClusterReadsGrow(entries, track, k + 1);
      OneEntry(entries, track, k);
      var block := entries[k].block;
      if block.Some? && block.value.track == track {
        var frames := FrameCount(block.value);
        if frames < 0 || count > MAX_UINT64 - frames {
          return false, count;
        }
        count := count + frames;
      }
      if entries[k].nextFails {
        return false, count;
      }
    }
    assert entries[..|entries|] == entries;
    return true, count;
  }

  lemma OneEntry(entries: seq<Entry>, track: int, k: nat)
    ensures |ClusterReads(entries[..0], track)| == 0
    ensures k < |entries| ==>
              |ClusterReads(entries[..k + 1], track)| ==
              |ClusterReads(entries[..k], track)| + |FramesOf(entries[k], track)|
  {
    if k < |entries| {
      assert entries[..k + 1][..k] == entries[..k];
    }
  }

  lemma {:induction false} ClusterReadsGrow(entries: seq<Entry>, track: int, k: nat)
    requires k <= |entries|
    ensures |ClusterReads(entries[..k], track)| <= |ClusterReads(entries, track)|
    decreases |entries|
  {
    if k == |entries| {
      assert entries[..k] == entries;
    } else {
      var front := entries[..|entries| - 1];
      ClusterReadsGrow(front, track, k);
      assert front[..k] == entries[..k];
    }
  }

  /**
   * A container read from its start: the packets are the track's frames in order, each with the bytes it
   * stores and the time of its block, up to the first frame that is refused or where the parser fails.
   */
  method ReadWhole(segment: seq<Cluster>, track: int) returns (packets: seq<Packet>, ending: ReadResult)
    ensures |packets| <= |TimedFrames(segment, track)|
    ensures forall k :: 0 <= k < |packets| ==>
              var stored := TimedFrames(segment, track)[k];
              !Refused(stored.frame) && packets[k] == Packet(stored.frame.bytes, stored.time)
    ensures ending == EndOfStream || ending == Failed
    ensures ending == EndOfStream ==> |packets| == |TimedFrames(segment, track)| && Sound(segment)
    ensures ending == Failed ==>
              !Sound(segment)
              || (|packets| < |TimedFrames(segment, track)| && Refused(TimedFrames(segment, track)[|packets|].frame))
  {
    var reader := new WebmPacketReader(segment, track);
    StreamIsTrack(segment, track);
    TrackMatches(segment, track);
    hide Sound, TimedFrames, TrackReads, ClustersFrom, Refused;
    packets, ending := reader.ReadAll();
  }

  /** So it is read to its end exactly if the parser never fails and no frame is refused. */
  lemma ReadsToEndIff(segment: seq<Cluster>, track: int)
    ensures var stream := ClustersFrom(segment, track, 0);
            !stream.stuck && Failed !in stream.items <==>
              Sound(segment) && forall k :: 0 <= k < |TimedFrames(segment, track)| ==>
                                  !Refused(TimedFrames(segment, track)[k].frame)
  {
    StreamIsTrack(segment, track);
    TrackMatches(segment, track);
    hide Sound, TimedFrames, TrackReads, ClustersFrom, Refused;
    var results, frames := TrackReads(segment, track), TimedFrames(segment, track);
    if k :| 0 <= k < |frames| && Refused(frames[k].frame) {
      assert results[k] == Failed;
    }
  }
}
