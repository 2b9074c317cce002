/** Streaming over a data channel: payloads are cut into packets, any number of senders enqueue theirs under one
    mutex, and a single loop sends what was enqueued.

    Enqueueing one packet, taking one packet off the queue and handing it to the channel are the atomic steps. */
module RtcChannel {
  import opened Bytes
  import opened ThreadSafeQueues
  import opened Wrappers

  const CHUNK_SIZE := 65536

  type StreamId = nat
  type Kind = nat

  datatype Packet =
    | Header(kind: Kind, stream: StreamId, totalLength: nat)
    | Chunk(kind: Kind, stream: StreamId, offset: nat, data: seq<Byte>)
    | Trailer(kind: Kind, stream: StreamId)
    | Single(body: seq<Byte>)              // a response that fits one packet

  predicate OfStream(p: Packet, id: StreamId) {
    !p.Single? && p.stream == id
  }

  // ---- what one sender emits ----

  function ChunksFrom(kind: Kind, id: StreamId, data: seq<Byte>, offset: nat): seq<Packet>
    requires offset <= |data|
    decreases |data| - offset
  {
    if offset == |data| then []
    else
      var n := if |data| - offset < CHUNK_SIZE then |data| - offset else CHUNK_SIZE;
      [Chunk(kind, id, offset, data[offset..offset + n])] + ChunksFrom(kind, id, data, offset + n)
  }

  function Packets(kind: Kind, id: StreamId, data: seq<Byte>): seq<Packet> {
    [Header(kind, id, |data|)] + ChunksFrom(kind, id, data, 0) + [Trailer(kind, id)]
  }

  /** What a receiver collects for one stream. */
  function Collected(ps: seq<Packet>, id: StreamId): seq<Byte> {
    if ps == [] then []
    else
      var p := ps[|ps| - 1];
      Collected(ps[..|ps| - 1], id) + if p.Chunk? && p.stream == id then p.data else []
  }

  /** The packets of one stream, in order. */
  function Own(ps: seq<Packet>, id: StreamId): seq<Packet> {
    if ps == [] then []
    else
      var p := ps[|ps| - 1];
      Own(ps[..|ps| - 1], id) + if OfStream(p, id) then [p] else []
  }

  function DataOf(p: Packet, id: StreamId): seq<Byte> {
    if p.Chunk? && p.stream == id then p.data else []
  }

  function OwnOne(p: Packet, id: StreamId): seq<Packet> {
    if OfStream(p, id) then [p] else []
  }

  lemma Snoc(ps: seq<Packet>, p: Packet, id: StreamId)
    ensures Collected(ps + [p], id) == Collected(ps, id) + DataOf(p, id)
    ensures Own(ps + [p], id) == Own(ps, id) + OwnOne(p, id)
    ensures Collected([p], id) == DataOf(p, id) && Own([p], id) == OwnOne(p, id)
    ensures Collected([], id) == [] && Own([], id) == []
  {
    assert (ps + [p])[..|ps|] == ps && [p][..0] == [];
  }

  lemma {:induction false} Appended(a: seq<Packet>, b: seq<Packet>, id: StreamId)
    ensures Collected(a + b, id) == Collected(a, id) + Collected(b, id)
    ensures Own(a + b, id) == Own(a, id) + Own(b, id)
    decreases |b|
  {
    hide Collected, Own, DataOf, OwnOne;
    if b == [] {
      Snoc(a, Single([]), id);
      assert a + b == a;
    } else {
      var init, p := b[..|b| - 1], b[|b| - 1];
      Appended(a, init, id);
      Snoc(a + init, p, id);
      Snoc(init, p, id);
      assert a + b == a + init + [p] && b == init + [p];
    }
  }

  /** A receiver may ignore the packets of other streams. */
  lemma {:induction false} CollectedFromOwn(ps: seq<Packet>, id: StreamId)
    ensures Collected(ps, id) == Collected(Own(ps, id), id)
  {
    hide Collected, Own;
    if ps == [] {
      Snoc([], Single([]), id);
    } else {
      var init, p := ps[..|ps| - 1], ps[|ps| - 1];
      assert ps == init + [p];
      CollectedFromOwn(init, id);
      Snoc(init, p, id);
      Snoc(Own(init, id), p, id);
      if !OfStream(p, id) {
        assert Own(init, id) + [] == Own(init, id);
      }
    }
  }

  lemma {:induction false} ChunksCarryData(kind: Kind, id: StreamId, data: seq<Byte>, offset: nat)
    requires offset <= |data|
    ensures Collected(ChunksFrom(kind, id, data, offset), id) == data[offset..]
    ensures Own(ChunksFrom(kind, id, data, offset), id) == ChunksFrom(kind, id, data, offset)
    decreases |data| - offset
  {
    hide Collected, Own;
    if offset == |data| {
      Snoc([], Single([]), id);
    } else {
      var n := if |data| - offset < CHUNK_SIZE then |data| - offset else CHUNK_SIZE;
      var first := Chunk(kind, id, offset, data[offset..offset + n]);
      FirstChunk(kind, id, data, offset, n);
      ChunksCarryData(kind, id, data, offset + n);
      hide ChunksFrom;
      Appended([first], ChunksFrom(kind, id, data, offset + n), id);
      Snoc([], first, id);
      assert data[offset..] == data[offset..offset + n] + data[offset + n..];
    }
  }

  lemma FirstChunk(kind: Kind, id: StreamId, data: seq<Byte>, offset: nat, n: nat)
    requires offset < |data| && n == if |data| - offset < CHUNK_SIZE then |data| - offset else CHUNK_SIZE
    ensures ChunksFrom(kind, id, data, offset) ==
            [Chunk(kind, id, offset, data[offset..offset + n])] + ChunksFrom(kind, id, data, offset + n)
  {
  }

  /** A chunk that belongs at position i of a payload cut from `offset` on. */
  predicate IsChunk(p: Packet, offset: nat, i: nat, isLast: bool) {
    p.Chunk? && 0 < |p.data| <= CHUNK_SIZE && p.offset == offset + i * CHUNK_SIZE &&
    (!isLast ==> |p.data| == CHUNK_SIZE)
  }

  ghost predicate AreChunks(cs: seq<Packet>, offset: nat) {
    forall i {:trigger cs[i]} | 0 <= i < |cs| :: IsChunk(cs[i], offset, i, i == |cs| - 1)
  }

  /** Offsets are contiguous, no chunk is empty or larger than 64 KiB, and only the last may be smaller. */
  lemma {:induction false} ChunksAreContiguous(kind: Kind, id: StreamId, data: seq<Byte>, offset: nat)
    requires offset <= |data|
    ensures AreChunks(ChunksFrom(kind, id, data, offset), offset)
    decreases |data| - offset
  {
    if |data| - offset > CHUNK_SIZE {
      var cs, rest := ChunksFrom(kind, id, data, offset), ChunksFrom(kind, id, data, offset + CHUNK_SIZE);
      ChunksAreContiguous(kind, id, data, offset + CHUNK_SIZE);
      forall i {:trigger cs[i]} | 0 <= i < |cs| ensures IsChunk(cs[i], offset, i, i == |cs| - 1) {
        if i > 0 {
          assert cs[i] == rest[i - 1];
        }
      }
    } else if offset < |data| {
      assert ChunksFrom(kind, id, data, |data|) == [];
    }
  }

  /** The packets of a stream carry its payload, its length and nothing else. */
  lemma PacketsCarryPayload(kind: Kind, id: StreamId, data: seq<Byte>)
    ensures var ps := Packets(kind, id, data);
            && Collected(ps, id) == data && Own(ps, id) == ps
            && ps[0] == Header(kind, id, |data|)
            && forall i | 0 <= i < |ps| :: ps[i].Trailer? <==> i == |ps| - 1
  {
    hide Collected, Own, ChunksFrom;
    var h, cs, t := Header(kind, id, |data|), ChunksFrom(kind, id, data, 0), Trailer(kind, id);
    ChunksCarryData(kind, id, data, 0);
    ChunksAreContiguous(kind, id, data, 0);
    Snoc([], h, id);
    Appended([h], cs, id);
    Snoc([h] + cs, t, id);
    assert data[0..] == data;
  }

  lemma {:induction false} ChunksHaveTheKind(kind: Kind, id: StreamId, data: seq<Byte>, offset: nat)
    requires offset <= |data|
    ensures forall i | 0 <= i < |ChunksFrom(kind, id, data, offset)| ::
              var p := ChunksFrom(kind, id, data, offset)[i]; p.Chunk? && p.kind == kind && p.stream == id
    decreases |data| - offset
  {
    if offset < |data| {
      ChunksHaveTheKind(kind, id, data, if |data| - offset < CHUNK_SIZE then |data| else offset + CHUNK_SIZE);
    }
  }

  /** Every packet of a stream names the stream and the kind of its payload. */
  lemma PacketsNameTheirStream(kind: Kind, id: StreamId, data: seq<Byte>)
    ensures forall i | 0 <= i < |Packets(kind, id, data)| ::
              var p := Packets(kind, id, data)[i]; !p.Single? && p.kind == kind && p.stream == id
  {
    ChunksHaveTheKind(kind, id, data, 0);
    hide ChunksFrom;
  }

  /** The header and the chunks before `offset` are out. */
  ghost predicate EmittedUpTo(kind: Kind, id: StreamId, data: seq<Byte>, offset: nat, done: seq<Packet>)
    requires offset <= |data|
  {
    done + ChunksFrom(kind, id, data, offset) == [Header(kind, id, |data|)] + ChunksFrom(kind, id, data, 0)
  }

  lemma ChunkEmitted(kind: Kind, id: StreamId, data: seq<Byte>, offset: nat, n: nat, done: seq<Packet>)
    requires offset < |data| && n == if |data| - offset < CHUNK_SIZE then |data| - offset else CHUNK_SIZE
    requires EmittedUpTo(kind, id, data, offset, done)
    ensures EmittedUpTo(kind, id, data, offset + n, done + [Chunk(kind, id, offset, data[offset..offset + n])])
  {
    FirstChunk(kind, id, data, offset, n);
    hide ChunksFrom;
    var c := Chunk(kind, id, offset, data[offset..offset + n]);
    assert done + [c] + ChunksFrom(kind, id, data, offset + n) == done + ([c] + ChunksFrom(kind, id, data, offset + n));
  }

  lemma AllEmitted(kind: Kind, id: StreamId, data: seq<Byte>, done: seq<Packet>)
    requires EmittedUpTo(kind, id, data, |data|, done)
    ensures done + [Trailer(kind, id)] == Packets(kind, id, data)
  {
    assert ChunksFrom(kind, id, data, |data|) == [];
    assert done + [] == done;
  }

  // ---- the channel ----

  datatype Channel = Channel(
    queue: seq<Packet>,
    inFlight: Option<Packet>,      // taken by the loop, not yet handed over
    running: bool,
    loopDone: bool,
    enqueued: seq<Packet>,         // everything ever pushed
    sent: seq<Packet>,             // everything handed to the data channel
    lost: seq<Packet>)             // dropped because the data channel was no longer open

  const OPEN: Channel := Channel([], None, true, false, [], [], [])

  function AfterPush(c: Channel, p: Packet): Channel {
    c.(queue := c.queue + [p], enqueued := c.enqueued + [p])
  }

  /** The loop wakes up: it takes the next packet, ends when it was told to stop and nothing is left, or waits. */
  function AfterTake(c: Channel): Channel {
    if c.loopDone || c.inFlight.Some? then c
    else if c.queue != [] then c.(inFlight := Some(c.queue[0]), queue := c.queue[1..])
    else if !c.running then c.(loopDone := true)
    else c
  }

  /** The packet in flight is sent, or the loop ends because the channel is not open. */
  function AfterDeliver(c: Channel, isOpen: bool): Channel {
    if c.loopDone || c.inFlight.None? then c
    else if isOpen then c.(sent := c.sent + [c.inFlight.value], inFlight := None)
    else c.(lost := c.lost + [c.inFlight.value], inFlight := None, loopDone := true)
  }

  function InFlight(c: Channel): seq<Packet> {
    if c.inFlight.Some? then [c.inFlight.value] else []
  }

  /** Nothing is reordered, duplicated or invented: what was enqueued is what was sent, followed by what is in
      flight, lost or queued. */
  ghost predicate Conserved(c: Channel) {
    && c.enqueued == c.sent + c.lost + InFlight(c) + c.queue
    && (c.lost != [] ==> c.loopDone)
    && (c.loopDone ==> c.inFlight.None?)
  }

  /** A loop that ends because it was told to stop has sent everything that was enqueued. */
  lemma StoppedLoopHasSentAll(c: Channel)
    requires Conserved(c) && !c.loopDone && AfterTake(c).loopDone
    ensures !c.running && AfterTake(c).sent == c.enqueued && AfterTake(c).queue == []
  {
    assert c.sent + [] + [] + [] == c.sent;
  }

  class RtcChannel {
    var sendQueue: seq<Packet>
    var inFlight: Option<Packet>
    var sendThreadRunning: bool
    var loopDone: bool
    ghost var enqueued: seq<Packet>
    ghost var sent: seq<Packet>
    ghost var lost: seq<Packet>

    constructor ()
      ensures Abstract() == OPEN
    {
      sendQueue, inFlight, sendThreadRunning, loopDone := [], None, true, false;
      enqueued, sent, lost := [], [], [];
    }

    ghost function Abstract(): Channel
      reads this
    {
      Channel(sendQueue, inFlight, sendThreadRunning, loopDone, enqueued, sent, lost)
    }

    method Enqueue(p: Packet)
      modifies this
      ensures Abstract() == AfterPush(old(Abstract()), p)
    {
      sendQueue := sendQueue + [p];
      enqueued := enqueued + [p];
    }

    method TakeNext()
      modifies this
      ensures Abstract() == AfterTake(old(Abstract()))
    {
      if loopDone || inFlight.Some? {
        return;
      }
      if |sendQueue| == 0 {
        if !sendThreadRunning {
          loopDone := true;
        }
        return;
      }
      inFlight := Some(sendQueue[0]);
      sendQueue := sendQueue[1..];
    }

    method Deliver(isOpen: bool)
      modifies this
      ensures Abstract() == AfterDeliver(old(Abstract()), isOpen)
    {
      if loopDone || inFlight.None? {
        return;
      }
      if !isOpen {
        lost := lost + [inFlight.value];
        inFlight := None;
        loopDone := true;
        return;
      }
      sent := sent + [inFlight.value];
      inFlight := None;
    }

    method Terminate()
      modifies this
      ensures Abstract() == old(Abstract()).(running := false)
    {
      sendThreadRunning := false;
    }

    ghost predicate Grew(before: Channel, ps: seq<Packet>)
      reads this
    {
      Abstract() == before.(queue := before.queue + ps, enqueued := before.enqueued + ps)
    }

    /** Sends a payload held in memory. */
    method SendMemory(kind: Kind, id: StreamId, data: seq<Byte>)
      modifies this
      ensures Grew(old(Abstract()), Packets(kind, id, data))
    {
      hide ChunksFrom;
      ghost var before := Abstract();
      ghost var done := [Header(kind, id, |data|)];
      Enqueue(Header(kind, id, |data|));
      var offset := 0;
      while offset < |data|
        invariant 0 <= offset <= |data| && Grew(before, done)
        invariant EmittedUpTo(kind, id, data, offset, done)
      {
        hide EmittedUpTo;
        var readSize := if |data| - offset < CHUNK_SIZE then |data| - offset else CHUNK_SIZE;
        Enqueue(Chunk(kind, id, offset, data[offset..offset + readSize]));
        ChunkEmitted(kind, id, data, offset, readSize, done);
        done := done + [Chunk(kind, id, offset, data[offset..offset + readSize])];
        offset := offset + readSize;
      }
      AllEmitted(kind, id, data, done);
      Enqueue(Trailer(kind, id));
    }

    /** Sends a file read block by block, the last block being shorter or absent; nothing when it is not open. */
    method SendFile(kind: Kind, id: StreamId, file: Option<seq<Byte>>)
      modifies this
      ensures Grew(old(Abstract()), if file.Some? then Packets(kind, id, file.value) else [])
    {
      hide ChunksFrom;
      if file.None? {
        return;
      }
      ghost var before := Abstract();
      var content := file.value;
      ghost var done := [Header(kind, id, |content|)];
      Enqueue(Header(kind, id, |content|));
      var offset := 0;
      var buffer := ReadBlock(content, 0);
      while |buffer| > 0
        invariant 0 <= offset <= |content| && Grew(before, done)
        invariant buffer == content[offset..if |content| - offset < CHUNK_SIZE then |content| else offset + CHUNK_SIZE]
        invariant EmittedUpTo(kind, id, content, offset, done)
        decreases |content| - offset
      {
        hide EmittedUpTo;
        Enqueue(Chunk(kind, id, offset, buffer));
        ChunkEmitted(kind, id, content, offset, |buffer|, done);
        done := done + [Chunk(kind, id, offset, buffer)];
        offset := offset + |buffer|;
        buffer := ReadBlock(content, offset);
      }
      AllEmitted(kind, id, content, done);
      Enqueue(Trailer(kind, id));
    }

    /** file.read: a full block, or what is left. */
    method ReadBlock(content: seq<Byte>, pos: nat) returns (block: seq<Byte>)
      requires pos <= |content|
      ensures block == content[pos..if |content| - pos < CHUNK_SIZE then |content| else pos + CHUNK_SIZE]
    {
      block := if |content| - pos < CHUNK_SIZE then content[pos..] else content[pos..pos + CHUNK_SIZE];
    }
  }

  // ---- concurrent senders ----

  /** One stream being sent. */
  datatype Sender = Sender(kind: Kind, id: StreamId, data: seq<Byte>)

  function Script(s: Sender): seq<Packet> {
    Packets(s.kind, s.id, s.data)
  }

  datatype Step =
    | Push(sender: nat)          // a sender enqueues its next packet
    | PushSingle(body: seq<Byte>)
    | Take
    | Deliver(isOpen: bool)
    | Stop

  datatype System = System(channel: Channel, next: seq<nat>)

  ghost predicate Matches(senders: seq<Sender>, s: System) {
    |s.next| == |senders| && forall i | 0 <= i < |senders| :: s.next[i] <= |Script(senders[i])|
  }

  function Next(senders: seq<Sender>, s: System, step: Step): System {
    match step
    case Push(i) =>
      if i < |senders| && i < |s.next| && s.next[i] < |Script(senders[i])|
      then System(AfterPush(s.channel, Script(senders[i])[s.next[i]]), s.next[i := s.next[i] + 1])
      else s
    case PushSingle(body) => s.(channel := AfterPush(s.channel, Single(body)))
    case Take => s.(channel := AfterTake(s.channel))
    case Deliver(isOpen) => s.(channel := AfterDeliver(s.channel, isOpen))
    case Stop => s.(channel := s.channel.(running := false))
  }

  function Run(senders: seq<Sender>, steps: seq<Step>): System {
    if steps == [] then System(OPEN, seq(|senders|, _ => 0))
    else Next(senders, Run(senders, steps[..|steps| - 1]), steps[|steps| - 1])
  }

  ghost predicate DistinctIds(senders: seq<Sender>) {
    forall i, j | 0 <= i < j < |senders| :: senders[i].id != senders[j].id
  }

  /** Each sender's packets stand in the queue's history in its own order, up to where it is. */
  ghost predicate Inv(senders: seq<Sender>, s: System) {
    && Matches(senders, s) && Conserved(s.channel)
    && forall i | 0 <= i < |senders| :: Own(s.channel.enqueued, senders[i].id) == Script(senders[i])[..s.next[i]]
  }

  lemma OwnAfterPush(c: Channel, p: Packet, id: StreamId)
    ensures Own(AfterPush(c, p).enqueued, id) == Own(c.enqueued, id) + OwnOne(p, id)
  {
    Snoc(c.enqueued, p, id);
  }

  lemma OwnOnly(ps: seq<Packet>, id: StreamId)
    requires Own(ps, id) == ps
    ensures forall k | 0 <= k < |ps| :: OfStream(ps[k], id)
  {
    OwnLength(ps, id);
  }

  lemma {:induction false} OwnLength(ps: seq<Packet>, id: StreamId)
    ensures |Own(ps, id)| <= |ps|
    ensures |Own(ps, id)| == |ps| ==> forall k | 0 <= k < |ps| :: OfStream(ps[k], id)
  {
    if ps != [] {
      OwnLength(ps[..|ps| - 1], id);
      assert ps == ps[..|ps| - 1] + [ps[|ps| - 1]];
    }
  }

  lemma ChannelKeeps(c: Channel, p: Packet, isOpen: bool)
    requires Conserved(c)
    ensures Conserved(AfterPush(c, p)) && Conserved(AfterTake(c)) && Conserved(AfterDeliver(c, isOpen))
  {
    PushConserves(c, p);
    TakeConserves(c);
    DeliverConserves(c, isOpen);
  }

  lemma PushConserves(c: Channel, p: Packet)
    requires Conserved(c)
    ensures Conserved(AfterPush(c, p))
  {
    var before := c.sent + c.lost + InFlight(c);
    assert before + c.queue + [p] == before + (c.queue + [p]);
  }

  lemma DeliverConserves(c: Channel, isOpen: bool)
    requires Conserved(c)
    ensures Conserved(AfterDeliver(c, isOpen))
  {
    if !c.loopDone && c.inFlight.Some? {
      var p := c.inFlight.value;
      assert c.lost == [] && c.sent + c.lost == c.sent;
      var t := AfterDeliver(c, isOpen);
      assert t.sent + t.lost == c.sent + [p];
      assert t.sent + t.lost + InFlight(t) == c.sent + [p];
    }
  }

  lemma TakeConserves(c: Channel)
    requires Conserved(c)
    ensures Conserved(AfterTake(c))
  {
    if c.queue != [] && !c.loopDone && c.inFlight.None? {
      assert c.queue == [c.queue[0]] + c.queue[1..];
      assert c.enqueued == c.sent + c.lost + ([c.queue[0]] + c.queue[1..]);
    }
  }

  lemma PushKeeps(senders: seq<Sender>, s: System, k: nat, i: nat)
    requires DistinctIds(senders) && Inv(senders, s) && k < |senders| && s.next[k] < |Script(senders[k])|
    requires i < |senders|
    ensures var s' := Next(senders, s, Push(k));
            Own(s'.channel.enqueued, senders[i].id) == Script(senders[i])[..s'.next[i]]
  {
    hide Script, Own;
    var p := Script(senders[k])[s.next[k]];
    OwnScript(senders[k], s.next[k]);
    OwnAfterPush(s.channel, p, senders[i].id);
  }

  lemma OwnScript(s: Sender, k: nat)
    requires k < |Script(s)|
    ensures OfStream(Script(s)[k], s.id)
  {
    PacketsCarryPayload(s.kind, s.id, s.data);
    OwnOnly(Script(s), s.id);
  }

  lemma NextKeeps(senders: seq<Sender>, s: System, step: Step)
    requires DistinctIds(senders) && Inv(senders, s)
    ensures Inv(senders, Next(senders, s, step))
  {
    hide Script, Own;
    match step
    case Push(k) =>
      if k < |senders| && s.next[k] < |Script(senders[k])| {
        ChannelKeeps(s.channel, Script(senders[k])[s.next[k]], true);
        forall i | 0 <= i < |senders| {
          PushKeeps(senders, s, k, i);
        }
      }
    case PushSingle(body) =>
      ChannelKeeps(s.channel, Single(body), true);
      forall i | 0 <= i < |senders| {
        OwnAfterPush(s.channel, Single(body), senders[i].id);
      }
    case Take => ChannelKeeps(s.channel, Single([]), true);
    case Deliver(isOpen) => ChannelKeeps(s.channel, Single([]), isOpen);
    case Stop =>
  }

  lemma {:induction false} EveryRunKeeps(senders: seq<Sender>, steps: seq<Step>)
    requires DistinctIds(senders)
    ensures Inv(senders, Run(senders, steps))
  {
    if steps == [] {
      assert Own([], 0) == [];
    } else {
      EveryRunKeeps(senders, steps[..|steps| - 1]);
      NextKeeps(senders, Run(senders, steps[..|steps| - 1]), steps[|steps| - 1]);
    }
  }

  /** For any senders with distinct stream ids and any interleaving of their packets, of other packets and of the
      send loop: what was sent is a prefix of what was enqueued; of every stream the receiver has a prefix of its
      packets; and once it has seen the trailer of a stream it has collected exactly the payload. */
  lemma ReceiverRecoversPayloads(senders: seq<Sender>, steps: seq<Step>, i: nat)
    requires DistinctIds(senders) && i < |senders|
    ensures var c := Run(senders, steps).channel;
            && c.sent <= c.enqueued
            && Own(c.sent, senders[i].id) <= Script(senders[i])
            && Collected(c.sent, senders[i].id) <= senders[i].data
            && (Trailer(senders[i].kind, senders[i].id) in c.sent ==>
                  Own(c.sent, senders[i].id) == Script(senders[i]) &&
                  Collected(c.sent, senders[i].id) == senders[i].data)
  {
    hide Script, Own, Collected, Run;
    var s, me := Run(senders, steps), senders[i];
    var c := s.channel;
    EveryRunKeeps(senders, steps);
    var rest := c.lost + InFlight(c) + c.queue;
    assert c.enqueued == c.sent + rest;
    Appended(c.sent, rest, me.id);
    assert Own(c.sent, me.id) <= Script(me)[..s.next[i]] <= Script(me);
    CollectedFromOwn(c.sent, me.id);
    PrefixCollects(me, Own(c.sent, me.id));
    if Trailer(me.kind, me.id) in c.sent {
      OwnContains(c.sent, me.id, Trailer(me.kind, me.id));
    }
  }

  /** A prefix of a stream's packets collects a prefix of its payload, and all of it when the trailer is there. */
  lemma PrefixCollects(s: Sender, own: seq<Packet>)
    requires own <= Script(s)
    ensures Collected(own, s.id) <= s.data
    ensures Trailer(s.kind, s.id) in own ==> own == Script(s) && Collected(own, s.id) == s.data
  {
    hide Own, Collected;
    var script := Packets(s.kind, s.id, s.data);
    PacketsCarryPayload(s.kind, s.id, s.data);
    assert script == own + script[|own|..];
    Appended(own, script[|own|..], s.id);
  }

  lemma {:induction false} OwnContains(ps: seq<Packet>, id: StreamId, p: Packet)
    requires p in ps && OfStream(p, id)
    ensures p in Own(ps, id)
  {
    if ps[|ps| - 1] != p {
      assert p in ps[..|ps| - 1];
      OwnContains(ps[..|ps| - 1], id, p);
    }
  }

  /** In every run, a loop that has just ended because it was told to stop has delivered the whole payload of every
      stream that was completely pushed. */
  lemma StoppedLoopDeliversWholeStreams(senders: seq<Sender>, steps: seq<Step>, i: nat)
    requires DistinctIds(senders) && i < |senders|
    requires var s := Run(senders, steps);
             !s.channel.loopDone && AfterTake(s.channel).loopDone && |s.next| == |senders| &&
             s.next[i] == |Script(senders[i])|
    ensures var after := AfterTake(Run(senders, steps).channel);
            Own(after.sent, senders[i].id) == Script(senders[i]) &&
            Collected(after.sent, senders[i].id) == senders[i].data
  {
    hide Script, Own, Collected, Run;
    var s, me := Run(senders, steps), senders[i];
    EveryRunKeeps(senders, steps);
    StoppedLoopHasSentAll(s.channel);
    assert Script(me)[..|Script(me)|] == Script(me);
    CollectedFromOwn(AfterTake(s.channel).sent, me.id);
    PacketsCarryPayload(me.kind, me.id, me.data);
    OwnScriptIs(me);
  }

  lemma OwnScriptIs(s: Sender)
    ensures Script(s) == Packets(s.kind, s.id, s.data)
  {
  }

  // ---- an open channel sends everything ----

  lemma RunStep(senders: seq<Sender>, steps: seq<Step>, step: Step)
    ensures Run(senders, steps + [step]) == Next(senders, Run(senders, steps), step)
  {
    assert (steps + [step])[..|steps|] == steps;
  }

  /** As long as the channel is open whenever a packet is handed to it, nothing is lost, and the loop ends only when
      it has been told to stop. */
  lemma {:induction false} OpenChannelLosesNothing(senders: seq<Sender>, steps: seq<Step>)
    requires forall i | 0 <= i < |steps| && steps[i].Deliver? :: steps[i].isOpen
    ensures var c := Run(senders, steps).channel;
            c.lost == [] && (!c.running <==> Stop in steps) && (c.loopDone ==> Stop in steps)
  {
    if steps != [] {
      var before, step := steps[..|steps| - 1], steps[|steps| - 1];
      assert steps == before + [step];
      OpenChannelLosesNothing(senders, before);
      hide Script;
    }
  }

  /** Once a packet was to be handed to a channel that is not open, that packet is lost and nothing is sent any more,
      whatever comes after. */
  lemma {:induction false} ClosedChannelSendsNoMore(senders: seq<Sender>, steps: seq<Step>, more: seq<Step>)
    requires var c := Run(senders, steps).channel; !c.loopDone && c.inFlight.Some?
    ensures var c := Run(senders, steps).channel;
            var d := Run(senders, steps + [Deliver(false)] + more).channel;
            d.loopDone && d.inFlight == None && d.sent == c.sent && d.lost == c.lost + [c.inFlight.value]
    decreases |more|
  {
    hide Script;
    if more == [] {
      assert steps + [Deliver(false)] + more == steps + [Deliver(false)];
      RunStep(senders, steps, Deliver(false));
    } else {
      var before, step := more[..|more| - 1], more[|more| - 1];
      ClosedChannelSendsNoMore(senders, steps, before);
      assert steps + [Deliver(false)] + more == steps + [Deliver(false)] + before + [step];
      RunStep(senders, steps + [Deliver(false)] + before, step);
    }
  }

  /** The loop takes and sends one packet, n times. */
  function Rounds(n: nat): seq<Step> {
    if n == 0 then [] else Rounds(n - 1) + [Take, Deliver(true)]
  }

  lemma TakesAndSends(senders: seq<Sender>, s: System)
    requires !s.channel.loopDone && s.channel.inFlight.None? && s.channel.queue != []
    ensures var t := Next(senders, Next(senders, s, Take), Deliver(true));
            t == s.(channel := s.channel.(sent := s.channel.sent + [s.channel.queue[0]], queue := s.channel.queue[1..]))
  {
  }

  lemma {:induction false} RoundsSend(senders: seq<Sender>, steps: seq<Step>, n: nat)
    requires var c := Run(senders, steps).channel; !c.loopDone && c.inFlight.None? && n <= |c.queue|
    ensures var s := Run(senders, steps);
            Run(senders, steps + Rounds(n)) == s.(channel := s.channel.(sent := s.channel.sent + s.channel.queue[..n],
                                                                       queue := s.channel.queue[n..]))
  {
    var s := Run(senders, steps);
    var q := s.channel.queue;
    hide Next, Run;
    if n == 0 {
      assert steps + Rounds(0) == steps && q[..0] == [] && q[0..] == q && s.channel.sent + [] == s.channel.sent;
    } else {
      RoundsSend(senders, steps, n - 1);
      var before := steps + Rounds(n - 1);
      assert steps + Rounds(n) == before + [Take] + [Deliver(true)];
      RunStep(senders, before, Take);
      RunStep(senders, before + [Take], Deliver(true));
      TakesAndSends(senders, Run(senders, before));
      assert q[..n] == q[..n - 1] + [q[n - 1]] && q[n - 1..][0] == q[n - 1] && q[n - 1..][1..] == q[n..];
      assert s.channel.sent + q[..n - 1] + [q[n - 1]] == s.channel.sent + q[..n];
    }
  }

  /** The steps by which the loop finishes on an open channel: it sends what it has in flight and then everything
      that is queued. */
  function Drain(c: Channel): seq<Step> {
    (if c.inFlight.Some? then [Deliver(true)] else []) + Rounds(|c.queue|)
  }

  /** From every reachable state of a channel that has been open, taking and sending until the queue is empty sends
      everything that was ever enqueued, and the receiver has every completely pushed stream whole. */
  lemma OpenChannelSendsEverything(senders: seq<Sender>, steps: seq<Step>, i: nat)
    requires DistinctIds(senders) && i < |senders| && !Run(senders, steps).channel.loopDone
    ensures var s := Run(senders, steps);
            var d := Run(senders, steps + Drain(s.channel)).channel;
            && d.sent == d.enqueued == s.channel.enqueued && d.queue == [] && d.lost == []
            && (|s.next| == |senders| && s.next[i] == |Script(senders[i])| ==>
                  Collected(d.sent, senders[i].id) == senders[i].data)
  {
    hide Script, Own, Collected, Run, Next;
    var s, me := Run(senders, steps), senders[i];
    EveryRunKeeps(senders, steps);
    var flown := if s.channel.inFlight.Some? then steps + [Deliver(true)] else steps;
    FlightLands(senders, steps, s, flown);
    var t := Run(senders, flown);
    assert steps + Drain(s.channel) == flown + Rounds(|t.channel.queue|);
    RoundsSend(senders, flown, |t.channel.queue|);
    assert t.channel.queue[..|t.channel.queue|] == t.channel.queue;
    var d := Run(senders, steps + Drain(s.channel)).channel;
    assert d.sent == s.channel.sent + InFlight(s.channel) + s.channel.queue;
    assert s.channel.sent + [] == s.channel.sent;
    if |s.next| == |senders| && s.next[i] == |Script(me)| {
      assert Script(me)[..|Script(me)|] == Script(me);
      CollectedFromOwn(d.sent, me.id);
      PacketsCarryPayload(me.kind, me.id, me.data);
      OwnScriptIs(me);
    }
  }

  lemma FlightLands(senders: seq<Sender>, steps: seq<Step>, s: System, flown: seq<Step>)
    requires s == Run(senders, steps) && !s.channel.loopDone
    requires flown == if s.channel.inFlight.Some? then steps + [Deliver(true)] else steps
    ensures Run(senders, flown) ==
            s.(channel := s.channel.(sent := s.channel.sent + InFlight(s.channel), inFlight := None))
  {
    hide Run;
    if s.channel.inFlight.Some? {
      RunStep(senders, steps, Deliver(true));
    } else {
      assert s.channel.sent + [] == s.channel.sent;
    }
  }

  /** Told to stop, the loop sends what is left and then ends. */
  lemma StoppedLoopDrainsAndEnds(senders: seq<Sender>, steps: seq<Step>)
    requires !Run(senders, steps).channel.loopDone
    ensures var stopped := steps + [Stop];
            var d := Run(senders, stopped + Drain(Run(senders, stopped).channel) + [Take]).channel;
            d.loopDone && d.queue == [] && d.inFlight == None
  {
    hide Script, Run;
    var stopped := steps + [Stop];
    RunStep(senders, steps, Stop);
    var s := Run(senders, stopped);
    var flown := if s.channel.inFlight.Some? then stopped + [Deliver(true)] else stopped;
    FlightLands(senders, stopped, s, flown);
    var t := Run(senders, flown);
    RoundsSend(senders, flown, |t.channel.queue|);
    assert stopped + Drain(s.channel) == flown + Rounds(|t.channel.queue|);
    RunStep(senders, stopped + Drain(s.channel), Take);
  }
}
