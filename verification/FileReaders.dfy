/** The two ground tools that read data storage files: `iter_packets` of the housekeeping
    parser and `extract_chunks` of the photo extractor. */
module FileReaders {
  import opened FileFormat

  const HK_COMBINED_PKT1_MID: nat := 0x089C
  const PHOTO_CHUNK_MID: nat := 0x0EC5
  const PAYLOAD_OFFSET: nat := 16 // primary header, time and spare bytes

  /** What a reader delivers before it stops, and whether it stopped by an uncaught `struct.error`. */
  datatype Output<T> = Output(items: seq<T>, crashed: bool)

  datatype Sample = Sample(time: real, payload: Bytes)

  /** Packet time and payload of one packet. */
  function Decode(p: Bytes): Sample
    requires |p| >= 12
  {
    var seconds := 0x1_0000 * Word(p[6], p[7]) + Word(p[8], p[9]);
    var subseconds := Word(p[10], p[11]);
    Sample(seconds as real + subseconds as real / 65536.0, if |p| >= PAYLOAD_OFFSET then p[PAYLOAD_OFFSET..] else [])
  }

  /** The time is unpacked before the stream ID is looked at, so any packet under 12 bytes is fatal. */
  function Samples(ps: seq<Bytes>): Output<Sample> {
    if ps == [] then Output([], false)
    else if |ps[0]| < 12 then Output([], true)
    else
      var rest := Samples(ps[1..]);
      if StreamId(ps[0]) != HK_COMBINED_PKT1_MID then rest
      else Output([Decode(ps[0])] + rest.items, rest.crashed)
  }

  /** The chunk of one photo packet, at most as long as the packet. */
  function ChunkOf(p: Bytes): Bytes
    requires |p| >= PAYLOAD_OFFSET + 2
  {
    var length, data := Word(p[17], p[16]), p[PAYLOAD_OFFSET + 2..];
    if length <= |data| then data[..length] else data
  }

  function Chunks(ps: seq<Bytes>): Output<Bytes> {
    if ps == [] then Output([], false)
    else if |ps[0]| < 6 || StreamId(ps[0]) != PHOTO_CHUNK_MID then Chunks(ps[1..])
    else if |ps[0]| < PAYLOAD_OFFSET + 2 then Output([], true)
    else
      var rest := Chunks(ps[1..]);
      Output([ChunkOf(ps[0])] + rest.items, rest.crashed)
  }

  // ----- The loops

  /** `f.read(n)` at cursor `pos`. */
  function ReadAt(data: Bytes, pos: nat, n: nat): Bytes
    requires pos <= |data|
  {
    if pos + n <= |data| then data[pos..pos + n] else data[pos..]
  }

  /** One round of either loop: what the two reads deliver is the next frame, or the data ends. */
  lemma NextFrame(data: Bytes, pos: nat)
    requires pos <= |data|
    ensures var header := ReadAt(data, pos, 6);
            if |header| < 6 then Frames(data[pos..]) == []
            else
              var total := FrameLength(header);
              && total >= 7
              && var rest := ReadAt(data, pos + 6, total - 6);
                 if |rest| < total - 6 then Frames(data[pos..]) == []
                 else pos + total <= |data| && Frames(data[pos..]) == [header + rest] + Frames(data[pos + total..])
  {
    var tail := data[pos..];
    if |tail| >= 6 {
      assert ReadAt(data, pos, 6) == tail[..6];
      var total := FrameLength(tail);
      if |tail| >= total {
        assert tail[..total] == tail[..6] + tail[6..total] && tail[6..total] == data[pos + 6..pos + total];
        assert tail[total..] == data[pos + total..];
      }
    }
  }

  /** What was delivered so far, followed by what is still to come. */
  function Then<T>(items: seq<T>, rest: Output<T>): Output<T> {
    Output(items + rest.items, rest.crashed)
  }

  lemma ThenOne<T>(items: seq<T>, item: T, rest: Output<T>)
    ensures Then(items, Then([item], rest)) == Then(items + [item], rest)
  {
    assert items + ([item] + rest.items) == items + [item] + rest.items;
  }

  lemma ThenStop<T>(items: seq<T>, crashed: bool)
    ensures Then(items, Output([], crashed)) == Output(items, crashed)
  {
    assert items + [] == items;
  }

  lemma SamplesStep(frame: Bytes, rest: seq<Bytes>)
    requires |frame| >= 12
    ensures Samples([frame] + rest) ==
            Then(if StreamId(frame) == HK_COMBINED_PKT1_MID then [Decode(frame)] else [], Samples(rest))
  {
    assert ([frame] + rest)[1..] == rest;
    assert [] + Samples(rest).items == Samples(rest).items;
  }

  lemma ChunksStep(frame: Bytes, rest: seq<Bytes>)
    requires |frame| >= 7 && (StreamId(frame) == PHOTO_CHUNK_MID ==> |frame| >= PAYLOAD_OFFSET + 2)
    ensures Chunks([frame] + rest) ==
            Then(if StreamId(frame) == PHOTO_CHUNK_MID then [ChunkOf(frame)] else [], Chunks(rest))
  {
    assert ([frame] + rest)[1..] == rest;
    assert [] + Chunks(rest).items == Chunks(rest).items;
  }

  /** The two reads at the head of either loop; false where the data ends, cleanly or inside a packet. */
  method ReadFrame(data: Bytes, pos: nat) returns (ok: bool, frame: Bytes)
    requires pos <= |data|
    ensures !ok ==> Frames(data[pos..]) == []
    ensures ok ==>
              && Framed(frame) && pos + |frame| <= |data|
              && Frames(data[pos..]) == [frame] + Frames(data[pos + |frame|..])
  {
    NextFrame(data, pos);
    var header := ReadAt(data, pos, 6);
    if |header| != 6 {
      return false, [];
    }
    var total := FrameLength(header);
    var rest := ReadAt(data, pos + 6, total - 6);
    if |rest| != total - 6 {
      return false, [];
    }
    return true, header + rest;
  }

  lemma NoFrames()
    ensures Samples([]) == Output([], false) && Chunks([]) == Output([], false)
  {
  }

  /** A frame that the readers cannot unpack ends the reading. */
  lemma CrashStep(frame: Bytes, rest: seq<Bytes>)
    requires |frame| >= 6
    ensures |frame| < 12 ==> Samples([frame] + rest) == Output([], true)
    ensures StreamId(frame) == PHOTO_CHUNK_MID && |frame| < PAYLOAD_OFFSET + 2 ==>
        Chunks([frame] + rest) == Output([], true)
  {
  }

  /** `iter_packets` from the first packet on. */
  method IterPackets(data: Bytes) returns (out: Output<Sample>)
    ensures out == Samples(Frames(data))
  {
    hide Frames, Samples, Chunks;
    var pos, items := 0, [];
    NoFrames();
    assert data[0..] == data;
    while true
      invariant pos <= |data| && Samples(Frames(data)) == Then(items, Samples(Frames(data[pos..])))
      decreases |data| - pos
    {
      var ok, frame := ReadFrame(data, pos);
      if !ok {
        ThenStop(items, false);
        return Output(items, false);
      }
      if |frame[6..]| < 6 {
        CrashStep(frame, Frames(data[pos + |frame|..]));
        ThenStop(items, true);
        return Output(items, true);
      }
      SamplesStep(frame, Frames(data[pos + |frame|..]));
      if StreamId(frame) == HK_COMBINED_PKT1_MID {
        ThenOne(items, Decode(frame), Samples(Frames(data[pos + |frame|..])));
        items := items + [Decode(frame)];
      }
      pos := pos + |frame|;
    }
  }

  lemma ChunkRead(frame: Bytes, payload: Bytes)
    requires |frame| >= PAYLOAD_OFFSET + 2 && payload == frame[PAYLOAD_OFFSET..]
    ensures ReadAt(payload, 2, Word(payload[1], payload[0])) == ChunkOf(frame)
  {
    assert payload[2..] == frame[PAYLOAD_OFFSET + 2..];
  }

  /** `extract_chunks` from the first packet on. */
  method ExtractChunks(data: Bytes) returns (out: Output<Bytes>)
    ensures out == Chunks(Frames(data))
  {
    hide Frames, Samples, Chunks;
    var pos, items := 0, [];
    NoFrames();
    assert data[0..] == data;
    while true
      invariant pos <= |data| && Chunks(Frames(data)) == Then(items, Chunks(Frames(data[pos..])))
      decreases |data| - pos
    {
      var ok, frame := ReadFrame(data, pos);
      if !ok {
        ThenStop(items, false);
        return Output(items, false);
      }
      if StreamId(frame) == PHOTO_CHUNK_MID {
        var payload := if |frame| >= PAYLOAD_OFFSET then frame[PAYLOAD_OFFSET..] else [];
        if |payload| < 2 {
          CrashStep(frame, Frames(data[pos + |frame|..]));
          ThenStop(items, true);
          return Output(items, true);
        }
        var chunk := ReadAt(payload, 2, Word(payload[1], payload[0]));
        ChunkRead(frame, payload);
        ThenOne(items, chunk, Chunks(Frames(data[pos + |frame|..])));
        items := items + [chunk];
      }
      ChunksStep(frame, Frames(data[pos + |frame|..]));
      pos := pos + |frame|;
    }
  }

  // ----- What the readers recover

  /** The fields of a telemetry packet: primary header, time, spare bytes and payload. A packet may end inside its
      spare bytes. */
  datatype Telemetry = Telemetry(id: nat, sequence: nat, seconds: nat, subseconds: nat, spare: Bytes, payload: Bytes)

  predicate Fits(t: Telemetry) {
    && t.id < 0x1_0000 && t.sequence < 0x1_0000 && t.seconds < 0x1_0000_0000 && t.subseconds < 0x1_0000
    && (|t.spare| == 4 || (|t.spare| < 4 && t.payload == []))
    && |t.spare| + |t.payload| <= 65530
  }

  /** The packet with these fields, as it is sent. */
  function Encode(t: Telemetry): Bytes {
    Big16(t.id) + Big16(t.sequence) + Big16(5 + |t.spare| + |t.payload|) + Big32(t.seconds) + Big16(t.subseconds)
    + t.spare + t.payload
  }

  /** An encoded packet frames itself, and its stream ID, time and payload are read back. */
  lemma DecodeBack(t: Telemetry)
    requires Fits(t)
    ensures var p := Encode(t);
            && Framed(p) && |p| >= 12 && StreamId(p) == t.id
            && Decode(p) == Sample(t.seconds as real + t.subseconds as real / 65536.0, t.payload)
  {
    var p := Encode(t);
    HalfBack(t.id);
    HalfBack(5 + |t.spare| + |t.payload|);
    HalfBack(t.seconds / 0x1_0000);
    HalfBack(t.seconds % 0x1_0000);
    HalfBack(t.subseconds);
    if |p| >= PAYLOAD_OFFSET {
      assert p[PAYLOAD_OFFSET..] == t.payload;
    }
  }

  lemma WordSplits(b: Bytes, at: nat)
    requires at + 2 <= |b|
    ensures 0 <= Word(b[at], b[at + 1]) < 0x1_0000 && Big16(Word(b[at], b[at + 1])) == b[at..at + 2]
  {
  }

  lemma LongSplits(b: Bytes, at: nat)
    requires at + 4 <= |b|
    ensures 0 <= Big32At(b, at) < 0x1_0000_0000 && Big32(Big32At(b, at)) == b[at..at + 4]
  {
    hide Big16;
    WordSplits(b, at);
    WordSplits(b, at + 2);
    var n := Big32At(b, at);
    assert n / 0x1_0000 == Word(b[at], b[at + 1]) && n % 0x1_0000 == Word(b[at + 2], b[at + 3]) by { hide Big32; }
    assert b[at..at + 4] == b[at..at + 2] + b[at + 2..at + 4];
  }

  /** Every packet of 12 bytes or more has such fields. */
  lemma EveryPacketEncodes(p: Bytes) returns (t: Telemetry)
    requires Framed(p) && |p| >= 12
    ensures Fits(t) && Encode(t) == p
  {
    hide Word, Big16, Big32, Big32At;
    WordSplits(p, 0);
    WordSplits(p, 2);
    WordSplits(p, 4);
    LongSplits(p, 6);
    WordSplits(p, 10);
    t := Telemetry(Word(p[0], p[1]), Word(p[2], p[3]), Big32At(p, 6), Word(p[10], p[11]),
                   if |p| < PAYLOAD_OFFSET then p[12..] else p[12..PAYLOAD_OFFSET],
                   if |p| < PAYLOAD_OFFSET then [] else p[PAYLOAD_OFFSET..]);
    assert |t.spare| + |t.payload| == |p| - 12;
    assert p == p[0..2] + p[2..4] + p[4..6] + p[6..10] + p[10..12] + t.spare + t.payload;
  }

  function EncodeAll(ts: seq<Telemetry>): (ps: seq<Bytes>)
    ensures |ps| == |ts| && forall k | 0 <= k < |ts| :: ps[k] == Encode(ts[k])
  {
    seq(|ts|, k requires 0 <= k < |ts| => Encode(ts[k]))
  }

  predicate AllFit(ts: seq<Telemetry>) {
    forall t | t in ts :: Fits(t)
  }

  /** Time and payload of the packets with the housekeeping ID, in order. */
  function Wanted(ts: seq<Telemetry>): seq<Sample> {
    if ts == [] then []
    else
      var t := ts[0];
      (if t.id == 0x089C then [Sample(t.seconds as real + t.subseconds as real / 65536.0, t.payload)] else [])
      + Wanted(ts[1..])
  }

  lemma {:induction false} SamplesAre(ts: seq<Telemetry>, more: seq<Bytes>)
    requires AllFit(ts) && (more == [] || |more[0]| < 12)
    ensures Samples(EncodeAll(ts) + more) == Output(Wanted(ts), more != [])
  {
    hide Encode, Decode, Fits;
    if ts == [] {
      assert EncodeAll(ts) + more == more;
    } else {
      assert EncodeAll(ts) + more == [Encode(ts[0])] + (EncodeAll(ts[1..]) + more);
      DecodeBack(ts[0]);
      SamplesStep(Encode(ts[0]), EncodeAll(ts[1..]) + more);
      SamplesAre(ts[1..], more);
    }
  }

  /** The housekeeping reader on a file of packets, with or without part of another at the end: it delivers time and
      payload of the packets with its ID, exactly and in order, up to the first complete packet under 12 bytes, which ends
      it with an uncaught error. */
  lemma ReadBack(ts: seq<Telemetry>, more: seq<Bytes>, tail: Bytes)
    requires AllFit(ts) && AllFramed(more) && (more == [] || |more[0]| < 12) && Partial(tail)
    ensures Samples(Frames(Flatten(EncodeAll(ts) + more) + tail)) == Output(Wanted(ts), more != [])
  {
    hide Encode, Decode, Fits, Framed;
    var ps := EncodeAll(ts) + more;
    forall p | p in ps ensures Framed(p) {
      if p !in more {
        var k :| 0 <= k < |ts| && p == Encode(ts[k]);
        DecodeBack(ts[k]);
      }
    }
    FramesOfFlatten(ps, tail);
    SamplesAre(ts, more);
  }

  /** Every list of packets that DS stores is of that form. */
  lemma {:induction false} EveryListEncodes(ps: seq<Bytes>) returns (ts: seq<Telemetry>, more: seq<Bytes>)
    requires AllFramed(ps)
    ensures AllFit(ts) && ps == EncodeAll(ts) + more && AllFramed(more) && (more == [] || |more[0]| < 12)
  {
    hide Encode, Fits, Framed;
    if ps == [] || |ps[0]| < 12 {
      ts, more := [], ps;
      assert EncodeAll(ts) == [];
    } else {
      assert ps[0] in ps && AllFramed(ps[1..]);
      var t := EveryPacketEncodes(ps[0]);
      ts, more := EveryListEncodes(ps[1..]);
      assert ps == [ps[0]] + ps[1..];
      assert EncodeAll([t] + ts) == [ps[0]] + EncodeAll(ts);
      ts := [t] + ts;
    }
  }

  /** A photo packet under 18 bytes has no chunk length. */
  predicate LacksLength(p: Bytes)
  {
    |p| >= 6 && StreamId(p) == PHOTO_CHUNK_MID && |p| < PAYLOAD_OFFSET + 2
  }

  /** How many packets come before the first photo packet without a chunk length. */
  function SoundOnes(ps: seq<Bytes>): (n: nat)
    ensures n <= |ps| && (forall j | 0 <= j < n :: !LacksLength(ps[j])) && (n < |ps| ==> LacksLength(ps[n]))
  {
    if ps == [] || LacksLength(ps[0]) then 0 else 1 + SoundOnes(ps[1..])
  }

  /** The chunks of the photo packets, in order. */
  function PhotoChunks(ps: seq<Bytes>): seq<Bytes>
  {
    if ps == [] then []
    else (if |ps[0]| >= PAYLOAD_OFFSET + 2 && StreamId(ps[0]) == PHOTO_CHUNK_MID then [ChunkOf(ps[0])] else [])
         + PhotoChunks(ps[1..])
  }

  /** A photo packet that announces `n` bytes yields the first `n` bytes behind the announcement, or all if there are
      fewer. */
  lemma ChunkIs(front: Bytes, n: nat, data: Bytes)
    requires |front| == 16 && n < 0x1_0000
    ensures var chunk := ChunkOf(front + Little16(n) + data);
            chunk <= data && |chunk| == if n <= |data| then n else |data|
  {
    var p := front + Little16(n) + data;
    HalfBack(n);
    assert p[PAYLOAD_OFFSET + 2..] == data;
  }

  lemma {:induction false} ChunksExactly(ps: seq<Bytes>)
    ensures Chunks(ps) == Output(PhotoChunks(ps[..SoundOnes(ps)]), SoundOnes(ps) < |ps|)
  {
    if ps != [] && !LacksLength(ps[0]) {
      ChunksExactly(ps[1..]);
      assert ps[..SoundOnes(ps)][1..] == ps[1..][..SoundOnes(ps[1..])];
    }
  }

  /** The photo extractor on packets as DS stores them, with or without a partial packet at the end: it delivers the
      chunks of the photo packets exactly, in order, up to the first complete photo packet under 18 bytes, which ends it
      with an uncaught error. */
  lemma ExtractBack(ps: seq<Bytes>, tail: Bytes)
    requires AllFramed(ps) && Partial(tail)
    ensures var out := Chunks(Frames(Flatten(ps) + tail));
            && (out.crashed <==> exists p :: p in ps && StreamId(p) == PHOTO_CHUNK_MID && |p| < PAYLOAD_OFFSET + 2)
            && out.items == PhotoChunks(ps[..SoundOnes(ps)])
            && (!out.crashed ==> out.items == PhotoChunks(ps))
  {
    FramesOfFlatten(ps, tail);
    ChunksExactly(ps);
    assert ps[..|ps|] == ps;
    var n := SoundOnes(ps);
    assert n < |ps| ==> ps[n] in ps && Framed(ps[n]);
  }

  lemma {:induction false} MoreFramesMoreSamples(ps: seq<Bytes>, qs: seq<Bytes>)
    ensures Samples(ps).items <= Samples(ps + qs).items
  {
    if ps != [] {
      MoreFramesMoreSamples(ps[1..], qs);
      assert (ps + qs)[1..] == ps[1..] + qs;
    }
  }

  lemma {:induction false} MoreFramesMoreChunks(ps: seq<Bytes>, qs: seq<Bytes>)
    ensures Chunks(ps).items <= Chunks(ps + qs).items
  {
    if ps != [] {
      MoreFramesMoreChunks(ps[1..], qs);
      assert (ps + qs)[1..] == ps[1..] + qs;
    }
  }

  /** A file cut anywhere behind the headers yields a prefix of what the whole file yields. */
  lemma CutYieldsPrefix(ps: seq<Bytes>, k: nat)
    requires AllFramed(ps) && k <= |Flatten(ps)|
    ensures Samples(Frames(Flatten(ps)[..k])).items <= Samples(Frames(Flatten(ps))).items
    ensures Chunks(Frames(Flatten(ps)[..k])).items <= Chunks(Frames(Flatten(ps))).items
  {
    var j, tail := CutIsPrefix(ps, k);
    assert AllFramed(ps[..j]);
    FramesOfFlatten(ps[..j], tail);
    EmptyIsPartial();
    FramesOfFlatten(ps, []);
    assert Flatten(ps) + [] == Flatten(ps);
    MoreFramesMoreSamples(ps[..j], ps[j..]);
    MoreFramesMoreChunks(ps[..j], ps[j..]);
    assert ps[..j] + ps[j..] == ps;
  }

  /** Packet `p` is a photo packet that carries chunk `c`, possibly padded. */
  ghost predicate Carries(p: Bytes, c: Bytes) {
    && Framed(p) && |p| >= PAYLOAD_OFFSET + 2 + |c|
    && StreamId(p) == PHOTO_CHUNK_MID
    && Word(p[17], p[16]) == |c|
    && p[PAYLOAD_OFFSET + 2..PAYLOAD_OFFSET + 2 + |c|] == c
  }

  /** The photo packets among `ps` carry the chunks `cs`, in order. */
  ghost predicate CarriesAll(ps: seq<Bytes>, cs: seq<Bytes>) {
    if ps == [] then cs == []
    else if Framed(ps[0]) && StreamId(ps[0]) != PHOTO_CHUNK_MID then CarriesAll(ps[1..], cs)
    else cs != [] && Carries(ps[0], cs[0]) && CarriesAll(ps[1..], cs[1..])
  }

  lemma {:induction false} ChunksAre(ps: seq<Bytes>, cs: seq<Bytes>)
    requires CarriesAll(ps, cs)
    ensures Chunks(ps) == Output(cs, false) && AllFramed(ps)
  {
    if ps != [] {
      if StreamId(ps[0]) != PHOTO_CHUNK_MID {
        ChunksAre(ps[1..], cs);
      } else {
        ChunksAre(ps[1..], cs[1..]);
        var p := ps[0];
        assert p[PAYLOAD_OFFSET + 2..][..|cs[0]|] == p[PAYLOAD_OFFSET + 2..PAYLOAD_OFFSET + 2 + |cs[0]|];
        assert ChunkOf(p) == cs[0];
      }
      assert ps == [ps[0]] + ps[1..];
    }
  }

  /** However an image is cut into chunks, and whatever other packets lie between them,
      the extractor puts the image together again. */
  lemma PhotoReassembled(image: Bytes, cs: seq<Bytes>, ps: seq<Bytes>, tail: Bytes)
    requires Flatten(cs) == image && CarriesAll(ps, cs) && Partial(tail)
    ensures var out := Chunks(Frames(Flatten(ps) + tail));
            !out.crashed && Flatten(out.items) == image
  {
    ChunksAre(ps, cs);
    FramesOfFlatten(ps, tail);
  }
}
