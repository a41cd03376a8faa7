/** The socket module in its own imperative form: a stream that delivers its bytes in arbitrary short
    reads, `read_exact`, `read_frames`, `write_hello` and `accept_one`. */
module Socket {
  import opened Words
  import opened Wire

  /** How a `read_exact` ends. */
  datatype ReadEnd = Filled | Ended | Broken

  /** A connected stream. `incoming` is everything that is still to be read before end-of-file, or before
      an error if the stream is `broken`; `grain` decides how many bytes each successive `read` delivers at
      most. */
  class UnixStream {
    var incoming: seq<Byte>
    var outgoing: seq<Byte>
    var shut: bool
    var readCount: nat
    const grain: nat -> nat
    const broken: bool

    constructor (bytes: seq<Byte>, grain: nat -> nat, broken: bool)
      ensures incoming == bytes && outgoing == [] && !shut && this.grain == grain && this.broken == broken
    {
      incoming, outgoing, shut, readCount, this.grain, this.broken := bytes, [], false, 0, grain, broken;
    }

    /** `read(2)`: at least one byte unless the stream has ended, possibly fewer than asked for. */
    method Read(buffer: array<Byte>, offset: nat) returns (n: nat, failed: bool)
      requires offset < buffer.Length
      modifies this`incoming, this`readCount, buffer
      ensures n <= |old(incoming)| && offset + n <= buffer.Length
      ensures n == 0 <==> old(incoming) == []
      ensures failed <==> old(incoming) == [] && broken
      ensures buffer[..] == old(buffer[..offset]) + old(incoming)[..n] + old(buffer[offset..])[n..]
      ensures incoming == old(incoming)[n..]
    {
      failed := broken && |incoming| == 0;
      n := Min(1 + grain(readCount), Min(buffer.Length - offset, |incoming|));
      readCount := readCount + 1;
      forall k | 0 <= k < n {
        buffer[offset + k] := incoming[k];
      }
      incoming := incoming[n..];
    }

    /** `read_exact`: fills the buffer from as many reads as it takes, or meets end-of-file or an error. */
    method ReadExact(buffer: array<Byte>) returns (end: ReadEnd)
      modifies this`incoming, this`readCount, buffer
      ensures end == if buffer.Length <= |old(incoming)| then Filled else if broken then Broken else Ended
      ensures end == Filled ==>
              buffer[..] == old(incoming)[..buffer.Length] && incoming == old(incoming)[buffer.Length..]
      ensures end != Filled ==> incoming == []
    {
      ghost var all := incoming;
      var filled := 0;
      while filled < buffer.Length
        invariant 0 <= filled <= buffer.Length && filled <= |all|
        invariant buffer[..filled] == all[..filled]
        invariant incoming == all[filled..]
        decreases |incoming|, buffer.Length - filled
      {
        ghost var before := buffer[..filled];
        var n, failed := Read(buffer, filled);
        if failed {
          return Broken;
        }
        if n == 0 {
          return Ended;
        }
        assert buffer[..filled + n] == before + all[filled..][..n];
        assert all[..filled + n] == all[..filled] + all[filled..][..n];
        filled := filled + n;
      }
      return Filled;
    }
  }

  /** The state shared between the server threads and the locker. */
  class SocketState {
    var latest: Option<Frame>
    var geometry: Geometry
    var activeGen: nat
    var activeStream: UnixStream?

    constructor ()
      ensures latest == None && geometry == Geometry(0, 0, 0) && activeGen == 0 && activeStream == null
    {
      latest, geometry, activeGen, activeStream := None, Geometry(0, 0, 0), 0, null;
    }

    method SetGeometry(width: U32, height: U32, scale: U32)
      modifies this`geometry
      ensures geometry == Geometry(width, height, scale)
    {
      geometry := Geometry(width, height, scale);
    }

    /** One accepted connection, undisturbed: the previous client is shut down, the new one greeted
        with the kiosk geometry, and its handler's generation handed out unless HELLO or the clone
        failed. `cloned` is whether `try_clone` succeeds. */
    method AcceptOne(stream: UnixStream, writable: bool, cloned: bool) returns (handler: Option<nat>)
      requires stream != activeStream && !stream.shut && stream.outgoing == []
      modifies this`activeGen, this`activeStream, stream`outgoing,
               (if activeStream == null then {} else {activeStream})`shut
      ensures activeGen == old(activeGen) + 1
      ensures old(activeStream) != null ==> old(activeStream).shut
      ensures !stream.shut
      ensures writable ==> ReadHello(stream.outgoing) == Some(geometry)
      ensures handler == if writable && cloned then Some(activeGen) else None
      ensures activeStream == if writable && cloned then stream else null
    {
      activeGen := activeGen + 1;
      var myGen := activeGen;
      var previous := activeStream;
      activeStream := null;
      if previous != null {
        previous.shut := true;
      }
      var Geometry(w, h, scale) := geometry;
      var greeted := WriteHello(stream, writable, w, h, scale);
      if !greeted {
        return None;
      }
      if !cloned {
        return None;
      }
      activeStream := stream;
      return Some(myGen);
    }
  }

  method WriteHello(stream: UnixStream, writable: bool, width: U32, height: U32, scale: U32) returns (ok: bool)
    requires stream.outgoing == []
    modifies stream`outgoing
    ensures ok == writable
    ensures ok ==> stream.outgoing == HelloBytes(Geometry(width, height, scale))
    ensures ok ==> ReadHello(stream.outgoing) == Some(Geometry(width, height, scale))
    ensures ok ==>
              var bytes := stream.outgoing;
              && |bytes| == 20 && (forall i :: 0 <= i < 8 ==> bytes[i] == "NIXLOCK1"[i] as int)
              && width == Number(bytes[8], bytes[9], bytes[10], bytes[11])
              && height == Number(bytes[12], bytes[13], bytes[14], bytes[15])
              && scale == Number(bytes[16], bytes[17], bytes[18], bytes[19])
    ensures !ok ==> stream.outgoing == []
  {
    var buf := MAGIC;
    buf := buf + ToLe(width);
    buf := buf + ToLe(height);
    buf := buf + ToLe(scale);
    HelloRoundTrip(Geometry(width, height, scale));
    LeastSignificantFirst(width);
    LeastSignificantFirst(height);
    LeastSignificantFirst(scale);
    if !writable {
      return false;
    }
    stream.outgoing := buf;
    return true;
  }

  // ---- read_frames ----

  /** What the other threads make one pass of the loop see: the value of `active_gen` at its head and
      the kiosk geometry once the payload is in. */
  datatype Glimpse = Glimpse(generation: nat, geometry: Geometry)

  /** The frames a handler of generation `gen` accepts, reading `fs` from pass `k` on. */
  function Accepted(fs: seq<Frame>, sees: nat -> Glimpse, gen: nat, k: nat): seq<Frame>
    decreases |fs|
  {
    if fs == [] || sees(k).generation != gen then []
    else (if Matches(fs[0], sees(k).geometry) then [fs[0]] else []) + Accepted(fs[1..], sees, gen, k + 1)
  }

  /** The loop sees its own generation at the head of the first `n` passes, and at no later one. */
  predicate LastsFor(n: nat, sees: nat -> Glimpse, gen: nat, available: nat) {
    && n <= available
    && (forall k :: 0 <= k < n ==> sees(k).generation == gen)
    && (n < available ==> sees(n).generation != gen)
  }

  function SizesMet(sees: nat -> Glimpse, n: nat): (sizes: seq<Geometry>)
    ensures |sizes| == n && forall k :: 0 <= k < n ==> sizes[k] == sees(k).geometry
  {
    seq(n, k requires 0 <= k => sees(k).geometry)
  }

  lemma {:induction false} AcceptedFrom(fs: seq<Frame>, sees: nat -> Glimpse, gen: nat, k: nat, n: nat)
    requires n <= |fs| && (forall j :: k <= j < k + n ==> sees(j).generation == gen)
    ensures Accepted(fs, sees, gen, k) == Accepted(fs[..n], sees, gen, k) + Accepted(fs[n..], sees, gen, k + n)
  {
    if n == 0 {
      assert fs[0..] == fs;
    } else {
      AcceptedFrom(fs[1..], sees, gen, k + 1, n - 1);
      assert fs[..n][1..] == fs[1..][..n - 1] && fs[n..] == fs[1..][n - 1..];
      AppendAssociates(if Matches(fs[0], sees(k).geometry) then [fs[0]] else [],
                       Accepted(fs[..n][1..], sees, gen, k + 1), Accepted(fs[n..], sees, gen, k + n));
    }
  }

  lemma {:induction false} AcceptedTakesBySize(fs: seq<Frame>, sees: nat -> Glimpse, gen: nat)
    requires forall j :: 0 <= j < |fs| ==> sees(j).generation == gen
    ensures TakenBySize(fs, SizesMet(sees, |fs|), Accepted(fs, sees, gen, 0))
  {
    if fs == [] {
      NothingTaken();
    } else {
      var n := |fs| - 1;
      var before, last, sizes := fs[..n], fs[n], SizesMet(sees, n);
      assert fs == before + [last] && fs[n..] == [last] && [last][1..] == [];
      AcceptedFrom(fs, sees, gen, 0, n);
      AcceptedTakesBySize(before, sees, gen);
      TakenStep(before, sizes, Accepted(before, sees, gen, 0), last, sees(n).geometry);
      assert SizesMet(sees, |fs|) == sizes + [sees(n).geometry];
      assert sees(n).generation == gen && Accepted([], sees, gen, n + 1) == [];
      assert Accepted([last], sees, gen, n) == if Matches(last, sees(n).geometry) then [last] else [];
    }
  }

  /** What the loop accepts, over sizes: of the frames it gets to before another generation shows, exactly those
      whose width and height are those of the kiosk geometry seen in their pass. */
  lemma AcceptedBySize(fs: seq<Frame>, sees: nat -> Glimpse, gen: nat, n: nat)
    requires LastsFor(n, sees, gen, |fs|)
    ensures TakenBySize(fs[..n], SizesMet(sees, n), Accepted(fs, sees, gen, 0))
  {
    AcceptedFrom(fs, sees, gen, 0, n);
    AcceptedTakesBySize(fs[..n], sees, gen);
    assert Accepted(fs[n..], sees, gen, n) == [];
    assert Accepted(fs[..n], sees, gen, 0) + [] == Accepted(fs[..n], sees, gen, 0);
  }

  function Writes(fs: seq<Frame>): seq<Option<Frame>> {
    seq(|fs|, i requires 0 <= i < |fs| => Some(fs[i]))
  }

  lemma NothingWritten()
    ensures Writes([]) == []
  {
  }

  lemma WritesAppend(fs: seq<Frame>, f: Frame)
    ensures Writes(fs + [f]) == Writes(fs) + [Some(f)]
  {
  }

  /** One pass of the loop, on the specification. */
  lemma AcceptedStep(bytes: seq<Byte>, sees: nat -> Glimpse, gen: nat, k: nat)
    ensures sees(k).generation != gen || FirstFrame(bytes) == None ==> Accepted(Frames(bytes), sees, gen, k) == []
    ensures sees(k).generation == gen && FirstFrame(bytes).Some? ==>
              var f := FirstFrame(bytes).value;
              var later := Accepted(Frames(bytes[FrameLength(f)..]), sees, gen, k + 1);
              Accepted(Frames(bytes), sees, gen, k) == if Matches(f, sees(k).geometry) then [f] + later else later
  {
    if FirstFrame(bytes).Some? {
      var f := FirstFrame(bytes).value;
      assert Frames(bytes)[1..] == Frames(bytes[FrameLength(f)..]);
    }
  }

  /** One pass's reads: a header, its size check, and a payload of exactly that size. `None` is every
      way out of the loop that the stream itself decides. */
  method ReadFrame(stream: UnixStream, header: array<Byte>, usizeMax: nat) returns (frame: Option<Frame>)
    requires header.Length == 8
    requires usizeMax == U32_MAX || usizeMax == U64_MAX
    modifies stream`incoming, stream`readCount, header
    ensures frame == FirstFrame(old(stream.incoming))
    ensures frame.Some? ==> stream.incoming == old(stream.incoming)[FrameLength(frame.value)..]
    ensures frame.Some? ==> |stream.incoming| < |old(stream.incoming)|
  {
    ghost var before := stream.incoming;
    var end := stream.ReadExact(header);
    if end != Filled {
      return None;
    }
    assert header[0..4] == before[..4] && header[4..8] == before[4..8];
    var width, height := FromLe(header[0..4]), FromLe(header[4..8]);
    var size := SaturatedSize(width, height, usizeMax);
    SizeCheckIsExact(width, height, usizeMax);
    if size == 0 || size > MAX_FRAME_BYTES {
      return None;
    }
    var payload := new Byte[size](_ => 0);
    end := stream.ReadExact(payload);
    if end != Filled {
      return None;
    }
    assert payload[..] == before[8..8 + size];
    return Some(Frame(width, height, payload[..]));
  }

  /** The handler loop against any behaviour of the other threads. The writes it makes to `latest`,
      in order, depend on the bytes of the stream and on what it saw, never on how the bytes were cut
      into reads; a frame that is skipped takes exactly its own bytes with it. */
  method ReadFrames(stream: UnixStream, myGen: nat, state: SocketState, sees: nat -> Glimpse, genAtExit: nat,
                    usizeMax: nat)
    returns (writes: seq<Option<Frame>>)
    requires usizeMax == U32_MAX || usizeMax == U64_MAX
    modifies stream`incoming, stream`readCount, state`latest
    ensures writes == Writes(Accepted(Frames(old(stream.incoming)), sees, myGen, 0))
                      + if genAtExit == myGen then [None] else []
    ensures forall n: nat :: LastsFor(n, sees, myGen, |Frames(old(stream.incoming))|) ==>
              TakenBySize(Frames(old(stream.incoming))[..n], SizesMet(sees, n),
                          Accepted(Frames(old(stream.incoming)), sees, myGen, 0))
    ensures state.latest == if writes == [] then old(state.latest) else writes[|writes| - 1]
  {
    hide Accepted, Frames, FirstFrame, Writes, WellFormed, TakenBySize;
    ghost var accepted: seq<Frame> := [];
    ghost var all := Accepted(Frames(stream.incoming), sees, myGen, 0);
    forall n: nat | LastsFor(n, sees, myGen, |Frames(stream.incoming)|)
      ensures TakenBySize(Frames(stream.incoming)[..n], SizesMet(sees, n), all)
    {
      AcceptedBySize(Frames(stream.incoming), sees, myGen, n);
    }
    NothingWritten();
    var header := new Byte[8](_ => 0);
    writes := [];
    var k := 0;
    while true
      invariant fresh(header) && header.Length == 8
      invariant all == accepted + Accepted(Frames(stream.incoming), sees, myGen, k)
      invariant writes == Writes(accepted)
      invariant state.latest == if writes == [] then old(state.latest) else writes[|writes| - 1]
      decreases |stream.incoming|
    {
      AcceptedStep(stream.incoming, sees, myGen, k);
      if sees(k).generation != myGen {
        assert all == accepted;
        break;
      }
      var frame := ReadFrame(stream, header, usizeMax);
      if frame.None? {
        assert all == accepted;
        break;
      }
      ghost var later := Accepted(Frames(stream.incoming), sees, myGen, k + 1);
      var f := frame.value;
      var seen := sees(k).geometry;
      k := k + 1;
      if f.width != seen.width || f.height != seen.height {
        assert all == accepted + later;
        continue;
      }
      assert all == accepted + ([f] + later);
      state.latest := Some(f);
      WritesAppend(accepted, f);
      writes := writes + [state.latest];
      AppendAssociates(accepted, [f], later);
      accepted := accepted + [f];
    }
    if genAtExit == myGen {
      state.latest := None;
      writes := writes + [None];
    }
  }
}
