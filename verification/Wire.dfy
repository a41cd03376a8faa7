/** The kiosk socket's wire format: the HELLO a client receives and the frames it then streams.
    `Frames` is the reference reading of a byte stream that every reader below is held to. */
module Wire {
  import opened Words

  const MAX_FRAME_BYTES: nat := 64 * 1024 * 1024
  const MAGIC: seq<Byte> := [78, 73, 88, 76, 79, 67, 75, 49]  // "NIXLOCK1"

  datatype Geometry = Geometry(width: U32, height: U32, scale: U32)

  datatype Frame = Frame(width: U32, height: U32, rgba: seq<Byte>)

  function PixelBytes(width: U32, height: U32): nat {
    width * height * 4
  }

  /** What the header check is for: a non-empty frame of at most 64 MiB, over the integers. */
  predicate Plausible(width: U32, height: U32) {
    0 < PixelBytes(width, height) <= MAX_FRAME_BYTES
  }

  predicate WellFormed(f: Frame) {
    Plausible(f.width, f.height) && |f.rgba| == PixelBytes(f.width, f.height)
  }

  predicate AllWellFormed(fs: seq<Frame>) {
    forall f :: f in fs ==> WellFormed(f)
  }

  predicate Matches(f: Frame, g: Geometry) {
    f.width == g.width && f.height == g.height
  }

  predicate Ascending(at: seq<nat>) {
    forall i, j :: 0 <= i < j < |at| ==> at[i] < at[j]
  }

  /** `at` are the places of `taken` in `frames`, and the places where a frame has the width and the height it
      was compared with. */
  predicate Picks(at: seq<nat>, frames: seq<Frame>, sizes: seq<Geometry>, taken: seq<Frame>)
    requires |frames| == |sizes|
  {
    && |at| == |taken| && Ascending(at)
    && (forall i :: 0 <= i < |at| ==> at[i] < |frames|)
    && (forall i :: 0 <= i < |at| ==> frames[at[i]] == taken[i])
    && (forall k :: 0 <= k < |frames| ==>
          (k in at <==> frames[k].width == sizes[k].width && frames[k].height == sizes[k].height))
  }

  /** `taken` is, in order and one for one, every frame that has exactly the width and height it was compared
      with. */
  ghost predicate TakenBySize(frames: seq<Frame>, sizes: seq<Geometry>, taken: seq<Frame>)
    requires |frames| == |sizes|
  {
    exists at: seq<nat> :: Picks(at, frames, sizes, taken)
  }

  lemma NothingTaken()
    ensures TakenBySize([], [], [])
  {
    assert Picks([], [], [], []);
  }

  lemma PicksOneMore(at: seq<nat>, frames: seq<Frame>, sizes: seq<Geometry>, taken: seq<Frame>, f: Frame, g: Geometry)
    requires |frames| == |sizes| && Picks(at, frames, sizes, taken)
    requires f.width == g.width && f.height == g.height
    ensures Picks(at + [|frames|], frames + [f], sizes + [g], taken + [f])
  {
    var longer := at + [|frames|];
    forall k | 0 <= k <= |frames|
      ensures k in longer <==>
              (frames + [f])[k].width == (sizes + [g])[k].width && (frames + [f])[k].height == (sizes + [g])[k].height
    {
      if k == |frames| {
        assert longer[|at|] == k;
      } else {
        assert k in longer <==> k in at;
      }
    }
  }

  lemma PicksNoMore(at: seq<nat>, frames: seq<Frame>, sizes: seq<Geometry>, taken: seq<Frame>, f: Frame, g: Geometry)
    requires |frames| == |sizes| && Picks(at, frames, sizes, taken)
    requires f.width != g.width || f.height != g.height
    ensures Picks(at, frames + [f], sizes + [g], taken)
  {
    forall k | 0 <= k <= |frames|
      ensures k in at <==>
              (frames + [f])[k].width == (sizes + [g])[k].width && (frames + [f])[k].height == (sizes + [g])[k].height
    {
    }
  }

  lemma TakenStep(frames: seq<Frame>, sizes: seq<Geometry>, taken: seq<Frame>, f: Frame, g: Geometry)
    requires |frames| == |sizes| && TakenBySize(frames, sizes, taken)
    ensures TakenBySize(frames + [f], sizes + [g], taken + if Matches(f, g) then [f] else [])
  {
    var at: seq<nat> :| Picks(at, frames, sizes, taken);
    assert taken + [] == taken;
    if Matches(f, g) {
      PicksOneMore(at, frames, sizes, taken, f, g);
    } else {
      PicksNoMore(at, frames, sizes, taken, f, g);
    }
    hide Picks;
  }

  // ---- the size check as the source computes it ----

  function SaturatedSize(width: U32, height: U32, usizeMax: nat): nat {
    SaturatingMul(SaturatingMul(width, height, usizeMax), 4, usizeMax)
  }

  predicate Rejected(width: U32, height: U32, usizeMax: nat) {
    var size := SaturatedSize(width, height, usizeMax);
    size == 0 || size > MAX_FRAME_BYTES
  }

  /** On 32- and 64-bit targets the saturating check decides exactly the integer bound, and an
      accepted size is the true one: saturation never lets a header through or shrinks a payload. */
  lemma SizeCheckIsExact(width: U32, height: U32, usizeMax: nat)
    requires usizeMax == U32_MAX || usizeMax == U64_MAX
    ensures Rejected(width, height, usizeMax) <==> !Plausible(width, height)
    ensures Plausible(width, height) ==> SaturatedSize(width, height, usizeMax) == PixelBytes(width, height)
  {
    var area := width * height;
    assert area >= 0 && PixelBytes(width, height) == area * 4;
    if area > usizeMax {
      assert SaturatedSize(width, height, usizeMax) == usizeMax;
    } else {
      assert SaturatingMul(width, height, usizeMax) == area;
    }
  }

  /** The renderer's `(w * h * 4) as usize`, a u32 product that wraps in a release build. */
  function WrappedSize(width: U32, height: U32): nat {
    PixelBytes(width, height) % 0x1_0000_0000
  }

  /** A frame the socket accepted never meets the renderer's wrap-around: the wrapped product is the
      payload length, so the wrong-size fallback cannot fire for it. */
  lemma AcceptedFrameNeverWraps(f: Frame)
    requires WellFormed(f)
    ensures WrappedSize(f.width, f.height) == |f.rgba|
  {
  }

  // ---- encoding ----

  function Header(width: U32, height: U32): (bytes: seq<Byte>)
    ensures |bytes| == 8
  {
    ToLe(width) + ToLe(height)
  }

  function Encode(f: Frame): seq<Byte> {
    Header(f.width, f.height) + f.rgba
  }

  function EncodeAll(fs: seq<Frame>): seq<Byte> {
    if fs == [] then [] else Encode(fs[0]) + EncodeAll(fs[1..])
  }

  function HelloBytes(g: Geometry): (bytes: seq<Byte>)
    ensures |bytes| == 20
  {
    MAGIC + ToLe(g.width) + ToLe(g.height) + ToLe(g.scale)
  }

  function ReadHello(bytes: seq<Byte>): Option<Geometry> {
    if |bytes| == 20 && bytes[..8] == MAGIC
    then Some(Geometry(FromLe(bytes[8..12]), FromLe(bytes[12..16]), FromLe(bytes[16..20])))
    else None
  }

  lemma HelloRoundTrip(g: Geometry)
    ensures ReadHello(HelloBytes(g)) == Some(g)
  {
    var bytes := HelloBytes(g);
    assert bytes[..8] == MAGIC;
    assert bytes[8..12] == ToLe(g.width);
    assert bytes[12..16] == ToLe(g.height);
    assert bytes[16..20] == ToLe(g.scale);
    LeRoundTrip(g.width);
    LeRoundTrip(g.height);
    LeRoundTrip(g.scale);
  }

  // ---- the reference parser ----

  function HeaderWidth(s: seq<Byte>): U32
    requires |s| >= 8
  {
    FromLe(s[..4])
  }

  function HeaderHeight(s: seq<Byte>): U32
    requires |s| >= 8
  {
    FromLe(s[4..8])
  }

  /** The first frame of `s`, when its header is plausible and all of its payload is there. */
  function FirstFrame(s: seq<Byte>): Option<Frame> {
    if |s| < 8 then None
    else
      var w, h := HeaderWidth(s), HeaderHeight(s);
      if !Plausible(w, h) || |s| < 8 + PixelBytes(w, h) then None
      else Some(Frame(w, h, s[8..8 + PixelBytes(w, h)]))
  }

  /** What a first frame is, byte by byte: two little-endian numbers, then the pixels they announce; and there
      is none exactly when bytes are missing or the size is implausible. */
  lemma FirstFrameExactly(s: seq<Byte>)
    ensures |s| < 8 ==> FirstFrame(s) == None
    ensures |s| >= 8 ==>
              var w, h := Number(s[0], s[1], s[2], s[3]), Number(s[4], s[5], s[6], s[7]);
              var size := w * h * 4;
              if size == 0 || size > 64 * 1024 * 1024 || |s| < 8 + size then FirstFrame(s) == None
              else w <= U32_MAX && h <= U32_MAX && FirstFrame(s) == Some(Frame(w, h, s[8..8 + size]))
  {
    if |s| >= 8 {
      var w, h := Number(s[0], s[1], s[2], s[3]), Number(s[4], s[5], s[6], s[7]);
      assert HeaderWidth(s) == w && HeaderHeight(s) == h;
      assert PixelBytes(w, h) == w * h * 4 && w * h * 4 >= 0;
      hide HeaderWidth, HeaderHeight, Number;
    }
  }

  function FrameLength(f: Frame): nat {
    8 + |f.rgba|
  }

  /** All complete plausible frames at the front of `s`, in order. */
  function Frames(s: seq<Byte>): seq<Frame>
    decreases |s|
  {
    match FirstFrame(s)
    case None => []
    case Some(f) => [f] + Frames(s[FrameLength(f)..])
  }

  lemma HeaderRoundTrip(width: U32, height: U32, rest: seq<Byte>)
    ensures HeaderWidth(Header(width, height) + rest) == width
    ensures HeaderHeight(Header(width, height) + rest) == height
  {
    var s := Header(width, height) + rest;
    assert s[..4] == ToLe(width);
    assert s[4..8] == ToLe(height);
    LeRoundTrip(width);
    LeRoundTrip(height);
  }

  lemma FirstFrameOfEncoding(f: Frame, rest: seq<Byte>)
    requires WellFormed(f)
    ensures FirstFrame(Encode(f) + rest) == Some(f)
    ensures (Encode(f) + rest)[FrameLength(f)..] == rest
  {
    var s := Encode(f) + rest;
    assert s == Header(f.width, f.height) + (f.rgba + rest);
    HeaderRoundTrip(f.width, f.height, f.rgba + rest);
    assert s[8..8 + |f.rgba|] == f.rgba;
  }

  lemma FramesStep(f: Frame, rest: seq<Byte>)
    requires WellFormed(f)
    ensures Frames(Encode(f) + rest) == [f] + Frames(rest)
  {
    FirstFrameOfEncoding(f, rest);
  }

  lemma FirstFrameIsEncoded(s: seq<Byte>)
    requires FirstFrame(s).Some?
    ensures var f := FirstFrame(s).value;
            WellFormed(f) && s == Encode(f) + s[FrameLength(f)..]
  {
    var f := FirstFrame(s).value;
    LeBytesAreCanonical(s[..4]);
    LeBytesAreCanonical(s[4..8]);
    assert s[..8] == s[..4] + s[4..8];
    assert s == s[..8] + s[8..8 + |f.rgba|] + s[8 + |f.rgba|..];
  }

  /** Whatever follows them, encoded frames are read back one for one. */
  lemma {:induction false} FramesOfEncoding(fs: seq<Frame>, rest: seq<Byte>)
    requires AllWellFormed(fs)
    ensures Frames(EncodeAll(fs) + rest) == fs + Frames(rest)
  {
    if fs == [] {
      assert EncodeAll(fs) + rest == rest;
      assert fs + Frames(rest) == Frames(rest);
    } else {
      var front, later := Encode(fs[0]), EncodeAll(fs[1..]);
      FramesOfEncoding(fs[1..], rest);
      FramesStep(fs[0], later + rest);
      AppendAssociates(front, later, rest);
      AppendAssociates([fs[0]], fs[1..], Frames(rest));
      assert [fs[0]] + fs[1..] == fs;
    }
  }

  /** Parsing inverts encoding. */
  lemma StreamRoundTrip(fs: seq<Frame>)
    requires AllWellFormed(fs)
    ensures Frames(EncodeAll(fs)) == fs
  {
    FramesOfEncoding(fs, []);
    assert EncodeAll(fs) + [] == EncodeAll(fs);
  }

  /** The bytes left once no further frame can be read off the front. */
  function Leftover(s: seq<Byte>): seq<Byte>
    decreases |s|
  {
    match FirstFrame(s)
    case None => s
    case Some(f) => Leftover(s[FrameLength(f)..])
  }

  /** Encoding inverts parsing: every stream is its frames re-encoded, then a tail that starts no
      frame. A frame therefore occupies exactly 8 + w*h*4 bytes, matching or not. */
  lemma {:induction false} EveryStreamSplits(s: seq<Byte>)
    ensures AllWellFormed(Frames(s))
    ensures s == EncodeAll(Frames(s)) + Leftover(s)
    ensures FirstFrame(Leftover(s)) == None
    decreases |s|
  {
    if FirstFrame(s).Some? {
      var f := FirstFrame(s).value;
      var rest := s[FrameLength(f)..];
      FirstFrameIsEncoded(s);
      EveryStreamSplits(rest);
      assert Frames(s) == [f] + Frames(rest);
      assert Frames(s)[1..] == Frames(rest);
    }
  }

  lemma {:induction false} EncodeAllAppend(fs: seq<Frame>, gs: seq<Frame>)
    ensures EncodeAll(fs + gs) == EncodeAll(fs) + EncodeAll(gs)
  {
    if fs == [] {
      assert fs + gs == gs;
    } else {
      EncodeAllAppend(fs[1..], gs);
      assert (fs + gs)[1..] == fs[1..] + gs;
      AppendAssociates(Encode(fs[0]), EncodeAll(fs[1..]), EncodeAll(gs));
    }
  }

  /** Bytes that arrive later never change the frames already complete. */
  lemma FramesGrow(s: seq<Byte>, more: seq<Byte>)
    ensures Frames(s) <= Frames(s + more)
  {
    hide Frames, Leftover, EncodeAll, FirstFrame;
    var fs, tail := Frames(s), Leftover(s);
    assert s + more == EncodeAll(fs) + (tail + more) && AllWellFormed(fs) by {
      EveryStreamSplits(s);
    }
    FramesOfEncoding(fs, tail + more);
  }

  /** Frames of the stream that end within the first `cut` bytes are read from those bytes alone. */
  lemma CompleteFramesAreRead(s: seq<Byte>, cut: nat, n: nat)
    requires cut <= |s| && n <= |Frames(s)|
    requires |EncodeAll(Frames(s)[..n])| <= cut
    ensures Frames(s)[..n] <= Frames(s[..cut])
  {
    hide Frames, Leftover, EncodeAll, FirstFrame;
    var fs, rest := Frames(s)[..n], Frames(s)[n..];
    EveryStreamSplits(s);
    EncodeAllAppend(fs, rest);
    assert Frames(s) == fs + rest;
    var k := |EncodeAll(fs)|;
    assert s[..k] == EncodeAll(fs);
    assert s[..cut] == EncodeAll(fs) + s[k..cut];
    FramesOfEncoding(fs, s[k..cut]);
  }

  /** Truncation at any byte leaves exactly the frames that are complete in the prefix. */
  lemma TruncationKeepsCompleteFrames(s: seq<Byte>, cut: nat)
    requires cut <= |s|
    ensures var n := |Frames(s[..cut])|;
            && n <= |Frames(s)|
            && Frames(s[..cut]) == Frames(s)[..n]
            && |EncodeAll(Frames(s)[..n])| <= cut
            && (n < |Frames(s)| ==> cut < |EncodeAll(Frames(s)[..n + 1])|)
  {
    var n := |Frames(s[..cut])|;
    assert Frames(s[..cut]) <= Frames(s) by {
      FramesGrow(s[..cut], s[cut..]);
      assert s[..cut] + s[cut..] == s;
    }
    assert |EncodeAll(Frames(s[..cut]))| <= cut by {
      EveryStreamSplits(s[..cut]);
    }
    if n < |Frames(s)| && |EncodeAll(Frames(s)[..n + 1])| <= cut {
      CompleteFramesAreRead(s, cut, n + 1);
      assert false;
    }
  }

  /** A frame that ends where `fs + [f]` ends is the next one the reference parser reports. */
  lemma FrameAtBoundary(s: seq<Byte>, fs: seq<Frame>, f: Frame)
    requires AllWellFormed(fs) && WellFormed(f)
    requires EncodeAll(fs) + Encode(f) <= s
    ensures fs + [f] <= Frames(s)
    ensures EncodeAll(fs + [f]) == EncodeAll(fs) + Encode(f)
  {
    EncodeAllAppend(fs, [f]);
    assert EncodeAll([f]) == Encode(f) + EncodeAll([]);
    assert EncodeAll(fs + [f]) == EncodeAll(fs) + Encode(f);
    var rest := s[|EncodeAll(fs + [f])|..];
    assert s == EncodeAll(fs + [f]) + rest;
    FramesOfEncoding(fs + [f], rest);
  }
}
