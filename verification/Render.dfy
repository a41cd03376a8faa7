/** From painted or streamed RGBA bytes to the BGRA buffer a surface commits. */
module Render {
  import opened Words
  import opened Wire

  /** Sizes a `wl_shm` buffer can have: stride, height and the size of the pool that holds it fit the
      `i32`s they are passed as. */
  predicate BufferSized(width: U32, height: U32) {
    width < 0x2000_0000 && height < 0x8000_0000 && PixelBytes(width, height) < 0x8000_0000
  }

  /** Where byte `i` of a BGRA pixel row is found among the RGBA bytes. */
  function Source(i: nat): nat {
    var pixel := i - i % 4;
    match i % 4
    case 0 => pixel + 2
    case 1 => pixel + 1
    case 2 => pixel
    case _ => pixel + 3
  }

  /** RGBA to BGRA, pixel by pixel. */
  function Swizzle(rgba: seq<Byte>): (bgra: seq<Byte>)
    requires |rgba| % 4 == 0
    ensures |bgra| == |rgba|
  {
    seq(|rgba|, i requires 0 <= i < |rgba| => rgba[Source(i)])
  }

  /** The swizzle loses nothing: applied twice it is the identity, and alpha stays where it was. */
  lemma SwizzleIsAnInvolution(rgba: seq<Byte>)
    requires |rgba| % 4 == 0
    ensures Swizzle(Swizzle(rgba)) == rgba
    ensures forall i :: 0 <= i < |rgba| && i % 4 == 3 ==> Swizzle(rgba)[i] == rgba[i]
  {
    forall i | 0 <= i < |rgba| ensures Swizzle(Swizzle(rgba))[i] == rgba[i] {
      assert Source(Source(i)) == i;
    }
  }

  /** Each RGBA pixel becomes the BGRA pixel at the same place. */
  lemma SwizzleReordersEachPixel(rgba: seq<Byte>, p: nat)
    requires |rgba| % 4 == 0 && 4 * p < |rgba|
    ensures Swizzle(rgba)[4 * p..4 * p + 4] == [rgba[4 * p + 2], rgba[4 * p + 1], rgba[4 * p], rgba[4 * p + 3]]
  {
    hide Source;
    SourcesOfPixel(p);
  }

  lemma SourcesOfPixel(p: nat)
    ensures var at := 4 * p;
            Source(at) == at + 2 && Source(at + 1) == at + 1 && Source(at + 2) == at && Source(at + 3) == at + 3
  {
  }

  function BlitByte(rgba: seq<Byte>, stale: nat -> Byte, i: nat): Byte
    requires |rgba| % 4 == 0
  {
    if i < |rgba| then rgba[Source(i)] else stale(i)
  }

  lemma BlitPixel(rgba: seq<Byte>, stale: nat -> Byte, p: nat)
    requires |rgba| % 4 == 0 && 4 * p + 3 < |rgba|
    ensures var at := 4 * p;
            && BlitByte(rgba, stale, at) == rgba[at + 2] && BlitByte(rgba, stale, at + 1) == rgba[at + 1]
            && BlitByte(rgba, stale, at + 2) == rgba[at] && BlitByte(rgba, stale, at + 3) == rgba[at + 3]
  {
    SourcesOfPixel(p);
    hide Source;
  }

  /** What the swizzle loop leaves in a canvas of `length` bytes that held `stale` before: it stops at
      the shorter of the two buffers. */
  function Blit(length: nat, rgba: seq<Byte>, stale: nat -> Byte): (canvas: seq<Byte>)
    requires length % 4 == 0 && |rgba| % 4 == 0
    ensures |canvas| == length
  {
    seq(length, i requires 0 <= i < length => BlitByte(rgba, stale, i))
  }

  lemma FullBlitIsSwizzle(rgba: seq<Byte>, stale: nat -> Byte)
    requires |rgba| % 4 == 0
    ensures Blit(|rgba|, rgba, stale) == Swizzle(rgba)
  {
  }

  /** The swizzle loop of `render_surface`, in place on the canvas. */
  method SwizzleInto(canvas: array<Byte>, rgba: seq<Byte>, ghost stale: nat -> Byte)
    requires canvas.Length % 4 == 0 && |rgba| % 4 == 0
    requires forall i :: 0 <= i < canvas.Length ==> canvas[i] == stale(i)
    modifies canvas
    ensures canvas[..] == Blit(canvas.Length, rgba, stale)
  {
    hide Source;
    var pixels := Min(canvas.Length / 4, |rgba| / 4);
    var p := 0;
    while p < pixels
      invariant 0 <= p <= pixels
      invariant forall i :: 0 <= i < 4 * p ==> canvas[i] == BlitByte(rgba, stale, i)
      invariant forall i :: 4 * p <= i < canvas.Length ==> canvas[i] == stale(i)
    {
      var at := 4 * p;
      canvas[at], canvas[at + 1], canvas[at + 2], canvas[at + 3] := rgba[at + 2], rgba[at + 1], rgba[at], rgba[at + 3];
      BlitPixel(rgba, stale, p);
      p := p + 1;
    }
  }

  lemma SizesAreMultiplesOfFour(width: U32, height: U32)
    ensures PixelBytes(width, height) % 4 == 0 && WrappedSize(width, height) % 4 == 0
  {
    var area: nat := width * height;
    MultipleOfFour(area);
  }

  lemma MultipleOfFour(area: nat)
    ensures area * 4 % 4 == 0 && area * 4 % 0x1_0000_0000 % 4 == 0
  {
  }

  /** What the painters return when asked, and what the canvas held before it was drawn on. */
  datatype Paint = Paint(content: seq<Byte>, fallback: seq<Byte>, stale: nat -> Byte)

  /** The bytes `render_surface` draws, if any: the streamed frame when it fits, else the painted
      content, else (a wrong-sized one) the lock screen, else nothing. */
  function Chosen(width: U32, height: U32, streamed: Option<Frame>, paint: Paint): Option<seq<Byte>> {
    var first := if streamed.Some? then streamed.value.rgba else paint.content;
    if |first| == WrappedSize(width, height) then Some(first)
    else if |paint.fallback| == WrappedSize(width, height) then Some(paint.fallback)
    else None
  }

  /** The frame a surface may show: only the latest one, only on a kiosk, only at its exact size. */
  function Streamed(kiosk: bool, width: U32, height: U32, latest: Option<Frame>): Option<Frame> {
    if kiosk && latest.Some? && latest.value.width == width && latest.value.height == height then latest else None
  }

  /** The committed buffer, if the surface has a size and something fits it. */
  function Committed(kiosk: bool, width: U32, height: U32, latest: Option<Frame>,
                     paint: Paint): (buffer: Option<seq<Byte>>)
    ensures buffer.Some? ==> |buffer.value| == PixelBytes(width, height)
  {
    SizesAreMultiplesOfFour(width, height);
    var rgba := Chosen(width, height, Streamed(kiosk, width, height, latest), paint);
    if width == 0 || height == 0 || rgba.None? then None
    else Some(Blit(PixelBytes(width, height), rgba.value, paint.stale))
  }

  /** A frame accepted from the socket is committed whole, swizzled, whatever the painters would have
      returned; the wrong-size fallback never fires for it. */
  lemma StreamedFrameIsCommittedWhole(f: Frame, paint: Paint)
    requires WellFormed(f)
    ensures |f.rgba| % 4 == 0 && Committed(true, f.width, f.height, Some(f), paint) == Some(Swizzle(f.rgba))
  {
    SizesAreMultiplesOfFour(f.width, f.height);
    AcceptedFrameNeverWraps(f);
    assert f.width != 0 && f.height != 0;
    FullBlitIsSwizzle(f.rgba, paint.stale);
  }

  /** No byte of a committed buffer is left as the canvas held it. */
  ghost predicate FullyWritten(kiosk: bool, width: U32, height: U32, latest: Option<Frame>, paint: Paint) {
    forall other: nat -> Byte ::
      Committed(kiosk, width, height, latest, paint) == Committed(kiosk, width, height, latest, paint.(stale := other))
  }

  /** Whenever something is committed, it is fully written if and only if the u32 size product did not
      wrap. */
  lemma FullyWrittenIffNoWrap(kiosk: bool, width: U32, height: U32, latest: Option<Frame>, paint: Paint)
    ensures Committed(kiosk, width, height, latest, paint).Some? ==>
              (FullyWritten(kiosk, width, height, latest, paint) <==> PixelBytes(width, height) < 0x1_0000_0000)
  {
    SizesAreMultiplesOfFour(width, height);
    if Committed(kiosk, width, height, latest, paint) == None {
      return;
    }
    var size := PixelBytes(width, height);
    var rgba := Chosen(width, height, Streamed(kiosk, width, height, latest), paint).value;
    if size < 0x1_0000_0000 {
      forall other: nat -> Byte
        ensures Committed(kiosk, width, height, latest, paint) ==
                Committed(kiosk, width, height, latest, paint.(stale := other))
      {
        FullBlitIsSwizzle(rgba, paint.stale);
        FullBlitIsSwizzle(rgba, other);
      }
    } else {
      var last := size - 1;
      assert |rgba| <= last;
      var other := (i: nat) => if paint.stale(last) == 0 then 1 else 0;
      var buffer := Committed(kiosk, width, height, latest, paint).value;
      var changed := Committed(kiosk, width, height, latest, paint.(stale := other)).value;
      assert buffer[last] != changed[last];
    }
  }

  /** What a buffer can have never wraps; so every buffer that is committed is drawn in full. */
  lemma BuffersAreFullyWritten(kiosk: bool, width: U32, height: U32, latest: Option<Frame>, paint: Paint)
    requires BufferSized(width, height)
    ensures FullyWritten(kiosk, width, height, latest, paint)
  {
    if Committed(kiosk, width, height, latest, paint).Some? {
      FullyWrittenIffNoWrap(kiosk, width, height, latest, paint);
    } else {
      hide Chosen, Blit;
    }
  }

  /** The arithmetic alone would not see to that: 65536 x 16384 wraps to 0, so in a buffer of 4 GiB, which
      no pool holds, content of no bytes at all would pass the size test and nothing would be drawn. */
  lemma WrappedSizeLeavesBufferUndrawn(stale: nat -> Byte)
    ensures !BufferSized(0x1_0000, 0x4000)
    ensures var paint := Paint([], [], stale);
            var buffer := Committed(false, 0x1_0000, 0x4000, None, paint);
            && buffer.Some?
            && (forall i :: 0 <= i < |buffer.value| ==> buffer.value[i] == stale(i))
            && !FullyWritten(false, 0x1_0000, 0x4000, None, paint)
  {
    assert PixelBytes(0x1_0000, 0x4000) == 0x1_0000_0000;
    FullyWrittenIffNoWrap(false, 0x1_0000, 0x4000, None, Paint([], [], stale));
  }
}
