/** The parts of the kernel's framebuffer structures both LED framebuffer
    drivers work on, with their 32-bit unsigned arithmetic written out,
    and the value-level meaning of the driver callbacks they share:
    normalising a mode request, the stride, the frame size and panning. */
module FbTypes {

  const U32_LIMIT: int := 0x1_0000_0000

  /** `__u32`, the type of every geometry field. */
  newtype u32 = x: int | 0 <= x < 0x1_0000_0000

  /** The value C stores when an `int` is assigned to a `__u32` (modulo 2^32). */
  function ToU32(v: int): (r: u32)
    ensures 0 <= v < U32_LIMIT ==> r as int == v
  {
    (v % U32_LIMIT) as u32
  }

  /** `a + b` on `__u32`: the sum modulo 2^32. */
  function Add32(a: u32, b: u32): (r: u32)
    ensures a as int + b as int < U32_LIMIT ==> r as int == a as int + b as int
    ensures a as int + b as int >= U32_LIMIT ==> r as int == a as int + b as int - U32_LIMIT
  {
    ToU32(a as int + b as int)
  }

  /** `a * b` on `__u32`: the product modulo 2^32. */
  function Mul32(a: u32, b: u32): (r: u32)
    ensures a as int * b as int < U32_LIMIT ==> r as int == a as int * b as int
  {
    ToU32(a as int * b as int)
  }

  /** Error numbers the drivers return, negated. */
  const ENOMEM: int := 12
  const EINVAL: int := 22

  /** `fb_fix_screeninfo` constants the drivers use. */
  const FB_TYPE_PACKED_PIXELS: u32 := 0
  const FB_ACCEL_NONE: u32 := 0
  const FB_VISUAL_TRUECOLOR: u32 := 2

  /** `struct fb_bitfield`: where one colour channel sits in a pixel. */
  datatype Bitfield = Bitfield(offset: u32, length: u32, msbRight: u32)

  /** The 24-bit layout the LED matrix accepts: red in bits 16..23, green
      in 8..15, blue in 0..7, no transparency. */
  const RED_24: Bitfield := Bitfield(16, 8, 0)
  const GREEN_24: Bitfield := Bitfield(8, 8, 0)
  const BLUE_24: Bitfield := Bitfield(0, 8, 0)
  const NO_TRANSP: Bitfield := Bitfield(0, 0, 0)
  /** `-1` stored into the `__u32` `height`/`width` ("size unknown"). */
  const UNKNOWN_SIZE: u32 := 0xFFFF_FFFF

  /** The fields of `fb_var_screeninfo` the drivers read or write, as a value. */
  datatype Var = Var(
    xres: u32, yres: u32, xresVirtual: u32, yresVirtual: u32, yoffset: u32,
    bitsPerPixel: u32, grayscale: u32,
    red: Bitfield, green: Bitfield, blue: Bitfield, transp: Bitfield,
    height: u32, width: u32)

  /** A `struct fb_var_screeninfo`, written in place through pointers. */
  class VarScreenInfo {
    var xres: u32
    var yres: u32
    var xresVirtual: u32
    var yresVirtual: u32
    var yoffset: u32
    var bitsPerPixel: u32
    var grayscale: u32
    var red: Bitfield
    var green: Bitfield
    var blue: Bitfield
    var transp: Bitfield
    var height: u32
    var width: u32

    function Value(): Var
      reads this
    {
      Var(xres, yres, xresVirtual, yresVirtual, yoffset, bitsPerPixel, grayscale,
          red, green, blue, transp, height, width)
    }

    /** A zero-filled structure, as `framebuffer_alloc` hands it out. */
    constructor ()
      ensures Value() == Var(0, 0, 0, 0, 0, 0, 0, NO_TRANSP, NO_TRANSP, NO_TRANSP, NO_TRANSP, 0, 0)
    {
      xres, yres, xresVirtual, yresVirtual, yoffset := 0, 0, 0, 0, 0;
      bitsPerPixel, grayscale := 0, 0;
      red, green, blue, transp := NO_TRANSP, NO_TRANSP, NO_TRANSP, NO_TRANSP;
      height, width := 0, 0;
    }
  }

  /** The fields of `fb_fix_screeninfo` the drivers write, as a value (the
      structure is embedded in `fb_info` and only ever rewritten field by
      field). */
  datatype Fix = Fix(
    lineLength: u32, fixType: u32, accel: u32, visual: u32,
    xpanstep: u32, ypanstep: u32, ywrapstep: u32,
    smemStart: int, smemLen: u32)

  const ZERO_FIX: Fix := Fix(0, 0, 0, 0, 0, 0, 0, 0, 0)

  /** What `virtfb_check_var` makes of a mode request: the virtual
      resolution is raised to the visible one where it is smaller and left
      alone otherwise, and the pixel format is forced to the 24-bit
      layout; the visible resolution and the pan offset are untouched. */
  function Checked(v: Var): (r: Var)
    ensures r.xresVirtual >= r.xres && r.yresVirtual >= r.yres
    ensures r.xresVirtual == v.xresVirtual || (v.xresVirtual < v.xres && r.xresVirtual == v.xres)
    ensures r.yresVirtual == v.yresVirtual || (v.yresVirtual < v.yres && r.yresVirtual == v.yres)
    ensures v.xresVirtual >= v.xres ==> r.xresVirtual == v.xresVirtual
    ensures v.yresVirtual >= v.yres ==> r.yresVirtual == v.yresVirtual
    ensures r.xres == v.xres && r.yres == v.yres && r.yoffset == v.yoffset
    ensures r.bitsPerPixel == 24 && r.grayscale == 0
    ensures r.red == RED_24 && r.green == GREEN_24 && r.blue == BLUE_24 && r.transp == NO_TRANSP
    ensures r.height == UNKNOWN_SIZE && r.width == UNKNOWN_SIZE
  {
    v.(xresVirtual := if v.xresVirtual < v.xres then v.xres else v.xresVirtual,
       yresVirtual := if v.yresVirtual < v.yres then v.yres else v.yresVirtual,
       bitsPerPixel := 24, grayscale := 0,
       red := RED_24, green := GREEN_24, blue := BLUE_24, transp := NO_TRANSP,
       height := UNKNOWN_SIZE, width := UNKNOWN_SIZE)
  }

  /** Checking an already checked mode changes nothing. */
  lemma CheckedIdempotent(v: Var)
    ensures Checked(Checked(v)) == Checked(v)
  {
  }

  /** `xres_virtual * bits_per_pixel / 8` on `__u32`: the bytes in one
      line of the virtual screen. It is exact unless the product wraps. */
  function LineLength(xresVirtual: u32, bitsPerPixel: u32): (r: u32)
    ensures xresVirtual as int * bitsPerPixel as int < U32_LIMIT ==>
              r as int == xresVirtual as int * bitsPerPixel as int / 8
    ensures bitsPerPixel == 24 && xresVirtual as int * 24 < U32_LIMIT ==> r as int == 3 * xresVirtual as int
  {
    Mul32(xresVirtual, bitsPerPixel) / 8
  }

  /** `yres_virtual * line_length` on `__u32`: what `virtfb_set_par` needs. */
  function NeededLen(v: Var, lineLength: u32): (r: u32)
    ensures v.yresVirtual as int * lineLength as int < U32_LIMIT ==>
              r as int == v.yresVirtual as int * lineLength as int
  {
    Mul32(v.yresVirtual, lineLength)
  }

  /** `xres * yres * (bits_per_pixel / 8)` on `__u32`: the size of the
      visible picture only, ignoring the virtual resolution. */
  function ScreenBytes(v: Var): (r: u32)
    ensures v.xres as int * v.yres as int * (v.bitsPerPixel as int / 8) < U32_LIMIT ==>
              r as int == v.xres as int * v.yres as int * (v.bitsPerPixel as int / 8)
  {
    ScreenBytesProduct(v.xres, v.yres, v.bitsPerPixel / 8);
    Mul32(Mul32(v.xres, v.yres), v.bitsPerPixel / 8)
  }

  lemma ScreenBytesProduct(x: u32, y: u32, b: u32)
    ensures x as int * y as int * b as int < U32_LIMIT ==>
              Mul32(Mul32(x, y), b) as int == x as int * y as int * b as int
  {
    if x as int * y as int * b as int < U32_LIMIT && b != 0 {
      assert x as int * y as int <= x as int * y as int * b as int;
    }
  }

  /** `virtfb_set_par` reallocates when there is no buffer yet or the
      buffer it recorded is shorter than the mode needs. */
  predicate NeedsRemap(hasBuffer: bool, neededLen: u32, smemLen: u32)
  {
    !hasBuffer || neededLen > smemLen
  }

  /** The result code and the new pan offset of `virtfb_pan_display`. */
  datatype PanOutcome = PanOutcome(ret: int, yoffset: u32)

  /** `virtfb_pan_display` on the current offset, the visible height, the
      virtual height and the requested offset. A request for the current
      offset succeeds and changes nothing; one whose `__u32` sum with the
      visible height exceeds the virtual height is refused with -EINVAL and
      changes nothing; any other is stored. */
  function Pan(current: u32, yres: u32, yresVirtual: u32, requested: u32): (o: PanOutcome)
    ensures o.ret == 0 || o.ret == -EINVAL
    ensures requested == current ==> o == PanOutcome(0, current)
    ensures o.ret == -EINVAL <==> requested != current && Add32(requested, yres) > yresVirtual
    ensures o.ret == -EINVAL ==> o.yoffset == current
    ensures o.ret == 0 ==> o.yoffset == requested
    ensures o.yoffset != current ==> Add32(requested, yres) <= yresVirtual
  {
    if current == requested then PanOutcome(0, current)
    else if Add32(requested, yres) > yresVirtual then PanOutcome(-EINVAL, current)
    else PanOutcome(0, requested)
  }

  /** When the sum does not wrap, a stored offset leaves the visible
      window inside the virtual screen. */
  lemma PanStaysInside(current: u32, yres: u32, yresVirtual: u32, requested: u32)
    requires requested as int + yres as int < U32_LIMIT
    ensures var o := Pan(current, yres, yresVirtual, requested);
      o.yoffset != current ==> o.yoffset as int + yres as int <= yresVirtual as int
  {
  }

  /** The range test is made on the wrapped `__u32` sum: an offset near
      2^32 passes it although the window it names lies far outside the
      virtual screen. (The kernel's own pan entry point tests the range
      before it calls the driver.) */
  lemma PanAcceptsWrappedSum()
    ensures Pan(0, 32, 32, 0xFFFF_FFF0) == PanOutcome(0, 0xFFFF_FFF0)
    ensures 0xFFFF_FFF0 + 32 > 32
  {
  }

  /** A region obtained from `vmalloc_user`, with the byte count asked for. */
  datatype Vram = Vram(size: int)
}
