/** The framebuffer driver `ledfb.c`: a virtual framebuffer in vmalloc'ed
    memory whose default mode is 128x96 at 24 bits per pixel. Its
    `virtfb_map_video_memory` sizes the buffer from the VISIBLE
    resolution and records that size as `smem_len`. */
module Ledfb {
  import opened Base
  import opened FbTypes

  /** The module parameters `xres` and `yres`, as declared. */
  const DEFAULT_XRES: int := 4 * 32
  const DEFAULT_YRES: int := 3 * 32
  /** BITS_PER_PIXEL. */
  const BITS_PER_PIXEL: u32 := 24

  /** The part of `struct fb_info` the driver maintains. */
  class FbInfo {
    /** `info->var`, embedded in the structure. */
    const varInfo: VarScreenInfo
    /** `info->fix`. */
    var fix: Fix
    /** `info->screen_size`. */
    var screenSize: int
    /** `info->screen_base`; None is NULL. */
    var screenBase: Option<Vram>
    /** Every region handed to `vfree` (a NULL pointer frees nothing). */
    var freed: seq<Vram>

    /** A zero-filled `fb_info` from `framebuffer_alloc`. */
    constructor ()
      ensures fresh(varInfo)
      ensures varInfo.Value() == Var(0, 0, 0, 0, 0, 0, 0, NO_TRANSP, NO_TRANSP, NO_TRANSP, NO_TRANSP, 0, 0)
      ensures fix == ZERO_FIX && screenSize == 0 && screenBase == None && freed == []
    {
      varInfo := new VarScreenInfo();
      fix := ZERO_FIX;
      screenSize := 0;
      screenBase := None;
      freed := [];
    }

    /** `virtfb_map_video_memory`: records the visible picture size as
        `screen_size` and `smem_len`, sets `smem_start` to 0 and allocates
        that many bytes. `allocOk` is whether `vmalloc_user` succeeded;
        on failure `screen_base` is NULL and the result is -ENOMEM. */
    method MapVideoMemory(allocOk: bool) returns (r: int)
      modifies this`fix, this`screenSize, this`screenBase
      ensures fix == old(fix).(smemLen := ScreenBytes(varInfo.Value()), smemStart := 0)
      ensures screenSize == ScreenBytes(varInfo.Value()) as int
      ensures screenBase == if allocOk then Some(Vram(fix.smemLen as int)) else None
      ensures r == if allocOk then 0 else -ENOMEM
    {
      screenSize := ScreenBytes(varInfo.Value()) as int;
      fix := fix.(smemLen := screenSize as u32);
      fix := fix.(smemStart := 0);
      screenBase := if allocOk then Some(Vram(fix.smemLen as int)) else None;
      if screenBase.None? {
        return -ENOMEM;
      }
      return 0;
    }

    /** `virtfb_unmap_video_memory`: clears `screen_base` and `smem_len`
        and only then calls `vfree` with the cleared pointer, so the region
        is never freed. Always returns 0. */
    method UnmapVideoMemory() returns (r: int)
      modifies this`fix, this`screenBase, this`freed
      ensures screenBase == None
      ensures fix == old(fix).(smemLen := 0)
      ensures freed == old(freed)
      ensures r == 0
    {
      screenBase := None;
      fix := fix.(smemLen := 0);
      Vfree(screenBase);
      return 0;
    }

    /** `vfree`: releases a region; NULL is ignored. */
    method Vfree(p: Option<Vram>)
      modifies this`freed
      ensures freed == old(freed) + if p.Some? then [p.value] else []
    {
      if p.Some? {
        freed := freed + [p.value];
      }
    }

    /** `virtfb_set_fix`: the stride from the virtual width, and the fixed
        packed-pixel, true-colour, unaccelerated, step-1 description.
        Nothing else changes; always returns 0. */
    method SetFix() returns (r: int)
      modifies this`fix
      ensures fix == old(fix).(lineLength := LineLength(varInfo.xresVirtual, varInfo.bitsPerPixel),
                               fixType := FB_TYPE_PACKED_PIXELS, accel := FB_ACCEL_NONE,
                               visual := FB_VISUAL_TRUECOLOR, xpanstep := 1, ywrapstep := 1, ypanstep := 1)
      ensures r == 0
    {
      fix := fix.(lineLength := Mul32(varInfo.xresVirtual, varInfo.bitsPerPixel) / 8);
      fix := fix.(fixType := FB_TYPE_PACKED_PIXELS);
      fix := fix.(accel := FB_ACCEL_NONE);
      fix := fix.(visual := FB_VISUAL_TRUECOLOR);
      fix := fix.(xpanstep := 1);
      fix := fix.(ywrapstep := 1);
      fix := fix.(ypanstep := 1);
      return 0;
    }

    /** `virtfb_set_par`: refreshes the fixed description, then
        reallocates exactly when there is no buffer or the recorded one is
        shorter than `yres_virtual * line_length`, releasing the old one
        first; otherwise buffer, `smem_len` and `screen_size` stay. A
        failed allocation gives -ENOMEM, anything else 0. */
    method SetPar(allocOk: bool) returns (r: int)
      modifies this`fix, this`screenSize, this`screenBase, this`freed
      ensures var ll := LineLength(varInfo.xresVirtual, varInfo.bitsPerPixel);
        fix.lineLength == ll && fix.fixType == FB_TYPE_PACKED_PIXELS && fix.accel == FB_ACCEL_NONE
        && fix.visual == FB_VISUAL_TRUECOLOR && fix.xpanstep == 1 && fix.ypanstep == 1 && fix.ywrapstep == 1
      ensures freed == old(freed)
      ensures var remap := NeedsRemap(old(screenBase).Some?, NeededLen(varInfo.Value(), fix.lineLength), old(fix.smemLen));
        && (!remap ==> && screenBase == old(screenBase) && screenSize == old(screenSize)
                       && fix.smemLen == old(fix.smemLen) && fix.smemStart == old(fix.smemStart) && r == 0)
        && (remap ==> && fix.smemLen == ScreenBytes(varInfo.Value()) && fix.smemStart == 0
                      && screenSize == ScreenBytes(varInfo.Value()) as int
                      && screenBase == (if allocOk then Some(Vram(fix.smemLen as int)) else None)
                      && r == if allocOk then 0 else -ENOMEM)
    {
      var retval := 0;
      var _ := SetFix();
      var memLen := Mul32(varInfo.yresVirtual, fix.lineLength);
      if screenBase.None? || memLen > fix.smemLen {
        if screenBase.Some? {
          var _ := UnmapVideoMemory();
        }
        var mapped := MapVideoMemory(allocOk);
        if mapped < 0 {
          return -ENOMEM;
        }
      }
      return retval;
    }

    /** `virtfb_check_var`: normalises the request `v` in place (see
        `Checked`) and always accepts it. */
    method CheckVar(v: VarScreenInfo) returns (r: int)
      modifies v
      ensures v.Value() == Checked(old(v.Value()))
      ensures r == 0
    {
      if v.xresVirtual < v.xres {
        v.xresVirtual := v.xres;
      }
      if v.yresVirtual < v.yres {
        v.yresVirtual := v.yres;
      }
      v.bitsPerPixel := 24;
      v.red := RED_24;
      v.green := GREEN_24;
      v.blue := BLUE_24;
      v.transp := NO_TRANSP;
      v.height := UNKNOWN_SIZE;
      v.width := UNKNOWN_SIZE;
      v.grayscale := 0;
      return 0;
    }

    /** `virtfb_pan_display`: moves the current pan offset to the one in
        the request `v` when it is in range (see `Pan`). */
    method PanDisplay(v: VarScreenInfo) returns (r: int)
      modifies varInfo`yoffset
      ensures var o := Pan(old(varInfo.yoffset), varInfo.yres, varInfo.yresVirtual, old(v.yoffset));
        r == o.ret && varInfo.yoffset == o.yoffset
    {
      if varInfo.yoffset == v.yoffset {
        return 0;
      }
      if Add32(v.yoffset, varInfo.yres) > varInfo.yresVirtual {
        return -EINVAL;
      }
      varInfo.yoffset := v.yoffset;
      return 0;
    }

    /** The geometry part of `virtfb_register`: visible and virtual
        resolution from the module parameters, 24 bits per pixel, no
        buffer, then `check_var` on the own mode and `set_fix`. */
    method Register(xres: int, yres: int)
      modifies varInfo, this`fix, this`screenBase
      ensures varInfo.Value() == Checked(old(varInfo.Value()).(
                xres := ToU32(xres), xresVirtual := ToU32(xres),
                yres := ToU32(yres), yresVirtual := ToU32(yres), bitsPerPixel := BITS_PER_PIXEL))
      ensures screenBase == None
      ensures fix == old(fix).(lineLength := LineLength(ToU32(xres), 24),
                               fixType := FB_TYPE_PACKED_PIXELS, accel := FB_ACCEL_NONE,
                               visual := FB_VISUAL_TRUECOLOR, xpanstep := 1, ywrapstep := 1, ypanstep := 1)
    {
      varInfo.xres := ToU32(xres);
      varInfo.xresVirtual := varInfo.xres;
      varInfo.yres := ToU32(yres);
      varInfo.yresVirtual := varInfo.yres;
      varInfo.bitsPerPixel := BITS_PER_PIXEL;
      screenBase := None;
      var _ := CheckVar(varInfo);
      var _ := SetFix();
    }
  }

  /** With the default parameters the registered mode is 128x96 (virtual
      the same) and one line is 384 bytes. */
  lemma DefaultGeometry()
    ensures ToU32(DEFAULT_XRES) == 128 && ToU32(DEFAULT_YRES) == 96
    ensures LineLength(ToU32(DEFAULT_XRES), 24) == 384
  {
  }

  /** This variant sizes the buffer from the visible resolution, so with a
      virtual height above the visible one `smem_len` stays below
      `yres_virtual * line_length` after a successful reallocation, and the
      next `set_par` reallocates again: a 32x32 mode with a 64-line virtual
      screen needs 6144 bytes and gets 3072. */
  lemma RemapCanStayShort()
    ensures var v := Var(32, 32, 32, 64, 0, 24, 0, RED_24, GREEN_24, BLUE_24, NO_TRANSP, UNKNOWN_SIZE, UNKNOWN_SIZE);
      var ll := LineLength(v.xresVirtual, v.bitsPerPixel);
      && ll == 96 && NeededLen(v, ll) == 6144 && ScreenBytes(v) == 3072
      && NeedsRemap(true, NeededLen(v, ll), ScreenBytes(v))
  {
  }
}
