/** The framebuffer driver variant `ledfb-fb.c` (the one that also offers
    the userland device): the same callbacks as `ledfb.c` with a fixed
    32x32 default mode, and a `virtfb_map_video_memory` that raises
    `smem_len` to `yres_virtual * line_length` but still allocates only
    the visible picture's size. */
module LedfbFb {
  import opened Base
  import opened FbTypes

  /** The fixed default mode: 32x32, 24 bits per pixel. */
  const DEFAULT_RES: u32 := 32
  const DEFAULT_BPP: u32 := 24

  /** The part of `struct fb_info` the driver maintains. */
  class FbInfo {
    /** `info->var`, embedded in the structure. */
    const varInfo: VarScreenInfo
    /** `info->fix`. */
    var fix: Fix
    /** `info->screen_size`. */
    var screenSize: int
    /** `info->screen_base`; None is NULL. */
    var screenBase: Option<Vram>
    /** Every region handed to `vfree` (a NULL pointer frees nothing). */
    var freed: seq<Vram>

    /** A zero-filled `fb_info` from `framebuffer_alloc`. */
    constructor ()
      ensures fresh(varInfo)
      ensures varInfo.Value() == Var(0, 0, 0, 0, 0, 0, 0, NO_TRANSP, NO_TRANSP, NO_TRANSP, NO_TRANSP, 0, 0)
      ensures fix == ZERO_FIX && screenSize == 0 && screenBase == None && freed == []
    {
      varInfo := new VarScreenInfo();
      fix := ZERO_FIX;
      screenSize := 0;
      screenBase := None;
      freed := [];
    }

    /** `virtfb_map_video_memory`: raises `smem_len` to
        `yres_virtual * line_length` when it is smaller (it never lowers
        it), records it as `screen_size`, sets `smem_start` to 0, and
        allocates the visible picture's size, which need not be `smem_len`.
        `allocOk` is whether `vmalloc_user` succeeded; on failure
        `screen_base` is NULL and the result is -ENOMEM. */
    method MapVideoMemory(allocOk: bool) returns (r: int)
      modifies this`fix, this`screenSize, this`screenBase
      ensures var needed := NeededLen(varInfo.Value(), old(fix.lineLength));
        fix == old(fix).(smemLen := if old(fix.smemLen) < needed then needed else old(fix.smemLen), smemStart := 0)
      ensures fix.smemLen >= old(fix.smemLen)
      ensures screenSize == fix.smemLen as int
      ensures screenBase == if allocOk then Some(Vram(ScreenBytes(varInfo.Value()) as int)) else None
      ensures r == if allocOk then 0 else -ENOMEM
    {
      if fix.smemLen < Mul32(varInfo.yresVirtual, fix.lineLength) {
        fix := fix.(smemLen := Mul32(varInfo.yresVirtual, fix.lineLength));
      }
      screenSize := fix.smemLen as int;
      fix := fix.(smemStart := 0);
      screenBase := if allocOk then Some(Vram(ScreenBytes(varInfo.Value()) as int)) else None;
      if screenBase.None? {
        return -ENOMEM;
      }
      return 0;
    }

    /** `virtfb_unmap_video_memory`: clears `screen_base` and `smem_len`
        and only then calls `vfree` with the cleared pointer, so the region
        is never freed. Always returns 0. */
    method UnmapVideoMemory() returns (r: int)
      modifies this`fix, this`screenBase, this`freed
      ensures screenBase == None
      ensures fix == old(fix).(smemLen := 0)
      ensures freed == old(freed)
      ensures r == 0
    {
      screenBase := None;
      fix := fix.(smemLen := 0);
      Vfree(screenBase);
      return 0;
    }

    /** `vfree`: releases a region; NULL is ignored. */
    method Vfree(p: Option<Vram>)
      modifies this`freed
      ensures freed == old(freed) + if p.Some? then [p.value] else []
    {
      if p.Some? {
        freed := freed + [p.value];
      }
    }

    /** `virtfb_set_fix`: the stride from the virtual width, and the fixed
        packed-pixel, true-colour, unaccelerated, step-1 description.
        Nothing else changes; always returns 0. */
    method SetFix() returns (r: int)
      modifies this`fix
      ensures fix == old(fix).(lineLength := LineLength(varInfo.xresVirtual, varInfo.bitsPerPixel),
                               fixType := FB_TYPE_PACKED_PIXELS, accel := FB_ACCEL_NONE,
                               visual := FB_VISUAL_TRUECOLOR, xpanstep := 1, ywrapstep := 1, ypanstep := 1)
      ensures r == 0
    {
      fix := fix.(lineLength := Mul32(varInfo.xresVirtual, varInfo.bitsPerPixel) / 8);
      fix := fix.(fixType := FB_TYPE_PACKED_PIXELS);
      fix := fix.(accel := FB_ACCEL_NONE);
      fix := fix.(visual := FB_VISUAL_TRUECOLOR);
      fix := fix.(xpanstep := 1);
      fix := fix.(ywrapstep := 1);
      fix := fix.(ypanstep := 1);
      return 0;
    }

    /** `virtfb_set_par`: refreshes the fixed description, then
        reallocates exactly when there is no buffer or the recorded one is
        shorter than `yres_virtual * line_length`, releasing the old one
        (and zeroing `smem_len`) first; otherwise buffer, `smem_len` and
        `screen_size` stay. A failed allocation gives -ENOMEM, anything
        else 0; on success `smem_len` covers the virtual screen. */
    method SetPar(allocOk: bool) returns (r: int)
      modifies this`fix, this`screenSize, this`screenBase, this`freed
      ensures var ll := LineLength(varInfo.xresVirtual, varInfo.bitsPerPixel);
        fix.lineLength == ll && fix.fixType == FB_TYPE_PACKED_PIXELS && fix.accel == FB_ACCEL_NONE
        && fix.visual == FB_VISUAL_TRUECOLOR && fix.xpanstep == 1 && fix.ypanstep == 1 && fix.ywrapstep == 1
      ensures freed == old(freed)
      ensures var needed := NeededLen(varInfo.Value(), fix.lineLength);
        var remap := NeedsRemap(old(screenBase).Some?, needed, old(fix.smemLen));
        && (!remap ==> && screenBase == old(screenBase) && screenSize == old(screenSize)
                       && fix.smemLen == old(fix.smemLen) && fix.smemStart == old(fix.smemStart) && r == 0)
        && (remap ==> && fix.smemLen == (if old(screenBase).Some? || old(fix.smemLen) < needed then needed else old(fix.smemLen))
                      && fix.smemStart == 0 && screenSize == fix.smemLen as int
                      && screenBase == (if allocOk then Some(Vram(ScreenBytes(varInfo.Value()) as int)) else None)
                      && r == if allocOk then 0 else -ENOMEM)
      ensures r == 0 ==> fix.smemLen >= NeededLen(varInfo.Value(), fix.lineLength)
    {
      var retval := 0;
      var _ := SetFix();
      var memLen := Mul32(varInfo.yresVirtual, fix.lineLength);
      if screenBase.None? || memLen > fix.smemLen {
        if screenBase.Some? {
          var _ := UnmapVideoMemory();
        }
        var mapped := MapVideoMemory(allocOk);
        if mapped < 0 {
          return -ENOMEM;
        }
      }
      return retval;
    }

    /** `virtfb_check_var`: normalises the request `v` in place (see
        `Checked`) and always accepts it. */
    method CheckVar(v: VarScreenInfo) returns (r: int)
      modifies v
      ensures v.Value() == Checked(old(v.Value()))
      ensures r == 0
    {
      if v.xresVirtual < v.xres {
        v.xresVirtual := v.xres;
      }
      if v.yresVirtual < v.yres {
        v.yresVirtual := v.yres;
      }
      v.bitsPerPixel := 24;
      v.red := RED_24;
      v.green := GREEN_24;
      v.blue := BLUE_24;
      v.transp := NO_TRANSP;
      v.height := UNKNOWN_SIZE;
      v.width := UNKNOWN_SIZE;
      v.grayscale := 0;
      return 0;
    }

    /** `virtfb_pan_display`: moves the current pan offset to the one in
        the request `v` when it is in range (see `Pan`). */
    method PanDisplay(v: VarScreenInfo) returns (r: int)
      modifies varInfo`yoffset
      ensures var o := Pan(old(varInfo.yoffset), varInfo.yres, varInfo.yresVirtual, old(v.yoffset));
        r == o.ret && varInfo.yoffset == o.yoffset
    {
      if varInfo.yoffset == v.yoffset {
        return 0;
      }
      if Add32(v.yoffset, varInfo.yres) > varInfo.yresVirtual {
        return -EINVAL;
      }
      varInfo.yoffset := v.yoffset;
      return 0;
    }

    /** The geometry part of `virtfb_register`: visible and virtual
        resolution 32x32 at 24 bits per pixel, no buffer, then `check_var`
        on the own mode and `set_fix`. */
    method Register()
      modifies varInfo, this`fix, this`screenBase
      ensures varInfo.Value() == Checked(old(varInfo.Value()).(
                xres := DEFAULT_RES, xresVirtual := DEFAULT_RES,
                yres := DEFAULT_RES, yresVirtual := DEFAULT_RES, bitsPerPixel := DEFAULT_BPP))
      ensures varInfo.xresVirtual == 32 && varInfo.yresVirtual == 32 && varInfo.bitsPerPixel == 24
      ensures screenBase == None
      ensures fix == old(fix).(lineLength := 96,
                               fixType := FB_TYPE_PACKED_PIXELS, accel := FB_ACCEL_NONE,
                               visual := FB_VISUAL_TRUECOLOR, xpanstep := 1, ywrapstep := 1, ypanstep := 1)
    {
      varInfo.yres := DEFAULT_RES;
      varInfo.yresVirtual := varInfo.yres;
      varInfo.xres := varInfo.yresVirtual;
      varInfo.xresVirtual := varInfo.xres;
      varInfo.bitsPerPixel := DEFAULT_BPP;
      screenBase := None;
      var _ := CheckVar(varInfo);
      var _ := SetFix();
    }
  }

  /** The allocation does not follow `smem_len`: in a 32x32 mode with a
      64-line virtual screen the driver records 6144 bytes as `smem_len`
      and `screen_size` but asks `vmalloc_user` for 3072. */
  lemma AllocationBelowSmemLen()
    ensures var v := Var(32, 32, 32, 64, 0, 24, 0, RED_24, GREEN_24, BLUE_24, NO_TRANSP, UNKNOWN_SIZE, UNKNOWN_SIZE);
      var ll := LineLength(v.xresVirtual, v.bitsPerPixel);
      && ll == 96 && NeededLen(v, ll) == 6144 && ScreenBytes(v) == 3072
  {
  }
}
