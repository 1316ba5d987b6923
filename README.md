# ledfb: LED matrix framing and framebuffer bookkeeping, modelled in Dafny

The ledfb repository drives LED matrix panels over raw Ethernet. This
project models three of its parts:

- **The two senders.** `ledfbd.c` is a daemon that reads a 32x32x3
  snapshot of the framebuffer. It gamma-corrects each byte and sends the
  picture as four 768-byte sections. Each section is an Ethernet II frame
  with type 0x0800 and payload `[opcode][section][pixels]`, laid out in
  a global 9000-byte buffer. `ledctrl.c` is a one-shot tool. It writes a
  header with type 0x0801 once into a 2000-byte static buffer, then sends
  `[opcode][arg bytes]` to every configured panel. The header layout is
  the MAC frame format of IEEE 802.3 clause 3.1.1: destination, source,
  then a 2-byte type in network byte order.
- **The kernel framebuffer drivers `ledfb.c` and `ledfb-fb.c`.** Both
  normalise mode requests (`check_var`), derive the stride (`set_fix`),
  pan, and decide when to reallocate the video memory (`set_par`,
  `map`/`unmap`). The two files differ in how `map_video_memory` sizes
  `smem_len`, so each has its own module.

Modules: `Base` (bytes, C's 8-bit narrowing), `Ethernet` (header
encoding and parsing, the `sendto` log), `Ledfbd`, `Ledctrl`, `FbTypes`
(the `__u32` fields and the value-level meaning of the shared
callbacks), `Ledfb` and `LedfbFb`.

Some code changes state in place. That code uses classes over arrays and
fields, as the source does: the send buffers are `array<byte>` and the
`fb_info`/`fb_var_screeninfo` structures are classes. Each method
is tied to a specification function: `Frame`, `Flipped`, `Corrected`,
`CycleLog`, `PanelLog`, `Checked`, `LineLength`, `ScreenBytes` or `Pan`.
Lemmas then prove what the source promises about those functions:
frame round trips, field offsets, the swap undoing itself, the sections
tiling the picture, and the frames for different panels differing only
in the destination.

The fb fields are `__u32`. Every product and sum the drivers compute is
taken modulo 2^32 (`Mul32`, `Add32`). C's store of an integer into a
byte keeps its low 8 bits (`Truncate8`, Euclidean `% 256`).

Calls to the outside world become parameters:
- `sendto`:
  - each call appends `Transmission(address, bytes, delivered)` to a log
    field;
  - `delivered` is the kernel's answer, given as a parameter.
- The interface lookups of `ledctrl` (`socket`, `SIOCGIFINDEX`,
  `SIOCGIFHWADDR`, `SIOCGIFMTU`) are an `Interface` value, where each
  lookup may fail.
- `strtol(argv[i], NULL, 16)` is given as the integer `argv[i]`.
- `vmalloc_user` either succeeds (`allocOk`) or returns NULL.
- The gamma curve is a parameter `gamma: byte -> byte`.

## Model

| member | source | states |
|---|---|---|
| `Ethernet.HostOrderOfNetOrder` | ledfbd.c:58 | the two bytes `htons` writes, read back in network order, give back the 16-bit type |
| `Ethernet.ParseOfHeader` | ledctrl.c:99-110 | a frame made of destination, source, big-endian type and payload parses back to exactly those fields |
| `Ethernet.HeaderOfParse` | ledctrl.c:99-110 | every frame of at least 14 bytes is the header of its parsed fields followed by its parsed payload |
| `Ethernet.Parse` | ledfbd.c:33 | a frame parses exactly when it is at least a header long; the payload is the remaining bytes and the type is below 2^16 |
| `Ledfbd.FrameLayout` | ledfbd.c:45-68 | bytes 0..5 are DE:AD:BE:EF:C0:DE, 6..11 the interface address, 12..13 are 0x08 0x00, byte 14 is opcode mod 256, byte 15 is section mod 256, then the payload; length 16 + size |
| `Ledfbd.ParsePacket` | ledfbd.c:59-68 | a frame has an opcode and a section exactly when it is at least 16 bytes long |
| `Ledfbd.ParseOfFrame` | ledfbd.c:43-68 | a receiver recovers destination, source, type 0x0800, the narrowed opcode and section, and the exact payload bytes |
| `Ledfbd.FrameOfParse` | ledfbd.c:43-68 | conversely, every parsed frame with the fixed destination and type is the frame of its own opcode, section and data |
| `Ledfbd.Daemon.constructor` | ledfbd.c:27-35 | the global send buffer is 9000 zero bytes and the socket address is zero |
| `Ledfbd.Daemon.EthSend` | ledfbd.c:38-85 | the buffer holds the frame followed only by zeros (the memset); the socket address gets the interface index, length 6 and the fixed destination; exactly one transmission of the frame is logged, whether or not it is delivered; requires 16 + size <= 9000 because the copy is unchecked |
| `Ledfbd.Daemon.WriteHeader` | ledfbd.c:42-58 | bytes 0..13 become the header with the fixed destination, the interface address and htons(ETH_P_IP); bytes from 14 on are untouched |
| `Ledfbd.Flipped` | ledfbd.c:88-98 | the swapped bytes have the same length as the input |
| `Ledfbd.FlippedAt` | ledfbd.c:91-96 | for each pixel k: dst[3k] = src[3k+2], dst[3k+1] = src[3k+1], dst[3k+2] = src[3k] |
| `Ledfbd.FlippedTwice` | ledfbd.c:88-98 | swapping twice gives back the original bytes |
| `Ledfbd.FlipRgb` | ledfbd.c:88-98 | the first 3072 bytes of `dst` are the swapped first 3072 bytes of `src`, and nothing past byte 3071 changes |
| `Ledfbd.Corrected` | ledfbd.c:150-151 | byte i of the corrected picture is gamma applied to byte i of the snapshot, and the lengths match |
| `Ledfbd.CorrectPixels` | ledfbd.c:149-151 | all 3072 bytes of `pixels2` are written, each from the byte at the same index of the snapshot |
| `Ledfbd.Section` | ledfbd.c:153-156 | section k has 768 bytes, and its byte j is picture byte k*768 + j |
| `Ledfbd.SectionsTile` | ledfbd.c:153-156 | sections 0..3 concatenated are the whole picture, with no gap and no overlap |
| `Ledfbd.SectionOfByte` | ledfbd.c:153-156 | picture byte j travels in section j / 768 at offset j % 768, and lies in no other section's range |
| `Ledfbd.Daemon.Cycle` | ledfbd.c:146-156 | one pass of the loop: `pixels2` is the corrected snapshot; four frames, sections 0..3 with opcode 0x29, are logged in order whatever each send reports; the buffer ends with the last frame |
| `Ledfbd.CycleLog` | ledfbd.c:153-156 | the four transmissions all go to the fixed destination on the interface, with each one's reported outcome |
| `Ledfbd.CycleLogCarriesPicture` | ledfbd.c:150-156 | every frame of a pass parses as opcode 0x29, its section number and that section's bytes, and the four sections together are the picture |
| `Ledctrl.Payload` | ledctrl.c:199-205 | byte 0 is the opcode mod 256 and byte 1 + i is argument i mod 256; the length is 1 + number of arguments |
| `Ledctrl.FrameLayout` | ledctrl.c:97-110 | each frame has the destination in bytes 0..5, the source in 6..11, 0x08 0x01 in 12..13, then the payload; 15 + (argc - 3) bytes |
| `Ledctrl.FramesDifferOnlyInDestination` | ledctrl.c:199-208 | frames for two panels have the same length and agree on every byte after the destination |
| `Ledctrl.ParseOfFrame` | ledctrl.c:97-127 | a panel reads back the source address, type 0x0801 and exactly the opcode and argument bytes |
| `Ledctrl.PanelLog` | ledctrl.c:197-211 | there is one entry per panel, in panel order, addressed with length 6 and that panel's address on the interface, with that send's outcome |
| `Ledctrl.PanelLogSamePayload` | ledctrl.c:197-211 | each logged frame starts with its own panel's address, and all frames agree after it |
| `Ledctrl.Controller.constructor` | ledctrl.c:82 | the static packet buffer starts as 2000 zero bytes and nothing has been sent |
| `Ledctrl.Controller.EthPreparePacket` | ledctrl.c:97-111 | returns 14; bytes 6..11 are the source address and 12..13 are 0x08 0x01; no other byte changes |
| `Ledctrl.Controller.EthSendPacket` | ledctrl.c:113-128 | only bytes 0..5 change, to `dst`; one `sendto` of the first `len` bytes to index `ifindex`, halen 6, address `dst` is logged; returns `len` or -1 |
| `Ledctrl.Controller.WritePayload` | ledctrl.c:199-205 | writes the opcode and then each argument after the header, returns 1 + number of arguments, and changes no other byte |
| `Ledctrl.Controller.SendPanelFrame` | ledctrl.c:199-211 | the buffer starts with this panel's complete frame, later bytes keep their values, and one send of exactly that frame is logged |
| `Ledctrl.Controller.Run` | ledctrl.c:146-222 | with fewer than 3 arguments or a failed socket/ioctl it sends nothing and returns -1; otherwise every panel in order gets its frame, failed sends do not stop the loop, and it returns 0 |
| `FbTypes.VarScreenInfo.constructor` | ledfb.c:232 | a freshly allocated mode structure is all zeros |
| `FbTypes.Checked` | ledfb.c:127-157 | virtual resolution is at least the visible one and changes only when it was smaller; 24 bpp with red 16/8, green 8/8, blue 0/8, no transparency; height and width -1 (as `__u32`), grayscale 0; resolution and pan offset kept |
| `FbTypes.CheckedIdempotent` | ledfb.c:127-157 | normalising a normalised mode changes nothing |
| `FbTypes.LineLength` | ledfb.c:83 | the `__u32` product `xres_virtual * bits_per_pixel`, divided by 8 with integer division; exact (3 * xres_virtual at 24 bpp) when the product does not wrap |
| `FbTypes.NeededLen` | ledfb.c:108 | `yres_virtual * line_length` as `__u32`, exact when it does not wrap |
| `FbTypes.ScreenBytes` | ledfb.c:38 | `xres * yres * (bits_per_pixel / 8)` as `__u32`, exact when it does not wrap |
| `FbTypes.Pan` | ledfb.c:165-177 | the current offset succeeds with no change; a request whose `__u32` sum with `yres` exceeds `yres_virtual` gets -EINVAL with no change; any other is stored and returns 0 |
| `FbTypes.PanStaysInside` | ledfb.c:171-174 | when the sum does not wrap, a changed offset satisfies yoffset + yres <= yres_virtual |
| `FbTypes.PanAcceptsWrappedSum` | ledfb.c:171 | because the test is on the wrapped sum, offset 0xFFFFFFF0 on a 32-line screen is accepted |
| `Ledfb.FbInfo.constructor` | ledfb.c:227-241 | a fresh `fb_info` has all fields zero and no buffer |
| `Ledfb.FbInfo.MapVideoMemory` | ledfb.c:36-53 | `screen_size` = `smem_len` = xres*yres*(bpp/8), `smem_start` = 0, and that many bytes are allocated; returns -ENOMEM and leaves `screen_base` NULL when allocation fails |
| `Ledfb.FbInfo.UnmapVideoMemory` | ledfb.c:60-67 | `screen_base` becomes NULL and `smem_len` 0; `vfree` gets the cleared pointer, so nothing is freed; returns 0 |
| `Ledfb.FbInfo.Vfree` | ledfb.c:64 | a NULL pointer frees nothing |
| `Ledfb.FbInfo.SetFix` | ledfb.c:78-93 | `line_length` = LineLength(xres_virtual, bpp); packed pixels, no acceleration, true colour, steps of 1; returns 0 |
| `Ledfb.FbInfo.SetPar` | ledfb.c:99-120 | it reallocates exactly when there is no buffer or `yres_virtual*line_length` > `smem_len`; otherwise buffer, `smem_len` and `screen_size` are unchanged; after a reallocation `smem_len` is the visible size; -ENOMEM exactly when that allocation fails |
| `Ledfb.FbInfo.CheckVar` | ledfb.c:127-157 | the request becomes `Checked` of itself; returns 0 |
| `Ledfb.FbInfo.PanDisplay` | ledfb.c:165-177 | the result code and the new `yoffset` are those of `Pan`; only `yoffset` may change |
| `Ledfb.FbInfo.Register` | ledfb.c:243-258 | visible and virtual resolution come from the module parameters (as `__u32`) at 24 bpp with no buffer, then check_var and set_fix |
| `Ledfb.DefaultGeometry` | ledfb.c:23-24 | with the default parameters the mode is 128x96 and `line_length` is 384 |
| `Ledfb.RemapCanStayShort` | ledfb.c:38-39 | a 32x32 mode with 64 virtual lines needs 6144 bytes but is given 3072, so the next `set_par` reallocates again |
| `LedfbFb.FbInfo.constructor` | ledfb-fb.c:223-237 | a fresh `fb_info` has all fields zero and no buffer |
| `LedfbFb.FbInfo.MapVideoMemory` | ledfb-fb.c:182-199 | `smem_len` is raised to `yres_virtual*line_length` if smaller and never lowered; `screen_size` = `smem_len`, `smem_start` = 0; xres*yres*(bpp/8) bytes are allocated; -ENOMEM on failure |
| `LedfbFb.FbInfo.UnmapVideoMemory` | ledfb-fb.c:206-213 | `screen_base` becomes NULL and `smem_len` 0; nothing is freed; returns 0 |
| `LedfbFb.FbInfo.Vfree` | ledfb-fb.c:210 | a NULL pointer frees nothing |
| `LedfbFb.FbInfo.SetFix` | ledfb-fb.c:37-52 | `line_length` = LineLength(xres_virtual, bpp) and the fixed description; returns 0 |
| `LedfbFb.FbInfo.SetPar` | ledfb-fb.c:59-80 | reallocates under the same condition as `ledfb.c`; on success (0) `smem_len` >= `yres_virtual*line_length`; -ENOMEM exactly when a needed allocation fails |
| `LedfbFb.FbInfo.CheckVar` | ledfb-fb.c:87-117 | the request becomes `Checked` of itself; returns 0 |
| `LedfbFb.FbInfo.PanDisplay` | ledfb-fb.c:125-137 | the result code and the new `yoffset` are those of `Pan`; only `yoffset` may change |
| `LedfbFb.FbInfo.Register` | ledfb-fb.c:239-253 | resolution and virtual resolution 32x32 at 24 bpp, no buffer, then check_var and set_fix, which gives `line_length` 96 |
| `LedfbFb.AllocationBelowSmemLen` | ledfb-fb.c:184-191 | a 32x32 mode with 64 virtual lines records 6144 bytes as `smem_len` but allocates 3072, so the two can differ |

## Left out

- Gamma correction `correct_gamma` (ledfbd.c:100-103) and the frame-rate
  computation (ledfbd.c:158-170) are floating-point code. The gamma curve
  is a parameter function.
- Timing is not modelled: `usleep`, `clock_us` and the unused
  `FRAME_CYCLE_TIME`.
- `Ledfbd.Daemon.Cycle` models one pass of the `while (1)` loop, not
  the endless repetition. The snapshot is taken as stable during the
  pass: its concurrent writer is outside the model.
- Opening `/dev/fb1`, `mmap`, `socket`, the interface ioctls of
  `ledfbd.c` and `close` are not modelled. Their results reach the
  model as `Daemon` constructor parameters: the interface address and
  index. When a lookup fails, the zeroed request is just another such
  value.
- `Ledfbd.FlipRgb` requires distinct buffers. Nothing in the source
  calls `flip_rgb`, and called in place it would not swap the channels.
- `strtol` parsing in `ledctrl.c`: the arguments arrive already
  parsed. `Ledctrl.Controller.Run` ignores the MTU it looks up, as the
  source does.
- The `SIGINT` handler and `closereq` (ledctrl.c:79, 135-139) are
  left out: the flag is set but never read.
- Kernel plumbing of both drivers is left out: `framebuffer_alloc`
  flags, the fix id string, the mode list, `fb_set_var`, console locking,
  `register_framebuffer`, `virtfb_mmap`/`remap_vmalloc_range`, module
  init and exit. The fb core also checks pan requests before calling the
  driver; that check is outside the model.
- The `ledfb-userland` character device is outside the model.
- `Ledfb.FbInfo.Register` and `LedfbFb.FbInfo.Register` cover only the
  geometry part of `virtfb_register`, not the registration that follows.
