# hyprbar, modelled in Dafny

hyprbar is a Wayland status bar built on the wlr-layer-shell protocol. It
comes in two builds: the program under `src/` and an earlier prototype at
the repository root (`bar.cpp`, `client.cpp`). This project models the
core both builds share:

- **The bar.** Construction fixes one dimension from the configuration,
  which is a union, so width and height are one integer. The configure
  handshake latches width, height, stride (`4 * width`) and buffer size
  (`stride * height`) on the first event only, and acknowledges every
  event. `draw` paints every pixel in row-major order.
- **The canvas.** A shared-memory buffer that is allocated, mapped and
  wrapped into a `wl_buffer`. `set_pixel` writes `x + y * width` after a
  bounds check, and destruction commits the frame with six requests in a
  fixed order.
- **Shared memory.** `allocate_shm_file` retries `ftruncate` while it is
  interrupted by a signal.
- **Registration.** `add_bar` derives each bar's size and anchor from its
  edge, sets its exclusive zone and commits.
- **Registry.** `handle_global` binds five globals by interface name. The
  startup check proceeds only if all five are bound; otherwise it lists
  the bound and the unbound ones.
- **Startup.** `start` registers a configure listener per bar, asks for an
  xdg_output, and runs the flush / select / dispatch / redraw loop.

The compositor, libwayland and the kernel are not modelled. The requests
of construction, registration, startup, a paint pass and a configure
event go into one ordered log, `Wayland.Wire.sent`. The event loop is
modelled apart, as an `EventLoop.Trace` of actions. Its `Dispatch` and
`Draw(i)` actions stand for the configure handler (`Bars.Bar.Configure`)
and the paint pass (`Bars.Bar.Draw`), whose requests are modelled by those
members and not repeated in the trace. Whatever the compositor or the
kernel answers is an input of the operation that asks:

- whether `memfd_create` succeeded;
- the successive `ftruncate` results;
- whether `mmap`, surface creation and xdg_output creation succeeded;
- the `global` events the registry roundtrip delivers;
- the successive `select` and `wl_display_dispatch` results.

`die`, `dief` and `exit(1)` become a fatal outcome.

The two builds share one `Bars.Bar` class and one `Canvases.Canvas` class.
A `Build` constant on the bar selects what differs between them:

- the colour painted: the gradient of `src/bar.cpp`, or the `x + y < 30`
  band of the prototype;
- which surface and layer surface the bar uses: its own in `src/`, or the
  client's shared ones in the prototype.

The clients are `HyprbarClient.Client` (`src/client.cpp`) and
`PrototypeClient.Client` (`client.cpp`).

Where the code and its documentation disagree, the model follows the
code:

- **The `set_pixel` bounds check.** The check rejects only `x > width`
  and `y > height`, so it lets `x == width` and `y == height` through.
  Such a write lands past the row, or past the mapping. The model keeps
  the check as written: `Canvases.Accepts` is the check, and writes
  beyond the mapping are recorded in `Canvas.outside`. `draw` itself
  never calls outside the canvas: `Bars.Bar.Draw` proves every one of its
  calls passes the check. For a configured bar every write also stays
  inside the mapping. An unconfigured bar is different. `Bar::Bar` leaves
  its `bufsize` (and, for top and bottom bars, its `width`) unset, and the
  loop redraws every bar without looking at `__configured`. In the
  prototype every bar after the first listens on a layer surface whose
  listener is already taken, so it may never be configured. Such a
  redraw writes `width * height` pixels into `bufsize / 4` cells.
  `Bars.Bar.Draw` states what then happens: every pixel whose cell lies
  past the mapping is written beyond it, and a mapping shorter than a
  non-empty canvas is always overrun.
- **The exclusive zone.** It is the bar's `height` field for every edge.
  For a left or right bar, the constructor has not set `height` by the
  time `add_bar` reads it. The model keeps it arbitrary rather than
  equal to the configured dimension.
- **Allocation failure.** A failed `memfd_create` or a failed `ftruncate`
  ends the program inside `allocate_shm_file`; it does not propagate to
  the canvas's caller. The model records this as the
  `Canvases.AllocEnded` failure of `Canvases.Open`.

The files, one module each:

| file | module | models |
|---|---|---|
| `wayland.dfy` | `Wayland` | shared vocabulary: positions, configs, anchors, requests and the request log |
| `shm.dfy` | `Shm` | `allocate_shm_file` |
| `canvas.dfy` | `Canvases` | `Bar::Canvas` |
| `bars.dfy` | `Bars` | `Bar`: constructor, `show`, `draw`, `layer_surface_configure` |
| `placement.dfy` | `Placement` | the size, anchor and exclusive-zone part of `add_bar` |
| `registry.dfy` | `Registry` | `handle_global`, `handle_global_remove`, the shared part of `init_wayland_connection` |
| `loop.dfy` | `EventLoop` | the event loop of `start` |
| `hyprbar_client.dfy` | `HyprbarClient` | `Client` of `src/client.cpp` |
| `prototype_client.dfy` | `PrototypeClient` | `Client` of `client.cpp` |

## Model

| member | source | states |
|---|---|---|
| Shm.Settled | src/client.cpp:108-110 | Finds where the retry loop stops: every earlier `ftruncate` result was EINTR, and the result at that position, if there is one, is not. |
| Shm.Attempts | src/client.cpp:108-110 | `n` retries issue exactly `n` `ftruncate(fd, size)` requests. |
| Shm.AllocateShmFile | src/client.cpp:103-119 | A failed `memfd_create` is fatal and issues nothing further. Otherwise `ftruncate` repeats up to and including the first result that is not EINTR. The call succeeds exactly when that result is a success; it dies after closing the descriptor exactly when that result is a failure. It is still retrying when every supplied result is EINTR. The requests are one `memfd_create`, one `ftruncate` per result consumed, and a `close` only before dying. The prototype's copy at `client.cpp:97-113` is the same function. |
| Shm.InterruptsAreRetried | src/client.cpp:108-110 | Putting `n` EINTR results in front of the trace moves the stopping point by `n` and adds exactly `n` calls. |
| Shm.SettledIgnoresTail | src/client.cpp:108-110 | Results after the first one that is not EINTR are never looked at. |
| Canvases.Canvas.SetPixel | src/bar.cpp:14-17 | Throws exactly when `x < 0`, `x > width`, `y < 0` or `y > height`. A throwing call leaves the pixels and the memory beyond them unchanged. An accepted call stores `color` at cell `x + y * width` and changes no other cell. When that index falls outside the mapping, the write goes to the memory beyond it. Every call is logged, and accepted ones are logged as writes. The prototype's `set_pixel` at `bar.cpp:14-17` has the same check and the same index. |
| Canvases.OffsetInside | src/bar.cpp:16 | A pixel strictly inside the canvas has its cell in `[0, width * height)`. |
| Canvases.OffsetInjective | src/bar.cpp:16 | Two pixels with columns in `[0, width)` share a cell only if they are the same pixel. |
| Canvases.CellHasPixel | src/bar.cpp:16 | Every cell `i` of a `width * height` buffer is the cell of the pixel `(i % width, i / width)`, which lies inside the canvas. That this pixel is the only one with cell `i` is `Canvases.OffsetInjective`. |
| Canvases.GuardAdmitsRowPastEnd | src/bar.cpp:15-16 | The check accepts `(0, height)`, which is not inside the canvas, and its cell is `width * height`: one past the end of a `width * height` buffer. |
| Canvases.ColumnPastEndWraps | src/bar.cpp:15-16 | The check accepts `(width, y)`, which is not inside the canvas, and that write lands on the cell of `(0, y + 1)`. |
| Canvases.StrictGuardStaysInside | src/bar.cpp:15-16 | With columns in `[0, width)`, a pixel is inside the canvas exactly when its cell lies in the buffer, and every pixel inside is accepted by the check as written. |
| Canvases.Open | src/bar.cpp:19-27 | Construction allocates the shared memory and then maps `bufsize` bytes; it fails exactly when allocation ended badly, or mapping failed, or the length is not positive. On success the canvas is fresh, snapshots `width` and `height`, and has `bufsize / 4` zeroed cells. It issues the allocation requests, the `mmap`, and then a pool over the whole descriptor, a buffer at offset 0 with the snapshotted size, stride `4 * width` and ARGB8888, a release listener, and the destruction of the pool. The prototype's constructor at `bar.cpp:19-27` is the same. |
| Canvases.CloseRequests | src/bar.cpp:29-37 | Destruction always issues six requests, starting with `munmap` of the buffer size and ending with `commit` and `close`. |
| Canvases.Canvas.Close | src/bar.cpp:29-37 | Destruction appends `munmap`, scale 1, attach at `(0, 0)`, damage `(0, 0, width, height)`, commit, `close` to the log, whatever was written. The requests target the canvas's surface. The prototype's destructor at `bar.cpp:29-37` makes the same six requests, to the client's shared surface. |
| Canvases.Canvas.Mapped | src/bar.cpp:19-21 | A freshly mapped canvas has `Cells(bufsize)` cells (`bufsize / 4` for a positive size, else none), all zero, and nothing written beyond them. |
| Bars.Gradient | src/bar.cpp:61-67 | The `src/` colour of pixel `(x, y)` has alpha 0xFF, red `x % 256`, green `y % 256` and blue 127. |
| Bars.RowAt | src/bar.cpp:66-68 | One pass of the inner loop visits `(0, y) .. (n - 1, y)` in order. |
| Bars.RowMajorLength | src/bar.cpp:65-69 | The nested loops make `width * height` calls. |
| Bars.RowMajorAt | src/bar.cpp:65-69 | The `i`-th call is on the pixel inside the canvas whose cell is `i`. |
| Bars.RowMajorVisitsEachPixelOnce | src/bar.cpp:65-69 | The paint pass visits every pixel of `[0, width) x [0, height)` exactly once, each at the position of its own cell. |
| Bars.RowMajorIsOrdered | src/bar.cpp:65-69 | Of two calls, the earlier one is on an earlier row, or on the same row further left. |
| Bars.PaintedIsUnique | src/bar.cpp:58-70 | A fully painted frame is determined by its size and build: two painted buffers of the same size are equal cell for cell. |
| Bars.Bar.constructor | src/bar.cpp:39-50 | A top or bottom bar takes its height from the configuration, and a left or right bar its width. The other fields are left indeterminate, and the bar starts unconfigured. The prototype's constructor at `bar.cpp:39-50` is the same. |
| Bars.Bar.Show | src/bar.cpp:102-104 | Registers one configure listener on the bar's layer surface, with the bar as user data. |
| Bars.Bar.Paint | src/bar.cpp:65-69 | The calls are exactly the row-major visiting order, and none is rejected by the check. When the mapping holds `width * height` cells, every pixel ends up holding its colour and nothing is written beyond the mapping. Otherwise every pixel whose cell lies past the mapping is written beyond it with its colour. The prototype's loops at `bar.cpp:59-63` are the same and paint its band: `0xFF181818` where `x + y < 30`, else 0. |
| Bars.Bar.PaintRow | src/bar.cpp:65-69 | One pass of the outer loop moves the paint pass from the start of row `y` to the start of row `y + 1`. The calls grow by row `y`. With a mapping of `width * height` cells, the painted prefix grows by that row and later cells stay zero. With any other mapping, the record of writes beyond the mapping then contains every pixel of rows `0 .. y` whose cell lies past the mapping, with its colour. |
| Bars.Bar.PaintPixel | src/bar.cpp:66-68 | One `set_pixel(x, y, colour)` call passes the check and moves the paint pass on by one pixel, in both of those senses. |
| Bars.Bar.Draw | src/bar.cpp:58-70 | A paint pass constructs a canvas from the current fields and paints it. It commits exactly when construction succeeds, issuing the construction requests followed by the six destruction requests. Every pixel is visited once in row-major order, and no call throws. The canvas has the bar's `bufsize` and `bufsize / 4` cells. A configured bar ends with every pixel painted and no write outside the buffer. For any bar, each pixel whose cell lies past the mapping is written beyond it with its colour, so a mapping shorter than a non-empty canvas is overrun. The prototype's `draw` at `bar.cpp:52-64` is the same and commits to the shared surface. |
| Bars.Bar.Configure | src/bar.cpp:74-90 | Every event is acknowledged with its serial on the bar's layer surface. An already configured bar keeps every field and does not draw. The first event sets width `w`, height `h`, stride `4w`, buffer size `4wh` and configured, and then draws once. That draw yields a canvas exactly when it commits, and the canvas holds the full frame, with nothing written beyond the buffer. The prototype's handler at `client.cpp:159-175` is the same, with the acknowledgement on the shared layer surface. |
| Bars.FirstConfigureWins | src/bar.cpp:79-85 | After any series of configure events on an unconfigured bar, its fields are those of the first event. |
| Bars.ConfiguredStays | src/bar.cpp:79 | A configured bar's fields never change again, and it never becomes unconfigured. |
| Bars.LatchKeepsGeometry | src/bar.cpp:81-85 | Configure events keep `stride == 4 * width` and `bufsize == stride * height` for a configured bar. A bar is configured afterwards exactly when it was before or some event arrived. |
| Bars.TopBarOf1920Output | src/bar.cpp:81-85 | A 32-pixel top bar on a 1920-pixel output gets stride 7680 and buffer size 245760, whatever events follow. |
| Placement.Anchor | src/client.cpp:39-60 | The anchor mask holds the bar's own edge, not the opposite one, and every other edge: exactly three of the four bits. The prototype's masks at `client.cpp:33-54` are the same. |
| Placement.AnchorsOfOppositeEdges | src/client.cpp:39-60 | Bars on opposite edges have different masks, and they share exactly the two edges across them. |
| Placement.SizeRequest | src/client.cpp:39-60 | A top or bottom bar asks for `(0, height)`, and a left or right bar for `(width, 0)`. |
| Placement.SizeUsesConfiguredDimension | src/client.cpp:39-60 | For a bar fresh from the constructor, the size asked for is the configured dimension across the edge and 0 along it, whatever the unset field holds. |
| Placement.ExclusiveZoneOfHorizontalBars | src/client.cpp:62 | A top or bottom bar fresh from the constructor reserves its configured thickness. |
| Placement.Place | src/client.cpp:39-62 | Appends the size, the anchor mask and the exclusive zone, which is the `height` field for every edge, to the log. |
| Registry.LookupIsExact | src/client.cpp:139-149 | An advertised interface name selects a slot exactly when it is that slot's interface name. |
| Registry.Slots.Set | src/client.cpp:139-149 | Binding a slot changes that slot and no other. |
| Registry.RecordTouchesOneSlot | src/client.cpp:139-149 | A `global` event binds the slot its name selects and leaves the other four unchanged. |
| Registry.LastAdvertWins | src/client.cpp:134-150 | Starting from five null slots, a slot is bound exactly when some advertisement names its interface, and then to the last such advertisement. |
| Registry.Globals.HandleGlobal | src/client.cpp:134-150 | An event binds the selected slot, overwriting it, at version 4, 1, 1, 2 or 1, whatever version was advertised. An unknown interface changes nothing and issues nothing. The prototype's `handle_global` at `client.cpp:128-144` is the same. |
| Registry.Globals.HandleGlobalRemove | src/client.cpp:152-156 | Ignores the event: the slots stay as they were. |
| Registry.ListedMembers | src/client.cpp:184-193 | A listing holds exactly the interfaces whose slot is in the state asked for. |
| Registry.ListedAscending | src/client.cpp:184-193 | A listing keeps the fixed order compositor, shm, layer_shell, output_manager, output. |
| Registry.ListedLengths | src/client.cpp:184-193 | The two listings together have one entry per interface. |
| Registry.CheckPartitions | src/client.cpp:174-198 | Startup proceeds exactly when all five slots are bound. Otherwise every interface is in exactly one of the two lists: the bound ones first, then the unbound ones. Each list is in the fixed order, and the unbound list is never empty. The prototype's check at `client.cpp:198-222` is the same. |
| Registry.Connect | src/client.cpp:165-199 | It dies without a runtime directory or without a display, and then issues nothing. Otherwise it issues the registry request and the roundtrip, and then runs `handle_global` for each advertisement in order, so the slots and the bind requests are those of the whole series. It proceeds exactly when the check does. |
| EventLoop.DrawAll | src/client.cpp:96-98 | Redrawing issues `draw` on bar 0, 1, and so on up to the last, in registration order. |
| EventLoop.DrawBars | src/client.cpp:96-98 | The redraw loop appends one draw per bar, in registration order. |
| EventLoop.Loop | src/client.cpp:75-100 | The loop runs one iteration per wake-up. Each iteration flushes and selects. EINTR goes on to the next iteration. Any other `select` error is fatal. A readable display descriptor is dispatched, and a dispatch result of -1 leaves the loop. Otherwise every bar is redrawn. The prototype's loop at `client.cpp:69-94` is the same. |
| EventLoop.Step | src/client.cpp:76-99 | One iteration leaves the loop exactly on a failed `select` or a failed dispatch, having flushed, selected and (for a dispatch) dispatched. Otherwise it takes the actions of a full iteration. |
| EventLoop.RunIsIterations | src/client.cpp:76-99 | The loop makes one full iteration per wake-up up to the first one that ends it, and that wake-up decides the end: fatal, `break`, or still running. |
| EventLoop.FlushPrecedesSelect | src/client.cpp:83-85 | Every `select` immediately follows a flush. |
| EventLoop.InterruptsOnlyRetry | src/client.cpp:85-87 | `n` interrupted `select` calls add `n` flush-and-select pairs and nothing else, and they do not change how the loop ends. |
| EventLoop.FailedDispatchBreaks | src/client.cpp:92-94 | A failed dispatch leaves the loop. The last action is that dispatch, so no bar is drawn after it, and later wake-ups make no difference. |
| EventLoop.StopIgnoresTail | src/client.cpp:85-94 | Wake-ups after the one that ends the loop are never looked at. |
| EventLoop.RedrawsEveryBar | src/client.cpp:92-98 | Every wake-up that neither fails nor is interrupted redraws all bars in order, including one where only the socket or stdin is readable. An interrupted one draws nothing. Dispatch happens exactly when the display descriptor is readable. |
| HyprbarClient.Client.constructor | src/client.cpp:17-19 | Client construction is `init_wayland_connection`: its outcome, slots and requests are those of `Registry.Connect`, and the client starts with no bars. |
| HyprbarClient.Client.AddBar | src/client.cpp:27-64 | The new bar is appended after the existing bars, whose order is unchanged. It creates the bar's surface and then its layer surface on the bottom layer with namespace "hyprbar"; each creation is fatal if it fails, and nothing further is sent after a failure. Then come the size (the configured dimension across the edge), the three-edge anchor mask, the exclusive zone (the `height` field), and a commit of the bar's surface. |
| HyprbarClient.SetupRequestsAt | src/client.cpp:67-73 | Per bar, in order: a configure listener on the bar's own layer surface, then an xdg_output request. |
| HyprbarClient.FirstRefused | src/client.cpp:67-73 | Finds the first bar whose xdg_output is refused; every earlier one was granted. |
| HyprbarClient.Client.ShowAll | src/client.cpp:67-73 | Shows the bars and asks for their xdg_outputs in order. It stops at the first refusal, which it returns, after that bar's two requests; with no refusal it returns the number of bars. |
| HyprbarClient.Client.Start | src/client.cpp:66-101 | Every bar is shown and asks for its xdg_output, in order, up to and including the first refusal, which is fatal before the loop. With every output granted, a display descriptor of 0 returns at once; any other runs the event loop with all bars. |
| PrototypeClient.Client.constructor | client.cpp:189-231 | After a successful connection and check, it creates the one shared surface and then the one shared layer surface; each failure is fatal and stops the requests there. |
| PrototypeClient.Client.AddBar | client.cpp:30-58 | Appends the bar and places the one shared layer surface from the bar's edge and fields, with the exclusive zone as the `height` field. Then it commits the shared surface. |
| PrototypeClient.Listeners | client.cpp:61-63 | One configure listener per bar, in order, all on the shared layer surface, each with its own bar as user data. |
| PrototypeClient.Client.Start | client.cpp:60-95 | Registers every bar's listener on the shared layer surface, then asks for the one xdg_output; a refusal is fatal. Then it returns for a display descriptor of 0, or runs the event loop with all bars. |
| PrototypeClient.BarsShareSurfaces | bar.cpp:29-37 | Every prototype bar commits to the client's one surface and listens on its one layer surface. |

## Left out

- FreeType (`init_font` and its error strings): a foreign library that drawing never calls.
- The destructors `~Client` and `~Bar`: they only release libwayland handles.
- The logging and terminal colours of `src/common.cpp`: they are I/O. `die`, `dief` and `exit(1)` are modelled as a fatal outcome.
- libwayland, the compositor, `memfd_create`, `ftruncate`, `mmap`, `munmap`, `close` and `select`:
  - their results are inputs;
  - the descriptor sets `select` watches are reduced to "the display descriptor is readable" or "only another descriptor is readable";
  - the `wl_buffer` release listener, the `closed` event and the contents of the xdg_output are not modelled.
- Canvases.Canvas.SetPixel: a write the check accepts beyond the mapping is undefined behaviour in the source. The model records it in `outside` instead of corrupting memory.
- Canvases.Open: the result of `mmap` is modelled by one flag. A non-positive length is taken to fail, and no other kernel behaviour is modelled.
- Shm.AllocateShmFile: it runs over a finite list of `ftruncate` results. A signal storm that never ends is the `StillRetrying` outcome, not a loop that never terminates.
- Bars.Bar.Configure: the integers are unbounded. The source stores `w` and `h` in an `int`, so sizes of 2^31 and above wrap there, and `__width * 4` and `__stride * __height` overflow once the buffer reaches 2 GiB. Neither is modelled.
- Bars.Gradient: the colour is computed on naturals. It is not built with the signed `int` shifts of the `rgb` lambda; the two agree for the values `draw` passes.
- EventLoop.Loop: the trace is separate from `Wayland.Wire.sent`. The requests of a dispatch (the configure acknowledgement and first paint) and of each redraw are not appended to the log in loop order; `Bars.Bar.Configure` and `Bars.Bar.Draw` model them one call at a time. Each redraw is one `Draw(i)` action. The canvas construction inside it is modelled by `Bars.Bar.Draw`, not repeated in the loop trace. A redraw that dies (allocation) or throws (mapping) therefore does not end the trace.
- Registry.Globals.HandleGlobal: a slot records the registry name it was bound from rather than a proxy, and `wl_registry_bind` is taken never to return null.
- The layer surface request does not record the `wl_output` it is created for.
- PrototypeClient.Client.Start: it records one listener registration per bar on the shared layer surface. libwayland keeps only the first listener set on a proxy, and which registration takes effect is not modelled.
- `src/hyprbar.cpp` and `main.cpp` are entry points that only build fixed configurations. `src/hyprbar.cpp` passes a bar where `src/client.cpp` takes a configuration; the model follows `src/client.cpp`.
