# egui-wgpu-x11 overlay: a Dafny model of its window and frame-loop logic

The program opens a borderless, transparent, click-through X11 window that it keeps
above all other windows, and renders GPU content into it every frame. This project
models the decision logic and bookkeeping under the X11 and wgpu plumbing:

- **The display connection** (`XServer.Connection`) is an object that records every
  request sent on it. It answers the three questions the overlay asks from tables
  the server is assumed to hold: fresh resource ids (`freeIds`), atoms (`atoms`) and
  QueryTree replies (`trees`, children listed bottom to top).
- **The overlay window manager** (`Overlay`, from `src/x11.rs`) covers the
  following:
  - `create_overlay_window`: visual selection, then the ordered colormap /
    CreateWindow / input-passthrough / always-on-top requests.
  - `input_passthrough`: an empty XFIXES region set as the input shape, with the
    bounding shape removed.
  - `always_on_top`: the EWMH `_NET_WM_STATE` client message with action ADD (1) and
    `_NET_WM_STATE_ABOVE`.
  - `raise_if_not_top`: restack with stack mode Above unless the window is the last
    child of the root.
- **What the shape requests mean** (`ShapeModel`) is a small reference semantics of
  the XFIXES region requests and `SetWindowShapeRegion`. It gives the passthrough
  requests an independent meaning: after them the window is drawn over its whole
  rectangle but has an empty input shape.
- **The presentation loop** (`Presentation`, from `src/main.rs`) covers the
  following:
  - the window geometry derived from the screen (offset 100, margin 200);
  - `State`'s size/configuration bookkeeping and `resize`;
  - the frame loop as a class with a `Step` method and a `Run` method. `Run` is
    driven by a sequence of render outcomes and a sequence of "event pending" poll
    results. It reacts to the four-way surface-error classification and keeps the
    modulo-30 counter that schedules the stacking check.

Panics (`unwrap` on the depth-32 search or on the first visual, and the unsigned
subtraction `width - 200` in a build with overflow checks) and propagated errors (`?`)
both become `Err` values of `XServer.Failure`. Both end the process.

Details of the code that the model keeps:

- The window is created with border width 0 (src/x11.rs:129).
- The stacking-check counter `i` starts at 1 and advances modulo 30 on every
  iteration, whether or not an event was pending (src/main.rs:233, 252). The check
  runs when no event is pending and `i == 0` (src/main.rs:246-250).
- The window handle given to the GPU surface carries the screen's root visual
  (src/main.rs:223), not the depth-32 visual the window was created with
  (src/x11.rs:131).
- The initial surface configuration uses the window size as computed
  (src/main.rs:39, 67-68). Nothing keeps it non-zero, so it is zero on a screen
  exactly 200 pixels wide or high.
- The atom lookups pass only-if-exists false (src/x11.rs:57, 61). The model's
  connection answers a lookup of a name missing from its atom table with an error
  reply; that case stands for any failed InternAtom reply.

## Model

| member | source | states |
|---|---|---|
| `Overlay.RaiseRequests` | src/x11.rs:88-93 | No restack is issued iff the child list is non-empty and its last (topmost) element is the overlay. Otherwise exactly one ConfigureWindow is issued, on the overlay, with only stack mode Above set. |
| `Overlay.EmptyTreeRaises` | src/x11.rs:90-92 | An empty child list triggers the restack. |
| `Overlay.RaiseIdempotentWhenTopmost` | src/x11.rs:88-93 | When the overlay is already the last child, the check sends only its QueryTree. |
| `Overlay.RaiseIfNotTop` | src/x11.rs:84-96 | Sends QueryTree on the root, then the restack decision's requests. Fails, with nothing more sent, when the QueryTree reply is an error. |
| `Overlay.FindDepth` | src/x11.rs:110 | The index of the first allowed depth equal to the requested one, or none exactly when no entry has that depth. |
| `Overlay.SelectVisual` | src/x11.rs:109-117 | Fails with NoDepth32 iff no entry has depth 32. On success the visual is the first visual of the first depth-32 entry. NoVisual means that entry's visual list is empty. No other failure is possible. |
| `Overlay.SelectVisualUsesFirstDepth32` | src/x11.rs:110-116 | Only the first depth-32 entry is consulted. When its visual list is empty, creation fails even if a later depth-32 entry has visuals. |
| `Overlay.PassthroughIsScoped` | src/x11.rs:24-45 | The passthrough requests create the region first and destroy it exactly once, last. Only the input-shape request uses the region; the bounding request uses None. |
| `Overlay.PassthroughMakesClickThrough` | src/x11.rs:24-45 | Applied on a server where the region id is free, the requests leave the window with no bounding shape (its full rectangle is drawn) and an empty input shape. No region is left behind and no error is raised. |
| `Overlay.PassthroughAsWrittenRaisesBadRegion` | src/x11.rs:24-48 | As written, the region is destroyed twice, so the server reports an error for the second DestroyRegion and the region is not used as a scoped resource. Apart from that error, the result is the corrected one: Bounding unshaped, Input empty, no region left behind. |
| `Overlay.InputPassthrough` | src/x11.rs:20-48 | Takes one resource id. The log grows by create region, set Bounding to None, set Input to the region, destroy the region, and a second destroy of the region when its wrapper is dropped at the end of the function. Fails with nothing sent when no id is left. |
| `Overlay.AlwaysOnTopResult` | src/x11.rs:56-63 | always_on_top succeeds iff both atom lookups succeed. |
| `Overlay.AlwaysOnTopSendsAfterLookups` | src/x11.rs:56-77 | The client message is sent iff both lookups succeed, and only after both InternAtom requests. It is sent to the root with propagate false and mask SubstructureNotify or SubstructureRedirect. It has format 32, window = the overlay, type = the `_NET_WM_STATE` atom, and data `[1, _NET_WM_STATE_ABOVE, 0, 0, 0]`. |
| `Overlay.AlwaysOnTop` | src/x11.rs:52-80 | The log grows by the two lookups and the message, cut short at the first failed lookup. The result is that of the lookups. |
| `Overlay.OverlaySetupSucceeds` | src/x11.rs:109-144 | Creation succeeds iff a depth-32 visual is selected, three ids are available and both atoms are known. It returns the second generated id, the window's. |
| `Overlay.NoVisualSendsNothing` | src/x11.rs:109-117 | Without a usable depth-32 visual, nothing is sent and no id is taken. |
| `Overlay.OverlaySetupOrder` | src/x11.rs:109-144 | On success there are 10 requests: the colormap for the visual `SelectVisual` picks, then CreateWindow, then the five passthrough requests as written on the new window, then the always-on-top requests. CreateWindow is made on the root with the colormap's visual and the given x, y, width and height. It has depth 32, border 0, class InputOutput, and exactly the attributes background pixel 0, the created colormap, override-redirect 1, border pixel 1 and event mask 2^25 - 1. |
| `Overlay.CreateOverlayWindow` | src/x11.rs:98-145 | Result, requests sent and ids consumed are those of `OverlaySetup`, including every failure path. On the failure after the colormap, the colormap wrapper's drop frees it. On success the passthrough part includes the region wrapper's second DestroyRegion. |
| `Presentation.OverlayGeometry` | src/main.rs:209-216 | The overlay is placed at (100, 100) with the screen's size minus 200, so the margins left and right (top and bottom) are equal. It fails iff a screen side is under 200. |
| `Presentation.HandleMatchesGeometry` | src/main.rs:221-228 | The window handle's width and height equal the created window's, and its visual is the screen's root visual. |
| `Presentation.State.constructor` | src/main.rs:39-72 | The size is the window's. The configuration has that size, the discovered format, Fifo presentation and render-attachment usage. It is applied once. The size equals the configured size. |
| `Presentation.State.Resize` | src/main.rs:110-117 | With both sides non-zero: size and configured width/height become the new size, nothing else in the configuration changes, and the surface is configured exactly once. With a zero side nothing changes and nothing is configured. The size equals the configured size before and after. |
| `Presentation.ReactTo` | src/main.rs:235-245 | OutOfMemory is the only outcome that terminates. Lost and Outdated, and only they, self-resize. Timeout only logs. |
| `Presentation.SelfResizesKeepSize` | src/main.rs:238-240 | Every configuration that self-resizes apply is the current one, with the current size. |
| `Presentation.NextCounter` | src/main.rs:252 | The counter stays below 30. |
| `Presentation.CounterAtClosedForm` | src/main.rs:232-252 | Starting from 1 and advancing on every iteration, the counter at the start of iteration n (from 0) is (n + 1) mod 30. |
| `Presentation.ScheduledCheckExactly` | src/main.rs:246-252 | The stacking check runs on iteration n exactly when no event is pending and n + 1 is a multiple of 30. A pending event skips it. |
| `Presentation.FirstCheckOn30thIteration` | src/main.rs:232-252 | No check runs before the 30th iteration. |
| `Presentation.ChecksAtLeast30Apart` | src/main.rs:232-252 | Two checks are at least 30 iterations apart, so there is at most one in any 30 consecutive iterations. |
| `Presentation.FrameLoop.Step` | src/main.rs:235-252 | Breaks iff the outcome is OutOfMemory, changing nothing. Lost and Outdated re-apply the unchanged configuration once, or nothing on a zero size. The size and configuration never change. The stacking check is sent iff no event is pending and the counter is 0; its error aborts the loop. Otherwise the counter advances modulo 30. |
| `Presentation.FrameLoop.Run` | src/main.rs:232-255 | Over a run of inputs, the loop stops exactly at the first OutOfMemory, or at a failed stacking check. Every iteration it completed ran the check iff scheduled. The size and configuration never change. A failed stacking check stops the loop, at that iteration: when the root's QueryTree reply is an error, no check before the last iteration ran. The surface saw one re-configuration per Lost/Outdated, or none on a zero size. The connection saw exactly the checks' requests. |
| `Presentation.Startup` | src/main.rs:202-233 | Fails with nothing sent on a screen under 200 pixels. Otherwise the window is created at the derived geometry with the requests of `OverlaySetup`, then mapped. The loop starts with the counter at 1, on the root and the new window, with a surface configured once at the window's size. |

## Left out

- Connecting to the X server, `xfixes_init` (a single version query), `flush`, the
  raw-window-handle trait impls and the raw connection pointer. These are I/O and
  foreign-pointer bridging.
- GPU setup and frame rendering: adapter and device requests, format discovery (the
  format is a parameter), the egui context, tessellation, the render pass, queue
  submission and presenting. These are foreign library calls over floating-point
  content.
- `render` itself never returns an error (it unwraps the texture acquisition). The
  loop is driven by an abstract render outcome per iteration instead.
- `poll_for_event` is a boolean input per iteration. Logging (`println!`) and the
  1/60 s sleep are not modelled.
- The loop in `main` never ends on its own. `Presentation.FrameLoop.Run` models
  the prefix of iterations for which inputs are given.
- Sending a request never fails in the model. Connection errors on the `?` of
  request sends are not modelled. Reply errors (InternAtom, QueryTree) and id
  exhaustion are modelled.
- What the X server does with the requests: real stacking, whether the window
  manager honours the EWMH message, and shape rendering. Only `ShapeModel`'s
  bookkeeping of regions and shapes is modelled, and it ignores the (always zero)
  shape offsets.
- `x11rb`'s resource wrappers are not part of this model. Their release-on-drop
  behaviour is modelled where it adds requests: `Overlay.InputPassthrough` sends the
  extra DestroyRegion of the region's wrapper (see Findings), and
  `Overlay.OverlaySetup` the FreeColormap when the window id cannot be generated.
- Presentation.OverlayGeometry: follows a build with overflow checks (the debug
  profile), where `width_in_pixels - 200` panics on a side under 200. A build
  without them (the default release profile) wraps instead: on a 100-pixel-wide
  screen the window would be created 65436 wide, the handle would say 4294967196,
  and the loop would go on. That wrapping behaviour is not modelled.
- Presentation.FrameLoop.Run: the QueryTree replies (`trees`) are fixed for a whole
  run. The model does not capture a window manager restacking windows between
  checks, or a QueryTree that fails after earlier checks succeeded. Each check's
  requests are computed from the same stacking order.
- `screen_num as i32`: the screen index is kept as a natural number.

## Findings

| source | as written | input that shows it | evidently intended | confidence | as-written member | corrected member |
|---|---|---|---|---|---|---|
| src/x11.rs:24-48 | `destroy_region` destroys the region explicitly. The `RegionWrapper` that created it destroys it again when it goes out of scope at the end of the function. | Any call with a fresh region id: the fifth request, a second DestroyRegion, names a region that no longer exists and is answered with an error. This matches the comment above the explicit call. | The region is destroyed once, after it is used. The model's `InputPassthrough` and `OverlaySetup` send the sequence as written; `PassthroughRequests` is the corrected sequence, and the click-through property is proved about it. | medium, not executed | `Overlay.PassthroughAsWrittenRaisesBadRegion` | `Overlay.PassthroughMakesClickThrough` |
