/** The overlay window manager (src/x11.rs): which requests the overlay sends to
    create its window, make it click-through, ask the window manager to keep it
    above, and put it back on top when it is not. */
module Overlay {
  import opened Wrappers
  import opened XProto
  import opened XServer
  import opened ShapeModel

  /** The depth of an alpha-capable visual. */
  const OVERLAY_DEPTH: u8 := 32
  /** The event mask the overlay selects: the low 25 bits, every core event category. */
  const ALL_EVENTS: u32 := 0x1FF_FFFF
  /** The `_NET_WM_STATE_ADD` action of the EWMH `_NET_WM_STATE` client message. */
  const NET_WM_STATE_ADD: u32 := 1
  const NET_WM_STATE: string := "_NET_WM_STATE"
  const NET_WM_STATE_ABOVE: string := "_NET_WM_STATE_ABOVE"
  /** SubstructureNotify | SubstructureRedirect; the two bits are distinct, so the
      bitwise or is their sum. */
  const WM_MESSAGE_MASK: u32 := SUBSTRUCTURE_NOTIFY + SUBSTRUCTURE_REDIRECT

  // ---------------------------------------------------------------------------
  // raise_if_not_top

  /** The topmost child: the last one, as QueryTree lists children bottom to top. */
  function Topmost(children: seq<Window>): Option<Window>
  {
    if children == [] then None else Some(children[|children| - 1])
  }

  /** A ConfigureWindow value list that sets the stack mode and nothing else. */
  predicate OnlyStackMode(values: ConfigureWindowAux, mode: StackMode)
  {
    && values.x.None? && values.y.None? && values.width.None? && values.height.None?
    && values.borderWidth.None? && values.sibling.None?
    && values.stackMode == Some(mode)
  }

  /** The requests that follow the QueryTree reply: a restack when `win` is not
      the topmost child. */
  function RaiseRequests(children: seq<Window>, win: Window): (r: seq<Request>)
    ensures r == [] <==> |children| > 0 && children[|children| - 1] == win
    ensures |r| <= 1
    ensures forall q <- r :: q.ConfigureWindow? && q.window == win && OnlyStackMode(q.values, Above)
  {
    if Topmost(children) != Some(win) then
      [ConfigureWindow(win, NoConfiguration.(stackMode := Some(Above)))]
    else
      []
  }

  /** Everything raise_if_not_top sends when the server holds the trees `trees`. */
  function RaiseLog(trees: map<Window, seq<Window>>, root: Window, win: Window): seq<Request>
  {
    [QueryTree(root)] + if root in trees then RaiseRequests(trees[root], win) else []
  }

  /** An empty child list does not contain the overlay, so it triggers a restack. */
  lemma EmptyTreeRaises(win: Window)
    ensures |RaiseRequests([], win)| == 1
  {
  }

  /** Once the overlay is the last child, a second check sends nothing more than its query. */
  lemma RaiseIdempotentWhenTopmost(trees: map<Window, seq<Window>>, root: Window, win: Window, below: seq<Window>)
    requires root in trees && trees[root] == below + [win]
    ensures RaiseLog(trees, root, win) == [QueryTree(root)]
  {
  }

  method RaiseIfNotTop(conn: Connection, root: Window, win: Window) returns (r: Result<(), Failure>)
    modifies conn`log
    ensures conn.log == old(conn.log) + RaiseLog(conn.trees, root, win)
    ensures r == if root in conn.trees then Ok(()) else Err(QueryTreeReplyError(root))
  {
    var tree := conn.QueryTree(root);
    if tree.Err? {
      return Err(tree.error);
    }
    if Topmost(tree.value) != Some(win) {
      conn.Send(ConfigureWindow(win, NoConfiguration.(stackMode := Some(Above))));
    }
    r := Ok(());
  }

  // ---------------------------------------------------------------------------
  // Visual selection

  /** The index of the first entry of `depths` with depth `d`, as `find` picks it. */
  function FindDepth(depths: seq<Depth>, d: u8): (k: Option<nat>)
    ensures k.Some? ==> k.value < |depths| && depths[k.value].depth == d
    ensures k.Some? ==> forall j :: 0 <= j < k.value ==> depths[j].depth != d
    ensures k.None? <==> forall j :: 0 <= j < |depths| ==> depths[j].depth != d
  {
    if depths == [] then None
    else if depths[0].depth == d then Some(0)
    else match FindDepth(depths[1..], d)
      case None => None
      case Some(k) => Some(k + 1)
  }

  /** `k` is the first allowed depth of the screen whose depth is 32. */
  predicate IsFirstDepth32(depths: seq<Depth>, k: nat)
  {
    k < |depths| && depths[k].depth == OVERLAY_DEPTH
    && forall j :: 0 <= j < k ==> depths[j].depth != OVERLAY_DEPTH
  }

  /** The visual the overlay uses: the first visual of the first depth-32 entry. */
  function SelectVisual(depths: seq<Depth>): (r: Result<VisualId, Failure>)
    ensures r == Err(NoDepth32) <==> forall j :: 0 <= j < |depths| ==> depths[j].depth != OVERLAY_DEPTH
    ensures r.Ok? ==> exists k: nat :: IsFirstDepth32(depths, k) && depths[k].visuals != []
                                 && r.value == depths[k].visuals[0].visualId
    ensures r == Err(NoVisual) ==> exists k: nat :: IsFirstDepth32(depths, k) && depths[k].visuals == []
    ensures r.Err? ==> r.error == NoDepth32 || r.error == NoVisual
  {
    match FindDepth(depths, OVERLAY_DEPTH)
    case None => Err(NoDepth32)
    case Some(k) =>
      if depths[k].visuals == [] then Err(NoVisual) else Ok(depths[k].visuals[0].visualId)
  }

  /** Selection looks at the first depth-32 entry only: a later depth-32 entry with
      visuals does not save an empty first one. */
  lemma SelectVisualUsesFirstDepth32(depths: seq<Depth>, k: nat)
    requires IsFirstDepth32(depths, k)
    ensures SelectVisual(depths) ==
      if depths[k].visuals == [] then Err(NoVisual) else Ok(depths[k].visuals[0].visualId)
  {
  }

  // ---------------------------------------------------------------------------
  // input_passthrough

  /** The requests of input_passthrough, in order, for the region id `region`:
      create an empty region, remove the bounding shape, make the input shape the
      empty region, destroy the region. */
  function PassthroughRequests(win: Window, region: Region): seq<Request>
  {
    [ CreateRegion(region, []),
      SetWindowShapeRegion(win, Bounding, 0, 0, NONE),
      SetWindowShapeRegion(win, Input, 0, 0, region),
      DestroyRegion(region) ]
  }

  /** The requests input_passthrough sends as written: the explicit destroy_region
      and then, when the region's wrapper goes out of scope, the wrapper's own
      destroy of the same region. */
  function PassthroughRequestsAsWritten(win: Window, region: Region): seq<Request>
  {
    PassthroughRequests(win, region) + [DestroyRegion(region)]
  }

  /** The region is used as a scoped resource: created first, destroyed exactly
      once and last, and only the input shape refers to it. */
  predicate RegionScoped(qs: seq<Request>, win: Window, region: Region)
  {
    && |qs| >= 2
    && qs[0] == CreateRegion(region, [])
    && qs[|qs| - 1] == DestroyRegion(region)
    && (forall k :: 0 <= k < |qs| - 1 ==> qs[k] != DestroyRegion(region))
    && (forall k :: 0 <= k < |qs| && qs[k].SetWindowShapeRegion? && qs[k].region == region ==>
          qs[k].dest == win && qs[k].destKind == Input)
  }

  lemma PassthroughIsScoped(win: Window, region: XId)
    ensures RegionScoped(PassthroughRequests(win, region), win, region)
  {
  }

  /** On a server where the region id is free, the corrected sequence leaves the
      window drawn over its whole rectangle (no bounding shape) but with an empty
      input shape, so every pointer event goes to the windows below; the region is
      gone afterwards and no error is reported. */
  lemma PassthroughMakesClickThrough(s: ShapeState, win: Window, region: XId)
    requires region !in s.regions
    ensures var t := ApplyAll(s, PassthroughRequests(win, region));
      && ShapeOf(t, win, Bounding) == Unshaped
      && ShapeOf(t, win, Input) == Rects([])
      && t.regions == s.regions
      && t.errors == s.errors
  {
    var qs := PassthroughRequests(win, region);
    var s1 := Apply(s, qs[0]);
    var s2 := Apply(s1, qs[1]);
    var s3 := Apply(s2, qs[2]);
    var s4 := Apply(s3, qs[3]);
    assert s1.regions == s.regions[region := []];
    assert s4.regions == s1.regions - {region};
    assert s4.regions == s.regions;
    calc {
      ApplyAll(s, qs);
      ApplyAll(s1, qs[1..]);
      { assert qs[1..][1..] == qs[2..]; }
      ApplyAll(s2, qs[2..]);
      { assert qs[2..][1..] == qs[3..]; }
      ApplyAll(s3, qs[3..]);
      { assert qs[3..][1..] == []; }
      s4;
    }
  }

  /** As written, the second destroy names a region that no longer exists, so the
      server answers it with an error event (the error the comment at the
      explicit destroy_region reports). That error is all the second destroy adds:
      the window is still click-through and no region is left behind. */
  lemma PassthroughAsWrittenRaisesBadRegion(s: ShapeState, win: Window, region: XId)
    requires region !in s.regions
    ensures var t := ApplyAll(s, PassthroughRequestsAsWritten(win, region));
      && t.errors == s.errors + [DestroyRegion(region)]
      && ShapeOf(t, win, Bounding) == Unshaped
      && ShapeOf(t, win, Input) == Rects([])
      && t.regions == s.regions
    ensures !RegionScoped(PassthroughRequestsAsWritten(win, region), win, region)
  {
    PassthroughMakesClickThrough(s, win, region);
    ApplyAllAppend(s, PassthroughRequests(win, region), DestroyRegion(region));
    var qs := PassthroughRequestsAsWritten(win, region);
    assert qs[3] == DestroyRegion(region);
  }

  method InputPassthrough(conn: Connection, win: Window) returns (r: Result<(), Failure>)
    modifies conn`log, conn`freeIds
    ensures old(conn.freeIds) == [] ==>
      r == Err(IdsExhausted) && conn.log == old(conn.log) && conn.freeIds == []
    ensures old(conn.freeIds) != [] ==>
      && r == Ok(())
      && conn.log == old(conn.log) + PassthroughRequestsAsWritten(win, old(conn.freeIds)[0])
      && conn.freeIds == old(conn.freeIds)[1..]
  {
    var region := conn.GenerateId();
    if region.Err? {
      return Err(region.error);
    }
    conn.Send(CreateRegion(region.value, []));
    conn.Send(SetWindowShapeRegion(win, Bounding, 0, 0, NONE));
    conn.Send(SetWindowShapeRegion(win, Input, 0, 0, region.value));
    conn.Send(DestroyRegion(region.value));
    // The region's wrapper goes out of scope here and destroys the region again.
    conn.Send(DestroyRegion(region.value));
    r := Ok(());
  }

  // ---------------------------------------------------------------------------
  // always_on_top

  /** Both atoms the client message needs are known to the server. */
  predicate WmAtomsKnown(atoms: map<string, Atom>)
  {
    NET_WM_STATE in atoms && NET_WM_STATE_ABOVE in atoms
  }

  /** The `_NET_WM_STATE` message that asks to add the "above" state to `win`. */
  function AboveStateMessage(win: Window, wmState: Atom, wmStateAbove: Atom): ClientMessageEvent
  {
    ClientMessageEvent(32, win, wmState, [NET_WM_STATE_ADD, wmStateAbove, 0, 0, 0])
  }

  /** Everything always_on_top sends: each atom lookup waits for its reply and
      stops the function when it fails. */
  function AlwaysOnTopRequests(atoms: map<string, Atom>, root: Window, win: Window): seq<Request>
  {
    if NET_WM_STATE !in atoms then
      [InternAtom(false, NET_WM_STATE)]
    else if NET_WM_STATE_ABOVE !in atoms then
      [InternAtom(false, NET_WM_STATE), InternAtom(false, NET_WM_STATE_ABOVE)]
    else
      [ InternAtom(false, NET_WM_STATE), InternAtom(false, NET_WM_STATE_ABOVE),
        SendEvent(false, root, WM_MESSAGE_MASK,
                  AboveStateMessage(win, atoms[NET_WM_STATE], atoms[NET_WM_STATE_ABOVE])) ]
  }

  function AlwaysOnTopResult(atoms: map<string, Atom>): (r: Result<(), Failure>)
    ensures r.Ok? <==> WmAtomsKnown(atoms)
  {
    if NET_WM_STATE !in atoms then Err(AtomReplyError(NET_WM_STATE))
    else if NET_WM_STATE_ABOVE !in atoms then Err(AtomReplyError(NET_WM_STATE_ABOVE))
    else Ok(())
  }

  /** The client message is sent exactly when both lookups succeed, after both of
      them, to the root window without propagation, and it carries the add action
      and the above atom and nothing else. */
  lemma AlwaysOnTopSendsAfterLookups(atoms: map<string, Atom>, root: Window, win: Window)
    ensures var qs := AlwaysOnTopRequests(atoms, root, win);
      && ((exists k :: 0 <= k < |qs| && qs[k].SendEvent?) <==> WmAtomsKnown(atoms))
      && forall k :: 0 <= k < |qs| && qs[k].SendEvent? ==>
           && k == 2
           && qs[0] == InternAtom(false, NET_WM_STATE)
           && qs[1] == InternAtom(false, NET_WM_STATE_ABOVE)
           && qs[k].destination == root && !qs[k].propagate
           && qs[k].eventMask == WM_MESSAGE_MASK
           && qs[k].event.format == 32 && qs[k].event.window == win
           && qs[k].event.messageType == atoms[NET_WM_STATE]
           && qs[k].event.data == [NET_WM_STATE_ADD, atoms[NET_WM_STATE_ABOVE], 0, 0, 0]
  {
    var qs := AlwaysOnTopRequests(atoms, root, win);
    if WmAtomsKnown(atoms) {
      assert qs[2].SendEvent?;
    }
  }

  method AlwaysOnTop(conn: Connection, root: Window, win: Window) returns (r: Result<(), Failure>)
    modifies conn`log
    ensures conn.log == old(conn.log) + AlwaysOnTopRequests(conn.atoms, root, win)
    ensures r == AlwaysOnTopResult(conn.atoms)
  {
    var wmState := conn.InternAtom(false, NET_WM_STATE);
    if wmState.Err? {
      return Err(wmState.error);
    }
    var wmStateAbove := conn.InternAtom(false, NET_WM_STATE_ABOVE);
    if wmStateAbove.Err? {
      return Err(wmStateAbove.error);
    }
    conn.Send(SendEvent(false, root, WM_MESSAGE_MASK,
                        AboveStateMessage(win, wmState.value, wmStateAbove.value)));
    r := Ok(());
  }

  // ---------------------------------------------------------------------------
  // create_overlay_window

  /** The window attributes of the overlay: transparent background, its own
      colormap, override-redirect, border pixel 1 and every event selected. */
  function OverlayAttributes(cmap: Colormap): CreateWindowAux
  {
    NoWindowAttributes.(backgroundPixel := Some(0), colormap := Some(cmap),
                        overrideRedirect := Some(1), borderPixel := Some(1),
                        eventMask := Some(ALL_EVENTS))
  }

  function OverlayWindowRequest(screen: Screen, visual: VisualId, cmap: Colormap, win: Window,
                                x: i16, y: i16, width: u16, height: u16): Request
  {
    CreateWindow(OVERLAY_DEPTH, win, screen.root, x, y, width, height, 0, InputOutput,
                 visual, OverlayAttributes(cmap))
  }

  /** The outcome of create_overlay_window: its result, the requests it sent and
      how many resource ids it took from the allocator. */
  datatype Setup = Setup(result: Result<Window, Failure>, requests: seq<Request>, idsUsed: nat)

  /** create_overlay_window, for a server whose allocator still offers `ids` and
      whose atom table is `atoms`. The colormap id is taken first, then the
      window id, then the region id. */
  function OverlaySetup(screen: Screen, x: i16, y: i16, width: u16, height: u16,
                        ids: seq<XId>, atoms: map<string, Atom>): (s: Setup)
    ensures s.idsUsed <= |ids|
  {
    match SelectVisual(screen.allowedDepths)
    case Err(f) => Setup(Err(f), [], 0)
    case Ok(visual) =>
      if |ids| == 0 then Setup(Err(IdsExhausted), [], 0)
      else
        var colormap := CreateColormap(AllocNone, ids[0], screen.root, visual);
        if |ids| == 1 then
          // The colormap's wrapper is dropped on the early return and frees it.
          Setup(Err(IdsExhausted), [colormap, FreeColormap(ids[0])], 1)
        else
          var created := [colormap, OverlayWindowRequest(screen, visual, ids[0], ids[1], x, y, width, height)];
          if |ids| == 2 then Setup(Err(IdsExhausted), created, 2)
          else
            Setup(if WmAtomsKnown(atoms) then Ok(ids[1]) else Err(AlwaysOnTopResult(atoms).error),
                  created + PassthroughRequestsAsWritten(ids[1], ids[2]) + AlwaysOnTopRequests(atoms, screen.root, ids[1]),
                  3)
  }

  /** Creation succeeds exactly when a depth-32 visual exists, the allocator has
      three ids and both atoms are known; it then returns the second generated id,
      the window's. */
  lemma OverlaySetupSucceeds(screen: Screen, x: i16, y: i16, width: u16, height: u16,
                             ids: seq<XId>, atoms: map<string, Atom>)
    ensures var s := OverlaySetup(screen, x, y, width, height, ids, atoms);
      && (s.result.Ok? <==> SelectVisual(screen.allowedDepths).Ok? && |ids| >= 3 && WmAtomsKnown(atoms))
      && (s.result.Ok? ==> s.result.value == ids[1])
  {
  }

  /** A screen without a usable depth-32 visual stops creation before any request
      is sent or any id is taken. */
  lemma NoVisualSendsNothing(screen: Screen, x: i16, y: i16, width: u16, height: u16,
                             ids: seq<XId>, atoms: map<string, Atom>)
    requires SelectVisual(screen.allowedDepths).Err?
    ensures OverlaySetup(screen, x, y, width, height, ids, atoms) ==
              Setup(SelectVisual(screen.allowedDepths), [], 0)
  {
  }

  /** On success the requests come in this order: the colormap for the selected
      visual, the window (on the root, with that visual, at the given place and
      size, depth 32, no border, input-output, bound to that colormap, with the
      overlay's attribute list), the five passthrough requests as written on the
      new window, then the always-on-top requests on it. */
  lemma OverlaySetupOrder(screen: Screen, x: i16, y: i16, width: u16, height: u16,
                          ids: seq<XId>, atoms: map<string, Atom>)
    requires OverlaySetup(screen, x, y, width, height, ids, atoms).result.Ok?
    ensures var s := OverlaySetup(screen, x, y, width, height, ids, atoms);
      var win := s.result.value;
      && |s.requests| == 10
      && s.requests[0] == CreateColormap(AllocNone, ids[0], screen.root, SelectVisual(screen.allowedDepths).value)
      && s.requests[1].CreateWindow?
      && s.requests[1].wid == win && s.requests[1].parent == screen.root
      && s.requests[1].visual == s.requests[0].visual
      && s.requests[1].attributes.colormap == Some(s.requests[0].mid)
      && (s.requests[1].x, s.requests[1].y, s.requests[1].width, s.requests[1].height) == (x, y, width, height)
      && s.requests[1].depth == 32 && s.requests[1].borderWidth == 0
      && s.requests[1].windowClass == InputOutput
      && s.requests[1].attributes
           == NoWindowAttributes.(backgroundPixel := Some(0), colormap := Some(ids[0]),
                                  overrideRedirect := Some(1), borderPixel := Some(1),
                                  eventMask := Some(ALL_EVENTS))
      && s.requests[2..7] == PassthroughRequestsAsWritten(win, ids[2])
      && s.requests[7..] == AlwaysOnTopRequests(atoms, screen.root, win)
      && (forall k :: 2 <= k < 10 ==> !s.requests[k].CreateWindow? && !s.requests[k].CreateColormap?)
  {
    var s := OverlaySetup(screen, x, y, width, height, ids, atoms);
    OverlaySetupSucceeds(screen, x, y, width, height, ids, atoms);
    var visual := SelectVisual(screen.allowedDepths).value;
    var created := [CreateColormap(AllocNone, ids[0], screen.root, visual),
                    OverlayWindowRequest(screen, visual, ids[0], ids[1], x, y, width, height)];
    assert s.requests == created + PassthroughRequestsAsWritten(ids[1], ids[2]) + AlwaysOnTopRequests(atoms, screen.root, ids[1]);
  }

  method CreateOverlayWindow(conn: Connection, screen: Screen, x: i16, y: i16, width: u16, height: u16)
    returns (r: Result<Window, Failure>)
    modifies conn`log, conn`freeIds
    ensures var s := OverlaySetup(screen, x, y, width, height, old(conn.freeIds), conn.atoms);
      && r == s.result
      && conn.log == old(conn.log) + s.requests
      && conn.freeIds == old(conn.freeIds)[s.idsUsed..]
  {
    var visual := SelectVisual(screen.allowedDepths);
    if visual.Err? {
      return Err(visual.error);
    }
    var cmap := conn.GenerateId();
    if cmap.Err? {
      return Err(cmap.error);
    }
    conn.Send(CreateColormap(AllocNone, cmap.value, screen.root, visual.value));
    var win := conn.GenerateId();
    if win.Err? {
      conn.Send(FreeColormap(cmap.value));
      return Err(win.error);
    }
    conn.Send(OverlayWindowRequest(screen, visual.value, cmap.value, win.value, x, y, width, height));
    var passthrough := InputPassthrough(conn, win.value);
    if passthrough.Err? {
      return Err(passthrough.error);
    }
    var above := AlwaysOnTop(conn, screen.root, win.value);
    if above.Err? {
      return Err(above.error);
    }
    r := Ok(win.value);
  }
}
