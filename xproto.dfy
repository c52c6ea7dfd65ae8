/** Values of the X11 core protocol and of its SHAPE and XFIXES extensions, as far
    as the overlay uses them: the screen descriptor, the request payloads and the
    attribute lists of CreateWindow and ConfigureWindow. Numeric widths follow the
    protocol (CARD8, CARD16, CARD32, INT16). */
module XProto {
  import opened Wrappers

  type u8 = x: int | 0 <= x < 0x100
  type u16 = x: int | 0 <= x < 0x1_0000
  type u32 = x: int | 0 <= x < 0x1_0000_0000
  type i16 = x: int | -0x8000 <= x < 0x8000

  /** A resource id handed out by the client's id allocator; it is never 0,
      because 0 is the protocol's "None". */
  type XId = x: u32 | x != 0 witness 1

  type Window = u32
  type Atom = u32
  type Colormap = u32
  type Region = u32
  type VisualId = u32

  /** The resource id that stands for "None" in a request. */
  const NONE: u32 := 0

  datatype VisualType = VisualType(visualId: VisualId)

  /** One entry of a screen's allowed depths: the depth and the visuals it supports. */
  datatype Depth = Depth(depth: u8, visuals: seq<VisualType>)

  /** The part of the connection setup's screen description the overlay reads. */
  datatype Screen = Screen(
    root: Window,
    rootVisual: VisualId,
    widthInPixels: u16,
    heightInPixels: u16,
    allowedDepths: seq<Depth>)

  datatype WindowClass = CopyFromParent | InputOutput | InputOnly

  datatype ColormapAlloc = AllocNone | AllocAll

  datatype StackMode = Above | Below | TopIf | BottomIf | Opposite

  /** The SHAPE extension's shape kinds (SK::BOUNDING, SK::CLIP, SK::INPUT). */
  datatype ShapeKind = Bounding | Clip | Input

  datatype Rectangle = Rectangle(x: i16, y: i16, width: u16, height: u16)

  /** CreateWindow's value list: one optional value per window attribute. */
  datatype CreateWindowAux = CreateWindowAux(
    backgroundPixmap: Option<u32>,
    backgroundPixel: Option<u32>,
    borderPixmap: Option<u32>,
    borderPixel: Option<u32>,
    bitGravity: Option<u32>,
    winGravity: Option<u32>,
    backingStore: Option<u32>,
    backingPlanes: Option<u32>,
    backingPixel: Option<u32>,
    overrideRedirect: Option<u32>,
    saveUnder: Option<u32>,
    eventMask: Option<u32>,
    doNotPropagateMask: Option<u32>,
    colormap: Option<Colormap>,
    cursor: Option<u32>)

  /** A value list with no attribute set. */
  const NoWindowAttributes: CreateWindowAux :=
    CreateWindowAux(None, None, None, None, None, None, None, None,
                    None, None, None, None, None, None, None)

  /** ConfigureWindow's value list. */
  datatype ConfigureWindowAux = ConfigureWindowAux(
    x: Option<int>,
    y: Option<int>,
    width: Option<u32>,
    height: Option<u32>,
    borderWidth: Option<u32>,
    sibling: Option<Window>,
    stackMode: Option<StackMode>)

  /** A value list with no field set. */
  const NoConfiguration: ConfigureWindowAux :=
    ConfigureWindowAux(None, None, None, None, None, None, None)

  /** Event mask bits of the core protocol. */
  const SUBSTRUCTURE_NOTIFY: u32 := 0x8_0000
  const SUBSTRUCTURE_REDIRECT: u32 := 0x10_0000

  /** A ClientMessage event with 32-bit data. */
  datatype ClientMessageEvent = ClientMessageEvent(
    format: u8,
    window: Window,
    messageType: Atom,
    data: seq<u32>)

  /** The requests the overlay sends, with their payloads. */
  datatype Request =
    | CreateColormap(alloc: ColormapAlloc, mid: Colormap, window: Window, visual: VisualId)
    | FreeColormap(cmap: Colormap)
    | CreateWindow(depth: u8, wid: Window, parent: Window, x: i16, y: i16,
                   width: u16, height: u16, borderWidth: u16, windowClass: WindowClass,
                   visual: VisualId, attributes: CreateWindowAux)
    | MapWindow(window: Window)
    | ConfigureWindow(window: Window, values: ConfigureWindowAux)
    | QueryTree(window: Window)
    | InternAtom(onlyIfExists: bool, name: string)
    | SendEvent(propagate: bool, destination: Window, eventMask: u32, event: ClientMessageEvent)
    | CreateRegion(region: Region, rectangles: seq<Rectangle>)
    | DestroyRegion(region: Region)
    | SetWindowShapeRegion(dest: Window, destKind: ShapeKind, xOffset: i16, yOffset: i16, region: Region)
}
