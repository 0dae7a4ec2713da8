/** The vocabulary every part of the hyprbar model shares: the bar geometry
    of `Bar::Config`, the handles requests refer to, and the ordered log of
    requests the client issues to the compositor and to the kernel. The
    compositor and the system calls themselves are not modelled: what they
    answer is an input of the operation that asks them. */
module Wayland {

  /** `uint32_t`, the type of pixel colours, serials and event sizes. */
  newtype u32 = x: int | 0 <= x < 0x1_0000_0000

  datatype Option<T> = None | Some(value: T)

  /** `Bar::Position`: the screen edge a bar is anchored to. */
  datatype Position = Top | Bottom | Left | Right {
    /** Top and bottom bars have a fixed height, left and right ones a fixed width. */
    predicate Horizontal() { this == Top || this == Bottom }
  }

  /** `Bar::Config`. Its `width` and `height` members are one union slot, so
      both read the same integer `dim`. */
  datatype Config = Config(dim: int, position: Position) {
    function Width(): int { dim }
    function Height(): int { dim }
  }

  // The `anchor` enum of `zwlr_layer_surface_v1` (wlr-layer-shell-unstable-v1).
  const AnchorTop: bv32 := 1
  const AnchorBottom: bv32 := 2
  const AnchorLeft: bv32 := 4
  const AnchorRight: bv32 := 8

  /** The anchor bit of the edge a bar sits on. */
  function EdgeBit(p: Position): bv32 {
    match p
    case Top => AnchorTop
    case Bottom => AnchorBottom
    case Left => AnchorLeft
    case Right => AnchorRight
  }

  /** The five globals the client binds from the registry, in the order the
      startup check lists them. */
  datatype Interface = Compositor | Shm | LayerShell | OutputManager | Output

  /** The `wl_shm` pixel format the client uses. */
  datatype Format = Argb8888

  /** The one `zwlr_layer_shell_v1` layer the client asks for. */
  datatype Layer = LayerBottom

  /** A `wl_surface`: the one a bar owns (hyprbar) or the one the client
      shares between all bars (the prototype). */
  datatype Surface = SurfaceOf(owner: object) | ClientSurface

  /** A `zwlr_layer_surface_v1`, owned the same way as the surface. */
  datatype LayerSurface = LayerOf(owner: object) | ClientLayer

  /** Every request the client sends, to the compositor or to the kernel,
      in the order it sends them. Object handles are identified by owner;
      a buffer, pool or descriptor is the one most recently created. */
  datatype Request =
    // kernel
    | MemfdCreate
    | Ftruncate(size: int)
    | Mmap(length: int)
    | Munmap(length: int)
    | CloseFd
    // wl_display and wl_registry
    | GetRegistry
    | Roundtrip
    | Bind(name: u32, iface: Interface, version: nat)
    // wl_compositor and wl_surface
    | CreateSurface(surface: Surface)
    | SetBufferScale(surface: Surface, scale: int)
    | Attach(surface: Surface, x: int, y: int)
    | DamageBuffer(surface: Surface, x: int, y: int, width: int, height: int)
    | Commit(surface: Surface)
    // wl_shm, wl_shm_pool and wl_buffer
    | CreatePool(size: int)
    | CreateBuffer(offset: int, width: int, height: int, stride: int, format: Format)
    | AddReleaseListener
    | DestroyPool
    // zwlr_layer_shell_v1 and zwlr_layer_surface_v1
    | GetLayerSurface(surface: Surface, layer: Layer, namespace: string)
    | SetSize(target: LayerSurface, width: int, height: int)
    | SetAnchor(target: LayerSurface, anchor: bv32)
    | SetExclusiveZone(target: LayerSurface, zone: int)
    | AckConfigure(target: LayerSurface, serial: u32)
    | AddConfigureListener(target: LayerSurface, userData: object)
    // zxdg_output_manager_v1
    | GetXdgOutput

  /** The client's outgoing side: everything it has asked for so far. */
  class Wire {
    var sent: seq<Request>

    constructor ()
      ensures sent == []
    {
      sent := [];
    }

    method Send(rs: seq<Request>)
      modifies this
      ensures sent == old(sent) + rs
    {
      sent := sent + rs;
    }
  }
}
