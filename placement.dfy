/** The placement part of `Client::add_bar` (src/client.cpp, and the same
    `switch` in the prototype client.cpp): the size and anchor a bar's layer
    surface asks for, from the edge it sits on. */
module Placement {
  import opened Wayland

  /** The edge across the screen from `p`. */
  function Opposite(p: Position): Position
  {
    match p
    case Top => Bottom
    case Bottom => Top
    case Left => Right
    case Right => Left
  }

  const AllEdges: bv32 := AnchorTop | AnchorBottom | AnchorLeft | AnchorRight

  /** The anchor mask: a top or bottom bar is anchored left and right and to
      its own edge, a left or right bar top and bottom and to its own edge.
      Every edge but the opposite one, so exactly three bits. */
  function Anchor(p: Position): (a: bv32)
    ensures a & EdgeBit(p) == EdgeBit(p)
    ensures a & EdgeBit(Opposite(p)) == 0
    ensures a | EdgeBit(Opposite(p)) == AllEdges
  {
    match p
    case Top => AnchorLeft | AnchorRight | AnchorTop
    case Bottom => AnchorLeft | AnchorRight | AnchorBottom
    case Left => AnchorTop | AnchorBottom | AnchorLeft
    case Right => AnchorTop | AnchorBottom | AnchorRight
  }

  /** The two anchors of opposite edges are different, and neither contains
      the other's edge: a bar is never stretched across its own thickness. */
  lemma {:induction false} AnchorsOfOppositeEdges(p: Position)
    ensures Anchor(p) != Anchor(Opposite(p))
    ensures Anchor(p) & Anchor(Opposite(p)) == AllEdges & !(EdgeBit(p) | EdgeBit(Opposite(p)))
  {
    match p
    case Top =>
    case Bottom =>
    case Left =>
    case Right =>
  }

  /** The size request for a bar whose fields are `width` and `height`:
      `(0, height)` for a top or bottom bar, `(width, 0)` for a left or
      right one; the 0 lets the compositor stretch the bar along its edge. */
  function SizeRequest(target: LayerSurface, p: Position, width: int, height: int): (r: Request)
    ensures r.SetSize? && r.target == target
    ensures p.Horizontal() ==> r.width == 0 && r.height == height
    ensures !p.Horizontal() ==> r.width == width && r.height == 0
  {
    match p
    case Top | Bottom => SetSize(target, 0, height)
    case Left | Right => SetSize(target, width, 0)
  }

  /** The requests of the `switch`, then the exclusive zone, which is the
      `height` field for every edge. */
  function PlacementRequests(target: LayerSurface, p: Position, width: int, height: int): seq<Request>
  {
    [SizeRequest(target, p, width, height), SetAnchor(target, Anchor(p)), SetExclusiveZone(target, height)]
  }

  /** The size asked for comes from the one field `Bar::Bar` sets for that
      edge: for a bar fresh from the constructor with fixed dimension `dim`,
      the thickness asked for is `dim`, whatever the other field holds. */
  lemma {:induction false} SizeUsesConfiguredDimension(target: LayerSurface, config: Config, width: int, height: int)
    requires config.position.Horizontal() ==> height == config.Height()
    requires !config.position.Horizontal() ==> width == config.Width()
    ensures SizeRequest(target, config.position, width, height)
      == if config.position.Horizontal() then SetSize(target, 0, config.dim) else SetSize(target, config.dim, 0)
  {
  }

  /** The exclusive zone of a top or bottom bar fresh from the constructor
      is its configured thickness. (A left or right bar's is its `height`
      field, which `Bar::Bar` does not set, so nothing ties it to the
      configuration.) */
  lemma {:induction false} ExclusiveZoneOfHorizontalBars(target: LayerSurface, config: Config, width: int, height: int)
    requires config.position.Horizontal() && height == config.Height()
    ensures PlacementRequests(target, config.position, width, height)[2] == SetExclusiveZone(target, config.dim)
  {
  }

  /** The `switch` of `add_bar` and the exclusive zone that follows it. */
  method Place(wire: Wire, target: LayerSurface, p: Position, width: int, height: int)
    modifies wire
    ensures wire.sent == old(wire.sent) + PlacementRequests(target, p, width, height)
  {
    match p {
      case Top =>
        wire.Send([SetSize(target, 0, height)]);
        wire.Send([SetAnchor(target, AnchorLeft | AnchorRight | AnchorTop)]);
      case Bottom =>
        wire.Send([SetSize(target, 0, height)]);
        wire.Send([SetAnchor(target, AnchorLeft | AnchorRight | AnchorBottom)]);
      case Left =>
        wire.Send([SetSize(target, width, 0)]);
        wire.Send([SetAnchor(target, AnchorTop | AnchorBottom | AnchorLeft)]);
      case Right =>
        wire.Send([SetSize(target, width, 0)]);
        wire.Send([SetAnchor(target, AnchorTop | AnchorBottom | AnchorRight)]);
    }
    wire.Send([SetExclusiveZone(target, height)]);
  }
}
