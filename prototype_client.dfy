/** `Client` of the prototype client.cpp: one surface and one layer surface,
    created at startup and shared by every bar. `add_bar` places the shared
    layer surface for each bar in turn, and `start` registers each bar as a
    configure listener on it. The configure handler itself is
    `Bars.Bar.Configure` on a bar of the `Prototype` build. */
module PrototypeClient {
  import opened Wayland
  import opened Bars
  import Registry
  import Placement
  import EventLoop

  /** How `init_wayland_connection` ends in the prototype: the shared part
      failed, or creating the shared surface or layer surface failed (both
      fatal), or everything is ready. */
  datatype Init = Ready | NotConnected(why: Registry.Connection) | NoSurface | NoLayerSurface

  function InitOf(envSet: bool, connectOk: bool, ads: seq<Registry.Advert>, surfaceOk: bool, layerOk: bool): Init
  {
    var c := Registry.ConnectionOf(envSet, connectOk, ads);
    if c != Registry.Connected then NotConnected(c)
    else if !surfaceOk then NoSurface
    else if !layerOk then NoLayerSurface
    else Ready
  }

  /** The requests that create the shared surfaces, as far as they get. */
  function SurfaceRequests(surfaceOk: bool): seq<Request>
  {
    [CreateSurface(ClientSurface)]
    + if surfaceOk then [GetLayerSurface(ClientSurface, LayerBottom, "hyprbar")] else []
  }

  /** One configure listener per bar, all on the shared layer surface, each
      with its bar as user data. */
  function Listeners(bars: seq<Bar>): (rs: seq<Request>)
    ensures |rs| == |bars|
    ensures forall i :: 0 <= i < |bars| ==> rs[i] == AddConfigureListener(ClientLayer, bars[i])
    decreases |bars|
  {
    if bars == [] then [] else Listeners(bars[..|bars| - 1]) + [AddConfigureListener(ClientLayer, bars[|bars| - 1])]
  }

  /** How `start` ends: it died because the xdg_output was refused, it
      returned at once because the display descriptor is 0, or it ran the
      event loop. */
  datatype Started = XdgRefused | NoLoop | Looped(trace: EventLoop.Trace)

  class Client {
    /** `__bars`, in registration order. */
    var bars: seq<Bar>
    const globals: Registry.Globals
    const init: Init

    ghost predicate Valid()
      reads this
    {
      forall b :: b in bars ==> b.build == Prototype
    }

    /** `Client::Client()`: connect, bind and check the globals, then
        create the one surface and the one layer surface every bar uses. */
    constructor (wire: Wire, envSet: bool, connectOk: bool, ads: seq<Registry.Advert>, surfaceOk: bool, layerOk: bool)
      modifies wire
      ensures Valid() && bars == [] && fresh(globals)
      ensures init == InitOf(envSet, connectOk, ads, surfaceOk, layerOk)
      ensures envSet && connectOk ==>
        globals.Bindings() == Registry.RecordAll(Registry.Empty, ads)
        && wire.sent == old(wire.sent) + [GetRegistry, Roundtrip] + Registry.AllBindRequests(ads)
           + (if Registry.Check(globals.Bindings()) == Registry.Proceed then SurfaceRequests(surfaceOk) else [])
      ensures !(envSet && connectOk) ==> wire.sent == old(wire.sent)
    {
      bars := [];
      var g := new Registry.Globals();
      globals := g;
      var c := Registry.Connect(wire, g, envSet, connectOk, ads);
      var outcome := Ready;
      if c != Registry.Connected {
        outcome := NotConnected(c);
      } else {
        wire.Send([CreateSurface(ClientSurface)]);
        if !surfaceOk {
          outcome := NoSurface;
        } else {
          wire.Send([GetLayerSurface(ClientSurface, LayerBottom, "hyprbar")]);
          if !layerOk {
            outcome := NoLayerSurface;
          }
        }
      }
      init := outcome;
    }

    /** `Client::add_bar(bar)`: append the bar, place the shared layer
        surface from the bar's edge and fields, and commit the shared
        surface. */
    method AddBar(wire: Wire, bar: Bar)
      requires Valid() && bar.build == Prototype
      modifies this, wire
      ensures Valid()
      // appended at the end; earlier bars keep their order
      ensures bars == old(bars) + [bar]
      ensures wire.sent == old(wire.sent)
        + Placement.PlacementRequests(ClientLayer, bar.config.position, bar.width, bar.height)
        + [Commit(ClientSurface)]
    {
      bars := bars + [bar];
      Placement.Place(wire, ClientLayer, bar.config.position, bar.width, bar.height);
      wire.Send([Commit(ClientSurface)]);
    }

    /** `Client::start()`: register every bar as a configure listener on the
        shared layer surface, in order; ask for the one xdg_output, dying if
        it is refused; then, unless the display descriptor is 0, run the
        event loop. */
    method Start(wire: Wire, xdgOk: bool, wlFd: int, wakes: seq<EventLoop.Wake>) returns (r: Started)
      requires Valid()
      modifies wire
      ensures wire.sent == old(wire.sent) + Listeners(bars) + [GetXdgOutput]
      ensures !xdgOk ==> r == XdgRefused
      ensures xdgOk && wlFd == 0 ==> r == NoLoop
      ensures xdgOk && wlFd != 0 ==> r == Looped(EventLoop.Run(wakes, |bars|))
    {
      for i := 0 to |bars|
        invariant wire.sent == old(wire.sent) + Listeners(bars[..i])
      {
        wire.Send([AddConfigureListener(ClientLayer, bars[i])]);
        assert bars[..i + 1][..i] == bars[..i];
      }
      assert bars[..|bars|] == bars;
      wire.Send([GetXdgOutput]);
      if !xdgOk {
        return XdgRefused;
      }
      if wlFd == 0 {
        return NoLoop;
      }
      var t := EventLoop.Loop(wakes, |bars|);
      r := Looped(t);
    }
  }

  /** Every bar of the prototype paints into the one shared surface and
      answers configure events of the one shared layer surface: the
      surfaces of two bars are never told apart. */
  lemma {:induction false} BarsShareSurfaces(a: Bar, b: Bar)
    requires a.build == Prototype && b.build == Prototype
    ensures a.SurfaceHandle() == b.SurfaceHandle() == ClientSurface
    ensures a.LayerHandle() == b.LayerHandle() == ClientLayer
  {
  }
}
