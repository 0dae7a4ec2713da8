/** `Client` of src/client.cpp: every bar owns a surface and a layer
    surface. Startup connects and binds the globals, `add_bar` registers
    bars, `start` shows them, asks for an xdg_output per bar and runs the
    event loop. */
module HyprbarClient {
  import opened Wayland
  import opened Bars
  import Registry
  import Placement
  import EventLoop

  /** The requests `add_bar` makes for `bar`, whose fields are `width` and
      `height` at the time: the surface, the layer surface (only when the
      surface was created), then the placement and a commit (only when the
      layer surface was created too). */
  function AddBarRequests(bar: object, p: Position, width: int, height: int, surfaceOk: bool, layerOk: bool): seq<Request>
  {
    [CreateSurface(SurfaceOf(bar))]
    + (if !surfaceOk then [] else [GetLayerSurface(SurfaceOf(bar), LayerBottom, "hyprbar")])
    + (if !surfaceOk || !layerOk then []
       else Placement.PlacementRequests(LayerOf(bar), p, width, height) + [Commit(SurfaceOf(bar))])
  }

  /** The per-bar part of `start` for `bars`: listen for configure events,
      then ask for an xdg_output. */
  function SetupRequests(bars: seq<Bar>): seq<Request>
    decreases |bars|
  {
    if bars == [] then []
    else SetupRequests(bars[..|bars| - 1]) + [AddConfigureListener(bars[|bars| - 1].LayerHandle(), bars[|bars| - 1]), GetXdgOutput]
  }

  /** Two requests per bar, in registration order: the `i`-th bar's
      listener on its own layer surface, then its xdg_output request. */
  lemma {:induction false} SetupRequestsAt(bars: seq<Bar>)
    ensures |SetupRequests(bars)| == 2 * |bars|
    ensures forall i :: 0 <= i < |bars| ==>
      && SetupRequests(bars)[2 * i] == AddConfigureListener(bars[i].LayerHandle(), bars[i])
      && SetupRequests(bars)[2 * i + 1] == GetXdgOutput
    decreases |bars|
  {
    if bars != [] {
      var init := bars[..|bars| - 1];
      SetupRequestsAt(init);
      forall i | 0 <= i < |init|
        ensures bars[i] == init[i]
      {
      }
    }
  }

  /** The first bar, from `i` on, whose xdg_output the compositor refuses,
      or `n` when it refuses none. */
  function FirstRefused(refused: set<nat>, i: nat, n: nat): (k: nat)
    requires i <= n
    ensures i <= k <= n
    ensures forall j :: i <= j < k ==> j !in refused
    ensures k < n ==> k in refused
    decreases n - i
  {
    if i == n then n else if i in refused then i else FirstRefused(refused, i + 1, n)
  }

  /** How `start` ends: it died because the `bar`-th xdg_output was refused,
      it returned at once because the display descriptor is 0, or it ran
      the event loop. */
  datatype Started = XdgRefused(bar: nat) | NoLoop | Looped(trace: EventLoop.Trace)

  class Client {
    /** `__bars`, in registration order. */
    var bars: seq<Bar>
    /** The five global slots. */
    const globals: Registry.Globals
    /** How `init_wayland_connection` ended; anything but `Connected` ends
        the program. */
    const connection: Registry.Connection

    ghost predicate Valid()
      reads this
    {
      forall b :: b in bars ==> b.build == Hyprbar
    }

    /** `Client::Client()`, which is `init_wayland_connection()`. */
    constructor (wire: Wire, envSet: bool, connectOk: bool, ads: seq<Registry.Advert>)
      modifies wire
      ensures Valid() && bars == [] && fresh(globals)
      ensures connection == Registry.ConnectionOf(envSet, connectOk, ads)
      ensures envSet && connectOk ==>
        globals.Bindings() == Registry.RecordAll(Registry.Empty, ads)
        && wire.sent == old(wire.sent) + [GetRegistry, Roundtrip] + Registry.AllBindRequests(ads)
      ensures !(envSet && connectOk) ==> wire.sent == old(wire.sent)
    {
      bars := [];
      var g := new Registry.Globals();
      globals := g;
      var c := Registry.Connect(wire, g, envSet, connectOk, ads);
      connection := c;
    }

    /** `Client::add_bar(config)`: construct the bar and append it to the
        bars, create its surface and its layer surface on the bottom layer
        with namespace "hyprbar" (a failure of either is fatal), place it
        and commit. Returns the bar and whether both creations succeeded. */
    method AddBar(wire: Wire, config: Config, surfaceOk: bool, layerOk: bool) returns (bar: Bar, ok: bool)
      requires Valid()
      modifies this, wire
      ensures Valid() && fresh(bar)
      ensures bar.config == config && bar.build == Hyprbar && !bar.configured && bar.Valid()
      // appended at the end; earlier bars keep their order
      ensures bars == old(bars) + [bar]
      ensures ok <==> surfaceOk && layerOk
      ensures wire.sent == old(wire.sent) + AddBarRequests(bar, config.position, bar.width, bar.height, surfaceOk, layerOk)
      // the bar asks for its configured thickness across its edge, anchored
      // to every edge but the opposite one
      ensures ok ==> && wire.sent[|old(wire.sent)| + 2] ==
                          (if config.position.Horizontal() then SetSize(LayerOf(bar), 0, config.dim)
                           else SetSize(LayerOf(bar), config.dim, 0))
                     && wire.sent[|old(wire.sent)| + 3] == SetAnchor(LayerOf(bar), Placement.Anchor(config.position))
    {
      bar := new Bar(config, Hyprbar);
      bars := bars + [bar];
      wire.Send([CreateSurface(SurfaceOf(bar))]);
      if !surfaceOk {
        return bar, false;
      }
      wire.Send([GetLayerSurface(SurfaceOf(bar), LayerBottom, "hyprbar")]);
      if !layerOk {
        return bar, false;
      }
      Placement.Place(wire, LayerOf(bar), config.position, bar.width, bar.height);
      wire.Send([Commit(SurfaceOf(bar))]);
      Placement.SizeUsesConfiguredDimension(LayerOf(bar), config, bar.width, bar.height);
      ok := true;
    }

    /** `Client::start()`: show every bar and ask for its xdg_output, in
        registration order, dying at the first refusal; then, unless the
        display descriptor is 0, run the event loop. `refused` holds the
        positions of the bars whose xdg_output the compositor refuses. */
    method Start(wire: Wire, refused: set<nat>, wlFd: int, wakes: seq<EventLoop.Wake>) returns (r: Started)
      requires Valid()
      modifies wire
      ensures var k := FirstRefused(refused, 0, |bars|);
        && wire.sent == old(wire.sent) + SetupRequests(bars[..Shown(k, |bars|)])
        && (k < |bars| ==> r == XdgRefused(k))
        && (k == |bars| && wlFd == 0 ==> r == NoLoop)
        && (k == |bars| && wlFd != 0 ==> r == Looped(EventLoop.Run(wakes, |bars|)))
    {
      var k := ShowAll(wire, refused);
      if k < |bars| {
        return XdgRefused(k);
      }
      if wlFd == 0 {
        return NoLoop;
      }
      var t := EventLoop.Loop(wakes, |bars|);
      r := Looped(t);
    }

    /** The `for` loop of `start`: show each bar and ask for its
        xdg_output, stopping at the first refusal. Returns the position of
        that refusal, or the number of bars. */
    method ShowAll(wire: Wire, refused: set<nat>) returns (k: nat)
      modifies wire
      ensures k == FirstRefused(refused, 0, |bars|)
      ensures wire.sent == old(wire.sent) + SetupRequests(bars[..Shown(k, |bars|)])
    {
      k := 0;
      while k < |bars|
        invariant 0 <= k <= |bars|
        invariant forall j :: 0 <= j < k ==> j !in refused
        invariant wire.sent == old(wire.sent) + SetupRequests(bars[..k])
      {
        bars[k].Show(wire);
        wire.Send([GetXdgOutput]);
        SetupGrows(bars, k);
        if k in refused {
          FirstRefusedIs(refused, |bars|, k);
          return;
        }
        k := k + 1;
      }
      FirstRefusedIs(refused, |bars|, k);
    }
  }

  /** How many bars `start` shows when the `k`-th is the first refused
      (`k == n`: none is): the refused one is shown before it dies. */
  function Shown(k: nat, n: nat): nat
  {
    if k < n then k + 1 else k
  }

  /** Setting up one more bar appends its two requests. */
  lemma SetupGrows(bars: seq<Bar>, i: nat)
    requires i < |bars|
    ensures SetupRequests(bars[..i + 1])
      == SetupRequests(bars[..i]) + [AddConfigureListener(bars[i].LayerHandle(), bars[i]), GetXdgOutput]
  {
    assert bars[..i + 1][..i] == bars[..i];
  }

  /** The first refusal is the position no earlier refusal precedes. */
  lemma {:induction false} FirstRefusedIs(refused: set<nat>, n: nat, k: nat)
    requires k <= n && (forall j :: 0 <= j < k ==> j !in refused) && (k < n ==> k in refused)
    ensures FirstRefused(refused, 0, n) == k
  {
  }
}
