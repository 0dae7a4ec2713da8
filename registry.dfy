/** The registry half of `init_wayland_connection` and `handle_global`
    (identical in src/client.cpp and the prototype client.cpp): bind the
    five globals the client needs as the compositor advertises them, then
    check that all five were bound. */
module Registry {
  import opened Wayland

  /** The interface name the compositor advertises for each global. */
  function InterfaceName(i: Interface): string
  {
    match i
    case Compositor => "wl_compositor"
    case Shm => "wl_shm"
    case LayerShell => "zwlr_layer_shell_v1"
    case OutputManager => "zxdg_output_manager_v1"
    case Output => "wl_output"
  }

  /** The `strcmp` chain of `handle_global`: which slot, if any, an
      advertised interface name selects. */
  function Lookup(iface: string): Option<Interface>
  {
    if iface == "wl_compositor" then Some(Compositor)
    else if iface == "wl_shm" then Some(Shm)
    else if iface == "zwlr_layer_shell_v1" then Some(LayerShell)
    else if iface == "zxdg_output_manager_v1" then Some(OutputManager)
    else if iface == "wl_output" then Some(Output)
    else None
  }

  /** The version `handle_global` binds each interface at, whatever version
      the compositor advertised. */
  function BindVersion(i: Interface): nat
  {
    match i
    case Compositor => 4
    case Shm => 1
    case LayerShell => 1
    case OutputManager => 2
    case Output => 1
  }

  /** A name selects exactly the slot of the interface it names, and every
      other name selects none. */
  lemma LookupIsExact(iface: string, i: Interface)
    ensures Lookup(iface) == Some(i) <==> iface == InterfaceName(i)
  {
  }

  /** One `global` event: the registry name of the global and its interface. */
  datatype Advert = Advert(name: u32, iface: string)

  /** The five slots of `Client`, each null or bound from one registry name. */
  datatype Slots = Slots(compositor: Option<u32>, shm: Option<u32>, layerShell: Option<u32>,
                         outputManager: Option<u32>, output: Option<u32>)
  {
    function Get(i: Interface): Option<u32>
    {
      match i
      case Compositor => compositor
      case Shm => shm
      case LayerShell => layerShell
      case OutputManager => outputManager
      case Output => output
    }

    function Set(i: Interface, name: u32): (s: Slots)
      ensures s.Get(i) == Some(name)
      ensures forall j :: j != i ==> s.Get(j) == Get(j)
    {
      match i
      case Compositor => this.(compositor := Some(name))
      case Shm => this.(shm := Some(name))
      case LayerShell => this.(layerShell := Some(name))
      case OutputManager => this.(outputManager := Some(name))
      case Output => this.(output := Some(name))
    }
  }

  const Empty := Slots(None, None, None, None, None)

  /** What one `global` event does to the slots. */
  function Record(b: Slots, ad: Advert): Slots
  {
    match Lookup(ad.iface)
    case None => b
    case Some(i) => b.Set(i, ad.name)
  }

  /** The slots after a series of `global` events, in the order they arrive. */
  function RecordAll(b: Slots, ads: seq<Advert>): Slots
    decreases |ads|
  {
    if ads == [] then b else Record(RecordAll(b, ads[..|ads| - 1]), ads[|ads| - 1])
  }

  /** The requests one `global` event makes: a bind at the slot's version,
      or nothing for an interface the client does not use. */
  function BindRequests(ad: Advert): seq<Request>
  {
    match Lookup(ad.iface)
    case None => []
    case Some(i) => [Bind(ad.name, i, BindVersion(i))]
  }

  function AllBindRequests(ads: seq<Advert>): seq<Request>
    decreases |ads|
  {
    if ads == [] then [] else AllBindRequests(ads[..|ads| - 1]) + BindRequests(ads[|ads| - 1])
  }

  /** A `global` event binds the slot its name selects and leaves the
      other four alone. */
  lemma RecordTouchesOneSlot(b: Slots, ad: Advert, i: Interface)
    ensures Record(b, ad).Get(i) == if Lookup(ad.iface) == Some(i) then Some(ad.name) else b.Get(i)
  {
  }

  /** The last advertisement wins: starting from no bindings, a slot is
      bound exactly when some advertisement names its interface, and then
      to the name of the LAST such advertisement. */
  lemma {:induction false} LastAdvertWins(ads: seq<Advert>, i: Interface)
    ensures RecordAll(Empty, ads).Get(i).Some? <==> exists k :: 0 <= k < |ads| && Lookup(ads[k].iface) == Some(i)
    ensures RecordAll(Empty, ads).Get(i).Some? ==>
      exists k :: && 0 <= k < |ads| && Lookup(ads[k].iface) == Some(i)
                  && RecordAll(Empty, ads).Get(i) == Some(ads[k].name)
                  && forall k' :: k < k' < |ads| ==> Lookup(ads[k'].iface) != Some(i)
    decreases |ads|
  {
    if ads != [] {
      var prefix, last := ads[..|ads| - 1], ads[|ads| - 1];
      LastAdvertWins(prefix, i);
      RecordTouchesOneSlot(RecordAll(Empty, prefix), last, i);
      assert forall k :: 0 <= k < |prefix| ==> ads[k] == prefix[k];
      if Lookup(last.iface) != Some(i) && RecordAll(Empty, ads).Get(i).Some? {
        var k :| && 0 <= k < |prefix| && Lookup(prefix[k].iface) == Some(i)
                 && RecordAll(Empty, prefix).Get(i) == Some(prefix[k].name)
                 && forall k' :: k < k' < |prefix| ==> Lookup(prefix[k'].iface) != Some(i);
        assert forall k' :: k < k' < |ads| ==> Lookup(ads[k'].iface) != Some(i);
      }
    }
  }

  /** The five globals in the order the startup check lists them. */
  const Needed: seq<Interface> := [Compositor, Shm, LayerShell, OutputManager, Output]

  /** The position of an interface in `Needed`. */
  function Rank(i: Interface): (r: nat)
    ensures r < |Needed| && Needed[r] == i
  {
    match i
    case Compositor => 0
    case Shm => 1
    case LayerShell => 2
    case OutputManager => 3
    case Output => 4
  }

  /** How the startup check ends: on, or the two lists it prints ("These
      work", then "These don't") before `exit(1)`. */
  datatype Verdict = Proceed | Unsupported(present: seq<Interface>, absent: seq<Interface>)

  /** The interfaces of `s` whose slot in `b` is bound (`bound`) or null
      (`!bound`), in the order of `s`. */
  function Listed(s: seq<Interface>, b: Slots, bound: bool): seq<Interface>
    decreases |s|
  {
    if s == [] then []
    else (if b.Get(s[0]).Some? == bound then [s[0]] else []) + Listed(s[1..], b, bound)
  }

  /** Ranks strictly increase along a sequence. */
  predicate Ascending(s: seq<Interface>)
  {
    forall a, c :: 0 <= a < c < |s| ==> Rank(s[a]) < Rank(s[c])
  }

  /** Listing keeps exactly the interfaces asked for. */
  lemma {:induction false} ListedMembers(s: seq<Interface>, b: Slots, bound: bool)
    ensures forall i :: i in Listed(s, b, bound) <==> i in s && (b.Get(i).Some? == bound)
    decreases |s|
  {
    if s != [] {
      ListedMembers(s[1..], b, bound);
      assert s == [s[0]] + s[1..];
    }
  }

  /** Listing keeps the order of the interfaces listed from. */
  lemma {:induction false} ListedAscending(s: seq<Interface>, b: Slots, bound: bool)
    requires Ascending(s)
    ensures Ascending(Listed(s, b, bound))
    decreases |s|
  {
    if s != [] {
      ListedAscending(s[1..], b, bound);
      ListedMembers(s[1..], b, bound);
      var rest := Listed(s[1..], b, bound);
      forall c | 0 <= c < |rest|
        ensures Rank(s[0]) < Rank(rest[c])
      {
        assert rest[c] in s[1..];
        var c' :| 0 <= c' < |s| - 1 && s[1..][c'] == rest[c];
        assert s[c' + 1] == rest[c];
      }
    }
  }

  /** The bound and the null listing together have one entry per interface
      listed from. */
  lemma {:induction false} ListedLengths(s: seq<Interface>, b: Slots)
    ensures |Listed(s, b, true)| + |Listed(s, b, false)| == |s|
    decreases |s|
  {
    if s != [] {
      ListedLengths(s[1..], b);
    }
  }

  /** The startup check on the bound slots: the `X(var) var &&` chain, and
      the two unrolled listings. */
  function Check(b: Slots): Verdict
  {
    if b.compositor.Some? && b.shm.Some? && b.layerShell.Some? && b.outputManager.Some? && b.output.Some? then Proceed
    else Unsupported(Listed(Needed, b, true), Listed(Needed, b, false))
  }

  /** `Needed` is in rank order: position `a` holds the interface of rank `a`. */
  lemma NeededAscending()
    ensures Ascending(Needed)
  {
    forall a | 0 <= a < |Needed|
      ensures Rank(Needed[a]) == a
    {
    }
  }

  /** Startup goes on exactly when all five slots are bound; otherwise the
      two lists split the five interfaces between them, every interface in
      exactly one list, each list in `Needed` order, the missing ones never
      empty. */
  lemma CheckPartitions(b: Slots)
    ensures Check(b) == Proceed <==> forall i: Interface :: b.Get(i).Some?
    ensures Check(b).Unsupported? ==>
      && (forall i :: i in Check(b).present <==> b.Get(i).Some?)
      && (forall i :: i in Check(b).absent <==> b.Get(i).None?)
      && |Check(b).present| + |Check(b).absent| == |Needed|
      && Check(b).absent != []
      && Ascending(Check(b).present) && Ascending(Check(b).absent)
  {
    if Check(b).Unsupported? {
      NeededAscending();
      ListedMembers(Needed, b, true);
      ListedMembers(Needed, b, false);
      ListedAscending(Needed, b, true);
      ListedAscending(Needed, b, false);
      ListedLengths(Needed, b);
      forall i: Interface
        ensures i in Needed
      {
        assert Needed[Rank(i)] == i;
      }
      var missing :| missing in Needed && b.Get(missing).None?;
    }
  }

  /** The slots of `Client`: each null, or bound from one registry name. */
  class Globals {
    var compositor: Option<u32>
    var shm: Option<u32>
    var layerShell: Option<u32>
    var outputManager: Option<u32>
    var output: Option<u32>

    function Bindings(): Slots
      reads this
    {
      Slots(compositor, shm, layerShell, outputManager, output)
    }

    /** Every slot starts null. */
    constructor ()
      ensures Bindings() == Empty
    {
      compositor, shm, layerShell, outputManager, output := None, None, None, None, None;
    }

    /** `Client::handle_global(name, interface, version)`: bind the slot the
        interface name selects, overwriting it; the advertised version is
        ignored. */
    method HandleGlobal(wire: Wire, name: u32, iface: string, version: u32)
      modifies this, wire
      ensures Bindings() == Record(old(Bindings()), Advert(name, iface))
      ensures wire.sent == old(wire.sent) + BindRequests(Advert(name, iface))
    {
      if iface == "wl_compositor" {
        compositor := Some(name);
        wire.Send([Bind(name, Compositor, 4)]);
      } else if iface == "wl_shm" {
        shm := Some(name);
        wire.Send([Bind(name, Shm, 1)]);
      } else if iface == "zwlr_layer_shell_v1" {
        layerShell := Some(name);
        wire.Send([Bind(name, LayerShell, 1)]);
      } else if iface == "zxdg_output_manager_v1" {
        outputManager := Some(name);
        wire.Send([Bind(name, OutputManager, 2)]);
      } else if iface == "wl_output" {
        output := Some(name);
        wire.Send([Bind(name, Output, 1)]);
      }
    }

    /** `Client::handle_global_remove(name)`: ignores the event. */
    method HandleGlobalRemove(name: u32)
      ensures Bindings() == old(Bindings())
    {
    }
  }

  /** How the shared part of `init_wayland_connection` ends. */
  datatype Connection =
    | Connected
    | NoRuntimeDir          // XDG_RUNTIME_DIR is unset: die
    | NoDisplay             // wl_display_connect returned null: die
    | Refused(present: seq<Interface>, absent: seq<Interface>)  // exit(1)

  /** The connection outcome on these inputs. */
  function ConnectionOf(envSet: bool, connectOk: bool, ads: seq<Advert>): Connection
  {
    if !envSet then NoRuntimeDir
    else if !connectOk then NoDisplay
    else match Check(RecordAll(Empty, ads))
      case Proceed => Connected
      case Unsupported(p, a) => Refused(p, a)
  }

  /** `init_wayland_connection` up to and including the startup check:
      `envSet` is whether XDG_RUNTIME_DIR is set, `connectOk` whether the
      display connection succeeded, and `ads` the `global` events the
      roundtrip delivers, in order. */
  method Connect(wire: Wire, globals: Globals, envSet: bool, connectOk: bool, ads: seq<Advert>) returns (r: Connection)
    requires globals.Bindings() == Empty
    modifies wire, globals
    ensures r == ConnectionOf(envSet, connectOk, ads)
    ensures envSet && connectOk ==>
      globals.Bindings() == RecordAll(Empty, ads)
      && wire.sent == old(wire.sent) + [GetRegistry, Roundtrip] + AllBindRequests(ads)
    ensures !(envSet && connectOk) ==> globals.Bindings() == Empty && wire.sent == old(wire.sent)
  {
    if !envSet {
      return NoRuntimeDir;
    }
    if !connectOk {
      return NoDisplay;
    }
    wire.Send([GetRegistry, Roundtrip]);
    var k := 0;
    while k < |ads|
      invariant 0 <= k <= |ads|
      invariant globals.Bindings() == RecordAll(Empty, ads[..k])
      invariant wire.sent == old(wire.sent) + [GetRegistry, Roundtrip] + AllBindRequests(ads[..k])
    {
      globals.HandleGlobal(wire, ads[k].name, ads[k].iface, 0);
      assert ads[..k + 1][..k] == ads[..k];
      k := k + 1;
    }
    assert ads[..k] == ads;
    r := match Check(globals.Bindings())
      case Proceed => Connected
      case Unsupported(p, a) => Refused(p, a);
  }
}
