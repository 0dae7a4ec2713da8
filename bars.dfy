/** `Bar` (src/bar.cpp, and the prototype bar.cpp with its configure handler
    in client.cpp): one layer-shell strip, its configure handshake and its
    paint pass. The two builds differ only in the colour they paint and in
    the surface a frame is committed to: a hyprbar bar owns its surface and
    layer surface, a prototype bar uses the client's shared ones. */
module Bars {
  import opened Wayland
  import opened Canvases

  /** Which program the bar belongs to: src/ (hyprbar) or the root prototype. */
  datatype Build = Hyprbar | Prototype

  /** The `rgb(x % 256, y % 256, 127)` colour of src/bar.cpp: opaque alpha,
      red from the column, green from the row, blue 127. */
  function Gradient(x: nat, y: nat): (c: u32)
    ensures c as int / 0x100_0000 == 0xFF
    ensures c as int / 0x1_0000 % 0x100 == x % 256
    ensures c as int / 0x100 % 0x100 == y % 256
    ensures c as int % 0x100 == 127
  {
    var r, g := x % 256, y % 256;
    var v := 0xFF00_0000 + r * 0x1_0000 + g * 0x100 + 127;
    // Split the word at each byte boundary.
    SplitAt(v, 0x100_0000, 0xFF, r * 0x1_0000 + g * 0x100 + 127);
    SplitAt(v, 0x1_0000, 0xFF00 + r, g * 0x100 + 127);
    SplitAt(v, 0x100, 0xFF_0000 + r * 0x100 + g, 127);
    SplitAt(0xFF00 + r, 0x100, 0xFF, r);
    SplitAt(0xFF_0000 + r * 0x100 + g, 0x100, 0xFF00 + r, g);
    v as u32
  }

  /** `v = q * m + b` with `0 <= b < m` splits `v` into quotient `q` and
      remainder `b`. */
  lemma SplitAt(v: int, m: int, q: int, b: int)
    requires 0 < m && v == q * m + b && 0 <= b < m
    ensures v / m == q && v % m == b
  {
    var q', b' := v / m, v % m;
    assert (q - q') * m == b' - b;
    if q < q' {
      MulMonotone(q + 1, q', m);
    } else if q' < q {
      MulMonotone(q' + 1, q, m);
    }
  }

  /** The prototype's colour: a dark opaque band in the corner where
      `x + y < 30`, fully transparent elsewhere. */
  function Band(x: nat, y: nat): u32
  {
    if x + y < 30 then 0xFF18_1818 else 0
  }

  function Colour(build: Build, x: nat, y: nat): u32
  {
    match build
    case Hyprbar => Gradient(x, y)
    case Prototype => Band(x, y)
  }

  /** The coordinates `(0, y) .. (n - 1, y)`: one pass of the inner loop. */
  function Row(n: int, y: int): seq<(int, int)>
    decreases n
  {
    if n <= 0 then [] else Row(n - 1, y) + [(n - 1, y)]
  }

  /** The coordinates of rows `0 .. rows - 1`, row after row: the nested
      loops of `draw`. */
  function RowMajor(width: int, rows: int): seq<(int, int)>
    decreases rows
  {
    if rows <= 0 then [] else RowMajor(width, rows - 1) + Row(width, rows - 1)
  }

  lemma {:induction false} RowAt(n: int, y: int)
    ensures |Row(n, y)| == (if n <= 0 then 0 else n)
    ensures forall x :: 0 <= x < |Row(n, y)| ==> Row(n, y)[x] == (x, y)
    decreases n
  {
    if n > 0 {
      RowAt(n - 1, y);
    }
  }

  lemma {:induction false} RowMajorLength(width: int, height: int)
    requires 0 <= width && 0 <= height
    ensures |RowMajor(width, height)| == width * height
    decreases height
  {
    if height > 0 {
      RowMajorLength(width, height - 1);
      RowAt(width, height - 1);
      assert width * height == width * (height - 1) + width;
    }
  }

  /** Position `i` of the visiting order holds the pixel whose cell is `i`. */
  lemma {:induction false} RowMajorAt(width: int, height: int, i: int)
    requires 0 <= width && 0 <= height && 0 <= i < |RowMajor(width, height)|
    ensures var p := RowMajor(width, height)[i];
      Inside(p.0, p.1, width, height) && Offset(p.0, p.1, width) == i
    decreases height
  {
    var prev := RowMajor(width, height - 1);
    assert RowMajor(width, height) == prev + Row(width, height - 1);
    if i < |prev| {
      RowMajorAt(width, height - 1, i);
    } else {
      RowMajorLength(width, height - 1);
      RowAt(width, height - 1);
      assert RowMajor(width, height)[i] == Row(width, height - 1)[i - |prev|];
      RowStart(i - |prev|, height - 1, width);
    }
  }

  /** The cells of row `y` start at `width * y`. */
  lemma RowStart(x: int, y: int, width: int)
    ensures Offset(x, y, width) == x + width * y
  {
  }

  /** The paint pass visits every pixel of the canvas exactly once, in
      row-major order: there are `width * height` visits, position `i` holds
      the pixel whose cell is `i`, and every pixel of the canvas is visited
      at the position of its own cell. */
  lemma {:induction false} RowMajorVisitsEachPixelOnce(width: int, height: int)
    requires 0 <= width && 0 <= height
    ensures |RowMajor(width, height)| == width * height
    ensures forall i :: 0 <= i < |RowMajor(width, height)| ==>
      Inside(RowMajor(width, height)[i].0, RowMajor(width, height)[i].1, width, height) &&
      Offset(RowMajor(width, height)[i].0, RowMajor(width, height)[i].1, width) == i
    ensures forall x, y :: Inside(x, y, width, height) ==>
      0 <= Offset(x, y, width) < |RowMajor(width, height)| && RowMajor(width, height)[Offset(x, y, width)] == (x, y)
  {
    RowMajorLength(width, height);
    var rm := RowMajor(width, height);
    forall i | 0 <= i < |rm|
      ensures Inside(rm[i].0, rm[i].1, width, height) && Offset(rm[i].0, rm[i].1, width) == i
    {
      RowMajorAt(width, height, i);
    }
    forall x, y | Inside(x, y, width, height)
      ensures 0 <= Offset(x, y, width) < |rm| && rm[Offset(x, y, width)] == (x, y)
    {
      RowMajorHitsPixel(width, height, x, y);
    }
  }

  /** A pixel of the canvas is visited at the position of its own cell. */
  lemma {:induction false} RowMajorHitsPixel(width: int, height: int, x: int, y: int)
    requires 0 <= width && 0 <= height && Inside(x, y, width, height)
    ensures 0 <= Offset(x, y, width) < |RowMajor(width, height)|
    ensures RowMajor(width, height)[Offset(x, y, width)] == (x, y)
  {
    RowMajorLength(width, height);
    OffsetInside(x, y, width, height);
    RowMajorAt(width, height, Offset(x, y, width));
    var p := RowMajor(width, height)[Offset(x, y, width)];
    OffsetInjective(p.0, p.1, x, y, width);
  }

  /** Row-major order: of two positions in the visiting order, the earlier
      one is in an earlier row, or in the same row further left. */
  lemma {:induction false} RowMajorIsOrdered(width: int, height: int, i: int, j: int)
    requires 0 <= width && 0 <= height
    requires 0 <= i < j < |RowMajor(width, height)|
    ensures var p, q := RowMajor(width, height)[i], RowMajor(width, height)[j];
      p.1 < q.1 || (p.1 == q.1 && p.0 < q.0)
  {
    RowMajorAt(width, height, i);
    RowMajorAt(width, height, j);
    var p, q := RowMajor(width, height)[i], RowMajor(width, height)[j];
    if q.1 < p.1 {
      EarlierCell(q.0, q.1, p.0, p.1, width);
    } else if q.1 == p.1 {
      assert p.0 < q.0;
    }
  }

  /** The pixels of a finished frame: `width * height` cells, each holding
      the build's colour for its pixel. */
  ghost predicate Painted(cells: seq<u32>, width: int, height: int, build: Build)
  {
    |cells| == width * height &&
    forall x: nat, y: nat :: Inside(x, y, width, height) ==>
      0 <= Offset(x, y, width) < |cells| && cells[Offset(x, y, width)] == Colour(build, x, y)
  }

  /** A painted frame is fully determined by its size and build: no cell is
      left to chance. */
  lemma {:induction false} PaintedIsUnique(a: seq<u32>, b: seq<u32>, width: int, height: int, build: Build)
    requires 0 <= width && 0 <= height
    requires Painted(a, width, height, build) && Painted(b, width, height, build)
    ensures a == b
  {
    forall i | 0 <= i < |a|
      ensures a[i] == b[i]
    {
      CellHasPixel(i, width, height);
      var x: nat, y: nat := i % width, i / width;
      assert a[Offset(x, y, width)] == Colour(build, x, y);
    }
  }

  /** How a paint pass ends: committed, or no canvas could be constructed. */
  datatype Frame = Committed | NotDrawn(why: OpenFailure)

  function FrameOf(bufsize: int, sys: FrameSys): Frame
  {
    match OpenFailureOf(bufsize, sys)
    case None => Committed
    case Some(why) => NotDrawn(why)
  }

  /** The requests one paint pass makes: the canvas's construction and, when
      it produced a canvas, its destruction. */
  function FrameRequests(surface: Surface, width: int, height: int, bufsize: int, sys: FrameSys): seq<Request>
  {
    OpenRequests(width, height, bufsize, sys)
    + (if OpenFailureOf(bufsize, sys) == None then CloseRequests(surface, width, height, bufsize) else [])
  }

  /** The fields the configure handshake sets. */
  datatype Dims = Dims(width: int, height: int, stride: int, bufsize: int, configured: bool)

  /** The geometry a configured bar keeps: `stride == 4 * width` and
      `bufsize == stride * height`. */
  ghost predicate Consistent(d: Dims)
  {
    d.configured ==> 0 <= d.width && 0 <= d.height && d.stride == 4 * d.width && d.bufsize == d.stride * d.height
  }

  /** What one configure event of size `w x h` does to the fields. */
  function Latch(d: Dims, w: u32, h: u32): Dims
  {
    if d.configured then d else Dims(w as int, h as int, w as int * 4, w as int * 4 * h as int, true)
  }

  /** A configure event as the compositor sends it. */
  datatype ConfigureEvent = ConfigureEvent(serial: u32, w: u32, h: u32)

  /** The fields after a series of configure events, in order. */
  function LatchAll(d: Dims, evs: seq<ConfigureEvent>): Dims
    decreases |evs|
  {
    if evs == [] then d else LatchAll(Latch(d, evs[0].w, evs[0].h), evs[1..])
  }

  /** Only the first configure event counts: whatever follows it, the bar
      keeps its size, with the stride and buffer size derived from it. */
  lemma {:induction false} FirstConfigureWins(d: Dims, evs: seq<ConfigureEvent>)
    requires !d.configured && evs != []
    ensures var w, h := evs[0].w as int, evs[0].h as int;
      LatchAll(d, evs) == Dims(w, h, 4 * w, 4 * w * h, true)
  {
    ConfiguredStays(Latch(d, evs[0].w, evs[0].h), evs[1..]);
  }

  /** Once configured, a bar never changes its fields again, and never
      becomes unconfigured. */
  lemma {:induction false} ConfiguredStays(d: Dims, evs: seq<ConfigureEvent>)
    requires d.configured
    ensures LatchAll(d, evs) == d
    decreases |evs|
  {
    if evs != [] {
      ConfiguredStays(Latch(d, evs[0].w, evs[0].h), evs[1..]);
    }
  }

  /** Configure events keep the geometry consistent, and a bar is configured
      after them exactly when it was before or at least one arrived. */
  lemma {:induction false} LatchKeepsGeometry(d: Dims, evs: seq<ConfigureEvent>)
    requires Consistent(d)
    ensures Consistent(LatchAll(d, evs))
    ensures LatchAll(d, evs).configured <==> d.configured || evs != []
  {
    if d.configured {
      ConfiguredStays(d, evs);
    } else if evs != [] {
      FirstConfigureWins(d, evs);
    }
  }

  class Bar {
    /** `__config`: the edge and the fixed dimension. */
    const config: Config
    const build: Build
    /** `__width`, `__height`, `__stride`, `__bufsize`: left indeterminate by
        the constructor, except for the dimension the configuration fixes. */
    var width: int
    var height: int
    var stride: int
    var bufsize: int
    /** `__configured`, `false` until the first configure event. */
    var configured: bool

    function Fields(): Dims
      reads this
    {
      Dims(width, height, stride, bufsize, configured)
    }

    ghost predicate Valid()
      reads this
    {
      Consistent(Fields())
    }

    /** The surface frames are committed to. */
    function SurfaceHandle(): Surface
    {
      if build == Hyprbar then SurfaceOf(this) else ClientSurface
    }

    /** The layer surface configure events come from. */
    function LayerHandle(): LayerSurface
    {
      if build == Hyprbar then LayerOf(this) else ClientLayer
    }

    /** `Bar::Bar(config)`: a top or bottom bar takes its height from the
        configuration, a left or right bar its width; nothing else is set. */
    constructor (config: Config, build: Build)
      ensures this.config == config && this.build == build
      ensures !configured && Valid()
      ensures config.position.Horizontal() ==> height == config.Height()
      ensures !config.position.Horizontal() ==> width == config.Width()
    {
      this.config := config;
      this.build := build;
      width, height, stride, bufsize := *, *, *, *;
      configured := false;
      new;
      match config.position
      case Top | Bottom =>
        height := config.Height();
      case Left | Right =>
        width := config.Width();
    }

    /** `Bar::show()`: listen for configure events on the bar's layer
        surface, with the bar as user data. */
    method Show(wire: Wire)
      modifies wire
      ensures wire.sent == old(wire.sent) + [AddConfigureListener(LayerHandle(), this)]
    {
      wire.Send([AddConfigureListener(LayerHandle(), this)]);
    }

    /** `Bar::draw()`: construct a canvas from the bar's current fields,
        paint every pixel row by row, and destroy the canvas, which commits
        the frame. Returns the canvas, so that its pixels can be inspected. */
    method Draw(wire: Wire, sys: FrameSys) returns (frame: Frame, c: Canvas?)
      requires Valid()
      modifies wire
      ensures frame == FrameOf(bufsize, sys)
      ensures wire.sent == old(wire.sent) + FrameRequests(SurfaceHandle(), width, height, bufsize, sys)
      ensures frame == Committed <==> c != null
      ensures c != null ==> fresh(c) && c.width == width && c.height == height
      ensures c != null ==> c.bufsize == bufsize && c.data.Length == bufsize / 4
      ensures c != null ==> PaintedBy(c)
    {
      var failure;
      c, failure := Open(wire, width, height, bufsize, SurfaceHandle(), sys);
      if c == null {
        return FrameOf(bufsize, sys), null;
      }
      // A configured bar's mapping holds exactly its width * height pixels.
      if configured {
        ConfiguredCells(width, height, bufsize);
      }
      Paint(c);
      assert PaintedBy(c);
      c.Close(wire);
      frame := Committed;
    }

    /** What a paint pass leaves in `c`. Every pixel of `[0, width) x
        [0, height)` is visited once, row by row, and none of the calls is
        rejected by the bounds check. A configured bar's canvas is fully
        painted with nothing written beyond the mapping. An unconfigured
        bar's `bufsize` need not match its `width * height`: then every pixel
        whose cell lies past the mapping is written beyond it, and a mapping
        short of a non-empty canvas is always overrun. */
    ghost predicate PaintedBy(c: Canvas)
      reads this, c, c.data
    {
      && c.calls == RowMajor(width, height) && c.writes == c.calls
      && (configured ==> Painted(c.data[..], width, height, build) && c.outside == map[])
      && OverrunAll(c, width, height, build)
      && (0 < width && 0 < height && c.data.Length < width * height ==> c.outside != map[])
    }

    /** The two loops of `Bar::draw()`: `set_pixel(x, y, colour)` for every
        `y` in `[0, height)` and, within a row, every `x` in `[0, width)`. */
    method Paint(c: Canvas)
      requires c.Valid() && c.width == width && c.height == height
      requires c.calls == [] && c.writes == [] && c.outside == map[]
      requires forall i :: 0 <= i < c.data.Length ==> c.data[i] == 0
      modifies c, c.data
      ensures c.Valid()
      ensures c.calls == RowMajor(width, height) && c.writes == c.calls
      ensures c.data.Length == width * height ==> Painted(c.data[..], width, height, build) && c.outside == map[]
      // a pixel whose cell lies past a shorter mapping is written beyond it
      ensures OverrunAll(c, width, height, build)
      ensures 0 < width && 0 < height && c.data.Length < width * height ==> c.outside != map[]
    {
      var y := 0;
      while y < height
        invariant 0 <= y && (y <= height || y == 0)
        invariant Progress(c, 0, y)
      {
        PaintRow(c, y);
        y := y + 1;
      }
      if c.data.Length == width * height {
        PaintedAll(c.data[..], width, height, build);
        forall x, y | Inside(x, y, width, height)
          ensures Offset(x, y, width) < c.data.Length
        {
          OffsetInside(x, y, width, height);
        }
      }
      if 0 < width && 0 < height && c.data.Length < width * height {
        ShortMappingOverrun(c.outside, c.data.Length, width, height, build);
      }
    }

    /** How far a paint pass over `c` has got when it is about to paint
        `(x, y)`: the calls so far are the row-major order up to there; with
        a mapping of `width * height` cells the pixels before `(x, y)` hold
        their colour, the cells from `(x, y)` on are still zero and nothing
        was written beyond the mapping; with any other mapping the pixels
        before `(x, y)` whose cells lie past it were written beyond it. */
    ghost predicate Progress(c: Canvas, x: int, y: int)
      reads this, c, c.data
    {
      && c.Valid() && c.width == width && c.height == height
      && c.calls == RowMajor(width, y) + Row(x, y) && c.writes == c.calls
      && (c.data.Length == width * height ==>
            && c.outside == map[]
            && PaintedBefore(c.data[..], width, build, x, y)
            && ZeroFrom(c.data[..], Offset(x, y, width)))
      && (c.data.Length != width * height ==> OverrunBefore(c.outside, c.data.Length, width, build, x, y))
    }

    /** One pass of the inner loop of `Bar::draw()`: `set_pixel(x, y, colour)`
        for every `x` in `[0, width)`. */
    method PaintRow(c: Canvas, y: int)
      requires 0 <= y < height && Progress(c, 0, y)
      modifies c, c.data
      ensures Progress(c, 0, y + 1)
    {
      var x := 0;
      while x < width
        invariant 0 <= x && (x <= width || x == 0)
        invariant Progress(c, x, y)
      {
        PaintPixel(c, x, y);
        x := x + 1;
      }
      assert Row(x, y) == Row(width, y);
      assert RowMajor(width, y + 1) + Row(0, y + 1) == RowMajor(width, y) + Row(x, y);
      if c.data.Length == width * height {
        NextRow(c.data[..], width, build, y);
      } else {
        NextOverrunRow(c.outside, c.data.Length, width, build, y);
      }
    }

    /** One call of the inner loop: `set_pixel(x, y, colour)`. */
    method PaintPixel(c: Canvas, x: int, y: int)
      requires 0 <= x < width && 0 <= y < height && Progress(c, x, y)
      modifies c, c.data
      ensures Progress(c, x + 1, y)
    {
      ghost var fits := c.data.Length == width * height;
      ghost var before := c.data[..];
      ghost var beyond := c.outside;
      if fits {
        OffsetInside(x, y, width, height);
      }
      // (x, y) is inside the canvas, so the bounds check passes and
      // `out_of_range` is never thrown here.
      var thrown := c.SetPixel(x, y, Colour(build, x, y));
      assert !thrown;
      if fits {
        PaintStep(before, c.data[..], width, build, x, y);
      } else {
        OverrunStep(beyond, c.outside, c.data.Length, width, build, x, y);
      }
      assert Row(x + 1, y) == Row(x, y) + [(x, y)];
    }

    /** `Bar::layer_surface_configure(serial, w, h)`: acknowledge the event;
        on the first one only, latch the size, derive stride and buffer size,
        mark the bar configured and paint it. Returns the paint pass, if any. */
    method Configure(wire: Wire, serial: u32, w: u32, h: u32, sys: FrameSys) returns (drawn: Option<Frame>, c: Canvas?)
      requires Valid()
      modifies this, wire
      ensures Valid() && Fields() == Latch(old(Fields()), w, h)
      ensures old(configured) ==>
        && drawn == None && c == null
        && wire.sent == old(wire.sent) + [AckConfigure(LayerHandle(), serial)]
      ensures !old(configured) ==>
        && configured
        && width == w as int && height == h as int && stride == 4 * w as int && bufsize == 4 * w as int * h as int
        && drawn == Some(FrameOf(bufsize, sys))
        && wire.sent == old(wire.sent) + [AckConfigure(LayerHandle(), serial)]
                        + FrameRequests(SurfaceHandle(), width, height, bufsize, sys)
      // the first event's paint pass yields a canvas exactly when it commits,
      // and that canvas holds the full frame with nothing written beyond it
      ensures !old(configured) ==> (c != null <==> drawn == Some(Committed))
      ensures !old(configured) && c != null ==>
        fresh(c) && Painted(c.data[..], width, height, build) && c.outside == map[]
    {
      wire.Send([AckConfigure(LayerHandle(), serial)]);
      if configured {
        return None, null;
      }
      width := w as int;
      height := h as int;
      stride := width * 4;
      bufsize := stride * height;
      configured := true;
      var frame;
      frame, c := Draw(wire, sys);
      drawn := Some(frame);
    }
  }

  /** The pixels before `(x, y)` in row-major order hold their colour. */
  ghost predicate PaintedBefore(cells: seq<u32>, width: int, build: Build, x: int, y: int)
  {
    forall xx: nat, yy: nat :: (yy < y && xx < width) || (yy == y && xx < x) ==>
      0 <= Offset(xx, yy, width) < |cells| && cells[Offset(xx, yy, width)] == Colour(build, xx, yy)
  }

  /** The cells from `k` on are still as `ftruncate` left them. */
  ghost predicate ZeroFrom(cells: seq<u32>, k: int)
  {
    forall i :: 0 <= i < |cells| && k <= i ==> cells[i] == 0
  }

  /** The pixels before `(x, y)` in row-major order whose cell lies at or
      past `len`, the end of the mapping, were written beyond it with their
      colour. */
  ghost predicate OverrunBefore(outside: map<int, u32>, len: int, width: int, build: Build, x: int, y: int)
  {
    forall xx: nat, yy: nat :: ((yy < y && xx < width) || (yy == y && xx < x)) && len <= Offset(xx, yy, width) ==>
      Offset(xx, yy, width) in outside && outside[Offset(xx, yy, width)] == Colour(build, xx, yy)
  }

  /** Painting `(x, y)` extends the overrun record by one pixel. */
  lemma OverrunStep(before: map<int, u32>, after: map<int, u32>, len: int, width: int, build: Build, x: nat, y: nat)
    requires x < width
    requires Offset(x, y, width) < len ==> after == before
    requires len <= Offset(x, y, width) ==> after == before[Offset(x, y, width) := Colour(build, x, y)]
    requires OverrunBefore(before, len, width, build, x, y)
    ensures OverrunBefore(after, len, width, build, x + 1, y)
  {
    forall xx: nat, yy: nat | ((yy < y && xx < width) || (yy == y && xx < x)) && len <= Offset(xx, yy, width)
      ensures Offset(xx, yy, width) in after && after[Offset(xx, yy, width)] == Colour(build, xx, yy)
    {
      EarlierCell(xx, yy, x, y, width);
    }
  }

  /** A finished row moves the overrun record to the start of the next row. */
  lemma NextOverrunRow(outside: map<int, u32>, len: int, width: int, build: Build, y: int)
    requires OverrunBefore(outside, len, width, build, width, y)
    ensures OverrunBefore(outside, len, width, build, 0, y + 1)
  {
  }

  /** Every pixel of the canvas whose cell lies past the mapping of `c` was
      written beyond it, with its colour. */
  ghost predicate OverrunAll(c: Canvas, width: int, height: int, build: Build)
    reads c
  {
    forall x, y :: Inside(x, y, width, height) && c.data.Length <= Offset(x, y, width) ==>
      Offset(x, y, width) in c.outside && c.outside[Offset(x, y, width)] == Colour(build, x, y)
  }

  /** A mapping shorter than a non-empty canvas leaves at least its last
      pixel to be written beyond it. */
  lemma ShortMappingOverrun(outside: map<int, u32>, len: int, width: int, height: int, build: Build)
    requires 0 < width && 0 < height && len < width * height
    requires forall x, y :: Inside(x, y, width, height) && len <= Offset(x, y, width) ==>
      Offset(x, y, width) in outside && outside[Offset(x, y, width)] == Colour(build, x, y)
    ensures outside != map[]
  {
    LastCell(width, height);
    assert Offset(width - 1, height - 1, width) in outside;
  }

  /** A configured bar's buffer holds exactly its `width * height` pixels. */
  lemma ConfiguredCells(width: int, height: int, bufsize: int)
    requires 0 <= width && 0 <= height && bufsize == 4 * width * height
    ensures bufsize / 4 == width * height
  {
    assert bufsize == (width * height) * 4;
  }

  /** The last pixel of a non-empty canvas has the last cell. */
  lemma LastCell(width: int, height: int)
    requires 0 < width && 0 < height
    ensures Inside(width - 1, height - 1, width, height)
    ensures Offset(width - 1, height - 1, width) == width * height - 1
  {
    assert (height - 1) * width == width * height - width;
  }

  /** The cells of the pixels before `(x, y)` in row-major order all come
      before its cell. */
  lemma EarlierCell(xx: int, yy: int, x: int, y: int, width: int)
    requires 0 <= xx && 0 <= x && ((yy < y && xx < width) || (yy == y && xx < x))
    ensures Offset(xx, yy, width) < Offset(x, y, width)
  {
    if yy < y {
      MulMonotone(yy + 1, y, width);
      assert (yy + 1) * width == yy * width + width;
    }
  }

  /** Painting `(x, y)` extends the painted prefix by one pixel. */
  lemma PaintStep(before: seq<u32>, after: seq<u32>, width: int, build: Build, x: nat, y: nat)
    requires x < width && 0 <= Offset(x, y, width) < |before|
    requires after == before[Offset(x, y, width) := Colour(build, x, y)]
    requires PaintedBefore(before, width, build, x, y) && ZeroFrom(before, Offset(x, y, width))
    ensures PaintedBefore(after, width, build, x + 1, y) && ZeroFrom(after, Offset(x + 1, y, width))
  {
    var k := Offset(x, y, width);
    forall xx: nat, yy: nat | (yy < y && xx < width) || (yy == y && xx < x)
      ensures 0 <= Offset(xx, yy, width) < k && after[Offset(xx, yy, width)] == before[Offset(xx, yy, width)]
    {
      EarlierCell(xx, yy, x, y, width);
    }
    assert after[k] == Colour(build, x, y);
  }

  /** A finished row moves the painted prefix to the start of the next row. */
  lemma NextRow(cells: seq<u32>, width: int, build: Build, y: int)
    requires 0 <= width
    requires PaintedBefore(cells, width, build, width, y) && ZeroFrom(cells, Offset(width, y, width))
    ensures PaintedBefore(cells, width, build, 0, y + 1) && ZeroFrom(cells, Offset(0, y + 1, width))
  {
    assert Offset(width, y, width) == Offset(0, y + 1, width);
  }

  /** Once every row is painted, the frame is. */
  lemma PaintedAll(cells: seq<u32>, width: int, height: int, build: Build)
    requires |cells| == width * height
    requires PaintedBefore(cells, width, build, 0, height)
    ensures Painted(cells, width, height, build)
  {
  }

  /** The bar of src/hyprbar.cpp, 32 pixels high at the top of a 1920-pixel
      output: its first configure event gives it a 7680-byte stride and a
      245760-byte buffer, whatever events follow. */
  lemma TopBarOf1920Output(d: Dims, later: seq<ConfigureEvent>)
    requires !d.configured && d.height == 32
    ensures LatchAll(d, [ConfigureEvent(1, 1920, 32)] + later) == Dims(1920, 32, 7680, 245760, true)
  {
    FirstConfigureWins(d, [ConfigureEvent(1, 1920, 32)] + later);
  }
}
