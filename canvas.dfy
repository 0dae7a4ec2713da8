/** `Bar::Canvas` (src/bar.cpp, and its copy in the prototype bar.cpp): one
    paint pass over a freshly allocated shared-memory buffer. Construction
    allocates, maps and wraps the memory; `set_pixel` writes through a
    bounds check; destruction hands the buffer to the compositor. */
module Canvases {
  import opened Wayland
  import Shm

  /** The bounds check of `set_pixel` as written: it rejects a negative
      coordinate or one GREATER than the width or height, so it lets
      `x == width` and `y == height` through. */
  predicate Accepts(x: int, y: int, width: int, height: int)
  {
    !(0 > x || x > width || 0 > y || y > height)
  }

  /** The bounds check the canvas is meant to have: the pixel lies in
      `[0, width) x [0, height)`. */
  predicate Inside(x: int, y: int, width: int, height: int)
  {
    0 <= x < width && 0 <= y < height
  }

  /** The cell `set_pixel` writes: `x + y * width`, row-major, no padding. */
  function Offset(x: int, y: int, width: int): int
  {
    x + y * width
  }

  /** The number of `uint32_t` cells in a mapping of `bufsize` bytes. */
  function Cells(bufsize: int): nat
  {
    if bufsize <= 0 then 0 else bufsize / 4
  }

  lemma MulMonotone(a: int, b: int, c: int)
    requires a <= b && 0 <= c
    ensures a * c <= b * c
  {
    assert b * c - a * c == (b - a) * c;
  }

  /** A pixel inside the canvas has its own cell inside the `width * height`
      cells of the buffer. */
  lemma {:induction false} OffsetInside(x: int, y: int, width: int, height: int)
    requires Inside(x, y, width, height)
    ensures 0 <= Offset(x, y, width) < width * height
  {
    MulMonotone(0, y, width);
    MulMonotone(y + 1, height, width);
  }

  /** Distinct pixels of one row width have distinct cells, and a cell's
      pixel is the one row-major order puts there. */
  lemma {:induction false} OffsetInjective(x: int, y: int, x': int, y': int, width: int)
    requires 0 <= x < width && 0 <= x' < width && 0 <= y && 0 <= y'
    requires Offset(x, y, width) == Offset(x', y', width)
    ensures x == x' && y == y'
  {
    if y < y' {
      MulMonotone(y + 1, y', width);
    } else if y' < y {
      MulMonotone(y' + 1, y, width);
    }
  }

  /** Every cell of a `width * height` buffer is the cell of some pixel. */
  lemma {:induction false} CellHasPixel(i: int, width: int, height: int)
    requires 0 <= i < width * height && 0 < width
    ensures Inside(i % width, i / width, width, height) && Offset(i % width, i / width, width) == i
  {
    if height <= i / width {
      MulMonotone(height, i / width, width);
    }
  }

  /** As written, the guard accepts the row just below the canvas: with a
      buffer of `width * height` cells, pixel `(0, height)` is written at cell
      `width * height`, one past the end of the mapping. */
  lemma GuardAdmitsRowPastEnd(width: int, height: int)
    requires 0 <= width && 0 <= height
    ensures Accepts(0, height, width, height) && !Inside(0, height, width, height)
    ensures Offset(0, height, width) == width * height
  {
  }

  /** As written, the guard accepts the column just right of the canvas, and
      pixel `(width, y)` lands on the cell of `(0, y + 1)`. */
  lemma ColumnPastEndWraps(y: int, width: int, height: int)
    requires 0 <= width && 0 <= y < height
    ensures Accepts(width, y, width, height) && !Inside(width, y, width, height)
    ensures Offset(width, y, width) == Offset(0, y + 1, width)
  {
  }

  /** The strict check is the one that keeps every write inside the mapping:
      it admits exactly the pixels whose cell lies in the buffer's
      `width * height` cells, and nothing the written guard rejects. */
  lemma {:induction false} StrictGuardStaysInside(x: int, y: int, width: int, height: int)
    requires 0 < width && 0 <= height && 0 <= x < width && 0 <= y
    ensures Inside(x, y, width, height) <==> 0 <= Offset(x, y, width) < width * height
    ensures Inside(x, y, width, height) ==> Accepts(x, y, width, height)
  {
    if Inside(x, y, width, height) {
      OffsetInside(x, y, width, height);
    } else {
      MulMonotone(height, y, width);
    }
  }

  /** What the kernel answers while a canvas is being constructed: whether
      `memfd_create` and `mmap` succeed, and the successive `ftruncate`
      results. */
  datatype FrameSys = FrameSys(memfdOk: bool, truncates: seq<Shm.Truncate>, mmapOk: bool)

  /** `mmap` of `bufsize` bytes fails when the kernel says so, and always for
      a length that is zero or, once converted to `size_t`, larger than the
      address space (a negative `int`). */
  predicate MapFails(bufsize: int, sys: FrameSys)
  {
    !sys.mmapOk || bufsize <= 0
  }

  /** Why construction produced no canvas: `allocate_shm_file` died or never
      finished, or `mmap` failed and the constructor threw `runtime_error`. */
  datatype OpenFailure = AllocEnded(alloc: Shm.Alloc) | MmapFailed

  /** The outcome of construction on these inputs: `None` when a canvas exists. */
  function OpenFailureOf(bufsize: int, sys: FrameSys): Option<OpenFailure>
  {
    var a := Shm.AllocOutcome(sys.memfdOk, sys.truncates);
    if a != Shm.Allocated then Some(AllocEnded(a))
    else if MapFails(bufsize, sys) then Some(MmapFailed)
    else None
  }

  /** The requests that wrap a mapped region into a `wl_buffer`: a pool over
      the whole descriptor, one buffer at offset 0 with the snapshotted size,
      stride `4 * width` and format ARGB8888, its release listener, and the
      pool's destruction. */
  function BufferRequests(width: int, height: int, bufsize: int): seq<Request>
  {
    [CreatePool(bufsize), CreateBuffer(0, width, height, 4 * width, Argb8888), AddReleaseListener, DestroyPool]
  }

  /** The requests construction makes on these inputs, in order. */
  function OpenRequests(width: int, height: int, bufsize: int, sys: FrameSys): seq<Request>
  {
    Shm.AllocRequests(bufsize, sys.memfdOk, sys.truncates)
    + (if Shm.AllocOutcome(sys.memfdOk, sys.truncates) != Shm.Allocated then []
       else [Mmap(bufsize)] + (if MapFails(bufsize, sys) then [] else BufferRequests(width, height, bufsize)))
  }

  /** The requests destruction makes: unmap, scale 1, attach at the origin,
      damage the whole canvas, commit, close the descriptor. */
  function CloseRequests(surface: Surface, width: int, height: int, bufsize: int): (rs: seq<Request>)
    ensures |rs| == 6 && rs[0] == Munmap(bufsize) && rs[4] == Commit(surface) && rs[5] == CloseFd
  {
    [Munmap(bufsize), SetBufferScale(surface, 1), Attach(surface, 0, 0),
     DamageBuffer(surface, 0, 0, width, height), Commit(surface), CloseFd]
  }

  class Canvas {
    /** Snapshots of the bar's width and height, taken at construction. */
    const width: int
    const height: int
    /** The bar's buffer size in bytes: the length of the mapping. */
    const bufsize: int
    /** Where destruction commits the frame. */
    const surface: Surface
    /** The mapped pixels. */
    const data: array<u32>
    /** Memory beyond the mapping that accepted writes have reached: what
        the source does there is undefined behaviour. */
    var outside: map<int, u32>
    /** The coordinates of every `set_pixel` call, in call order ... */
    ghost var calls: seq<(int, int)>
    /** ... and of those the bounds check accepted. */
    ghost var writes: seq<(int, int)>

    ghost predicate Valid()
      reads this
    {
      data.Length == Cells(bufsize)
    }

    /** A canvas over a fresh mapping; `ftruncate` zero-fills the file, so
        every cell starts at 0. */
    constructor Mapped(width: int, height: int, bufsize: int, surface: Surface)
      ensures Valid() && fresh(data)
      ensures this.width == width && this.height == height && this.bufsize == bufsize && this.surface == surface
      ensures forall i :: 0 <= i < data.Length ==> data[i] == 0
      ensures outside == map[] && calls == [] && writes == []
    {
      this.width := width;
      this.height := height;
      this.bufsize := bufsize;
      this.surface := surface;
      data := new u32[Cells(bufsize)](_ => 0);
      outside := map[];
      calls := [];
      writes := [];
    }

    /** `Canvas::set_pixel(x, y, color)`. Returns whether it threw
        `std::out_of_range`. */
    method SetPixel(x: int, y: int, color: u32) returns (thrown: bool)
      requires Valid()
      modifies this, data
      ensures Valid()
      ensures thrown <==> !Accepts(x, y, width, height)
      ensures calls == old(calls) + [(x, y)]
      ensures thrown ==> data[..] == old(data[..]) && outside == old(outside) && writes == old(writes)
      ensures !thrown ==> writes == old(writes) + [(x, y)]
      ensures !thrown && 0 <= Offset(x, y, width) < data.Length ==>
        data[..] == old(data[..])[Offset(x, y, width) := color] && outside == old(outside)
      ensures !thrown && !(0 <= Offset(x, y, width) < data.Length) ==>
        data[..] == old(data[..]) && outside == old(outside)[Offset(x, y, width) := color]
    {
      calls := calls + [(x, y)];
      if 0 > x || x > width || 0 > y || y > height {
        return true;
      }
      var i := x + y * width;
      if 0 <= i < data.Length {
        data[i] := color;
      } else {
        outside := outside[i := color];
      }
      writes := writes + [(x, y)];
      return false;
    }

    /** `Canvas::~Canvas()`: always the same six requests, whatever was
        written. */
    method Close(wire: Wire)
      modifies wire
      ensures wire.sent == old(wire.sent) + CloseRequests(surface, width, height, bufsize)
    {
      wire.Send([Munmap(bufsize)]);
      wire.Send([SetBufferScale(surface, 1)]);
      wire.Send([Attach(surface, 0, 0)]);
      wire.Send([DamageBuffer(surface, 0, 0, width, height)]);
      wire.Send([Commit(surface)]);
      wire.Send([CloseFd]);
    }
  }

  /** `Canvas::Canvas(bar)`: `width`, `height` and `bufsize` are the bar's
      fields at the time, `surface` the one the frame will be committed to.
      Returns the canvas, or why there is none. */
  method Open(wire: Wire, width: int, height: int, bufsize: int, surface: Surface, sys: FrameSys)
    returns (c: Canvas?, failure: Option<OpenFailure>)
    modifies wire
    ensures failure == OpenFailureOf(bufsize, sys)
    ensures wire.sent == old(wire.sent) + OpenRequests(width, height, bufsize, sys)
    ensures failure == None <==> c != null
    ensures c != null ==> fresh(c) && fresh(c.data) && c.Valid() && c.data.Length == bufsize / 4
    ensures c != null ==> c.width == width && c.height == height && c.bufsize == bufsize && c.surface == surface
    ensures c != null ==> (forall i :: 0 <= i < c.data.Length ==> c.data[i] == 0) && c.outside == map[] && c.calls == [] && c.writes == []
  {
    var alloc, sent := Shm.AllocateShmFile(bufsize, sys.memfdOk, sys.truncates);
    wire.Send(sent);
    if alloc != Shm.Allocated {
      return null, Some(AllocEnded(alloc));
    }
    wire.Send([Mmap(bufsize)]);
    if MapFails(bufsize, sys) {
      return null, Some(MmapFailed);
    }
    c := new Canvas.Mapped(width, height, bufsize, surface);
    wire.Send(BufferRequests(width, height, bufsize));
    failure := None;
  }
}
