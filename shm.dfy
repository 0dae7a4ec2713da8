/** `Client::allocate_shm_file` (identical in src/client.cpp and the
    prototype client.cpp): create an anonymous memory file and size it,
    retrying `ftruncate` for as long as it is interrupted by a signal. */
module Shm {
  import opened Wayland

  /** What one `ftruncate` call returns: 0, or -1 with `errno == EINTR`, or
      -1 with any other `errno`. */
  datatype Truncate = Truncated | Interrupted | Failed

  /** How `allocate_shm_file` ends. `NoMemfd` and `TruncateDied` are the two
      `die` calls; `StillRetrying` means every supplied `ftruncate` result
      was EINTR, so the retry loop has not ended within the inputs. */
  datatype Alloc = Allocated | NoMemfd | TruncateDied | StillRetrying

  /** The position of the first `ftruncate` result that is not EINTR, or
      `|ts|` when there is none: where the retry loop settles. */
  function Settled(ts: seq<Truncate>): (k: nat)
    ensures k <= |ts|
    ensures forall i :: 0 <= i < k ==> ts[i] == Interrupted
    ensures k < |ts| ==> ts[k] != Interrupted
  {
    if ts == [] || ts[0] != Interrupted then 0 else 1 + Settled(ts[1..])
  }

  /** `n` consecutive `ftruncate(fd, size)` requests. */
  function Attempts(size: int, n: nat): (rs: seq<Request>)
    ensures |rs| == n
    ensures forall i :: 0 <= i < n ==> rs[i] == Ftruncate(size)
  {
    if n == 0 then [] else Attempts(size, n - 1) + [Ftruncate(size)]
  }

  /** The number of `ftruncate` calls the retry loop makes on `ts`. */
  function Calls(ts: seq<Truncate>): nat
  {
    if Settled(ts) < |ts| then Settled(ts) + 1 else |ts|
  }

  /** How the allocation ends on these inputs. */
  function AllocOutcome(memfdOk: bool, ts: seq<Truncate>): Alloc
  {
    if !memfdOk then NoMemfd
    else if Settled(ts) == |ts| then StillRetrying
    else if ts[Settled(ts)] == Truncated then Allocated
    else TruncateDied
  }

  /** The requests the allocation makes on these inputs. */
  function AllocRequests(size: int, memfdOk: bool, ts: seq<Truncate>): seq<Request>
  {
    if !memfdOk then [MemfdCreate]
    else [MemfdCreate] + Attempts(size, Calls(ts)) + (if AllocOutcome(memfdOk, ts) == TruncateDied then [CloseFd] else [])
  }

  /** `allocate_shm_file(size)`: `memfdOk` is whether `memfd_create`
      succeeded and `ts` the results of successive `ftruncate` calls. Returns
      how it ends and the requests it made, in order. */
  method AllocateShmFile(size: int, memfdOk: bool, ts: seq<Truncate>) returns (r: Alloc, sent: seq<Request>)
    ensures !memfdOk ==> r == NoMemfd && sent == [MemfdCreate]
    ensures memfdOk ==> r != NoMemfd
    // the loop stops at the first result that is not EINTR, and only there
    ensures memfdOk ==> (r == Allocated <==> Settled(ts) < |ts| && ts[Settled(ts)] == Truncated)
    ensures memfdOk ==> (r == TruncateDied <==> Settled(ts) < |ts| && ts[Settled(ts)] == Failed)
    ensures memfdOk ==> (r == StillRetrying <==> Settled(ts) == |ts|)
    // one ftruncate per result consumed; the descriptor is closed only before dying
    ensures memfdOk ==> sent == [MemfdCreate] + Attempts(size, Calls(ts)) + (if r == TruncateDied then [CloseFd] else [])
    ensures r == AllocOutcome(memfdOk, ts) && sent == AllocRequests(size, memfdOk, ts)
  {
    sent := [MemfdCreate];
    if !memfdOk {
      return NoMemfd, sent;
    }
    // do { ret = ftruncate(fd, size); } while (ret == -1 && errno == EINTR);
    // `ret` starts as if interrupted, so that the first call always happens.
    var ret := Interrupted;
    var i := 0;
    while ret == Interrupted && i < |ts|
      invariant 0 <= i <= |ts|
      invariant sent == [MemfdCreate] + Attempts(size, i)
      invariant ret == Interrupted ==> forall j :: 0 <= j < i ==> ts[j] == Interrupted
      invariant ret != Interrupted ==> 0 < i && ts[i - 1] == ret && forall j :: 0 <= j < i - 1 ==> ts[j] == Interrupted
    {
      ret := ts[i];
      sent := sent + [Ftruncate(size)];
      i := i + 1;
    }
    if ret == Interrupted {
      return StillRetrying, sent;
    }
    if ret == Failed {
      sent := sent + [CloseFd];
      return TruncateDied, sent;
    }
    return Allocated, sent;
  }

  /** Interrupted calls are retried transparently: putting EINTR results in
      front of the trace changes how the allocation ends only by making the
      loop call `ftruncate` once more for each of them. */
  lemma {:induction false} InterruptsAreRetried(ts: seq<Truncate>, n: nat)
    ensures var pre := seq(n, _ => Interrupted);
      Settled(pre + ts) == n + Settled(ts) && Calls(pre + ts) == n + Calls(ts)
  {
    var pre := seq(n, _ => Interrupted);
    if n > 0 {
      var pre' := seq(n - 1, _ => Interrupted);
      InterruptsAreRetried(ts, n - 1);
      assert (pre + ts)[0] == Interrupted;
      assert (pre + ts)[1..] == pre' + ts;
    } else {
      assert pre + ts == ts;
    }
  }

  /** The loop never looks past the first result that is not EINTR: what
      follows it in the trace makes no difference. */
  lemma {:induction false} SettledIgnoresTail(ts: seq<Truncate>, rest: seq<Truncate>)
    requires Settled(ts) < |ts|
    ensures Settled(ts + rest) == Settled(ts)
  {
    if ts[0] == Interrupted {
      assert (ts + rest)[1..] == ts[1..] + rest;
      SettledIgnoresTail(ts[1..], rest);
    }
  }
}
