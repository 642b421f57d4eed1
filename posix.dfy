/** The descriptor and poll parts of src/posix.hpp: `pollfd::invalidate`, the
    `poll` wrapper over the system call, and the dispatch loop of the `poll`
    overload that takes a descriptor list and a callback.  The system call
    itself is an oracle: the caller supplies its return value, errno and the
    `revents` the kernel would report for each watched entry. */
module Posix {
  import opened IntegerResult

  /** `pollfd::invalidate()`: `fd = ~fd`, which for a two's complement int
      is -fd - 1. */
  function Invalidate(fd: int): (r: int)
    ensures Int32.InRange(fd) ==> Int32.InRange(r)
  {
    -fd - 1
  }

  /** An open descriptor becomes negative, which `poll` ignores. */
  lemma InvalidateHidesOpen(fd: int)
    requires fd >= 0
    ensures Invalidate(fd) < 0
  {
  }

  /** Invalidating twice gives the descriptor back: at-most-once delivery
      relies on `poll` never reporting an invalidated entry, not on
      invalidate itself. */
  lemma InvalidateTwice(fd: int)
    ensures Invalidate(Invalidate(fd)) == fd
  {
  }

  /** The same two facts on the bits: `~` is an involution and sets the
      sign bit of a non-negative int. */
  lemma ComplementBits(b: bv32)
    ensures !!b == b
    ensures b < ErrorBit32 ==> !b >= ErrorBit32
  {
  }

  /** What one call of `unix::poll` produced. */
  datatype PollAnswer = PollAnswer(ret: int, errno: nat, revents: seq<int>)

  predicate AnswerFits(a: PollAnswer, n: int) {
    Int32.InRange(a.ret) && a.errno <= Int32.Max() && |a.revents| == n
  }

  datatype PollReturn = PollReturn(result: IntegerResult, revents: seq<int>)

  /** `poll(pollfds, timeout)`: the return value through `from_unknown`,
      and the `revents` field of every entry.  As POSIX specifies, an entry
      whose descriptor is negative is ignored and gets `revents == 0`. */
  function Poll(fds: seq<int>, a: PollAnswer): (p: PollReturn)
    requires AnswerFits(a, |fds|)
    ensures p.result.Wf() && |p.revents| == |fds|
    ensures p.result.IsValue() <==> a.ret >= 0
    ensures p.result.IsError() ==> p.result.Error() == a.errno
    ensures forall i :: 0 <= i < |fds| && fds[i] < 0 ==> p.revents[i] == 0
    ensures forall i :: 0 <= i < |fds| && fds[i] >= 0 ==> p.revents[i] == a.revents[i]
  {
    PollReturn(FromUnknown(Int32, a.ret, a.errno),
               seq(|fds|, i requires 0 <= i < |fds| => if fds[i] < 0 then 0 else a.revents[i]))
  }

  /** The filtering loop of the `poll(fds, event, func)` overload: once the
      call succeeded, `func` is called for every entry with a non-zero
      `revents` and a non-negative descriptor, in index order.  Returns the
      indices passed to `func`. */
  method DispatchReady(fds: seq<int>, revents: seq<int>, r: IntegerResult) returns (calls: seq<nat>)
    requires |revents| == |fds|
    ensures r.IsError() ==> calls == []
    ensures forall j, k :: 0 <= j < k < |calls| ==> calls[j] < calls[k]
    ensures r.IsValue() ==> forall s: nat :: s in calls <==> s < |fds| && revents[s] != 0 && fds[s] >= 0
  {
    calls := [];
    if r.IsValue() {
      for s := 0 to |fds|
        invariant forall j, k :: 0 <= j < k < |calls| ==> calls[j] < calls[k]
        invariant forall t: nat :: t in calls <==> t < s && revents[t] != 0 && fds[t] >= 0
        invariant forall j :: 0 <= j < |calls| ==> calls[j] < s
      {
        if revents[s] == 0 || fds[s] < 0 {
          continue;
        }
        calls := calls + [s];
      }
    }
  }
}
