/** `fd_streambuf<BufferSize>` of src/posix.hpp: a `std::basic_streambuf`
    over a file descriptor with one fixed array `_buffer` that serves as
    both the get area [eback, egptr) and the put area [pbase, epptr).
    Both areas always start at the first byte of the array, so the model
    keeps only the offsets gptr, egptr, pptr and epptr.

    The descriptor is abstract: `input` is what `read` has still to
    deliver, `log` is everything `write` has accepted, and every call of
    `read` or `write` is answered by an `IoAnswer` the caller supplies. */
module StreamBuf {
  import opened IntegerResult

  /** A `char` as `traits_type::to_int_type` gives it: never equal to EOF. */
  type Byte = b: int | 0 <= b < 256

  /** `traits_type::eof()`. */
  const Eof: int := -1

  /** The default template argument of `fd_streambuf`. */
  const BufferSize: nat := 4096

  /** The raw return of one `read` or `write` call, and errno after it. */
  datatype IoAnswer = IoAnswer(ret: int, errno: nat)

  datatype Stream = Stream(buffer: seq<Byte>, gnext: nat, gend: nat, pnext: nat, pend: nat,
                           input: seq<Byte>, log: seq<Byte>)

  /** A state reachable through the corrected operations: the get area lies
      inside the buffer, and the put area is the constructor's
      [0, size - 1) with pptr inside it. */
  predicate Wf(s: Stream) {
    |s.buffer| >= 1 && s.gnext <= s.gend <= |s.buffer| && s.pend == |s.buffer| - 1 && s.pnext <= s.pend
  }

  /** The bytes a reader will see from here on: the rest of the get area,
      then what the descriptor has not delivered yet. */
  function Available(s: Stream): seq<Byte>
    requires s.gnext <= s.gend <= |s.buffer|
  {
    s.buffer[s.gnext..s.gend] + s.input
  }

  /** The bytes a writer has handed over: those written, then those still
      waiting in the put area. */
  function Emitted(s: Stream): seq<Byte>
    requires s.pnext <= |s.buffer|
  {
    s.log + s.buffer[..s.pnext]
  }

  /** The constructor: `setg(b, b, b)` and `setp(b, b + BufferSize - 1)`; the
      last byte is kept for the character `overflow` stores. */
  function Initial(size: nat, input: seq<Byte>): (s: Stream)
    requires size >= 1
    ensures Wf(s) && |s.buffer| == size
    ensures s.gnext == s.gend && s.pnext == 0 && s.pend == size - 1
    ensures Available(s) == input && Emitted(s) == []
  {
    Stream(seq(size, _ => 0), 0, 0, 0, size - 1, input, [])
  }

  /** What `read(fd, _buffer)` may answer: at most the buffer size, and no
      more than the descriptor has. */
  predicate ReadFits(s: Stream, a: IoAnswer) {
    Int64.InRange(a.ret) && a.errno <= Int64.Max() && a.ret <= |s.buffer| && (a.ret >= 0 ==> a.ret <= |s.input|)
  }

  /** What `write(fd, p, count)` may answer: at most count bytes. */
  predicate WriteFits(count: nat, a: IoAnswer) {
    Int64.InRange(a.ret) && a.errno <= Int64.Max() && a.ret <= count
  }

  /** A new state and the int an operation returns. */
  datatype Step = Step(state: Stream, ret: int)

  /** `underflow()`: only an empty get area is refilled, by one read of a
      whole buffer; a failed or empty read gives EOF and changes nothing.
      The current byte is returned, not consumed. */
  function AfterUnderflow(s: Stream, a: IoAnswer): (r: Step)
    requires Wf(s) && ReadFits(s, a)
    ensures Wf(r.state) && Available(r.state) == Available(s)
    ensures r.ret == Eof <==> s.gnext == s.gend && a.ret <= 0
    ensures r.ret == Eof || s.gnext < s.gend ==> r.state == s
    ensures r.ret != Eof ==> r.state.gnext < r.state.gend && r.ret == r.state.buffer[r.state.gnext] == Available(s)[0]
    ensures s.gnext == s.gend && a.ret > 0 ==> r.state.gnext == 0 && r.state.gend == a.ret
    ensures r.state.pnext == s.pnext && r.state.pend == s.pend && r.state.log == s.log
    ensures s.pnext == 0 ==> Emitted(r.state) == Emitted(s)
  {
    if s.gnext == s.gend then
      var n := FromUnknown(Int64, a.ret, a.errno);
      if n.IsError() || n.Value() == 0 then Step(s, Eof)
      else
        var k := n.Value();
        var t := s.(buffer := s.input[..k] + s.buffer[k..], gnext := 0, gend := k, input := s.input[k..]);
        assert t.buffer[t.gnext..t.gend] == s.input[..k];
        Step(t, t.buffer[0])
    else
      Step(s, s.buffer[s.gnext])
  }

  /** `sbumpc()` of `std::basic_streambuf`, the way `operator>>` consumes
      bytes: take the current byte, refilling through `underflow` first when
      the get area is empty. */
  function Take(s: Stream, a: IoAnswer): (r: Step)
    requires Wf(s) && ReadFits(s, a)
    ensures Wf(r.state)
    ensures r.ret == Eof ==> r.state == s && a.ret <= 0 && s.gnext == s.gend
    ensures r.ret != Eof ==> 0 <= r.ret < 256 && Available(s) == [r.ret as Byte] + Available(r.state)
  {
    var u := AfterUnderflow(s, a);
    if u.ret == Eof then u
    else
      var t := u.state.(gnext := u.state.gnext + 1);
      assert Available(u.state) == [u.ret as Byte] + Available(t);
      Step(t, u.ret)
  }

  /** What `sync` may run on: pptr may sit one past epptr, where `overflow`
      leaves it before calling `sync`. */
  predicate Flushable(s: Stream) {
    |s.buffer| >= 1 && s.gnext <= s.gend <= |s.buffer| && s.pend == |s.buffer| - 1 && s.pnext <= |s.buffer|
  }

  /** `sync()` as it is meant to work: one write of [pbase, pptr).  Bytes
      written leave the put area and the unwritten tail moves to its front;
      0 is returned.  A failed write, or a write of nothing when there was
      something to write, restores the constructor's put area and returns -1. */
  function AfterSync(s: Stream, a: IoAnswer): (r: Step)
    requires Flushable(s) && WriteFits(s.pnext, a)
    ensures Wf(r.state) && |r.state.buffer| == |s.buffer|
  {
    var w := FromUnknown(Int64, a.ret, a.errno);
    if w.IsError() || (w.Value() == 0 && s.pnext > 0) then
      Step(s.(pnext := 0), -1)
    else
      var k := w.Value();
      Step(s.(buffer := s.buffer[k..s.pnext] + s.buffer[s.pnext - k..], pnext := s.pnext - k,
              log := s.log + s.buffer[..k]), 0)
  }

  /** What `sync()` promises: 0 or -1, -1 exactly when the write failed or
      wrote nothing of something; on success the stream still owes the same
      bytes, the written ones have reached the descriptor, and a whole write
      empties the put area; on failure nothing is logged and the put area
      restarts; the get area is never touched. */
  lemma SyncMeaning(s: Stream, a: IoAnswer)
    requires Flushable(s) && WriteFits(s.pnext, a)
    ensures var r := AfterSync(s, a);
      && (r.ret == 0 || r.ret == -1)
      && (r.ret == -1 <==> a.ret < 0 || (a.ret == 0 && s.pnext > 0))
      && (r.ret == 0 ==> Emitted(r.state) == Emitted(s) && r.state.log == s.log + s.buffer[..a.ret])
      && (r.ret == 0 && a.ret == s.pnext ==> r.state.pnext == 0)
      && (r.ret == -1 ==> r.state.pnext == 0 && r.state.log == s.log)
      && r.state.gnext == s.gnext && r.state.gend == s.gend && r.state.input == s.input
  {
    if a.ret > 0 || (a.ret == 0 && s.pnext == 0) {
      var k := a.ret;
      var t := AfterSync(s, a).state;
      assert t.buffer[..t.pnext] == s.buffer[k..s.pnext];
      assert s.buffer[..s.pnext] == s.buffer[..k] + s.buffer[k..s.pnext];
    }
  }

  /** What a write of k bytes that `sync()` accepts leaves. */
  lemma SyncWrote(s: Stream, a: IoAnswer, k: nat)
    requires Flushable(s) && WriteFits(s.pnext, a)
    requires a.ret == k && (k > 0 || s.pnext == 0)
    ensures AfterSync(s, a) == Step(s.(buffer := s.buffer[k..s.pnext] + s.buffer[s.pnext - k..], pnext := s.pnext - k,
                                        log := s.log + s.buffer[..k]), 0)
  {
  }

  /** One step of copying the bytes read to the front of the buffer. */
  lemma CopyStep(src: seq<Byte>, ob: seq<Byte>, i: nat)
    requires i < |src| && i < |ob|
    ensures (src[..i] + ob[i..])[i := src[i]] == src[..i + 1] + ob[i + 1..]
  {
    var b := src[..i] + ob[i..];
    var c := src[..i + 1] + ob[i + 1..];
    assert |b| == |c|;
    forall m | 0 <= m < |b|
      ensures b[i := src[i]][m] == c[m]
    {
      if m < i {
        assert b[m] == src[m] == c[m];
      } else if m > i {
        assert b[m] == ob[m] == c[m];
      }
    }
  }

  /** One step of moving the unwritten tail [k, k + n) to the front. */
  lemma ShiftStep(ob: seq<Byte>, k: nat, i: nat, n: nat)
    requires k + n <= |ob| && i < n
    ensures var b := ob[k..k + i] + ob[i..];
      |b| == |ob| && b[i := b[k + i]] == ob[k..k + i + 1] + ob[i + 1..]
  {
    var b := ob[k..k + i] + ob[i..];
    var c := ob[k..k + i + 1] + ob[i + 1..];
    forall m | 0 <= m < |b|
      ensures b[i := b[k + i]][m] == c[m]
    {
      if m < i {
        assert b[m] == ob[k + m] == c[m];
      } else if m > i {
        assert b[m] == ob[m] == c[m];
      } else {
        assert b[k + i] == ob[k + i] == c[i];
      }
    }
  }

  /** Stores c in the put area at pptr and moves pptr past it. */
  function PutByte(s: Stream, c: Byte): (t: Stream)
    requires s.pnext < |s.buffer|
    ensures |t.buffer| == |s.buffer| && t.pnext == s.pnext + 1 && Emitted(t) == Emitted(s) + [c]
  {
    var t := s.(buffer := s.buffer[s.pnext := c], pnext := s.pnext + 1);
    assert t.buffer[..t.pnext] == s.buffer[..s.pnext] + [c];
    t
  }

  /** `overflow(c)`: a real character goes into the byte that the put area
      keeps in reserve, then `sync` runs; EOF is returned when it fails and
      c otherwise (so `overflow(eof)` always gives EOF). */
  function AfterOverflow(s: Stream, c: int, a: IoAnswer): (r: Step)
    requires Wf(s) && (c == Eof || 0 <= c < 256)
    requires WriteFits(s.pnext + (if c == Eof then 0 else 1), a)
    ensures Wf(r.state) && |r.state.buffer| == |s.buffer|
    ensures r.ret == Eof || r.ret == c
    ensures c != Eof && r.ret == c ==> Emitted(r.state) == Emitted(s) + [c as Byte]
    ensures c != Eof && r.ret == Eof ==> a.ret <= 0 && r.state.pnext == 0 && r.state.log == s.log
    ensures c == Eof ==> r.ret == Eof
  {
    var t := if c == Eof then s else PutByte(s, c as Byte);
    SyncMeaning(t, a);
    var y := AfterSync(t, a);
    Step(y.state, if y.ret == -1 then Eof else c)
  }

  /** `sputc(c)` of `std::basic_streambuf`, the way `operator<<` hands bytes
      over: store directly while pptr < epptr, else call `overflow`. */
  function Put(s: Stream, c: Byte, a: IoAnswer): (r: Step)
    requires Wf(s) && WriteFits(s.pnext + 1, a)
    ensures Wf(r.state) && |r.state.buffer| == |s.buffer|
    ensures r.ret == c ==> Emitted(r.state) == Emitted(s) + [c]
    ensures r.ret != c ==> r.ret == Eof && r.state.log == s.log
  {
    if s.pnext < s.pend then Step(PutByte(s, c), c) else AfterOverflow(s, c, a)
  }

  /** The two areas share the array: here a read fills the get area with
      "xy", a put of 'z' lands on the unread 'x', and the reader then sees
      'z'. */
  lemma SharedBuffer()
    ensures var s0 := Initial(4, [120, 121]);
            var s1 := AfterUnderflow(s0, IoAnswer(2, 0));
            var s2 := Put(s1.state, 122, IoAnswer(0, 0));
            s1.ret == 120 && s2.ret == 122 && AfterUnderflow(s2.state, IoAnswer(0, 0)).ret == 122
  {
    var s0 := Initial(4, [120, 121]);
    var s1 := AfterUnderflow(s0, IoAnswer(2, 0));
    assert s1.state.buffer == [120, 121, 0, 0];
    var s2 := Put(s1.state, 122, IoAnswer(0, 0));
    assert s2.state.buffer == [122, 121, 0, 0];
  }

  /** Reading leaves the put area and the written log alone, and writing
      leaves the get area's bounds and the unread input alone. */
  lemma AreasKeepTheirCursors(s: Stream, a: IoAnswer, c: Byte)
    requires Wf(s) && ReadFits(s, a) && WriteFits(s.pnext + 1, a)
    ensures var u := AfterUnderflow(s, a).state; u.pnext == s.pnext && u.log == s.log
    ensures var p := Put(s, c, a).state; p.gnext == s.gnext && p.gend == s.gend && p.input == s.input
  {
  }

  // The code as written: the result of `sync()`.

  datatype SyncReturn =
    | Returned(n: int)
      /** `written.value()` on an error result: its assert fails. */
    | ValueOfError

  datatype SyncAsWrittenStep = SyncAsWrittenStep(state: Stream, ret: SyncReturn)

  /** `sync()` exactly as src/posix.hpp writes it: on an error or an empty
      write the put area becomes [0, size + 1), and the write count is read
      with `value()` whatever it is; pptr is left where it was otherwise. */
  function SyncAsWritten(s: Stream, a: IoAnswer): (r: SyncAsWrittenStep)
    requires s.pnext <= |s.buffer| && WriteFits(s.pnext, a)
    ensures r.state.log == s.log + s.buffer[..if a.ret > 0 then a.ret else 0]
    ensures r.ret == ValueOfError <==> a.ret < 0
    ensures a.ret >= 0 ==> r.ret == Returned(a.ret)
    ensures a.ret > 0 ==> r.state.pnext == s.pnext && r.state.pend == s.pend
    ensures a.ret <= 0 ==> r.state.pnext == 0 && r.state.pend == |s.buffer| + 1
  {
    var w := FromUnknown(Int64, a.ret, a.errno);
    var k := if w.IsValue() then w.Value() else 0;
    var t := s.(log := s.log + s.buffer[..k]);
    var u := if w.IsError() || w.Value() == 0 then t.(pnext := 0, pend := |s.buffer| + 1) else t;
    SyncAsWrittenStep(u, if w.IsValue() then Returned(w.Value()) else ValueOfError)
  }

  /** Finding: after a failed write the put area reaches one byte past the
      array, so the next put may store outside `_buffer`.  The corrected
      `Sync` keeps epptr at size - 1. */
  lemma SyncErrorOverrunsBuffer()
    ensures var s := Initial(4, []);
            SyncAsWritten(s, IoAnswer(-1, 5)).state.pend == 5 > |s.buffer|
    ensures var s := Initial(4, []);
            AfterSync(s, IoAnswer(-1, 5)).state.pend == 3
  {
  }

  /** Finding: a failed write makes `sync` call `value()` on an error
      result.  The corrected `Sync` reports it as -1, so `overflow` returns
      EOF. */
  lemma SyncErrorReadsValue(s: Stream, a: IoAnswer)
    requires Wf(s) && WriteFits(s.pnext, a) && a.ret < 0
    ensures SyncAsWritten(s, a).ret == ValueOfError
    ensures AfterSync(s, a).ret == -1
    ensures AfterOverflow(s, 0, a).ret == Eof
  {
  }

  /** Finding: a successful `sync` keeps pptr, so the next `sync` writes the
      same bytes again, and once `overflow` has filled the buffer pptr stays
      at its end, where the following `overflow` stores.  With the corrected
      `Sync` the bytes are emitted once and pptr returns to the start. */
  lemma SyncKeepsWrittenBytes()
    ensures var s := Stream([97, 98, 0, 0], 0, 0, 2, 3, [], []);
            var t := SyncAsWritten(s, IoAnswer(2, 0)).state;
            SyncAsWritten(t, IoAnswer(2, 0)).state.log == [97, 98, 97, 98]
    ensures var s := Stream([97, 98, 99, 100], 0, 0, 4, 3, [], []);
            SyncAsWritten(s, IoAnswer(4, 0)).state.pnext == 4
    ensures var s := Stream([97, 98, 0, 0], 0, 0, 2, 3, [], []);
            var t := AfterSync(s, IoAnswer(2, 0)).state;
            AfterSync(t, IoAnswer(0, 0)).state.log == [97, 98] && t.pnext == 0
  {
    var s := Stream([97, 98, 0, 0], 0, 0, 2, 3, [], []);
    assert s.buffer[..2] == [97, 98];
    var t := AfterSync(s, IoAnswer(2, 0)).state;
    assert t.log == [97, 98];
  }

  /** Writing through `Put` with every write accepted whole emits exactly
      the bytes put, in order. */
  lemma {:induction false} PutAll(s: Stream, cs: seq<Byte>)
    requires Wf(s) && |s.buffer| <= BufferSize
    ensures Emitted(PutSeq(s, cs)) == Emitted(s) + cs
    decreases |cs|
  {
    if cs != [] {
      var r := Put(s, cs[0], IoAnswer(s.pnext + 1, 0));
      assert r.ret == cs[0];
      PutAll(r.state, cs[1..]);
      assert cs == [cs[0]] + cs[1..];
    }
  }

  /** `Put` of every byte of cs, each overflow's write taking all it is given. */
  function PutSeq(s: Stream, cs: seq<Byte>): (t: Stream)
    requires Wf(s) && |s.buffer| <= BufferSize
    ensures Wf(t) && |t.buffer| == |s.buffer|
    decreases |cs|
  {
    if cs == [] then s else PutSeq(Put(s, cs[0], IoAnswer(s.pnext + 1, 0)).state, cs[1..])
  }

  /** The buffer object: the array is fixed for its life, the cursors and the
      descriptor's two ends change. */
  class FdStreamBuf {
    const buffer: array<Byte>
    var gnext: nat
    var gend: nat
    var pnext: nat
    var pend: nat
    var input: seq<Byte>
    var log: seq<Byte>

    function State(): Stream
      reads this, buffer
    {
      Stream(buffer[..], gnext, gend, pnext, pend, input, log)
    }

    constructor(size: nat, pending: seq<Byte>)
      requires size >= 1
      ensures State() == Initial(size, pending)
    {
      buffer := new Byte[size](_ => 0);
      gnext, gend := 0, 0;
      pnext, pend := 0, size - 1;
      input := pending;
      log := [];
    }

    method Underflow(a: IoAnswer) returns (c: int)
      requires Wf(State()) && ReadFits(State(), a)
      modifies this, buffer
      ensures Step(State(), c) == AfterUnderflow(old(State()), a)
    {
      if gnext == gend {
        var n := FromUnknown(Int64, a.ret, a.errno);
        if n.IsError() || n.Value() == 0 {
          return Eof;
        }
        var k := n.Value();
        ghost var ob := buffer[..];
        for i := 0 to k
          invariant input == old(input) && gnext == old(gnext) && gend == old(gend)
          invariant buffer[..] == input[..i] + ob[i..]
          invariant pnext == old(pnext) && pend == old(pend) && log == old(log)
        {
          CopyStep(input, ob, i);
          buffer[i] := input[i];
        }
        input := input[k..];
        gnext, gend := 0, k;
      }
      c := buffer[gnext];
    }

    /** The success path of `sync()`: the k bytes written leave the put
        area and the unwritten tail moves to its front. */
    method Shift(k: nat)
      requires k <= pnext <= buffer.Length
      modifies this, buffer
      ensures State() == old(State()).(buffer := old(buffer[..])[k..old(pnext)] + old(buffer[..])[old(pnext) - k..],
                                       pnext := old(pnext) - k, log := old(log) + old(buffer[..])[..k])
    {
      ghost var ob := buffer[..];
      log := log + buffer[..k];
      for i := 0 to pnext - k
        invariant buffer[..] == ob[k..k + i] + ob[i..]
        invariant pnext == old(pnext) && log == old(log) + ob[..k]
        invariant gnext == old(gnext) && gend == old(gend) && pend == old(pend) && input == old(input)
      {
        ShiftStep(ob, k, i, pnext - k);
        buffer[i] := buffer[k + i];
      }
      assert buffer[..] == ob[k..pnext] + ob[pnext - k..];
      pnext := pnext - k;
    }

    method Sync(a: IoAnswer) returns (r: int)
      requires Flushable(State()) && WriteFits(pnext, a)
      modifies this, buffer
      ensures Step(State(), r) == AfterSync(old(State()), a)
    {
      var w := FromUnknown(Int64, a.ret, a.errno);
      if w.IsError() || (w.Value() == 0 && pnext > 0) {
        pnext := 0;
        return -1;
      }
      var k := w.Value();
      SyncWrote(State(), a, k);
      Shift(k);
      r := 0;
    }

    method Overflow(c: int, a: IoAnswer) returns (r: int)
      requires Wf(State()) && (c == Eof || 0 <= c < 256)
      requires WriteFits(pnext + (if c == Eof then 0 else 1), a)
      modifies this, buffer
      ensures Step(State(), r) == AfterOverflow(old(State()), c, a)
    {
      if c != Eof {
        buffer[pnext] := c as Byte;
        pnext := pnext + 1;
      }
      assert State() == if c == Eof then old(State()) else PutByte(old(State()), c as Byte);
      var y := Sync(a);
      r := if y == -1 then Eof else c;
    }
  }
}
