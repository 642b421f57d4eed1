/** `poll_one_each` of src/main.cpp: poll the stdout of every process of a
    batch until each has been reported ready once, calling the callback for
    it.  The watched set is built once, and a reported entry is invalidated
    (its descriptor made negative) before its callback runs, so `poll`
    ignores it from then on.

    The poll results are an oracle: `answers[k]` is what the k-th call of
    `poll` returns.  The callbacks are recorded as the sequence of indices
    they receive, in order; what they do is modelled by the caller. */
module Delivery {
  import opened IntegerResult
  import opened Posix

  /** `poll_error::interrupted` and `poll_error::again`, the errno values
      EINTR and EAGAIN of Linux. */
  const Interrupted: nat := 4
  const Again: nat := 11

  /** `poll_error::success`, another `poll_error`, or (model only) the
      oracle ran out of answers while the loop still waited. */
  datatype PollStatus = Success | Failure(error: nat) | Exhausted

  datatype Delivery = Delivery(status: PollStatus, delivered: seq<nat>)

  predicate AnswersFit(answers: seq<PollAnswer>, n: int) {
    forall k :: 0 <= k < |answers| ==> AnswerFits(answers[k], n)
  }

  predicate NoDuplicates(s: seq<nat>) {
    forall j, k :: 0 <= j < k < |s| ==> s[j] != s[k]
  }

  /** The indices below k whose `revents` is non-zero, in ascending order:
      the callbacks of one round of the inner `for` loop. */
  function ReadyBelow(revents: seq<int>, k: nat): (r: seq<nat>)
    requires k <= |revents|
    ensures forall j :: 0 <= j < |r| ==> r[j] < k
  {
    if k == 0 then [] else ReadyBelow(revents, k - 1) + (if revents[k - 1] != 0 then [k - 1] else [])
  }

  /** The watched set after the inner loop has passed index k - 1: every
      reported entry below k invalidated. */
  function InvalidateBelow(fds: seq<int>, revents: seq<int>, k: nat): (r: seq<int>)
    requires |revents| == |fds|
    ensures |r| == |fds|
  {
    seq(|fds|, i requires 0 <= i < |fds| => if i < k && revents[i] != 0 then Invalidate(fds[i]) else fds[i])
  }

  /** The number of entries below k still watched (non-negative). */
  function LiveBelow(fds: seq<int>, k: nat): (c: nat)
    requires k <= |fds|
    ensures c <= k
  {
    if k == 0 then 0 else LiveBelow(fds, k - 1) + (if fds[k - 1] >= 0 then 1 else 0)
  }

  function Live(fds: seq<int>): nat { LiveBelow(fds, |fds|) }

  /** What the `while (n < s)` loop does from a watched set `fds`, with `n`
      entries delivered so far and `answers` for the coming calls of poll:
      the status returned and the indices handed to the callback. */
  function Deliveries(fds: seq<int>, answers: seq<PollAnswer>, n: nat): (d: Delivery)
    requires AnswersFit(answers, |fds|)
    ensures forall j :: 0 <= j < |d.delivered| ==> d.delivered[j] < |fds|
    decreases |answers|
  {
    if n >= |fds| then Delivery(Success, [])
    else if answers == [] then Delivery(Exhausted, [])
    else
      var p := Poll(fds, answers[0]);
      if p.result.IsError() then
        var e := p.result.Error();
        if e == Interrupted || e == Again then Deliveries(fds, answers[1..], n)
        else Delivery(Failure(e), [])
      else
        var ready := ReadyBelow(p.revents, |fds|);
        var rest := Deliveries(InvalidateBelow(fds, p.revents, |fds|), answers[1..], n + |ready|);
        Delivery(rest.status, ready + rest.delivered)
  }

  /** Within one round the callbacks come in ascending index order, for
      exactly the entries with a non-zero `revents`. */
  lemma {:induction false} ReadyBelowIsAscending(revents: seq<int>, k: nat)
    requires k <= |revents|
    ensures forall i, j :: 0 <= i < j < |ReadyBelow(revents, k)| ==> ReadyBelow(revents, k)[i] < ReadyBelow(revents, k)[j]
    ensures forall x: nat :: x in ReadyBelow(revents, k) <==> x < k && revents[x] != 0
  {
    if k > 0 {
      ReadyBelowIsAscending(revents, k - 1);
    }
  }

  /** A round invalidates exactly the entries it reports, and when poll
      reports only watched entries the number still watched goes down by
      the number reported. */
  lemma {:induction false} RoundCount(fds: seq<int>, revents: seq<int>, k: nat)
    requires |revents| == |fds| && k <= |fds|
    requires forall i :: 0 <= i < |fds| && fds[i] < 0 ==> revents[i] == 0
    ensures LiveBelow(InvalidateBelow(fds, revents, |fds|), k) + |ReadyBelow(revents, k)| == LiveBelow(fds, k)
  {
    if k > 0 {
      RoundCount(fds, revents, k - 1);
      if revents[k - 1] != 0 {
        InvalidateHidesOpen(fds[k - 1]);
      }
    }
  }

  lemma {:induction false} NoneLive(fds: seq<int>, k: nat)
    requires k <= |fds| && LiveBelow(fds, k) == 0
    ensures forall i :: 0 <= i < k ==> fds[i] < 0
  {
    if k > 0 {
      NoneLive(fds, k - 1);
    }
  }

  /** What one successful round of poll does to the watched set: it reports
      (and invalidates) only watched entries, in ascending order, and an
      entry still watched afterwards was not reported and is unchanged. */
  lemma RoundFacts(fds: seq<int>, a: PollAnswer)
    requires AnswerFits(a, |fds|)
    ensures var rev := Poll(fds, a).revents;
      var ready := ReadyBelow(rev, |fds|);
      var fds' := InvalidateBelow(fds, rev, |fds|);
      && Live(fds') + |ready| == Live(fds)
      && (forall i, j :: 0 <= i < j < |ready| ==> ready[i] < ready[j])
      && (forall x: nat :: x in ready <==> x < |fds| && rev[x] != 0)
      && (forall j :: 0 <= j < |ready| ==> fds[ready[j]] >= 0)
      && (forall i :: 0 <= i < |fds| && fds'[i] >= 0 ==> rev[i] == 0 && fds[i] == fds'[i])
      && (forall i :: 0 <= i < |fds| && rev[i] == 0 ==> fds'[i] == fds[i])
  {
    var rev := Poll(fds, a).revents;
    RoundCount(fds, rev, |fds|);
    ReadyBelowIsAscending(rev, |fds|);
    forall i | 0 <= i < |fds| && rev[i] != 0
      ensures Invalidate(fds[i]) < 0
    {
      InvalidateHidesOpen(fds[i]);
    }
  }

  /** Only entries of `fds` that are watched, and none twice. */
  predicate WatchedOnce(fds: seq<int>, d: seq<nat>) {
    && (forall j :: 0 <= j < |d| ==> d[j] < |fds| && fds[d[j]] >= 0)
    && NoDuplicates(d)
  }

  /** One successful round of the `while` loop, unfolded: this round's
      callbacks, then those of the rounds after it. */
  lemma PolledUnfold(fds: seq<int>, answers: seq<PollAnswer>, n: nat)
    requires AnswersFit(answers, |fds|)
    requires n < |fds| && answers != [] && Poll(fds, answers[0]).result.IsValue()
    ensures var rev := Poll(fds, answers[0]).revents;
      var ready := ReadyBelow(rev, |fds|);
      var rest := Deliveries(InvalidateBelow(fds, rev, |fds|), answers[1..], n + |ready|);
      Deliveries(fds, answers, n) == Delivery(rest.status, ready + rest.delivered)
  {
  }

  /** This round's callbacks, invalidated now, cannot repeat among the later
      ones, which only see entries still watched. */
  lemma OnceConcat(fds: seq<int>, fds': seq<int>, ready: seq<nat>, rest: seq<nat>)
    requires |fds'| == |fds|
    requires forall j :: 0 <= j < |ready| ==> ready[j] < |fds| && fds[ready[j]] >= 0 && fds'[ready[j]] < 0
    requires forall i, j :: 0 <= i < j < |ready| ==> ready[i] < ready[j]
    requires WatchedOnce(fds', rest)
    requires forall i :: 0 <= i < |fds| && fds'[i] >= 0 ==> fds[i] == fds'[i]
    ensures WatchedOnce(fds, ready + rest)
  {
    var all := ready + rest;
    forall j, k | 0 <= j < k < |all|
      ensures all[j] != all[k]
    {
      if k < |ready| {
        assert all[j] == ready[j] && all[k] == ready[k];
      } else if j >= |ready| {
        assert all[j] == rest[j - |ready|] && all[k] == rest[k - |ready|];
      } else {
        assert fds'[all[j]] < 0 <= fds'[all[k]];
      }
    }
    forall j | 0 <= j < |all|
      ensures fds[all[j]] >= 0
    {
      if j >= |ready| {
        assert all[j] == rest[j - |ready|];
      }
    }
  }

  /** An entry watched before the round is either reported in it or still
      watched after it, and then a later round reports it. */
  lemma CoverConcat(fds: seq<int>, fds': seq<int>, rev: seq<int>, ready: seq<nat>, rest: seq<nat>)
    requires |fds'| == |fds| == |rev|
    requires forall x: nat :: x in ready <==> x < |fds| && rev[x] != 0
    requires forall i :: 0 <= i < |fds| && rev[i] == 0 ==> fds'[i] == fds[i]
    requires forall i :: 0 <= i < |fds| && fds'[i] >= 0 ==> i in rest
    ensures forall i :: 0 <= i < |fds| && fds[i] >= 0 ==> i in ready + rest
  {
    forall i | 0 <= i < |fds| && fds[i] >= 0
      ensures i in ready + rest
    {
      if rev[i] == 0 {
        assert i in rest;
      } else {
        assert i in ready;
      }
    }
  }

  /** A round followed by callbacks for entries still watched after it
      delivers only watched entries, none twice. */
  lemma RoundKeepsOnce(fds: seq<int>, rev: seq<int>, rest: seq<nat>)
    requires |rev| == |fds| && forall i :: 0 <= i < |fds| && fds[i] < 0 ==> rev[i] == 0
    requires WatchedOnce(InvalidateBelow(fds, rev, |fds|), rest)
    ensures WatchedOnce(fds, ReadyBelow(rev, |fds|) + rest)
  {
    var ready := ReadyBelow(rev, |fds|);
    var fds' := InvalidateBelow(fds, rev, |fds|);
    ReadyBelowIsAscending(rev, |fds|);
    forall j | 0 <= j < |ready|
      ensures fds[ready[j]] >= 0 && fds'[ready[j]] < 0
    {
      assert ready[j] in ready;
      InvalidateHidesOpen(fds[ready[j]]);
    }
    forall i | 0 <= i < |fds| && fds'[i] >= 0
      ensures fds[i] == fds'[i]
    {
      if rev[i] != 0 {
        InvalidateHidesOpen(fds[i]);
      }
    }
    OnceConcat(fds, fds', ready, rest);
  }

  /** The inductive step of `DeliveredOnce`: a successful round keeps the
      property when the rounds after it have it. */
  lemma OnceStep(fds: seq<int>, answers: seq<PollAnswer>, n: nat)
    requires AnswersFit(answers, |fds|)
    requires n < |fds| && answers != [] && Poll(fds, answers[0]).result.IsValue()
    requires var rev := Poll(fds, answers[0]).revents;
      var fds' := InvalidateBelow(fds, rev, |fds|);
      WatchedOnce(fds', Deliveries(fds', answers[1..], n + |ReadyBelow(rev, |fds|)|).delivered)
    ensures WatchedOnce(fds, Deliveries(fds, answers, n).delivered)
  {
    var rev := Poll(fds, answers[0]).revents;
    var ready := ReadyBelow(rev, |fds|);
    var fds' := InvalidateBelow(fds, rev, |fds|);
    var rest := Deliveries(fds', answers[1..], n + |ready|).delivered;
    RoundKeepsOnce(fds, rev, rest);
    PolledUnfold(fds, answers, n);
  }

  /** Every index delivered was watched, and none is delivered twice. */
  lemma {:induction false} DeliveredOnce(fds: seq<int>, answers: seq<PollAnswer>, n: nat)
    requires AnswersFit(answers, |fds|)
    ensures WatchedOnce(fds, Deliveries(fds, answers, n).delivered)
    decreases |answers|
  {
    if n < |fds| && answers != [] {
      var p := Poll(fds, answers[0]);
      if p.result.IsError() {
        if answers[0].errno == Interrupted || answers[0].errno == Again {
          RetryKeepsProgress(fds, answers, n);
          DeliveredOnce(fds, answers[1..], n);
        } else {
          FailureStops(fds, answers, n);
        }
      } else {
        var ready := ReadyBelow(p.revents, |fds|);
        DeliveredOnce(InvalidateBelow(fds, p.revents, |fds|), answers[1..], n + |ready|);
        OnceStep(fds, answers, n);
      }
    }
  }

  /** The loop returns success exactly when the deliveries bring `n`, the
      number of entries invalidated, up to the size of the set; and a
      failure is never one of the two retried errors. */
  lemma {:induction false} SuccessWhenAllCounted(fds: seq<int>, answers: seq<PollAnswer>, n: nat)
    requires AnswersFit(answers, |fds|)
    requires n + Live(fds) == |fds|
    ensures var d := Deliveries(fds, answers, n);
      && (d.status == Success <==> n + |d.delivered| == |fds|)
      && (d.status.Failure? ==> d.status.error != Interrupted && d.status.error != Again)
    decreases |answers|
  {
    if n < |fds| && answers != [] {
      var p := Poll(fds, answers[0]);
      if p.result.IsError() {
        SuccessWhenAllCounted(fds, answers[1..], n);
      } else {
        var ready := ReadyBelow(p.revents, |fds|);
        RoundFacts(fds, answers[0]);
        SuccessWhenAllCounted(InvalidateBelow(fds, p.revents, |fds|), answers[1..], n + |ready|);
        PolledUnfold(fds, answers, n);
      }
    }
  }

  /** On success every watched entry has been delivered. */
  lemma {:induction false} SuccessDeliversAll(fds: seq<int>, answers: seq<PollAnswer>, n: nat)
    requires AnswersFit(answers, |fds|)
    requires n + Live(fds) == |fds|
    ensures var d := Deliveries(fds, answers, n);
      d.status == Success ==> forall i :: 0 <= i < |fds| && fds[i] >= 0 ==> i in d.delivered
    decreases |answers|
  {
    if n >= |fds| {
      NoneLive(fds, |fds|);
    } else if answers != [] {
      var p := Poll(fds, answers[0]);
      if p.result.IsError() {
        SuccessDeliversAll(fds, answers[1..], n);
      } else {
        var ready := ReadyBelow(p.revents, |fds|);
        var fds' := InvalidateBelow(fds, p.revents, |fds|);
        RoundFacts(fds, answers[0]);
        SuccessDeliversAll(fds', answers[1..], n + |ready|);
        PolledUnfold(fds, answers, n);
        var rest := Deliveries(fds', answers[1..], n + |ready|);
        if rest.status == Success {
          CoverConcat(fds, fds', p.revents, ready, rest.delivered);
        }
      }
    }
  }

  /** An interrupted or would-block poll is retried with `n` unchanged. */
  lemma RetryKeepsProgress(fds: seq<int>, answers: seq<PollAnswer>, n: nat)
    requires AnswersFit(answers, |fds|)
    requires n < |fds| && answers != [] && answers[0].ret < 0
    requires answers[0].errno == Interrupted || answers[0].errno == Again
    ensures Deliveries(fds, answers, n) == Deliveries(fds, answers[1..], n)
  {
  }

  /** Any other poll error ends the loop with that error and no further
      callback. */
  lemma FailureStops(fds: seq<int>, answers: seq<PollAnswer>, n: nat)
    requires AnswersFit(answers, |fds|)
    requires n < |fds| && answers != [] && answers[0].ret < 0
    requires answers[0].errno != Interrupted && answers[0].errno != Again
    ensures Deliveries(fds, answers, n) == Delivery(Failure(answers[0].errno), [])
  {
  }

  lemma {:induction false} AllLive(fds: seq<int>, k: nat)
    requires k <= |fds| && forall i :: 0 <= i < |fds| ==> fds[i] >= 0
    ensures LiveBelow(fds, k) == k
  {
    if k > 0 {
      AllLive(fds, k - 1);
    }
  }

  /** The callbacks `d` made before a run of the loop that ends as `x`. */
  function After(d: seq<nat>, x: Delivery): Delivery {
    Delivery(x.status, d + x.delivered)
  }

  /** One successful round, unfolded: the callbacks of this round come
      before those of the rounds after it. */
  lemma RoundStep(fds: seq<int>, answers: seq<PollAnswer>, n: nat, d0: seq<nat>)
    requires AnswersFit(answers, |fds|)
    requires n < |fds| && answers != [] && Poll(fds, answers[0]).result.IsValue()
    ensures var rev := Poll(fds, answers[0]).revents;
      var ready := ReadyBelow(rev, |fds|);
      After(d0, Deliveries(fds, answers, n)) ==
      After(d0 + ready, Deliveries(InvalidateBelow(fds, rev, |fds|), answers[1..], n + |ready|))
  {
    var rev := Poll(fds, answers[0]).revents;
    var ready := ReadyBelow(rev, |fds|);
    var rest := Deliveries(InvalidateBelow(fds, rev, |fds|), answers[1..], n + |ready|);
    PolledUnfold(fds, answers, n);
    assert d0 + (ready + rest.delivered) == (d0 + ready) + rest.delivered;
  }

  /** The inner `for` loop of `poll_one_each`: every entry with a non-zero
      `revents` is counted, invalidated and handed to the callback, in index
      order. */
  method DeliverRound(pollfds: array<int>, revents: seq<int>, n0: nat, d0: seq<nat>)
    returns (n: nat, delivered: seq<nat>)
    requires |revents| == pollfds.Length
    requires forall i :: 0 <= i < pollfds.Length && pollfds[i] < 0 ==> revents[i] == 0
    modifies pollfds
    ensures pollfds[..] == InvalidateBelow(old(pollfds[..]), revents, pollfds.Length)
    ensures delivered == d0 + ReadyBelow(revents, pollfds.Length)
    ensures n == n0 + |ReadyBelow(revents, pollfds.Length)|
    ensures n + Live(pollfds[..]) == n0 + Live(old(pollfds[..]))
  {
    RoundCount(pollfds[..], revents, pollfds.Length);
    n, delivered := n0, d0;
    for idx := 0 to pollfds.Length
      invariant pollfds[..] == InvalidateBelow(old(pollfds[..]), revents, idx)
      invariant delivered == d0 + ReadyBelow(revents, idx)
      invariant n == n0 + |ReadyBelow(revents, idx)|
    {
      if revents[idx] == 0 {
        continue;
      }
      n := n + 1;
      pollfds[idx] := Invalidate(pollfds[idx]);
      delivered := delivered + [idx];
    }
  }

  /** What `poll_one_each` promises for a batch of open descriptors: each
      process is handed to the callback at most once; the result is success
      exactly when every process was handed over; and a failure is an error
      other than the two retried ones. */
  lemma OneEachCorrect(stdouts: seq<int>, answers: seq<PollAnswer>)
    requires forall i :: 0 <= i < |stdouts| ==> 0 <= stdouts[i] <= Int32.Max()
    requires AnswersFit(answers, |stdouts|)
    ensures var d := Deliveries(stdouts, answers, 0);
      && NoDuplicates(d.delivered) && (forall j :: 0 <= j < |d.delivered| ==> d.delivered[j] < |stdouts|)
      && (d.status == Success <==> |d.delivered| == |stdouts|)
      && (d.status == Success ==> forall i :: 0 <= i < |stdouts| ==> i in d.delivered)
      && (d.status.Failure? ==> d.status.error != Interrupted && d.status.error != Again)
  {
    AllLive(stdouts, |stdouts|);
    DeliveredOnce(stdouts, answers, 0);
    SuccessWhenAllCounted(stdouts, answers, 0);
    SuccessDeliversAll(stdouts, answers, 0);
  }

  /** The watched set, built once: one entry per process, in order. */
  method BuildPollSet(stdouts: seq<int>) returns (pollfds: array<int>)
    ensures fresh(pollfds) && pollfds[..] == stdouts
  {
    pollfds := new int[|stdouts|];
    for i := 0 to |stdouts|
      invariant pollfds[..i] == stdouts[..i]
    {
      pollfds[i] := stdouts[i];
    }
  }

  /** How one pass of the `while (n < s)` body ends: `continue` after an
      interrupted or would-block poll, `return e` after another error, or
      the end of the body after a successful poll. */
  datatype Turn = Retry | Stop(error: nat) | Polled

  /** One pass of the body of `poll_one_each`'s `while` loop: one call of
      `poll`, then the inner `for` loop over the watched set.  `tail` holds
      the answers from this call on, `a` being the first. */
  method PollRound(pollfds: array<int>, a: PollAnswer, ghost tail: seq<PollAnswer>, n0: nat, d0: seq<nat>)
    returns (t: Turn, n: nat, delivered: seq<nat>)
    requires tail != [] && a == tail[0] && AnswersFit(tail, pollfds.Length)
    requires n0 < pollfds.Length && n0 + Live(pollfds[..]) == pollfds.Length
    modifies pollfds
    ensures n + Live(pollfds[..]) == pollfds.Length
    ensures t.Stop? ==> Deliveries(old(pollfds[..]), tail, n0) == Delivery(Failure(t.error), []) && delivered == d0
    ensures !t.Stop? ==>
      After(d0, Deliveries(old(pollfds[..]), tail, n0)) == After(delivered, Deliveries(pollfds[..], tail[1..], n))
  {
    ghost var fds := pollfds[..];
    var p := Poll(pollfds[..], a);
    if p.result.IsError() {
      var e := p.result.Error();
      if e == Interrupted || e == Again {
        RetryKeepsProgress(fds, tail, n0);
        return Retry, n0, d0;
      }
      FailureStops(fds, tail, n0);
      return Stop(e), n0, d0;
    }
    RoundStep(fds, tail, n0, d0);
    n, delivered := DeliverRound(pollfds, p.revents, n0, d0);
    t := Polled;
  }

  /** `poll_one_each(ps, ev, func)` for processes whose stdout descriptors
      are `stdouts`. */
  method PollOneEach(stdouts: seq<int>, answers: seq<PollAnswer>) returns (d: Delivery)
    requires forall i :: 0 <= i < |stdouts| ==> 0 <= stdouts[i] <= Int32.Max()
    requires AnswersFit(answers, |stdouts|)
    ensures d == Deliveries(stdouts, answers, 0)
  {
    AllLive(stdouts, |stdouts|);
    var pollfds := BuildPollSet(stdouts);
    ghost var goal := Deliveries(stdouts, answers, 0);
    var s := |stdouts|;
    var n: nat := 0;
    var k := 0;
    var delivered: seq<nat> := [];
    while n < s
      invariant 0 <= k <= |answers| && pollfds.Length == s
      invariant n + Live(pollfds[..]) == s
      invariant goal == After(delivered, Deliveries(pollfds[..], answers[k..], n))
      decreases |answers| - k
    {
      if k == |answers| {
        return Delivery(Exhausted, delivered);
      }
      var t;
      assert answers[k..][1..] == answers[k + 1..];
      t, n, delivered := PollRound(pollfds, answers[k], answers[k..], n, delivered);
      if t.Stop? {
        return Delivery(Failure(t.error), delivered);
      }
      k := k + 1;
    }
    d := Delivery(Success, delivered);
  }
}
