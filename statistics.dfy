/** `run_result` and `statistics_t` of src/statistics.hpp and `aggregate` of
    src/statistics.cpp: classifying a referee's score pair and tallying it.
    The floating-point point averages and win ratios are not part of this
    model. */
module Statistics {

  /** One run of the referee: the log file it was told to write, the two
      scores it printed and the seed token. */
  datatype RunResult = RunResult(outputFile: string, p1Score: int, p2Score: int, seed: string)

  /** `run_result::error`, a two-bit flag set. */
  datatype ErrorKind = NoError | P1Error | P2Error | BothError {
    function Code(): bv8 {
      match this
      case NoError => 0
      case P1Error => 1
      case P2Error => 2
      case BothError => 1 | 2
    }
  }

  /** `run_result::winner`. */
  datatype Winner = Draw | P1 | P2 | WinnerError

  /** `get_error()`: a negative score is that player's error. */
  function GetError(r: RunResult): ErrorKind {
    if r.p1Score < 0 && r.p2Score < 0 then BothError
    else if r.p1Score < 0 then P1Error
    else if r.p2Score < 0 then P2Error
    else NoError
  }

  /** `has_error(e)`: every flag of e is set in get_error(). */
  predicate HasErrorFlag(r: RunResult, e: ErrorKind) {
    (GetError(r).Code() & e.Code()) == e.Code()
  }

  /** `has_error()`. */
  predicate HasError(r: RunResult) { GetError(r) != NoError }

  /** `winner()`; its last branch cannot be taken, because two ints are
      always ordered. */
  function WinnerOf(r: RunResult): Winner {
    if r.p1Score > r.p2Score then P1
    else if r.p2Score > r.p1Score then P2
    else if r.p1Score == r.p2Score then Draw
    else WinnerError
  }

  lemma GetErrorCases(r: RunResult)
    ensures GetError(r) == BothError <==> r.p1Score < 0 && r.p2Score < 0
    ensures GetError(r) == P1Error <==> r.p1Score < 0 && r.p2Score >= 0
    ensures GetError(r) == P2Error <==> r.p1Score >= 0 && r.p2Score < 0
    ensures GetError(r) == NoError <==> r.p1Score >= 0 && r.p2Score >= 0
  {
  }

  /** `has_error(e)` is the subset test on the flag bits: `both_error` holds
      both player flags, and every result "has" `none`. */
  lemma HasErrorFlagMeaning(r: RunResult)
    ensures HasErrorFlag(r, NoError)
    ensures HasErrorFlag(r, P1Error) <==> r.p1Score < 0
    ensures HasErrorFlag(r, P2Error) <==> r.p2Score < 0
    ensures HasErrorFlag(r, BothError) <==> r.p1Score < 0 && r.p2Score < 0
  {
  }

  lemma HasErrorIff(r: RunResult)
    ensures HasError(r) <==> r.p1Score < 0 || r.p2Score < 0
  {
  }

  lemma WinnerCases(r: RunResult)
    ensures WinnerOf(r) != WinnerError
    ensures WinnerOf(r) == P1 <==> r.p1Score > r.p2Score
    ensures WinnerOf(r) == P2 <==> r.p2Score > r.p1Score
    ensures WinnerOf(r) == Draw <==> r.p1Score == r.p2Score
  {
  }

  /** The integer counters of `statistics_t`. */
  datatype Counts = Counts(
    player1Victory: nat, player2Victory: nat,
    player1Errors: int, player2Errors: int,
    totalGames: int, draws: int)
  {
    function SignificantGames(): int { player1Victory + player2Victory + draws }
    function Errors(): int { player1Errors + player2Errors }
    function RunGames(): int { SignificantGames() + Errors() }
    function LeftToRun(): int { totalGames - RunGames() }
  }

  /** `statistics_t stats{.total_games = n}`. */
  function InitialCounts(totalGames: int): (c: Counts)
    ensures c.RunGames() == 0 && c.LeftToRun() == totalGames
  {
    Counts(0, 0, 0, 0, totalGames, 0)
  }

  /** The counters after `aggregate(r, stats)`. */
  function Aggregated(c: Counts, r: RunResult): Counts {
    if HasError(r) then
      c.(player1Errors := c.player1Errors + (if HasErrorFlag(r, P1Error) then 1 else 0),
         player2Errors := c.player2Errors + (if HasErrorFlag(r, P2Error) then 1 else 0))
    else
      match WinnerOf(r)
      case P1 => c.(player1Victory := c.player1Victory + 1)
      case P2 => c.(player2Victory := c.player2Victory + 1)
      case _ => c.(draws := c.draws + 1)
  }

  predicate AggregateNeverDecreases(c: Counts, d: Counts) {
    && c.player1Victory <= d.player1Victory && c.player2Victory <= d.player2Victory
    && c.player1Errors <= d.player1Errors && c.player2Errors <= d.player2Errors
    && c.draws <= d.draws && c.totalGames == d.totalGames
  }

  /** An error result changes no victory or draw counter; each flag it has
      adds one error to that player. */
  lemma AggregateError(c: Counts, r: RunResult)
    requires HasError(r)
    ensures var d := Aggregated(c, r);
      && d.player1Victory == c.player1Victory && d.player2Victory == c.player2Victory
      && d.draws == c.draws && d.totalGames == c.totalGames
      && d.player1Errors == c.player1Errors + (if r.p1Score < 0 then 1 else 0)
      && d.player2Errors == c.player2Errors + (if r.p2Score < 0 then 1 else 0)
  {
    HasErrorFlagMeaning(r);
  }

  /** A result without error is a win for the higher score and a draw on
      equal scores; the error counters stay. */
  lemma AggregateGame(c: Counts, r: RunResult)
    requires !HasError(r)
    ensures var d := Aggregated(c, r);
      && d.player1Errors == c.player1Errors && d.player2Errors == c.player2Errors
      && d.totalGames == c.totalGames
      && d.player1Victory == c.player1Victory + (if r.p1Score > r.p2Score then 1 else 0)
      && d.player2Victory == c.player2Victory + (if r.p2Score > r.p1Score then 1 else 0)
      && d.draws == c.draws + (if r.p1Score == r.p2Score then 1 else 0)
  {
  }

  /** A both-error result is counted as two games; any other result as one. */
  lemma AggregateRunGames(c: Counts, r: RunResult)
    ensures Aggregated(c, r).RunGames() == c.RunGames() + (if GetError(r) == BothError then 2 else 1)
    ensures Aggregated(c, r).LeftToRun() == c.LeftToRun() - (if GetError(r) == BothError then 2 else 1)
  {
    HasErrorFlagMeaning(r);
  }

  lemma AggregateMonotone(c: Counts, r: RunResult)
    ensures AggregateNeverDecreases(c, Aggregated(c, r))
  {
  }

  /** The counters after aggregating results in the given order. */
  function AggregateAll(c: Counts, rs: seq<RunResult>): Counts
    decreases |rs|
  {
    if rs == [] then c else AggregateAll(Aggregated(c, rs[0]), rs[1..])
  }

  function CountBothErrors(rs: seq<RunResult>): nat {
    if rs == [] then 0 else (if GetError(rs[0]) == BothError then 1 else 0) + CountBothErrors(rs[1..])
  }

  /** Aggregating n results adds n games, plus one more for every both-error;
      so `left_to_run()` goes below zero when a both-error occurs among all
      `total_games` runs. */
  lemma {:induction false} AggregateAllRunGames(c: Counts, rs: seq<RunResult>)
    ensures AggregateAll(c, rs).RunGames() == c.RunGames() + |rs| + CountBothErrors(rs)
    ensures AggregateAll(c, rs).totalGames == c.totalGames
    decreases |rs|
  {
    if rs != [] {
      AggregateRunGames(c, rs[0]);
      AggregateAllRunGames(Aggregated(c, rs[0]), rs[1..]);
    }
  }

  lemma AggregateAllAppend(c: Counts, rs: seq<RunResult>, r: RunResult)
    ensures AggregateAll(c, rs + [r]) == Aggregated(AggregateAll(c, rs), r)
    decreases |rs|
  {
    if rs != [] {
      assert (rs + [r])[1..] == rs[1..] + [r];
      AggregateAllAppend(Aggregated(c, rs[0]), rs[1..], r);
    }
  }

  /** Aggregating two runs of results one after the other is aggregating
      them all. */
  lemma {:induction false} AggregateAllConcat(c: Counts, rs: seq<RunResult>, qs: seq<RunResult>)
    ensures AggregateAll(c, rs + qs) == AggregateAll(AggregateAll(c, rs), qs)
    decreases |rs|
  {
    if rs != [] {
      assert (rs + qs)[0] == rs[0] && (rs + qs)[1..] == rs[1..] + qs;
      AggregateAllConcat(Aggregated(c, rs[0]), rs[1..], qs);
    } else {
      assert rs + qs == qs;
    }
  }

  lemma ClassificationExamples()
    ensures WinnerOf(RunResult("", 10, 7, "")) == P1
    ensures WinnerOf(RunResult("", 3, 9, "")) == P2
    ensures WinnerOf(RunResult("", 5, 5, "")) == Draw
    ensures GetError(RunResult("", -1, 4, "")) == P1Error
    ensures GetError(RunResult("", -1, -1, "")) == BothError
  {
  }

  /** `statistics_t`, whose integer counters `draw`, `p1_wins`, `p2_wins`
      and `aggregate` increment in place. */
  class StatisticsT {
    var player1Victory: nat
    var player2Victory: nat
    var player1Errors: int
    var player2Errors: int
    var totalGames: int
    var draws: int

    function Snapshot(): Counts
      reads this
    {
      Counts(player1Victory, player2Victory, player1Errors, player2Errors, totalGames, draws)
    }

    constructor (totalGames: int)
      ensures Snapshot() == InitialCounts(totalGames)
    {
      player1Victory, player2Victory := 0, 0;
      player1Errors, player2Errors := 0, 0;
      this.totalGames := totalGames;
      draws := 0;
    }

    /** `left_to_run()`. */
    function LeftToRun(): (n: int)
      reads this
      ensures n == totalGames - Snapshot().RunGames()
    {
      totalGames - (player1Victory + player2Victory + draws + (player1Errors + player2Errors))
    }

    /** `_add_player_victory(x)`: `player_victory[x]++`. */
    method AddPlayerVictory(x: int)
      requires 0 <= x < 2
      modifies this
      ensures Snapshot() == if x == 0 then old(Snapshot()).(player1Victory := old(player1Victory) + 1)
                          else old(Snapshot()).(player2Victory := old(player2Victory) + 1)
    {
      if x == 0 {
        player1Victory := player1Victory + 1;
      } else {
        player2Victory := player2Victory + 1;
      }
    }

    /** `draw(p1_score, p2_score)`; the scores only feed the point
        averages, which are not modelled. */
    method Draw(p1Score: int, p2Score: int)
      modifies this
      ensures Snapshot() == old(Snapshot()).(draws := old(draws) + 1)
      ensures Snapshot().RunGames() == old(Snapshot().RunGames()) + 1
    {
      draws := draws + 1;
    }

    method P1Wins(p1Score: int, p2Score: int)
      modifies this
      ensures Snapshot() == old(Snapshot()).(player1Victory := old(player1Victory) + 1)
      ensures Snapshot().RunGames() == old(Snapshot().RunGames()) + 1
    {
      AddPlayerVictory(0);
    }

    method P2Wins(p1Score: int, p2Score: int)
      modifies this
      ensures Snapshot() == old(Snapshot()).(player2Victory := old(player2Victory) + 1)
      ensures Snapshot().RunGames() == old(Snapshot().RunGames()) + 1
    {
      AddPlayerVictory(1);
    }
  }

  /** `aggregate(result, stats)`. */
  method Aggregate(result: RunResult, stats: StatisticsT)
    modifies stats
    ensures stats.Snapshot() == Aggregated(old(stats.Snapshot()), result)
  {
    if HasError(result) {
      if HasErrorFlag(result, P1Error) {
        stats.player1Errors := stats.player1Errors + 1;
      }
      if HasErrorFlag(result, P2Error) {
        stats.player2Errors := stats.player2Errors + 1;
      }
      return;
    }
    if WinnerOf(result) == P1 {
      stats.P1Wins(result.p1Score, result.p2Score);
    } else if WinnerOf(result) == P2 {
      stats.P2Wins(result.p1Score, result.p2Score);
    } else {
      stats.Draw(result.p1Score, result.p2Score);
    }
  }
}
