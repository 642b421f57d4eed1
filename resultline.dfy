/** The text handling of `main` in src/main.cpp: the name of each run's
    output file, the `>> p1_score >> p2_score >> seed` extraction from a
    referee's stdout, and the cut at the first '=' that leaves the seed. */
module ResultLine {
  import opened IntegerResult
  import opened Decimal

  /** `output_file(x)`: "output-<timestamp>-<x>.json", the timestamp being
      the wall clock in milliseconds written by `std::to_string`. */
  function OutputFile(timestamp: int, x: int): string {
    "output-" + IntToString(timestamp) + "-" + IntToString(x) + ".json"
  }

  /** `std::to_string` writes different ints differently. */
  lemma IntToStringInjective(x: int, y: int)
    requires IntToString(x) == IntToString(y)
    ensures x == y
  {
    if x < 0 && y < 0 {
      assert NatToString(-x) == IntToString(x)[1..];
      NatToStringInjective(-x, -y);
    } else if x >= 0 && y >= 0 {
      NatToStringInjective(x, y);
    } else {
      NatToStringDigits(if x < 0 then y else x);
    }
  }

  /** Within one execution (one timestamp) the runs write to distinct files,
      and every name has the fixed prefix and the ".json" extension. */
  lemma OutputFileInjective(timestamp: int, x: int, y: int)
    requires OutputFile(timestamp, x) == OutputFile(timestamp, y)
    ensures x == y
  {
    var a := "output-" + IntToString(timestamp) + "-";
    var s := OutputFile(timestamp, x);
    assert s == a + IntToString(x) + ".json";
    assert s == a + IntToString(y) + ".json";
    assert IntToString(x) == s[|a|..|s| - 5];
    assert IntToString(y) == s[|a|..|s| - 5];
    IntToStringInjective(x, y);
  }

  lemma OutputFileShape(timestamp: int, x: int)
    ensures var s := OutputFile(timestamp, x);
      |s| > 12 && s[..7] == "output-" && s[|s| - 5..] == ".json"
  {
  }

  /** `std::string::find(c)` stored in an `int`: the first position of c, or
      -1 (npos converted) when c does not occur. */
  function FindChar(s: string, c: char): (i: int)
    ensures -1 <= i < |s|
    ensures i >= 0 ==> s[i] == c && c !in s[..i]
    ensures i == -1 <==> c !in s
  {
    if s == [] then -1
    else if s[0] == c then 0
    else
      var j := FindChar(s[1..], c);
      assert j >= 0 ==> s[..j + 1] == [s[0]] + s[1..][..j];
      if j == -1 then -1 else j + 1
  }

  /** `seed.substr(eq + 1)` with `eq = seed.find('=')`. */
  function SeedOf(token: string): string {
    token[FindChar(token, '=') + 1..]
  }

  /** The seed is what follows the first '='; without one (eq + 1 == 0)
      it is the whole token. */
  lemma SeedCases(token: string)
    ensures '=' !in token ==> SeedOf(token) == token
    ensures '=' in token ==>
      var p := FindChar(token, '=');
      token == token[..p] + "=" + SeedOf(token) && '=' !in token[..p]
  {
    if '=' in token {
      var p := FindChar(token, '=');
      assert token == token[..p] + [token[p]] + token[p + 1..];
    }
  }

  /** `isspace` in the C locale. */
  predicate IsSpace(c: char) {
    c == ' ' || c == '\t' || c == '\n' || c == '\r' || c == '\U{0B}' || c == '\U{0C}'
  }

  /** The first position at or after i that is not white space. */
  function SkipSpace(s: string, i: nat): (j: nat)
    requires i <= |s|
    ensures i <= j <= |s| && (j < |s| ==> !IsSpace(s[j]))
    ensures forall k :: i <= k < j ==> IsSpace(s[k])
    decreases |s| - i
  {
    if i < |s| && IsSpace(s[i]) then SkipSpace(s, i + 1) else i
  }

  /** The end of the run of digits that starts at i. */
  function DigitsEnd(s: string, i: nat): (j: nat)
    requires i <= |s|
    ensures i <= j <= |s| && (j < |s| ==> !IsDigit(s[j]))
    ensures AllDigits(s[i..j])
    decreases |s| - i
  {
    if i < |s| && IsDigit(s[i]) then
      var j := DigitsEnd(s, i + 1);
      assert s[i..j] == [s[i]] + s[i + 1..j];
      j
    else i
  }

  /** The end of the run of non-space characters that starts at i. */
  function TokenEnd(s: string, i: nat): (j: nat)
    requires i <= |s|
    ensures i <= j <= |s| && (j < |s| ==> IsSpace(s[j]))
    ensures forall k :: i <= k < j ==> !IsSpace(s[k])
    decreases |s| - i
  {
    if i < |s| && !IsSpace(s[i]) then TokenEnd(s, i + 1) else i
  }

  /** One `operator>>(int&)`: the value the variable holds afterwards,
      where reading stopped, and whether the stream is still good. */
  datatype IntRead = IntRead(value: int, next: nat, ok: bool)

  /** `operator>>(int&)` from position i on a variable holding `prior`, as
      C++11 specifies it: the sentry skips white space and fails at the
      end of input, leaving the variable untouched; otherwise an optional
      sign and the longest run of digits are read, no digit stores 0 and
      fails, and a value out of range stores INT_MAX or INT_MIN and fails. */
  function ReadInt(s: string, i: nat, prior: int): (r: IntRead)
    requires i <= |s| && Int32.InRange(prior)
    ensures i <= r.next <= |s| && Int32.InRange(r.value)
  {
    var j := SkipSpace(s, i);
    if j == |s| then IntRead(prior, j, false)
    else
      var sign := if s[j] == '-' || s[j] == '+' then 1 else 0;
      var e := DigitsEnd(s, j + sign);
      if e == j + sign then IntRead(0, e, false)
      else
        var m: int := DecimalValue(s[j + sign..e]);
        var v: int := if sign == 1 && s[j] == '-' then -m else m;
        if v > Int32.Max() then IntRead(Int32.Max(), e, false)
        else if v < Int32.Min() then IntRead(Int32.Min(), e, false)
        else IntRead(v, e, true)
  }

  /** What `out >> p1_score >> p2_score >> seed` leaves in the three
      variables, the scores holding `p1` and `p2` before and `seed` being
      a fresh empty string: once an extraction fails the stream is no
      longer good, so the later ones leave their variables untouched. */
  datatype ScoreLine = ScoreLine(p1: int, p2: int, token: string)

  function ReadScoreLine(s: string, p1: int, p2: int): ScoreLine
    requires Int32.InRange(p1) && Int32.InRange(p2)
  {
    var a := ReadInt(s, 0, p1);
    if !a.ok then ScoreLine(a.value, p2, "")
    else
      var b := ReadInt(s, a.next, p2);
      if !b.ok then ScoreLine(a.value, b.value, "")
      else
        var j := SkipSpace(s, b.next);
        ScoreLine(a.value, b.value, s[j..TokenEnd(s, j)])
  }

  /** Where the stream fails before a number is read, the variable keeps
      what it held: at the end of the input, and for the second score
      after the first one failed. */
  lemma ReadIntAtEnd(s: string, i: nat, prior: int)
    requires i <= |s| && Int32.InRange(prior)
    requires forall k :: i <= k < |s| ==> IsSpace(s[k])
    ensures ReadInt(s, i, prior) == IntRead(prior, |s|, false)
  {
    SkipSpaceToEnd(s, i);
  }

  lemma {:induction false} SkipSpaceToEnd(s: string, i: nat)
    requires i <= |s| && forall k :: i <= k < |s| ==> IsSpace(s[k])
    ensures SkipSpace(s, i) == |s|
    decreases |s| - i
  {
    if i < |s| {
      SkipSpaceToEnd(s, i + 1);
    }
  }

  lemma {:induction false} DigitsEndAt(s: string, i: nat, d: string)
    requires i + |d| <= |s| && s[i..i + |d|] == d && AllDigits(d)
    requires i + |d| == |s| || !IsDigit(s[i + |d|])
    ensures DigitsEnd(s, i) == i + |d|
    decreases |d|
  {
    if d != [] {
      assert s[i] == d[0];
      assert s[i + 1..i + 1 + |d[1..]|] == d[1..];
      DigitsEndAt(s, i + 1, d[1..]);
    }
  }

  lemma ReadNatAt(s: string, i: nat, x: nat, e: nat, prior: int)
    requires x <= Int32.Max() && e == i + |NatToString(x)| && Int32.InRange(prior)
    requires e <= |s| && s[i..e] == NatToString(x)
    requires e == |s| || !IsDigit(s[e])
    ensures ReadInt(s, i, prior) == IntRead(x, e, true)
  {
    var d := NatToString(x);
    NatToStringRoundTrip(x);
    assert s[i] == d[0];
    assert SkipSpace(s, i) == i;
    DigitsEndAt(s, i, d);
  }

  lemma ReadNegativeAt(s: string, i: nat, x: nat, e: nat, prior: int)
    requires 0 < x <= -Int32.Min() && e == i + 1 + |NatToString(x)| && Int32.InRange(prior)
    requires e <= |s| && s[i] == '-' && s[i + 1..e] == NatToString(x)
    requires e == |s| || !IsDigit(s[e])
    ensures ReadInt(s, i, prior) == IntRead(-(x as int), e, true)
  {
    var d := NatToString(x);
    NatToStringRoundTrip(x);
    assert SkipSpace(s, i) == i;
    DigitsEndAt(s, i + 1, d);
  }

  /** Reading an int back from what `std::to_string` wrote, when the next
      character is not a digit, gives the int and stops right after it. */
  lemma ReadIntAt(s: string, i: nat, x: int, e: nat, prior: int)
    requires Int32.InRange(x) && e == i + |IntToString(x)| && Int32.InRange(prior)
    requires e <= |s| && s[i..e] == IntToString(x)
    requires e == |s| || !IsDigit(s[e])
    ensures ReadInt(s, i, prior) == IntRead(x, e, true)
  {
    if x < 0 {
      var w := IntToString(x);
      assert w == "-" + NatToString(-x);
      assert s[i] == w[0];
      assert s[i + 1..e] == w[1..];
      ReadNegativeAt(s, i, -x, e, prior);
    } else {
      ReadNatAt(s, i, x, e, prior);
    }
  }

  /** `operator>>` skips leading white space. */
  lemma ReadIntSkipsSpace(s: string, i: nat, prior: int)
    requires i < |s| && IsSpace(s[i]) && Int32.InRange(prior)
    ensures ReadInt(s, i, prior) == ReadInt(s, i + 1, prior)
  {
  }

  lemma IntTextStartsWell(x: int)
    ensures var w := IntToString(x); !IsSpace(w[0]) && !IsDigit(' ')
  {
    NatToStringDigits(if x < 0 then -x else x);
  }

  /** Where the parts of "<p1> <p2> <token><rest>" sit. */
  lemma LineLayout(wa: string, wb: string, token: string, rest: string)
    ensures var s := wa + " " + wb + " " + token + rest;
      var i := |wa|;
      var j := i + 1 + |wb|;
      && s[..i] == wa && s[i] == ' ' && s[i + 1..j] == wb && s[j] == ' '
      && s[j + 1..j + 1 + |token|] == token && s[j + 1 + |token|..] == rest
  {
  }

  /** The two scores of such a line are read back. */
  lemma ScoresOfLine(s: string, a: int, b: int, i: nat, j: nat, p1: int, p2: int)
    requires Int32.InRange(a) && Int32.InRange(b) && Int32.InRange(p1) && Int32.InRange(p2)
    requires i == |IntToString(a)| && j == i + 1 + |IntToString(b)| && j < |s|
    requires s[..i] == IntToString(a) && s[i] == ' ' && s[i + 1..j] == IntToString(b) && s[j] == ' '
    ensures ReadInt(s, 0, p1) == IntRead(a, i, true) && ReadInt(s, i, p2) == IntRead(b, j, true)
  {
    assert s[0..i] == s[..i];
    ReadIntAt(s, 0, a, i, p1);
    ReadIntSkipsSpace(s, i, p2);
    ReadIntAt(s, i + 1, b, j, p2);
  }

  /** A line a referee writes, "<p1> <p2> <token>" followed by white space
      or the end, is read back as those three values, whatever the scores
      held before. */
  lemma ReadsWhatRefereeWrites(a: int, b: int, token: string, rest: string, p1: int, p2: int)
    requires Int32.InRange(a) && Int32.InRange(b) && Int32.InRange(p1) && Int32.InRange(p2)
    requires token != [] && forall k :: 0 <= k < |token| ==> !IsSpace(token[k])
    requires rest == [] || IsSpace(rest[0])
    ensures ReadScoreLine(IntToString(a) + " " + IntToString(b) + " " + token + rest, p1, p2) == ScoreLine(a, b, token)
  {
    var wa := IntToString(a);
    var wb := IntToString(b);
    var s := wa + " " + wb + " " + token + rest;
    var j := |wa| + 1 + |wb|;
    LineLayout(wa, wb, token, rest);
    ScoresOfLine(s, a, b, |wa|, j, p1, p2);
    assert s[j + 1] == token[0];
    assert SkipSpace(s, j) == j + 1;
    TokenEndAt(s, j + 1, token);
    assert s[SkipSpace(s, j)..TokenEnd(s, SkipSpace(s, j))] == token;
  }

  lemma {:induction false} TokenEndAt(s: string, i: nat, t: string)
    requires i + |t| <= |s| && s[i..i + |t|] == t && forall k :: 0 <= k < |t| ==> !IsSpace(t[k])
    requires i + |t| == |s| || IsSpace(s[i + |t|])
    ensures TokenEnd(s, i) == i + |t|
    decreases |t|
  {
    if t != [] {
      assert s[i] == t[0];
      assert s[i + 1..i + 1 + |t[1..]|] == t[1..];
      TokenEndAt(s, i + 1, t[1..]);
    }
  }

  /** A token with "=" keeps what follows it; one without is kept whole. */
  lemma SeedExamples()
    ensures SeedOf("seed=42") == "42"
    ensures SeedOf("42") == "42"
  {
    assert FindChar("seed=42", '=') == 4 by {
      assert "seed=42"[1..] == "eed=42";
      assert "eed=42"[1..] == "ed=42";
      assert "ed=42"[1..] == "d=42";
      assert "d=42"[1..] == "=42";
    }
    assert FindChar("42", '=') == -1;
  }

  /** A line with one score leaves the second score as it was. */
  lemma ShortLineExample()
    ensures ReadScoreLine("5", 0, 0) == ScoreLine(5, 0, "")
    ensures ReadScoreLine("5 ", 7, 9) == ScoreLine(5, 9, "")
  {
    assert SkipSpace("5", 0) == 0 && DigitsEnd("5", 0) == 1;
    assert "5"[0..1] == "5";
    assert ReadInt("5", 1, 0) == IntRead(0, 1, false);
    assert SkipSpace("5 ", 0) == 0 && DigitsEnd("5 ", 0) == 1;
    assert "5 "[0..1] == "5";
    assert SkipSpace("5 ", 1) == 2;
  }

  /** A non-numeric first score stores 0 and leaves the second score as
      it was. */
  lemma MalformedLineExample()
    ensures ReadScoreLine("x 1 2", 7, 9) == ScoreLine(0, 9, "")
  {
  }
}
