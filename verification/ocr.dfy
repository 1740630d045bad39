/**
 * The scoreboard side of the pipeline (ocr.py): normalising OCR text, the
 * broadcast-overlay pattern `score_pattern`, the score record built from
 * its groups, the crop rule, the retry policy around the OCR service and
 * the batch over sampled frames.
 */
module Ocr {
  import opened Optional
  import opened Text
  import Config
  import VideoProcessing

  // ---------------------------------------------------------------------------
  // Whitespace normalisation: `re.sub(r"\s+", " ", text or "").strip()`

  /** The characters of `s` that are not whitespace, in order. */
  function NonSpace(s: string): string {
    if |s| == 0 then "" else (if IsSpace(s[0]) then "" else [s[0]]) + NonSpace(s[1..])
  }

  lemma {:induction false} NonSpaceAppend(a: string, b: string)
    ensures NonSpace(a + b) == NonSpace(a) + NonSpace(b)
  {
    if |a| > 0 {
      var head := if IsSpace(a[0]) then "" else [a[0]];
      assert (a + b)[0] == a[0];
      assert (a + b)[1..] == a[1..] + b;
      NonSpaceAppend(a[1..], b);
      calc {
        NonSpace(a + b);
        head + NonSpace(a[1..] + b);
        head + (NonSpace(a[1..]) + NonSpace(b));
        (head + NonSpace(a[1..])) + NonSpace(b);
      }
    } else {
      assert a + b == b;
    }
  }

  lemma {:induction false} NonSpaceOfSpaces(s: string)
    requires forall k :: 0 <= k < |s| ==> IsSpace(s[k])
    ensures NonSpace(s) == ""
  {
    if |s| > 0 {
      NonSpaceOfSpaces(s[1..]);
    }
  }

  /** A character of `NonSpace(s)` is a character of `s`. */
  lemma {:induction false} NonSpaceChars(s: string, c: char)
    ensures !IsSpace(c) ==> (c in NonSpace(s) <==> c in s)
  {
    if |s| > 0 {
      NonSpaceChars(s[1..], c);
      assert c in s <==> c == s[0] || c in s[1..];
    }
  }

  /** No whitespace but plain spaces, and never two spaces in a row. */
  predicate SingleSpaced(s: string) {
    && (forall k :: 0 <= k < |s| && IsSpace(s[k]) ==> s[k] == ' ')
    && (forall k :: 0 <= k < |s| - 1 && s[k] == ' ' ==> s[k + 1] != ' ')
  }

  /** `re.sub(r"\s+", " ", s)`: every maximal run of whitespace becomes one space. */
  function Collapse(s: string): (r: string)
    ensures |s| > 0 ==> |r| > 0 && r[0] == (if IsSpace(s[0]) then ' ' else s[0])
    ensures |s| > 0 ==> (IsSpace(s[|s| - 1]) <==> r[|r| - 1] == ' ')
    ensures SingleSpaced(r)
    ensures NonSpace(r) == NonSpace(s)
  {
    if |s| == 0 then ""
    else if IsSpace(s[0]) then
      var rest := Collapse(s[1..]);
      assert |s| > 1 ==> s[1..][0] == s[1] && s[1..][|s| - 2] == s[|s| - 1];
      if |s| > 1 && IsSpace(s[1]) then rest
      else
        CollapseCons(' ', rest);
        [' '] + rest
    else
      var rest := Collapse(s[1..]);
      assert |s| > 1 ==> s[1..][|s| - 2] == s[|s| - 1];
      CollapseCons(s[0], rest);
      [s[0]] + rest
  }

  /** Putting a character that does not start a second space in front of single-spaced text. */
  lemma CollapseCons(c: char, rest: string)
    requires SingleSpaced(rest)
    requires IsSpace(c) ==> c == ' ' && (|rest| == 0 || rest[0] != ' ')
    ensures SingleSpaced([c] + rest)
    ensures NonSpace([c] + rest) == (if IsSpace(c) then "" else [c]) + NonSpace(rest)
    ensures |rest| > 0 ==> ([c] + rest)[|rest|] == rest[|rest| - 1]
  {
    var r := [c] + rest;
    assert forall k :: 1 <= k < |r| ==> r[k] == rest[k - 1];
    NonSpaceAppend([c], rest);
  }

  /** Text already in the normal form: single-spaced, no space at either end. */
  predicate Normal(s: string) {
    SingleSpaced(s) && (|s| > 0 ==> s[0] != ' ' && s[|s| - 1] != ' ')
  }

  /** The text the parser works on (`ocr.py` line 152); `None` stands for a falsy input. */
  function Normalize(text: Option<string>): (r: string)
    ensures Normal(r)
    ensures NonSpace(r) == NonSpace(text.GetOr(""))
    ensures forall c :: !IsSpace(c) ==> (c in r <==> c in text.GetOr(""))
  {
    var s := text.GetOr("");
    var c := Collapse(s);
    var r := Strip(c);
    StripKeeps(c);
    forall ch | !IsSpace(ch)
      ensures ch in r <==> ch in s
    {
      NonSpaceChars(r, ch);
      NonSpaceChars(s, ch);
    }
    r
  }

  /** Stripping keeps the non-whitespace text and single spacing. */
  lemma StripKeeps(c: string)
    ensures NonSpace(Strip(c)) == NonSpace(c)
    ensures SingleSpaced(c) ==> SingleSpaced(Strip(c))
  {
    var r := Strip(c);
    var a :| TrimmedAt(c, r, a);
    TrimKeeps(c, r, a);
  }

  lemma TrimKeeps(c: string, r: string, a: int)
    requires TrimmedAt(c, r, a)
    ensures NonSpace(r) == NonSpace(c)
    ensures SingleSpaced(c) ==> SingleSpaced(r)
  {
    TrimKeepsText(c, r, a);
    assert forall k :: 0 <= k < |r| ==> r[k] == c[a + k];
  }

  lemma TrimKeepsText(c: string, r: string, a: int)
    requires TrimmedAt(c, r, a)
    ensures NonSpace(r) == NonSpace(c)
  {
    var pre := c[..a];
    var post := c[a + |r|..];
    assert c == pre + r + post;
    NonSpaceAppend(pre, r);
    NonSpaceAppend(pre + r, post);
    NonSpaceOfSpaces(pre);
    NonSpaceOfSpaces(post);
  }

  /** Collapsing single-spaced text changes nothing. */
  lemma {:induction false} CollapseSingleSpaced(s: string)
    requires SingleSpaced(s)
    ensures Collapse(s) == s
  {
    if |s| > 0 {
      assert SingleSpaced(s[1..]);
      CollapseSingleSpaced(s[1..]);
    }
  }

  /** Normalising is idempotent: normal text is its own normal form. */
  lemma NormalizeNormal(s: string)
    requires Normal(s)
    ensures Normalize(Some(s)) == s
  {
    CollapseSingleSpaced(s);
    StripNoop(s);
  }

  lemma NormalizeIdempotent(text: Option<string>)
    ensures Normalize(Some(Normalize(text))) == Normalize(text)
  {
    NormalizeNormal(Normalize(text));
  }

  // ---------------------------------------------------------------------------
  // The overlay pattern `score_pattern` (case-insensitive), as a matcher that
  // consumes a prefix of the text and returns what is left. Each token takes
  // the longest run its class allows: in this pattern a run is always
  // followed by a character its class does not contain, so backtracking into
  // a shorter run can never lead to a match. The two- and three-letter codes
  // are the exception the token functions spell out.

  /** `x` is a tail of `s`. */
  ghost predicate TailOf(x: string, s: string) {
    |x| <= |s| && s[|s| - |x|..] == x
  }

  lemma TailTrans(x: string, y: string, z: string)
    requires TailOf(x, y) && TailOf(y, z)
    ensures TailOf(x, z)
  {
    assert z[|z| - |x|..] == z[|z| - |y|..][|y| - |x|..];
  }

  lemma TailOfConcat(a: string, b: string)
    ensures TailOf(b, a + b)
  {
    assert (a + b)[|a|..] == b;
  }

  /** The length of the longest prefix of `s` whose characters satisfy `p`. */
  function Run(s: string, p: char -> bool): (n: nat)
    ensures n <= |s|
    ensures forall k :: 0 <= k < n ==> p(s[k])
    ensures n == |s| || !p(s[n])
  {
    RunFrom(s, 0, p)
  }

  function RunFrom(s: string, i: nat, p: char -> bool): (n: nat)
    requires i <= |s|
    requires forall k :: 0 <= k < i ==> p(s[k])
    ensures i <= n <= |s|
    ensures forall k :: 0 <= k < n ==> p(s[k])
    ensures n == |s| || !p(s[n])
    decreases |s| - i
  {
    if i < |s| && p(s[i]) then RunFrom(s, i + 1, p) else i
  }

  /** A run ends where the first character outside the class is. */
  lemma RunOf(x: string, rest: string, p: char -> bool)
    requires forall k :: 0 <= k < |x| ==> p(x[k])
    requires |rest| == 0 || !p(rest[0])
    ensures Run(x + rest, p) == |x|
  {
    var s := x + rest;
    assert forall k :: 0 <= k < |x| ==> s[k] == x[k];
    assert |rest| > 0 ==> s[|x|] == rest[0];
  }

  predicate IsRunsSeparator(c: char) {
    c == '-' || c == '/'
  }

  predicate IsSlash(c: char) {
    c == '/'
  }

  predicate IsOpen(c: char) {
    c == '('
  }

  predicate IsClose(c: char) {
    c == ')'
  }

  predicate AllLetters(s: string) {
    forall k :: 0 <= k < |s| ==> IsLetter(s[k])
  }

  predicate NoSpace(s: string) {
    forall k :: 0 <= k < |s| ==> !IsSpace(s[k])
  }

  /** One character satisfying `p`. */
  function One(s: string, p: char -> bool): (rest: Option<string>)
    ensures rest.Some? <==> |s| > 0 && p(s[0])
    ensures rest.Some? ==> rest.value == s[1..]
  {
    if |s| > 0 && p(s[0]) then Some(s[1..]) else None
  }

  /** `\s*` */
  function Spaces(s: string): (rest: string)
    ensures |rest| <= |s| && rest == s[|s| - |rest|..]
    ensures |rest| == 0 || !IsSpace(rest[0])
  {
    s[Run(s, IsSpace)..]
  }

  /** `\s+` */
  function Spaces1(s: string): (rest: Option<string>)
    ensures rest.Some? <==> |s| > 0 && IsSpace(s[0])
    ensures rest.Some? ==> rest.value == Spaces(s)
  {
    if Run(s, IsSpace) == 0 then None else Some(Spaces(s))
  }

  /** `\d+` */
  function Digits(s: string): (r: Option<(string, string)>)
    ensures r.Some? <==> |s| > 0 && IsDigit(s[0])
    ensures r.Some? ==> |r.value.0| > 0 && AllDigits(r.value.0) && s == r.value.0 + r.value.1
    ensures r.Some? ==> |r.value.1| == 0 || !IsDigit(r.value.1[0])
  {
    var n := Run(s, IsDigit);
    if n == 0 then None else Some((s[..n], s[n..]))
  }

  /** `[A-Za-z]+` */
  function Word(s: string): (r: Option<(string, string)>)
    ensures r.Some? <==> |s| > 0 && IsLetter(s[0])
    ensures r.Some? ==> |r.value.0| > 0 && AllLetters(r.value.0) && s == r.value.0 + r.value.1
    ensures r.Some? ==> |r.value.1| == 0 || !IsLetter(r.value.1[0])
  {
    var n := Run(s, IsLetter);
    if n == 0 then None else Some((s[..n], s[n..]))
  }

  /**
   * `[A-Z]{2,3}` where `\s+` follows: the letter run must be two or three
   * long, since giving letters back leaves a letter where a space is needed.
   */
  function Code(s: string): (r: Option<(string, string)>)
    ensures r.Some? ==> 2 <= |r.value.0| <= 3 && AllLetters(r.value.0) && s == r.value.0 + r.value.1
    ensures r.Some? ==> |r.value.1| == 0 || !IsLetter(r.value.1[0])
  {
    var n := Run(s, IsLetter);
    if 2 <= n <= 3 then Some((s[..n], s[n..])) else None
  }

  /** `[A-Z]{2,3}` at the end of the pattern: as many of the letters as it may take. */
  function Bowl(s: string): (r: Option<string>)
    ensures r.Some? ==> 2 <= |r.value| <= 3 && AllLetters(r.value) && StartsWith(s, r.value)
  {
    var n := Run(s, IsLetter);
    if n < 2 then None else Some(s[..if n < 3 then n else 3])
  }

  /** `(?P<phase>[A-Z])?`: one letter when there is one. */
  function Phase(s: string): (rest: string)
    ensures rest == if |s| > 0 && IsLetter(s[0]) then s[1..] else s
  {
    if |s| > 0 && IsLetter(s[0]) then s[1..] else s
  }

  /** The text `\d+(?:\.\d+)?` matches. */
  predicate IsOversText(o: string) {
    || (|o| > 0 && AllDigits(o))
    || exists k :: 0 < k < |o| - 1 && o[k] == '.' && AllDigits(o[..k]) && AllDigits(o[k + 1..])
  }

  /** `\d+(?:\.\d+)?`: the fraction is taken when a digit follows the point. */
  function Overs(s: string): (r: Option<(string, string)>)
    ensures r.Some? ==> IsOversText(r.value.0) && s == r.value.0 + r.value.1
    ensures r.Some? ==> |r.value.1| == 0 || !IsDigit(r.value.1[0])
  {
    var n := Run(s, IsDigit);
    if n == 0 then None
    else if n + 1 < |s| && s[n] == '.' && IsDigit(s[n + 1]) then
      var m := n + 1 + Run(s[n + 1..], IsDigit);
      assert s[..m][..n] == s[..n] && s[..m][n + 1..] == s[n + 1..m];
      Some((s[..m], s[m..]))
    else Some((s[..n], s[n..]))
  }

  /** `Toss`, in any letter case. */
  predicate TossAt(s: string, i: int) {
    && 0 <= i && i + 4 <= |s|
    && LowerChar(s[i]) == 't' && LowerChar(s[i + 1]) == 'o'
    && LowerChar(s[i + 2]) == 's' && LowerChar(s[i + 3]) == 's'
  }

  function Toss(s: string): (rest: Option<string>)
    ensures rest.Some? <==> TossAt(s, 0)
    ensures rest.Some? ==> rest.value == s[4..]
  {
    if TossAt(s, 0) then Some(s[4..]) else None
  }

  /** `team \s+ runs \s* [-/] \s* wickets \s+` */
  datatype Tally = Tally(team: string, runs: string, wickets: string)

  function TallyPart(s: string): (r: Option<(Tally, string)>)
    ensures r.Some? ==> 2 <= |r.value.0.team| <= 3 && AllLetters(r.value.0.team)
    ensures r.Some? ==> |r.value.0.runs| > 0 && AllDigits(r.value.0.runs)
    ensures r.Some? ==> |r.value.0.wickets| > 0 && AllDigits(r.value.0.wickets)
  {
    var team := Code(s);
    if team.None? then None else
    var s1 := Spaces1(team.value.1);
    if s1.None? then None else
    var rw := RunsWickets(s1.value);
    if rw.None? then None else
    Some((Tally(team.value.0, rw.value.0.0, rw.value.0.1), rw.value.1))
  }

  /** `runs \s* [-/] \s* wickets \s+` */
  function RunsWickets(s: string): (r: Option<((string, string), string)>)
    ensures r.Some? ==> |r.value.0.0| > 0 && AllDigits(r.value.0.0)
    ensures r.Some? ==> |r.value.0.1| > 0 && AllDigits(r.value.0.1)
  {
    var runs := Digits(s);
    if runs.None? then None else
    var s2 := One(Spaces(runs.value.1), IsRunsSeparator);
    if s2.None? then None else
    var wickets := Digits(Spaces(s2.value));
    if wickets.None? then None else
    var s3 := Spaces1(wickets.value.1);
    if s3.None? then None else
    Some(((runs.value.0, wickets.value.0), s3.value))
  }

  /** `(?P<phase>[A-Z])? \s* overs \s* / \s* maxovers \s+` */
  function OversPart(s: string): (r: Option<((string, string), string)>)
    ensures r.Some? ==> IsOversText(r.value.0.0)
    ensures r.Some? ==> |r.value.0.1| > 0 && AllDigits(r.value.0.1)
  {
    var overs := Overs(Spaces(Phase(s)));
    if overs.None? then None else
    var s1 := One(Spaces(overs.value.1), IsSlash);
    if s1.None? then None else
    var maxOvers := Digits(Spaces(s1.value));
    if maxOvers.None? then None else
    var s2 := Spaces1(maxOvers.value.1);
    if s2.None? then None else
    Some(((overs.value.0, maxOvers.value.0), s2.value))
  }

  /** `Toss \s+ toss \s+` */
  function TossPart(s: string): (r: Option<(string, string)>)
    ensures r.Some? ==> TossAt(s, 0)
    ensures r.Some? ==> 2 <= |r.value.0| <= 3 && AllLetters(r.value.0)
  {
    var s1 := Toss(s);
    if s1.None? then None else
    var s2 := Spaces1(s1.value);
    if s2.None? then None else
    var toss := Code(s2.value);
    if toss.None? then None else
    var s3 := Spaces1(toss.value.1);
    if s3.None? then None else
    Some((toss.value.0, s3.value))
  }

  /** One batter: `name \s+ runs \s* ( balls ) \s+`. */
  datatype Batter = Batter(name: string, runs: string, balls: string)

  predicate WellShapedBatter(b: Batter) {
    && |b.name| > 0 && AllLetters(b.name)
    && |b.runs| > 0 && AllDigits(b.runs)
    && |b.balls| > 0 && AllDigits(b.balls)
  }

  function BatterPart(s: string): (r: Option<(Batter, string)>)
    ensures r.Some? ==> WellShapedBatter(r.value.0)
  {
    var name := Word(s);
    if name.None? then None else
    var s1 := Spaces1(name.value.1);
    if s1.None? then None else
    var runs := Digits(s1.value);
    if runs.None? then None else
    var s2 := One(Spaces(runs.value.1), IsOpen);
    if s2.None? then None else
    var balls := Digits(s2.value);
    if balls.None? then None else
    var s3 := One(balls.value.1, IsClose);
    if s3.None? then None else
    var s4 := Spaces1(s3.value);
    if s4.None? then None else
    Some((Batter(name.value.0, runs.value.0, balls.value.0), s4.value))
  }

  /** The named groups of `score_pattern` the parser reads (the `phase` group is unused). */
  datatype Groups = Groups(
    team: string, runs: string, wickets: string, overs: string, maxOvers: string,
    toss: string, striker: Batter, nonstriker: Batter, bowl: string)

  /** What every match's groups look like. */
  predicate WellShaped(g: Groups) {
    && 2 <= |g.team| <= 3 && AllLetters(g.team)
    && |g.runs| > 0 && AllDigits(g.runs)
    && |g.wickets| > 0 && AllDigits(g.wickets)
    && IsOversText(g.overs)
    && |g.maxOvers| > 0 && AllDigits(g.maxOvers)
    && 2 <= |g.toss| <= 3 && AllLetters(g.toss)
    && WellShapedBatter(g.striker)
    && WellShapedBatter(g.nonstriker)
    && 2 <= |g.bowl| <= 3 && AllLetters(g.bowl)
  }

  /** `score_pattern.match` at the start of `s`. */
  function MatchAt(s: string): (r: Option<Groups>)
    ensures r.Some? ==> WellShaped(r.value)
  {
    var tally := TallyPart(s);
    if tally.None? then None else
    var overs := OversPart(tally.value.1);
    if overs.None? then None else
    var toss := TossPart(overs.value.1);
    if toss.None? then None else
    var striker := BatterPart(toss.value.1);
    if striker.None? then None else
    var nonstriker := BatterPart(striker.value.1);
    if nonstriker.None? then None else
    var bowl := Bowl(nonstriker.value.1);
    if bowl.None? then None else
    Some(Groups(tally.value.0.team, tally.value.0.runs, tally.value.0.wickets, overs.value.0.0, overs.value.0.1,
                toss.value.0, striker.value.0, nonstriker.value.0, bowl.value))
  }

  /** A `Toss` at the head of a tail of `s` is a `Toss` in `s`. */
  lemma TossAtTail(x: string, s: string)
    requires TailOf(x, s) && TossAt(x, 0)
    ensures TossAt(s, |s| - |x|)
  {
    var p := |s| - |x|;
    assert s[p..] == x;
    assert s[p] == x[0] && s[p + 1] == x[1] && s[p + 2] == x[2] && s[p + 3] == x[3];
  }

  /** What `\s*` and `\s+` leave is a tail of what they were given. */
  lemma SpacesTail(s: string)
    ensures TailOf(Spaces(s), s)
    ensures Spaces1(s).Some? ==> TailOf(Spaces1(s).value, s)
  {
  }

  /** What one character leaves is a tail of what it was given. */
  lemma OneTail(s: string, p: char -> bool)
    requires One(s, p).Some?
    ensures TailOf(One(s, p).value, s)
  {
  }

  /** What the optional phase letter leaves is a tail of what it was given. */
  lemma PhaseTail(s: string)
    ensures TailOf(Phase(s), s)
  {
  }

  /** What `\d+` leaves is a tail of what it was given. */
  lemma DigitsTail(s: string)
    requires Digits(s).Some?
    ensures TailOf(Digits(s).value.1, s)
  {
    TailOfConcat(Digits(s).value.0, Digits(s).value.1);
  }

  /** What a team code leaves is a tail of what it was given. */
  lemma CodeTail(s: string)
    requires Code(s).Some?
    ensures TailOf(Code(s).value.1, s)
  {
    TailOfConcat(Code(s).value.0, Code(s).value.1);
  }

  /** What the overs token leaves is a tail of what it was given. */
  lemma OversTokenTail(s: string)
    requires Overs(s).Some?
    ensures TailOf(Overs(s).value.1, s)
  {
    TailOfConcat(Overs(s).value.0, Overs(s).value.1);
  }

  lemma RunsWicketsTail(s: string)
    requires RunsWickets(s).Some?
    ensures TailOf(RunsWickets(s).value.1, s)
  {
    var runs := Digits(s).value;
    DigitsTail(s);
    var a := Spaces(runs.1);
    SpacesTail(runs.1);
    TailTrans(a, runs.1, s);
    var b := One(a, IsRunsSeparator).value;
    OneTail(a, IsRunsSeparator);
    TailTrans(b, a, s);
    var c := Spaces(b);
    SpacesTail(b);
    TailTrans(c, b, s);
    var wickets := Digits(c).value;
    DigitsTail(c);
    TailTrans(wickets.1, c, s);
    SpacesTail(wickets.1);
    TailTrans(Spaces1(wickets.1).value, wickets.1, s);
  }

  lemma TallyTail(s: string)
    requires TallyPart(s).Some?
    ensures TailOf(TallyPart(s).value.1, s)
  {
    var team := Code(s).value;
    CodeTail(s);
    var s1 := Spaces1(team.1).value;
    SpacesTail(team.1);
    TailTrans(s1, team.1, s);
    RunsWicketsTail(s1);
    TailTrans(RunsWickets(s1).value.1, s1, s);
  }

  lemma OversTail(s: string)
    requires OversPart(s).Some?
    ensures TailOf(OversPart(s).value.1, s)
  {
    var overs := Overs(Spaces(Phase(s))).value;
    OversHeadTail(s);
    MaxOversTail(overs.1);
    TailTrans(OversPart(s).value.1, overs.1, s);
  }

  /** The `phase? \s* overs` stretch of `OversPart`. */
  lemma OversHeadTail(s: string)
    requires Overs(Spaces(Phase(s))).Some?
    ensures TailOf(Overs(Spaces(Phase(s))).value.1, s)
  {
    var a := Phase(s);
    PhaseTail(s);
    var b := Spaces(a);
    SpacesTail(a);
    TailTrans(b, a, s);
    OversTokenTail(b);
    TailTrans(Overs(b).value.1, b, s);
  }

  /** The `\s* / \s* maxovers \s+` stretch of `OversPart`. */
  lemma MaxOversTail(s: string)
    requires One(Spaces(s), IsSlash).Some?
    requires Digits(Spaces(One(Spaces(s), IsSlash).value)).Some?
    requires Spaces1(Digits(Spaces(One(Spaces(s), IsSlash).value)).value.1).Some?
    ensures TailOf(Spaces1(Digits(Spaces(One(Spaces(s), IsSlash).value)).value.1).value, s)
  {
    var c := Spaces(s);
    SpacesTail(s);
    var d := One(c, IsSlash).value;
    OneTail(c, IsSlash);
    TailTrans(d, c, s);
    var e := Spaces(d);
    SpacesTail(d);
    TailTrans(e, d, s);
    var maxOvers := Digits(e).value;
    DigitsTail(e);
    TailTrans(maxOvers.1, e, s);
    SpacesTail(maxOvers.1);
    TailTrans(Spaces1(maxOvers.1).value, maxOvers.1, s);
  }

  /** Every match of the pattern contains the word `Toss`, in some letter case. */
  lemma MatchNeedsToss(s: string)
    requires MatchAt(s).Some?
    ensures exists p :: TossAt(s, p)
  {
    var tally := TallyPart(s).value;
    TallyTail(s);
    var overs := OversPart(tally.1).value;
    OversTail(tally.1);
    TailTrans(overs.1, tally.1, s);
    assert TossPart(overs.1).Some?;
    TossAtTail(overs.1, s);
  }

  /** `score_pattern.search`: the match at the first position where there is one. */
  function Search(t: string): (r: Option<Groups>)
    ensures r.Some? ==> exists i :: 0 <= i <= |t| && MatchAt(t[i..]) == r
                                   && forall j :: 0 <= j < i ==> MatchAt(t[j..]).None?
    ensures r.None? <==> forall i :: 0 <= i <= |t| ==> MatchAt(t[i..]).None?
  {
    FirstMatch(t, 0, MatchAt)
  }

  /** The first of the suffixes `t[i..]`, `t[i+1..]`, ... that `m` accepts, and what it returns. */
  function FirstMatch<G>(t: string, i: nat, m: string -> Option<G>): (r: Option<G>)
    requires i <= |t|
    ensures r.Some? ==> exists k :: i <= k <= |t| && m(t[k..]) == r
                                   && forall j :: i <= j < k ==> m(t[j..]).None?
    ensures r.None? <==> forall k :: i <= k <= |t| ==> m(t[k..]).None?
    decreases |t| - i
  {
    match m(t[i..])
    case Some(g) => Some(g)
    case None => if i == |t| then None else FirstMatch(t, i + 1, m)
  }

  /** Text without a `t` in any case has no match, wherever the search starts. */
  lemma NoTossNoMatch(t: string)
    requires forall k :: 0 <= k < |t| ==> t[k] != 't' && t[k] != 'T'
    ensures Search(t).None?
  {
    forall i | 0 <= i <= |t|
      ensures MatchAt(t[i..]).None?
    {
      NoTossNoMatchAt(t[i..]);
    }
  }

  lemma NoTossNoMatchAt(s: string)
    requires forall k :: 0 <= k < |s| ==> s[k] != 't' && s[k] != 'T'
    ensures MatchAt(s).None?
  {
    if MatchAt(s).Some? {
      MatchNeedsToss(s);
    }
  }

  // ---------------------------------------------------------------------------
  // An overlay rendered from its groups is matched back to those groups

  /** The batter block `name runs(balls) ` in front of `rest`. */
  function RenderBatter(b: Batter, rest: string): string {
    b.name + (" " + (b.runs + ("(" + (b.balls + (")" + (" " + rest))))))
  }

  /** The overlay from the non-striker on: `Rahul 40(51) AUS`. */
  function NonstrikerText(g: Groups): string {
    RenderBatter(g.nonstriker, g.bowl)
  }

  /** The overlay from the striker on. */
  function StrikerText(g: Groups): string {
    RenderBatter(g.striker, NonstrikerText(g))
  }

  /** The overlay from `Toss` on. */
  function TossText(g: Groups): string {
    "Toss" + (" " + (g.toss + (" " + StrikerText(g))))
  }

  /** The overlay from the overs on. */
  function OversText(g: Groups): string {
    g.overs + ("/" + (g.maxOvers + (" " + TossText(g))))
  }

  /** The overlay text `IND 240/3 45.2/50 Toss AUS Kohli 85(92) Rahul 40(51) AUS` of a set of groups. */
  function Render(g: Groups): string {
    g.team + (" " + (g.runs + ("/" + (g.wickets + (" " + OversText(g))))))
  }

  lemma CodeOf(x: string, rest: string)
    requires 2 <= |x| <= 3 && AllLetters(x)
    requires |rest| == 0 || !IsLetter(rest[0])
    ensures Code(x + rest) == Some((x, rest))
  {
    RunOf(x, rest, IsLetter);
    assert (x + rest)[..|x|] == x && (x + rest)[|x|..] == rest;
  }

  lemma DigitsOf(x: string, rest: string)
    requires |x| > 0 && AllDigits(x)
    requires |rest| == 0 || !IsDigit(rest[0])
    ensures Digits(x + rest) == Some((x, rest))
  {
    RunOf(x, rest, IsDigit);
    assert (x + rest)[..|x|] == x && (x + rest)[|x|..] == rest;
  }

  lemma WordOf(x: string, rest: string)
    requires |x| > 0 && AllLetters(x)
    requires |rest| == 0 || !IsLetter(rest[0])
    ensures Word(x + rest) == Some((x, rest))
  {
    RunOf(x, rest, IsLetter);
    assert (x + rest)[..|x|] == x && (x + rest)[|x|..] == rest;
  }

  lemma SpaceOf(rest: string)
    requires |rest| == 0 || !IsSpace(rest[0])
    ensures Spaces1(" " + rest) == Some(rest)
    ensures Spaces(rest) == rest
  {
    RunOf(" ", rest, IsSpace);
    RunOf("", rest, IsSpace);
    assert "" + rest == rest;
    assert (" " + rest)[1..] == rest;
  }

  lemma OversOf(o: string, rest: string)
    requires IsOversText(o)
    requires |rest| == 0 || (!IsDigit(rest[0]) && rest[0] != '.')
    ensures Overs(o + rest) == Some((o, rest))
  {
    if |o| > 0 && AllDigits(o) {
      OversWholeOf(o, rest);
    } else {
      var k :| 0 < k < |o| - 1 && o[k] == '.' && AllDigits(o[..k]) && AllDigits(o[k + 1..]);
      assert o == o[..k] + "." + o[k + 1..];
      OversFractionOf(o[..k], o[k + 1..], rest);
    }
  }

  lemma OversWholeOf(o: string, rest: string)
    requires |o| > 0 && AllDigits(o)
    requires |rest| == 0 || (!IsDigit(rest[0]) && rest[0] != '.')
    ensures Overs(o + rest) == Some((o, rest))
  {
    var s := o + rest;
    RunOf(o, rest, IsDigit);
    assert s[..|o|] == o && s[|o|..] == rest;
  }

  lemma OversFractionOf(whole: string, frac: string, rest: string)
    requires |whole| > 0 && AllDigits(whole) && |frac| > 0 && AllDigits(frac)
    requires |rest| == 0 || !IsDigit(rest[0])
    ensures Overs(whole + "." + frac + rest) == Some((whole + "." + frac, rest))
  {
    var o := whole + "." + frac;
    var s := o + rest;
    var k := |whole|;
    assert s == whole + ("." + (frac + rest));
    RunOf(whole, "." + (frac + rest), IsDigit);
    assert s[k] == '.' && s[k + 1] == frac[0];
    assert s[k + 1..] == frac + rest;
    RunOf(frac, rest, IsDigit);
    assert s[..|o|] == o && s[|o|..] == rest;
  }

  lemma RunsWicketsOf(runs: string, wickets: string, rest: string)
    requires |runs| > 0 && AllDigits(runs) && |wickets| > 0 && AllDigits(wickets)
    requires |rest| > 0 && !IsSpace(rest[0])
    ensures RunsWickets(runs + ("/" + (wickets + (" " + rest)))) == Some(((runs, wickets), rest))
  {
    var a := " " + rest;
    var b := wickets + a;
    var c := "/" + b;
    DigitsOf(runs, c);
    SeparatorOf(wickets, rest);
    assert One(Spaces(c), IsRunsSeparator) == Some(b);
    WicketsOf(wickets, rest);
  }

  /** The runs separator of a rendered `/w rest`. */
  lemma SeparatorOf(wickets: string, rest: string)
    requires |wickets| > 0 && AllDigits(wickets)
    ensures One(Spaces("/" + (wickets + (" " + rest))), IsRunsSeparator) == Some(wickets + (" " + rest))
  {
    var c := "/" + (wickets + (" " + rest));
    SpaceOf(c);
    assert One(c, IsRunsSeparator) == Some(wickets + (" " + rest));
  }

  /** The wickets and the space after them in a rendered `w rest`. */
  lemma WicketsOf(wickets: string, rest: string)
    requires |wickets| > 0 && AllDigits(wickets)
    requires |rest| > 0 && !IsSpace(rest[0])
    ensures Digits(Spaces(wickets + (" " + rest))) == Some((wickets, " " + rest))
    ensures Spaces1(" " + rest) == Some(rest)
  {
    SpaceOf(wickets + (" " + rest));
    DigitsOf(wickets, " " + rest);
    SpaceOf(rest);
  }

  lemma TallyOf(t: Tally, rest: string)
    requires 2 <= |t.team| <= 3 && AllLetters(t.team)
    requires |t.runs| > 0 && AllDigits(t.runs) && |t.wickets| > 0 && AllDigits(t.wickets)
    requires |rest| > 0 && !IsSpace(rest[0])
    ensures TallyPart(t.team + (" " + (t.runs + ("/" + (t.wickets + (" " + rest)))))) == Some((t, rest))
  {
    var c := t.runs + ("/" + (t.wickets + (" " + rest)));
    var s := t.team + (" " + c);
    CodeOf(t.team, " " + c);
    assert Code(s) == Some((t.team, " " + c));
    SpaceOf(c);
    assert Spaces1(" " + c) == Some(c);
    RunsWicketsOf(t.runs, t.wickets, rest);
    assert RunsWickets(c) == Some(((t.runs, t.wickets), rest));
    assert TallyPart(s) == Some((Tally(t.team, t.runs, t.wickets), rest));
  }

  lemma OversPartOf(o: string, m: string, rest: string)
    requires IsOversText(o) && |m| > 0 && AllDigits(m)
    requires |rest| > 0 && !IsSpace(rest[0])
    ensures OversPart(o + ("/" + (m + (" " + rest)))) == Some(((o, m), rest))
  {
    var b := m + (" " + rest);
    var c := o + ("/" + b);
    OversStartsWithDigit(o, "/" + b);
    assert Phase(c) == c;
    SpaceOf(c);
    OversOf(o, "/" + b);
    assert Overs(Spaces(Phase(c))) == Some((o, "/" + b));
    MaxOversOf(m, rest);
  }

  /** The `\s* / \s* maxovers \s+` stretch of `OversPart` on a rendered `/m rest`. */
  lemma MaxOversOf(m: string, rest: string)
    requires |m| > 0 && AllDigits(m)
    requires |rest| > 0 && !IsSpace(rest[0])
    ensures One(Spaces("/" + (m + (" " + rest))), IsSlash) == Some(m + (" " + rest))
    ensures Digits(Spaces(m + (" " + rest))) == Some((m, " " + rest))
    ensures Spaces1(" " + rest) == Some(rest)
  {
    var b := m + (" " + rest);
    SpaceOf("/" + b);
    assert One("/" + b, IsSlash) == Some(b);
    SpaceOf(b);
    DigitsOf(m, " " + rest);
    SpaceOf(rest);
  }

  lemma OversStartsWithDigit(o: string, rest: string)
    requires IsOversText(o)
    ensures |o + rest| > 0 && IsDigit((o + rest)[0])
  {
    if !(|o| > 0 && AllDigits(o)) {
      var k :| 0 < k < |o| - 1 && o[k] == '.' && AllDigits(o[..k]) && AllDigits(o[k + 1..]);
      assert o[..k][0] == o[0];
    }
  }

  lemma TossPartOf(toss: string, rest: string)
    requires 2 <= |toss| <= 3 && AllLetters(toss)
    requires |rest| > 0 && !IsSpace(rest[0])
    ensures TossPart("Toss" + (" " + (toss + (" " + rest)))) == Some((toss, rest))
  {
    SpaceOf(rest);
    CodeOf(toss, " " + rest);
    var b := toss + (" " + rest);
    SpaceOf(b);
    var c := "Toss" + (" " + b);
    assert TossAt(c, 0);
    assert c[4..] == " " + b;
  }

  lemma BatterOf(b: Batter, rest: string)
    requires WellShapedBatter(b)
    requires |rest| > 0 && !IsSpace(rest[0])
    ensures BatterPart(RenderBatter(b, rest)) == Some((b, rest))
  {
    var a := ")" + (" " + rest);
    var c := "(" + (b.balls + a);
    var d := b.runs + c;
    var e := b.name + (" " + d);
    WordOf(b.name, " " + d);
    assert Word(e) == Some((b.name, " " + d));
    SpaceOf(d);
    assert Spaces1(" " + d) == Some(d);
    DigitsOf(b.runs, c);
    assert Digits(d) == Some((b.runs, c));
    SpaceOf(c);
    assert One(Spaces(c), IsOpen) == Some(b.balls + a);
    DigitsOf(b.balls, a);
    assert Digits(b.balls + a) == Some((b.balls, a));
    assert One(a, IsClose) == Some(" " + rest);
    SpaceOf(rest);
    assert Spaces1(" " + rest) == Some(rest);
    assert RenderBatter(b, rest) == e;
  }

  lemma BowlOf(x: string)
    requires 2 <= |x| <= 3 && AllLetters(x)
    ensures Bowl(x) == Some(x)
  {
    RunOf(x, "", IsLetter);
    assert x + "" == x;
  }

  /** The pattern reads back every well-shaped overlay it could have matched. */
  lemma MatchRender(g: Groups)
    requires WellShaped(g)
    ensures MatchAt(Render(g)) == Some(g)
  {
    TallyReads(g);
    OversReads(g);
    TossReads(g);
    StrikerReads(g);
    NonstrikerReads(g);
    BowlOf(g.bowl);
    MatchOfParts(Render(g), g, OversText(g), TossText(g), StrikerText(g), NonstrikerText(g));
  }

  lemma NonstrikerReads(g: Groups)
    requires WellShaped(g)
    ensures BatterPart(NonstrikerText(g)) == Some((g.nonstriker, g.bowl))
  {
    BatterOf(g.nonstriker, g.bowl);
  }

  lemma StrikerReads(g: Groups)
    requires WellShaped(g)
    ensures BatterPart(StrikerText(g)) == Some((g.striker, NonstrikerText(g)))
  {
    StartsWithLetter(g.nonstriker, g.bowl);
    BatterOf(g.striker, NonstrikerText(g));
  }

  lemma TossReads(g: Groups)
    requires WellShaped(g)
    ensures TossPart(TossText(g)) == Some((g.toss, StrikerText(g)))
  {
    StartsWithLetter(g.striker, NonstrikerText(g));
    TossPartOf(g.toss, StrikerText(g));
  }

  lemma OversReads(g: Groups)
    requires WellShaped(g)
    ensures OversPart(OversText(g)) == Some(((g.overs, g.maxOvers), TossText(g)))
  {
    OversPartOf(g.overs, g.maxOvers, TossText(g));
  }

  lemma TallyReads(g: Groups)
    requires WellShaped(g)
    ensures TallyPart(Render(g)) == Some((Tally(g.team, g.runs, g.wickets), OversText(g)))
  {
    OversStartsWithDigit(g.overs, "/" + (g.maxOvers + (" " + TossText(g))));
    TallyOf(Tally(g.team, g.runs, g.wickets), OversText(g));
  }

  /** A rendered batter block starts with the batter's name. */
  lemma StartsWithLetter(b: Batter, rest: string)
    requires WellShapedBatter(b)
    ensures |RenderBatter(b, rest)| > 0 && IsLetter(RenderBatter(b, rest)[0])
  {
  }

  /** A match assembled from its stages. */
  lemma MatchOfParts(s: string, g: Groups, o: string, t: string, b1: string, b2: string)
    requires TallyPart(s) == Some((Tally(g.team, g.runs, g.wickets), o))
    requires OversPart(o) == Some(((g.overs, g.maxOvers), t))
    requires TossPart(t) == Some((g.toss, b1))
    requires BatterPart(b1) == Some((g.striker, b2))
    requires BatterPart(b2) == Some((g.nonstriker, g.bowl))
    requires Bowl(g.bowl) == Some(g.bowl)
    ensures MatchAt(s) == Some(g)
  {
  }

  lemma SearchRender(g: Groups)
    requires WellShaped(g)
    ensures Search(Render(g)) == Some(g)
  {
    var t := Render(g);
    MatchRender(g);
    assert t[0..] == t;
  }

  // ---------------------------------------------------------------------------
  // A rendered overlay is already in normal form

  lemma NormalGlue(x: string, y: string)
    requires NoSpace(x) && Normal(y)
    ensures Normal(x + y)
  {
    var s := x + y;
    assert forall k :: 0 <= k < |x| ==> s[k] == x[k];
    assert forall k :: |x| <= k < |s| ==> s[k] == y[k - |x|];
  }

  lemma NormalSep(x: string, y: string)
    requires |x| > 0 && NoSpace(x) && Normal(y) && |y| > 0
    ensures Normal(x + (" " + y))
  {
    var s := x + (" " + y);
    assert forall k :: 0 <= k < |x| ==> s[k] == x[k];
    assert s[|x|] == ' ';
    assert forall k :: |x| < k < |s| ==> s[k] == y[k - |x| - 1];
  }

  lemma LettersNoSpace(x: string)
    requires AllLetters(x)
    ensures NoSpace(x)
  {
  }

  lemma DigitsNoSpace(x: string)
    requires AllDigits(x)
    ensures NoSpace(x)
  {
  }

  lemma OversNoSpace(o: string)
    requires IsOversText(o)
    ensures |o| > 0 && NoSpace(o)
  {
    if !(|o| > 0 && AllDigits(o)) {
      var k :| 0 < k < |o| - 1 && o[k] == '.' && AllDigits(o[..k]) && AllDigits(o[k + 1..]);
      assert forall j :: 0 <= j < k ==> o[j] == o[..k][j];
      assert forall j :: k < j < |o| ==> o[j] == o[k + 1..][j - k - 1];
    }
  }

  lemma BatterNormal(b: Batter, rest: string)
    requires WellShapedBatter(b) && Normal(rest) && |rest| > 0
    ensures Normal(RenderBatter(b, rest))
  {
    NormalSep(")", rest);
    var a := ")" + (" " + rest);
    DigitsNoSpace(b.balls);
    NormalGlue(b.balls, a);
    NormalGlue("(", b.balls + a);
    DigitsNoSpace(b.runs);
    NormalGlue(b.runs, "(" + (b.balls + a));
    LettersNoSpace(b.name);
    NormalSep(b.name, b.runs + ("(" + (b.balls + a)));
  }

  lemma NonstrikerNormal(g: Groups)
    requires WellShaped(g)
    ensures Normal(NonstrikerText(g)) && |NonstrikerText(g)| > 0
  {
    LettersNoSpace(g.bowl);
    NormalGlue(g.bowl, "");
    assert g.bowl + "" == g.bowl;
    BatterNormal(g.nonstriker, g.bowl);
  }

  lemma StrikerNormal(g: Groups)
    requires WellShaped(g)
    ensures Normal(StrikerText(g)) && |StrikerText(g)| > 0
  {
    NonstrikerNormal(g);
    BatterNormal(g.striker, NonstrikerText(g));
  }

  lemma TossNormal(g: Groups)
    requires WellShaped(g)
    ensures Normal(TossText(g)) && |TossText(g)| > 0
  {
    StrikerNormal(g);
    LettersNoSpace(g.toss);
    NormalSep(g.toss, StrikerText(g));
    NormalSep("Toss", g.toss + (" " + StrikerText(g)));
  }

  lemma OversNormal(g: Groups)
    requires WellShaped(g)
    ensures Normal(OversText(g)) && |OversText(g)| > 0
  {
    TossNormal(g);
    DigitsNoSpace(g.maxOvers);
    NormalSep(g.maxOvers, TossText(g));
    NormalGlue("/", g.maxOvers + (" " + TossText(g)));
    OversNoSpace(g.overs);
    NormalGlue(g.overs, "/" + (g.maxOvers + (" " + TossText(g))));
  }

  /** Normalising a rendered overlay changes nothing. */
  lemma RenderNormal(g: Groups)
    requires WellShaped(g)
    ensures Normal(Render(g))
  {
    OversNormal(g);
    DigitsNoSpace(g.wickets);
    NormalSep(g.wickets, OversText(g));
    NormalGlue("/", g.wickets + (" " + OversText(g)));
    DigitsNoSpace(g.runs);
    NormalGlue(g.runs, "/" + (g.wickets + (" " + OversText(g))));
    LettersNoSpace(g.team);
    NormalSep(g.team, g.runs + ("/" + (g.wickets + (" " + OversText(g)))));
  }

  // ---------------------------------------------------------------------------
  // The score record `parse_score_text` returns

  /** `{"runs": ..., "wickets": ..., "overs": ...}` */
  datatype TeamScore = TeamScore(runs: Option<int>, wickets: Option<int>, overs: Option<string>)

  const NO_SCORE := TeamScore(None, None, None)

  /** The `extra_info` entry, present only when the pattern matched. */
  datatype ExtraInfo = ExtraInfo(
    maxOvers: int, toss: string,
    striker: string, strikerRuns: int, strikerBalls: int,
    nonstriker: string, nonstrikerRuns: int, nonstrikerBalls: int)

  /**
   * The dictionary `parse_score_text` returns. Its `parsed` entry is `None`
   * on every path, so it has no field here.
   */
  datatype ScoreRecord = ScoreRecord(
    team1Name: Option<string>, team2Name: Option<string>,
    team1Score: TeamScore, team2Score: TeamScore,
    rawText: string, extraInfo: Option<ExtraInfo>)

  /** `int(...)` of a group of ASCII digits (see `Text.PyIntOfDigits`). */
  function IntOf(d: string): int
    requires AllDigits(d)
  {
    DigitsValue(d)
  }

  /** The record for matched groups. */
  function RecordOf(txt: string, g: Groups): ScoreRecord
    requires WellShaped(g)
  {
    ScoreRecord(
      Some(g.team), Some(g.bowl),
      TeamScore(Some(IntOf(g.runs)), Some(IntOf(g.wickets)), Some(g.overs)), NO_SCORE,
      txt,
      Some(ExtraInfo(IntOf(g.maxOvers), g.toss,
                     g.striker.name, IntOf(g.striker.runs), IntOf(g.striker.balls),
                     g.nonstriker.name, IntOf(g.nonstriker.runs), IntOf(g.nonstriker.balls))))
  }

  /** `parse_score_text`: `None` stands for a falsy `text`. */
  function ParseScoreText(text: Option<string>): (r: ScoreRecord)
    ensures r.rawText == Normalize(text) && Normal(r.rawText)
    ensures r.team2Score == NO_SCORE
    ensures r.team1Name.Some? <==> Search(r.rawText).Some?
    ensures r.team1Name.None? ==> r == ScoreRecord(None, None, NO_SCORE, NO_SCORE, r.rawText, None)
    ensures r.team1Name.Some? ==>
              && r.team2Name.Some? && r.extraInfo.Some?
              && 2 <= |r.team1Name.value| <= 3 && AllLetters(r.team1Name.value)
              && 2 <= |r.team2Name.value| <= 3 && AllLetters(r.team2Name.value)
              && r.team1Score.runs.Some? && r.team1Score.runs.value >= 0
              && r.team1Score.wickets.Some? && r.team1Score.wickets.value >= 0
              && r.team1Score.overs.Some? && IsOversText(r.team1Score.overs.value)
  {
    var txt := Normalize(text);
    var m := Search(txt);
    if m.None? then ScoreRecord(None, None, NO_SCORE, NO_SCORE, txt, None)
    else RecordOf(txt, m.value)
  }

  /** A well-shaped overlay is parsed into exactly the groups it was rendered from. */
  lemma ParseRoundTrip(g: Groups)
    requires WellShaped(g)
    ensures var r := ParseScoreText(Some(Render(g)));
            && r.rawText == Render(g)
            && r.team1Name == Some(g.team) && r.team2Name == Some(g.bowl)
            && r.team1Score == TeamScore(Some(DigitsValue(g.runs)), Some(DigitsValue(g.wickets)), Some(g.overs))
            && r.extraInfo == Some(ExtraInfo(
                 DigitsValue(g.maxOvers), g.toss,
                 g.striker.name, DigitsValue(g.striker.runs), DigitsValue(g.striker.balls),
                 g.nonstriker.name, DigitsValue(g.nonstriker.runs), DigitsValue(g.nonstriker.balls)))
  {
    RenderMatches(g);
    ParseOfMatch(Render(g), g);
  }

  /** A rendered overlay is already normalized, and the pattern finds its groups in it. */
  lemma RenderMatches(g: Groups)
    requires WellShaped(g)
    ensures Normalize(Some(Render(g))) == Render(g) && Search(Render(g)) == Some(g)
  {
    RenderNormal(g);
    NormalizeNormal(Render(g));
    SearchRender(g);
  }

  /** Normalized text that the pattern matches is parsed into the record of its groups. */
  lemma ParseOfMatch(txt: string, g: Groups)
    requires WellShaped(g)
    requires Normalize(Some(txt)) == txt && Search(txt) == Some(g)
    ensures ParseScoreText(Some(txt)) == RecordOf(txt, g)
  {
  }

  /** Text with no `t` in either case never yields a score, only its raw text. */
  lemma NoTossUnparsed(text: string)
    requires 't' !in text && 'T' !in text
    ensures ParseScoreText(Some(text)).team1Name.None?
  {
    var txt := Normalize(Some(text));
    assert 't' !in txt && 'T' !in txt;
    NoTossNoMatch(txt);
  }

  /** The sample line `IND 240/3 (45.2) vs AUS` has no `Toss` in it, so no score is read from it. */
  lemma ShortLineUnparsed()
    ensures ParseScoreText(Some("IND 240/3 (45.2) vs AUS")).team1Name.None?
  {
    NoTossUnparsed("IND 240/3 (45.2) vs AUS");
  }

  /**
   * The full overlay line `IND 240/3 45.2/50 Toss AUS Kohli 85(92) Rahul 40(51) AUS`
   * is parsed into its scores, its batters and its toss. (The line is written
   * in two pieces only to keep each literal short for the verifier.)
   */
  lemma FullLineParsed()
    ensures var r := ParseScoreText(Some("IND 240/3 45.2/50 " + "Toss AUS Kohli 85(92) Rahul 40(51) AUS"));
            && r.team1Name == Some("IND") && r.team2Name == Some("AUS")
            && r.team1Score == TeamScore(Some(240), Some(3), Some("45.2"))
            && r.extraInfo == Some(ExtraInfo(50, "AUS", "Kohli", 85, 92, "Rahul", 40, 51))
  {
    SampleWellShaped();
    SampleLine();
    ParseRoundTrip(SampleGroups());
    SampleValues();
  }

  function SampleGroups(): Groups {
    Groups("IND", "240", "3", "45.2", "50", "AUS", Batter("Kohli", "85", "92"), Batter("Rahul", "40", "51"), "AUS")
  }

  lemma SampleWellShaped()
    ensures WellShaped(SampleGroups())
  {
    var o := SampleGroups().overs;
    assert o[2] == '.' && o[..2] == "45" && o[3..] == "2";
  }

  lemma SampleLine()
    ensures Render(SampleGroups()) == "IND 240/3 45.2/50 " + "Toss AUS Kohli 85(92) Rahul 40(51) AUS"
  {
    SampleToss();
  }

  lemma SampleToss()
    ensures TossText(SampleGroups()) == "Toss AUS Kohli 85(92) Rahul 40(51) AUS"
  {
    SampleNonstriker();
  }

  lemma SampleNonstriker()
    ensures NonstrikerText(SampleGroups()) == "Rahul 40(51) AUS"
  {
  }

  lemma SampleValues()
    ensures DigitsValue("240") == 240 && DigitsValue("3") == 3 && DigitsValue("50") == 50
    ensures DigitsValue("85") == 85 && DigitsValue("92") == 92
    ensures DigitsValue("40") == 40 && DigitsValue("51") == 51
  {
    assert "240"[..2] == "24" && "24"[..1] == "2";
    assert "85"[..1] == "8" && "92"[..1] == "9" && "40"[..1] == "4" && "51"[..1] == "5" && "50"[..1] == "5";
  }

  // ---------------------------------------------------------------------------
  // The OCR service call and its retry policy (`call_vision_ocr`)

  /** What the service returned as JSON, with the defaults the code reads through `.get`. */
  datatype ServiceJson = ServiceJson(
    isErrored: bool,         // truthiness of `IsErroredOnProcessing`
    errorMessage: string,    // `str()` of `ErrorMessage`
    parsedTexts: seq<string>) // `ParsedText` (default "") of each of `ParsedResults` (default [])

  /** One request's fate: the request raised, or a response arrived (`json` is `None` when it is not JSON). */
  datatype Reply =
    | Raised(message: string)
    | Http(status: int, body: string, json: Option<ServiceJson>)

  /** `{"success": True, "text": t, "error": None}` or `{"success": False, "text": None, "error": e}`. */
  datatype OcrResult = Recognized(text: string) | Failed(error: string)

  /** A call's result, the number of requests it made and the pauses it slept between them. */
  datatype Call = Call(result: OcrResult, requests: nat, sleeps: seq<real>)

  /** A reply after which the loop pauses and tries again (unless it was the last attempt). */
  predicate Transient(r: Reply) {
    r.Raised? || (r.status != 403 && r.status != 200)
  }

  function RateLimitMessage(key: string): string {
    "Rate limit (403) for key " + Take(key, 4) + "..."
  }

  /** What a reply means when the loop stops at it. */
  function Outcome(key: string, r: Reply): OcrResult {
    match r
    case Raised(m) => Failed(m)
    case Http(status, body, json) =>
      if status == 403 then Failed(RateLimitMessage(key))
      else if status != 200 then Failed("HTTP " + IntToString(status) + ": " + body)
      else if json.None? then Failed("Invalid JSON response")
      else if json.value.isErrored then Failed(json.value.errorMessage)
      else Recognized(Strip(Join(json.value.parsedTexts, "\n")))
  }

  function Pow2(n: nat): real {
    if n == 0 then 1.0 else 2.0 * Pow2(n - 1)
  }

  /** The pause after a transient failure of attempt `attempt`: `INITIAL_BACKOFF`, doubled after each pause. */
  function Backoff(attempt: nat): real
    requires attempt >= 1
  {
    Config.INITIAL_BACKOFF * Pow2(attempt - 1)
  }

  /** Each pause is twice the one before it. */
  lemma BackoffDoubles(attempt: nat)
    requires attempt >= 1
    ensures Backoff(attempt + 1) == 2.0 * Backoff(attempt)
  {
  }

  /**
   * `call_vision_ocr`: `replies(k)` is what the `k`-th request (from 1)
   * brings back; `None` or "" as the key is a missing key.
   */
  function CallVisionOcr(key: Option<string>, replies: nat -> Reply): (c: Call)
    ensures key.GetOr("") == "" ==> c == Call(Failed("No API key provided"), 0, [])
    ensures key.GetOr("") != "" ==>
              && 1 <= c.requests <= Config.MAX_RETRIES
              && (forall k :: 1 <= k < c.requests ==> Transient(replies(k)))
              && (c.requests < Config.MAX_RETRIES ==> !Transient(replies(c.requests)))
              && c.result == Outcome(key.value, replies(c.requests))
              && |c.sleeps| == c.requests - 1
              && BackoffsFrom(c.sleeps, 1)
  {
    if key.GetOr("") == "" then Call(Failed("No API key provided"), 0, [])
    else AttemptFrom(key.value, replies, 1)
  }

  /** The loop from attempt `attempt` on. */
  function AttemptFrom(key: string, replies: nat -> Reply, attempt: nat): (c: Call)
    requires 1 <= attempt <= Config.MAX_RETRIES
    ensures attempt <= c.requests <= Config.MAX_RETRIES
    ensures forall k :: attempt <= k < c.requests ==> Transient(replies(k))
    ensures c.requests < Config.MAX_RETRIES ==> !Transient(replies(c.requests))
    ensures c.result == Outcome(key, replies(c.requests))
    ensures |c.sleeps| == c.requests - attempt
    ensures BackoffsFrom(c.sleeps, attempt)
    decreases Config.MAX_RETRIES - attempt
  {
    match replies(attempt)
    case Raised(m) =>
      if attempt == Config.MAX_RETRIES then Call(Failed(m), attempt, [])
      else Retry(key, replies, attempt)
    case Http(status, body, json) =>
      if status == 403 then Call(Failed(RateLimitMessage(key)), attempt, [])
      else if status != 200 then
        if attempt == Config.MAX_RETRIES then Call(Failed("HTTP " + IntToString(status) + ": " + body), attempt, [])
        else Retry(key, replies, attempt)
      else if json.None? then Call(Failed("Invalid JSON response"), attempt, [])
      else if json.value.isErrored then Call(Failed(json.value.errorMessage), attempt, [])
      else Call(Recognized(Strip(Join(json.value.parsedTexts, "\n"))), attempt, [])
  }

  /** Sleep the attempt's back-off and go on with the next attempt. */
  function Retry(key: string, replies: nat -> Reply, attempt: nat): (c: Call)
    requires 1 <= attempt < Config.MAX_RETRIES
    ensures attempt < c.requests <= Config.MAX_RETRIES
    ensures forall k :: attempt < k < c.requests ==> Transient(replies(k))
    ensures c.requests < Config.MAX_RETRIES ==> !Transient(replies(c.requests))
    ensures c.result == Outcome(key, replies(c.requests))
    ensures |c.sleeps| == c.requests - attempt
    ensures BackoffsFrom(c.sleeps, attempt)
    decreases Config.MAX_RETRIES - attempt, 0
  {
    var next := AttemptFrom(key, replies, attempt + 1);
    BackoffsCons(next.sleeps, attempt);
    Call(next.result, next.requests, [Backoff(attempt)] + next.sleeps)
  }

  /** The `i`-th of `sleeps` is the back-off of attempt `attempt + i`. */
  predicate BackoffsFrom(sleeps: seq<real>, attempt: nat)
    requires attempt >= 1
  {
    forall i :: 0 <= i < |sleeps| ==> sleeps[i] == Backoff(attempt + i)
  }

  /** Sleeping one attempt's back-off before the pauses of the attempts after it. */
  lemma BackoffsCons(sleeps: seq<real>, attempt: nat)
    requires attempt >= 1 && BackoffsFrom(sleeps, attempt + 1)
    ensures BackoffsFrom([Backoff(attempt)] + sleeps, attempt)
  {
    var all := [Backoff(attempt)] + sleeps;
    forall i | 0 < i < |all|
      ensures all[i] == Backoff(attempt + i)
    {
      assert all[i] == sleeps[i - 1];
    }
  }

  /** When every request fails transiently the call makes five and sleeps 1, 2, 4 and 8 seconds. */
  lemma AllTransient(key: string, replies: nat -> Reply)
    requires key != ""
    requires forall k :: 1 <= k <= Config.MAX_RETRIES ==> Transient(replies(k))
    ensures CallVisionOcr(Some(key), replies).requests == Config.MAX_RETRIES
    ensures CallVisionOcr(Some(key), replies).sleeps == [1.0, 2.0, 4.0, 8.0]
    ensures CallVisionOcr(Some(key), replies).result.Failed?
  {
    var c := CallVisionOcr(Some(key), replies);
    assert Pow2(3) == 8.0 by {
      assert Pow2(1) == 2.0;
    }
  }

  /** A 403 ends the call at once, naming only the key's first four characters. */
  lemma RateLimitStops(key: string, replies: nat -> Reply)
    requires key != ""
    requires replies(1).Http? && replies(1).status == 403
    ensures CallVisionOcr(Some(key), replies) == Call(Failed(RateLimitMessage(key)), 1, [])
  {
    var c := CallVisionOcr(Some(key), replies);
    assert c.requests == 1;
  }

  // ---------------------------------------------------------------------------
  // One frame, and the batch over the sampled frames

  /**
   * The crop rule of `process_score_frames`: frames before second 40 show
   * the intro card and are read whole; the ticker of every later frame, and
   * of a file whose name carries no frame number, is cropped.
   */
  function DoCrop(name: string): bool {
    match VideoProcessing.FrameNumber(name)
    case None => true
    case Some(n) => !((n as real) / (Config.FRAME_RATE as real) < 40.0)
  }

  /** At one frame a second, a frame is cropped exactly from frame number 40 on. */
  lemma DoCropRule(name: string)
    ensures DoCrop(name) <==> VideoProcessing.FrameNumber(name).None? || VideoProcessing.FrameNumber(name).value >= 40
  {
  }

  /**
   * For a plain `frame_<d>.jpg` the crop rule looks at the number in the name,
   * not at the frame index the other stages use (the number minus one).
   */
  lemma DoCropOfFrameName(d: string)
    requires |d| > 0 && AllDigits(d)
    ensures DoCrop("frame_" + d + ".jpg") <==> VideoProcessing.FrameIndexFromName("frame_" + d + ".jpg") >= 39
  {
    VideoProcessing.FrameNumberOfToken(d);
    VideoProcessing.FrameIndexOfDigits(d);
    DoCropRule("frame_" + d + ".jpg");
  }

  /** What `analyze_score_frame` returns for one frame. */
  datatype FrameAnalysis =
    | Analyzed(ocrText: string, parsed: ScoreRecord)  // `{"ocr_text": t, "parsed": p, "error": None}`
    | AnalysisFailed(error: string)                  // `{"error": e, "ocr_text": None, "parsed": None}`

  /**
   * `analyze_score_frame`: `loadError` is the message of the exception that
   * opening, cropping or encoding the image raised, if any; `replies` is the
   * OCR service's answer to the image that was sent.
   */
  function AnalyzeScoreFrame(loadError: Option<string>, key: Option<string>, replies: nat -> Reply): (a: FrameAnalysis)
    ensures loadError.Some? ==> a == AnalysisFailed(loadError.value)
    ensures loadError.None? && CallVisionOcr(key, replies).result.Failed? ==>
              a == AnalysisFailed(CallVisionOcr(key, replies).result.error)
    ensures loadError.None? && CallVisionOcr(key, replies).result.Recognized? ==>
              && a.Analyzed?
              && a.ocrText == CallVisionOcr(key, replies).result.text
              && a.parsed == ParseScoreText(Some(a.ocrText))
  {
    RecognizedIsStripped(key, replies);
    AnalysisOf(loadError, CallVisionOcr(key, replies).result)
  }

  /** The analysis of a frame whose image loaded with `loadError` and whose service result is `result`. */
  function AnalysisOf(loadError: Option<string>, result: OcrResult): (a: FrameAnalysis)
    requires result.Recognized? ==> Strip(result.text) == result.text
    ensures loadError.Some? ==> a == AnalysisFailed(loadError.value)
    ensures loadError.None? && result.Failed? ==> a == AnalysisFailed(result.error)
    ensures loadError.None? && result.Recognized? ==>
              a.Analyzed? && a.ocrText == result.text && a.parsed == ParseScoreText(Some(a.ocrText))
  {
    if loadError.Some? then AnalysisFailed(loadError.value)
    else
      match result
      case Failed(e) => AnalysisFailed(e)
      case Recognized(t) =>
        var text := if t != "" then Strip(t) else "";
        Analyzed(text, ParseScoreText(Some(text)))
  }

  /** The service's text comes back already stripped, so stripping it again changes nothing. */
  lemma RecognizedIsStripped(key: Option<string>, replies: nat -> Reply)
    ensures CallVisionOcr(key, replies).result.Recognized? ==>
              Strip(CallVisionOcr(key, replies).result.text) == CallVisionOcr(key, replies).result.text
  {
    var c := CallVisionOcr(key, replies);
    if c.result.Recognized? {
      var t := c.result.text;
      assert key.GetOr("") != "";
      var r := replies(c.requests);
      assert t == Strip(Join(r.json.value.parsedTexts, "\n"));
      StripNoop(t);
    }
  }

  /** One entry of the batch: the frame's file name and what its analysis returned. */
  datatype ScoreEntry = ScoreEntry(frame: string, analysis: FrameAnalysis)

  /**
   * `process_score_frames` for a frame directory whose entries are `listing`:
   * the first configured key reads every sampled frame, with the crop rule
   * deciding what `service` is shown; `load` gives each frame's image error.
   */
  method ProcessScoreFrames(
    listing: seq<string>, keys: seq<string>,
    load: string -> Option<string>, service: (string, bool) -> (nat -> Reply))
    returns (results: seq<ScoreEntry>)
    ensures |keys| == 0 || keys[0] == "" ==> results == []
    ensures |keys| > 0 && keys[0] != "" ==>
              var frames := VideoProcessing.SampledFrames(listing, Config.FRAME_SUBSAMPLE);
              && |results| == |frames|
              && forall i :: 0 <= i < |results| ==>
                   && results[i].frame == frames[i]
                   && results[i].analysis == AnalyzeScoreFrame(load(frames[i]), Some(keys[0]), service(frames[i], DoCrop(frames[i])))
  {
    var frames := VideoProcessing.SampledFrames(listing, Config.FRAME_SUBSAMPLE);
    if |keys| == 0 || keys[0] == "" {
      return [];
    }
    results := AnalyzeFrames(frames, keys[0], load, service);
  }

  /** The loop over the sampled frames, one entry per frame in order. */
  method AnalyzeFrames(frames: seq<string>, key: string,
                       load: string -> Option<string>, service: (string, bool) -> (nat -> Reply))
    returns (results: seq<ScoreEntry>)
    ensures |results| == |frames|
    ensures forall i :: 0 <= i < |results| ==>
              && results[i].frame == frames[i]
              && results[i].analysis == AnalyzeScoreFrame(load(frames[i]), Some(key), service(frames[i], DoCrop(frames[i])))
  {
    results := seq(|frames|, j requires 0 <= j < |frames| => EntryOf(frames[j], key, load, service));
  }

  /** The batch entry of one frame. */
  function EntryOf(frame: string, key: string,
                   load: string -> Option<string>, service: (string, bool) -> (nat -> Reply)): (e: ScoreEntry)
    ensures e.frame == frame
    ensures e.analysis == AnalyzeScoreFrame(load(frame), Some(key), service(frame, DoCrop(frame)))
  {
    ScoreEntry(frame, AnalyzeScoreFrame(load(frame), Some(key), service(frame, DoCrop(frame))))
  }

  /** With the configured key list the batch always runs: it is never empty and its first key never "". */
  lemma ConfiguredKeysRun(primaryEnv: Option<string>, secondaryEnv: Option<string>)
    ensures var keys := Config.OcrKeys(primaryEnv, secondaryEnv);
            |keys| > 0 && keys[0] != ""
  {
  }
}
