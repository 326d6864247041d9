/**
 What the scanners of `BracketScan` find: from a bracket of the six, over any number of lines, the
 plain typed match, whatever angle brackets, semicolons and operators lie between.
 */
module BracketMatching {
  import opened Sequences
  import opened Brackets
  import opened BracketScan
  import opened Characters
  import opened Options

  // ---- Tentative angle brackets leave no trace ----

  // The brackets of a scanner's stack, without its tentative entries.
  function Plain(s: Stack, angle: char): Stack {
    if s == [] then []
    else if Top(s) == angle then Plain(Pop(s), angle)
    else Plain(Pop(s), angle) + [Top(s)]
  }

  // A stack that began with a bracket, not with an angle.
  ghost predicate Based(s: Stack, angle: char) {
    s != [] && s[0] != angle
  }

  lemma PlainPushes(s: Stack, angle: char, c: char)
    ensures Plain(s + [c], angle) == if c == angle then Plain(s, angle) else Plain(s, angle) + [c]
  {
    assert Pop(s + [c]) == s;
  }

  lemma {:induction false} PlainNonEmpty(s: Stack, angle: char)
    requires Based(s, angle)
    ensures Plain(s, angle) != []
  {
    if Top(s) == angle {
      PlainNonEmpty(Pop(s), angle);
    }
  }

  lemma {:induction false} StripKeepsPlain(s: Stack, angle: char)
    requires Based(s, angle)
    ensures var t := Strip(s, angle);
            && Based(t, angle) && Top(t) != angle
            && Plain(s, angle) == Plain(t, angle) == Plain(Pop(t), angle) + [Top(t)]
            && (|t| > 1 ==> Based(Pop(t), angle) && Plain(Pop(t), angle) != [])
            && (|t| == 1 ==> Plain(Pop(t), angle) == [])
    ensures Top(s) == angle ==> Based(Pop(s), angle) && Plain(s, angle) == Plain(Pop(s), angle)
  {
    if Top(s) == angle {
      StripKeepsPlain(Pop(s), angle);
    } else if |s| > 1 {
      PlainNonEmpty(Pop(s), angle);
    }
  }

  lemma {:induction false} ForwardPasses(text: string, i: nat, j: nat, stack: Stack)
    requires i <= j <= |text| && forall k | i <= k < j :: !IsBracket(text[k])
    ensures Forward(text, i, stack) == Forward(text, j, stack)
    decreases j - i
  {
    if i < j {
      ForwardPasses(text, i + 1, j, stack);
    }
  }

  lemma {:induction false} BackwardPasses(text: string, i: nat, j: nat, stack: Stack)
    requires i <= j <= |text| && forall k | i <= k < j :: !IsBracket(text[k])
    ensures Backward(text, j, stack) == Backward(text, i, stack)
    decreases j - i
  {
    if i < j {
      BackwardPasses(text, i, j - 1, stack);
    }
  }

  // How a line scan from a bracket relates to the plain scan: the same end, up to `skip`.
  ghost predicate Agrees(code: Outcome, plain: Outcome, angle: char, skip: nat) {
    match code
    case Found(p) => p >= skip && plain == Found(p - skip)
    case Mismatch => plain == Mismatch
    case Unclosed(s) => Based(s, angle) && plain == Unclosed(Plain(s, angle))
  }

  // One step of the scanner, told by what the plain scan makes of the rest of the line.
  ghost predicate StepsForward(code: Outcome, line: string, i: nat, plain: Outcome)
    requires i < |line|
  {
    match code
    case Found(p) => p == i + 1 && plain == Found(i)
    case Mismatch => plain == Mismatch
    case Unclosed(s) => Based(s, '<') && plain == Forward(line, i + 1, Plain(s, '<'))
  }

  lemma EndStepIsPlain(line: string, i: nat, stack: Stack)
    requires i < |line| && Based(stack, '<')
    ensures StepsForward(EndStep(line, i, stack), line, i, Forward(line, i, Plain(stack, '<')))
  {
    hide NamesOperator, ForwardSkips;
    var c, o, plain := line[i], EndStep(line, i, stack), Forward(line, i, Plain(stack, '<'));
    if IsOpen(c) {
      PlainPushes(stack, '<', c);
      assert StepsForward(o, line, i, plain);
    } else if IsClose(c) {
      StripKeepsPlain(stack, '<');
      var s := Strip(stack, '<');
      assert Pop(Plain(s, '<')) == Plain(Pop(s), '<');
      hide Plain, Strip;
      assert StepsForward(o, line, i, plain);
    } else {
      assert plain == Forward(line, i + 1, Plain(stack, '<'));
      PlainPushes(stack, '<', c);
      StripKeepsPlain(stack, '<');
      hide Plain, Strip, Forward;
      assert StepsForward(o, line, i, plain);
    }
    hide *;
  }

  lemma {:induction false} EndInLineIsPlain(line: string, i: nat, stack: Stack)
    requires i <= |line| && Based(stack, '<')
    ensures Agrees(EndInLine(line, i, stack), Forward(line, i, Plain(stack, '<')), '<', 1)
    decreases |line| - i
  {
    if i < |line| {
      EndStepIsPlain(line, i, stack);
      var o := EndStep(line, i, stack);
      hide EndStep, Plain, Forward;
      if o.Unclosed? {
        EndInLineIsPlain(line, i + 1, o.stack);
      }
    }
  }

  lemma WordEndsInNoBracket(s: string, w: string)
    requires w != [] && !IsBracket(w[|w| - 1]) && EndsWithWord(s, w)
    ensures s != [] && !IsBracket(s[|s| - 1])
  {
    var t := TrimRight(s);
    hide TrimRight, IsWordChar;
    if t == s {
      assert s[|s| - |w|..][|w| - 1] == s[|s| - 1];
    }
  }

  lemma OperatorEndsInNoBracket(s: string)
    requires EndsWithOperator(s)
    ensures s != [] && !IsBracket(s[|s| - 1])
  {
    hide EndsWithWord;
    assert "operator"[|"operator"| - 1] == 'r';
    WordEndsInNoBracket(s, "operator");
  }

  // A character that the backward scan jumps over is no bracket.
  lemma JumpsOverNoBracket(line: string, i: nat)
    requires i < |line| && BackwardJumps(line, i)
    ensures i > 0
    ensures forall j | i - 1 <= j <= i :: !IsBracket(line[j])
  {
    hide EndsWithOperator;
    if EndsWithOperator(line[..i]) {
      OperatorEndsInNoBracket(line[..i]);
    }
  }

  ghost predicate StepsBackward(code: Outcome, line: string, i: nat, plain: Outcome)
    requires i < |line|
  {
    match code
    case Found(p) => p == i && plain == Found(i)
    case Mismatch => plain == Mismatch
    case Unclosed(s) => Based(s, '>') && plain == Backward(line, i, Plain(s, '>'))
  }

  lemma StartStepIsPlain(line: string, i: nat, stack: Stack)
    requires i < |line| && Based(stack, '>')
    ensures StepsBackward(StartStep(line, i, stack), line, i, Backward(line, i + 1, Plain(stack, '>')))
  {
    PlainPushes(stack, '>', line[i]);
    StripKeepsPlain(stack, '>');
    var s := Strip(stack, '>');
    assert Pop(Plain(s, '>')) == Plain(Pop(s), '>');
    hide Plain, Strip;
  }

  lemma {:induction false} StartInLineIsPlain(line: string, k: nat, stack: Stack)
    requires k <= |line| && Based(stack, '>')
    ensures Agrees(StartInLine(line, k, stack), Backward(line, k, Plain(stack, '>')), '>', 0)
    decreases k
  {
    if k > 0 {
      if BackwardJumps(line, k - 1) {
        JumpsOverNoBracket(line, k - 1);
        BackwardPasses(line, k - 2, k, Plain(stack, '>'));
        hide BackwardJumps, Plain, Backward;
        StartInLineIsPlain(line, k - 2, stack);
      } else {
        StartStepIsPlain(line, k - 1, stack);
        var o := StartStep(line, k - 1, stack);
        hide BackwardJumps, StartStep, Plain, Backward;
        if o.Unclosed? {
          StartInLineIsPlain(line, k - 1, o.stack);
        }
      }
    }
  }

  // ---- The lines as one text ----

  // What separates or ends the lines must hold no brackets: nothing at all, or a line feed.
  ghost predicate Neutral(sep: string) {
    forall i | 0 <= i < |sep| :: !IsBracket(sep[i])
  }

  function Text(lines: Lines, sep: string): string {
    if lines == [] then "" else Text(lines[..|lines| - 1], sep) + lines[|lines| - 1] + sep
  }

  // Where line `n` starts in the text.
  function At(lines: Lines, n: nat, sep: string): nat
    requires n <= |lines|
  {
    |Text(lines[..n], sep)|
  }

  ghost predicate IsAt(lines: Lines, n: int, col: int, sep: string, p: nat) {
    0 <= n < |lines| && 0 <= col < |lines[n]| && p == At(lines, n, sep) + col
  }

  function Rest(lines: Lines, n: nat, sep: string): string
    requires n <= |lines|
    decreases |lines| - n
  {
    if n == |lines| then "" else lines[n] + (sep + Rest(lines, n + 1, sep))
  }

  lemma NextLine(lines: Lines, n: nat, sep: string)
    requires n < |lines|
    ensures Text(lines[..n + 1], sep) == Text(lines[..n], sep) + lines[n] + sep
    ensures At(lines, n + 1, sep) == At(lines, n, sep) + |lines[n]| + |sep|
  {
    var upTo := lines[..n + 1];
    assert upTo[..n] == lines[..n] && upTo[n] == lines[n];
    assert Text(upTo, sep) == Text(upTo[..n], sep) + upTo[n] + sep;
    hide Text;
  }

  lemma {:induction false} TextSplits(lines: Lines, n: nat, sep: string)
    requires n <= |lines|
    ensures Text(lines, sep) == Text(lines[..n], sep) + Rest(lines, n, sep)
    decreases |lines| - n
  {
    if n == |lines| {
      assert lines[..n] == lines;
    } else {
      TextSplits(lines, n + 1, sep);
      NextLine(lines, n, sep);
      var a, l, r := Text(lines[..n], sep), lines[n], Rest(lines, n + 1, sep);
      assert a + l + sep + r == a + (l + (sep + r));
    }
  }

  lemma AroundLine(lines: Lines, n: nat, sep: string) returns (before: string, after: string)
    requires n < |lines|
    ensures Text(lines, sep) == before + (lines[n] + after) && |before| == At(lines, n, sep)
  {
    TextSplits(lines, n, sep);
    before, after := Text(lines[..n], sep), sep + Rest(lines, n + 1, sep);
  }

  // The characters of the text are those of the lines.
  lemma TextHolds(lines: Lines, n: nat, col: nat, sep: string)
    requires n < |lines| && col < |lines[n]|
    ensures At(lines, n, sep) + col < |Text(lines, sep)|
    ensures Text(lines, sep)[At(lines, n, sep) + col] == lines[n][col]
  {
    TextSplits(lines, n, sep);
  }

  lemma {:induction false} AtGrows(lines: Lines, n: nat, m: nat, sep: string)
    requires n < m <= |lines|
    ensures At(lines, n, sep) + |lines[n]| <= At(lines, m, sep)
    decreases m
  {
    NextLine(lines, m - 1, sep);
    if n < m - 1 {
      AtGrows(lines, n, m - 1, sep);
    }
  }

  lemma PlacesDiffer(lines: Lines, n: nat, col: nat, m: nat, q: nat, sep: string, p: nat)
    requires IsAt(lines, n, col, sep, p) && IsAt(lines, m, q, sep, p)
    ensures n == m && col == q
  {
    if n < m {
      AtGrows(lines, n, m, sep);
    } else if m < n {
      AtGrows(lines, m, n, sep);
    }
  }

  // ---- Forward over the lines ----

  lemma ForwardTakenUp(t: string, a: string, l: string, r: string, i: nat, stack: Stack)
    requires i <= |l| && t == a + (l + r)
    ensures var o := Forward(l, i, stack);
            Forward(t, |a| + i, stack) ==
            if o.Unclosed? then Forward(t, |a| + |l|, o.stack) else Shift(o, |a|)
  {
    ForwardShifts(a, l + r, i, stack);
    ForwardSplits(l, r, i, stack);
    var o := Forward(l, i, stack);
    hide Forward;
    if o.Unclosed? {
      ForwardShifts(a, l + r, |l|, o.stack);
    }
  }

  // The plain scan of the text from the start of line `n`.
  function TakenUp(lines: Lines, n: nat, stack: Stack, sep: string): Outcome
    requires n <= |lines|
  {
    TextSplits(lines, n, sep);
    Forward(Text(lines, sep), At(lines, n, sep), stack)
  }

  // The forward scan passes over the end of a line.
  lemma ForwardToNextLine(lines: Lines, n: nat, stack: Stack, sep: string)
    requires n < |lines| && Neutral(sep)
    ensures At(lines, n, sep) + |lines[n]| <= |Text(lines, sep)|
    ensures Forward(Text(lines, sep), At(lines, n, sep) + |lines[n]|, stack) ==
            TakenUp(lines, n + 1, stack, sep)
  {
    TextSplits(lines, n + 1, sep);
    NextLine(lines, n, sep);
    var t, from, to := Text(lines, sep), At(lines, n, sep) + |lines[n]|, At(lines, n + 1, sep);
    forall k | from <= k < to ensures !IsBracket(t[k]) {
      assert t[k] == Text(lines[..n + 1], sep)[k] == sep[k - from];
    }
    ForwardPasses(t, from, to, stack);
  }

  lemma ForwardToLineEnd(lines: Lines, n: nat, i: nat, stack: Stack, sep: string)
    requires n < |lines| && i <= |lines[n]|
    ensures At(lines, n, sep) + |lines[n]| <= |Text(lines, sep)|
    ensures var o := Forward(lines[n], i, stack);
            Forward(Text(lines, sep), At(lines, n, sep) + i, stack) ==
            if o.Unclosed? then Forward(Text(lines, sep), At(lines, n, sep) + |lines[n]|, o.stack)
            else Shift(o, At(lines, n, sep))
  {
    var before, after := AroundLine(lines, n, sep);
    hide Forward, Text;
    ForwardTakenUp(Text(lines, sep), before, lines[n], after, i, stack);
  }

  // The plain scan of the whole text ends in line `n`, or is taken up at line `n + 1`.
  lemma ForwardInLine(lines: Lines, n: nat, i: nat, stack: Stack, sep: string)
    requires n < |lines| && i <= |lines[n]| && Neutral(sep)
    ensures At(lines, n, sep) + i <= |Text(lines, sep)|
    ensures var o := Forward(lines[n], i, stack);
            Forward(Text(lines, sep), At(lines, n, sep) + i, stack) ==
            if o.Unclosed? then TakenUp(lines, n + 1, o.stack, sep) else Shift(o, At(lines, n, sep))
  {
    ForwardToLineEnd(lines, n, i, stack, sep);
    var o := Forward(lines[n], i, stack);
    hide Forward, Text;
    if o.Unclosed? {
      ForwardToNextLine(lines, n, o.stack, sep);
    }
  }

  // The position just past the plain match, or the failure value.
  ghost predicate ClosesAt(lines: Lines, place: Place, plain: Outcome, sep: string) {
    if plain.Found? then IsAt(lines, place.line, place.col - 1, sep, plain.pos)
    else place == Place(|lines|, -1)
  }

  lemma {:induction false} CloseFromIsPlain(lines: Lines, n: nat, i: nat, stack: Stack, sep: string)
    requires n < |lines| && i <= |lines[n]| && Based(stack, '<') && Neutral(sep)
    ensures At(lines, n, sep) + i <= |Text(lines, sep)|
    ensures ClosesAt(lines, CloseFrom(lines, n, EndInLine(lines[n], i, stack)),
                     Forward(Text(lines, sep), At(lines, n, sep) + i, Plain(stack, '<')), sep)
    decreases |lines| - n
  {
    EndInLineIsPlain(lines[n], i, stack);
    ForwardInLine(lines, n, i, Plain(stack, '<'), sep);
    var o := EndInLine(lines[n], i, stack);
    hide EndInLine, Text;
    if o.Unclosed? {
      if n + 1 < |lines| {
        CloseFromIsPlain(lines, n + 1, 0, o.stack, sep);
      } else {
        assert lines[..n + 1] == lines;
      }
    }
  }

  // From an opening bracket, `CloseExpression` ends just past the plain match of that bracket in
  // the concatenated lines, or fails if there is none.
  lemma CloseIsPlainMatch(lines: Lines, n: nat, pos: nat, sep: string)
    requires n < |lines| && pos < |lines[n]| && IsOpen(lines[n][pos]) && Neutral(sep)
    ensures At(lines, n, sep) + pos < |Text(lines, sep)|
    ensures ClosesAt(lines, Close(lines, n, pos),
                     Forward(Text(lines, sep), At(lines, n, sep) + pos, []), sep)
  {
    TextHolds(lines, n, pos, sep);
    var c := lines[n][pos];
    assert [] + [c] == [c] && Pop([c]) == [] && Plain([c], '<') == [c];
    assert EndInLine(lines[n], pos, []) == EndInLine(lines[n], pos + 1, [c]);
    var t, p := Text(lines, sep), At(lines, n, sep) + pos;
    assert Forward(t, p, []) == Forward(t, p + 1, [c]);
    hide Forward, EndInLine, Text;
    CloseFromIsPlain(lines, n, pos + 1, [c], sep);
  }

  // ---- Backward over the lines ----

  lemma BackwardInLine(lines: Lines, n: nat, i: nat, stack: Stack, sep: string)
    requires n < |lines| && i <= |lines[n]| && Neutral(sep)
    ensures At(lines, n, sep) + i <= |Text(lines, sep)|
    ensures var o := Backward(lines[n], i, stack);
            Backward(Text(lines, sep), At(lines, n, sep) + i, stack) ==
            if o.Unclosed? then Backward(Text(lines, sep), At(lines, n, sep), o.stack)
            else Shift(o, At(lines, n, sep))
  {
    var a, r := AroundLine(lines, n, sep);
    BackwardSplits(a, lines[n] + r, i, stack);
    BackwardIgnores(lines[n], r, i, stack);
    var o := Backward(lines[n], i, stack);
    hide *;
    if o.Unclosed? {
      BackwardIgnores(a, lines[n] + r, |a|, o.stack);
    }
  }

  // The backward scan passes over the end of a line.
  lemma BackwardToPreviousLine(lines: Lines, n: nat, stack: Stack, sep: string)
    requires 0 < n <= |lines| && Neutral(sep)
    ensures At(lines, n, sep) <= |Text(lines, sep)|
    ensures At(lines, n - 1, sep) + |lines[n - 1]| <= At(lines, n, sep)
    ensures Backward(Text(lines, sep), At(lines, n, sep), stack) ==
            Backward(Text(lines, sep), At(lines, n - 1, sep) + |lines[n - 1]|, stack)
  {
    TextSplits(lines, n, sep);
    NextLine(lines, n - 1, sep);
    var t, from, to := Text(lines, sep), At(lines, n - 1, sep) + |lines[n - 1]|, At(lines, n, sep);
    forall k | from <= k < to ensures !IsBracket(t[k]) {
      assert t[k] == Text(lines[..n], sep)[k] == sep[k - from];
    }
    BackwardPasses(t, from, to, stack);
  }

  ghost predicate OpensAt(lines: Lines, place: Place, plain: Outcome, sep: string) {
    if plain.Found? then IsAt(lines, place.line, place.col, sep, plain.pos)
    else place == Place(0, -1)
  }

  lemma {:induction false} OpenFromIsPlain(lines: Lines, n: nat, i: nat, stack: Stack, sep: string)
    requires n < |lines| && i <= |lines[n]| && Based(stack, '>') && Neutral(sep)
    ensures At(lines, n, sep) + i <= |Text(lines, sep)|
    ensures OpensAt(lines, OpenFrom(lines, n, StartInLine(lines[n], i, stack)),
                    Backward(Text(lines, sep), At(lines, n, sep) + i, Plain(stack, '>')), sep)
    decreases n
  {
    StartInLineIsPlain(lines[n], i, stack);
    BackwardInLine(lines, n, i, Plain(stack, '>'), sep);
    var o := StartInLine(lines[n], i, stack);
    hide StartInLine;
    if o.Unclosed? {
      if n > 0 {
        BackwardToPreviousLine(lines, n, Plain(o.stack, '>'), sep);
        OpenFromIsPlain(lines, n - 1, |lines[n - 1]|, o.stack, sep);
      } else {
        assert At(lines, 0, sep) == 0;
      }
    }
  }

  // From a closing bracket, `ReverseCloseExpression` ends at the bracket that it matches in the
  // concatenated lines, or fails if there is none.
  lemma ReverseCloseIsPlainMatch(lines: Lines, n: nat, pos: nat, sep: string)
    requires n < |lines| && pos < |lines[n]| && IsClose(lines[n][pos]) && Neutral(sep)
    ensures At(lines, n, sep) + pos < |Text(lines, sep)|
    ensures OpensAt(lines, ReverseClose(lines, n, pos),
                    Backward(Text(lines, sep), At(lines, n, sep) + pos + 1, []), sep)
  {
    TextHolds(lines, n, pos, sep);
    var c := lines[n][pos];
    assert [] + [c] == [c] && Pop([c]) == [] && Plain([c], '>') == [c];
    assert StartInLine(lines[n], pos + 1, []) == StartInLine(lines[n], pos, [c]);
    OpenFromIsPlain(lines, n, pos, [c], sep);
  }

  // ---- The two directions are dual ----

  // From an opening bracket, `CloseExpression` ends just past a closing bracket if and only if
  // `ReverseCloseExpression` from that closing bracket ends at the opening one.
  lemma Duality(lines: Lines, n: nat, pos: nat, m: nat, q: nat)
    requires n < |lines| && pos < |lines[n]| && IsOpen(lines[n][pos])
    requires m < |lines| && q < |lines[m]| && IsClose(lines[m][q])
    ensures Close(lines, n, pos) == Place(m, q + 1) <==> ReverseClose(lines, m, q) == Place(n, pos)
  {
    var sep := "";
    var t := Text(lines, sep);
    var s, e := At(lines, n, sep) + pos, At(lines, m, sep) + q;
    TextHolds(lines, n, pos, sep);
    TextHolds(lines, m, q, sep);
    CloseIsPlainMatch(lines, n, pos, sep);
    ReverseCloseIsPlainMatch(lines, m, q, sep);
    ScansAreDual(t, s, e);
    hide Close, ReverseClose, Text, Forward, Backward;
    var close, open := Close(lines, n, pos), ReverseClose(lines, m, q);
    if Forward(t, s, []) == Found(e) {
      PlacesDiffer(lines, close.line, close.col - 1, m, q, sep, e);
      PlacesDiffer(lines, open.line, open.col, n, pos, sep, s);
    }
  }

  // `CloseExpression` ends just past a closing bracket or not at all.
  lemma CloseEndsAtCloser(lines: Lines, n: nat, pos: nat, m: nat, q: nat)
    requires n < |lines| && pos < |lines[n]| && IsOpen(lines[n][pos])
    requires m < |lines| && Close(lines, n, pos) == Place(m, q + 1)
    ensures q < |lines[m]| && IsClose(lines[m][q])
  {
    CloseIsPlainMatch(lines, n, pos, "");
    TextHolds(lines, m, q, "");
  }

  // ---- Where duality ends: a backward start at `>` ----

  // Where the backward scan of a line with nothing pending first finds something to match.
  function Resume(line: string, k: nat): (r: Option<nat>)
    requires k <= |line|
    ensures r.Some? ==> r.value < k && (IsClose(line[r.value]) || line[r.value] == '>')
  {
    if k == 0 then None
    else
      var i := k - 1;
      if BackwardJumps(line, i) then Resume(line, i - 1)
      else if IsClose(line[i]) || line[i] == '>' then Some(i)
      else if IsOpen(line[i]) || line[i] == ';' then None
      else Resume(line, i)
  }

  lemma {:induction false} StartResumes(line: string, k: nat)
    requires k <= |line|
    ensures match Resume(line, k)
            case Some(j) => StartInLine(line, k, []) == StartInLine(line, j, [line[j]])
            case None => StartInLine(line, k, []) in {Mismatch, Unclosed([])}
  {
    hide BackwardSkips;
    if k > 0 {
      assert [] + [line[k - 1]] == [line[k - 1]];
      if BackwardJumps(line, k - 1) {
        JumpsOverNoBracket(line, k - 1);
        StartResumes(line, k - 2);
      } else {
        StartResumes(line, k - 1);
      }
    }
  }

  // Above a `>` that waits for its `<`, nothing but that `<` ends the scan.
  lemma {:induction false} AngleFindsAngle(line: string, k: nat, stack: Stack)
    requires k <= |line| && stack != [] && stack[0] == '>'
    ensures match StartInLine(line, k, stack)
            case Found(p) => p < |line| && line[p] == '<'
            case Mismatch => true
            case Unclosed(s) => s != [] && s[0] == '>'
    decreases k
  {
    hide BackwardJumps;
    if k > 0 {
      if BackwardJumps(line, k - 1) {
        JumpsOverNoBracket(line, k - 1);
        AngleFindsAngle(line, k - 2, stack);
      } else {
        StripFromAngle(stack);
        var o := StartStep(line, k - 1, stack);
        if o.Unclosed? {
          AngleFindsAngle(line, k - 1, o.stack);
        }
      }
    }
  }

  lemma {:induction false} StripFromAngle(stack: Stack)
    requires stack != [] && stack[0] == '>'
    ensures var s := Strip(stack, '>'); s != [] ==> |s| > 1 && s[0] == '>'
  {
    if Top(stack) == '>' && |stack| > 1 {
      StripFromAngle(Pop(stack));
    }
  }

  lemma {:induction false} AngleOpensAtAngle(lines: Lines, n: nat, k: nat, stack: Stack)
    requires n < |lines| && k <= |lines[n]| && stack != [] && stack[0] == '>'
    ensures var r := OpenFrom(lines, n, StartInLine(lines[n], k, stack));
            r == Place(0, -1) ||
            (0 <= r.line < |lines| && 0 <= r.col < |lines[r.line]| && lines[r.line][r.col] == '<')
    decreases n
  {
    AngleFindsAngle(lines[n], k, stack);
    var o := StartInLine(lines[n], k, stack);
    if o.Unclosed? && n > 0 {
      AngleOpensAtAngle(lines, n - 1, |lines[n - 1]|, o.stack);
    }
  }

  // A backward scan from a `>` that is no template bracket goes on without it, and so reports the
  // plain match of an earlier closing bracket of the same line, if that has one.
  ghost predicate EchoesEarlierMatch(lines: Lines, m: nat, q: nat)
    requires m < |lines| && q < |lines[m]|
  {
    lines[m][q] == '>' &&
    var j := Resume(lines[m], q + 1);
    j.Some? && IsClose(lines[m][j.value]) &&
    (TextHolds(lines, m, j.value, "");
     Backward(Text(lines, ""), At(lines, m, "") + j.value + 1, []).Found?)
  }

  lemma ReverseFromAngle(lines: Lines, m: nat, q: nat)
    requires m < |lines| && q < |lines[m]| && lines[m][q] == '>'
    ensures var r := ReverseClose(lines, m, q);
            var j := Resume(lines[m], q + 1);
            if j.Some? && IsClose(lines[m][j.value]) then r == ReverseClose(lines, m, j.value)
            else r == Place(0, -1) ||
                 (0 <= r.line < |lines| && 0 <= r.col < |lines[r.line]| && lines[r.line][r.col] == '<')
  {
    var line := lines[m];
    StartResumes(line, q + 1);
    var j := Resume(line, q + 1);
    if j.Some? {
      if IsClose(line[j.value]) {
        assert [] + [line[j.value]] == [line[j.value]];
      } else {
        AngleOpensAtAngle(lines, m, j.value, [line[j.value]]);
      }
    }
  }

  ghost predicate DualAt(lines: Lines, m: nat, q: nat)
    requires m < |lines| && q < |lines[m]|
  {
    forall n: nat, pos: nat | n < |lines| && pos < |lines[n]| && IsOpen(lines[n][pos]) ::
      Close(lines, n, pos) == Place(m, q + 1) <==> ReverseClose(lines, m, q) == Place(n, pos)
  }

  // At any position whatever, the two directions agree on the brackets that they pair with it,
  // unless a `>` there makes the backward scan report an earlier pair.
  lemma DualExactly(lines: Lines, m: nat, q: nat)
    requires m < |lines| && q < |lines[m]|
    ensures DualAt(lines, m, q) <==> !EchoesEarlierMatch(lines, m, q)
  {
    var c := lines[m][q];
    if EchoesEarlierMatch(lines, m, q) {
      NotDual(lines, m, q);
    } else {
      forall n: nat, pos: nat | n < |lines| && pos < |lines[n]| && IsOpen(lines[n][pos])
        ensures Close(lines, n, pos) == Place(m, q + 1) <==> ReverseClose(lines, m, q) == Place(n, pos)
      {
        if IsClose(c) {
          Duality(lines, n, pos, m, q);
        } else {
          if Close(lines, n, pos) == Place(m, q + 1) {
            CloseEndsAtCloser(lines, n, pos, m, q);
          }
          if c == '>' {
            NoEcho(lines, m, q);
          }
        }
      }
    }
  }

  // Without an earlier match the scan from a `>` ends at a `<` or fails.
  lemma NoEcho(lines: Lines, m: nat, q: nat)
    requires m < |lines| && q < |lines[m]| && lines[m][q] == '>' && !EchoesEarlierMatch(lines, m, q)
    ensures var r := ReverseClose(lines, m, q);
            r == Place(0, -1) ||
            (0 <= r.line < |lines| && 0 <= r.col < |lines[r.line]| && lines[r.line][r.col] == '<')
  {
    ReverseFromAngle(lines, m, q);
    var j := Resume(lines[m], q + 1);
    if j.Some? && IsClose(lines[m][j.value]) {
      ReverseCloseIsPlainMatch(lines, m, j.value, "");
    }
  }

  // The arrow of a member access after a call: `ReverseCloseExpression` from its `>` reports the
  // parenthesis, though `CloseExpression` from there ends at the `)`.
  lemma ArrowEchoes()
    ensures var lines := ["(a)->"];
            && EchoesEarlierMatch(lines, 0, 4) && !DualAt(lines, 0, 4)
            && ReverseClose(lines, 0, 4) == Place(0, 0) && Close(lines, 0, 0) == Place(0, 3)
  {
    ArrowScans();
    hide *;
    EchoOf("(a)->");
  }

  lemma EchoOf(line: string)
    requires |line| == 5 && line[0] == '(' && line[2] == ')' && line[4] == '>' && Resume(line, 5) == Some(2)
    requires Backward(line, 3, []) == Found(0) && Forward(line, 0, []) == Found(2)
    ensures EchoesEarlierMatch([line], 0, 4) && !DualAt([line], 0, 4)
    ensures ReverseClose([line], 0, 4) == Place(0, 0) && Close([line], 0, 0) == Place(0, 3)
  {
    OneLine(line);
    ReverseFromAngle([line], 0, 4);
    ReverseCloseIsPlainMatch([line], 0, 2, "");
    CloseIsPlainMatch([line], 0, 0, "");
    hide Close, ReverseClose, Resume, Forward, Backward, Text, At, Neutral, DualAt;
    NotDual([line], 0, 4);
  }

  lemma OneLine(line: string)
    ensures Text([line], "") == line && At([line], 0, "") == 0
  {
    assert [line][..0] == [] && Text([], "") == "";
  }

  lemma ArrowScans()
    ensures Resume("(a)->", 5) == Some(2)
    ensures Backward("(a)->", 3, []) == Found(0) && Forward("(a)->", 0, []) == Found(2)
  {
    var line := "(a)->";
    assert BackwardJumps(line, 4);
    assert [] + [')'] == [')'] && [] + ['('] == ['('];
    assert Backward(line, 3, []) == Backward(line, 2, [')']) == Backward(line, 1, [')']) == Found(0);
    assert Forward(line, 0, []) == Forward(line, 1, ['(']) == Forward(line, 2, ['(']) == Found(2);
  }

  lemma NotDual(lines: Lines, m: nat, q: nat)
    requires m < |lines| && q < |lines[m]| && EchoesEarlierMatch(lines, m, q)
    ensures !DualAt(lines, m, q)
  {
    var j := Resume(lines[m], q + 1).value;
    ReverseFromAngle(lines, m, q);
    ReverseCloseIsPlainMatch(lines, m, j, "");
    var r := ReverseClose(lines, m, q);
    TextHolds(lines, r.line, r.col, "");
    if Close(lines, r.line, r.col) == Place(m, q + 1) {
      CloseEndsAtCloser(lines, r.line, r.col, m, q);
    }
  }

  // ---- The text in brackets ----

  // `GetTextInside` gives the text up to the position where `CloseExpression` ends, over any
  // number of lines, and nothing when `CloseExpression` fails.
  lemma InsideIsClosed(lines: Lines, n: nat, pos: nat, sep: string)
    requires n < |lines| && pos < |lines[n]| && IsOpen(lines[n][pos]) && Neutral(sep)
    ensures var t, s, place := Text(lines, sep), At(lines, n, sep) + pos, Close(lines, n, pos);
            && s < |t| && IsOpen(t[s])
            && match Inside(t, s + 1)
               case None => place == Place(|lines|, -1)
               case Some(inside) => IsAt(lines, place.line, place.col - 1, sep, s + 1 + |inside|)
                                    && inside <= t[s + 1..]
  {
    TextHolds(lines, n, pos, sep);
    CloseIsPlainMatch(lines, n, pos, sep);
    hide Close, Text;
  }

  // The same on one text.
  lemma InsideIsClosedOnOneText(text: string, pos: nat)
    requires pos < |text| && IsOpen(text[pos])
    ensures var place := Close([text], 0, pos);
            match Inside(text, pos + 1)
            case None => place == Place(1, -1)
            case Some(inside) => place == Place(0, pos + |inside| + 2)
                                 && pos + 1 + |inside| < |text| && inside == text[pos + 1..pos + 1 + |inside|]
  {
    var lines := [text];
    assert lines[..0] == [] && Text([], "") == "" && Text(lines, "") == text;
    InsideIsClosed(lines, 0, pos, "");
  }
}
