/**
 The bracket scanners of `style/gwclint.py`: the two line scanners with their stack of tentative
 angle brackets, the two scanners over many lines, and the extractor of the text in brackets.
 */
module BracketScan {
  import opened Sequences
  import opened Brackets
  import opened Characters
  import opened Options

  type Lines = seq<string>

  // ---- The look-behinds, as the regular expressions of the source read ----

  function TrimRight(s: string): (t: string)
    ensures t != s ==> s != [] && IsSpace(s[|s| - 1])
  {
    if s != [] && IsSpace(s[|s| - 1]) then TrimRight(s[..|s| - 1]) else s
  }

  // The word `w`, then nothing but white space, at the end of `s`.
  predicate EndsWithWord(s: string, w: string) {
    var t := TrimRight(s);
    var n := |t| - |w|;
    n >= 0 && t[n..] == w && (n == 0 || !IsWordChar(t[n - 1]))
  }

  predicate EndsWithOperator(s: string) {
    EndsWithWord(s, "operator")
  }

  // A free-standing `>=` one character into `s`.
  predicate StartsWithSpacedGe(s: string) {
    |s| >= 4 && IsSpace(s[0]) && s[1] == '>' && s[2] == '=' && IsSpace(s[3])
  }

  // ---- The forward scan of one line ----

  // Pending angle brackets are taken off the top of the stack.
  function Strip(s: Stack, angle: char): Stack {
    if s != [] && Top(s) == angle then Strip(Pop(s), angle) else s
  }

  predicate NamesOperator(line: string, i: nat)
    requires i < |line|
  {
    i > 0 && EndsWithOperator(line[..i])
  }

  predicate ForwardSkips(line: string, i: nat)
    requires i < |line|
  {
    i > 0 && (line[i - 1] == '-' || EndsWithOperator(line[..i - 1]))
  }

  // One character of the scan: the end, just past the match; or failure; or the stack from there on.
  function EndStep(line: string, i: nat, stack: Stack): Outcome
    requires i < |line|
  {
    var c := line[i];
    if IsOpen(c) then Unclosed(stack + [c])
    else if c == '<' then
      if i > 0 && line[i - 1] == '<' then
        if stack != [] && Top(stack) == '<' then
          if |stack| == 1 then Mismatch else Unclosed(Pop(stack))
        else Unclosed(stack)
      else if NamesOperator(line, i) then Unclosed(stack)
      else Unclosed(stack + ['<'])
    else if IsClose(c) then
      var s := Strip(stack, '<');
      if s == [] || Top(s) != Mate(c) then Mismatch
      else if |s| == 1 then Found(i + 1)
      else Unclosed(Pop(s))
    else if c == '>' then
      if ForwardSkips(line, i) || stack == [] || Top(stack) != '<' then Unclosed(stack)
      else if |stack| == 1 then Found(i + 1)
      else Unclosed(Pop(stack))
    else if c == ';' then
      var s := Strip(stack, '<');
      if s == [] then Mismatch else Unclosed(s)
    else Unclosed(stack)
  }

  // The scan from `i` on, as a function.
  function EndInLine(line: string, i: nat, stack: Stack): Outcome
    requires i <= |line|
    decreases |line| - i
  {
    if i == |line| then Unclosed(stack)
    else
      var o := EndStep(line, i, stack);
      if o.Unclosed? then EndInLine(line, i + 1, o.stack) else o
  }

  method StripAngles(stack: Stack, angle: char) returns (s: Stack)
    ensures s == Strip(stack, angle)
  {
    s := stack;
    while s != [] && Top(s) == angle
      invariant Strip(s, angle) == Strip(stack, angle)
      decreases |s|
    {
      s := Pop(s);
    }
  }

  method FindEndOfExpressionInLine(line: string, start: nat, stack: Stack) returns (o: Outcome)
    requires start <= |line|
    ensures o == EndInLine(line, start, stack)
  {
    var st := stack;
    for i := start to |line|
      invariant EndInLine(line, i, st) == EndInLine(line, start, stack)
    {
      var c := line[i];
      if IsOpen(c) {
        st := st + [c];
      } else if c == '<' {
        if i > 0 && line[i - 1] == '<' {
          if st != [] && Top(st) == '<' {
            st := Pop(st);
            if st == [] {
              return Mismatch;
            }
          }
        } else if i > 0 && EndsWithOperator(line[..i]) {
          continue;
        } else {
          st := st + ['<'];
        }
      } else if IsClose(c) {
        st := StripAngles(st, '<');
        if st == [] {
          return Mismatch;
        }
        if (Top(st) == '(' && c == ')') || (Top(st) == '[' && c == ']') || (Top(st) == '{' && c == '}') {
          st := Pop(st);
          if st == [] {
            return Found(i + 1);
          }
        } else {
          return Mismatch;
        }
      } else if c == '>' {
        if i > 0 && (line[i - 1] == '-' || EndsWithOperator(line[..i - 1])) {
          continue;
        }
        if st != [] && Top(st) == '<' {
          st := Pop(st);
          if st == [] {
            return Found(i + 1);
          }
        }
      } else if c == ';' {
        st := StripAngles(st, '<');
        if st == [] {
          return Mismatch;
        }
      }
    }
    o := Unclosed(st);
  }

  // ---- The backward scan of one line ----

  predicate BackwardSkips(line: string, i: nat)
    requires i < |line|
  {
    i > 0 && (line[i - 1] == '-' || StartsWithSpacedGe(line[i - 1..]) || EndsWithOperator(line[..i]))
  }

  // Whether the scan jumps over the character before `i` as well.
  predicate BackwardJumps(line: string, i: nat)
    requires i < |line|
  {
    (line[i] == '>' && BackwardSkips(line, i)) || (line[i] == '<' && i > 0 && line[i - 1] == '<')
  }

  // One character of the scan, if it does not jump; `Found` carries the position of the match.
  function StartStep(line: string, i: nat, stack: Stack): Outcome
    requires i < |line|
  {
    var c := line[i];
    if IsClose(c) || c == '>' then Unclosed(stack + [c])
    else if c == '<' then
      if stack == [] || Top(stack) != '>' then Unclosed(stack)
      else if |stack| == 1 then Found(i)
      else Unclosed(Pop(stack))
    else if IsOpen(c) then
      var s := Strip(stack, '>');
      if s == [] || Top(s) != Mate(c) then Mismatch
      else if |s| == 1 then Found(i)
      else Unclosed(Pop(s))
    else if c == ';' then
      var s := Strip(stack, '>');
      if s == [] then Mismatch else Unclosed(s)
    else Unclosed(stack)
  }

  // The scan from `k - 1` down, as a function.
  function StartInLine(line: string, k: nat, stack: Stack): Outcome
    requires k <= |line|
  {
    if k == 0 then Unclosed(stack)
    else if BackwardJumps(line, k - 1) then StartInLine(line, k - 2, stack)
    else
      var o := StartStep(line, k - 1, stack);
      if o.Unclosed? then StartInLine(line, k - 1, o.stack) else o
  }

  method FindStartOfExpressionInLine(line: string, end: int, stack: Stack) returns (o: Outcome)
    requires -1 <= end < |line|
    ensures o == StartInLine(line, end + 1, stack)
  {
    var st := stack;
    var i := end;
    while i >= 0
      invariant -1 <= i <= end
      invariant StartInLine(line, i + 1, st) == StartInLine(line, end + 1, stack)
    {
      var c := line[i];
      if IsClose(c) {
        st := st + [c];
      } else if c == '>' {
        if i > 0 && (line[i - 1] == '-' || StartsWithSpacedGe(line[i - 1..]) || EndsWithOperator(line[..i])) {
          i := i - 1;
        } else {
          st := st + ['>'];
        }
      } else if c == '<' {
        if i > 0 && line[i - 1] == '<' {
          i := i - 1;
        } else if st != [] && Top(st) == '>' {
          st := Pop(st);
          if st == [] {
            return Found(i);
          }
        }
      } else if IsOpen(c) {
        st := StripAngles(st, '>');
        if st == [] {
          return Mismatch;
        }
        if (c == '(' && Top(st) == ')') || (c == '[' && Top(st) == ']') || (c == '{' && Top(st) == '}') {
          st := Pop(st);
          if st == [] {
            return Found(i);
          }
        } else {
          return Mismatch;
        }
      } else if c == ';' {
        st := StripAngles(st, '>');
        if st == [] {
          return Mismatch;
        }
      }
      i := i - 1;
    }
    o := Unclosed(st);
  }

  // ---- The scans over many lines ----

  datatype Place = Place(line: int, col: int)

  function CloseFrom(lines: Lines, n: nat, o: Outcome): Place
    requires n < |lines|
    decreases |lines| - n
  {
    if o.Found? then Place(n, o.pos)
    else if o.Unclosed? && o.stack != [] && n < |lines| - 1 then
      CloseFrom(lines, n + 1, EndInLine(lines[n + 1], 0, o.stack))
    else Place(|lines|, -1)
  }

  function OpenFrom(lines: Lines, n: nat, o: Outcome): Place
    requires n < |lines|
  {
    if o.Found? then Place(n, o.pos)
    else if o.Unclosed? && o.stack != [] && n > 0 then
      OpenFrom(lines, n - 1, StartInLine(lines[n - 1], |lines[n - 1]|, o.stack))
    else Place(0, -1)
  }

  predicate IsShiftOrLe(line: string, pos: nat)
    requires pos < |line|
  {
    line[pos] == '<' && pos + 1 < |line| && (line[pos + 1] == '<' || line[pos + 1] == '=')
  }

  function Close(lines: Lines, n: nat, pos: nat): Place
    requires n < |lines| && pos < |lines[n]|
  {
    var c := lines[n][pos];
    if !(IsOpen(c) || c == '<') || IsShiftOrLe(lines[n], pos) then Place(|lines|, -1)
    else CloseFrom(lines, n, EndInLine(lines[n], pos, []))
  }

  function ReverseClose(lines: Lines, n: nat, pos: nat): Place
    requires n < |lines| && pos < |lines[n]|
  {
    var c := lines[n][pos];
    if !(IsClose(c) || c == '>') then Place(0, -1)
    else OpenFrom(lines, n, StartInLine(lines[n], pos + 1, []))
  }

  method CloseExpression(lines: Lines, linenum: nat, pos: nat) returns (line: string, place: Place)
    requires linenum < |lines| && pos < |lines[linenum]|
    ensures place == Close(lines, linenum, pos)
    ensures place.line < |lines| ==> 0 <= place.line && line == lines[place.line]
  {
    line := lines[linenum];
    if !(line[pos] in "({[<") || IsShiftOrLe(line, pos) {
      return line, Place(|lines|, -1);
    }
    var o := FindEndOfExpressionInLine(line, pos, []);
    if o.Found? {
      return line, Place(linenum, o.pos);
    }
    var n := linenum;
    while o.Unclosed? && o.stack != [] && n < |lines| - 1
      invariant linenum <= n < |lines| && !o.Found?
      invariant CloseFrom(lines, n, o) == Close(lines, linenum, pos)
      decreases |lines| - n
    {
      n := n + 1;
      line := lines[n];
      o := FindEndOfExpressionInLine(line, 0, o.stack);
      if o.Found? {
        return line, Place(n, o.pos);
      }
    }
    place := Place(|lines|, -1);
  }

  method ReverseCloseExpression(lines: Lines, linenum: nat, pos: nat) returns (line: string, place: Place)
    requires linenum < |lines| && pos < |lines[linenum]|
    ensures place == ReverseClose(lines, linenum, pos)
    ensures place.col >= 0 ==> 0 <= place.line < |lines| && line == lines[place.line]
  {
    line := lines[linenum];
    if !(line[pos] in ")}]>") {
      return line, Place(0, -1);
    }
    var o := FindStartOfExpressionInLine(line, pos, []);
    if o.Found? {
      return line, Place(linenum, o.pos);
    }
    var n := linenum;
    while o.Unclosed? && o.stack != [] && n > 0
      invariant n <= linenum && !o.Found?
      invariant OpenFrom(lines, n, o) == ReverseClose(lines, linenum, pos)
      decreases n
    {
      n := n - 1;
      line := lines[n];
      o := FindStartOfExpressionInLine(line, |line| - 1, o.stack);
      if o.Found? {
        return line, Place(n, o.pos);
      }
    }
    place := Place(0, -1);
  }

  // ---- The text in brackets ----

  // What stands between the opening bracket just before `start` and its match.
  function Inside(text: string, start: nat): Option<string>
    requires 0 < start <= |text| && IsOpen(text[start - 1])
  {
    var o := Forward(text, start - 1, []);
    if o.Found? then Some(text[start..o.pos]) else None
  }

  // `start` is the end of the match of the caller's pattern, if there is one.
  method GetTextInside(text: string, start: Option<nat>) returns (inside: Option<string>)
    requires start.Some? ==> 0 < start.value <= |text| && IsOpen(text[start.value - 1])
    ensures inside == if start.None? then None else Inside(text, start.value)
  {
    if start.None? {
      return None;
    }
    var from := start.value;
    var pending := [Mate(text[from - 1])];
    var i := from;
    ghost var openers: Stack := [text[from - 1]];
    ghost var whole := Forward(text, from - 1, []);
    assert [] + [text[from - 1]] == openers;
    while pending != [] && i < |text|
      invariant from <= i <= |text|
      invariant |pending| == |openers|
      invariant forall j | 0 <= j < |openers| :: IsOpen(openers[j]) && pending[j] == Mate(openers[j])
      invariant pending != [] ==> Forward(text, i, openers) == whole
      invariant pending == [] ==> i > from && whole == Found(i - 1)
      decreases |text| - i
    {
      if text[i] == Top(pending) {
        openers := Pop(openers);
        pending := Pop(pending);
      } else if IsClose(text[i]) {
        return None;
      } else if IsOpen(text[i]) {
        openers := openers + [text[i]];
        pending := pending + [Mate(text[i])];
      }
      i := i + 1;
    }
    if pending != [] {
      return None;
    }
    inside := Some(text[from..i - 1]);
  }
}
