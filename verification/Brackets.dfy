/**
 Matching of typed brackets, forwards and backwards, as plain functions on one text: the reference
 that the scanners of `style/gwclint.py` are measured against.
 */
module Brackets {
  import opened Sequences
  import opened Options

  predicate IsOpen(c: char) { c == '(' || c == '[' || c == '{' }

  predicate IsClose(c: char) { c == ')' || c == ']' || c == '}' }

  predicate IsBracket(c: char) { IsOpen(c) || IsClose(c) }

  function Mate(c: char): char {
    match c
    case '(' => ')'
    case '[' => ']'
    case '{' => '}'
    case ')' => '('
    case ']' => '['
    case '}' => '{'
    case _ => c
  }

  type Stack = seq<char>

  // How a scan ends: at a position, at a mismatch, or at the end of the text with brackets left.
  datatype Outcome = Found(pos: nat) | Mismatch | Unclosed(stack: Stack)

  // The match of the innermost bracket of `stack`'s bottom, scanning `text` from `i` on. Every
  // character but the six brackets is passed over.
  function Forward(text: string, i: nat, stack: Stack): (o: Outcome)
    requires i <= |text|
    ensures o.Found? ==> i <= o.pos < |text| && IsClose(text[o.pos])
    decreases |text| - i
  {
    if i == |text| then Unclosed(stack)
    else if IsOpen(text[i]) then Forward(text, i + 1, stack + [text[i]])
    else if IsClose(text[i]) then
      if stack == [] || Mate(text[i]) != Top(stack) then Mismatch
      else if |stack| == 1 then Found(i)
      else Forward(text, i + 1, Pop(stack))
    else Forward(text, i + 1, stack)
  }

  // The same from `i - 1` down to 0; the roles of the brackets are exchanged.
  function Backward(text: string, i: nat, stack: Stack): (o: Outcome)
    requires i <= |text|
    ensures o.Found? ==> o.pos < i && IsOpen(text[o.pos])
  {
    if i == 0 then Unclosed(stack)
    else if IsClose(text[i - 1]) then Backward(text, i - 1, stack + [text[i - 1]])
    else if IsOpen(text[i - 1]) then
      if stack == [] || Mate(text[i - 1]) != Top(stack) then Mismatch
      else if |stack| == 1 then Found(i - 1)
      else Backward(text, i - 1, Pop(stack))
    else Backward(text, i - 1, stack)
  }

  // ---- What a match is ----

  // The stack that `text[i..j]` leaves on top of `stack`, if it never goes below what is there.
  function Run(text: string, i: nat, j: nat, stack: Stack): Option<Stack>
    requires i <= j <= |text|
    decreases j - i
  {
    if i == j then Some(stack)
    else if IsOpen(text[i]) then Run(text, i + 1, j, stack + [text[i]])
    else if IsClose(text[i]) then
      if stack == [] || Mate(text[i]) != Top(stack) then None else Run(text, i + 1, j, Pop(stack))
    else Run(text, i + 1, j, stack)
  }

  function RunBack(text: string, i: nat, j: nat, stack: Stack): Option<Stack>
    requires i <= j <= |text|
    decreases j - i
  {
    if i == j then Some(stack)
    else if IsClose(text[j - 1]) then RunBack(text, i, j - 1, stack + [text[j - 1]])
    else if IsOpen(text[j - 1]) then
      if stack == [] || Mate(text[j - 1]) != Top(stack) then None else RunBack(text, i, j - 1, Pop(stack))
    else RunBack(text, i, j - 1, stack)
  }

  // `text[s..e + 1]` is a bracketed expression: it opens at `s`, closes with the mate at `e`, and
  // what is between is balanced.
  predicate IsMatch(text: string, s: nat, e: nat)
    requires s < |text| && e < |text|
  {
    s < e && IsOpen(text[s]) && text[e] == Mate(text[s]) && Run(text, s + 1, e, []) == Some([])
  }

  // The stack of closers that fits a stack of openers.
  function Mirror(s: Stack): (m: Stack)
    ensures |m| == |s|
    ensures forall i | 0 <= i < |s| :: m[i] == Mate(s[i])
  {
    seq(|s|, i requires 0 <= i < |s| => Mate(s[i]))
  }

  ghost predicate AllOpen(s: Stack) { forall i | 0 <= i < |s| :: IsOpen(s[i]) }

  ghost predicate AllClose(s: Stack) { forall i | 0 <= i < |s| :: IsClose(s[i]) }

  // If the text from `i` to `j` takes the openers `s` down to nothing, then read backwards it
  // builds up the closers that fit `s`.
  lemma {:induction false} RunMirrored(text: string, i: nat, j: nat, s: Stack)
    requires i <= j <= |text| && AllOpen(s) && Run(text, i, j, s) == Some([])
    ensures RunBack(text, i, j, []) == Some(Mirror(s))
    decreases j - i
  {
    if i == j {
      assert Mirror([]) == [];
    } else {
      var c := text[i];
      if IsOpen(c) {
        RunMirrored(text, i + 1, j, s + [c]);
        assert Pop(Mirror(s + [c])) == Mirror(s);
        RunBackExtends(text, i, j, [], Mirror(s + [c]));
      } else if IsClose(c) {
        RunMirrored(text, i + 1, j, Pop(s));
        assert Mirror(Pop(s)) + [c] == Mirror(s);
        RunBackExtends(text, i, j, [], Mirror(Pop(s)));
      } else {
        RunMirrored(text, i + 1, j, s);
        RunBackExtends(text, i, j, [], Mirror(s));
      }
    }
  }

  // The last step of a backward run is the one at its lower end.
  lemma {:induction false} RunBackExtends(text: string, i: nat, j: nat, stack: Stack, below: Stack)
    requires i < j <= |text| && RunBack(text, i + 1, j, stack) == Some(below)
    ensures RunBack(text, i, j, stack) == RunBack(text, i, i + 1, below)
    decreases j
  {
    if j > i + 1 {
      var c := text[j - 1];
      if IsClose(c) {
        RunBackExtends(text, i, j - 1, stack + [c], below);
      } else if IsOpen(c) {
        RunBackExtends(text, i, j - 1, Pop(stack), below);
      } else {
        RunBackExtends(text, i, j - 1, stack, below);
      }
    }
  }

  lemma {:induction false} RunExtends(text: string, i: nat, j: nat, stack: Stack, above: Stack)
    requires i < j <= |text| && Run(text, i, j - 1, stack) == Some(above)
    ensures Run(text, i, j, stack) == Run(text, j - 1, j, above)
    decreases j - i
  {
    if i < j - 1 {
      var c := text[i];
      if IsOpen(c) {
        RunExtends(text, i + 1, j, stack + [c], above);
      } else if IsClose(c) {
        RunExtends(text, i + 1, j, Pop(stack), above);
      } else {
        RunExtends(text, i + 1, j, stack, above);
      }
    }
  }

  lemma {:induction false} RunBackMirrored(text: string, i: nat, j: nat, s: Stack)
    requires i <= j <= |text| && AllClose(s) && RunBack(text, i, j, s) == Some([])
    ensures Run(text, i, j, []) == Some(Mirror(s))
    decreases j - i
  {
    if i == j {
      assert Mirror([]) == [];
    } else {
      var c := text[j - 1];
      if IsClose(c) {
        RunBackMirrored(text, i, j - 1, s + [c]);
        assert Pop(Mirror(s + [c])) == Mirror(s);
        RunExtends(text, i, j, [], Mirror(s + [c]));
      } else if IsOpen(c) {
        RunBackMirrored(text, i, j - 1, Pop(s));
        assert Mirror(Pop(s)) + [c] == Mirror(s);
        RunExtends(text, i, j, [], Mirror(Pop(s)));
      } else {
        RunBackMirrored(text, i, j - 1, s);
        RunExtends(text, i, j, [], Mirror(s));
      }
    }
  }

  // Text that is balanced from left to right is balanced from right to left, and conversely.
  lemma BalancedBothWays(text: string, i: nat, j: nat)
    requires i <= j <= |text|
    ensures Run(text, i, j, []) == Some([]) <==> RunBack(text, i, j, []) == Some([])
  {
    assert Mirror([]) == [];
    if Run(text, i, j, []) == Some([]) {
      RunMirrored(text, i, j, []);
    }
    if RunBack(text, i, j, []) == Some([]) {
      RunBackMirrored(text, i, j, []);
    }
  }

  // ---- Scans find matches ----

  lemma {:induction false} ForwardFinds(text: string, i: nat, o: char, t: Stack, e: nat)
    requires i <= |text| && IsOpen(o)
    ensures Forward(text, i, [o] + t) == Found(e) <==>
            i <= e < |text| && Run(text, i, e, t) == Some([]) && text[e] == Mate(o)
    decreases |text| - i
  {
    if i < |text| {
      var c := text[i];
      if IsOpen(c) {
        assert [o] + t + [c] == [o] + (t + [c]);
        ForwardFinds(text, i + 1, o, t + [c], e);
      } else if IsClose(c) {
        if t != [] {
          assert Pop([o] + t) == [o] + Pop(t);
          ForwardFinds(text, i + 1, o, Pop(t), e);
        }
      } else {
        ForwardFinds(text, i + 1, o, t, e);
      }
    }
  }

  lemma {:induction false} BackwardFinds(text: string, i: nat, c: char, t: Stack, s: nat)
    requires i <= |text| && IsClose(c)
    ensures Backward(text, i, [c] + t) == Found(s) <==>
            s < i && RunBack(text, s + 1, i, t) == Some([]) && Mate(text[s]) == c && IsOpen(text[s])
    decreases i
  {
    if i > 0 {
      var b := text[i - 1];
      if IsClose(b) {
        assert [c] + t + [b] == [c] + (t + [b]);
        BackwardFinds(text, i - 1, c, t + [b], s);
      } else if IsOpen(b) {
        if t != [] {
          assert Pop([c] + t) == [c] + Pop(t);
          BackwardFinds(text, i - 1, c, Pop(t), s);
        }
      } else {
        BackwardFinds(text, i - 1, c, t, s);
      }
    }
  }

  // A forward scan from an opening bracket ends at `e` if and only if `e` closes that bracket.
  lemma ForwardIsMatch(text: string, s: nat, e: nat)
    requires s < |text| && IsOpen(text[s])
    ensures Forward(text, s, []) == Found(e) <==> e < |text| && IsMatch(text, s, e)
  {
    assert [] + [text[s]] == [text[s]] + [];
    ForwardFinds(text, s + 1, text[s], [], e);
  }

  // A backward scan from a closing bracket ends at `s` if and only if `s` opens that bracket.
  lemma BackwardIsMatch(text: string, s: nat, e: nat)
    requires e < |text| && IsClose(text[e])
    ensures Backward(text, e + 1, []) == Found(s) <==> s < |text| && IsMatch(text, s, e)
  {
    assert [] + [text[e]] == [text[e]] + [];
    BackwardFinds(text, e, text[e], [], s);
    if s < e {
      BalancedBothWays(text, s + 1, e);
    }
  }

  // The two scans are dual to each other.
  lemma ScansAreDual(text: string, s: nat, e: nat)
    requires s < |text| && e < |text| && IsOpen(text[s]) && IsClose(text[e])
    ensures Forward(text, s, []) == Found(e) <==> Backward(text, e + 1, []) == Found(s)
  {
    ForwardIsMatch(text, s, e);
    BackwardIsMatch(text, s, e);
  }

  // ---- Scans over two texts ----

  function Shift(o: Outcome, n: nat): Outcome {
    if o.Found? then Found(o.pos + n) else o
  }

  lemma {:induction false} ForwardSplits(a: string, b: string, i: nat, stack: Stack)
    requires i <= |a|
    ensures Forward(a + b, i, stack) ==
            var o := Forward(a, i, stack);
            if o.Unclosed? then Forward(a + b, |a|, o.stack) else o
    decreases |a| - i
  {
    if i < |a| {
      var c := a[i];
      assert (a + b)[i] == c;
      if IsOpen(c) {
        ForwardSplits(a, b, i + 1, stack + [c]);
      } else if IsClose(c) {
        if stack != [] && Mate(c) == Top(stack) && |stack| != 1 {
          ForwardSplits(a, b, i + 1, Pop(stack));
        }
      } else {
        ForwardSplits(a, b, i + 1, stack);
      }
    }
  }

  lemma {:induction false} ForwardShifts(a: string, b: string, i: nat, stack: Stack)
    requires i <= |b|
    ensures Forward(a + b, |a| + i, stack) == Shift(Forward(b, i, stack), |a|)
    decreases |b| - i
  {
    if i < |b| {
      var c := b[i];
      assert (a + b)[|a| + i] == c;
      if IsOpen(c) {
        ForwardShifts(a, b, i + 1, stack + [c]);
      } else if IsClose(c) {
        if stack != [] && Mate(c) == Top(stack) && |stack| != 1 {
          ForwardShifts(a, b, i + 1, Pop(stack));
        }
      } else {
        ForwardShifts(a, b, i + 1, stack);
      }
    }
  }

  lemma {:induction false} BackwardSplits(a: string, b: string, i: nat, stack: Stack)
    requires i <= |b|
    ensures Backward(a + b, |a| + i, stack) ==
            var o := Backward(b, i, stack);
            if o.Unclosed? then Backward(a, |a|, o.stack) else Shift(o, |a|)
    decreases i
  {
    if i > 0 {
      var c := b[i - 1];
      assert (a + b)[|a| + i - 1] == c;
      if IsClose(c) {
        BackwardSplits(a, b, i - 1, stack + [c]);
      } else if IsOpen(c) {
        if stack != [] && Mate(c) == Top(stack) && |stack| != 1 {
          BackwardSplits(a, b, i - 1, Pop(stack));
        }
      } else {
        BackwardSplits(a, b, i - 1, stack);
      }
    } else {
      BackwardIgnores(a, b, |a|, stack);
    }
  }

  // What lies behind the start of a backward scan does not matter.
  lemma {:induction false} BackwardIgnores(a: string, b: string, i: nat, stack: Stack)
    requires i <= |a|
    ensures Backward(a + b, i, stack) == Backward(a, i, stack)
    decreases i
  {
    if i > 0 {
      var c := a[i - 1];
      assert (a + b)[i - 1] == c;
      if IsClose(c) {
        BackwardIgnores(a, b, i - 1, stack + [c]);
      } else if IsOpen(c) {
        if stack != [] && Mate(c) == Top(stack) && |stack| != 1 {
          BackwardIgnores(a, b, i - 1, Pop(stack));
        }
      } else {
        BackwardIgnores(a, b, i - 1, stack);
      }
    }
  }
}
