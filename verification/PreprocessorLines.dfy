/**
 The checkpoint stack of `NestingState.UpdatePreprocessor` (style/gwclint.py), on values: what a
 run over any lines makes of the nesting stack, told by the first branches alone.
 */
module PreprocessorLines {
  import opened Sequences
  import opened Characters

  // ---- Directives ----

  datatype Directive = BeginIf | ElseOrElif | EndIf | NoDirective

  function TrimLeft(s: string): string {
    if s != "" && IsSpace(s[0]) then TrimLeft(s[1..]) else s
  }

  function FirstWord(s: string): string {
    if s != "" && IsWordChar(s[0]) then [s[0]] + FirstWord(s[1..]) else ""
  }

  function Classify(line: string): Directive {
    var s := TrimLeft(line);
    if s == "" || s[0] != '#' then NoDirective
    else
      var w := FirstWord(TrimLeft(s[1..]));
      if w in ["if", "ifdef", "ifndef"] then BeginIf
      else if w in ["else", "elif"] then ElseOrElif
      else if w == "endif" then EndIf
      else NoDirective
  }

  // ---- The directives in characters ----

  predicate Blank(s: string) { forall c | c in s :: IsSpace(c) }

  predicate IsWord(s: string) { s != "" && forall c | c in s :: IsWordChar(c) }

  // No word character comes next.
  predicate Ends(s: string) { s == "" || !IsWordChar(s[0]) }

  // The line is blanks, `#`, blanks, the word and nothing that goes on with it.
  ghost predicate HasDirective(line: string, word: string) {
    exists b, c, rest :: Blank(b) && Blank(c) && Ends(rest) && line == b + ("#" + (c + (word + rest)))
  }

  lemma {:induction false} TrimLeftIs(s: string)
    ensures |TrimLeft(s)| <= |s|
    ensures var n := |s| - |TrimLeft(s)|; Blank(s[..n]) && s[n..] == TrimLeft(s)
    ensures TrimLeft(s) == "" || !IsSpace(TrimLeft(s)[0])
  {
    if s != "" && IsSpace(s[0]) {
      TrimLeftIs(s[1..]);
      var n := |s| - |TrimLeft(s)|;
      assert s[..n] == [s[0]] + s[1..][..n - 1];
    }
  }

  lemma {:induction false} TrimLeftOf(b: string, s: string)
    requires Blank(b) && (s == "" || !IsSpace(s[0]))
    ensures TrimLeft(b + s) == s
  {
    if b == "" {
      assert b + s == s;
    } else {
      assert b[0] in b && (b + s)[1..] == b[1..] + s;
      TrimLeftOf(b[1..], s);
    }
  }

  lemma {:induction false} FirstWordIs(s: string)
    ensures |FirstWord(s)| <= |s|
    ensures var n := |FirstWord(s)|; s[..n] == FirstWord(s) && Ends(s[n..])
  {
    if s != "" && IsWordChar(s[0]) {
      FirstWordIs(s[1..]);
      var n := |FirstWord(s)|;
      assert s[..n] == [s[0]] + s[1..][..n - 1] && s[n..] == s[1..][n - 1..];
    }
  }

  lemma {:induction false} FirstWordOf(w: string, rest: string)
    requires (forall c | c in w :: IsWordChar(c)) && Ends(rest)
    ensures FirstWord(w + rest) == w
  {
    if w == "" {
      assert w + rest == rest;
    } else {
      assert w[0] in w && (w + rest)[1..] == w[1..] + rest;
      FirstWordOf(w[1..], rest);
    }
  }

  // The word behind the `#`, if the first character that is no blank is one.
  function WordOf(line: string): string {
    var s := TrimLeft(line);
    if s == "" || s[0] != '#' then "" else FirstWord(TrimLeft(s[1..]))
  }

  lemma WordIs(line: string, word: string)
    requires IsWord(word)
    ensures WordOf(line) == word <==> HasDirective(line, word)
  {
    hide IsWord, WordOf, HasDirective;
    if WordOf(line) == word {
      WordIsThere(line, word);
    }
    if HasDirective(line, word) {
      ThereIsWord(line, word);
    }
  }

  lemma WordIsThere(line: string, word: string)
    requires IsWord(word) && WordOf(line) == word
    ensures HasDirective(line, word)
  {
    hide TrimLeft, FirstWord, Blank, Ends, HasDirective;
    var s := TrimLeft(line);
    assert s != "" && s[0] == '#';
    var after := s[1..];
    var t := TrimLeft(after);
    assert word == FirstWord(t);
    hide WordOf, IsWord;
    TrimLeftIs(line);
    TrimLeftIs(after);
    FirstWordIs(t);
    Parts(line, s, after, t, word);
    Witnesses(line, line[..|line| - |s|], after[..|after| - |t|], word, t[|word|..]);
  }

  lemma Parts(line: string, s: string, after: string, t: string, word: string)
    requires |s| <= |line| && line[|line| - |s|..] == s && s != "" && s[0] == '#' && after == s[1..]
    requires |t| <= |after| && after[|after| - |t|..] == t && |word| <= |t| && t[..|word|] == word
    ensures line == line[..|line| - |s|] + ("#" + (after[..|after| - |t|] + (word + t[|word|..])))
  {
    assert t == word + t[|word|..];
    assert after == after[..|after| - |t|] + t;
    assert s == "#" + after;
  }

  lemma ThereIsWord(line: string, word: string)
    requires IsWord(word) && HasDirective(line, word)
    ensures WordOf(line) == word
  {
    var b, c, rest :| Blank(b) && Blank(c) && Ends(rest) && line == b + ("#" + (c + (word + rest)));
    assert word[0] in word;
    SpaceIsNoWord(word[0]);
    TrimLeftOf(c, word + rest);
    TrimLeftOf(b, "#" + (c + (word + rest)));
    FirstWordOf(word, rest);
    hide Blank, Ends, TrimLeft, FirstWord;
    assert ("#" + (c + (word + rest)))[1..] == c + (word + rest);
  }

  lemma Witnesses(line: string, b: string, c: string, word: string, rest: string)
    requires Blank(b) && Blank(c) && Ends(rest) && line == b + ("#" + (c + (word + rest)))
    ensures HasDirective(line, word)
  {
  }

  lemma SpaceIsNoWord(c: char)
    ensures IsWordChar(c) ==> !IsSpace(c)
  {
  }

  // What `UpdatePreprocessor` takes a line for, in characters.
  lemma ClassifyIs(line: string)
    ensures Classify(line) == BeginIf <==>
            HasDirective(line, "if") || HasDirective(line, "ifdef") || HasDirective(line, "ifndef")
    ensures Classify(line) == ElseOrElif <==> HasDirective(line, "else") || HasDirective(line, "elif")
    ensures Classify(line) == EndIf <==> HasDirective(line, "endif")
  {
    hide HasDirective, FirstWord, TrimLeft;
    WordIs(line, "if");
    WordIs(line, "ifdef");
    WordIs(line, "ifndef");
    WordIs(line, "else");
    WordIs(line, "elif");
    WordIs(line, "endif");
  }

  // ---- The state and its steps ----

  // A line, told by its directive and by what the rest of its processing does to the stack.
  datatype Line<!B> = Line(directive: Directive, effect: seq<B> -> seq<B>)

  datatype Checkpoint<B> = Checkpoint(beforeIf: seq<B>, beforeElse: seq<B>, seenElse: bool)

  datatype State<B> = State(stack: seq<B>, pp: seq<Checkpoint<B>>)

  function Preprocess<B>(st: State<B>, d: Directive): State<B> {
    match d
    case BeginIf => st.(pp := st.pp + [Checkpoint(st.stack, [], false)])
    case ElseOrElif =>
      if st.pp == [] then st
      else
        var top := Top(st.pp);
        var seen := if top.seenElse then top else top.(seenElse := true, beforeElse := st.stack);
        State(top.beforeIf, Pop(st.pp) + [seen])
    case EndIf =>
      if st.pp == [] then st
      else
        var top := Top(st.pp);
        State(if top.seenElse then top.beforeElse else st.stack, Pop(st.pp))
    case NoDirective => st
  }

  function Step<B>(st: State<B>, line: Line<B>): State<B> {
    var after := Preprocess(st, line.directive);
    after.(stack := line.effect(after.stack))
  }

  function Run<B>(st: State<B>, lines: seq<Line<B>>): State<B>
    decreases |lines|
  {
    if lines == [] then st else Run(Step(st, lines[0]), lines[1..])
  }

  // ---- First branches, by the directives alone ----

  // For each open `#if`, whether its first branch is over.
  type Marks = seq<bool>

  function Mark(marks: Marks, d: Directive): Marks {
    match d
    case BeginIf => marks + [false]
    case ElseOrElif => if marks == [] then marks else Pop(marks) + [true]
    case EndIf => if marks == [] then marks else Pop(marks)
    case NoDirective => marks
  }

  function MarkAll<B>(marks: Marks, lines: seq<Line<B>>): Marks
    decreases |lines|
  {
    if lines == [] then marks else MarkAll(Mark(marks, lines[0].directive), lines[1..])
  }

  predicate InFirstBranches(marks: Marks) { true !in marks }

  // The lines outside every branch but the first. The lines with `#if` and `#endif` belong to what
  // encloses them, those with `#else` and `#elif` to the branch that they begin.
  function Kept<B>(marks: Marks, lines: seq<Line<B>>): seq<Line<B>>
    decreases |lines|
  {
    if lines == [] then []
    else
      var after := Mark(marks, lines[0].directive);
      (if InFirstBranches(after) then [lines[0]] else []) + Kept(after, lines[1..])
  }

  function FirstBranches<B>(lines: seq<Line<B>>): seq<Line<B>> { Kept([], lines) }

  // The effects alone, with no preprocessor.
  function Plain<B>(stack: seq<B>, lines: seq<Line<B>>): seq<B>
    decreases |lines|
  {
    if lines == [] then stack else Plain(lines[0].effect(stack), lines[1..])
  }

  // ---- The invariant of every run ----

  function MarksOf<B>(pp: seq<Checkpoint<B>>): (m: Marks)
    ensures |m| == |pp| && forall i | 0 <= i < |pp| :: m[i] == pp[i].seenElse
  {
    seq(|pp|, i requires 0 <= i < |pp| => pp[i].seenElse)
  }

  // The stack to which the outermost `#if` past its first branch will return, or else the stack.
  function Live<B>(stack: seq<B>, pp: seq<Checkpoint<B>>): seq<B> {
    if pp == [] then stack
    else if pp[0].seenElse then pp[0].beforeElse
    else Live(stack, pp[1..])
  }

  lemma {:induction false} LiveInFirstBranches<B>(stack: seq<B>, pp: seq<Checkpoint<B>>)
    requires InFirstBranches(MarksOf(pp))
    ensures Live(stack, pp) == stack
  {
    if pp != [] {
      assert !MarksOf(pp)[0];
      assert MarksOf(pp[1..]) == MarksOf(pp)[1..];
      LiveInFirstBranches(stack, pp[1..]);
    }
  }

  lemma {:induction false} LiveOtherwise<B>(stack: seq<B>, other: seq<B>, pp: seq<Checkpoint<B>>)
    requires !InFirstBranches(MarksOf(pp))
    ensures Live(stack, pp) == Live(other, pp)
  {
    assert pp != [];
    if !pp[0].seenElse {
      assert MarksOf(pp) == [false] + MarksOf(pp[1..]);
      LiveOtherwise(stack, other, pp[1..]);
    }
  }

  // What the innermost level contributes.
  lemma {:induction false} LiveAtTop<B>(stack: seq<B>, pp: seq<Checkpoint<B>>, top: Checkpoint<B>)
    ensures Live(stack, pp + [top]) == Live(if top.seenElse then top.beforeElse else stack, pp)
  {
    if pp == [] {
      assert ([top])[1..] == [];
    } else {
      assert (pp + [top])[1..] == pp[1..] + [top];
      LiveAtTop(stack, pp[1..], top);
    }
  }

  lemma MarksFollow<B>(st: State<B>, d: Directive)
    ensures MarksOf(Preprocess(st, d).pp) == Mark(MarksOf(st.pp), d)
  {}

  lemma PreprocessKeepsLive<B>(st: State<B>, d: Directive)
    ensures var after := Preprocess(st, d);
            Live(after.stack, after.pp) == Live(st.stack, st.pp)
  {
    var after := Preprocess(st, d);
    match d
    case BeginIf =>
      LiveAtTop(st.stack, st.pp, Top(after.pp));
    case ElseOrElif =>
      if st.pp != [] {
        assert st.pp == Pop(st.pp) + [Top(st.pp)];
        LiveAtTop(st.stack, Pop(st.pp), Top(st.pp));
        LiveAtTop(after.stack, Pop(st.pp), Top(after.pp));
      }
    case EndIf =>
      if st.pp != [] {
        assert st.pp == Pop(st.pp) + [Top(st.pp)];
        LiveAtTop(st.stack, Pop(st.pp), Top(st.pp));
      }
    case NoDirective =>
  }

  // One line changes the live stack by its effect if it belongs to first branches, and not at all
  // if it does not.
  lemma StepOnLive<B>(st: State<B>, line: Line<B>)
    ensures var after := Step(st, line);
            && MarksOf(after.pp) == Mark(MarksOf(st.pp), line.directive)
            && Live(after.stack, after.pp) ==
               if InFirstBranches(MarksOf(after.pp)) then line.effect(Live(st.stack, st.pp))
               else Live(st.stack, st.pp)
  {
    var mid := Preprocess(st, line.directive);
    var after := Step(st, line);
    PreprocessKeepsLive(st, line.directive);
    MarksFollow(st, line.directive);
    hide Preprocess;
    if InFirstBranches(MarksOf(mid.pp)) {
      LiveInFirstBranches(mid.stack, mid.pp);
      LiveInFirstBranches(after.stack, after.pp);
    } else {
      LiveOtherwise(mid.stack, after.stack, mid.pp);
    }
  }

  // Over any lines, well nested or not, from any state, the live stack takes the effects of the
  // kept lines and of no others.
  lemma {:induction false} RunOnLive<B>(st: State<B>, lines: seq<Line<B>>)
    ensures var after := Run(st, lines);
            && MarksOf(after.pp) == MarkAll(MarksOf(st.pp), lines)
            && Live(after.stack, after.pp) == Plain(Live(st.stack, st.pp), Kept(MarksOf(st.pp), lines))
    decreases |lines|
  {
    if lines != [] {
      StepOnLive(st, lines[0]);
      var next := Step(st, lines[0]);
      hide Step, Live, MarksOf;
      RunOnLive(next, lines[1..]);
      var rest := Kept(MarksOf(next.pp), lines[1..]);
      if InFirstBranches(MarksOf(next.pp)) {
        assert Kept(MarksOf(st.pp), lines) == [lines[0]] + rest;
        assert ([lines[0]] + rest)[1..] == rest;
      } else {
        assert Kept(MarksOf(st.pp), lines) == [] + rest == rest;
      }
    }
  }

  // ---- Well-nested lines ----

  // Every `#else`, `#elif` and `#endif` has its `#if` among the lines, and every `#if` its `#endif`;
  // `depth` levels are open already.
  predicate WellNested<B>(lines: seq<Line<B>>, depth: nat) {
    if lines == [] then depth == 0
    else
      match lines[0].directive
      case BeginIf => WellNested(lines[1..], depth + 1)
      case ElseOrElif => depth > 0 && WellNested(lines[1..], depth)
      case EndIf => depth > 0 && WellNested(lines[1..], depth - 1)
      case NoDirective => WellNested(lines[1..], depth)
  }

  // Levels that were open before the lines are not touched by them.
  lemma {:induction false} RunAboveBase<B>(stack: seq<B>, base: seq<Checkpoint<B>>,
                                           pp: seq<Checkpoint<B>>, lines: seq<Line<B>>)
    requires WellNested(lines, |pp|)
    ensures Run(State(stack, pp), lines).pp == []
    ensures Run(State(stack, base + pp), lines) == State(Run(State(stack, pp), lines).stack, base)
    decreases |lines|
  {
    if lines == [] {
      assert base + pp == base;
    } else {
      var low, high := Step(State(stack, pp), lines[0]), Step(State(stack, base + pp), lines[0]);
      StepAboveBase(stack, base, pp, lines[0]);
      assert WellNested(lines[1..], |low.pp|);
      hide Step;
      RunAboveBase(low.stack, base, low.pp, lines[1..]);
    }
  }

  lemma StepAboveBase<B>(stack: seq<B>, base: seq<Checkpoint<B>>, pp: seq<Checkpoint<B>>, line: Line<B>)
    requires line.directive in {ElseOrElif, EndIf} ==> pp != []
    ensures var low := Step(State(stack, pp), line);
            Step(State(stack, base + pp), line) == State(low.stack, base + low.pp)
  {
    match line.directive
    case BeginIf =>
      var c := Checkpoint(stack, [], false);
      assert (base + pp) + [c] == base + (pp + [c]);
    case ElseOrElif =>
      assert Top(base + pp) == Top(pp) && Pop(base + pp) == base + Pop(pp);
      var c := if Top(pp).seenElse then Top(pp) else Top(pp).(seenElse := true, beforeElse := stack);
      assert (base + Pop(pp)) + [c] == base + (Pop(pp) + [c]);
    case EndIf =>
      assert Top(base + pp) == Top(pp) && Pop(base + pp) == base + Pop(pp);
    case NoDirective =>
  }

  // For well-nested lines and whatever they do to the stack, from any state: the stack is that of
  // a run on the first branches with no preprocessor, and the checkpoint stack is as before.
  lemma OnlyFirstBranchesCount<B>(st: State<B>, lines: seq<Line<B>>)
    requires WellNested(lines, 0)
    ensures Run(st, lines) == State(Plain(st.stack, FirstBranches(lines)), st.pp)
  {
    var alone := Run(State(st.stack, []), lines);
    RunAboveBase(st.stack, st.pp, [], lines);
    assert st.pp + [] == st.pp;
    RunOnLive(State(st.stack, []), lines);
    assert MarksOf<B>([]) == [];
    assert Live(alone.stack, []) == alone.stack && Live(st.stack, []) == st.stack;
  }

  // ---- Every branch starts from the same stack ----

  // Lines inside a conditional, up to any of its own lines; `depth` further levels are open.
  predicate Inside<B>(lines: seq<Line<B>>, depth: nat) {
    if lines == [] then depth == 0
    else
      match lines[0].directive
      case BeginIf => Inside(lines[1..], depth + 1)
      case ElseOrElif => Inside(lines[1..], depth)
      case EndIf => depth > 0 && Inside(lines[1..], depth - 1)
      case NoDirective => Inside(lines[1..], depth)
  }

  lemma {:induction false} CheckpointStays<B>(st: State<B>, lines: seq<Line<B>>, at: nat, depth: nat)
    requires |st.pp| == at + 1 + depth && Inside(lines, depth)
    ensures var after := Run(st, lines);
            && |after.pp| == at + 1 && after.pp[..at] == st.pp[..at]
            && after.pp[at].beforeIf == st.pp[at].beforeIf
    decreases |lines|
  {
    if lines != [] {
      var next := Step(st, lines[0]);
      var d := match lines[0].directive
               case BeginIf => depth + 1
               case EndIf => depth - 1
               case ElseOrElif => depth
               case NoDirective => depth;
      assert next.pp[..at] == st.pp[..at] && next.pp[at].beforeIf == st.pp[at].beforeIf;
      CheckpointStays(next, lines[1..], at, d);
    }
  }

  // Wherever in a conditional an `#else` or `#elif` of its own comes, and whatever the lines before it
  // have done, the stack is again as it was at the `#if`.
  lemma BranchesStartAlike<B>(st: State<B>, begin: Line<B>, lines: seq<Line<B>>)
    requires begin.directive.BeginIf? && Inside(lines, 0)
    ensures Preprocess(Run(st, [begin] + lines), ElseOrElif).stack == st.stack
  {
    var next := Step(st, begin);
    assert ([begin] + lines)[1..] == lines;
    CheckpointStays(next, lines, |st.pp|, 0);
  }

  // ---- What first branches are, on the blocks of a file ----

  // Enclosing levels count all or nothing.
  lemma {:induction false} KeptAbove<B>(base: Marks, marks: Marks, lines: seq<Line<B>>)
    requires WellNested(lines, |marks|)
    ensures MarkAll(base + marks, lines) == base
    ensures Kept(base + marks, lines) == if InFirstBranches(base) then Kept(marks, lines) else []
    decreases |lines|
  {
    if lines == [] {
      assert base + marks == base;
    } else {
      var d := lines[0].directive;
      var after := Mark(marks, d);
      MarkAbove(base, marks, d);
      hide InFirstBranches;
      assert InFirstBranches(base + after) <==> InFirstBranches(base) && InFirstBranches(after) by {
        MarksJoin(base, after);
      }
      KeptAbove(base, after, lines[1..]);
    }
  }

  lemma MarksJoin(a: Marks, b: Marks)
    ensures InFirstBranches(a + b) <==> InFirstBranches(a) && InFirstBranches(b)
  {}

  lemma MarkAbove(base: Marks, marks: Marks, d: Directive)
    requires d in {ElseOrElif, EndIf} ==> marks != []
    ensures Mark(base + marks, d) == base + Mark(marks, d)
  {
    if d.ElseOrElif? || d.EndIf? {
      assert Pop(base + marks) == base + Pop(marks);
    }
  }

  lemma {:induction false} KeptAppends<B>(marks: Marks, a: seq<Line<B>>, b: seq<Line<B>>)
    ensures Kept(marks, a + b) == Kept(marks, a) + Kept(MarkAll(marks, a), b)
    decreases |a|
  {
    if a == [] {
      assert a + b == b;
    } else {
      var line, more := a[0], a[1..];
      var after := Mark(marks, line.directive);
      FirstOfBoth(a, b);
      assert MarkAll(marks, a) == MarkAll(after, more);
      hide *;
      KeptAppends(after, more, b);
      KeptOne(marks, line, more + b);
      KeptOne(marks, line, more);
      OneBefore(line, Kept(after, more), Kept(MarkAll(marks, a), b));
    }
  }

  lemma FirstOfBoth<T>(a: seq<T>, b: seq<T>)
    requires a != []
    ensures a == [a[0]] + a[1..] && a + b == [a[0]] + (a[1..] + b)
  {
  }

  lemma OneBefore<T>(x: T, a: seq<T>, b: seq<T>)
    ensures [x] + (a + b) == ([x] + a) + b
  {
  }

  // Well-nested lines before `more`.
  lemma KeptBefore<B>(base: Marks, lines: seq<Line<B>>, more: seq<Line<B>>)
    requires WellNested(lines, 0)
    ensures Kept(base, lines + more) ==
            if InFirstBranches(base) then FirstBranches(lines) + Kept(base, more) else Kept(base, more)
  {
    assert base + [] == base;
    KeptAbove(base, [], lines);
    KeptAppends(base, lines, more);
    assert [] + Kept(base, more) == Kept(base, more);
  }

  lemma KeptOne<B>(marks: Marks, line: Line<B>, more: seq<Line<B>>)
    ensures var after := Mark(marks, line.directive);
            Kept(marks, [line] + more) ==
            if InFirstBranches(after) then [line] + Kept(after, more) else Kept(after, more)
  {
    assert ([line] + more)[1..] == more;
    assert [] + Kept(Mark(marks, line.directive), more) == Kept(Mark(marks, line.directive), more);
  }

  // From its `#else` on, a conditional keeps nothing but its `#endif`.
  lemma SecondBranch<B>(other: Line<B>, second: seq<Line<B>>, end: Line<B>, more: seq<Line<B>>)
    requires other.directive.ElseOrElif? && end.directive.EndIf? && WellNested(second, 0)
    ensures Kept([false], [other] + (second + ([end] + more))) == [end] + Kept([], more)
  {
    var tail := [end] + more;
    KeptOne([false], other, second + tail);
    assert Mark([false], ElseOrElif) == [true] && !InFirstBranches([true]);
    KeptBefore([true], second, tail);
    KeptOne([true], end, more);
    assert Mark([true], EndIf) == [] && InFirstBranches([]);
    hide *;
  }

  // A conditional with two branches keeps its own two lines and the first branch.
  lemma FirstBranchOfTwo<B>(begin: Line<B>, first: seq<Line<B>>, other: Line<B>,
                            second: seq<Line<B>>, end: Line<B>, more: seq<Line<B>>)
    requires begin.directive.BeginIf? && other.directive.ElseOrElif? && end.directive.EndIf?
    requires WellNested(first, 0) && WellNested(second, 0)
    ensures FirstBranches([begin] + (first + ([other] + (second + ([end] + more))))) ==
            [begin] + (FirstBranches(first) + ([end] + FirstBranches(more)))
  {
    var middle := [other] + (second + ([end] + more));
    SecondBranch(other, second, end, more);
    KeptBefore([false], first, middle);
    KeptOne([], begin, first + middle);
    assert Mark([], BeginIf) == [false] && InFirstBranches([false]);
    var whole := Kept([], [begin] + (first + middle));
    assert whole == FirstBranches([begin] + (first + middle));
    assert FirstBranches(more) == Kept([], more);
    hide *;
  }
}
