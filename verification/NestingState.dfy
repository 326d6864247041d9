/**
 `NestingState` of style/gwclint.py, with the block objects that it mutates in place and the deep
 copies that keep its checkpoints apart from them.
 */
module NestingState {
  import opened Sequences
  import opened Options
  import opened PreprocessorLines

  // ---- Blocks as values ----

  datatype Kind = PlainBlock | ExternCBlock | ClassBlock | NamespaceBlock

  datatype Asm = NoAsm | InsideAsm | EndAsm | BlockAsm

  datatype BlockValue =
    BlockValue(kind: Kind, seenOpenBrace: bool, openParentheses: int, inlineAsm: Asm, access: string)

  type Stack = seq<BlockValue>

  datatype Access = Unchanged | SetTo(access: string)

  // ---- What a line does to the innermost block, on values ----

  function Count(s: string, c: char): nat {
    if s == "" then 0 else Count(s[..|s| - 1], c) + if s[|s| - 1] == c then 1 else 0
  }

  function Counted(b: BlockValue, change: int, asm: bool): BlockValue {
    var open := b.openParentheses + change;
    var inlineAsm :=
      if b.inlineAsm.NoAsm? || b.inlineAsm.EndAsm? then
        if change != 0 && open == 1 && asm then InsideAsm else NoAsm
      else if b.inlineAsm.InsideAsm? && open == 0 then EndAsm
      else b.inlineAsm;
    b.(openParentheses := open, inlineAsm := inlineAsm)
  }

  function OnTop(s: Stack, b: BlockValue): Stack
    requires s != []
  {
    Pop(s) + [b]
  }

  // `asm` says whether the line starts with the keyword of an assembly block.
  function CountParentheses(s: Stack, line: string, asm: bool): Stack {
    if s == [] then s else OnTop(s, Counted(Top(s), Count(line, '(') - Count(line, ')'), asm))
  }

  function SetAccess(s: Stack, access: Access): Stack {
    if s != [] && Top(s).kind.ClassBlock? && access.SetTo? then OnTop(s, Top(s).(access := access.access))
    else s
  }

  // `SeenOpenBrace`
  function SeenOpenBrace(s: Stack): bool { s == [] || Top(s).seenOpenBrace }

  // A token that the last loop of `Update` finds: an opening brace, with the block that it may begin,
  // a semicolon or closing parenthesis, or a closing brace.
  datatype Token = OpenBrace(block: BlockValue) | EndOfHead | CloseBrace

  function Consume(s: Stack, t: Token): Stack {
    match t
    case OpenBrace(block) => if SeenOpenBrace(s) then s + [block] else OnTop(s, Top(s).(seenOpenBrace := true))
    case EndOfHead => if SeenOpenBrace(s) then s else Pop(s)
    case CloseBrace => if s == [] then s else Pop(s)
  }

  function ConsumeAll(s: Stack, ts: seq<Token>): Stack {
    if ts == [] then s else Consume(ConsumeAll(s, Pop(ts)), Top(ts))
  }

  // What the patterns find in a line after the declaration of a class was taken, or was not.
  datatype Rest = Rest(access: Access, tokens: seq<Token>)

  // What the patterns of `Update` find in a line: whether it starts with the keyword of an assembly
  // block, the namespaces that it declares, the class that it declares outside template arguments.
  datatype Parsed = Parsed(line: string, asm: bool, namespaces: seq<BlockValue>, declared: Option<BlockValue>,
                           after: Rest, otherwise: Rest)

  // A class is taken unless parentheses are open.
  function TakesClass(s: Stack, p: Parsed): bool {
    p.declared.Some? && (s == [] || Top(s).openParentheses == 0)
  }

  function RestOfLine(s: Stack, rest: Rest): Stack { ConsumeAll(SetAccess(s, rest.access), rest.tokens) }

  function EffectOn(s: Stack, p: Parsed): Stack {
    var s1 := CountParentheses(s, p.line, p.asm) + p.namespaces;
    if TakesClass(s1, p) then RestOfLine(s1 + [p.declared.value], p.after) else RestOfLine(s1, p.otherwise)
  }

  function LineOf(p: Parsed): Line<BlockValue> { Line(Classify(p.line), s => EffectOn(s, p)) }

  function LinesOf(ps: seq<Parsed>): seq<Line<BlockValue>> {
    if ps == [] then [] else [LineOf(ps[0])] + LinesOf(ps[1..])
  }

  // ---- Blocks as objects ----

  class Block {
    const kind: Kind
    var seenOpenBrace: bool
    var openParentheses: int
    var inlineAsm: Asm
    var access: string

    ghost function Value(): BlockValue
      reads this
    {
      BlockValue(kind, seenOpenBrace, openParentheses, inlineAsm, access)
    }

    constructor (v: BlockValue)
      ensures Value() == v
    {
      kind, seenOpenBrace, openParentheses := v.kind, v.seenOpenBrace, v.openParentheses;
      inlineAsm, access := v.inlineAsm, v.access;
    }

    // The parentheses of a line, and the inline assembly that they may open or close.
    method CountIn(change: int, asm: bool)
      modifies this
      ensures Value() == Counted(old(Value()), change, asm)
    {
      openParentheses := openParentheses + change;
      if inlineAsm.NoAsm? || inlineAsm.EndAsm? {
        if change != 0 && openParentheses == 1 && asm {
          inlineAsm := InsideAsm;
        } else {
          inlineAsm := NoAsm;
        }
      } else if inlineAsm.InsideAsm? && openParentheses == 0 {
        inlineAsm := EndAsm;
      }
    }

    constructor Copy(b: Block)
      ensures Value() == b.Value()
    {
      kind, seenOpenBrace, openParentheses := b.kind, b.seenOpenBrace, b.openParentheses;
      inlineAsm, access := b.inlineAsm, b.access;
    }
  }

  ghost function Values(bs: seq<Block>): (s: Stack)
    reads bs
    ensures |s| == |bs|
  {
    if bs == [] then [] else Values(Pop(bs)) + [Top(bs).Value()]
  }

  ghost predicate Distinct(bs: seq<Block>) {
    forall i, j | 0 <= i < j < |bs| :: bs[i] != bs[j]
  }

  // `copy.deepcopy` of a list of blocks.
  method DeepCopy(bs: seq<Block>) returns (copy: seq<Block>)
    ensures Values(copy) == Values(bs)
    ensures Distinct(copy) && forall b | b in copy :: fresh(b)
  {
    copy := [];
    for i := 0 to |bs|
      invariant |copy| == i
      invariant Values(copy) == Values(bs[..i])
      invariant Distinct(copy) && forall b | b in copy :: fresh(b)
    {
      var b := new Block.Copy(bs[i]);
      assert Pop(bs[..i + 1]) == bs[..i] && Top(bs[..i + 1]) == bs[i];
      assert Pop(copy + [b]) == copy;
      copy := copy + [b];
    }
    assert bs[..|bs|] == bs;
  }

  class PreprocessorInfo {
    var stackBeforeIf: seq<Block>
    var stackBeforeElse: seq<Block>
    var seenElse: bool

    ghost function Blocks(): set<Block>
      reads this
    {
      (set b | b in stackBeforeIf) + (set b | b in stackBeforeElse)
    }

    ghost predicate Valid()
      reads this
    {
      Distinct(stackBeforeElse) && forall b | b in stackBeforeElse :: b !in stackBeforeIf
    }

    ghost function Value(): Checkpoint<BlockValue>
      reads this, Blocks()
    {
      Checkpoint(Values(stackBeforeIf), Values(stackBeforeElse), seenElse)
    }

    constructor (stack: seq<Block>)
      ensures Valid() && Value() == Checkpoint(Values(stack), [], false)
      ensures forall b | b in Blocks() :: fresh(b)
    {
      var saved := DeepCopy(stack);
      stackBeforeIf, stackBeforeElse, seenElse := saved, [], false;
      new;
      assert Values([]) == [];
    }

    // The first `#else` or `#elif`.
    method SaveBranch(stack: seq<Block>)
      requires Valid()
      modifies this
      ensures Valid() && stackBeforeIf == old(stackBeforeIf)
      ensures Value() == Checkpoint(old(Values(stackBeforeIf)), old(Values(stack)), true)
      ensures forall b | b in Blocks() :: b in old(Blocks()) || fresh(b)
    {
      var saved := DeepCopy(stack);
      stackBeforeElse, seenElse := saved, true;
    }
  }

  ghost function BlocksOf(ps: seq<PreprocessorInfo>): set<Block>
    reads ps
  {
    set p, b | p in ps && b in p.Blocks() :: b
  }

  ghost function Checkpoints(ps: seq<PreprocessorInfo>): (c: seq<Checkpoint<BlockValue>>)
    reads ps, BlocksOf(ps)
    ensures |c| == |ps|
  {
    if ps == [] then []
    else
      assert Top(ps) in ps && forall p | p in Pop(ps) :: p in ps;
      Checkpoints(Pop(ps)) + [Top(ps).Value()]
  }

  // No two checkpoints share a block.
  ghost predicate Apart(ps: seq<PreprocessorInfo>)
    reads ps
  {
    ps == [] ||
    (assert Top(ps) in ps && forall p | p in Pop(ps) :: p in ps;
     Apart(Pop(ps)) && Top(ps) !in Pop(ps) && Top(ps).Valid() && Top(ps).Blocks() !! BlocksOf(Pop(ps)))
  }

  lemma OneMore(ps: seq<PreprocessorInfo>, top: PreprocessorInfo)
    ensures Apart(ps + [top]) <==> Apart(ps) && top !in ps && top.Valid() && top.Blocks() !! BlocksOf(ps)
    ensures BlocksOf(ps + [top]) == BlocksOf(ps) + top.Blocks()
    ensures Checkpoints(ps + [top]) == Checkpoints(ps) + [top.Value()]
  {
    assert Pop(ps + [top]) == ps && Top(ps + [top]) == top;
    hide Values, PreprocessorInfo.Valid;
  }

  class NestingState {
    var stack: seq<Block>
    var ppStack: seq<PreprocessorInfo>

    // The stack shares no block with a checkpoint.
    ghost predicate Valid()
      reads this, ppStack
    {
      Distinct(stack) && (forall b | b in stack :: b !in BlocksOf(ppStack)) && Apart(ppStack)
    }

    ghost function View(): State<BlockValue>
      reads this, stack, ppStack, BlocksOf(ppStack)
    {
      State(Values(stack), Checkpoints(ppStack))
    }

    ghost function Blocks(): set<Block>
      reads this
    {
      set b | b in stack
    }

    constructor ()
      ensures Valid() && View() == State([], [])
    {
      stack, ppStack := [], [];
    }

    // `self.pp_stack.append`
    method Append(info: PreprocessorInfo)
      requires Valid() && info !in ppStack && info.Valid()
      requires info.Blocks() !! BlocksOf(ppStack) && forall b | b in stack :: b !in info.Blocks()
      modifies `ppStack
      ensures Valid() && ppStack == old(ppStack) + [info] && stack == old(stack)
      ensures View() == State(old(Values(stack)), old(View()).pp + [old(info.Value())])
      ensures BlocksOf(ppStack) == old(BlocksOf(ppStack)) + info.Blocks()
    {
      OneMore(ppStack, info);
      ppStack := ppStack + [info];
    }

    // `self.pp_stack.pop`
    method Remove()
      requires Valid() && ppStack != []
      modifies `ppStack
      ensures Valid() && ppStack == Pop(old(ppStack)) && stack == old(stack)
      ensures forall b | b in old(Top(ppStack)).stackBeforeElse :: b !in BlocksOf(ppStack)
      ensures old(Top(ppStack)).Valid()
      ensures View() == State(old(Values(stack)), Pop(old(View()).pp))
      ensures BlocksOf(ppStack) <= old(BlocksOf(ppStack)) && old(Top(ppStack)).Blocks() <= old(BlocksOf(ppStack))
      ensures Top(old(View()).pp) == old(Top(ppStack)).Value()
    {
      assert ppStack == Pop(ppStack) + [Top(ppStack)];
      OneMore(Pop(ppStack), Top(ppStack));
      ppStack := Pop(ppStack);
    }

    // `#if`: a checkpoint of the stack.
    method BeginConditional()
      requires Valid()
      modifies `ppStack
      ensures Valid() && View() == Preprocess(old(View()), BeginIf)
      ensures stack == old(stack) && |ppStack| == |old(ppStack)| + 1 && Pop(ppStack) == old(ppStack)
      ensures fresh(Top(ppStack))
      ensures forall b | b in BlocksOf(ppStack) :: b in old(BlocksOf(ppStack)) || fresh(b)
    {
      hide Checkpoints, Values;
      var info := new PreprocessorInfo(stack);
      Append(info);
    }

    // The end of the first branch of the innermost conditional.
    method MarkBranch(top: PreprocessorInfo, ghost lower: seq<PreprocessorInfo>)
      requires Valid() && ppStack == lower + [top]
      modifies top
      ensures Valid()
      ensures View() == State(old(Values(stack)), old(Checkpoints(lower)) +
                              [Checkpoint(old(Values(top.stackBeforeIf)), old(Values(stack)), true)])
      ensures stack == old(stack) && ppStack == old(ppStack)
      ensures forall b | b in BlocksOf(ppStack) :: b in old(BlocksOf(ppStack)) || fresh(b)
    {
      hide Values;
      OneMore(lower, top);
      top.SaveBranch(stack);
      OneMore(lower, top);
    }

    method SetStack(bs: seq<Block>)
      requires Valid() && Distinct(bs) && forall b | b in bs :: b !in BlocksOf(ppStack)
      modifies `stack
      ensures Valid() && stack == bs && ppStack == old(ppStack)
      ensures View() == State(Values(bs), old(View()).pp)
    {
      stack := bs;
    }

    method RestoreStack()
      requires Valid() && ppStack != []
      modifies `stack
      ensures Valid() && View() == State(Top(old(View()).pp).beforeIf, old(View()).pp)
      ensures ppStack == old(ppStack) && forall b | b in stack :: fresh(b)
    {
      var restored := DeepCopy(Top(ppStack).stackBeforeIf);
      assert Valid() && View() == old(View()) && forall b | b in restored :: b !in BlocksOf(ppStack);
      hide Checkpoints, BlocksOf, Apart;
      SetStack(restored);
    }

    // `#else` or `#elif`: back to the stack before the `#if`.
    method BeginBranch()
      requires Valid() && ppStack != []
      modifies `stack, Top(ppStack)
      ensures Valid() && View() == Preprocess(old(View()), ElseOrElif)
      ensures ppStack == old(ppStack) && forall b | b in stack :: fresh(b)
      ensures forall b | b in BlocksOf(ppStack) :: b in old(BlocksOf(ppStack)) || fresh(b)
    {
      var top := Top(ppStack);
      ghost var lower := Pop(ppStack);
      assert ppStack == lower + [top];
      if !top.seenElse {
        OneMore(lower, top);
        MarkBranch(top, lower);
      }
      RestoreStack();
    }

    // `#endif`: back to the stack at the end of the first branch.
    method EndConditional()
      requires Valid() && ppStack != []
      modifies this
      ensures Valid() && View() == Preprocess(old(View()), EndIf)
      ensures ppStack == Pop(old(ppStack)) && BlocksOf(ppStack) <= old(BlocksOf(ppStack))
      ensures forall b | b in stack :: b in old(stack) || b in old(BlocksOf(ppStack))
    {
      var top := Top(ppStack);
      assert |View().pp| == |ppStack|;
      hide Valid, View, BlocksOf, Checkpoints, Apart;
      Remove();
      if top.seenElse {
        SetStack(top.stackBeforeElse);
      }
    }

    method UpdatePreprocessor(line: string)
      requires Valid()
      modifies this, ppStack
      ensures Valid() && View() == Preprocess(old(View()), Classify(line))
      ensures forall b | b in Blocks() :: b in old(Blocks()) || b in old(BlocksOf(ppStack)) || fresh(b)
      ensures forall info | info in ppStack :: info in old(ppStack) || fresh(info)
      ensures forall b | b in BlocksOf(ppStack) :: b in old(BlocksOf(ppStack)) || fresh(b)
    {
      match Classify(line)
      case BeginIf =>
        BeginConditional();
      case ElseOrElif =>
        if ppStack != [] {
          BeginBranch();
        }
      case EndIf =>
        if ppStack != [] {
          EndConditional();
        }
      case NoDirective =>
    }

    // ---- What the rest of a line does, in place ----

    // `self.stack.append`
    method Push(v: BlockValue)
      requires Valid()
      modifies `stack
      ensures Valid() && |stack| == |old(stack)| + 1 && Pop(stack) == old(stack) && fresh(Top(stack))
      ensures ppStack == old(ppStack) && Blocks() == old(Blocks()) + {Top(stack)}
      ensures View() == State(old(View()).stack + [v], old(View()).pp)
    {
      hide Valid, View, BlocksOf;
      var b := NewBlock(v);
      PushBlock(b);
    }

    // A new block changes nothing of the state.
    method NewBlock(v: BlockValue) returns (b: Block)
      requires Valid()
      ensures fresh(b) && b.Value() == v && b !in stack && b !in BlocksOf(ppStack)
      ensures Valid() && View() == old(View())
    {
      b := new Block(v);
    }

    method PushBlock(b: Block)
      requires Valid() && b !in stack && b !in BlocksOf(ppStack)
      modifies `stack
      ensures Valid() && stack == old(stack) + [b] && ppStack == old(ppStack)
      ensures View() == State(old(View()).stack + [b.Value()], old(View()).pp)
    {
      stack := stack + [b];
      assert Pop(stack) == old(stack) && Top(stack) == b;
    }

    // `self.stack.pop`
    method Drop()
      requires Valid() && stack != []
      modifies `stack
      ensures Valid() && stack == Pop(old(stack)) && ppStack == old(ppStack) && Blocks() <= old(Blocks())
      ensures View() == State(Pop(old(View()).stack), old(View()).pp)
    {
      stack := Pop(stack);
    }

    // The innermost block takes the parentheses of the line: a change that no checkpoint sees.
    method CountInPlace(line: string, asm: bool)
      requires Valid()
      modifies Blocks()
      ensures Valid()
      ensures View() == State(CountParentheses(old(View()).stack, line, asm), old(View()).pp)
      ensures stack == old(stack) && Blocks() == old(Blocks())
      ensures ppStack == old(ppStack) && BlocksOf(ppStack) == old(BlocksOf(ppStack))
    {
      if stack != [] {
        Top(stack).CountIn(Count(line, '(') - Count(line, ')'), asm);
        assert BlocksOf(ppStack) == old(BlocksOf(ppStack));
        assert Checkpoints(ppStack) == old(Checkpoints(ppStack));
      }
    }

    // The innermost block has its opening brace.
    method MarkOpenBrace()
      requires Valid() && stack != []
      modifies Top(stack)
      ensures Valid()
      ensures View() == State(OnTop(old(View()).stack, Top(old(View()).stack).(seenOpenBrace := true)),
                              old(View()).pp)
      ensures stack == old(stack) && Blocks() == old(Blocks())
      ensures ppStack == old(ppStack) && BlocksOf(ppStack) == old(BlocksOf(ppStack))
    {
      Top(stack).seenOpenBrace := true;
    }

    method SetAccessInPlace(access: Access)
      requires Valid()
      modifies Blocks()
      ensures Valid()
      ensures View() == State(SetAccess(old(View()).stack, access), old(View()).pp)
      ensures stack == old(stack) && Blocks() == old(Blocks())
      ensures ppStack == old(ppStack) && BlocksOf(ppStack) == old(BlocksOf(ppStack))
    {
      if stack != [] && Top(stack).kind.ClassBlock? && access.SetTo? {
        Top(stack).access := access.access;
      }
    }

    // ---- A whole line, and whole files ----

    method ConsumeToken(t: Token)
      requires Valid()
      modifies `stack, Blocks()
      ensures Valid() && View() == State(Consume(old(View()).stack, t), old(View()).pp)
      ensures ppStack == old(ppStack) && BlocksOf(ppStack) == old(BlocksOf(ppStack))
      ensures forall b | b in Blocks() :: b in old(Blocks()) || fresh(b)
    {
      match t
      case OpenBrace(block) =>
        ConsumeOpenBrace(block);
      case EndOfHead =>
        var seen := stack == [] || Top(stack).seenOpenBrace;
      assert seen <==> SeenOpenBrace(View().stack);
        hide Valid, View, BlocksOf, Blocks;
        if !seen {
          Drop();
        }
      case CloseBrace =>
        assert stack == [] <==> View().stack == [];
        hide Valid, View, BlocksOf, Blocks;
        if stack != [] {
          Drop();
        }
    }

    // An opening brace is that of the innermost block, if that has none yet.
    method ConsumeOpenBrace(block: BlockValue)
      requires Valid()
      modifies `stack, Blocks()
      ensures Valid() && View() == State(Consume(old(View()).stack, OpenBrace(block)), old(View()).pp)
      ensures ppStack == old(ppStack) && BlocksOf(ppStack) == old(BlocksOf(ppStack))
      ensures forall b | b in Blocks() :: b in old(Blocks()) || fresh(b)
    {
      var seen := stack == [] || Top(stack).seenOpenBrace;
      assert seen <==> SeenOpenBrace(View().stack);
      hide Valid, View, BlocksOf, Blocks;
      if seen {
        Push(block);
      } else {
        MarkOpenBrace();
      }
    }

    // What is left of the line after its declarations.
    method FinishLine(rest: Rest)
      requires Valid()
      modifies `stack, Blocks()
      ensures Valid() && View() == State(RestOfLine(old(View()).stack, rest), old(View()).pp)
      ensures ppStack == old(ppStack) && BlocksOf(ppStack) == old(BlocksOf(ppStack))
      ensures forall b | b in Blocks() :: b in old(Blocks()) || fresh(b)
    {
      hide Valid, View, BlocksOf, Blocks, SetAccess, Consume;
      SetAccessInPlace(rest.access);
      ghost var s := View().stack;
      for i := 0 to |rest.tokens|
        invariant Valid() && View() == State(ConsumeAll(s, rest.tokens[..i]), old(View()).pp)
        invariant ppStack == old(ppStack) && BlocksOf(ppStack) == old(BlocksOf(ppStack))
        invariant forall b | b in Blocks() :: b in old(Blocks()) || fresh(b)
      {
        assert Pop(rest.tokens[..i + 1]) == rest.tokens[..i] && Top(rest.tokens[..i + 1]) == rest.tokens[i];
        ConsumeToken(rest.tokens[i]);
      }
      assert rest.tokens[..|rest.tokens|] == rest.tokens;
    }

    // The class that the line declares, and the rest.
    method DeclareAndFinish(p: Parsed)
      requires Valid()
      modifies `stack, Blocks()
      ensures Valid()
      ensures View() == State(if TakesClass(old(View()).stack, p) then
                                RestOfLine(old(View()).stack + [p.declared.value], p.after)
                              else RestOfLine(old(View()).stack, p.otherwise), old(View()).pp)
      ensures ppStack == old(ppStack) && BlocksOf(ppStack) == old(BlocksOf(ppStack))
      ensures forall b | b in Blocks() :: b in old(Blocks()) || fresh(b)
    {
      var takes := p.declared.Some? && (stack == [] || Top(stack).openParentheses == 0);
      assert takes <==> TakesClass(View().stack, p);
      hide TakesClass;
      hide Valid, View, BlocksOf, Blocks, RestOfLine;
      if takes {
        Push(p.declared.value);
        FinishLine(p.after);
      } else {
        FinishLine(p.otherwise);
      }
    }

    // `Update`
    method Update(p: Parsed)
      requires Valid()
      modifies this, ppStack, Blocks(), BlocksOf(ppStack)
      ensures Valid() && View() == Step(old(View()), LineOf(p))
      ensures forall b | b in Blocks() :: b in old(Blocks()) || b in old(BlocksOf(ppStack)) || fresh(b)
      ensures forall info | info in ppStack :: info in old(ppStack) || fresh(info)
      ensures forall b | b in BlocksOf(ppStack) :: b in old(BlocksOf(ppStack)) || fresh(b)
    {
      hide Valid, View, BlocksOf, Blocks, CountParentheses, RestOfLine, Preprocess;
      UpdatePreprocessor(p.line);
      CountInPlace(p.line, p.asm);
      ghost var counted, blocks := View(), Blocks();
      ghost var infos, owned := ppStack, BlocksOf(ppStack);
      for i := 0 to |p.namespaces|
        invariant Valid() && View() == State(counted.stack + p.namespaces[..i], counted.pp)
        invariant ppStack == infos && BlocksOf(ppStack) == owned
        invariant forall b | b in Blocks() :: b in blocks || fresh(b)
      {
        assert p.namespaces[..i + 1] == p.namespaces[..i] + [p.namespaces[i]];
        Push(p.namespaces[i]);
      }
      assert p.namespaces[..|p.namespaces|] == p.namespaces;
      DeclareAndFinish(p);
    }

    // Line after line. Of well-nested lines only the first branches count.
    method UpdateAll(ps: seq<Parsed>)
      requires Valid()
      modifies this, ppStack, Blocks(), BlocksOf(ppStack)
      ensures Valid() && View() == Run(old(View()), LinesOf(ps))
      ensures WellNested(LinesOf(ps), 0) ==>
                View() == State(Plain(old(View()).stack, FirstBranches(LinesOf(ps))), old(View()).pp)
    {
      hide Valid, View, BlocksOf, Blocks, Step, WellNested, FirstBranches, LineOf;
      ghost var before := View();
      assert ps[0..] == ps;
      for i := 0 to |ps|
        invariant Valid() && Run(View(), LinesOf(ps[i..])) == Run(before, LinesOf(ps))
        invariant forall b | b in Blocks() :: b in old(Blocks()) || b in old(BlocksOf(ppStack)) || fresh(b)
        invariant forall info | info in ppStack :: info in old(ppStack) || fresh(info)
        invariant forall b | b in BlocksOf(ppStack) :: b in old(BlocksOf(ppStack)) || fresh(b)
      {
        assert ps[i..][0] == ps[i] && ps[i..][1..] == ps[i + 1..];
        assert LinesOf(ps[i..])[0] == LineOf(ps[i]) && LinesOf(ps[i..])[1..] == LinesOf(ps[i + 1..]);
        assert forall k | 0 <= k < |ppStack| :: ppStack[k] in ppStack;
        Update(ps[i]);
      }
      if WellNested(LinesOf(ps), 0) {
        OnlyFirstBranchesCount(before, LinesOf(ps));
      }
    }
  }
}
