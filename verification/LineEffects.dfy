/**
 What a line does to the nesting stack of `style/gwclint.py`, told apart from the functions of
 NestingState: its parentheses, its braces, and the classes that it declares.
 */
module LineEffects {
  import opened Options
  import opened Sequences
  import opened PreprocessorLines
  import opened NestingState

  lemma {:induction false} CountIs(s: string, c: char)
    ensures Count(s, c) == multiset(s)[c]
  {
    if s != "" {
      CountIs(Pop(s), c);
      assert s == Pop(s) + [Top(s)];
    }
  }

  // The innermost block counts the open parentheses. An assembly block begins with the first of them
  // on a line with its keyword, ends on the line that closes the last, and is forgotten after that.
  lemma ParenthesesAre(s: Stack, b: BlockValue, line: string, asm: bool)
    ensures CountParentheses([], line, asm) == []
    ensures var more: int, fewer: int := multiset(line)['('], multiset(line)[')'];
            var change := more - fewer;
            var open := b.openParentheses + change;
            CountParentheses(s + [b], line, asm) ==
            s + [b.(openParentheses := open,
                    inlineAsm := match b.inlineAsm
                                 case NoAsm => if asm && change != 0 && open == 1 then InsideAsm else NoAsm
                                 case EndAsm => if asm && change != 0 && open == 1 then InsideAsm else NoAsm
                                 case InsideAsm => if open == 0 then EndAsm else InsideAsm
                                 case BlockAsm => BlockAsm)]
  {
    CountIs(line, '(');
    CountIs(line, ')');
    assert Pop(s + [b]) == s && Top(s + [b]) == b;
    hide Count;
  }

  // An opening brace completes a head or begins a block; a semicolon or parenthesis ends a head that
  // has no brace yet, and a closing brace ends a block.
  lemma TokensAre(s: Stack, b: BlockValue, x: BlockValue)
    ensures b.seenOpenBrace ==> Consume(s + [b], OpenBrace(x)) == s + [b, x]
    ensures b.seenOpenBrace ==> Consume(s + [b], EndOfHead) == s + [b]
    ensures !b.seenOpenBrace ==> Consume(s + [b], OpenBrace(x)) == s + [b.(seenOpenBrace := true)]
    ensures !b.seenOpenBrace ==> Consume(s + [b], EndOfHead) == s
    ensures Consume(s + [b], CloseBrace) == s
    ensures Consume([], OpenBrace(x)) == [x] && Consume([], EndOfHead) == [] && Consume([], CloseBrace) == []
  {
    assert Pop(s + [b]) == s && Top(s + [b]) == b;
    assert s + [b] + [x] == s + [b, x];
  }

  // Braces that close what they open; `depth` are open already. The blocks that begin with a brace
  // have seen it.
  predicate Braced(ts: seq<Token>, depth: nat)
    decreases |ts|
  {
    if ts == [] then depth == 0
    else
      match ts[0]
      case OpenBrace(block) => block.seenOpenBrace && Braced(ts[1..], depth + 1)
      case EndOfHead => Braced(ts[1..], depth)
      case CloseBrace => depth > 0 && Braced(ts[1..], depth - 1)
  }

  lemma {:induction false} ConsumeFirst(s: Stack, t: Token, ts: seq<Token>)
    ensures ConsumeAll(s, [t] + ts) == ConsumeAll(Consume(s, t), ts)
    decreases |ts|
  {
    hide Consume;
    if ts == [] {
      assert [t] + ts == [t] && Pop([t]) == [];
    } else {
      assert Pop([t] + ts) == [t] + Pop(ts) && Top([t] + ts) == Top(ts);
      ConsumeFirst(s, t, Pop(ts));
    }
  }

  predicate AllSeen(open: Stack) { forall b | b in open :: b.seenOpenBrace }

  // The blocks above `s` after a token that fits.
  function Above(open: Stack, t: Token): Stack {
    match t
    case OpenBrace(block) => open + [block]
    case EndOfHead => open
    case CloseBrace => if open == [] then [] else Pop(open)
  }

  lemma OneBrace(s: Stack, open: Stack, t: Token)
    requires SeenOpenBrace(s) && AllSeen(open)
    requires (t.OpenBrace? ==> t.block.seenOpenBrace) && (t.CloseBrace? ==> open != [])
    ensures Consume(s + open, t) == s + Above(open, t) && AllSeen(Above(open, t))
  {
    if open != [] {
      assert Top(s + open) == Top(open) && Top(open) in open;
      assert Pop(s + open) == s + Pop(open);
    } else {
      assert s + open == s;
    }
    if t.OpenBrace? {
      assert s + open + [t.block] == s + (open + [t.block]);
    }
  }

  // Such tokens leave nothing behind on top of a block that has seen its brace.
  lemma {:induction false} BracesRestore(s: Stack, open: Stack, ts: seq<Token>)
    requires SeenOpenBrace(s) && AllSeen(open) && Braced(ts, |open|)
    ensures ConsumeAll(s + open, ts) == s
    decreases |ts|
  {
    if ts == [] {
      assert s + open == s;
    } else {
      hide ConsumeAll, Consume, SeenOpenBrace, AllSeen;
      var t, rest := ts[0], ts[1..];
      OneBrace(s, open, t);
      BracesRestore(s, Above(open, t), rest);
      hide *;
      assert ts == [t] + rest;
      ConsumeFirst(s + open, t, rest);
    }
  }

  // A line that declares a class and has its body, too: the class is on the stack, complete, behind
  // the namespaces and with the access that the line sets.
  lemma ClassWithBody(s: Stack, p: Parsed, b: BlockValue, x: BlockValue, body: seq<Token>)
    requires p.declared == Some(b) && TakesClass(CountParentheses(s, p.line, p.asm) + p.namespaces, p)
    requires !b.seenOpenBrace && b.kind.ClassBlock? && p.after.tokens == [OpenBrace(x)] + body && Braced(body, 0)
    ensures EffectOn(s, p) ==
            CountParentheses(s, p.line, p.asm) + p.namespaces +
            [b.(seenOpenBrace := true, access := if p.after.access.SetTo? then p.after.access.access else b.access)]
  {
    var s1 := CountParentheses(s, p.line, p.asm) + p.namespaces;
    hide CountParentheses, ConsumeAll, Braced;
    assert Pop(s1 + [b]) == s1 && Top(s1 + [b]) == b;
    var named := b.(access := if p.after.access.SetTo? then p.after.access.access else b.access);
    assert SetAccess(s1 + [b], p.after.access) == s1 + [named];
    ConsumeFirst(s1 + [named], OpenBrace(x), body);
    TokensAre(s1, named, x);
    var s2 := s1 + [named.(seenOpenBrace := true)];
    assert SeenOpenBrace(s2) && s2 + [] == s2;
    BracesRestore(s2, [], body);
  }

  // A line that only announces a class leaves nothing of it.
  lemma ClassAnnounced(s: Stack, p: Parsed, b: BlockValue)
    requires p.declared == Some(b) && TakesClass(CountParentheses(s, p.line, p.asm) + p.namespaces, p)
    requires !b.seenOpenBrace && p.after.tokens == [EndOfHead]
    ensures EffectOn(s, p) == CountParentheses(s, p.line, p.asm) + p.namespaces
  {
    hide CountParentheses, ConsumeAll, Consume, SetAccess;
    var s1 := CountParentheses(s, p.line, p.asm) + p.namespaces;
    var c := AccessOnTop(s1, b, p.after.access);
    TokensAre(s1, c, c);
    OneToken(s1 + [c], EndOfHead);
  }

  lemma AccessOnTop(s: Stack, b: BlockValue, access: Access) returns (c: BlockValue)
    ensures c.seenOpenBrace == b.seenOpenBrace && SetAccess(s + [b], access) == s + [c]
  {
    assert Pop(s + [b]) == s && Top(s + [b]) == b;
    c := if b.kind.ClassBlock? && access.SetTo? then b.(access := access.access) else b;
  }

  lemma OneToken(s: Stack, t: Token)
    ensures ConsumeAll(s, [t]) == Consume(s, t)
  {
    hide Consume;
    assert Pop([t]) == [] && Top([t]) == t && ConsumeAll(s, []) == s;
  }
}
