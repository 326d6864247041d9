/**
 What a new rule of the installer puts into the flow table, in terms of the entries that are there:
 the chain that is next in turn, and its reverse for the other direction.
 */
module FlowTurns {
  import opened Arithmetic
  import opened FlowRules

  // The byte order is reversed.
  lemma SwapsBytes(a: nat, b: nat, c: nat, d: nat)
    requires a < 256 && b < 256 && c < 256 && d < 256
    ensures Swap16(256 * a + b) == 256 * b + a
    ensures Swap32(0x100_0000 * a + 0x1_0000 * b + 0x100 * c + d) == 0x100_0000 * d + 0x1_0000 * c + 0x100 * b + a
  {
    var high, low := 256 * a + b, 256 * c + d;
    assert 0x100_0000 * a + 0x1_0000 * b + 0x100 * c + d == 0x1_0000 * high + low;
    SwapsPair(a, b);
    SwapsPair(c, d);
    hide Swap16;
    assert (0x1_0000 * high + low) % 0x1_0000 == low && (0x1_0000 * high + low) / 0x1_0000 == high;
  }

  lemma SwapsPair(a: nat, b: nat)
    requires a < 256 && b < 256
    ensures Swap16(256 * a + b) == 256 * b + a
  {
  }

  // TCP flows to port 6000 always get the first chain and take no turn.
  predicate TakesTcpTurn(k: Key) { k.proto == 6 && Swap16(k.dstPort) != 6000 }

  ghost function TcpTurns(table: map<Key, Chain>): set<Key> {
    set k | k in table && table[k].Forward? && TakesTcpTurn(k)
  }

  ghost function UdpTurns(table: map<Key, Chain>): set<Key> {
    set k | k in table && table[k].Forward? && k.proto == 17
  }

  // The chain whose turn it is: TCP flows go round the even indexes, UDP flows round the odd ones.
  ghost function InTurn(max: nat, table: map<Key, Chain>, k: Key): Chain {
    if k.proto == 6 && max >= 1 then
      Forward(if TakesTcpTurn(k) then 2 * (|TcpTurns(table)| % ((max + 1) / 2)) else 0)
    else if k.proto == 17 && max >= 2 then Forward(1 + 2 * (|UdpTurns(table)| % (max / 2)))
    else NoChain
  }

  // The two counters of the program are the numbers of flows on the forward chains, going round.
  ghost predicate CountersOk(s: State) {
    && |s.refs| == |s.flipRefs| == s.max
    && (s.max >= 1 ==> s.tcp == 2 * (|TcpTurns(s.table)| % ((s.max + 1) / 2)))
    && (s.max < 2 ==> s.udp == 1)
    && (s.max >= 2 ==> s.udp == 1 + 2 * (|UdpTurns(s.table)| % (s.max / 2)))
  }

  // One forward entry more.
  lemma TurnsGrow(table: map<Key, Chain>, k: Key, i: nat)
    requires k !in table
    ensures |TcpTurns(table[k := Forward(i)])| == |TcpTurns(table)| + if TakesTcpTurn(k) then 1 else 0
    ensures |UdpTurns(table[k := Forward(i)])| == |UdpTurns(table)| + if k.proto == 17 then 1 else 0
  {
    TcpTurnsGrow(table, k, i);
    UdpTurnsGrow(table, k, i);
    hide *;
  }

  lemma TcpTurnsGrow(table: map<Key, Chain>, k: Key, i: nat)
    requires k !in table
    ensures |TcpTurns(table[k := Forward(i)])| == |TcpTurns(table)| + if TakesTcpTurn(k) then 1 else 0
  {
    hide TakesTcpTurn;
    var before, after := TcpTurns(table), TcpTurns(table[k := Forward(i)]);
    assert forall j | j != k :: j in after <==> j in before;
    assert k in after <==> TakesTcpTurn(k);
    assert k !in before;
    hide *;
    assert after == if k in after then before + {k} else before;
  }

  lemma UdpTurnsGrow(table: map<Key, Chain>, k: Key, i: nat)
    requires k !in table
    ensures |UdpTurns(table[k := Forward(i)])| == |UdpTurns(table)| + if k.proto == 17 then 1 else 0
  {
    var before, after := UdpTurns(table), UdpTurns(table[k := Forward(i)]);
    assert forall j | j != k :: j in after <==> j in before;
    assert k in after <==> k.proto == 17;
    assert k !in before;
    hide *;
    assert after == if k in after then before + {k} else before;
  }

  // Entries of the other direction take no turn.
  lemma FlipTakesNoTurn(table: map<Key, Chain>, k: Key, i: nat)
    requires k !in table
    ensures TcpTurns(table[k := Flip(i)]) == TcpTurns(table) && UdpTurns(table[k := Flip(i)]) == UdpTurns(table)
  {
    hide Swap16;
  }

  // The rule goes in: memory can be had and the flow has no entry.
  predicate GoesIn(s: State, k: Key, luck: Luck) { !s.exited && luck.key && luck.entry && k !in s.table }

  // The table after a rule that goes in. Where it is nobody's turn, the program gives up.
  lemma OneRule(s: State, k: Key, luck: Luck)
    requires CountersOk(s) && GoesIn(s, k, luck)
    ensures var t, c := AddRule(s, k, luck), InTurn(s.max, s.table, k);
            var r := Key(k.dstAddr, k.srcAddr, k.dstPort, k.srcPort, k.proto);
            && (t.exited <==> c.NoChain?)
            && t.table == (if c.Forward? && r != k && r !in s.table && luck.flipKey && luck.flipEntry
                           then s.table[k := c][r := Flip(c.index)] else s.table[k := c])
            && (!t.exited ==> CountersOk(t))
  {
    hide Swap16, TcpTurns, UdpTurns;
    var n, m := |TcpTurns(s.table)|, |UdpTurns(s.table)|;
    if s.max >= 1 {
      NextTurn(n, (s.max + 1) / 2);
    }
    if s.max >= 2 {
      NextTurn(m, s.max / 2);
    }
    var c := InTurn(s.max, s.table, k);
    ChoiceInTurn(s, k);
    if c.Forward? {
      TurnsGrow(s.table, k, c.index);
      var t := s.table[k := c];
      if Reverse(k) !in t {
        FlipTakesNoTurn(t, Reverse(k), c.index);
      }
    }
  }

  lemma ChoiceInTurn(s: State, k: Key)
    requires CountersOk(s)
    ensures var c, d := InTurn(s.max, s.table, k), Choose(s.max, s.tcp, s.udp, k);
            d.index == if c.Forward? then c.index else -1
  {
    hide Swap16, TcpTurns, UdpTurns;
    if s.max >= 1 {
      EvenBound(|TcpTurns(s.table)|, s.max);
    }
    if s.max >= 2 {
      OddBound(|UdpTurns(s.table)|, s.max);
    }
  }

  lemma EvenBound(n: nat, max: nat)
    requires max >= 1
    ensures 2 * (n % ((max + 1) / 2)) < max
  {
  }

  lemma OddBound(n: nat, max: nat)
    requires max >= 2
    ensures 1 + 2 * (n % (max / 2)) < max
  {
  }

  // A rule that does not go in changes nothing.
  lemma NoRule(s: State, k: Key, luck: Luck)
    requires |s.refs| == |s.flipRefs| == s.max && !GoesIn(s, k, luck)
    ensures AddRule(s, k, luck) == s
  {
  }

  lemma {:induction false} CountersOfRun(s: State, rules: seq<Rule>)
    requires |s.refs| == |s.flipRefs| == s.max && (!s.exited ==> CountersOk(s))
    ensures var t := Run(s, rules); |t.refs| == |t.flipRefs| == t.max == s.max && (!t.exited ==> CountersOk(t))
    decreases |rules|
  {
    if rules != [] {
      var k, luck := rules[0].key, rules[0].luck;
      if GoesIn(s, k, luck) {
        OneRule(s, k, luck);
      } else {
        NoRule(s, k, luck);
      }
      assert |AddRule(s, k, luck).refs| == |AddRule(s, k, luck).flipRefs| == s.max;
      hide CountersOk, AddRule;
      CountersOfRun(AddRule(s, k, luck), rules[1..]);
    }
  }

  // After any run from the start: a rule that goes in puts its flow on the chain whose turn it is and,
  // if memory can be had, the other direction on the reverse of that chain, and changes no other
  // entry; any other rule changes nothing.
  lemma NextRule(max: nat, rules: seq<Rule>, k: Key, luck: Luck)
    ensures var s := Run(Initial(max), rules);
            var c, r := InTurn(max, s.table, k), Key(k.dstAddr, k.srcAddr, k.dstPort, k.srcPort, k.proto);
            && |s.refs| == |s.flipRefs| == s.max == max
            && var t := AddRule(s, k, luck);
            if GoesIn(s, k, luck) then
              && (t.exited <==> c.NoChain?)
              && t.table == (if c.Forward? && r != k && r !in s.table && luck.flipKey && luck.flipEntry
                             then s.table[k := c][r := Flip(c.index)] else s.table[k := c])
            else t == s
  {
    var s0 := Initial(max);
    assert TcpTurns(s0.table) == {} && UdpTurns(s0.table) == {};
    CountersOfRun(s0, rules);
    var s := Run(s0, rules);
    hide CountersOk, AddRule, InTurn, Initial, Run;
    if GoesIn(s, k, luck) {
      OneRule(s, k, luck);
    } else {
      NoRule(s, k, luck);
    }
  }
}
