/**
 The rule installer (`examples/flow_rule_installer/flow_rule_installer.c`): which chain a flow gets,
 and the flow table with an entry for each direction of a flow.
 */
module FlowRules {

  const TCP := 6
  const UDP := 17

  // The 5-tuple of a flow. Addresses and ports are in network byte order, as they lie in memory.
  datatype Key = Key(srcAddr: nat, dstAddr: nat, srcPort: nat, dstPort: nat, proto: nat)

  // The key of the other direction.
  function Reverse(k: Key): Key {
    Key(k.dstAddr, k.srcAddr, k.dstPort, k.srcPort, k.proto)
  }

  // `rte_be_to_cpu_16` and its inverse, on a little-endian machine.
  function Swap16(n: nat): nat {
    n % 256 * 256 + n / 256 % 256
  }

  function Swap32(n: nat): nat {
    Swap16(n % 0x1_0000) * 0x1_0000 + Swap16(n / 0x1_0000)
  }

  function ToNetwork(k: Key): Key {
    Key(Swap32(k.srcAddr), Swap32(k.dstAddr), Swap16(k.srcPort), Swap16(k.dstPort), k.proto)
  }

  // The service chain of an entry: one of a pair, or none where the program gives up.
  datatype Chain = Forward(index: nat) | Flip(index: nat) | NoChain

  datatype State =
    State(max: nat, tcp: nat, udp: nat, refs: seq<nat>, flipRefs: seq<nat>, table: map<Key, Chain>, exited: bool)

  // Whether the allocations and the insertions for one rule succeed.
  datatype Luck = Luck(key: bool, entry: bool, flipKey: bool, flipEntry: bool)

  // ---- The index of the chain ----

  datatype Choice = Choice(index: int, tcp: nat, udp: nat)

  function Choose(max: nat, tcp: nat, udp: nat, k: Key): Choice {
    if max == 0 then Choice(-1, tcp, udp)
    else if k.proto == TCP then
      var web := Swap16(k.dstPort) == 6000;
      var next := if web then tcp else tcp + 2;
      var index := if web then 0 else tcp;
      Choice(if index >= max then -1 else index, if next >= max then 0 else next, udp)
    else if k.proto == UDP then
      var next := udp + 2;
      Choice(if udp >= max then -1 else udp, tcp, if next >= max then 1 else next)
    else Choice(-1, tcp, udp)
  }

  // ---- One rule ----

  function AddFlip(s: State, k: Key, index: nat, luck: Luck): State
    requires index < |s.flipRefs|
  {
    var flip := Reverse(k);
    if !luck.flipKey || flip in s.table || !luck.flipEntry then s
    else s.(table := s.table[flip := Flip(index)], flipRefs := s.flipRefs[index := s.flipRefs[index] + 1])
  }

  function AddRule(s: State, k: Key, luck: Luck): State
    requires |s.refs| == |s.flipRefs| == s.max
  {
    if s.exited || !luck.key || k in s.table || !luck.entry then s
    else
      var c := Choose(s.max, s.tcp, s.udp, k);
      var s1 := s.(tcp := c.tcp, udp := c.udp);
      if c.index < 0 then s1.(table := s1.table[k := NoChain], exited := true)
      else
        var i := c.index;
        AddFlip(s1.(table := s1.table[k := Forward(i)], refs := s1.refs[i := s1.refs[i] + 1]), k, i, luck)
  }

  // ---- What the table should be ----

  // Each flow has both directions, on the two chains of one index; a flow that is its own reverse
  // has its one entry on the forward chain.
  ghost predicate Closed(table: map<Key, Chain>) {
    forall k | k in table :: Paired(table, k)
  }

  ghost predicate Paired(table: map<Key, Chain>, k: Key)
    requires k in table
  {
    var r := Reverse(k);
    && r in table
    && (k == r ==> table[k].Forward?)
    && (k != r ==> (table[k].Forward? && table[r] == Flip(table[k].index)) ||
                   (table[k].Flip? && table[r] == Forward(table[k].index)))
  }

  // The entries on one chain.
  ghost function On(table: map<Key, Chain>, c: Chain): set<Key> {
    set k | k in table && table[k] == c
  }

  ghost predicate RefsOk(s: State) {
    && |s.refs| == |s.flipRefs| == s.max
    && forall i | 0 <= i < s.max ::
         s.refs[i] == |On(s.table, Forward(i))| && s.flipRefs[i] == |On(s.table, Flip(i))|
  }

  // TCP takes the chains of even index in turn, UDP those of odd index.
  ghost predicate TurnsOk(s: State) {
    s.tcp % 2 == 0 && s.udp % 2 == 1 && (s.max > 0 ==> s.tcp < s.max) && (s.max > 1 ==> s.udp < s.max)
  }

  ghost predicate IndexOk(max: nat, k: Key, c: Chain) {
    c.NoChain? || (c.index < max && (k.proto == TCP ==> c.index % 2 == 0) && (k.proto == UDP ==> c.index % 2 == 1))
  }

  ghost predicate Inv(s: State) {
    RefsOk(s) && TurnsOk(s) && forall k | k in s.table :: IndexOk(s.max, k, s.table[k])
  }

  // ---- The round robin ----

  lemma ChooseKeepsTurns(s: State, k: Key)
    requires TurnsOk(s)
    ensures var c := Choose(s.max, s.tcp, s.udp, k);
            && TurnsOk(s.(tcp := c.tcp, udp := c.udp))
            && (c.index >= 0 ==> IndexOk(s.max, k, Forward(c.index)) && IndexOk(s.max, Reverse(k), Flip(c.index)))
            && (c.index >= 0 <==> (k.proto == TCP && s.max >= 1) || (k.proto == UDP && s.max >= 2))
  {}

  // ---- Reference counts ----

  lemma OnGrows(table: map<Key, Chain>, k: Key, c: Chain, d: Chain)
    requires k !in table
    ensures |On(table[k := c], d)| == |On(table, d)| + if c == d then 1 else 0
  {
    if c == d {
      assert On(table[k := c], d) == On(table, d) + {k};
    } else {
      assert On(table[k := c], d) == On(table, d);
    }
  }

  lemma FlipKeepsInv(s: State, k: Key, index: nat, luck: Luck)
    requires Inv(s) && index < s.max && IndexOk(s.max, Reverse(k), Flip(index))
    ensures Inv(AddFlip(s, k, index, luck))
  {
    var t := AddFlip(s, k, index, luck);
    if t != s {
      forall i | 0 <= i < s.max
        ensures t.refs[i] == |On(t.table, Forward(i))| && t.flipRefs[i] == |On(t.table, Flip(i))|
      {
        OnGrows(s.table, Reverse(k), Flip(index), Forward(i));
        OnGrows(s.table, Reverse(k), Flip(index), Flip(i));
      }
    }
  }

  // Whatever fails, the counts are those of the table and the indexes are in turn.
  lemma RuleKeepsInv(s: State, k: Key, luck: Luck)
    requires Inv(s)
    ensures Inv(AddRule(s, k, luck))
  {
    if !(s.exited || !luck.key || k in s.table || !luck.entry) {
      ChooseKeepsTurns(s, k);
      var c := Choose(s.max, s.tcp, s.udp, k);
      var chain := if c.index < 0 then NoChain else Forward(c.index);
      var table := s.table[k := chain];
      forall i | 0 <= i < s.max
        ensures |On(table, Forward(i))| == s.refs[i] + if chain == Forward(i) then 1 else 0
        ensures |On(table, Flip(i))| == s.flipRefs[i]
      {
        OnGrows(s.table, k, chain, Forward(i));
        OnGrows(s.table, k, chain, Flip(i));
      }
      if c.index >= 0 {
        var refs := s.refs[c.index := s.refs[c.index] + 1];
        FlipKeepsInv(s.(tcp := c.tcp, udp := c.udp, table := table, refs := refs), k, c.index, luck);
      }
    }
  }

  // ---- Closure under reversal ----

  // The rule goes in without its other half: no chain for it, or no room for the reverse key.
  predicate Tears(s: State, k: Key, luck: Luck) {
    && !s.exited && luck.key && k !in s.table && luck.entry
    && (Choose(s.max, s.tcp, s.udp, k).index < 0 || (Reverse(k) != k && !(luck.flipKey && luck.flipEntry)))
  }

  // An entry whose other half is missing or on another chain.
  ghost predicate TornAt(table: map<Key, Chain>, bad: Key) {
    bad in table && !table[bad].Flip? && !Paired(table, bad)
  }

  // An entry that is not paired will never be: what could pair it is never added.
  lemma TornStays(s: State, bad: Key, k: Key, luck: Luck)
    requires |s.refs| == |s.flipRefs| == s.max && TornAt(s.table, bad)
    ensures TornAt(AddRule(s, k, luck).table, bad)
  {}

  // A rule keeps the table closed if and only if it does not tear.
  lemma RuleKeepsClosed(s: State, k: Key, luck: Luck)
    requires Closed(s.table) && |s.refs| == |s.flipRefs| == s.max
    ensures Closed(AddRule(s, k, luck).table) <==> !Tears(s, k, luck)
    ensures Tears(s, k, luck) ==> TornAt(AddRule(s, k, luck).table, k)
  {
    var t := AddRule(s, k, luck).table;
    if !(s.exited || !luck.key || k in s.table || !luck.entry) {
      assert Reverse(Reverse(k)) == k;
      assert Reverse(k) in s.table ==> Paired(s.table, Reverse(k));
      assert Reverse(k) !in s.table;
      if Tears(s, k, luck) {
        assert !Paired(t, k);
      } else {
        forall j | j in t ensures Paired(t, j) {
          if j in s.table {
            assert Paired(s.table, j);
          }
        }
      }
    }
  }

  // ---- Runs ----

  datatype Rule = Rule(key: Key, luck: Luck)

  function Run(s: State, rules: seq<Rule>): State
    requires |s.refs| == |s.flipRefs| == s.max
    decreases |rules|
  {
    if rules == [] then s else Run(AddRule(s, rules[0].key, rules[0].luck), rules[1..])
  }

  // Some rule of the run tears.
  predicate RunTears(s: State, rules: seq<Rule>)
    requires |s.refs| == |s.flipRefs| == s.max
    decreases |rules|
  {
    rules != [] &&
    (Tears(s, rules[0].key, rules[0].luck) || RunTears(AddRule(s, rules[0].key, rules[0].luck), rules[1..]))
  }

  function Initial(max: nat): State {
    State(max, 0, 1, seq(max, _ => 0), seq(max, _ => 0), map[], false)
  }

  lemma {:induction false} RunKeepsInv(s: State, rules: seq<Rule>)
    requires Inv(s)
    ensures Inv(Run(s, rules)) && Run(s, rules).max == s.max
    decreases |rules|
  {
    if rules != [] {
      RuleKeepsInv(s, rules[0].key, rules[0].luck);
      RunKeepsInv(AddRule(s, rules[0].key, rules[0].luck), rules[1..]);
    }
  }

  lemma {:induction false} RunKeepsTorn(s: State, rules: seq<Rule>, bad: Key)
    requires |s.refs| == |s.flipRefs| == s.max && TornAt(s.table, bad)
    ensures TornAt(Run(s, rules).table, bad)
    decreases |rules|
  {
    if rules != [] {
      TornStays(s, bad, rules[0].key, rules[0].luck);
      RunKeepsTorn(AddRule(s, rules[0].key, rules[0].luck), rules[1..], bad);
    }
  }

  lemma {:induction false} RunKeepsClosed(s: State, rules: seq<Rule>)
    requires |s.refs| == |s.flipRefs| == s.max && Closed(s.table)
    ensures Closed(Run(s, rules).table) <==> !RunTears(s, rules)
    decreases |rules|
  {
    if rules != [] {
      var r := rules[0];
      var next := AddRule(s, r.key, r.luck);
      RuleKeepsClosed(s, r.key, r.luck);
      if Tears(s, r.key, r.luck) {
        RunKeepsTorn(next, rules[1..], r.key);
      } else {
        RunKeepsClosed(next, rules[1..]);
      }
    }
  }

  // In every run from the start, whatever fails: each chain's count is the number of entries that
  // point to it, and the table is closed under reversal exactly when no rule tore it.
  lemma TableOfRun(max: nat, rules: seq<Rule>)
    ensures var s := Run(Initial(max), rules);
            && RefsOk(s)
            && (forall k | k in s.table :: IndexOk(max, k, s.table[k]))
            && (Closed(s.table) <==> !RunTears(Initial(max), rules))
  {
    var s := Initial(max);
    forall i | 0 <= i < max ensures On(s.table, Forward(i)) == {} && On(s.table, Flip(i)) == {} {}
    RunKeepsInv(s, rules);
    RunKeepsClosed(s, rules);
  }

  // With two chains, TCP and UDP flows, and room for every reverse key, no rule tears and the
  // program does not give up.
  lemma {:induction false} TwoChainsSuffice(s: State, rules: seq<Rule>)
    requires Inv(s) && s.max >= 2
    requires forall r | r in rules :: r.key.proto in {TCP, UDP} && r.luck.flipKey && r.luck.flipEntry
    ensures !RunTears(s, rules)
    ensures Run(s, rules).exited == s.exited
    decreases |rules|
  {
    if rules != [] {
      var r := rules[0];
      ChooseKeepsTurns(s, r.key);
      RuleKeepsInv(s, r.key, r.luck);
      TwoChainsSuffice(AddRule(s, r.key, r.luck), rules[1..]);
    }
  }

  // One chain does not: the first UDP flow finds none.
  lemma OneChainIsNotEnough(k: Key, luck: Luck)
    requires k.proto == UDP && luck.key && luck.entry
    ensures Tears(Initial(1), k, luck) && AddRule(Initial(1), k, luck).exited
  {}

  // ---- The installer as an object ----

  const OK := 0
  const ENOMEM := -12
  const EEXIST := -17

  // What becomes of the packet.
  datatype Verdict = ToNextNf | ToPort(port: nat) | Dropped(port: nat) | NoMemory | Exit

  // What the header of a packet gives: no IPv4 header, or the key of its flow.
  datatype Header = NoIpv4 | Ipv4(key: Key)

  class Installer {
    const max: nat
    var tcp: nat
    var udp: nat
    const refs: array<nat>
    const flipRefs: array<nat>
    var table: map<Key, Chain>
    var exited: bool

    ghost predicate Valid()
      reads this
    {
      refs.Length == flipRefs.Length == max && refs != flipRefs
    }

    ghost function View(): State
      reads this, refs, flipRefs
    {
      State(max, tcp, udp, refs[..], flipRefs[..], table, exited)
    }

    // `max` chains and their reverses have been read.
    constructor (max: nat)
      ensures Valid() && fresh(refs) && fresh(flipRefs) && View() == Initial(max)
    {
      this.max, tcp, udp, table, exited := max, 0, 1, map[], false;
      refs := new nat[max](_ => 0);
      flipRefs := new nat[max](_ => 0);
      new;
      assert refs[..] == seq(max, _ => 0) == flipRefs[..];
    }

    // `get_sc_index_based_on_flow_key`
    method IndexFor(k: Key) returns (index: int)
      modifies `tcp, `udp
      ensures Choice(index, tcp, udp) == Choose(max, old(tcp), old(udp), k)
    {
      index := -1;
      if max == 0 {
        return;
      }
      if k.proto == TCP {
        index := tcp;
        tcp := tcp + 2;
        if Swap16(k.dstPort) == 6000 {
          index := 0;
          tcp := tcp - 2;
        }
        if tcp >= max {
          tcp := 0;
        }
      } else if k.proto == UDP {
        index := udp;
        udp := udp + 2;
        if udp >= max {
          udp := 1;
        }
      }
      if index >= max {
        index := -1;
      }
    }

    // `get_sc_and_index_based_on_flow_key`: the chain, counted, and its index.
    method ChainFor(k: Key, given: int, flip: bool) returns (index: int, chain: Chain)
      requires Valid() && -1 <= given
      modifies `tcp, `udp, refs, flipRefs
      ensures Valid()
      ensures given != -1 ==> index == given && tcp == old(tcp) && udp == old(udp)
      ensures given == -1 ==> Choice(index, tcp, udp) == Choose(max, old(tcp), old(udp), k)
      ensures chain == if !(0 <= index < max) then NoChain else if flip then Flip(index) else Forward(index)
      ensures refs[..] == if chain.Forward? then old(refs[..])[index := old(refs[index]) + 1] else old(refs[..])
      ensures flipRefs[..] == if chain.Flip? then old(flipRefs[..])[index := old(flipRefs[index]) + 1]
                              else old(flipRefs[..])
    {
      index := given;
      if given == -1 {
        index := IndexFor(k);
      }
      chain := NoChain;
      if 0 <= index < max {
        if flip {
          flipRefs[index] := flipRefs[index] + 1;
          chain := Flip(index);
        } else {
          refs[index] := refs[index] + 1;
          chain := Forward(index);
        }
      }
    }

    // `setup_schain_and_flow_entry_for_flip_key`
    method SetupFlipKey(k: Key, index: nat, luck: Luck) returns (ret: int)
      requires Valid() && index < max
      modifies `tcp, `udp, `table, refs, flipRefs
      ensures Valid() && View() == AddFlip(old(View()), k, index, luck)
      ensures ret == if !luck.flipKey then ENOMEM
                     else if Reverse(k) in old(table) then EEXIST
                     else if !luck.flipEntry then ENOMEM else OK
    {
      if !luck.flipKey {
        return ENOMEM;
      }
      var flip := Key(k.dstAddr, k.srcAddr, k.dstPort, k.srcPort, k.proto);
      if flip in table {
        return EEXIST;
      }
      if !luck.flipEntry {
        return ENOMEM;
      }
      var _, chain := ChainFor(flip, index, true);
      table := table[flip := chain];
      ret := OK;
    }

    // The new entry of both `add_flow_key_to_sc_flow_table` and `setup_rule_for_packet`.
    method InstallEntry(k: Key, luck: Luck)
      requires Valid() && !exited && luck.key && k !in table && luck.entry
      modifies this, refs, flipRefs
      ensures Valid() && View() == AddRule(old(View()), k, luck)
    {
      var index, chain := ChainFor(k, -1, false);
      table := table[k := chain];
      if chain.NoChain? {
        exited := true;
      } else {
        var _ := SetupFlipKey(k, index, luck);
      }
    }

    // `add_flow_key_to_sc_flow_table`; the rule is in the byte order of the machine.
    method AddFlowKey(rule: Key, luck: Luck) returns (ret: int)
      requires Valid() && !exited
      modifies this, refs, flipRefs
      ensures Valid() && View() == AddRule(old(View()), ToNetwork(rule), luck)
      ensures !exited ==>
                ret == if luck.key && ToNetwork(rule) in old(table) then EEXIST
                       else if !luck.key || !luck.entry then ENOMEM else OK
    {
      ret := OK;
      if !luck.key {
        return ENOMEM;
      }
      var k := Key(Swap32(rule.srcAddr), Swap32(rule.dstAddr), Swap16(rule.srcPort), Swap16(rule.dstPort), rule.proto);
      if k in table {
        return EEXIST;
      }
      if !luck.entry {
        return ENOMEM;
      }
      InstallEntry(k, luck);
    }

    // `setup_rule_for_packet`
    method SetupRuleForPacket(rss: nat, port: nat, header: Header, luck: Luck) returns (v: Verdict)
      requires Valid() && !exited
      modifies this, refs, flipRefs
      ensures Valid()
      ensures View() == if rss != 0 && header.Ipv4? && header.key.proto in {TCP, UDP}
                        then AddRule(old(View()), header.key, luck) else old(View())
      ensures v.ToPort? <==> rss == 0 || (luck.key && !(header.Ipv4? && header.key.proto in {TCP, UDP}))
      ensures v.ToPort? || v.Dropped? ==> v.port == if port == 0 then 1 else 0
      ensures v.ToNextNf? ==> header.Ipv4? && header.key in table
      ensures v.Dropped? ==> header.Ipv4? && header.key !in table && !luck.entry
      ensures v.NoMemory? <==> rss != 0 && !luck.key
      ensures v.Exit? <==> exited
    {
      var other := if port == 0 then 1 else 0;
      if rss == 0 {
        return ToPort(other);
      }
      if !luck.key {
        return NoMemory;
      }
      if header.NoIpv4? || (header.key.proto != TCP && header.key.proto != UDP) {
        return ToPort(other);
      }
      if header.key in table {
        return ToNextNf;
      }
      if !luck.entry {
        return Dropped(other);
      }
      InstallEntry(header.key, luck);
      v := if exited then Exit else ToNextNf;
    }
  }
}
