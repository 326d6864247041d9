/**
 The linked packet list of `examples/flow_table/sdn_pkt_list.h`.
 */
module PktList {
  import opened SdnBuffering

  // A packet on its way back to its flow, with the metadata that `sdn_pkt_list_flush` gives it.
  datatype Handed<P> = Handed(pkt: P, action: int, chainIndex: int)

  const ACTION_NEXT := 1

  class Entry<P> {
    const pkt: P
    var next: Entry?<P>

    constructor (pkt: P)
      ensures this.pkt == pkt && next == null
    {
      this.pkt, next := pkt, null;
    }
  }

  ghost predicate Linked<P>(es: seq<Entry<P>>)
    reads es
  {
    && (forall i, j | 0 <= i < j < |es| :: es[i] != es[j])
    && (forall i | 0 <= i < |es| :: es[i].next == if i + 1 < |es| then es[i + 1] else null)
  }

  ghost function Packets<P>(es: seq<Entry<P>>): (ps: seq<P>)
    ensures |ps| == |es| && forall i | 0 <= i < |es| :: ps[i] == es[i].pkt
  {
    seq(|es|, i requires 0 <= i < |es| => es[i].pkt)
  }

  class PktList<P> {
    var head: Entry?<P>
    var tail: Entry?<P>
    var flag: int
    var counter: int
    // The entries from head to tail, and all that the list owns.
    ghost var entries: seq<Entry<P>>
    ghost var Repr: set<object>

    ghost predicate Valid()
      reads this, Repr
    {
      && this in Repr && (forall e | e in entries :: e in Repr)
      && (head == if entries == [] then null else entries[0])
      && (tail == if entries == [] then null else entries[|entries| - 1])
      && Linked(entries)
      && counter == |entries|
      && flag in {0, 1}
    }

    // The packets, in the order of their arrival.
    ghost function View(): Held<P>
      reads this
    {
      Held(Packets(entries), flag == 1)
    }

    // `sdn_pkt_list_init`
    constructor ()
      ensures Valid() && fresh(Repr) && View() == Nothing()
    {
      head, tail, flag, counter, entries := null, null, 0, 0, [];
      Repr := {this};
    }

    method Add(pkt: P)
      requires Valid()
      modifies Repr
      ensures Valid() && fresh(Repr - old(Repr))
      ensures View() == Added(old(View()), pkt)
    {
      counter := counter + 1;
      var entry := new Entry(pkt);
      if head == null {
        head := entry;
        tail := head;
      } else {
        tail.next := entry;
        tail := entry;
      }
      entries, Repr := entries + [entry], Repr + {entry};
    }

    method SetFlag()
      requires Valid()
      modifies `flag
      ensures Valid() && View() == Asked(old(View()))
    {
      flag := 1;
    }

    method GetFlag() returns (f: int)
      requires Valid()
      ensures f in {0, 1} && (f == 1 <==> View().flag)
    {
      f := flag;
    }

    // One more packet, and whether the controller is to be asked about the list.
    method Take(pkt: P) returns (first: bool)
      requires Valid()
      modifies Repr
      ensures Valid() && fresh(Repr - old(Repr))
      ensures first <==> !old(View()).flag
      ensures View() == Asked(Added(old(View()), pkt))
    {
      Add(pkt);
      first := flag == 0;
      if first {
        SetFlag();
      }
    }

    // Hands every packet back to its flow, first come first served; each takes its next step from
    // the start of the chain.
    method Flush() returns (returned: seq<Handed<P>>)
      requires Valid()
      modifies this
      ensures Valid() && Repr == old(Repr) && counter == 0
      ensures |returned| == |old(View()).pkts| && View() == Nothing()
      ensures forall i | 0 <= i < |returned| :: returned[i] == Handed(old(View()).pkts[i], ACTION_NEXT, 0)
    {
      returned := [];
      ghost var i := 0;
      while head != null
        invariant 0 <= i <= |entries| && entries == old(entries) && Repr == old(Repr)
        invariant Linked(entries)
        invariant head == if i < |entries| then entries[i] else null
        invariant counter == |entries| - i
        invariant |returned| == i
        invariant forall k | 0 <= k < i :: returned[k] == Handed(entries[k].pkt, ACTION_NEXT, 0)
        decreases |entries| - i
      {
        var entry := head;
        assert entry == entries[i];
        assert entries[i].next == if i + 1 < |entries| then entries[i + 1] else null;
        head := entry.next;
        returned := returned + [Handed(entry.pkt, ACTION_NEXT, 0)];
        counter := counter - 1;
        i := i + 1;
      }
      flag, head, tail, counter, entries := 0, null, null, 0, [];
    }
  }
}
