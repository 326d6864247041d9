/**
 The packet buffer table of `examples/flow_table/sdn.c`: one linked list for each buffer id.
 */
module PktTable {
  import opened SdnBuffering
  import opened PktList

  ghost predicate SoundTable<P>(t: PktTable<P>)
    reads t, t.lists, t.Repr
  {
    t.Valid()
  }

  // A list by itself, and what it holds.
  ghost predicate Sound<P>(l: PktList<P>)
    reads l, l.Repr
  {
    l.Valid()
  }

  ghost function Holds<P>(l: PktList<P>): Held<P>
    reads l
  {
    l.View()
  }

  class PktTable<P> {
    const lists: seq<PktList<P>>
    ghost var Repr: set<object>
    // What the lists hold.
    ghost var view: seq<Held<P>>

    // No two lists share an object.
    ghost predicate Apart()
      reads this, lists
    {
      && |lists| == IDS == |view| && this in Repr
      && (forall i | 0 <= i < IDS :: lists[i] in lists[i].Repr && lists[i].Repr <= Repr && this !in lists[i].Repr)
      && (forall i, j | 0 <= i < j < IDS :: lists[i].Repr !! lists[j].Repr)
    }

    ghost predicate Valid()
      reads this, lists, Repr
    {
      Apart() && forall i | 0 <= i < IDS :: Sound(lists[i]) && view[i] == Holds(lists[i])
    }

    // `onvm_ft_create`, and `sdn_pkt_list_init` for each entry.
    constructor ()
      ensures Valid() && fresh(Repr)
      ensures view == seq(IDS, _ => Nothing())
    {
      var ls: seq<PktList<P>> := [];
      ghost var owned: set<object> := {};
      hide PktList.Valid, PktList.View;
      for n := 0 to IDS
        invariant |ls| == n && fresh(owned)
        invariant forall i | 0 <= i < n :: ls[i] in ls[i].Repr && ls[i].Repr <= owned
        invariant forall i, j | 0 <= i < j < n :: ls[i].Repr !! ls[j].Repr
        invariant forall i | 0 <= i < n :: Sound(ls[i]) && Holds(ls[i]) == Nothing()
      {
        var l := new PktList<P>();
        ls, owned := ls + [l], owned + l.Repr;
      }
      lists, Repr, view := ls, owned + {this}, seq(IDS, _ => Nothing());
    }

    // A packet for the list of a buffer id. What is done to one list leaves the others alone.
    method Take(id: nat, pkt: P) returns (first: bool)
      requires Valid() && id < IDS
      modifies Repr
      ensures Valid() && fresh(Repr - old(Repr))
      ensures first <==> !old(view)[id].flag
      ensures view == old(view)[id := Asked(Added(old(view)[id], pkt))]
    {
      hide PktList.Valid, PktList.View;
      first := lists[id].Take(pkt);
      Repr := Repr + lists[id].Repr;
      view := view[id := Holds(lists[id])];
    }

    // `sdn_pkt_list_flush` of the list of a buffer id.
    method Release(id: nat) returns (returned: seq<Handed<P>>)
      requires Valid() && id < IDS
      modifies Repr
      ensures Valid() && Repr == old(Repr)
      ensures |returned| == |old(view)[id].pkts|
      ensures forall i | 0 <= i < |returned| :: returned[i] == Handed(old(view)[id].pkts[i], ACTION_NEXT, 0)
      ensures view == old(view)[id := Nothing()]
    {
      hide PktList.Valid, PktList.View;
      returned := lists[id].Flush();
      view := view[id := Nothing()];
    }
  }
}
