/** The slab's intrusive list of spans (linkPartial and unlinkPartial in tools/pool.cpp): each span
    carries its own links, and the list is the sequence Pool.dfy works with. */
module PartialList {

  class SpanNode {
    var prev: SpanNode?
    var next: SpanNode?

    constructor ()
      ensures prev == null && next == null
    {
      prev, next := null, null;
    }
  }

  /** The node at place `i`, or none past the ends. */
  ghost function NodeAt(chain: seq<SpanNode>, i: int): SpanNode? {
    if 0 <= i < |chain| then chain[i] else null
  }

  /** The node at place `i` points to its neighbours. */
  ghost predicate Linked(chain: seq<SpanNode>, i: nat)
    reads chain
  {
    i < |chain| && chain[i].prev == NodeAt(chain, i - 1) && chain[i].next == NodeAt(chain, i + 1)
  }

  class Slab {
    var first: SpanNode?
    ghost var chain: seq<SpanNode>

    ghost predicate Valid()
      reads this, chain
    {
      && (forall i, j :: 0 <= i < j < |chain| ==> chain[i] != chain[j])
      && first == NodeAt(chain, 0)
      && forall i {:trigger Linked(chain, i)} :: 0 <= i < |chain| ==> Linked(chain, i)
    }

    constructor ()
      ensures Valid() && chain == []
    {
      first, chain := null, [];
    }

    method LinkPartial(sp: SpanNode)
      requires Valid() && sp !in chain
      modifies this, sp, chain
      ensures Valid() && chain == [sp] + old(chain)
    {
      ghost var was := chain;
      if first != null { assert Linked(chain, 0); }
      sp.prev := null;
      sp.next := first;
      if first != null { first.prev := sp; }
      first := sp;
      chain := [sp] + chain;
      forall i | 0 <= i < |chain| ensures Linked(chain, i) {
        if i > 0 { assert old(Linked(was, i - 1)); }
      }
    }

    method UnlinkPartial(sp: SpanNode, ghost at: nat)
      requires Valid() && at < |chain| && chain[at] == sp
      modifies this, chain
      ensures Valid() && chain == old(chain)[..at] + old(chain)[at + 1..]
      ensures sp !in chain && sp.prev == null && sp.next == null
    {
      ghost var was := chain;
      assert Linked(was, at);
      if at > 0 { assert Linked(was, at - 1); }
      if at + 1 < |was| { assert Linked(was, at + 1); }
      if sp.prev != null { sp.prev.next := sp.next; } else { first := sp.next; }
      if sp.next != null { sp.next.prev := sp.prev; }
      sp.prev, sp.next := null, null;
      chain := chain[..at] + chain[at + 1..];
      forall i | 0 <= i < |chain| ensures Linked(chain, i) {
        assert old(Linked(was, if i < at then i else i + 1));
      }
    }
  }
}
