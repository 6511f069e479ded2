/**
 * The minimal singly linked list (pwiList). The list object itself is the
 * head node, which may be statically allocated: its `data` is NULL until
 * the first `add`. Nodes are never removed.
 *
 * Only the head keeps the ghost sequence `Nodes` of the chain from itself
 * to the tail; the recursive `last` and `iter`, which run on inner nodes,
 * are given that sequence and their position in it.
 */
module LinkedList {

  import opened Pointers

  /** The non-NULL elements of `ds`, in order: what `iter` visits. */
  function Present<T>(ds: seq<Ptr<T>>): (r: seq<T>)
    ensures |r| <= |ds|
    ensures forall i :: 0 <= i < |ds| && ds[i].Ptr? ==> ds[i].target in r
    ensures forall j :: 0 <= j < |r| ==> Ptr(r[j]) in ds
    ensures Null !in ds ==> |r| == |ds|
  {
    if ds == [] then []
    else (if ds[0].Ptr? then [ds[0].target] else []) + Present(ds[1..])
  }

  /** Filtering distributes over concatenation. */
  lemma {:induction false} PresentAppend<T>(a: seq<Ptr<T>>, b: seq<Ptr<T>>)
    ensures Present(a + b) == Present(a) + Present(b)
    decreases |a|
  {
    if a == [] {
      assert a + b == b;
    } else {
      assert (a + b)[0] == a[0] && (a + b)[1..] == a[1..] + b;
      PresentAppend(a[1..], b);
    }
  }

  class PwiList<T> {
    var data: Ptr<T>
    var next: PwiList?<T>
    /** For the head: the chain of nodes from this one to the tail. */
    ghost var Nodes: seq<PwiList<T>>

    /** `ns` is a NULL-terminated chain of distinct nodes. */
    static ghost predicate Chain(ns: seq<PwiList<T>>)
      reads (set n | n in ns)`next
    {
      && |ns| > 0
      && (forall i :: 0 <= i < |ns| - 1 ==> ns[i].next == ns[i + 1])
      && ns[|ns| - 1].next == null
      && (forall i, j :: 0 <= i < j < |ns| ==> ns[i] != ns[j])
    }

    /** The head's invariant. A NULL head `data` means nothing was added
        yet (or only NULL), so there is no second node. */
    ghost predicate Valid()
      reads this`Nodes, this`data, (set n | n in Nodes)`next
    {
      Chain(Nodes) && Nodes[0] == this && (data.Null? ==> |Nodes| == 1)
    }

    /** The `data` of each node of `ns`, in order. */
    static ghost function DataOf(ns: seq<PwiList<T>>): (r: seq<Ptr<T>>)
      reads (set n | n in ns)`data
      ensures |r| == |ns|
    {
      if ns == [] then [] else [ns[0].data] + DataOf(ns[1..])
    }

    /** The elements `iter` visits on this head. */
    ghost function Elements(): seq<T>
      reads this`Nodes, this`data, (set n | n in Nodes)`next, (set n | n in Nodes)`data
      requires Valid()
    {
      Present(DataOf(Nodes))
    }

    /** The constructor: an empty head node. */
    constructor ()
      ensures Valid() && Nodes == [this]
      ensures data == Null && next == null
      ensures Elements() == []
    {
      data := Null;
      next := null;
      new;
      Nodes := [this];
    }

    /** `last`: the node of the chain whose `next` is NULL, reached from
        the node at position `k`. */
    function Last(ghost ns: seq<PwiList<T>>, ghost k: nat): (r: PwiList<T>)
      reads (set n | n in ns)`next
      requires Chain(ns) && k < |ns| && ns[k] == this
      ensures r.next == null && r == ns[|ns| - 1]
      decreases |ns| - k
    {
      assert k < |ns| - 1 ==> ns[k].next == ns[k + 1];
      if next == null then this else next.Last(ns, k + 1)
    }

    /** `add`: fill the head when its `data` is NULL, otherwise link one new
        node holding `e` after the last one. */
    method Add(e: Ptr<T>)
      requires Valid()
      modifies this`data, this`Nodes, {Nodes[|Nodes| - 1]}`next
      ensures Valid()
      ensures old(data).Null? ==> Nodes == old(Nodes) && data == e
      ensures old(data).Ptr? ==> data == old(data)
      ensures old(data).Ptr? ==>
        && |Nodes| == |old(Nodes)| + 1
        && Nodes[..|old(Nodes)|] == old(Nodes)
        && fresh(Nodes[|Nodes| - 1])
      ensures DataOf(Nodes) == if old(data).Null? then [e] else old(DataOf(Nodes)) + [e]
      ensures Elements() == old(Elements()) + Present([e])
    {
      if data.Null? {
        data := e;
        assert DataOf(Nodes) == [e];
      } else {
        Append(e);
        PresentAppend(old(DataOf(Nodes)), [e]);
      }
    }

    /** The second branch of `add`: link a new node holding `e` after the
        node `last` returns. */
    method Append(e: Ptr<T>)
      requires Valid() && data.Ptr?
      modifies this`Nodes, {Nodes[|Nodes| - 1]}`next
      ensures Valid()
      ensures |Nodes| == |old(Nodes)| + 1 && Nodes[..|old(Nodes)|] == old(Nodes)
      ensures fresh(Nodes[|Nodes| - 1])
      ensures DataOf(Nodes) == old(DataOf(Nodes)) + [e]
    {
      ghost var ns := Nodes;
      ghost var before := DataOf(ns);
      var last := Last(Nodes, 0);
      var node := new PwiList<T>();
      last.next := node;
      node.data := e;
      Nodes := ns + [node];
      assert Nodes[..|ns|] == ns;
      assert Chain(Nodes) by {
        assert forall i :: 0 <= i < |ns| - 1 ==> ns[i] != last;
        ChainSnoc(ns, node);
      }
      assert DataOf(ns) == before;
      DataOfSnoc(ns, node);
    }

    /** Linking a node that is not yet in a chain after its last node
        extends the chain. */
    static lemma ChainSnoc(ns: seq<PwiList<T>>, node: PwiList<T>)
      requires |ns| > 0 && node !in ns
      requires forall i :: 0 <= i < |ns| - 1 ==> ns[i].next == ns[i + 1]
      requires forall i, j :: 0 <= i < j < |ns| ==> ns[i] != ns[j]
      requires ns[|ns| - 1].next == node && node.next == null
      ensures Chain(ns + [node])
    {
    }

    /** The data of a chain extended by one node. */
    static lemma {:induction false} DataOfSnoc(ns: seq<PwiList<T>>, node: PwiList<T>)
      ensures DataOf(ns + [node]) == DataOf(ns) + [node.data]
      decreases |ns|
    {
      if ns != [] {
        assert (ns + [node])[1..] == ns[1..] + [node];
        DataOfSnoc(ns[1..], node);
      }
    }

    /** The node `last` returns is the only one of the chain from position
        `k` on whose `next` is NULL. */
    static lemma LastIsUnique(ns: seq<PwiList<T>>, k: nat)
      requires Chain(ns) && k < |ns|
      ensures forall j :: k <= j < |ns| && ns[j].next == null ==> ns[j] == ns[k].Last(ns, k)
    {
      forall j | k <= j < |ns| - 1
        ensures ns[j].next != null
      {
        assert ns[j].next == ns[j + 1];
      }
    }

    /** `iter` from the node at position `k` of `ns`: the elements the
        callback `cb` is invoked on, in invocation order. */
    method Iter(cb: FnPtr, ghost ns: seq<PwiList<T>>, ghost k: nat) returns (visited: seq<T>)
      requires Chain(ns) && k < |ns| && ns[k] == this
      ensures cb == NullFn ==> visited == []
      ensures cb != NullFn ==> visited == Present(DataOf(ns[k..]))
      decreases |ns| - k
    {
      visited := [];
      if cb != NullFn {
        if data.Ptr? {
          visited := [data.target];
        }
        assert ns[k..][1..] == ns[k + 1..];
        assert k < |ns| - 1 ==> next == ns[k + 1];
        if next != null {
          var rest := next.Iter(cb, ns, k + 1);
          visited := visited + rest;
        } else {
          assert ns[k + 1..] == [];
        }
      }
    }
  }
}
