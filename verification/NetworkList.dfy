/** GlobalNetworkList and its deep copy: the copied items share nothing with what was there, nor with one another. */
module NetworkList {
  import opened Wrappers
  import opened Api

  /** Items is a slice of structs, so each element is an object of the list's own; None is the nil slice. */
  class GlobalNetworkList {
    var meta: ObjectMeta
    var items: Option<seq<GlobalNetwork>>

    constructor ()
      ensures meta == ObjectMeta("", "") && items == None
    {
      meta, items := ObjectMeta("", ""), None;
    }

    method DeepCopyInto(out: GlobalNetworkList)
      requires out != this
      modifies out
      ensures out.meta == old(meta) && (out.items.None? <==> old(items).None?)
      ensures out.items.Some? ==>
        && Denote(out.items.value, old(Values(items.value))) && |out.items.value| == |old(items).value|
        && Separate(out.items.value) && AllFresh(out.items.value)
    {
      if items.None? {
        out.meta, out.items := meta, None;
      } else {
        ghost var want := Values(items.value);
        var copies := CopyItems(items.value);
        SetFields(out, meta, copies, want);
      }
    }
  }

  method Write(out: GlobalNetworkList, meta: ObjectMeta, items: seq<GlobalNetwork>)
    requires forall n :: n in items ==> out !in Parts(n)
    modifies out
    ensures out.meta == meta && out.items == Some(items)
    ensures forall n :: n in items ==> Same(n)
  {
    out.meta, out.items := meta, Some(items);
    forall n | n in items ensures Same(n) {
      WritesElsewhere(n);
    }
  }

  method SetFields(out: GlobalNetworkList, meta: ObjectMeta, items: seq<GlobalNetwork>, ghost want: seq<NetworkValue>)
    requires Denote(items, want) && Separate(items) && forall n :: n in items ==> out !in Parts(n)
    modifies out
    ensures out.meta == meta && out.items == Some(items)
    ensures Denote(items, want) && Separate(items)
    ensures forall i :: 0 <= i < |items| ==> Parts(items[i]) == old(Parts(items[i]))
  {
    Write(out, meta, items);
    forall i | 0 <= i < |items|
      ensures items[i].View() == want[i] && items[i].Distinct() && Parts(items[i]) == old(Parts(items[i]))
    {
      assert Same(items[i]);
    }
    forall i, j | 0 <= i < j < |items| ensures Parts(items[i]) !! Parts(items[j]) {
      assert Same(items[i]) && Same(items[j]);
    }
  }

  ghost function Values(ns: seq<GlobalNetwork>): (vs: seq<NetworkValue>)
    reads *
    ensures |vs| == |ns| && forall i :: 0 <= i < |ns| ==> vs[i] == ns[i].View()
  {
    if ns == [] then [] else Values(ns[..|ns| - 1]) + [ns[|ns| - 1].View()]
  }

  /** The networks have the given values, and no object stands in two slots of one of their slices. */
  ghost predicate Denote(ns: seq<GlobalNetwork>, want: seq<NetworkValue>)
    reads *
  {
    |ns| <= |want| && forall i :: 0 <= i < |ns| ==> ns[i].View() == want[i] && ns[i].Distinct()
  }

  /** Nothing can be reached from two of the networks. */
  ghost predicate Separate(ns: seq<GlobalNetwork>)
    reads *
  {
    forall i, j :: 0 <= i < j < |ns| ==> Parts(ns[i]) !! Parts(ns[j])
  }

  /** One copy. All its parts are new, so no earlier copy has one of them. */
  method CopyItem(item: GlobalNetwork) returns (copy: GlobalNetwork)
    ensures fresh(copy) && fresh(Parts(copy))
    ensures copy.View() == old(item.View()) && copy.Distinct()
  {
    copy := item.DeepCopy();
    NewPartsAreFresh(copy);
  }

  method CopyApart(src: seq<GlobalNetwork>, copies: seq<GlobalNetwork>, item: GlobalNetwork) returns (copy: GlobalNetwork)
    ensures copy.View() == old(item.View()) && copy.Distinct() && fresh(Parts(copy))
    ensures (forall m :: m in src ==> Same(m)) && forall n :: n in copies ==> Same(n)
  {
    copy := CopyItem(item);
    AllKept(src);
    AllKept(copies);
  }

  ghost predicate Show(ns: seq<GlobalNetwork>, want: seq<NetworkValue>)
    reads *
  {
    |ns| <= |want| && forall i :: 0 <= i < |ns| ==> ns[i].View() == want[i]
  }

  twostate lemma NewIsApart(s: set<object>, new t: set<object>)
    requires fresh(t)
    ensures s !! t
  {
  }

  method CopyOne(src: seq<GlobalNetwork>, copies: seq<GlobalNetwork>, ghost want: seq<NetworkValue>)
    returns (copy: GlobalNetwork)
    requires |copies| < |src| && Show(src, want) && Denote(copies, want) && Separate(copies)
    ensures Show(src, want) && Denote(copies, want) && Separate(copies)
    ensures copy.View() == want[|copies|] && copy.Distinct() && fresh(Parts(copy))
    ensures forall n :: n in copies ==> Parts(n) == old(Parts(n)) && Parts(n) !! Parts(copy)
  {
    copy := CopyApart(src, copies, src[|copies|]);
    forall i | 0 <= i < |src| ensures src[i].View() == want[i] {
      assert Same(src[i]);
    }
    forall i | 0 <= i < |copies| ensures copies[i].View() == want[i] && copies[i].Distinct() {
      assert Same(copies[i]);
    }
    forall i, j | 0 <= i < j < |copies| ensures Parts(copies[i]) !! Parts(copies[j]) {
      assert Same(copies[i]) && Same(copies[j]);
    }
    forall n | n in copies ensures Parts(n) == old(Parts(n)) && Parts(n) !! Parts(copy) {
      assert Same(n);
      NewIsApart(old(Parts(n)), Parts(copy));
    }
  }

  lemma OneMore(ns: seq<GlobalNetwork>, n: GlobalNetwork, want: seq<NetworkValue>)
    requires Denote(ns, want) && |ns| < |want| && n.View() == want[|ns|] && n.Distinct()
    requires Separate(ns) && forall i :: 0 <= i < |ns| ==> Parts(ns[i]) !! Parts(n)
    ensures Denote(ns + [n], want) && Separate(ns + [n])
  {
  }

  method CopyNext(src: seq<GlobalNetwork>, copies: seq<GlobalNetwork>, ghost want: seq<NetworkValue>)
    returns (longer: seq<GlobalNetwork>)
    requires |copies| < |src| && Show(src, want) && Denote(copies, want) && Separate(copies)
    ensures |longer| == |copies| + 1
    ensures Show(src, want) && Denote(longer, want) && Separate(longer)
    ensures forall i :: 0 <= i < |longer| ==>
      if i < |copies| then Parts(longer[i]) == old(Parts(copies[i])) else fresh(Parts(longer[i]))
  {
    var copy := CopyOne(src, copies, want);
    OneMore(copies, copy, want);
    longer := copies + [copy];
    forall i | 0 <= i < |copies| ensures Parts(longer[i]) == old(Parts(copies[i])) {
      assert copies[i] in copies;
    }
  }

  twostate predicate AllFresh(new ns: seq<GlobalNetwork>)
    reads *
  {
    forall i :: 0 <= i < |ns| ==> fresh(Parts(ns[i]))
  }

  /** The loop of GlobalNetworkList.DeepCopyInto. */
  method CopyItems(src: seq<GlobalNetwork>) returns (copies: seq<GlobalNetwork>)
    ensures |copies| == |src| && Denote(copies, old(Values(src)))
    ensures Separate(copies) && AllFresh(copies)
  {
    ghost var want := Values(src);
    copies := [];
    while |copies| < |src|
      invariant |copies| <= |src| == |want| && Show(src, want)
      invariant Denote(copies, want) && Separate(copies)
      invariant AllFresh(copies)
    {
      copies := CopyNext(src, copies, want);
    }
  }

  /* ---- What a copy is for ---- */

  /**
   Original and copy are independent from then on. Writing to the objects of one copied item changes
   neither the original list nor any other copied item; writing to anything else changes no copied item.
   */
  twostate lemma CopyIsIndependent(src: seq<GlobalNetwork>, copies: seq<GlobalNetwork>, touched: set<object>)
    requires old(Separate(copies))
    requires forall m, n :: m in src && n in copies ==> old(Parts(m)) !! old(Parts(n))
    requires forall o: object {:trigger o in touched} :: old(allocated(o)) && o !in touched ==> unchanged(o)
    ensures forall n :: n in copies && touched <= old(Parts(n)) ==>
      && (forall m :: m in src ==> m.View() == old(m.View()))
      && forall m :: m in copies && m != n ==> m.View() == old(m.View())
    ensures (forall n :: n in copies ==> old(Parts(n)) !! touched) ==>
      forall n :: n in copies ==> n.View() == old(n.View())
  {
    forall m | m in src + copies && old(Parts(m)) !! touched ensures m.View() == old(m.View()) {
      WritesElsewhere(m);
    }
  }
}
