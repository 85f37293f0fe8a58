/**
 * The cascade of `SimulatorBuilder::remove_node`
 * (simulator/src/simulation_builder.rs), stated on values: the connection
 * views of the remaining builders, how removing the streets of a node
 * scrubs them from third nodes, and which builders are picked for removal.
 * The builder class drives its loops against these functions.
 */
module SimCascade {
  import opened Wrappers
  import opened SimNodeBuilder

  /** The index of the first entry equal to `x`. */
  function IndexOf(ns: seq<NodeBuilder>, x: NodeBuilder): (r: Option<nat>)
    ensures r.Some? ==> r.value < |ns| && ns[r.value] == x
    ensures r.None? ==> x !in ns
  {
    if ns == [] then None
    else if ns[0] == x then Some(0)
    else match IndexOf(ns[1..], x)
      case None => None
      case Some(k) => Some(k + 1)
  }

  /** No builder is listed twice. */
  predicate Distinct(ns: seq<NodeBuilder>)
  {
    forall a, b :: 0 <= a < |ns| && 0 <= b < |ns| && a != b ==> ns[a] != ns[b]
  }

  lemma {:induction false} IndexOfDistinct(ns: seq<NodeBuilder>, k: nat)
    requires Distinct(ns) && k < |ns|
    ensures IndexOf(ns, ns[k]) == Some(k)
  {
    if k > 0 {
      assert ns[0] != ns[k];
      assert Distinct(ns[1..]) by {
        forall a, b | 0 <= a < |ns[1..]| && 0 <= b < |ns[1..]| && a != b
          ensures ns[1..][a] != ns[1..][b]
        {
          assert ns[1..][a] == ns[a + 1] && ns[1..][b] == ns[b + 1];
        }
      }
      IndexOfDistinct(ns[1..], k - 1);
    }
  }

  // ---- one `remove_connection` ----------------------------------------

  /** Targets `remove_connection` keeps were there before. */
  lemma ViewWithoutShrinks(v: ConnView, r: NodeBuilder, t: NodeBuilder)
    ensures t in ViewTargets(ViewWithout(v, r)) ==> t in ViewTargets(v)
    ensures t != r && t in ViewTargets(v) ==> t in ViewTargets(ViewWithout(v, r))
    ensures !v.StreetView? ==> r !in ViewTargets(ViewWithout(v, r))
    ensures ViewWithout(v, r).StreetView? == v.StreetView?
  {
    match v
      case IOView(outs, ins) =>
        WithoutTargets(outs, r, t);
        WithoutTargets(ins, r, t);
        WithoutTargets(outs, r, r);
        WithoutTargets(ins, r, r);
      case CrossingView(i, o) =>
        RetainedTargets(i, r, t);
        RetainedTargets(o, r, t);
        RetainedTargets(i, r, r);
        RetainedTargets(o, r, r);
      case StreetView(ci, co) =>
  }

  lemma WithoutTargets(s: seq<NodeBuilder>, r: NodeBuilder, t: NodeBuilder)
    ensures t in Without(s, r) <==> t in s && t != r
  {
    if t in Without(s, r) {
      var j :| 0 <= j < |Without(s, r)| && Without(s, r)[j] == t;
    }
    if t in s && t != r {
      var j :| 0 <= j < |s| && s[j] == t;
    }
  }

  lemma RetainedTargets(m: map<Direction, NodeBuilder>, r: NodeBuilder, t: NodeBuilder)
    ensures t in ValuesInOrder(Retained(m, r)) ==> t in ValuesInOrder(m) && t != r
    ensures t != r && t in ValuesInOrder(m) ==> t in ValuesInOrder(Retained(m, r))
  {
    if t in ValuesInOrder(Retained(m, r)) {
      var j :| 0 <= j < |ValuesInOrder(Retained(m, r))| && ValuesInOrder(Retained(m, r))[j] == t;
      var d :| d in Retained(m, r) && Retained(m, r)[d] == t;
      ValuesInOrderCovers(m, d);
    }
    if t != r && t in ValuesInOrder(m) {
      var j :| 0 <= j < |ValuesInOrder(m)| && ValuesInOrder(m)[j] == t;
      var d :| d in m && m[d] == t;
      ValuesInOrderCovers(Retained(m, r), d);
    }
  }

  // ---- scrubbing one removed street from its connections -------------

  /** `remove_connection(r)` on the builder `c`, unless it is `node`. */
  function ScrubOne(views: seq<ConnView>, ns: seq<NodeBuilder>, r: NodeBuilder, c: NodeBuilder, node: NodeBuilder): (res: seq<ConnView>)
    requires |views| == |ns|
    ensures |res| == |views|
  {
    if c == node then views
    else match IndexOf(ns, c)
      case None => views
      case Some(k) => views[k := ViewWithout(views[k], r)]
  }

  /** The inner loop of the cascade: every connection `c` of the removed
    * builder `r` other than `node` drops its references to `r`. */
  function Scrub(views: seq<ConnView>, ns: seq<NodeBuilder>, r: NodeBuilder, conns: seq<NodeBuilder>, node: NodeBuilder): (res: seq<ConnView>)
    requires |views| == |ns|
    ensures |res| == |views|
    decreases |conns|
  {
    if conns == [] then views
    else Scrub(ScrubOne(views, ns, r, conns[0], node), ns, r, conns[1..], node)
  }

  /** Scrubbing adds no target, removes only `r`, and keeps each kind. */
  lemma {:induction false} ScrubShrinks(views: seq<ConnView>, ns: seq<NodeBuilder>, r: NodeBuilder,
                                        conns: seq<NodeBuilder>, node: NodeBuilder, k: nat, t: NodeBuilder)
    requires |views| == |ns| && k < |ns|
    ensures t in ViewTargets(Scrub(views, ns, r, conns, node)[k]) ==> t in ViewTargets(views[k])
    ensures t != r && t in ViewTargets(views[k]) ==> t in ViewTargets(Scrub(views, ns, r, conns, node)[k])
    ensures Scrub(views, ns, r, conns, node)[k].StreetView? == views[k].StreetView?
    decreases |conns|
  {
    if conns != [] {
      var next := ScrubOne(views, ns, r, conns[0], node);
      ViewWithoutShrinks(views[k], r, t);
      ScrubShrinks(next, ns, r, conns[1..], node, k, t);
    }
  }

  /** A builder that is not among the connections, or is `node`, keeps its view. */
  lemma {:induction false} ScrubUntouched(views: seq<ConnView>, ns: seq<NodeBuilder>, r: NodeBuilder,
                                          conns: seq<NodeBuilder>, node: NodeBuilder, k: nat)
    requires |views| == |ns| && k < |ns|
    requires ns[k] !in conns || ns[k] == node
    ensures Scrub(views, ns, r, conns, node)[k] == views[k]
    decreases |conns|
  {
    if conns != [] {
      ScrubUntouched(ScrubOne(views, ns, r, conns[0], node), ns, r, conns[1..], node, k);
    }
  }

  /** A listed connection other than `node` that is not a street no longer
    * refers to `r`. */
  lemma {:induction false} ScrubClears(views: seq<ConnView>, ns: seq<NodeBuilder>, r: NodeBuilder,
                                       conns: seq<NodeBuilder>, node: NodeBuilder, k: nat)
    requires |views| == |ns| && k < |ns| && Distinct(ns)
    requires ns[k] in conns && ns[k] != node && !views[k].StreetView?
    ensures r !in ViewTargets(Scrub(views, ns, r, conns, node)[k])
    decreases |conns|
  {
    var next := ScrubOne(views, ns, r, conns[0], node);
    ViewWithoutShrinks(views[k], r, r);
    if conns[0] == ns[k] {
      IndexOfDistinct(ns, k);
      assert next[k] == ViewWithout(views[k], r);
      ScrubShrinks(next, ns, r, conns[1..], node, k, r);
    } else {
      assert ns[k] in conns[1..];
      ScrubClears(next, ns, r, conns[1..], node, k);
    }
  }

  // ---- the outer loop over the remaining builders --------------------

  /** The outer loop of the cascade from position `i` on: every builder
    * listed in `conns` (the removed node's connections) is scrubbed from
    * its own connections, with its connections as they are at its turn. */
  function CascadeFrom(views: seq<ConnView>, ns: seq<NodeBuilder>, conns: seq<NodeBuilder>, node: NodeBuilder, i: nat): (res: seq<ConnView>)
    requires |views| == |ns| && i <= |ns|
    ensures |res| == |views|
    decreases |ns| - i
  {
    if i == |ns| then views
    else if ns[i] in conns then CascadeFrom(Scrub(views, ns, ns[i], ViewTargets(views[i]), node), ns, conns, node, i + 1)
    else CascadeFrom(views, ns, conns, node, i + 1)
  }

  /** The indices, from `i` on and ascending, of the builders the cascade removes. */
  function PickedFrom(ns: seq<NodeBuilder>, conns: seq<NodeBuilder>, i: nat): (r: seq<nat>)
    ensures forall m :: 0 <= m < |r| ==> i <= r[m] < |ns|
    decreases |ns| - i
  {
    if i >= |ns| then [] else (if ns[i] in conns then [i] else []) + PickedFrom(ns, conns, i + 1)
  }

  lemma {:induction false} CascadeShrinks(views: seq<ConnView>, ns: seq<NodeBuilder>, conns: seq<NodeBuilder>,
                                          node: NodeBuilder, i: nat, k: nat, t: NodeBuilder)
    requires |views| == |ns| && i <= |ns| && k < |ns|
    ensures var res := CascadeFrom(views, ns, conns, node, i);
      (t in ViewTargets(res[k]) ==> t in ViewTargets(views[k])) &&
      (t !in conns && t in ViewTargets(views[k]) ==> t in ViewTargets(res[k])) &&
      res[k].StreetView? == views[k].StreetView?
    decreases |ns| - i
  {
    if i < |ns| {
      var next := if ns[i] in conns then Scrub(views, ns, ns[i], ViewTargets(views[i]), node) else views;
      assert CascadeFrom(views, ns, conns, node, i) == CascadeFrom(next, ns, conns, node, i + 1);
      if ns[i] in conns {
        ScrubShrinks(views, ns, ns[i], ViewTargets(views[i]), node, k, t);
      }
      CascadeShrinks(next, ns, conns, node, i + 1, k, t);
    }
  }

  /** No removed builder refers to another removed builder. */
  predicate PickedApart(views: seq<ConnView>, ns: seq<NodeBuilder>, conns: seq<NodeBuilder>)
    requires |views| == |ns|
  {
    forall p, q :: 0 <= p < |ns| && 0 <= q < |ns| && ns[p] in conns && ns[q] in conns ==>
      ns[p] !in ViewTargets(views[q])
  }

  /** When removed builders do not refer to each other, scrubbing for one
    * of them leaves the views of all of them as they were. */
  lemma ScrubKeepsPicked(views: seq<ConnView>, ns: seq<NodeBuilder>, conns: seq<NodeBuilder>, node: NodeBuilder, i: nat)
    requires |views| == |ns| && i < |ns| && ns[i] in conns && PickedApart(views, ns, conns)
    ensures var next := Scrub(views, ns, ns[i], ViewTargets(views[i]), node);
      (forall p :: 0 <= p < |ns| && ns[p] in conns ==> next[p] == views[p]) &&
      PickedApart(next, ns, conns)
  {
    forall p | 0 <= p < |ns| && ns[p] in conns
      ensures Scrub(views, ns, ns[i], ViewTargets(views[i]), node)[p] == views[p]
    {
      ScrubUntouched(views, ns, ns[i], ViewTargets(views[i]), node, p);
    }
  }

  /** The point of the cascade: a non-street builder that a removed builder
    * `ns[p]` referred to no longer refers to it. */
  lemma {:induction false} CascadeClears(views: seq<ConnView>, ns: seq<NodeBuilder>, conns: seq<NodeBuilder>,
                                         node: NodeBuilder, i: nat, p: nat, k: nat)
    requires |views| == |ns| && i <= p < |ns| && k < |ns| && Distinct(ns)
    requires PickedApart(views, ns, conns)
    requires ns[p] in conns && ns[k] in ViewTargets(views[p]) && ns[k] != node && !views[k].StreetView?
    ensures ns[p] !in ViewTargets(CascadeFrom(views, ns, conns, node, i)[k])
    decreases |ns| - i
  {
    var next := if ns[i] in conns then Scrub(views, ns, ns[i], ViewTargets(views[i]), node) else views;
    assert CascadeFrom(views, ns, conns, node, i) == CascadeFrom(next, ns, conns, node, i + 1);
    if i == p {
      ScrubClears(views, ns, ns[i], ViewTargets(views[i]), node, k);
      CascadeShrinks(next, ns, conns, node, i + 1, k, ns[p]);
    } else {
      if ns[i] in conns {
        ScrubKeepsPicked(views, ns, conns, node, i);
        ScrubShrinks(views, ns, ns[i], ViewTargets(views[i]), node, k, ns[p]);
      }
      CascadeClears(next, ns, conns, node, i + 1, p, k);
    }
  }

  // ---- the builders that stay, and the graph they form ---------------

  /** The builders the cascade keeps, in order. */
  function Unpicked(ns: seq<NodeBuilder>, conns: seq<NodeBuilder>): (r: seq<NodeBuilder>)
  {
    if ns == [] then [] else (if ns[0] in conns then [] else [ns[0]]) + Unpicked(ns[1..], conns)
  }

  /** The builders the cascade removes, in order. */
  function Chosen(ns: seq<NodeBuilder>, conns: seq<NodeBuilder>): (r: seq<NodeBuilder>)
  {
    if ns == [] then [] else (if ns[0] in conns then [ns[0]] else []) + Chosen(ns[1..], conns)
  }

  /** The entries of `s` (views, ids) that belong to the builders the
    * cascade keeps, in order. */
  function Kept<T>(s: seq<T>, ns: seq<NodeBuilder>, conns: seq<NodeBuilder>): (r: seq<T>)
    requires |s| == |ns|
  {
    if ns == [] then [] else (if ns[0] in conns then [] else [s[0]]) + Kept(s[1..], ns[1..], conns)
  }

  /** Position `m` of the kept builders is a position `k` of the list. */
  lemma {:induction false} UnpickedAt<T>(s: seq<T>, ns: seq<NodeBuilder>, conns: seq<NodeBuilder>, m: nat)
    returns (k: nat)
    requires |s| == |ns| && m < |Unpicked(ns, conns)|
    ensures |Kept(s, ns, conns)| == |Unpicked(ns, conns)|
    ensures k < |ns| && ns[k] !in conns
    ensures Unpicked(ns, conns)[m] == ns[k] && Kept(s, ns, conns)[m] == s[k]
  {
    KeptLength(s, ns, conns);
    if ns[0] !in conns && m == 0 {
      k := 0;
    } else {
      var m' := if ns[0] in conns then m else m - 1;
      var k' := UnpickedAt(s[1..], ns[1..], conns, m');
      k := k' + 1;
    }
  }

  lemma {:induction false} KeptLength<T>(s: seq<T>, ns: seq<NodeBuilder>, conns: seq<NodeBuilder>)
    requires |s| == |ns|
    ensures |Kept(s, ns, conns)| == |Unpicked(ns, conns)|
  {
    if ns != [] {
      KeptLength(s[1..], ns[1..], conns);
    }
  }

  /** The kept builders are the listed ones outside `conns`. */
  lemma {:induction false} UnpickedMembers(ns: seq<NodeBuilder>, conns: seq<NodeBuilder>, t: NodeBuilder)
    ensures t in Unpicked(ns, conns) <==> t in ns && t !in conns
  {
    if ns != [] {
      UnpickedMembers(ns[1..], conns, t);
      assert ns == [ns[0]] + ns[1..];
    }
  }

  lemma {:induction false} UnpickedDistinct(ns: seq<NodeBuilder>, conns: seq<NodeBuilder>)
    requires Distinct(ns)
    ensures Distinct(Unpicked(ns, conns))
  {
    if ns != [] {
      assert Distinct(ns[1..]) by {
        forall a, b | 0 <= a < |ns[1..]| && 0 <= b < |ns[1..]| && a != b
          ensures ns[1..][a] != ns[1..][b]
        {
          assert ns[1..][a] == ns[a + 1] && ns[1..][b] == ns[b + 1];
        }
      }
      UnpickedDistinct(ns[1..], conns);
      UnpickedMembers(ns[1..], conns, ns[0]);
      assert ns[0] !in ns[1..] by {
        forall j | 0 <= j < |ns[1..]|
          ensures ns[1..][j] != ns[0]
        {
          assert ns[1..][j] == ns[j + 1];
        }
      }
    }
  }

  /** Every connection of every builder is a listed builder. */
  predicate Closed(views: seq<ConnView>, ns: seq<NodeBuilder>)
    requires |views| == |ns|
  {
    forall k, j :: 0 <= k < |ns| && 0 <= j < |ViewTargets(views[k])| ==> ViewTargets(views[k])[j] in ns
  }

  /** A builder refers to another exactly when the other refers back. */
  predicate Symmetric(views: seq<ConnView>, ns: seq<NodeBuilder>)
    requires |views| == |ns|
  {
    forall a, b :: 0 <= a < |ns| && 0 <= b < |ns| && ns[b] in ViewTargets(views[a]) ==> ns[a] in ViewTargets(views[b])
  }

  /** Streets connect only IONodes and crossings, and those only streets. */
  predicate Alternating(views: seq<ConnView>, ns: seq<NodeBuilder>)
    requires |views| == |ns|
  {
    forall a, b :: 0 <= a < |ns| && 0 <= b < |ns| && ns[b] in ViewTargets(views[a]) ==> ns[a].Street? != ns[b].Street?
  }

  /** Each view is the view of its kind of builder. */
  predicate KindsAgree(views: seq<ConnView>, ns: seq<NodeBuilder>)
    requires |views| == |ns|
  {
    forall k :: 0 <= k < |ns| ==> (views[k].StreetView? <==> ns[k].Street?)
  }

  /** The network `connect_with_street` builds: distinct builders linked
    * in both directions, street to node, with no reference leaving the list. */
  predicate WellFormed(views: seq<ConnView>, ns: seq<NodeBuilder>)
  {
    |views| == |ns| && Distinct(ns) && KindsAgree(views, ns) &&
    Closed(views, ns) && Symmetric(views, ns) && Alternating(views, ns)
  }

  /** The list without its entry `i`, position by position. */
  lemma RestAt<T>(s: seq<T>, i: nat, k: nat)
    requires i < |s| && k < |s| - 1
    ensures (s[..i] + s[i + 1..])[k] == s[Up(k, i)]
  {
  }

  /** What the remaining list inherits from a well-formed list without the
    * non-street `ns[i]`: its own shape. */
  lemma RestShape(views: seq<ConnView>, ns: seq<NodeBuilder>, i: nat)
    requires WellFormed(views, ns) && i < |ns|
    ensures var rest, rv := ns[..i] + ns[i + 1..], views[..i] + views[i + 1..];
      |rv| == |rest| && Distinct(rest) && ns[i] !in rest && KindsAgree(rv, rest) &&
      Symmetric(rv, rest) && Alternating(rv, rest)
  {
    var rest, rv := ns[..i] + ns[i + 1..], views[..i] + views[i + 1..];
    forall k | 0 <= k < |rest|
      ensures rest[k] == ns[Up(k, i)] && rv[k] == views[Up(k, i)]
    {
      RestAt(ns, i, k);
      RestAt(views, i, k);
    }
  }

  /** ... and how it relates to `ns[i]` and its connections. */
  lemma RestAround(views: seq<ConnView>, ns: seq<NodeBuilder>, i: nat)
    requires WellFormed(views, ns) && i < |ns| && !ns[i].Street?
    ensures var rest, rv := ns[..i] + ns[i + 1..], views[..i] + views[i + 1..];
      var node, conns := ns[i], ViewTargets(views[i]);
      |rv| == |rest| &&
      (forall k, j :: 0 <= k < |rest| && 0 <= j < |ViewTargets(rv[k])| ==>
         ViewTargets(rv[k])[j] in rest || ViewTargets(rv[k])[j] == node) &&
      (forall k :: 0 <= k < |rest| && node in ViewTargets(rv[k]) ==> rest[k] in conns) &&
      (forall j :: 0 <= j < |conns| ==> conns[j].Street?)
  {
    var rest, rv := ns[..i] + ns[i + 1..], views[..i] + views[i + 1..];
    var node, conns := ns[i], ViewTargets(views[i]);
    forall k | 0 <= k < |rest|
      ensures rest[k] == ns[Up(k, i)] && rv[k] == views[Up(k, i)]
    {
      RestAt(ns, i, k);
      RestAt(views, i, k);
    }
    forall k, j | 0 <= k < |rest| && 0 <= j < |ViewTargets(rv[k])|
      ensures ViewTargets(rv[k])[j] in rest || ViewTargets(rv[k])[j] == node
    {
      var t := ViewTargets(rv[k])[j];
      assert t in ns;
      var b :| 0 <= b < |ns| && ns[b] == t;
      if b != i {
        RestAt(ns, i, Down(b, i));
      }
    }
    forall k | 0 <= k < |rest| && node in ViewTargets(rv[k])
      ensures rest[k] in conns
    {
      assert ns[i] in ViewTargets(views[Up(k, i)]);
    }
    forall j | 0 <= j < |conns|
      ensures conns[j].Street?
    {
      var t := conns[j];
      assert t in ns;
      var b :| 0 <= b < |ns| && ns[b] == t;
      assert ns[b] in ViewTargets(views[i]);
    }
  }

  /** ... so the removed streets do not refer to each other. */
  lemma RestPickedApart(views: seq<ConnView>, ns: seq<NodeBuilder>, i: nat)
    requires WellFormed(views, ns) && i < |ns| && !ns[i].Street?
    ensures var rest, rv := ns[..i] + ns[i + 1..], views[..i] + views[i + 1..];
      |rv| == |rest| && PickedApart(rv, rest, ViewTargets(views[i]))
  {
    RestShape(views, ns, i);
    RestAround(views, ns, i);
    StreetsApart(views[..i] + views[i + 1..], ns[..i] + ns[i + 1..], ViewTargets(views[i]));
  }

  /** In an alternating network no two streets refer to each other. */
  lemma StreetsApart(views: seq<ConnView>, ns: seq<NodeBuilder>, conns: seq<NodeBuilder>)
    requires |views| == |ns| && Alternating(views, ns)
    requires forall j :: 0 <= j < |conns| ==> conns[j].Street?
    ensures PickedApart(views, ns, conns)
  {
    forall p, q | 0 <= p < |ns| && 0 <= q < |ns| && ns[p] in conns && ns[q] in conns
      ensures ns[p] !in ViewTargets(views[q])
    {
      assert ns[p].Street? && ns[q].Street? by {
        var jp :| 0 <= jp < |conns| && conns[jp] == ns[p];
        var jq :| 0 <= jq < |conns| && conns[jq] == ns[q];
      }
    }
  }

  /** Everything the cascade lemmas need about the remaining list. */
  lemma RestFacts(views: seq<ConnView>, ns: seq<NodeBuilder>, i: nat)
    requires WellFormed(views, ns) && i < |ns| && !ns[i].Street?
    ensures var rest, rv := ns[..i] + ns[i + 1..], views[..i] + views[i + 1..];
      var node, conns := ns[i], ViewTargets(views[i]);
      |rv| == |rest| && Distinct(rest) && node !in rest && KindsAgree(rv, rest) &&
      Symmetric(rv, rest) && Alternating(rv, rest) && PickedApart(rv, rest, conns) &&
      (forall k, j :: 0 <= k < |rest| && 0 <= j < |ViewTargets(rv[k])| ==>
         ViewTargets(rv[k])[j] in rest || ViewTargets(rv[k])[j] == node) &&
      (forall k :: 0 <= k < |rest| && node in ViewTargets(rv[k]) ==> rest[k] in conns) &&
      (forall j :: 0 <= j < |conns| ==> conns[j].Street?)
  {
    RestShape(views, ns, i);
    RestAround(views, ns, i);
    RestPickedApart(views, ns, i);
  }

  function Up(k: nat, i: nat): nat
  {
    if k < i then k else k + 1
  }

  function Down(b: nat, i: nat): nat
    requires b != i
  {
    if b < i then b else b - 1
  }

  /** After the cascade, a kept builder refers only to kept builders. */
  lemma KeptClosed(views: seq<ConnView>, ns: seq<NodeBuilder>, i: nat, k: nat, t: NodeBuilder)
    requires WellFormed(views, ns) && i < |ns| && !ns[i].Street?
    requires var rest := ns[..i] + ns[i + 1..];
      k < |rest| && rest[k] !in ViewTargets(views[i])
    ensures var rest, rv := ns[..i] + ns[i + 1..], views[..i] + views[i + 1..];
      var conns := ViewTargets(views[i]);
      t in ViewTargets(CascadeFrom(rv, rest, conns, ns[i], 0)[k]) ==> t in rest && t !in conns
  {
    var rest, rv := ns[..i] + ns[i + 1..], views[..i] + views[i + 1..];
    var node, conns := ns[i], ViewTargets(views[i]);
    RestFacts(views, ns, i);
    var res := CascadeFrom(rv, rest, conns, node, 0);
    CascadeShrinks(rv, rest, conns, node, 0, k, t);
    if t in ViewTargets(res[k]) {
      var j :| 0 <= j < |ViewTargets(rv[k])| && ViewTargets(rv[k])[j] == t;
      assert t in rest || t == node;
      if t != node && t in conns {
        var p :| 0 <= p < |rest| && rest[p] == t;
        assert rest[p] in ViewTargets(rv[k]);
        assert rest[k] in ViewTargets(rv[p]);
        assert rest[k] != node;
        assert !rv[k].StreetView? by {
          assert rest[p].Street?;
        }
        CascadeClears(rv, rest, conns, node, 0, p, k);
      }
    }
  }

  /** `remove_node` of an IONode or crossing in a well-formed network
    * leaves a well-formed network: the cascade scrubs every reference to a
    * removed street, so no kept builder refers to a removed one. */
  lemma RemovalKeepsWellFormed(views: seq<ConnView>, ns: seq<NodeBuilder>, i: nat)
    requires WellFormed(views, ns) && i < |ns| && !ns[i].Street?
    ensures var rest, rv := ns[..i] + ns[i + 1..], views[..i] + views[i + 1..];
      var conns := ViewTargets(views[i]);
      WellFormed(Kept(CascadeFrom(rv, rest, conns, ns[i], 0), rest, conns), Unpicked(rest, conns))
  {
    var rest, rv := ns[..i] + ns[i + 1..], views[..i] + views[i + 1..];
    var node, conns := ns[i], ViewTargets(views[i]);
    RestFacts(views, ns, i);
    var res := CascadeFrom(rv, rest, conns, node, 0);
    var kept, kv := Unpicked(rest, conns), Kept(res, rest, conns);
    KeptLength(res, rest, conns);
    UnpickedDistinct(rest, conns);
    forall m | 0 <= m < |kept|
      ensures kv[m].StreetView? <==> kept[m].Street?
    {
      var k := UnpickedAt(res, rest, conns, m);
      CascadeShrinks(rv, rest, conns, node, 0, k, node);
    }
    forall m, j | 0 <= m < |kept| && 0 <= j < |ViewTargets(kv[m])|
      ensures ViewTargets(kv[m])[j] in kept
    {
      var k := UnpickedAt(res, rest, conns, m);
      var t := ViewTargets(kv[m])[j];
      KeptClosed(views, ns, i, k, t);
      UnpickedMembers(rest, conns, t);
    }
    forall a, b | 0 <= a < |kept| && 0 <= b < |kept| && kept[b] in ViewTargets(kv[a])
      ensures kept[a] in ViewTargets(kv[b]) && kept[a].Street? != kept[b].Street?
    {
      var ka := UnpickedAt(res, rest, conns, a);
      var kb := UnpickedAt(res, rest, conns, b);
      CascadeShrinks(rv, rest, conns, node, 0, ka, rest[kb]);
      CascadeShrinks(rv, rest, conns, node, 0, kb, rest[ka]);
    }
  }

  // ---- the loops over the list ---------------------------------------

  /** Every connection of every builder is a listed builder or `node`. */
  predicate ClosedAround(views: seq<ConnView>, ns: seq<NodeBuilder>, node: NodeBuilder)
    requires |views| == |ns|
  {
    forall k, j :: 0 <= k < |ns| && 0 <= j < |ViewTargets(views[k])| ==>
      ViewTargets(views[k])[j] in ns || ViewTargets(views[k])[j] == node
  }

  /** Taking a builder out of a closed list leaves the rest closed but for it. */
  lemma RestClosedAround(views: seq<ConnView>, ns: seq<NodeBuilder>, i: nat)
    requires |views| == |ns| && i < |ns| && Closed(views, ns)
    ensures var rest, rv := ns[..i] + ns[i + 1..], views[..i] + views[i + 1..];
      |rv| == |rest| && ClosedAround(rv, rest, ns[i])
  {
    var rest, rv := ns[..i] + ns[i + 1..], views[..i] + views[i + 1..];
    forall k, j | 0 <= k < |rest| && 0 <= j < |ViewTargets(rv[k])|
      ensures ViewTargets(rv[k])[j] in rest || ViewTargets(rv[k])[j] == ns[i]
    {
      RestAt(views, i, k);
      var t := ViewTargets(rv[k])[j];
      assert t in ns;
      var b :| 0 <= b < |ns| && ns[b] == t;
      if b != i {
        RestAt(ns, i, Down(b, i));
      }
    }
  }

  lemma ScrubKeepsAround(views: seq<ConnView>, ns: seq<NodeBuilder>, r: NodeBuilder, conns: seq<NodeBuilder>, node: NodeBuilder)
    requires |views| == |ns| && ClosedAround(views, ns, node)
    ensures ClosedAround(Scrub(views, ns, r, conns, node), ns, node)
  {
    var res := Scrub(views, ns, r, conns, node);
    forall k, j | 0 <= k < |ns| && 0 <= j < |ViewTargets(res[k])|
      ensures ViewTargets(res[k])[j] in ns || ViewTargets(res[k])[j] == node
    {
      var t := ViewTargets(res[k])[j];
      ScrubShrinks(views, ns, r, conns, node, k, t);
      var j' :| 0 <= j' < |ViewTargets(views[k])| && ViewTargets(views[k])[j'] == t;
    }
  }

  /** The picked indices are ascending and are exactly the positions, from
    * `i` on, of builders listed in `conns`. */
  lemma {:induction false} PickedFromSpec(ns: seq<NodeBuilder>, conns: seq<NodeBuilder>, i: nat)
    ensures forall m :: 0 <= m < |PickedFrom(ns, conns, i)| ==> ns[PickedFrom(ns, conns, i)[m]] in conns
    ensures forall m, m' :: 0 <= m < m' < |PickedFrom(ns, conns, i)| ==>
      PickedFrom(ns, conns, i)[m] < PickedFrom(ns, conns, i)[m']
    ensures forall p :: i <= p < |ns| && ns[p] in conns ==> p in PickedFrom(ns, conns, i)
    decreases |ns| - i
  {
    if i < |ns| {
      PickedFromSpec(ns, conns, i + 1);
      var head, tail := if ns[i] in conns then [i] else [], PickedFrom(ns, conns, i + 1);
      assert PickedFrom(ns, conns, i) == head + tail;
      forall p | i <= p < |ns| && ns[p] in conns
        ensures p in head + tail
      {
        if p > i {
          assert p in tail;
        }
      }
    }
  }

  lemma {:induction false} UnpickedConcat(a: seq<NodeBuilder>, b: seq<NodeBuilder>, conns: seq<NodeBuilder>)
    ensures Unpicked(a + b, conns) == Unpicked(a, conns) + Unpicked(b, conns)
    ensures Chosen(a + b, conns) == Chosen(a, conns) + Chosen(b, conns)
  {
    UnpickedAppend(a, b, conns);
    ChosenAppend(a, b, conns);
  }

  lemma {:induction false} UnpickedAppend(a: seq<NodeBuilder>, b: seq<NodeBuilder>, conns: seq<NodeBuilder>)
    ensures Unpicked(a + b, conns) == Unpicked(a, conns) + Unpicked(b, conns)
  {
    if a == [] {
      assert a + b == b;
    } else {
      var h := if a[0] in conns then [] else [a[0]];
      assert (a + b)[0] == a[0];
      assert (a + b)[1..] == a[1..] + b;
      UnpickedAppend(a[1..], b, conns);
      calc {
        Unpicked(a + b, conns);
        h + Unpicked(a[1..] + b, conns);
        h + (Unpicked(a[1..], conns) + Unpicked(b, conns));
        (h + Unpicked(a[1..], conns)) + Unpicked(b, conns);
      }
    }
  }

  lemma {:induction false} ChosenAppend(a: seq<NodeBuilder>, b: seq<NodeBuilder>, conns: seq<NodeBuilder>)
    ensures Chosen(a + b, conns) == Chosen(a, conns) + Chosen(b, conns)
  {
    if a == [] {
      assert a + b == b;
    } else {
      var h := if a[0] in conns then [a[0]] else [];
      assert (a + b)[0] == a[0];
      assert (a + b)[1..] == a[1..] + b;
      ChosenAppend(a[1..], b, conns);
      calc {
        Chosen(a + b, conns);
        h + Chosen(a[1..] + b, conns);
        h + (Chosen(a[1..], conns) + Chosen(b, conns));
        (h + Chosen(a[1..], conns)) + Chosen(b, conns);
      }
    }
  }

  lemma {:induction false} UnpickedNone(a: seq<NodeBuilder>, conns: seq<NodeBuilder>)
    requires forall j :: 0 <= j < |a| ==> a[j] !in conns
    ensures Unpicked(a, conns) == a && Chosen(a, conns) == []
  {
    if a != [] {
      UnpickedNone(a[1..], conns);
    }
  }

  /** Where the removal loop has got to: `idx[t..]` are removed. */
  function Low(idx: seq<nat>, t: nat, n: nat): (r: nat)
    requires forall m :: 0 <= m < |idx| ==> idx[m] < n
    ensures r <= n && (t < |idx| ==> r == idx[t])
  {
    if t < |idx| then idx[t] else n
  }

  /** No builder between `lo` and `hi` is picked. */
  lemma PickedGap(rest: seq<NodeBuilder>, conns: seq<NodeBuilder>, lo: nat, hi: nat)
    requires lo <= hi <= |rest|
    requires forall m :: 0 <= m < |PickedFrom(rest, conns, 0)| ==>
      PickedFrom(rest, conns, 0)[m] < lo || hi <= PickedFrom(rest, conns, 0)[m]
    ensures Unpicked(rest[lo..hi], conns) == rest[lo..hi] && Chosen(rest[lo..hi], conns) == []
  {
    var idx := PickedFrom(rest, conns, 0);
    PickedFromSpec(rest, conns, 0);
    var mid := rest[lo..hi];
    forall j | 0 <= j < |mid|
      ensures mid[j] !in conns
    {
      assert mid[j] == rest[lo + j];
      assert lo + j !in idx;
    }
    UnpickedNone(mid, conns);
  }

  /** Removing position `q` of a list whose positions `q + 1 .. l` are kept
    * and whose tail from `l` is filtered. */
  lemma DropAt(rest: seq<NodeBuilder>, conns: seq<NodeBuilder>, q: nat, l: nat)
    requires q < l <= |rest| && rest[q] in conns
    requires Unpicked(rest[q + 1..l], conns) == rest[q + 1..l] && Chosen(rest[q + 1..l], conns) == []
    ensures var cur := rest[..l] + Unpicked(rest[l..], conns);
      cur[q] == rest[q] &&
      cur[..q] + cur[q + 1..] == rest[..q] + Unpicked(rest[q..], conns) &&
      Chosen(rest[q..], conns) == [rest[q]] + Chosen(rest[l..], conns)
  {
    var mid, tail := rest[q + 1..l], Unpicked(rest[l..], conns);
    DropFiltered(rest, conns, q, l);
    var cur := rest[..l] + tail;
    assert cur[..q] == rest[..q];
    assert cur[q + 1..] == mid + tail;
  }

  /** The filtered tail from a picked position `q` followed by kept
    * positions up to `l`. */
  lemma DropFiltered(rest: seq<NodeBuilder>, conns: seq<NodeBuilder>, q: nat, l: nat)
    requires q < l <= |rest| && rest[q] in conns
    requires Unpicked(rest[q + 1..l], conns) == rest[q + 1..l] && Chosen(rest[q + 1..l], conns) == []
    ensures Unpicked(rest[q..], conns) == rest[q + 1..l] + Unpicked(rest[l..], conns)
    ensures Chosen(rest[q..], conns) == [rest[q]] + Chosen(rest[l..], conns)
  {
    var mid := rest[q + 1..l];
    assert rest[q..] == [rest[q]] + (mid + rest[l..]);
    assert [rest[q]][1..] == [];
    UnpickedAppend([rest[q]], mid + rest[l..], conns);
    UnpickedAppend(mid, rest[l..], conns);
    ChosenAppend([rest[q]], mid + rest[l..], conns);
    ChosenAppend(mid, rest[l..], conns);
  }

  /** Between two consecutive picked positions nothing is picked. */
  lemma PickedNext(rest: seq<NodeBuilder>, conns: seq<NodeBuilder>, t: nat)
    requires 0 < t <= |PickedFrom(rest, conns, 0)|
    ensures var idx := PickedFrom(rest, conns, 0);
      idx[t - 1] < Low(idx, t, |rest|) && rest[idx[t - 1]] in conns
    ensures forall m :: 0 <= m < |PickedFrom(rest, conns, 0)| ==>
      PickedFrom(rest, conns, 0)[m] < PickedFrom(rest, conns, 0)[t - 1] + 1 ||
      Low(PickedFrom(rest, conns, 0), t, |rest|) <= PickedFrom(rest, conns, 0)[m]
  {
    var idx := PickedFrom(rest, conns, 0);
    PickedFromSpec(rest, conns, 0);
    forall m | 0 <= m < |idx|
      ensures idx[m] < idx[t - 1] + 1 || Low(idx, t, |rest|) <= idx[m]
    {
      if m < t - 1 {
        assert idx[m] < idx[t - 1];
      } else if m > t - 1 {
        assert idx[t] <= idx[m];
      }
    }
  }

  /** One step of the removal loop, right to left: removing `idx[t - 1]`
    * from the list with `idx[t..]` removed removes one more picked builder. */
  lemma DropStep(rest: seq<NodeBuilder>, conns: seq<NodeBuilder>, t: nat)
    requires 0 < t <= |PickedFrom(rest, conns, 0)|
    ensures var idx := PickedFrom(rest, conns, 0);
      var q, l := idx[t - 1], Low(idx, t, |rest|);
      var cur := rest[..l] + Unpicked(rest[l..], conns);
      q < l && cur[q] == rest[q] &&
      cur[..q] + cur[q + 1..] == rest[..q] + Unpicked(rest[q..], conns) &&
      Chosen(rest[q..], conns) == [rest[q]] + Chosen(rest[l..], conns)
  {
    var idx := PickedFrom(rest, conns, 0);
    var q, l := idx[t - 1], Low(idx, t, |rest|);
    PickedNext(rest, conns, t);
    PickedGap(rest, conns, q + 1, l);
    DropAt(rest, conns, q, l);
  }

  /** Nothing before the first picked position is picked. */
  lemma PickedFirst(rest: seq<NodeBuilder>, conns: seq<NodeBuilder>)
    ensures forall m :: 0 <= m < |PickedFrom(rest, conns, 0)| ==>
      PickedFrom(rest, conns, 0)[m] < 0 || Low(PickedFrom(rest, conns, 0), 0, |rest|) <= PickedFrom(rest, conns, 0)[m]
  {
    var idx := PickedFrom(rest, conns, 0);
    PickedFromSpec(rest, conns, 0);
    forall m | 0 <= m < |idx|
      ensures Low(idx, 0, |rest|) <= idx[m]
    {
      if m > 0 {
        assert idx[0] < idx[m];
      }
    }
  }

  /** Before the removal loop nothing is removed; after it exactly the
    * picked builders are. */
  lemma DropEnds(rest: seq<NodeBuilder>, conns: seq<NodeBuilder>)
    ensures var idx := PickedFrom(rest, conns, 0);
      var l := Low(idx, 0, |rest|);
      Low(idx, |idx|, |rest|) == |rest| &&
      rest[..l] + Unpicked(rest[l..], conns) == Unpicked(rest, conns) &&
      Chosen(rest[l..], conns) == Chosen(rest, conns)
  {
    var idx := PickedFrom(rest, conns, 0);
    var l := Low(idx, 0, |rest|);
    PickedFirst(rest, conns);
    PickedGap(rest, conns, 0, l);
    assert rest == rest[..l] + rest[l..];
    UnpickedConcat(rest[..l], rest[l..], conns);
  }

  // ---- removing a street -----------------------------------------------

  /** `remove_node` of a street does not cascade, and leaves every node the
    * street was linked to referring to a builder no longer listed. */
  lemma StreetRemovalDangles(views: seq<ConnView>, ns: seq<NodeBuilder>, i: nat)
    requires WellFormed(views, ns) && i < |ns| && ns[i].Street? && ViewTargets(views[i]) != []
    ensures var rest, rv := ns[..i] + ns[i + 1..], views[..i] + views[i + 1..];
      |rv| == |rest| && !Closed(rv, rest)
  {
    var rest, rv := ns[..i] + ns[i + 1..], views[..i] + views[i + 1..];
    RestShape(views, ns, i);
    var t := ViewTargets(views[i])[0];
    assert t in ns;
    var b :| 0 <= b < |ns| && ns[b] == t;
    assert ns[b] in ViewTargets(views[i]);
    assert b != i;
    var kb := Down(b, i);
    assert Up(kb, i) == b;
    RestAt(views, i, kb);
    assert rv[kb] == views[b];
    SymmetricAt(views, ns, i, b);
    var j :| 0 <= j < |ViewTargets(rv[kb])| && ViewTargets(rv[kb])[j] == ns[i];
  }

  lemma SymmetricAt(views: seq<ConnView>, ns: seq<NodeBuilder>, a: nat, b: nat)
    requires |views| == |ns| && Symmetric(views, ns) && a < |ns| && b < |ns| && ns[b] in ViewTargets(views[a])
    ensures ns[a] in ViewTargets(views[b])
  {
  }

  /** Scrubbing the street from its ends before dropping it, as the cascade
    * does for the streets of a removed node, keeps the network well formed. */
  lemma StreetRemovalScrubbed(views: seq<ConnView>, ns: seq<NodeBuilder>, i: nat)
    requires WellFormed(views, ns) && i < |ns| && ns[i].Street?
    ensures var rest, rv := ns[..i] + ns[i + 1..], views[..i] + views[i + 1..];
      |rv| == |rest| && WellFormed(Scrub(rv, rest, ns[i], ViewTargets(views[i]), ns[i]), rest)
  {
    var rest, rv := ns[..i] + ns[i + 1..], views[..i] + views[i + 1..];
    var street, conns := ns[i], ViewTargets(views[i]);
    RestShape(views, ns, i);
    RestClosedAround(views, ns, i);
    var res := Scrub(rv, rest, street, conns, street);
    forall k | 0 <= k < |rest|
      ensures res[k].StreetView? == rv[k].StreetView?
      ensures street !in ViewTargets(res[k])
    {
      ScrubShrinks(rv, rest, street, conns, street, k, street);
      if street in ViewTargets(rv[k]) {
        RestAt(ns, i, k);
        RestAt(views, i, k);
        assert ns[Up(k, i)] in ViewTargets(views[i]);
        ScrubClears(rv, rest, street, conns, street, k);
      }
    }
    forall k, j | 0 <= k < |rest| && 0 <= j < |ViewTargets(res[k])|
      ensures ViewTargets(res[k])[j] in rest
    {
      var t := ViewTargets(res[k])[j];
      ScrubShrinks(rv, rest, street, conns, street, k, t);
      var j' :| 0 <= j' < |ViewTargets(rv[k])| && ViewTargets(rv[k])[j'] == t;
    }
    forall a, b | 0 <= a < |rest| && 0 <= b < |rest| && rest[b] in ViewTargets(res[a])
      ensures rest[a] in ViewTargets(res[b]) && rest[a].Street? != rest[b].Street?
    {
      ScrubShrinks(rv, rest, street, conns, street, a, rest[b]);
      ScrubShrinks(rv, rest, street, conns, street, b, rest[a]);
    }
  }
}
