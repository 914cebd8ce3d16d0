/**
  Grouping of the products by type for the products section: a single pass that
  appends each product to the list of its type ("Other" when the type is empty),
  creating the list on first sight. Groups are kept in an association list in
  order of first insertion.
 */
module Grouping {
  import opened Catalog
  import opened Facets

  datatype Group = Group(typeName: string, members: seq<Product>)

  /** `product.productType || 'Other'` */
  function TypeLabel(p: Product): (k: string)
    ensures k != ""
  {
    if p.productType == "" then "Other" else p.productType
  }

  function LabelsOf(ps: seq<Product>): (r: seq<string>)
    ensures |r| == |ps| && forall i :: 0 <= i < |ps| ==> r[i] == TypeLabel(ps[i])
  {
    seq(|ps|, i requires 0 <= i < |ps| => TypeLabel(ps[i]))
  }

  /** The group labels, in order of first appearance. */
  function GroupLabels(ps: seq<Product>): seq<string>
  {
    Unique(LabelsOf(ps))
  }

  /** The products labelled `k`, in input order. */
  function Members(ps: seq<Product>, k: string): seq<Product>
  {
    if ps == [] then []
    else Members(ps[..|ps| - 1], k) + (if TypeLabel(ps[|ps| - 1]) == k then [ps[|ps| - 1]] else [])
  }

  /** The grouping the pass builds, stated independently of the pass. */
  function GroupsOf(ps: seq<Product>): (gs: seq<Group>)
    ensures |gs| == |GroupLabels(ps)|
  {
    var ks := GroupLabels(ps);
    seq(|ks|, j requires 0 <= j < |ks| => Group(ks[j], Members(ps, ks[j])))
  }

  function Labels(gs: seq<Group>): (r: seq<string>)
    ensures |r| == |gs| && forall j :: 0 <= j < |gs| ==> r[j] == gs[j].typeName
  {
    seq(|gs|, j requires 0 <= j < |gs| => gs[j].typeName)
  }

  function TotalMembers(gs: seq<Group>): nat
  {
    if gs == [] then 0 else TotalMembers(gs[..|gs| - 1]) + |gs[|gs| - 1].members|
  }

  /** The lookup `acc[type]` in the association list: the index of the group, or -1. */
  function IndexOfLabel(gs: seq<Group>, k: string): (j: int)
    ensures -1 <= j < |gs|
    ensures j == -1 <==> forall i :: 0 <= i < |gs| ==> gs[i].typeName != k
    ensures j >= 0 ==> gs[j].typeName == k
  {
    if gs == [] then -1
    else if gs[|gs| - 1].typeName == k then |gs| - 1
    else IndexOfLabel(gs[..|gs| - 1], k)
  }

  /** Filtering distributes over concatenation: members keep their input order. */
  lemma {:induction false} MembersAppend(a: seq<Product>, b: seq<Product>, k: string)
    ensures Members(a + b, k) == Members(a, k) + Members(b, k)
    decreases |b|
  {
    if b == [] {
      assert a + b == a;
    } else {
      var b', last := b[..|b| - 1], b[|b| - 1];
      assert (a + b)[..|a + b| - 1] == a + b';
      MembersAppend(a, b', k);
    }
  }

  /** Every member of `Members(ps, k)` carries label `k`, and every product with label `k` is one. */
  lemma {:induction false} MembersExact(ps: seq<Product>, k: string)
    ensures forall p :: p in Members(ps, k) <==> p in ps && TypeLabel(p) == k
  {
    if ps != [] {
      var init := ps[..|ps| - 1];
      MembersExact(init, k);
      assert ps == init + [ps[|ps| - 1]];
    }
  }

  lemma LabelInLabelsOf(ps: seq<Product>, k: string)
    ensures k in LabelsOf(ps) <==> exists p :: p in ps && TypeLabel(p) == k
  {
    if k in LabelsOf(ps) {
      var i :| 0 <= i < |ps| && LabelsOf(ps)[i] == k;
      assert ps[i] in ps;
    }
  }

  /**
    Grouping is complete and disjoint: the labels are distinct; a product belongs to
    a group exactly when the group's label is the product's own label; every group
    is non-empty; and the groups hold |ps| products in all.
   */
  lemma GroupingPartitions(ps: seq<Product>)
    ensures NoDuplicates(Labels(GroupsOf(ps)))
    ensures forall j, p :: 0 <= j < |GroupsOf(ps)| ==>
              (p in GroupsOf(ps)[j].members <==> p in ps && TypeLabel(p) == GroupsOf(ps)[j].typeName)
    ensures forall p :: p in ps ==> exists j :: 0 <= j < |GroupsOf(ps)| && GroupsOf(ps)[j].typeName == TypeLabel(p)
    ensures forall j :: 0 <= j < |GroupsOf(ps)| ==> |GroupsOf(ps)[j].members| > 0
    ensures TotalMembers(GroupsOf(ps)) == |ps|
  {
    var gs := GroupsOf(ps);
    assert Labels(gs) == GroupLabels(ps);
    forall j | 0 <= j < |gs|
      ensures forall p :: p in gs[j].members <==> p in ps && TypeLabel(p) == gs[j].typeName
      ensures |gs[j].members| > 0
    {
      MembersExact(ps, gs[j].typeName);
      LabelInLabelsOf(ps, gs[j].typeName);
    }
    forall p | p in ps
      ensures exists j :: 0 <= j < |gs| && gs[j].typeName == TypeLabel(p)
    {
      LabelInLabelsOf(ps, TypeLabel(p));
      assert TypeLabel(p) in GroupLabels(ps);
    }
    GroupsTotal(ps);
  }

  /** Groups appear in the order in which their first product appears. */
  lemma GroupsInFirstAppearanceOrder(ps: seq<Product>)
    ensures Labels(GroupsOf(ps)) == GroupLabels(ps)
    ensures forall i, j :: 0 <= i < j < |GroupsOf(ps)| ==>
              FirstIndex(LabelsOf(ps), GroupsOf(ps)[i].typeName) < FirstIndex(LabelsOf(ps), GroupsOf(ps)[j].typeName)
  {
    UniqueKeepsFirstAppearanceOrder(LabelsOf(ps));
  }

  /** A product with a label already seen adds no label. */
  lemma GroupLabelsKept(ps: seq<Product>, p: Product)
    requires TypeLabel(p) in GroupLabels(ps)
    ensures GroupLabels(ps + [p]) == GroupLabels(ps)
  {
    var qs := ps + [p];
    assert qs[..|qs| - 1] == ps;
    assert LabelsOf(qs) == LabelsOf(ps) + [TypeLabel(p)];
    assert LabelsOf(qs)[..|qs| - 1] == LabelsOf(ps);
  }

  /** One more product joins the members of its own label only. */
  lemma MembersSnoc(ps: seq<Product>, p: Product, k: string)
    ensures Members(ps + [p], k) == Members(ps, k) + (if TypeLabel(p) == k then [p] else [])
  {
    assert (ps + [p])[..|ps + [p]| - 1] == ps;
  }

  /** Adding a product whose label already has a group appends it to that group only. */
  lemma {:induction false} GroupsStepExisting(ps: seq<Product>, p: Product, j: nat)
    requires j < |GroupsOf(ps)| && GroupsOf(ps)[j].typeName == TypeLabel(p)
    ensures GroupsOf(ps + [p]) == GroupsOf(ps)[j := Group(TypeLabel(p), GroupsOf(ps)[j].members + [p])]
  {
    var k, qs := TypeLabel(p), ps + [p];
    var ks := GroupLabels(ps);
    assert ks[j] == k;
    GroupLabelsKept(ps, p);
    var before, after := GroupsOf(ps), GroupsOf(qs);
    var expected := before[j := Group(k, before[j].members + [p])];
    assert |after| == |expected|;
    forall i | 0 <= i < |ks|
      ensures after[i] == expected[i]
    {
      MembersSnoc(ps, p, ks[i]);
      assert ks[i] == k <==> i == j by {
        assert NoDuplicates(ks);
      }
    }
  }

  lemma {:induction false} MembersOfAbsentLabel(ps: seq<Product>, k: string)
    requires k !in LabelsOf(ps)
    ensures Members(ps, k) == []
  {
    if ps != [] {
      var init := ps[..|ps| - 1];
      assert LabelsOf(ps)[|ps| - 1] == TypeLabel(ps[|ps| - 1]);
      assert LabelsOf(init) == LabelsOf(ps)[..|ps| - 1];
      MembersOfAbsentLabel(init, k);
    }
  }

  /** Adding a product whose label has no group yet opens a new last group holding just it. */
  lemma {:induction false} GroupsStepNew(ps: seq<Product>, p: Product)
    requires forall j :: 0 <= j < |GroupsOf(ps)| ==> GroupsOf(ps)[j].typeName != TypeLabel(p)
    ensures GroupsOf(ps + [p]) == GroupsOf(ps) + [Group(TypeLabel(p), [p])]
  {
    var k, qs := TypeLabel(p), ps + [p];
    assert qs[..|qs| - 1] == ps;
    assert LabelsOf(qs) == LabelsOf(ps) + [k];
    assert LabelsOf(qs)[..|qs| - 1] == LabelsOf(ps);
    var ks := GroupLabels(ps);
    forall j | 0 <= j < |ks|
      ensures ks[j] != k
    {
      assert GroupsOf(ps)[j].typeName == ks[j];
    }
    assert GroupLabels(qs) == ks + [k];
    MembersOfAbsentLabel(ps, k);
    var before, after := GroupsOf(ps), GroupsOf(qs);
    forall i | 0 <= i < |ks| + 1
      ensures after[i] == (before + [Group(k, [p])])[i]
    {
      assert Members(qs, (ks + [k])[i]) == Members(ps, (ks + [k])[i]) + (if (ks + [k])[i] == k then [p] else []);
    }
  }

  lemma {:induction false} TotalMembersUpdate(gs: seq<Group>, j: nat, g: Group)
    requires j < |gs|
    ensures TotalMembers(gs[j := g]) == TotalMembers(gs) - |gs[j].members| + |g.members|
  {
    var n := |gs| - 1;
    var hs := gs[j := g];
    assert hs[..n] == if j == n then gs[..n] else gs[..n][j := g];
    if j < n {
      TotalMembersUpdate(gs[..n], j, g);
    }
  }

  lemma {:induction false} GroupsTotal(ps: seq<Product>)
    ensures TotalMembers(GroupsOf(ps)) == |ps|
  {
    if ps != [] {
      var init, p := ps[..|ps| - 1], ps[|ps| - 1];
      GroupsTotal(init);
      assert ps == init + [p];
      var gs := GroupsOf(init);
      var j := IndexOfLabel(gs, TypeLabel(p));
      if j >= 0 {
        GroupsStepExisting(init, p, j);
        TotalMembersUpdate(gs, j, Group(TypeLabel(p), gs[j].members + [p]));
      } else {
        GroupsStepNew(init, p);
        assert (gs + [Group(TypeLabel(p), [p])])[..|gs|] == gs;
      }
    }
  }

  /**
    One step of the grouping pass: the grouping of `qs + [p]` is the grouping of
    `qs` with `p` pushed onto the group of its label, opened at the end if absent.
   */
  lemma GroupsStep(qs: seq<Product>, p: Product)
    ensures var gs, k := GroupsOf(qs), TypeLabel(p);
            var j := IndexOfLabel(gs, k);
            GroupsOf(qs + [p]) == if j < 0 then gs + [Group(k, [p])] else gs[j := Group(k, gs[j].members + [p])]
  {
    var gs, k := GroupsOf(qs), TypeLabel(p);
    var j := IndexOfLabel(gs, k);
    if j < 0 {
      GroupsStepNew(qs, p);
    } else {
      GroupsStepExisting(qs, p, j);
    }
  }

  lemma TakeOneMore<T>(s: seq<T>, i: nat)
    requires i < |s|
    ensures s[..i + 1] == s[..i] + [s[i]]
  {
  }

  /** Opening an empty group at the end and then appending to it is appending the filled group. */
  lemma OpenThenPush(gs: seq<Group>, k: string, p: Product)
    ensures (gs + [Group(k, [])])[|gs| := Group(k, (gs + [Group(k, [])])[|gs|].members + [p])] == gs + [Group(k, [p])]
  {
    assert [] + [p] == [p];
  }

  /** The update of the association list for one product: `acc[type] ??= []; acc[type].push(product)`. */
  method Push(acc: seq<Group>, product: Product) returns (r: seq<Group>)
    ensures var k := TypeLabel(product);
            var j := IndexOfLabel(acc, k);
            r == if j < 0 then acc + [Group(k, [product])] else acc[j := Group(k, acc[j].members + [product])]
  {
    var typeName := TypeLabel(product);
    var j := IndexOfLabel(acc, typeName);
    r := acc;
    if j < 0 {
      OpenThenPush(acc, typeName, product);
      r := r + [Group(typeName, [])];
      j := |r| - 1;
    }
    r := r[j := Group(typeName, r[j].members + [product])];
  }

  /** One iteration of the grouping pass: push the product at position `i`. */
  method PushStep(ps: seq<Product>, i: nat, acc: seq<Group>) returns (r: seq<Group>)
    requires i < |ps| && acc == GroupsOf(ps[..i])
    ensures r == GroupsOf(ps[..i + 1])
  {
    TakeOneMore(ps, i);
    GroupsStep(ps[..i], ps[i]);
    r := Push(acc, ps[i]);
  }

  /** `products.reduce((acc, product) => { ... }, {})`: one pass, pushing each product onto its group. */
  method GroupByType(ps: seq<Product>) returns (acc: seq<Group>)
    ensures acc == GroupsOf(ps)
  {
    acc := [];
    for i := 0 to |ps|
      invariant acc == GroupsOf(ps[..i])
    {
      acc := PushStep(ps, i, acc);
    }
    assert ps[..|ps|] == ps;
  }

  /**
    The property names a plain `{}` inherits from `Object.prototype`. For such a name,
    `acc[type]` on the accumulator is truthy (an inherited method, or the prototype
    itself for `__proto__`), so no list is created, and `acc[type].push` throws a
    `TypeError`.
   */
  predicate Inherited(k: string)
  {
    k in InheritedNames
  }

  const InheritedNames: set<string> :=
    {"constructor", "__defineGetter__", "__defineSetter__", "hasOwnProperty", "__lookupGetter__",
     "__lookupSetter__", "isPrototypeOf", "propertyIsEnumerable", "toString", "valueOf",
     "__proto__", "toLocaleString"}

  /**
    The `reduce` as the code is written, over a `{}` accumulator: it throws (`None`)
    as soon as a product's label is an inherited property name, and otherwise builds
    the grouping.
   */
  method GroupByTypeAsWritten(ps: seq<Product>) returns (r: Option<seq<Group>>)
    ensures r.None? <==> exists i :: 0 <= i < |ps| && Inherited(TypeLabel(ps[i]))
    ensures r.Some? ==> r.value == GroupsOf(ps)
  {
    var acc := [];
    for i := 0 to |ps|
      invariant acc == GroupsOf(ps[..i])
      invariant forall j :: 0 <= j < i ==> !Inherited(TypeLabel(ps[j]))
    {
      var typeName := TypeLabel(ps[i]);
      if Inherited(typeName) {
        return None;
      }
      acc := PushStep(ps, i, acc);
    }
    assert ps[..|ps|] == ps;
    return Some(acc);
  }

  /**
    A product of type "constructor" gets a group of its own in the intended grouping,
    where the code as written throws.
   */
  lemma InheritedLabelGetsGroup(p: Product)
    requires p.productType == "constructor"
    ensures Inherited(TypeLabel(p))
    ensures GroupsOf([p]) == [Group("constructor", [p])]
  {
    assert GroupsOf([]) == [];
    GroupsStepNew([], p);
    assert [] + [p] == [p];
  }
}
