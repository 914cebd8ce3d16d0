/**
  The catalog facets: the distinct product types and vendors in order of first
  appearance (`[...new Set(xs.filter(Boolean))]`), and the number of active products.
 */
module Facets {
  import opened Catalog

  predicate NoDuplicates(xs: seq<string>) {
    forall i, j :: 0 <= i < j < |xs| ==> xs[i] != xs[j]
  }

  /**
    `[...new Set(xs.filter(Boolean))]`: the non-empty strings of `xs`, each once,
    inserted into the set from left to right.
   */
  function Unique(xs: seq<string>): (r: seq<string>)
    ensures forall x :: x in r <==> x in xs && x != ""
    ensures NoDuplicates(r)
  {
    if xs == [] then []
    else
      var u, x := Unique(xs[..|xs| - 1]), xs[|xs| - 1];
      assert xs == xs[..|xs| - 1] + [x];
      if x == "" || x in u then u else u + [x]
  }

  /** The position of the first occurrence of `x` in `xs`. */
  function FirstIndex(xs: seq<string>, x: string): (k: nat)
    requires x in xs
    ensures k < |xs| && xs[k] == x && x !in xs[..k]
  {
    var init := xs[..|xs| - 1];
    if x in init then
      var k := FirstIndex(init, x);
      assert xs[..k] == init[..k];
      k
    else
      |xs| - 1
  }

  /** `Unique` keeps the order in which the values first appear in the input. */
  lemma {:induction false} UniqueKeepsFirstAppearanceOrder(xs: seq<string>)
    ensures forall i, j :: 0 <= i < j < |Unique(xs)| ==>
              FirstIndex(xs, Unique(xs)[i]) < FirstIndex(xs, Unique(xs)[j])
  {
    if xs != [] {
      var init, x := xs[..|xs| - 1], xs[|xs| - 1];
      var u := Unique(init);
      UniqueKeepsFirstAppearanceOrder(init);
      forall y | y in init
        ensures FirstIndex(xs, y) == FirstIndex(init, y)
      {
        var k := FirstIndex(init, y);
        assert xs[..k] == init[..k];
        assert y !in xs[..FirstIndex(xs, y)];
        assert xs[k] == y;
      }
      if x != "" && x !in u {
        assert x !in init;
        assert FirstIndex(xs, x) == |xs| - 1;
        var r := Unique(xs);
        assert r == u + [x];
        forall i, j | 0 <= i < j < |r|
          ensures FirstIndex(xs, r[i]) < FirstIndex(xs, r[j])
        {
          assert r[i] == u[i] && r[i] in init;
          if j < |u| {
            assert r[j] == u[j];
          }
        }
      }
    }
  }

  function TypesOf(ps: seq<Product>): (r: seq<string>)
    ensures |r| == |ps| && forall i :: 0 <= i < |ps| ==> r[i] == ps[i].productType
  {
    seq(|ps|, i requires 0 <= i < |ps| => ps[i].productType)
  }

  function VendorsOf(ps: seq<Product>): (r: seq<string>)
    ensures |r| == |ps| && forall i :: 0 <= i < |ps| ==> r[i] == ps[i].vendor
  {
    seq(|ps|, i requires 0 <= i < |ps| => ps[i].vendor)
  }

  /** `productTypes`: the distinct non-empty product types. */
  function ProductTypes(ps: seq<Product>): (r: seq<string>)
    ensures NoDuplicates(r) && "" !in r
    ensures forall i :: 0 <= i < |ps| && ps[i].productType != "" ==> ps[i].productType in r
  {
    Unique(TypesOf(ps))
  }

  /** `vendors`: the distinct non-empty vendors. */
  function VendorNames(ps: seq<Product>): (r: seq<string>)
    ensures NoDuplicates(r) && "" !in r
    ensures forall i :: 0 <= i < |ps| && ps[i].vendor != "" ==> ps[i].vendor in r
  {
    Unique(VendorsOf(ps))
  }

  /**
    The facet lists hold no duplicate and no empty value, and every non-empty
    product type and vendor of the catalog is in them.
   */
  lemma FacetsComplete(ps: seq<Product>)
    ensures NoDuplicates(ProductTypes(ps)) && NoDuplicates(VendorNames(ps))
    ensures "" !in ProductTypes(ps) && "" !in VendorNames(ps)
    ensures forall t :: t in ProductTypes(ps) <==> exists i :: 0 <= i < |ps| && ps[i].productType == t && t != ""
    ensures forall v :: v in VendorNames(ps) <==> exists i :: 0 <= i < |ps| && ps[i].vendor == v && v != ""
  {
    var ts, vs := TypesOf(ps), VendorsOf(ps);
    forall t ensures t in ts <==> exists i :: 0 <= i < |ps| && ps[i].productType == t {
      if t in ts {
        var i :| 0 <= i < |ts| && ts[i] == t;
      }
    }
    forall v ensures v in vs <==> exists i :: 0 <= i < |ps| && ps[i].vendor == v {
      if v in vs {
        var i :| 0 <= i < |vs| && vs[i] == v;
      }
    }
  }

  predicate IsActive(p: Product) {
    p.status == "ACTIVE"
  }

  /** `products.filter(p => p.status === 'ACTIVE').length` */
  function ActiveCount(ps: seq<Product>): (n: nat)
    ensures n <= |ps|
  {
    if ps == [] then 0
    else ActiveCount(ps[..|ps| - 1]) + (if IsActive(ps[|ps| - 1]) then 1 else 0)
  }

  function ActiveIndices(ps: seq<Product>): set<nat>
  {
    set i: nat | i < |ps| && IsActive(ps[i])
  }

  /** The active count is the number of positions whose status is exactly "ACTIVE". */
  lemma {:induction false} ActiveCountIsIndexCount(ps: seq<Product>)
    ensures ActiveCount(ps) == |ActiveIndices(ps)|
  {
    if ps != [] {
      var n := |ps| - 1;
      var init := ps[..n];
      ActiveCountIsIndexCount(init);
      if IsActive(ps[n]) {
        assert ActiveIndices(ps) == ActiveIndices(init) + {n};
        assert n !in ActiveIndices(init);
      } else {
        assert ActiveIndices(ps) == ActiveIndices(init);
      }
    }
  }
}
