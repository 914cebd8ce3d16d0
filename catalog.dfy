/**
  The shop and product records the generator reads, and the flattening of the
  product query's `edges[].node` response into plain product and variant sequences.
 */
module Catalog {

  datatype Option<T> = None | Some(value: T)

  /** One price variant; `price` is the decimal string exactly as the platform returned it. */
  datatype Variant = Variant(price: string, compareAtPrice: Option<string>)

  /** A product after flattening: its variants are a plain ordered sequence. */
  datatype Product = Product(
    id: string,
    title: string,
    description: string,
    handle: string,
    productType: string,
    vendor: string,
    tags: seq<string>,
    status: string,
    totalInventory: int,
    variants: seq<Variant>)

  datatype PrimaryDomain = PrimaryDomain(url: string)

  /**
    The raw shop object of the shop query: the generator reads `myshopifyDomain` and
    `primaryDomain.url`. A missing description is `None`.
   */
  datatype Shop = Shop(
    name: string,
    description: Option<string>,
    url: string,
    email: string,
    myshopifyDomain: string,
    currencyCode: string,
    primaryDomain: PrimaryDomain)

  // The paginated shape of the products query response.
  datatype VariantEdge = VariantEdge(node: Variant)
  datatype VariantConnection = VariantConnection(edges: seq<VariantEdge>)

  datatype ProductNode = ProductNode(
    id: string,
    title: string,
    description: string,
    handle: string,
    productType: string,
    vendor: string,
    tags: seq<string>,
    status: string,
    totalInventory: int,
    variants: VariantConnection)

  datatype ProductEdge = ProductEdge(node: ProductNode)
  datatype ProductConnection = ProductConnection(edges: seq<ProductEdge>)

  /**
    `p` is node `n` flattened: every field of the node is carried over unchanged, and
    the variants are the nodes of the variant edges, in the same order.
   */
  predicate Flattens(p: Product, n: ProductNode) {
    && p.id == n.id && p.title == n.title && p.description == n.description
    && p.handle == n.handle && p.productType == n.productType && p.vendor == n.vendor
    && p.tags == n.tags && p.status == n.status && p.totalInventory == n.totalInventory
    && |p.variants| == |n.variants.edges|
    && forall j :: 0 <= j < |p.variants| ==> p.variants[j] == n.variants.edges[j].node
  }

  /** `node.variants.edges.map(e => e.node)` */
  function FlattenVariants(c: VariantConnection): (vs: seq<Variant>)
    ensures |vs| == |c.edges|
    ensures forall j :: 0 <= j < |vs| ==> vs[j] == c.edges[j].node
  {
    seq(|c.edges|, i requires 0 <= i < |c.edges| => c.edges[i].node)
  }

  /** `{ ...node, variants: <flattened variants> }` */
  function FlattenNode(n: ProductNode): (p: Product)
    ensures Flattens(p, n)
  {
    Product(n.id, n.title, n.description, n.handle, n.productType, n.vendor, n.tags,
            n.status, n.totalInventory, FlattenVariants(n.variants))
  }

  /** `edges.map(edge => ({ ...edge.node, variants: ... }))`: one product per edge, in response order. */
  function FlattenProducts(c: ProductConnection): (ps: seq<Product>)
    ensures |ps| == |c.edges|
    ensures forall i :: 0 <= i < |ps| ==> Flattens(ps[i], c.edges[i].node)
  {
    seq(|c.edges|, i requires 0 <= i < |c.edges| => FlattenNode(c.edges[i].node))
  }

  // The inverse direction: the response shape that flattens to a given product list.

  function WrapVariants(vs: seq<Variant>): VariantConnection
  {
    VariantConnection(seq(|vs|, i requires 0 <= i < |vs| => VariantEdge(vs[i])))
  }

  function WrapProduct(p: Product): ProductNode
  {
    ProductNode(p.id, p.title, p.description, p.handle, p.productType, p.vendor, p.tags,
                p.status, p.totalInventory, WrapVariants(p.variants))
  }

  function WrapProducts(ps: seq<Product>): ProductConnection
  {
    ProductConnection(seq(|ps|, i requires 0 <= i < |ps| => ProductEdge(WrapProduct(ps[i]))))
  }

  /** Flattening loses nothing: every product list is the flattening of its wrapped form. */
  lemma {:induction false} FlattenAfterWrap(ps: seq<Product>)
    ensures FlattenProducts(WrapProducts(ps)) == ps
  {
    var r := FlattenProducts(WrapProducts(ps));
    forall i | 0 <= i < |ps|
      ensures r[i] == ps[i]
    {
      assert FlattenVariants(WrapVariants(ps[i].variants)) == ps[i].variants;
    }
  }

  /** Flattening keeps all of the response: the wrapped flattening is the response itself. */
  lemma {:induction false} WrapAfterFlatten(c: ProductConnection)
    ensures WrapProducts(FlattenProducts(c)) == c
  {
    var r := WrapProducts(FlattenProducts(c));
    forall i | 0 <= i < |c.edges|
      ensures r.edges[i] == c.edges[i]
    {
      var n := c.edges[i].node;
      assert WrapVariants(FlattenVariants(n.variants)).edges == n.variants.edges;
    }
  }
}
