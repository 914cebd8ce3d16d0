/**
  The llms.txt document. Each `+=` of the generator appends one `Line`, whose text
  is given by its template `RenderLine`. `Lines` states which lines the document
  holds, in order; `GenerateLlmsTxt` builds the text step by step, as the generator
  does, and is proved to produce `Render(Lines(...))`.
 */
module Document {
  import opened Text
  import opened Catalog
  import opened Prices
  import opened Facets
  import opened Grouping

  /** At most this many products are listed per type, and vendors in the overview. */
  const MaxShown: nat := 10
  /** Descriptions longer than this are cut. */
  const MaxDescription: nat := 100

  function Min(a: nat, b: nat): nat {
    if a < b then a else b
  }

  /** The price shown for a product: the first variant's price text, when there is a non-empty one. */
  function PriceLabel(vs: seq<Variant>): (r: string)
    ensures |r| > 0
    ensures r[0] == '$' <==> |vs| > 0 && vs[0].price != ""
    ensures r[0] == '$' ==> r[1..] == vs[0].price
    ensures r[0] != '$' ==> r == "Price varies"
  {
    if |vs| > 0 && vs[0].price != "" then "$" + vs[0].price else "Price varies"
  }

  /** Later variants never change the label: only the first one is looked at. */
  lemma PriceLabelUsesFirstVariantOnly(vs: seq<Variant>, ws: seq<Variant>)
    requires |vs| > 0 && |ws| > 0 && vs[0] == ws[0]
    ensures PriceLabel(vs) == PriceLabel(ws)
  {
  }

  /** The description shown for a product: cut at 100 characters, or a fixed text when empty. */
  function Blurb(d: string): (r: string)
    ensures |r| <= MaxDescription + 3
    ensures d == "" ==> r == "No description available"
    ensures 0 < |d| <= MaxDescription ==> r == d
    ensures |d| > MaxDescription ==> |r| == MaxDescription + 3 && r[..MaxDescription] == d[..MaxDescription] && r[MaxDescription..] == "..."
  {
    if d == "" then "No description available"
    else if |d| > MaxDescription then d[..MaxDescription] + "..."
    else d
  }

  /** The store summary: the shop's own description, or a sentence made from the counts. */
  function StoreDescription(shop: Shop, total: nat, categories: nat): (r: string)
    ensures r != ""
    ensures shop.description.Some? && shop.description.value != "" ==> r == shop.description.value
  {
    if shop.description.Some? && shop.description.value != "" then shop.description.value
    else shop.name + " is an e-commerce store offering " + NatToString(total)
         + " products across " + NatToString(categories) + " categories."
  }

  /** The fixed pages the document links to, under the shop's primary domain. */
  datatype Page = ShippingPolicy | RefundPolicy | PrivacyPolicy | TermsOfService | AllProducts | ContactPage

  function PageTitle(p: Page): string
  {
    match p
    case ShippingPolicy => "Shipping Policy"
    case RefundPolicy => "Return Policy"
    case PrivacyPolicy => "Privacy Policy"
    case TermsOfService => "Terms of Service"
    case AllProducts => "All Products"
    case ContactPage => "Contact Page"
  }

  function PagePath(p: Page): string
  {
    match p
    case ShippingPolicy => "/policies/shipping-policy"
    case RefundPolicy => "/policies/refund-policy"
    case PrivacyPolicy => "/policies/privacy-policy"
    case TermsOfService => "/policies/terms-of-service"
    case AllProducts => "/collections/all"
    case ContactPage => "/pages/contact"
  }

  function PageAbout(p: Page): string
  {
    match p
    case ShippingPolicy => "Information about shipping methods, costs, and delivery times"
    case RefundPolicy => "Details about returns, exchanges, and refunds"
    case PrivacyPolicy => "How customer data is collected and used"
    case TermsOfService => "Terms and conditions for using the store"
    case AllProducts => "Complete product catalog"
    case ContactPage => "Store contact information and inquiry form"
  }

  /** What one `+=` of the generator appends: one constructor per template. */
  datatype Line =
    | Title(name: string)
    | Summary(text: string)
    | StoreInformation
    | Domain(domain: string)
    | PrimaryUrl(url: string)
    | Currency(code: string)
    | Contact(email: string)
    | CatalogOverview
    | TotalProducts(total: nat)
    | ActiveProducts(active: nat)
    | PriceRange(low: Amount, high: Amount, currency: string)
    | Categories(types: seq<string>)
    | Vendors(shown: seq<string>, more: bool)
    | Blank
    | ProductsHeading
    | TypeHeading(typeName: string)
    | Entry(product: Product)
    | More(count: nat, typeName: string)
    | PoliciesHeading
    | OptionalHeading
    | Link(page: Page, base: string)

  /** The template of each line. Every template writes something and ends with a line break. */
  function RenderLine(l: Line): (r: string)
    ensures |r| > 0 && r[|r| - 1] == '\n'
  {
    match l
    case Title(name) => "# " + name + "\n\n"
    case Summary(text) => "> " + text + "\n\n"
    case StoreInformation => "**Store Information:**\n"
    case Domain(domain) => "- Domain: " + domain + "\n"
    case PrimaryUrl(url) => "- Primary URL: " + url + "\n"
    case Currency(code) => "- Currency: " + code + "\n"
    case Contact(email) => "- Contact: " + email + "\n\n"
    case CatalogOverview => "**Product Catalog Overview:**\n"
    case TotalProducts(total) => "- Total Products: " + NatToString(total) + "\n"
    case ActiveProducts(active) => "- Active Products: " + NatToString(active) + "\n"
    case PriceRange(low, high, currency) =>
      "- Price Range: $" + Fixed2(low) + " - $" + Fixed2(high) + " " + currency + "\n"
    case Categories(types) => "- Product Categories: " + Join(types, ", ") + "\n"
    case Vendors(shown, more) => "- Brands/Vendors: " + Join(shown, ", ") + (if more then "..." else "") + "\n"
    case Blank => "\n"
    case ProductsHeading => "## Products\n\n"
    case TypeHeading(typeName) => "### " + typeName + "\n\n"
    case Entry(p) => "- **" + p.title + "** (" + PriceLabel(p.variants) + "): " + Blurb(p.description) + "\n"
    case More(count, typeName) => "- *...and " + NatToString(count) + " more " + Lower(typeName) + " products*\n"
    case PoliciesHeading => "## Store Policies\n\n"
    case OptionalHeading => "## Optional\n\n"
    case Link(page, base) =>
      "- [" + PageTitle(page) + "](" + base + PagePath(page) + "): " + PageAbout(page) + "\n"
      + (if page == TermsOfService then "\n" else "")
  }

  /** The text of a sequence of lines: their texts, concatenated in order. */
  function Render(ls: seq<Line>): string
  {
    Concat(RenderLine, ls)
  }

  /** The texts `text(l)` of the lines `ls`, concatenated in order. */
  function Concat(text: Line -> string, ls: seq<Line>): string
  {
    if ls == [] then "" else Concat(text, ls[..|ls| - 1]) + text(ls[|ls| - 1])
  }

  // The blocks of the document. Each block function gives the lines `ls` followed by
  // the block's lines, in the order in which the generator appends them.

  /** Title, summary and store information. */
  function Header(ls: seq<Line>, shop: Shop, description: string): seq<Line>
  {
    ls + [Title(shop.name)]
       + [Summary(description)]
       + [StoreInformation]
       + [Domain(shop.myshopifyDomain)]
       + [PrimaryUrl(shop.primaryDomain.url)]
       + [Currency(shop.currencyCode)]
       + [Contact(shop.email)]
  }

  /** The catalog overview: counts, price range, and the optional category and vendor lines. */
  function Overview(ls: seq<Line>, currency: string, total: nat, active: nat, low: Amount, high: Amount,
                    types: seq<string>, vendors: seq<string>): seq<Line>
  {
    var counted := ls + [CatalogOverview]
                      + [TotalProducts(total)]
                      + [ActiveProducts(active)]
                      + [PriceRange(low, high, currency)];
    var categorized := if |types| > 0 then counted + [Categories(types)] else counted;
    var branded := if |vendors| > 0
                   then categorized + [Vendors(vendors[..Min(MaxShown, |vendors|)], |vendors| > MaxShown)]
                   else categorized;
    branded + [Blank]
  }

  /** One entry per product of `ms`, in order. */
  function Entries(ls: seq<Line>, ms: seq<Product>): seq<Line>
  {
    if ms == [] then ls else Entries(ls, ms[..|ms| - 1]) + [Entry(ms[|ms| - 1])]
  }

  /** The block of one type group: heading, the first ten entries, the trailer, a blank line. */
  function GroupBlock(ls: seq<Line>, g: Group): seq<Line>
  {
    if |g.members| > 0 then
      var listed := Entries(ls + [TypeHeading(g.typeName)], g.members[..Min(MaxShown, |g.members|)]);
      var trailed := if |g.members| > MaxShown then listed + [More(|g.members| - MaxShown, g.typeName)] else listed;
      trailed + [Blank]
    else ls
  }

  function GroupBlocks(ls: seq<Line>, gs: seq<Group>): seq<Line>
  {
    if gs == [] then ls else GroupBlock(GroupBlocks(ls, gs[..|gs| - 1]), gs[|gs| - 1])
  }

  /** The products section, present only for a non-empty catalog: one block per type group. */
  function ProductSection(ls: seq<Line>, total: nat, groups: seq<Group>): seq<Line>
  {
    if total > 0 then GroupBlocks(ls + [ProductsHeading], groups) else ls
  }

  /**
    The fixed policy and optional links, all under the primary domain `url`, as one
    list. The lemmas about which lines the closing holds are stated over this list;
    `Closing` appends the same lines one `+=` at a time, and `Layout.ClosingIsFooter`
    proves that the two agree.
   */
  function Footer(url: string): seq<Line>
  {
    [PoliciesHeading,
     Link(ShippingPolicy, url), Link(RefundPolicy, url), Link(PrivacyPolicy, url), Link(TermsOfService, url),
     OptionalHeading,
     Link(AllProducts, url), Link(ContactPage, url)]
  }

  /**
    The lines `ls` followed by the closing, appended one at a time in the order of
    `WriteLinks`, so that each `+=` of that method extends the document by one line.
   */
  function Closing(ls: seq<Line>, url: string): seq<Line>
  {
    ls + [PoliciesHeading]
       + [Link(ShippingPolicy, url)]
       + [Link(RefundPolicy, url)]
       + [Link(PrivacyPolicy, url)]
       + [Link(TermsOfService, url)]
       + [OptionalHeading]
       + [Link(AllProducts, url)]
       + [Link(ContactPage, url)]
  }

  /** The values the generator derives from the catalog before it writes anything. */
  datatype CatalogFacts = CatalogFacts(description: string, total: nat, active: nat, low: Amount, high: Amount,
                                       types: seq<string>, vendors: seq<string>, groups: seq<Group>)

  function Facts(shop: Shop, ps: seq<Product>): CatalogFacts
  {
    var types := ProductTypes(ps);
    var range := PriceBounds(AllPrices(ps));
    CatalogFacts(StoreDescription(shop, |ps|, |types|), |ps|, ActiveCount(ps), range.0, range.1,
                 types, VendorNames(ps), GroupsOf(ps))
  }

  /** Header, store information and catalog overview. */
  function Preamble(shop: Shop, f: CatalogFacts): seq<Line>
  {
    Overview(Header([], shop, f.description), shop.currencyCode, f.total, f.active, f.low, f.high, f.types, f.vendors)
  }

  /** The lines of the document for the derived values `f`, in order. */
  function Layout(shop: Shop, f: CatalogFacts): seq<Line>
  {
    Closing(ProductSection(Preamble(shop, f), f.total, f.groups), shop.primaryDomain.url)
  }

  /** The lines of the whole document, in order. */
  function Lines(shop: Shop, ps: seq<Product>): seq<Line>
  {
    Layout(shop, Facts(shop, ps))
  }

  // The generator. The ghost `written` records the lines whose renderings make up `llmsTxt`.

  /** `llmsTxt += <line>` */
  method Add(doc: string, ghost done: seq<Line>, l: Line) returns (llmsTxt: string, ghost written: seq<Line>)
    requires doc == Render(done)
    ensures written == done + [l] && llmsTxt == Render(written)
  {
    llmsTxt := doc + RenderLine(l);
    written := done + [l];
    assert written[..|done|] == done;
  }

  /** The title, summary and store information block: the start of the document. */
  method WriteHeader(shop: Shop, description: string) returns (llmsTxt: string, ghost written: seq<Line>)
    ensures written == Header([], shop, description) && llmsTxt == Render(written)
  {
    llmsTxt, written := Add("", [], Title(shop.name));
    llmsTxt, written := Add(llmsTxt, written, Summary(description));

    llmsTxt, written := Add(llmsTxt, written, StoreInformation);
    llmsTxt, written := Add(llmsTxt, written, Domain(shop.myshopifyDomain));
    llmsTxt, written := Add(llmsTxt, written, PrimaryUrl(shop.primaryDomain.url));
    llmsTxt, written := Add(llmsTxt, written, Currency(shop.currencyCode));
    llmsTxt, written := Add(llmsTxt, written, Contact(shop.email));
  }

  /** The catalog overview block. */
  method WriteOverview(doc: string, ghost done: seq<Line>, currencyCode: string,
                       totalProducts: nat, activeProducts: nat, minPrice: Amount, maxPrice: Amount,
                       productTypes: seq<string>, vendors: seq<string>)
    returns (llmsTxt: string, ghost written: seq<Line>)
    requires doc == Render(done)
    ensures written == Overview(done, currencyCode, totalProducts, activeProducts,
                                minPrice, maxPrice, productTypes, vendors)
    ensures llmsTxt == Render(written)
  {
    llmsTxt, written := Add(doc, done, CatalogOverview);
    llmsTxt, written := Add(llmsTxt, written, TotalProducts(totalProducts));
    llmsTxt, written := Add(llmsTxt, written, ActiveProducts(activeProducts));
    llmsTxt, written := Add(llmsTxt, written, PriceRange(minPrice, maxPrice, currencyCode));
    if |productTypes| > 0 {
      llmsTxt, written := Add(llmsTxt, written, Categories(productTypes));
    }
    if |vendors| > 0 {
      llmsTxt, written := Add(llmsTxt, written, Vendors(vendors[..Min(MaxShown, |vendors|)], |vendors| > MaxShown));
    }
    llmsTxt, written := Add(llmsTxt, written, Blank);
  }

  /** The product lines of one group (the inner `forEach`). */
  method WriteEntries(doc: string, ghost done: seq<Line>, shown: seq<Product>)
    returns (llmsTxt: string, ghost written: seq<Line>)
    requires doc == Render(done)
    ensures written == Entries(done, shown) && llmsTxt == Render(written)
  {
    llmsTxt, written := doc, done;
    for k := 0 to |shown|
      invariant written == Entries(done, shown[..k]) && llmsTxt == Render(written)
    {
      llmsTxt, written := Add(llmsTxt, written, Entry(shown[k]));
      assert shown[..k + 1][..k] == shown[..k];
    }
    assert shown[..|shown|] == shown;
  }

  /** The block of one type (the `forEach` callback over the groups). */
  method WriteGroup(doc: string, ghost done: seq<Line>, typeName: string, typeProducts: seq<Product>)
    returns (llmsTxt: string, ghost written: seq<Line>)
    requires doc == Render(done)
    ensures written == GroupBlock(done, Group(typeName, typeProducts)) && llmsTxt == Render(written)
  {
    llmsTxt, written := doc, done;
    if |typeProducts| > 0 {
      llmsTxt, written := Add(llmsTxt, written, TypeHeading(typeName));
      llmsTxt, written := WriteEntries(llmsTxt, written, typeProducts[..Min(MaxShown, |typeProducts|)]);
      if |typeProducts| > MaxShown {
        llmsTxt, written := Add(llmsTxt, written, More(|typeProducts| - MaxShown, typeName));
      }
      llmsTxt, written := Add(llmsTxt, written, Blank);
    }
  }

  /** The `forEach` over the groups: one block per group, in order. */
  method WriteGroups(doc: string, ghost done: seq<Line>, productsByType: seq<Group>)
    returns (llmsTxt: string, ghost written: seq<Line>)
    requires doc == Render(done)
    ensures written == GroupBlocks(done, productsByType) && llmsTxt == Render(written)
  {
    llmsTxt, written := doc, done;
    for g := 0 to |productsByType|
      invariant written == GroupBlocks(done, productsByType[..g]) && llmsTxt == Render(written)
    {
      var group := productsByType[g];
      llmsTxt, written := WriteGroup(llmsTxt, written, group.typeName, group.members);
      assert productsByType[..g + 1][..g] == productsByType[..g];
    }
    assert productsByType[..|productsByType|] == productsByType;
  }

  /** The products section: present for a non-empty catalog, one block per type group. */
  method WriteProducts(doc: string, ghost done: seq<Line>, products: seq<Product>)
    returns (llmsTxt: string, ghost written: seq<Line>)
    requires doc == Render(done)
    ensures written == ProductSection(done, |products|, GroupsOf(products)) && llmsTxt == Render(written)
  {
    llmsTxt, written := doc, done;
    if |products| > 0 {
      llmsTxt, written := Add(llmsTxt, written, ProductsHeading);
      var productsByType := GroupByType(products);
      llmsTxt, written := WriteGroups(llmsTxt, written, productsByType);
    }
  }

  /** The policy and optional link blocks, the end of the document. */
  method WriteLinks(doc: string, ghost done: seq<Line>, url: string) returns (llmsTxt: string, ghost written: seq<Line>)
    requires doc == Render(done)
    ensures written == Closing(done, url) && llmsTxt == Render(written)
  {
    llmsTxt, written := Add(doc, done, PoliciesHeading);
    llmsTxt, written := Add(llmsTxt, written, Link(ShippingPolicy, url));
    llmsTxt, written := Add(llmsTxt, written, Link(RefundPolicy, url));
    llmsTxt, written := Add(llmsTxt, written, Link(PrivacyPolicy, url));
    llmsTxt, written := Add(llmsTxt, written, Link(TermsOfService, url));

    llmsTxt, written := Add(llmsTxt, written, OptionalHeading);
    llmsTxt, written := Add(llmsTxt, written, Link(AllProducts, url));
    llmsTxt, written := Add(llmsTxt, written, Link(ContactPage, url));
  }

  /** `generateLlmsTxt(shop, products)`: derive the facets, then append the blocks in order. */
  method GenerateLlmsTxt(shop: Shop, products: seq<Product>) returns (llmsTxt: string)
    ensures llmsTxt == Render(Lines(shop, products))
  {
    var productTypes := ProductTypes(products);
    var vendors := VendorNames(products);
    var totalProducts := |products|;
    var activeProducts := ActiveCount(products);

    var prices := AllPrices(products);
    var minPrice := if |prices| > 0 then Least(prices) else Num(0.0);
    var maxPrice := if |prices| > 0 then Greatest(prices) else Num(0.0);
    assert (minPrice, maxPrice) == PriceBounds(prices);

    var description := StoreDescription(shop, totalProducts, |productTypes|);

    ghost var written;
    llmsTxt, written := WriteHeader(shop, description);
    llmsTxt, written := WriteOverview(llmsTxt, written, shop.currencyCode, totalProducts, activeProducts,
                                      minPrice, maxPrice, productTypes, vendors);
    assert written == Preamble(shop, Facts(shop, products));
    llmsTxt, written := WriteProducts(llmsTxt, written, products);
    llmsTxt, written := WriteLinks(llmsTxt, written, shop.primaryDomain.url);
  }
}
