/**
  What the generated llms.txt says about the catalog: the lines of the document
  for a shop and its products, related to the products themselves.
 */
module LlmsTxt {
  import opened Text
  import opened Catalog
  import opened Prices
  import opened Facets
  import opened Grouping
  import opened Document
  import opened Layout

  /**
    The overview reports the catalog: the summary (the shop's own description, or
    the sentence built from the product and category counts), the number of
    products, the number of products whose status is exactly "ACTIVE", and the
    bounds of all variant prices.
   */
  lemma ReportsCatalog(shop: Shop, ps: seq<Product>)
    ensures Summary(StoreDescription(shop, |ps|, |ProductTypes(ps)|)) in Lines(shop, ps)
    ensures TotalProducts(|ps|) in Lines(shop, ps)
    ensures ActiveProducts(ActiveCount(ps)) in Lines(shop, ps)
    ensures PriceRange(PriceBounds(AllPrices(ps)).0, PriceBounds(AllPrices(ps)).1, shop.currencyCode) in Lines(shop, ps)
  {
    LayoutReportsFacts(shop, Facts(shop, ps));
  }

  /** No summary, count or price-range line says anything but the catalog's own figures. */
  lemma ReportsOnlyCatalog(shop: Shop, ps: seq<Product>)
    ensures forall l :: l in Lines(shop, ps) ==>
              && (l.Summary? ==> l.text == StoreDescription(shop, |ps|, |ProductTypes(ps)|))
              && (l.TotalProducts? ==> l.total == |ps|)
              && (l.ActiveProducts? ==> l.active == ActiveCount(ps))
              && (l.PriceRange? ==> (l.low, l.high) == PriceBounds(AllPrices(ps)))
  {
    LayoutReportsOnlyFacts(shop, Facts(shop, ps));
  }

  /**
    The category line is there exactly when some product has a non-empty type,
    and it lists the distinct non-empty types.
   */
  lemma CategoryLine(shop: Shop, ps: seq<Product>)
    ensures (exists l :: l in Lines(shop, ps) && l.Categories?) <==> exists p :: p in ps && p.productType != ""
    ensures forall l :: l in Lines(shop, ps) && l.Categories? ==> l.types == ProductTypes(ps)
  {
    var f := Facts(shop, ps);
    LayoutCategoryLine(shop, f);
    FacetsComplete(ps);
    if p :| p in ps && p.productType != "" {
      var i :| 0 <= i < |ps| && ps[i] == p;
      assert p.productType in f.types;
    }
    if |f.types| > 0 {
      assert f.types[0] in f.types;
      var i :| 0 <= i < |ps| && ps[i].productType == f.types[0];
      assert ps[i] in ps;
    }
  }

  /**
    The vendor line is there exactly when some product has a non-empty vendor; it
    shows the first ten distinct vendors and says whether there are more.
   */
  lemma VendorLine(shop: Shop, ps: seq<Product>)
    ensures (exists l :: l in Lines(shop, ps) && l.Vendors?) <==> exists p :: p in ps && p.vendor != ""
    ensures forall l :: l in Lines(shop, ps) && l.Vendors? ==>
              && l.shown == VendorNames(ps)[..Min(MaxShown, |VendorNames(ps)|)]
              && (l.more <==> |VendorNames(ps)| > MaxShown)
  {
    var f := Facts(shop, ps);
    LayoutVendorLine(shop, f);
    FacetsComplete(ps);
    if p :| p in ps && p.vendor != "" {
      var i :| 0 <= i < |ps| && ps[i] == p;
      assert p.vendor in f.vendors;
    }
    if |f.vendors| > 0 {
      assert f.vendors[0] in f.vendors;
      var i :| 0 <= i < |ps| && ps[i].vendor == f.vendors[0];
      assert ps[i] in ps;
    }
  }

  /** The products section is there exactly when the catalog is not empty. */
  lemma ProductsSectionIffProducts(shop: Shop, ps: seq<Product>)
    ensures ProductsHeading in Lines(shop, ps) <==> |ps| > 0
  {
    LayoutProductsHeading(shop, Facts(shop, ps));
  }

  /** Every link points under the shop's primary domain, and every fixed page is linked. */
  lemma LinksUnderPrimaryDomain(shop: Shop, ps: seq<Product>)
    ensures forall l :: l in Lines(shop, ps) && l.Link? ==> l.base == shop.primaryDomain.url
    ensures forall page: Page :: Link(page, shop.primaryDomain.url) in Lines(shop, ps)
  {
    LayoutLinks(shop, Facts(shop, ps));
  }

  /** There is a heading for a type exactly when some product carries that label ("Other" for no type). */
  lemma TypeHeadingIffLabel(shop: Shop, ps: seq<Product>)
    ensures forall k :: TypeHeading(k) in Lines(shop, ps) <==> exists p :: p in ps && TypeLabel(p) == k
  {
    var f := Facts(shop, ps);
    LayoutTypeHeadings(shop, f);
    var gs := f.groups;
    forall k
      ensures TypeHeading(k) in Lines(shop, ps) <==> exists p :: p in ps && TypeLabel(p) == k
    {
      if TypeHeading(k) in Lines(shop, ps) {
        var j :| 0 <= j < |gs| && |gs[j].members| > 0 && gs[j].typeName == k;
        assert gs[j].members == Members(ps, k);
        MembersExact(ps, k);
        assert gs[j].members[0] in gs[j].members;
      }
      if exists p :: p in ps && TypeLabel(p) == k {
        var j := GroupOfLabel(ps, k);
        MembersExact(ps, k);
        var p :| p in ps && TypeLabel(p) == k;
        assert p in gs[j].members;
      }
    }
  }

  /**
    The type blocks appear in the order in which their labels first appear among
    the products: the headings of the document, read in order, are the distinct
    labels in order of first appearance.
   */
  lemma HeadingsInFirstAppearanceOrder(shop: Shop, ps: seq<Product>)
    ensures Headings(Lines(shop, ps)) == GroupLabels(ps)
    ensures forall i, j :: 0 <= i < j < |Headings(Lines(shop, ps))| ==>
              FirstIndex(LabelsOf(ps), Headings(Lines(shop, ps))[i]) < FirstIndex(LabelsOf(ps), Headings(Lines(shop, ps))[j])
  {
    GroupingPartitions(ps);
    GroupsInFirstAppearanceOrder(ps);
    LayoutHeadings(shop, Facts(shop, ps));
    if ps == [] {
      assert LabelsOf(ps) == [];
    }
  }

  /** The products of a type, in input order, and the ones of them the document lists. */
  function Shown(ps: seq<Product>, k: string): (r: seq<Product>)
    ensures |r| == Min(MaxShown, |Members(ps, k)|) && r <= Members(ps, k)
  {
    Members(ps, k)[..Min(MaxShown, |Members(ps, k)|)]
  }

  /** The group of label `k`, when some product carries it, is the run of products with that label. */
  lemma GroupOfLabel(ps: seq<Product>, k: string) returns (j: nat)
    requires exists p :: p in ps && TypeLabel(p) == k
    ensures j < |GroupsOf(ps)| && GroupsOf(ps)[j] == Group(k, Members(ps, k)) && |Members(ps, k)| > 0
  {
    GroupingPartitions(ps);
    var p :| p in ps && TypeLabel(p) == k;
    j :| 0 <= j < |GroupsOf(ps)| && GroupsOf(ps)[j].typeName == k;
  }

  /** A member of a group carries the group's label, and the group is the run of products with that label. */
  lemma GroupOfMember(ps: seq<Product>, j: nat, i: nat)
    requires j < |GroupsOf(ps)| && i < |GroupsOf(ps)[j].members|
    ensures GroupsOf(ps)[j] == Group(TypeLabel(GroupsOf(ps)[j].members[i]), Members(ps, TypeLabel(GroupsOf(ps)[j].members[i])))
  {
    var g := GroupsOf(ps)[j];
    assert g.members == Members(ps, g.typeName);
    MembersExact(ps, g.typeName);
    assert g.members[i] in g.members;
  }

  /** A product is listed exactly when it is one of the first ten products of its own type. */
  lemma ListedIffAmongFirstTen(shop: Shop, ps: seq<Product>)
    ensures forall p :: Entry(p) in Lines(shop, ps) <==> p in Shown(ps, TypeLabel(p))
  {
    forall p
      ensures Entry(p) in Lines(shop, ps) <==> p in Shown(ps, TypeLabel(p))
    {
      if Entry(p) in Lines(shop, ps) {
        ListedIsShown(shop, ps, p);
      }
      if p in Shown(ps, TypeLabel(p)) {
        ShownIsListed(shop, ps, p);
      }
    }
  }

  lemma ListedIsShown(shop: Shop, ps: seq<Product>, p: Product)
    requires Entry(p) in Lines(shop, ps)
    ensures p in Shown(ps, TypeLabel(p))
  {
    var f := Facts(shop, ps);
    LayoutEntries(shop, f);
    var gs := f.groups;
    var j, i :| 0 <= j < |gs| && 0 <= i < Min(MaxShown, |gs[j].members|) && gs[j].members[i] == p;
    GroupOfMember(ps, j, i);
    assert Shown(ps, TypeLabel(p))[i] == p;
  }

  lemma ShownIsListed(shop: Shop, ps: seq<Product>, p: Product)
    requires p in Shown(ps, TypeLabel(p))
    ensures Entry(p) in Lines(shop, ps)
  {
    var f := Facts(shop, ps);
    LayoutEntries(shop, f);
    var gs := f.groups;
    var k := TypeLabel(p);
    MembersExact(ps, k);
    var i :| 0 <= i < |Shown(ps, k)| && Shown(ps, k)[i] == p;
    var j := GroupOfLabel(ps, k);
    assert gs[j].members[i] == p;
  }

  /**
    The block of a type in the document: its `###` heading, immediately followed by
    the entries of the listed products of that type in input order, then the
    "...and N more" trailer when more than ten products carry the label, or else the
    blank line that ends the block.
   */
  lemma ShownInOrder(shop: Shop, ps: seq<Product>, k: string) returns (h: nat)
    requires exists p :: p in ps && TypeLabel(p) == k
    ensures var ls, shown, all := Lines(shop, ps), Shown(ps, k), Members(ps, k);
            && h + 1 + |shown| < |ls|
            && ls[h] == TypeHeading(k)
            && (forall i :: 0 <= i < |shown| ==> ls[h + 1 + i] == Entry(shown[i]))
            && ls[h + 1 + |shown|] == if |all| > MaxShown then More(|all| - MaxShown, k) else Blank
  {
    var f := Facts(shop, ps);
    var j := GroupOfLabel(ps, k);
    h := LayoutBlockAt(shop, f, j);
    ShownBlock(Lines(shop, ps), h, f.groups[j], ps, k);
  }

  /** The block of the group of label `k`, read as the listed products of that label. */
  lemma ShownBlock(ls: seq<Line>, h: nat, g: Group, ps: seq<Product>, k: string)
    requires g == Group(k, Members(ps, k))
    requires BlockAtPos(ls, h, g)
    ensures var shown, all := Shown(ps, k), Members(ps, k);
            && h + 1 + |shown| < |ls|
            && ls[h] == TypeHeading(k)
            && (forall i :: 0 <= i < |shown| ==> ls[h + 1 + i] == Entry(shown[i]))
            && ls[h + 1 + |shown|] == if |all| > MaxShown then More(|all| - MaxShown, k) else Blank
  {
    var shown := Shown(ps, k);
    assert |shown| == Min(MaxShown, |g.members|);
    forall i | 0 <= i < |shown|
      ensures ls[h + 1 + i] == Entry(shown[i])
    {
      assert shown[i] == g.members[i];
    }
  }

  /**
    The "...and N more" trailer of a type is there exactly when more than ten
    products carry its label, N being the number not listed.
   */
  lemma TrailerIffLargeType(shop: Shop, ps: seq<Product>)
    ensures forall n, k :: More(n, k) in Lines(shop, ps) <==>
              |Members(ps, k)| > MaxShown && n == |Members(ps, k)| - MaxShown
  {
    var f := Facts(shop, ps);
    LayoutTrailers(shop, f);
    var gs := f.groups;
    forall n, k
      ensures More(n, k) in Lines(shop, ps) <==> |Members(ps, k)| > MaxShown && n == |Members(ps, k)| - MaxShown
    {
      if More(n, k) in Lines(shop, ps) {
        var j :| 0 <= j < |gs| && gs[j].typeName == k && |gs[j].members| > MaxShown && n == |gs[j].members| - MaxShown;
        assert gs[j] == Group(k, Members(ps, k));
      }
      if |Members(ps, k)| > MaxShown {
        MembersExact(ps, k);
        assert Members(ps, k)[0] in Members(ps, k);
        var j := GroupOfLabel(ps, k);
      }
    }
  }

  // The text itself.

  /** The text begins with the shop's name as a level-one heading. */
  lemma TextStartsWithTitle(shop: Shop, ps: seq<Product>)
    ensures "# " + shop.name + "\n\n" <= Render(Lines(shop, ps))
  {
    var ls := Lines(shop, ps);
    LayoutStartsWithTitle(shop, Facts(shop, ps));
    RenderFirstLast(ls);
  }

  /** The text ends with the link to the contact page under the primary domain. */
  lemma TextEndsWithContactLink(shop: Shop, ps: seq<Product>)
    ensures var t := Render(Lines(shop, ps));
            var c := RenderLine(Link(ContactPage, shop.primaryDomain.url));
            |c| <= |t| && t[|t| - |c|..] == c
  {
    var ls := Lines(shop, ps);
    LayoutEndsWithContactLink(shop, Facts(shop, ps));
    RenderFirstLast(ls);
  }

  /** The digits after a prefix read back as the number that was printed. */
  lemma NumberReadsBack(prefix: string, n: nat, rest: string)
    requires rest == [] || !IsDigit(rest[0])
    ensures var t := prefix + NatToString(n) + rest;
            t[..|prefix|] == prefix && DigitsValue(LeadingDigits(t[|prefix|..])) == n
  {
    var t := prefix + NatToString(n) + rest;
    assert t[|prefix|..] == NatToString(n) + rest;
    LeadingDigitsOfDigits(NatToString(n), rest);
    NatToStringRoundTrip(n);
  }

  /**
    The summary is the shop's own description when it has a non-empty one;
    otherwise the sentence carries the product count and then the category count,
    each reading back exactly.
   */
  lemma SummaryReadsBack(shop: Shop, total: nat, categories: nat)
    ensures var t := StoreDescription(shop, total, categories);
            if shop.description.Some? && shop.description.value != "" then t == shop.description.value
            else
              var h := shop.name + " is an e-commerce store offering ";
              var h' := h + NatToString(total) + " products across ";
              && t[..|h|] == h && DigitsValue(LeadingDigits(t[|h|..])) == total
              && t[..|h'|] == h' && DigitsValue(LeadingDigits(t[|h'|..])) == categories
  {
    if !(shop.description.Some? && shop.description.value != "") {
      var h := shop.name + " is an e-commerce store offering ";
      var mid, tail := " products across ", " categories.";
      var h' := h + NatToString(total) + mid;
      var t := StoreDescription(shop, total, categories);
      assert t == h + NatToString(total) + (mid + NatToString(categories) + tail);
      NumberReadsBack(h, total, mid + NatToString(categories) + tail);
      assert t == h' + NatToString(categories) + tail;
      NumberReadsBack(h', categories, tail);
    }
  }

  /** The total line prints the number so that it reads back exactly. */
  lemma TotalReadsBack(n: nat)
    ensures var t, h := RenderLine(TotalProducts(n)), "- Total Products: ";
            t[..|h|] == h && DigitsValue(LeadingDigits(t[|h|..])) == n
  {
    var h := "- Total Products: ";
    assert RenderLine(TotalProducts(n)) == h + NatToString(n) + "\n";
    NumberReadsBack(h, n, "\n");
  }

  /** The active line prints the number so that it reads back exactly. */
  lemma ActiveReadsBack(n: nat)
    ensures var t, h := RenderLine(ActiveProducts(n)), "- Active Products: ";
            t[..|h|] == h && DigitsValue(LeadingDigits(t[|h|..])) == n
  {
    var h := "- Active Products: ";
    assert RenderLine(ActiveProducts(n)) == h + NatToString(n) + "\n";
    NumberReadsBack(h, n, "\n");
  }

  /** The trailer prints the number of unlisted products so that it reads back exactly. */
  lemma TrailerReadsBack(n: nat, k: string)
    ensures var t, h := RenderLine(More(n, k)), "- *...and ";
            t[..|h|] == h && DigitsValue(LeadingDigits(t[|h|..])) == n
  {
    var h, tail := "- *...and ", " more " + Lower(k) + " products*\n";
    assert RenderLine(More(n, k)) == h + NatToString(n) + tail;
    NumberReadsBack(h, n, tail);
  }
}
