/**
  What the document holds, stated over its lines: the catalog totals, the optional
  category and vendor lines, the products section and its per-type blocks, and the
  links under the primary domain.
 */
module Layout {
  import opened Catalog
  import opened Prices
  import opened Facets
  import opened Grouping
  import opened Document

  /** Concatenation is a homomorphism: the text of two runs of lines is the concatenation of their texts. */
  lemma {:induction false} ConcatAppend(text: Line -> string, a: seq<Line>, b: seq<Line>)
    ensures Concat(text, a + b) == Concat(text, a) + Concat(text, b)
    decreases |b|
  {
    if b != [] {
      var b', last := b[..|b| - 1], b[|b| - 1];
      assert (a + b)[..|a + b| - 1] == a + b';
      ConcatAppend(text, a, b');
    } else {
      assert a + b == a;
    }
  }

  /** The text of a non-empty run of lines starts with the text of its first line. */
  lemma ConcatFirst(text: Line -> string, ls: seq<Line>)
    requires ls != []
    ensures text(ls[0]) <= Concat(text, ls)
  {
    assert ls == [ls[0]] + ls[1..];
    ConcatAppend(text, [ls[0]], ls[1..]);
    assert [ls[0]][..0] == [];
  }

  /** The text of a non-empty run of lines ends with the text of its last line. */
  lemma ConcatLast(text: Line -> string, ls: seq<Line>)
    requires ls != []
    ensures var t, c := Concat(text, ls), text(ls[|ls| - 1]); |c| <= |t| && t[|t| - |c|..] == c
  {
  }

  lemma RenderFirstLast(ls: seq<Line>)
    requires ls != []
    ensures RenderLine(ls[0]) <= Render(ls)
    ensures var t, c := Render(ls), RenderLine(ls[|ls| - 1]); |c| <= |t| && t[|t| - |c|..] == c
  {
    ConcatFirst(RenderLine, ls);
    ConcatLast(RenderLine, ls);
  }

  /** A line of the block of group `g` (which is written only when `g` has members). */
  predicate BlockLine(l: Line, g: Group)
  {
    || l == TypeHeading(g.typeName)
    || (exists i :: 0 <= i < Min(MaxShown, |g.members|) && l == Entry(g.members[i]))
    || (|g.members| > MaxShown && l == More(|g.members| - MaxShown, g.typeName))
    || l == Blank
  }

  /** The entries follow `ls` in product order, one per product. */
  lemma {:induction false} EntriesShape(ls: seq<Line>, ms: seq<Product>)
    ensures |Entries(ls, ms)| == |ls| + |ms|
    ensures Entries(ls, ms)[..|ls|] == ls
    ensures forall i :: 0 <= i < |ms| ==> Entries(ls, ms)[|ls| + i] == Entry(ms[i])
  {
    if ms != [] {
      var init := ms[..|ms| - 1];
      EntriesShape(ls, init);
      assert forall i :: 0 <= i < |init| ==> ms[i] == init[i];
    }
  }

  /**
    A non-empty group is written as its `###` heading, the entries of its first ten
    members in order, the "...and N more" trailer exactly when it has more than ten
    members (N being the rest), and a blank line; an empty group writes nothing.
   */
  lemma GroupBlockShape(ls: seq<Line>, g: Group)
    ensures |g.members| == 0 ==> GroupBlock(ls, g) == ls
    ensures |g.members| > 0 ==>
              var r, n := GroupBlock(ls, g), Min(MaxShown, |g.members|);
              && |r| == |ls| + n + 2 + (if |g.members| > MaxShown then 1 else 0)
              && r[..|ls|] == ls
              && r[|ls|] == TypeHeading(g.typeName)
              && (forall i :: 0 <= i < n ==> r[|ls| + 1 + i] == Entry(g.members[i]))
              && (forall i :: |ls| <= i < |r| ==> (r[i].More? <==> |g.members| > MaxShown && i == |ls| + 1 + n))
              && (|g.members| > MaxShown ==> r[|ls| + 1 + n] == More(|g.members| - MaxShown, g.typeName))
              && r[|r| - 1] == Blank
  {
    if |g.members| > 0 {
      var n := Min(MaxShown, |g.members|);
      var shown := g.members[..n];
      var head := ls + [TypeHeading(g.typeName)];
      EntriesShape(head, shown);
      var listed := Entries(head, shown);
      var trailed := if |g.members| > MaxShown then listed + [More(|g.members| - MaxShown, g.typeName)] else listed;
      var r := trailed + [Blank];
      assert r == GroupBlock(ls, g);
      assert |listed| == |ls| + 1 + n;
      assert listed[..|ls|] == ls by {
        assert listed[..|head|][..|ls|] == ls;
      }
      assert r[..|listed|] == listed;
      assert r[|ls|] == TypeHeading(g.typeName) by {
        assert listed[|ls|] == head[|ls|];
      }
      forall i | 0 <= i < n
        ensures r[|ls| + 1 + i] == Entry(g.members[i])
      {
        assert listed[|head| + i] == Entry(shown[i]);
      }
      forall i | |ls| <= i < |r|
        ensures r[i].More? <==> |g.members| > MaxShown && i == |ls| + 1 + n
      {
        if i == |ls| {
        } else if i < |listed| {
          assert r[i] == listed[|head| + (i - |head|)] == Entry(shown[i - |head|]);
        } else if i < |trailed| {
          assert i == |ls| + 1 + n;
        }
      }
    }
  }

  /** The lines of `Entries(ls, ms)` are those of `ls` and the entries of `ms`. */
  lemma {:induction false} EntriesMembership(ls: seq<Line>, ms: seq<Product>)
    ensures forall l :: l in Entries(ls, ms) <==> l in ls || exists i :: 0 <= i < |ms| && l == Entry(ms[i])
  {
    if ms != [] {
      var init := ms[..|ms| - 1];
      EntriesMembership(ls, init);
      assert forall i :: 0 <= i < |init| ==> ms[i] == init[i];
    }
  }

  lemma GroupBlockMembership(ls: seq<Line>, g: Group)
    ensures forall l :: l in GroupBlock(ls, g) <==> l in ls || (|g.members| > 0 && BlockLine(l, g))
  {
    if |g.members| > 0 {
      var n := Min(MaxShown, |g.members|);
      EntriesMembership(ls + [TypeHeading(g.typeName)], g.members[..n]);
    }
  }

  /** The products section adds exactly the lines of the blocks of its non-empty groups. */
  lemma {:induction false} GroupBlocksMembership(ls: seq<Line>, gs: seq<Group>)
    ensures forall l :: l in GroupBlocks(ls, gs) <==>
              l in ls || exists j :: 0 <= j < |gs| && |gs[j].members| > 0 && BlockLine(l, gs[j])
  {
    if gs != [] {
      var init := gs[..|gs| - 1];
      GroupBlocksMembership(ls, init);
      GroupBlockMembership(GroupBlocks(ls, init), gs[|gs| - 1]);
      assert forall j :: 0 <= j < |init| ==> gs[j] == init[j];
    }
  }

  /** The header block adds the title, the summary and the store information lines. */
  lemma HeaderMembership(ls: seq<Line>, shop: Shop, description: string)
    ensures forall l :: l in Header(ls, shop, description) <==>
              || l in ls || l == Title(shop.name) || l == Summary(description) || l == StoreInformation
              || l == Domain(shop.myshopifyDomain) || l == PrimaryUrl(shop.primaryDomain.url)
              || l == Currency(shop.currencyCode) || l == Contact(shop.email)
  {
  }

  /** The overview adds the counts and the price range, and the category and vendor lines only when there are any. */
  lemma OverviewMembership(ls: seq<Line>, currency: string, total: nat, active: nat, low: Amount, high: Amount,
                           types: seq<string>, vendors: seq<string>)
    ensures forall l :: l in Overview(ls, currency, total, active, low, high, types, vendors) <==>
              || l in ls || l == CatalogOverview || l == TotalProducts(total) || l == ActiveProducts(active)
              || l == PriceRange(low, high, currency)
              || (|types| > 0 && l == Categories(types))
              || (|vendors| > 0 && l == Vendors(vendors[..Min(MaxShown, |vendors|)], |vendors| > MaxShown))
              || l == Blank
  {
  }

  /** The lines of the header and the catalog overview, for the derived values `f`. */
  predicate InPreamble(l: Line, shop: Shop, f: CatalogFacts)
  {
    || l == Title(shop.name) || l == Summary(f.description) || l == StoreInformation
    || l == Domain(shop.myshopifyDomain) || l == PrimaryUrl(shop.primaryDomain.url)
    || l == Currency(shop.currencyCode) || l == Contact(shop.email)
    || l == CatalogOverview || l == TotalProducts(f.total) || l == ActiveProducts(f.active)
    || l == PriceRange(f.low, f.high, shop.currencyCode)
    || (|f.types| > 0 && l == Categories(f.types))
    || (|f.vendors| > 0 && l == Vendors(f.vendors[..Min(MaxShown, |f.vendors|)], |f.vendors| > MaxShown))
    || l == Blank
  }

  /** The lines of the whole document, block by block, for the derived values `f`. */
  predicate InLayout(l: Line, shop: Shop, f: CatalogFacts)
  {
    || InPreamble(l, shop, f)
    || (f.total > 0 && l == ProductsHeading)
    || (f.total > 0 && exists j :: 0 <= j < |f.groups| && |f.groups[j].members| > 0 && BlockLine(l, f.groups[j]))
    || l == PoliciesHeading || l == OptionalHeading || (l.Link? && l.base == shop.primaryDomain.url)
  }

  lemma PreambleMembership(shop: Shop, f: CatalogFacts)
    ensures forall l :: l in Preamble(shop, f) <==> InPreamble(l, shop, f)
  {
    HeaderMembership([], shop, f.description);
    OverviewMembership(Header([], shop, f.description), shop.currencyCode, f.total, f.active, f.low, f.high,
                       f.types, f.vendors);
  }

  /** The closing block appends the footer lines. */
  lemma ClosingIsFooter(ls: seq<Line>, url: string)
    ensures Closing(ls, url) == ls + Footer(url)
  {
    var c, e := Closing(ls, url), ls + Footer(url);
    assert |c| == |e|;
    forall i | 0 <= i < |c|
      ensures c[i] == e[i]
    {
    }
  }

  /** A line of the closing block follows the lines before it or is one of the closing lines. */
  lemma ClosingMembership(ls: seq<Line>, url: string)
    ensures forall l :: l in Closing(ls, url) <==> l in ls || l in Footer(url)
  {
    ClosingIsFooter(ls, url);
  }

  /** The closing lines are the two headings and a link to each fixed page under `url`. */
  lemma ClosingLines(url: string)
    ensures forall l :: l in Footer(url) <==> l == PoliciesHeading || l == OptionalHeading || (l.Link? && l.base == url)
  {
    var footer := Footer(url);
    forall l: Line | l.Link? && l.base == url
      ensures l in footer
    {
      match l.page
      case ShippingPolicy => assert footer[1] == l;
      case RefundPolicy => assert footer[2] == l;
      case PrivacyPolicy => assert footer[3] == l;
      case TermsOfService => assert footer[4] == l;
      case AllProducts => assert footer[6] == l;
      case ContactPage => assert footer[7] == l;
    }
  }

  /** Membership in the document laid out from the derived values `f`. */
  lemma LayoutMembership(shop: Shop, f: CatalogFacts)
    ensures forall l :: l in Layout(shop, f) <==> InLayout(l, shop, f)
  {
    var pre := Preamble(shop, f);
    var mid := ProductSection(pre, f.total, f.groups);
    PreambleMembership(shop, f);
    ClosingMembership(mid, shop.primaryDomain.url);
    ClosingLines(shop.primaryDomain.url);
    if f.total > 0 {
      GroupBlocksMembership(pre + [ProductsHeading], f.groups);
    }
  }

  /** The group blocks follow the lines before them. */
  lemma {:induction false} GroupBlocksExtends(ls: seq<Line>, gs: seq<Group>)
    ensures |ls| <= |GroupBlocks(ls, gs)| && GroupBlocks(ls, gs)[..|ls|] == ls
  {
    if gs != [] {
      var init, last := gs[..|gs| - 1], gs[|gs| - 1];
      var mid, r := GroupBlocks(ls, init), GroupBlocks(ls, gs);
      GroupBlocksExtends(ls, init);
      GroupBlockShape(mid, last);
      assert r == GroupBlock(mid, last);
      if |last.members| > 0 {
        assert r[..|ls|] == r[..|mid|][..|ls|];
      }
    }
  }

  /** A block only appends to the lines before it. */
  lemma GroupBlockExtends(ls: seq<Line>, g: Group)
    ensures |ls| <= |GroupBlock(ls, g)| && GroupBlock(ls, g)[..|ls|] == ls
  {
    GroupBlockShape(ls, g);
  }

  /** The blocks of the first `m` groups are a prefix of the blocks of all the groups. */
  lemma {:induction false} GroupBlocksPrefix(ls: seq<Line>, gs: seq<Group>, m: nat)
    requires m <= |gs|
    ensures var p, r := GroupBlocks(ls, gs[..m]), GroupBlocks(ls, gs); |p| <= |r| && r[..|p|] == p
  {
    if m < |gs| {
      var init, last := gs[..|gs| - 1], gs[|gs| - 1];
      assert init[..m] == gs[..m];
      GroupBlocksPrefix(ls, init, m);
      var p, mid, r := GroupBlocks(ls, gs[..m]), GroupBlocks(ls, init), GroupBlocks(ls, gs);
      GroupBlockExtends(mid, last);
      assert r[..|p|] == r[..|mid|][..|p|];
    } else {
      assert gs[..m] == gs;
    }
  }

  /**
    At position `h` of `ls` stands the block of group `g`: its heading, then the entries
    of its first ten members in order, then the trailer when it has more than ten
    members, or else the blank line that closes the block.
   */
  predicate BlockAtPos(ls: seq<Line>, h: nat, g: Group)
  {
    var n := Min(MaxShown, |g.members|);
    && h + 1 + n < |ls|
    && ls[h] == TypeHeading(g.typeName)
    && (forall i :: 0 <= i < n ==> ls[h + 1 + i] == Entry(g.members[i]))
    && ls[h + 1 + n] == if |g.members| > MaxShown then More(|g.members| - MaxShown, g.typeName) else Blank
  }

  /**
    The block of a non-empty group `j` sits among the blocks at some position `h`: its
    heading, then the entries of its first ten members in order, then the trailer when
    it has more than ten members, or else the blank line that closes the block.
   */
  lemma BlockAt(start: seq<Line>, gs: seq<Group>, j: nat) returns (h: nat)
    requires j < |gs| && |gs[j].members| > 0
    ensures BlockAtPos(GroupBlocks(start, gs), h, gs[j])
  {
    var g := gs[j];
    var before := GroupBlocks(start, gs[..j]);
    var block := GroupBlocks(start, gs[..j + 1]);
    assert gs[..j + 1][..j] == gs[..j];
    assert block == GroupBlock(before, g);
    GroupBlockShape(before, g);
    h := |before|;
    GroupBlocksPrefix(start, gs, j + 1);
    var all := GroupBlocks(start, gs);
    assert forall x :: 0 <= x < |block| ==> all[x] == all[..|block|][x];
  }

  /** The lines of the products section come first in the document, before the closing links. */
  lemma LayoutSectionPrefix(shop: Shop, f: CatalogFacts)
    ensures var ls, s := Layout(shop, f), ProductSection(Preamble(shop, f), f.total, f.groups);
            |s| <= |ls| && ls[..|s|] == s
  {
    var s := ProductSection(Preamble(shop, f), f.total, f.groups);
    ClosingIsFooter(s, shop.primaryDomain.url);
  }

  /** The block of a non-empty group of a non-empty catalog, at its position in the document. */
  lemma LayoutBlockAt(shop: Shop, f: CatalogFacts, j: nat) returns (h: nat)
    requires f.total > 0 && j < |f.groups| && |f.groups[j].members| > 0
    ensures BlockAtPos(Layout(shop, f), h, f.groups[j])
  {
    var s := GroupBlocks(Preamble(shop, f) + [ProductsHeading], f.groups);
    h := BlockAt(Preamble(shop, f) + [ProductsHeading], f.groups, j);
    LayoutSectionPrefix(shop, f);
    var ls := Layout(shop, f);
    assert forall x :: 0 <= x < |s| ==> ls[x] == ls[..|s|][x];
  }

  /** The type names of the `###` headings among `ls`, in order. */
  function Headings(ls: seq<Line>): seq<string>
  {
    if ls == [] then []
    else Headings(ls[..|ls| - 1]) + (if ls[|ls| - 1].TypeHeading? then [ls[|ls| - 1].typeName] else [])
  }

  /** A run of lines without a `###` heading contributes no heading. */
  lemma {:induction false} HeadingsNone(ls: seq<Line>)
    requires forall l :: l in ls ==> !l.TypeHeading?
    ensures Headings(ls) == []
  {
    if ls != [] {
      HeadingsNone(ls[..|ls| - 1]);
    }
  }

  /** The headings of two runs of lines are the headings of the first, then those of the second. */
  lemma {:induction false} HeadingsAppend(a: seq<Line>, b: seq<Line>)
    ensures Headings(a + b) == Headings(a) + Headings(b)
    decreases |b|
  {
    if b == [] {
      assert a + b == a;
    } else {
      var b' := b[..|b| - 1];
      assert (a + b)[..|a + b| - 1] == a + b';
      HeadingsAppend(a, b');
    }
  }

  lemma HeadingsOfPreamble(shop: Shop, f: CatalogFacts)
    ensures Headings(Preamble(shop, f)) == []
  {
    PreambleMembership(shop, f);
    HeadingsNone(Preamble(shop, f));
  }

  lemma HeadingsOfClosing(ls: seq<Line>, url: string)
    ensures Headings(Closing(ls, url)) == Headings(ls)
  {
    ClosingIsFooter(ls, url);
    HeadingsNone(Footer(url));
    HeadingsAppend(ls, Footer(url));
  }

  lemma {:induction false} HeadingsOfEntries(ls: seq<Line>, ms: seq<Product>)
    ensures Headings(Entries(ls, ms)) == Headings(ls)
  {
    if ms != [] {
      HeadingsOfEntries(ls, ms[..|ms| - 1]);
    }
  }

  /** The block of a non-empty group contributes exactly its own heading. */
  lemma HeadingsOfGroupBlock(ls: seq<Line>, g: Group)
    ensures Headings(GroupBlock(ls, g)) == Headings(ls) + (if |g.members| > 0 then [g.typeName] else [])
  {
    if |g.members| > 0 {
      var head := ls + [TypeHeading(g.typeName)];
      var listed := Entries(head, g.members[..Min(MaxShown, |g.members|)]);
      HeadingsOfEntries(head, g.members[..Min(MaxShown, |g.members|)]);
      assert Headings(head) == Headings(ls) + [g.typeName];
      var trailed := if |g.members| > MaxShown then listed + [More(|g.members| - MaxShown, g.typeName)] else listed;
      assert Headings(trailed) == Headings(listed);
    }
  }

  lemma {:induction false} HeadingsOfGroupBlocks(ls: seq<Line>, gs: seq<Group>)
    requires forall j :: 0 <= j < |gs| ==> |gs[j].members| > 0
    ensures Headings(GroupBlocks(ls, gs)) == Headings(ls) + Labels(gs)
  {
    if gs != [] {
      var init := gs[..|gs| - 1];
      HeadingsOfGroupBlocks(ls, init);
      HeadingsOfLastBlock(ls, gs);
      assert Labels(gs) == Labels(init) + [gs[|gs| - 1].typeName];
    }
  }

  lemma HeadingsOfLastBlock(ls: seq<Line>, gs: seq<Group>)
    requires gs != [] && |gs[|gs| - 1].members| > 0
    ensures Headings(GroupBlocks(ls, gs)) == Headings(GroupBlocks(ls, gs[..|gs| - 1])) + [gs[|gs| - 1].typeName]
  {
    HeadingsOfGroupBlock(GroupBlocks(ls, gs[..|gs| - 1]), gs[|gs| - 1]);
  }

  /** When every group has members, the headings of the document are the group labels, in group order. */
  lemma LayoutHeadings(shop: Shop, f: CatalogFacts)
    requires forall j :: 0 <= j < |f.groups| ==> |f.groups[j].members| > 0
    ensures Headings(Layout(shop, f)) == if f.total > 0 then Labels(f.groups) else []
  {
    var pre := Preamble(shop, f);
    var mid := ProductSection(pre, f.total, f.groups);
    HeadingsOfPreamble(shop, f);
    HeadingsOfClosing(mid, shop.primaryDomain.url);
    if f.total > 0 {
      HeadingsOfGroupBlocks(pre + [ProductsHeading], f.groups);
      assert Headings(pre + [ProductsHeading]) == [];
    }
  }

  // Properties of the layout for any derived values `f`.

  /** The summary, the counts and the price range of `f` are all written. */
  lemma LayoutReportsFacts(shop: Shop, f: CatalogFacts)
    ensures Summary(f.description) in Layout(shop, f)
    ensures TotalProducts(f.total) in Layout(shop, f)
    ensures ActiveProducts(f.active) in Layout(shop, f)
    ensures PriceRange(f.low, f.high, shop.currencyCode) in Layout(shop, f)
  {
    LayoutMembership(shop, f);
  }

  /** No summary, count or price-range line of the document says anything but what `f` holds. */
  lemma LayoutReportsOnlyFacts(shop: Shop, f: CatalogFacts)
    ensures forall l :: l in Layout(shop, f) ==>
              && (l.Summary? ==> l.text == f.description)
              && (l.TotalProducts? ==> l.total == f.total)
              && (l.ActiveProducts? ==> l.active == f.active)
              && (l.PriceRange? ==> l.low == f.low && l.high == f.high && l.currency == shop.currencyCode)
  {
    LayoutMembership(shop, f);
    forall l | l in Layout(shop, f)
      ensures l.Summary? ==> l.text == f.description
      ensures l.TotalProducts? ==> l.total == f.total
      ensures l.ActiveProducts? ==> l.active == f.active
      ensures l.PriceRange? ==> l.low == f.low && l.high == f.high && l.currency == shop.currencyCode
    {
      assert InLayout(l, shop, f);
    }
  }

  /** The category line facts hold of any run of lines whose members are those of the layout. */
  lemma CategoryLineOf(ls: seq<Line>, shop: Shop, f: CatalogFacts)
    requires forall l :: l in ls <==> InLayout(l, shop, f)
    ensures (exists l :: l in ls && l.Categories?) <==> |f.types| > 0
    ensures forall l :: l in ls && l.Categories? ==> l.types == f.types
  {
    if |f.types| > 0 {
      assert InLayout(Categories(f.types), shop, f);
    }
    forall l | l in ls && l.Categories?
      ensures l.types == f.types
    {
      assert InLayout(l, shop, f);
    }
  }

  /** The category line is present exactly when there are types, and lists all of them. */
  lemma LayoutCategoryLine(shop: Shop, f: CatalogFacts)
    ensures (exists l :: l in Layout(shop, f) && l.Categories?) <==> |f.types| > 0
    ensures forall l :: l in Layout(shop, f) && l.Categories? ==> l.types == f.types
  {
    LayoutMembership(shop, f);
    CategoryLineOf(Layout(shop, f), shop, f);
  }

  /** The vendor line facts hold of any run of lines whose members are those of the layout. */
  lemma VendorLineOf(ls: seq<Line>, shop: Shop, f: CatalogFacts)
    requires forall l :: l in ls <==> InLayout(l, shop, f)
    ensures (exists l :: l in ls && l.Vendors?) <==> |f.vendors| > 0
    ensures forall l :: l in ls && l.Vendors? ==>
              l.shown == f.vendors[..Min(MaxShown, |f.vendors|)] && (l.more <==> |f.vendors| > MaxShown)
  {
    if |f.vendors| > 0 {
      assert InLayout(Vendors(f.vendors[..Min(MaxShown, |f.vendors|)], |f.vendors| > MaxShown), shop, f);
    }
    forall l | l in ls && l.Vendors?
      ensures l.shown == f.vendors[..Min(MaxShown, |f.vendors|)] && (l.more <==> |f.vendors| > MaxShown)
    {
      assert InLayout(l, shop, f);
    }
  }

  /** The vendor line is present exactly when there are vendors; it shows the first ten and says whether there are more. */
  lemma LayoutVendorLine(shop: Shop, f: CatalogFacts)
    ensures (exists l :: l in Layout(shop, f) && l.Vendors?) <==> |f.vendors| > 0
    ensures forall l :: l in Layout(shop, f) && l.Vendors? ==>
              l.shown == f.vendors[..Min(MaxShown, |f.vendors|)] && (l.more <==> |f.vendors| > MaxShown)
  {
    LayoutMembership(shop, f);
    VendorLineOf(Layout(shop, f), shop, f);
  }

  /** The document opens with the title line. */
  lemma LayoutStartsWithTitle(shop: Shop, f: CatalogFacts)
    ensures |Layout(shop, f)| > 0 && Layout(shop, f)[0] == Title(shop.name)
  {
    var pre := Preamble(shop, f);
    var mid := ProductSection(pre, f.total, f.groups);
    assert |pre| > 0 && pre[0] == Title(shop.name);
    if f.total > 0 {
      GroupBlocksExtends(pre + [ProductsHeading], f.groups);
      assert mid[..|pre| + 1][0] == pre[0];
    }
    assert Layout(shop, f)[..|mid|] == mid;
  }

  /** The document closes with the link to the contact page. */
  lemma LayoutEndsWithContactLink(shop: Shop, f: CatalogFacts)
    ensures |Layout(shop, f)| > 0 && Layout(shop, f)[|Layout(shop, f)| - 1] == Link(ContactPage, shop.primaryDomain.url)
  {
  }

  /** The products heading is present exactly when there are products. */
  lemma LayoutProductsHeading(shop: Shop, f: CatalogFacts)
    ensures ProductsHeading in Layout(shop, f) <==> f.total > 0
  {
    LayoutMembership(shop, f);
  }

  /** Every link is under the primary domain, and each fixed page is linked. */
  lemma LayoutLinks(shop: Shop, f: CatalogFacts)
    ensures forall l :: l in Layout(shop, f) && l.Link? ==> l.base == shop.primaryDomain.url
    ensures forall p: Page :: Link(p, shop.primaryDomain.url) in Layout(shop, f)
  {
    LayoutMembership(shop, f);
  }

  /** A type heading is written exactly for the non-empty groups of a non-empty catalog. */
  lemma LayoutTypeHeadings(shop: Shop, f: CatalogFacts)
    ensures forall k :: TypeHeading(k) in Layout(shop, f) <==>
              f.total > 0 && exists j :: 0 <= j < |f.groups| && |f.groups[j].members| > 0 && f.groups[j].typeName == k
  {
    LayoutMembership(shop, f);
    var gs := f.groups;
    forall k
      ensures TypeHeading(k) in Layout(shop, f) <==>
                f.total > 0 && exists j :: 0 <= j < |gs| && |gs[j].members| > 0 && gs[j].typeName == k
    {
      if j :| f.total > 0 && 0 <= j < |gs| && |gs[j].members| > 0 && gs[j].typeName == k {
        assert BlockLine(TypeHeading(k), gs[j]);
      }
    }
  }

  /** A product is listed exactly when it is among the first ten members of a group of a non-empty catalog. */
  lemma LayoutEntries(shop: Shop, f: CatalogFacts)
    ensures forall p :: Entry(p) in Layout(shop, f) <==>
              f.total > 0 && exists j, i :: 0 <= j < |f.groups| && 0 <= i < Min(MaxShown, |f.groups[j].members|) &&
                                          f.groups[j].members[i] == p
  {
    LayoutMembership(shop, f);
    var gs := f.groups;
    forall p
      ensures Entry(p) in Layout(shop, f) <==>
                f.total > 0 && exists j, i :: 0 <= j < |gs| && 0 <= i < Min(MaxShown, |gs[j].members|) && gs[j].members[i] == p
    {
      if j, i :| f.total > 0 && 0 <= j < |gs| && 0 <= i < Min(MaxShown, |gs[j].members|) && gs[j].members[i] == p {
        assert BlockLine(Entry(p), gs[j]);
      }
    }
  }

  /** The trailer of a group is written exactly when it has more than ten members, and counts the rest. */
  lemma LayoutTrailers(shop: Shop, f: CatalogFacts)
    ensures forall n, k :: More(n, k) in Layout(shop, f) <==>
              f.total > 0 && exists j :: 0 <= j < |f.groups| && f.groups[j].typeName == k &&
                                         |f.groups[j].members| > MaxShown && n == |f.groups[j].members| - MaxShown
  {
    LayoutMembership(shop, f);
    var gs := f.groups;
    forall n, k
      ensures More(n, k) in Layout(shop, f) <==>
                f.total > 0 && exists j :: 0 <= j < |gs| && gs[j].typeName == k && |gs[j].members| > MaxShown && n == |gs[j].members| - MaxShown
    {
      if j :| f.total > 0 && 0 <= j < |gs| && gs[j].typeName == k && |gs[j].members| > MaxShown && n == |gs[j].members| - MaxShown {
        assert BlockLine(More(n, k), gs[j]);
      }
    }
  }
}
