# llms.txt generator, modelled in Dafny

The app builds an `llms.txt` document for a shop. It fetches the shop record and its first products. It flattens the paginated `edges[].node` response into plain product and variant lists. `generateLlmsTxt` then turns the shop and products into one markdown text, in this order:

- a title and summary;
- the store information;
- a catalog overview with counts, price range, categories and vendors;
- a products section grouped by type;
- fixed policy and optional links.

The model has one module per concern:

- `Catalog`: the shop and product records, and the edge/node flattening with its inverse.
- `Text`: how a number prints inside a template literal (`NatToString`), `join`, and ASCII `toLowerCase`.
- `Prices`: the `parseFloat` subset that price strings go through, `toFixed(2)`, the list of every variant price, and `Math.min`/`Math.max` with NaN propagation. The `Amount` datatype holds an exact real or NaN.
- `Facets`: `[...new Set(xs.filter(Boolean))]` as `Unique`, the product types, the vendors and the active count.
- `Grouping`: the `reduce` that groups products by `productType || 'Other'`. It is an association list kept in first-insertion order.
  - `GroupsOf` is the reference definition, stated without the pass.
  - `Push` and `GroupByType` are the pass itself: a method with a loop, proved equal to `GroupsOf`.
- `Document`: the document as a sequence of `Line`s, one constructor per `+=` template, with `RenderLine` giving each template's text.
  - `Lines(shop, products)` is the document, built from the values the generator derives first (`Facts`).
  - `GenerateLlmsTxt` and its block methods (`WriteHeader` … `WriteLinks`) build the string with `+=` and loops, as the generator does. They are proved to produce `Render(Lines(shop, products))`.
- `Layout`: facts about the document for any derived values. They cover which lines are present, the order of the type headings, the first and last lines, and how the text of appended lines composes.
- `LlmsTxt`: the resulting properties, stated in terms of the shop and the products themselves.

Two details of the templates are worth stating:

- Each template ends with its own line breaks. The title, summary, contact, heading and Terms of Service lines end with a blank line. `RenderLine` reproduces them template by template.
- An entry shows the first variant's price only when that price string is non-empty. An empty one gives "Price varies".

## Model

| member | source | states |
|---|---|---|
| Catalog.FlattenProducts | app/routes/app._index.tsx:108-111 | there is one product per edge, in order, carrying every field of its node and the nodes of its variant edges in order |
| Catalog.FlattenNode | app/routes/app._index.tsx:109-110 | a flattened product keeps every field of its node, and its variants are the variant edges' nodes in order |
| Catalog.FlattenAfterWrap | app/routes/app._index.tsx:108-111 | every product list is the flattening of its edge/node form: flattening loses no product, field or variant, and keeps their order |
| Catalog.WrapAfterFlatten | app/routes/app._index.tsx:108-111 | re-wrapping a flattened response gives the response back, so distinct responses flatten to distinct product lists |
| Text.NatToString | app/routes/app._index.tsx:230-231 | a count prints as at least one decimal digit, one digit exactly below ten, and with no leading zero except for 0 |
| Text.NatToStringRoundTrip | app/routes/app._index.tsx:230-231 | reading the printed digits back gives the number |
| Text.DigitsValueRoundTrip | app/routes/app._index.tsx:230-231 | printing the value of a canonical digit string gives the string back |
| Text.Join | app/routes/app._index.tsx:234 | `join(', ')` is empty for no element, starts with the first element, and has the elements' total length plus one separator between neighbours |
| Text.JoinParts | app/routes/app._index.tsx:234 | every element stands in the joined text at its offset, in order, and exactly the separator stands between each element and the next |
| Text.Lower | app/routes/app._index.tsx:268 | lower-casing keeps the length, leaves no upper-case letter, and changes only upper-case letters, each to its lower-case form |
| Prices.ParsePrice | app/routes/app._index.tsx:214 | a price string parses to NaN exactly when it does not start with a digit or with a point followed by a digit; otherwise to a non-negative number |
| Prices.Fixed2UnsignedRounds | app/routes/app._index.tsx:232 | a non-negative amount prints as digits, a point and two digits, and the printed number of cents is the amount in cents rounded to the nearest, halves up |
| Prices.Fixed2 | app/routes/app._index.tsx:232 | NaN prints as "NaN"; the text starts with a minus sign exactly when the amount is negative |
| Prices.Fixed2RoundTrip | app/routes/app._index.tsx:232 | printing a whole number of cents with two decimals and parsing it back gives the same amount |
| Prices.AllPrices | app/routes/app._index.tsx:214 | the price list has one entry per variant over all products |
| Prices.AllPricesComplete | app/routes/app._index.tsx:214 | the price list holds one parsed price per variant of every product (not just the first), and nothing else |
| Prices.Least | app/routes/app._index.tsx:215 | the minimum is NaN exactly when some price is NaN, and otherwise is one of the prices and at most every price |
| Prices.Greatest | app/routes/app._index.tsx:216 | the maximum is NaN exactly when some price is NaN, and otherwise is one of the prices and at least every price |
| Prices.PriceBounds | app/routes/app._index.tsx:214-216 | with no price both bounds are 0; with a NaN both are NaN; otherwise both are attained and bracket every price |
| Facets.Unique | app/routes/app._index.tsx:208-209 | the de-duplicated list holds exactly the non-empty input values, each once |
| Facets.UniqueKeepsFirstAppearanceOrder | app/routes/app._index.tsx:208-209 | the de-duplicated values keep the order of their first appearance in the input |
| Facets.ProductTypes | app/routes/app._index.tsx:208 | the product types have no duplicate and no empty value, and every non-empty product type is among them |
| Facets.VendorNames | app/routes/app._index.tsx:209 | the vendors have no duplicate and no empty value, and every non-empty vendor is among them |
| Facets.FacetsComplete | app/routes/app._index.tsx:208-209 | product types and vendors have no duplicate and no empty value, and hold every non-empty type and vendor of the products |
| Facets.ActiveCount | app/routes/app._index.tsx:211 | the active count never exceeds the number of products |
| Facets.ActiveCountIsIndexCount | app/routes/app._index.tsx:211 | the active count is the number of products whose status is exactly "ACTIVE" |
| Grouping.TypeLabel | app/routes/app._index.tsx:246 | a product's group label is never empty ("Other" stands in for an empty type) |
| Grouping.IndexOfLabel | app/routes/app._index.tsx:247 | the lookup `acc[type]` finds the group with that label, or reports that none has it |
| Grouping.MembersAppend | app/routes/app._index.tsx:245-250 | the members of a label over two runs of products are the members over the first run followed by those over the second, so input order is kept |
| Grouping.MembersExact | app/routes/app._index.tsx:245-250 | a product is a member of label k exactly when it is in the input and its label is k |
| Grouping.GroupingPartitions | app/routes/app._index.tsx:245-250 | the groups have distinct labels; a product is in a group exactly when its label is the group's label; every product has a group; no group is empty; the groups hold all products in total |
| Grouping.GroupsInFirstAppearanceOrder | app/routes/app._index.tsx:245-252 | the groups are in the order in which their labels first appear among the products |
| Grouping.GroupsStep | app/routes/app._index.tsx:246-248 | grouping one more product pushes it onto the group of its label, or opens a new last group holding only it |
| Grouping.GroupsTotal | app/routes/app._index.tsx:245-250 | the group sizes add up to the number of products |
| Grouping.Push | app/routes/app._index.tsx:246-248 | `acc[type] ??= []; acc[type].push(product)` appends to the existing group of the label, or opens a new last group with the product |
| Grouping.PushStep | app/routes/app._index.tsx:245-250 | one step of the `reduce` turns the grouping of the products so far into the grouping of one product more |
| Grouping.GroupByType | app/routes/app._index.tsx:245-250 | the one-pass `reduce` builds exactly the reference grouping `GroupsOf` |
| Grouping.GroupByTypeAsWritten | app/routes/app._index.tsx:245-250 | with a `{}` accumulator the pass fails exactly when some product's label is an inherited property name, and otherwise builds the reference grouping |
| Grouping.InheritedLabelGetsGroup | app/routes/app._index.tsx:245-250 | a product of type "constructor" has an inherited label, yet the reference grouping gives it its own group |
| Document.StoreDescription | app/routes/app._index.tsx:218 | the summary is never empty, and is the shop's own description whenever that is non-empty |
| Document.RenderLine | app/routes/app._index.tsx:220-283 | every template writes something and ends with a line break |
| Document.PriceLabel | app/routes/app._index.tsx:257 | the label starts with "$" exactly when the first variant exists and has a non-empty price, and is then "$" followed by that price; otherwise it is "Price varies" |
| Document.PriceLabelUsesFirstVariantOnly | app/routes/app._index.tsx:257 | later variants never change the price label |
| Document.Blurb | app/routes/app._index.tsx:258-262 | an empty description becomes "No description available"; one of at most 100 characters is unchanged; a longer one becomes its first 100 characters and "...", 103 characters in all |
| Document.Add | app/routes/app._index.tsx:221 | `llmsTxt += line` extends the text by the line's template and the document by that line |
| Document.WriteHeader | app/routes/app._index.tsx:220-227 | the header writes the title, summary and store information lines in source order |
| Document.WriteOverview | app/routes/app._index.tsx:229-239 | the overview writes the counts and price range, the category line only for types, and the vendor line only for vendors |
| Document.WriteEntries | app/routes/app._index.tsx:256-265 | the inner loop writes one entry per listed product, in order |
| Document.WriteGroup | app/routes/app._index.tsx:253-271 | a non-empty group writes its heading, its first ten entries, the trailer when it has more than ten, and a blank line; an empty group writes nothing |
| Document.WriteGroups | app/routes/app._index.tsx:252-272 | the loop over the groups writes one block per group, in group order |
| Document.WriteProducts | app/routes/app._index.tsx:241-273 | the products section is written only for a non-empty catalog: its heading, then the blocks of the grouping built by the pass |
| Document.WriteLinks | app/routes/app._index.tsx:275-283 | the closing writes the policy heading and four policy links, then the optional heading and two links |
| Document.GenerateLlmsTxt | app/routes/app._index.tsx:207-286 | the generated text is the rendering of the document's lines, in order |
| Layout.LayoutMembership | app/routes/app._index.tsx:220-283 | a line is in the document exactly when it is a preamble line, the products heading or a group block line (products only), or a closing line |
| Layout.LayoutHeadings | app/routes/app._index.tsx:252-255 | when every group has members, the type headings of the document, in order, are the group labels (none for an empty catalog) |
| Layout.LayoutReportsFacts | app/routes/app._index.tsx:221-232 | the summary, total, active and price range lines carry the derived values |
| Layout.LayoutReportsOnlyFacts | app/routes/app._index.tsx:221-232 | no summary, total, active or price range line carries any other value |
| Layout.LayoutCategoryLine | app/routes/app._index.tsx:233-235 | the category line is present exactly when there are types, and lists all of them |
| Layout.LayoutVendorLine | app/routes/app._index.tsx:236-238 | the vendor line is present exactly when there are vendors; it shows the first ten and marks whether there are more |
| Layout.LayoutStartsWithTitle | app/routes/app._index.tsx:220 | the first line is the title |
| Layout.LayoutEndsWithContactLink | app/routes/app._index.tsx:283 | the last line is the contact page link |
| Layout.LayoutProductsHeading | app/routes/app._index.tsx:241-242 | the products heading is present exactly when there are products |
| Layout.LayoutLinks | app/routes/app._index.tsx:275-283 | every link is under the primary domain, and every fixed page is linked |
| Layout.LayoutTypeHeadings | app/routes/app._index.tsx:254-255 | a type heading is present exactly when the catalog is not empty and a non-empty group has that label |
| Layout.LayoutEntries | app/routes/app._index.tsx:256-264 | a product entry is present exactly when the catalog is not empty and the product is among the first ten members of some group |
| Layout.LayoutBlockAt | app/routes/app._index.tsx:252-271 | in a non-empty catalog, each non-empty group's heading is followed by its first ten members in order and then by its trailer or a blank line |
| Layout.LayoutTrailers | app/routes/app._index.tsx:267-269 | a trailer is present exactly for a group of more than ten members, with the number of members beyond ten |
| LlmsTxt.ReportsCatalog | app/routes/app._index.tsx:210-232 | the document holds the summary built from the product and category counts (or the shop's description), the number of products, the number of active products and the price bounds |
| LlmsTxt.ReportsOnlyCatalog | app/routes/app._index.tsx:210-232 | every summary, total, active and price range line carries exactly those figures |
| LlmsTxt.SummaryReadsBack | app/routes/app._index.tsx:218 | the summary is the shop's non-empty description, or else a sentence whose two numbers read back as the product count and the category count |
| LlmsTxt.TotalReadsBack | app/routes/app._index.tsx:230 | the total line's number reads back as the count printed |
| LlmsTxt.ActiveReadsBack | app/routes/app._index.tsx:231 | the active line's number reads back as the count printed |
| LlmsTxt.CategoryLine | app/routes/app._index.tsx:233-235 | the category line is present exactly when some product has a non-empty type, and lists the distinct non-empty types |
| LlmsTxt.VendorLine | app/routes/app._index.tsx:236-238 | the vendor line is present exactly when some product has a non-empty vendor, shows the first ten distinct vendors, and marks whether there are more than ten |
| LlmsTxt.ProductsSectionIffProducts | app/routes/app._index.tsx:241-242 | the products section is present exactly when the catalog is not empty |
| LlmsTxt.TypeHeadingIffLabel | app/routes/app._index.tsx:245-255 | there is a heading for label k exactly when some product carries label k |
| LlmsTxt.HeadingsInFirstAppearanceOrder | app/routes/app._index.tsx:245-255 | the headings, read in order, are the distinct labels in order of first appearance among the products |
| LlmsTxt.ShownInOrder | app/routes/app._index.tsx:254-270 | right after the heading of a label come the entries of its first ten products in input order, then its trailer if it has more than ten, else a blank line |
| LlmsTxt.ListedIffAmongFirstTen | app/routes/app._index.tsx:252-265 | a product is listed exactly when it is among the first ten products of its own type |
| LlmsTxt.TrailerIffLargeType | app/routes/app._index.tsx:267-269 | the "...and N more" trailer of a type is present exactly when more than ten products carry its label, with N the number not listed |
| LlmsTxt.TrailerReadsBack | app/routes/app._index.tsx:268 | the trailer's number reads back as the count printed |
| LlmsTxt.LinksUnderPrimaryDomain | app/routes/app._index.tsx:275-283 | every link points under the primary domain, and every fixed page is linked |
| LlmsTxt.TextStartsWithTitle | app/routes/app._index.tsx:220 | the text starts with the shop name as a level-one heading |
| LlmsTxt.TextEndsWithContactLink | app/routes/app._index.tsx:283 | the text ends with the contact page link under the primary domain |

## Left out

- The `loader` and `action` queries and `authenticate.admin` (app/routes/app._index.tsx:53-107, 131-184). They are network I/O and platform authentication. Only the flattening of their product response is modelled.
- The JSON returned to the page (app/routes/app._index.tsx:116-125) and the `ShopData` interface. They are not used by the generator; the generator reads the raw shop object.
- The React `Index` component (app/routes/app._index.tsx:288-477). It is UI, clipboard, download and toast code.
- Floating point. Prices are exact reals, so binary rounding is not modelled.
- Prices.ParsePrice: models `parseFloat` only on unsigned decimal text. It does not model leading whitespace, signs, exponents or "Infinity".
- Prices.Fixed2: models `toFixed(2)` as exact round-half-up on the real value. It does not model the exponential form for values of 1e21 and above.
- Prices.Fixed2RoundTrip: is proved only for amounts that are a whole number of cents, since other amounts do not survive two-decimal rounding.
- The enumeration order of `Object.entries` (app/routes/app._index.tsx:252) is taken as first-insertion order. JavaScript lists integer-like keys first, in ascending numeric order. So a catalog with a product type such as "2024" has that group listed first, which the model does not reproduce.
- Text.Lower: covers ASCII letters only, not full Unicode `toLowerCase`.
- Document.Blurb: counts characters, where `substring` and `length` count UTF-16 code units.
- Missing or null fields (`description`, `price`, `productType`, `vendor`) are modelled as empty strings. That is the case the code's truthiness tests treat alike. A missing shop description is `None`.
- The query limits of 50 products and 10 variants per product are not enforced. The generator does not depend on them.
- The spread `...edge.node` keeps whatever fields the response carries. The model carries the fields the query requests.
- Grouping.Push and Grouping.GroupByType: they model the grouping the code evidently intends, in which every label gets its own group. The pass as written fails for labels that are inherited `Object.prototype` property names. That behaviour is modelled separately by `GroupByTypeAsWritten` (see Findings).

## Findings

| source | as written | input that shows it | evidently intended | confidence | as-written member | corrected member |
|---|---|---|---|---|---|---|
| app/routes/app._index.tsx:245-250 | the accumulator is a plain `{}`, so `acc[type]` is already truthy when `type` names an inherited property such as "constructor", "toString" or "__proto__"; the `[]` is never stored and `acc[type].push` throws a TypeError, so no text is generated | one product whose `productType` is "constructor" | every label, whatever its name, gets its own group and a "### constructor" block | not executed | Grouping.GroupByTypeAsWritten, Grouping.InheritedLabelGetsGroup | Grouping.GroupByType |
