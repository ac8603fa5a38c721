# chemAlert catalogue logic, modelled in Dafny

chemAlert is a static website that lists consumer products and the harmful chemicals
they contain. Its pages read one in-memory product catalogue (`productsData`). It has
no server and no database. This project models what the site computes from that
catalogue and from its own state:

- the header's **search dialog**: a case-insensitive substring filter over name, brand
  and chemicals, the first-ten display cap, the prompt / no-results / results body, and
  the dialog's `open`/`query` state;
- the **catalogue aggregates** that the home, products, categories and about pages
  repeat: per-category counts, per-risk counts, high-risk-per-category counts, distinct
  chemicals, distinct brands, and the "first N" slices (featured products, the first two
  chemical chips plus "+N more");
- the product-card rules: the risk-class mapping, the image fallback, and the category
  and insight labels;
- the contribution form's **chemical list editor**. It appends a trimmed, non-empty,
  new entry and removes by index. The list never holds a duplicate or an untrimmed entry;
- the **theme provider**. A valid stored theme wins, then the system preference, then
  "light". One of "light"/"dark" is kept on the root element. The theme is persisted
  only once mounted. `useTheme` fails outside a provider.

Modules follow the source files: `Search` (components/search.tsx), `AddProduct`
(app/add-product/page.tsx), `ProductsPage`, `CategoriesPage`, `HomePage`, `AboutPage`
(the four pages), `ThemeContext` (contexts/theme-context.tsx). `Catalog` holds the
product record and the counting formulas the pages share. `ProductCard` holds the card
rules that app/page.tsx and app/products/page.tsx repeat word for word. `JsArray` and
`JsString` model the ECMAScript built-ins used: `filter`, `slice(0, n)`, `new Set`,
`toLowerCase`, `includes`, `trim`, `replace`, `split(" ")[0]`. `Wrappers` holds
`Option` and `Result`.

Modelling choices:

- The catalogue module `@/data/products` is not part of this model. The catalogue is an
  arbitrary `seq<Product>`. `category` and `riskLevel` are strings compared by equality,
  as in the code. The pages treat `category` as one of four values and `riskLevel` as
  one of three, but nothing in the code enforces that. So "every category is one of the
  four" and "every risk level is one of the three" are explicit hypotheses of the
  equality halves of the sum lemmas.
- `toLowerCase` folds only ASCII `A`–`Z`. `trim` strips only ASCII whitespace: space,
  tab, line feed, vertical tab, form feed and carriage return.
- `localStorage` is a `map<string, string>`, `matchMedia(...).matches` is a boolean
  parameter, and the root element's class list is a `set<string>`.
- `product.image` is `Option<string>`. `image || placeholder` treats both `None` and
  `""` as missing.
- The two `useEffect` bodies of the theme provider are the methods `InitialSetup` and
  `ApplyTheme`. On page load React runs the setup effect first. It reads storage and
  only queues its `setTheme`/`setMounted` updates, so the apply effect of the same
  commit still sees the default "light", unmounted state. After the re-render the apply
  effect runs again with the new state. `Startup` applies the queued updates
  (`InitialSetup`) between the two `ApplyTheme` runs. This gives the same end state,
  because `InitialSetup` touches neither the class list nor storage, and an unmounted
  `ApplyTheme` writes no storage.
- An empty query matches every product (`EmptyQueryMatchesAll`). The dialog then shows
  its prompt (`Search.Body`).

## Model

| member | source | states |
|---|---|---|
| `JsArray.Filter` | components/search.tsx:30 | `Array.filter`: no longer than its input, and every kept element is from the input and satisfies the predicate |
| `JsArray.FilterKeeps` | components/search.tsx:30-37 | an element is kept if and only if it is in the input and satisfies the predicate |
| `JsArray.FilterIsSubsequence` | components/search.tsx:30 | the filter result is an order-preserving subsequence of the input |
| `JsArray.FilterMonotone` | app/categories/page.tsx:19 | a stronger predicate keeps a subsequence of what a weaker one keeps, so never more elements |
| `JsArray.FilterLength` | app/products/page.tsx:19 | `filter(...).length` equals the number of elements satisfying the predicate, counted one by one |
| `JsArray.Take` | components/search.tsx:81 | `slice(0, n)` has length min(n, length) and agrees with the input position by position |
| `JsArray.DistinctSize` | app/page.tsx:74 | `new Set(xs).size` is at most `xs.length`, and equal to it exactly when `xs` has no repeated element |
| `JsString.Lower` | components/search.tsx:31 | ASCII `toLowerCase`: same length, each character folded, no upper-case letter left |
| `JsString.LowerIdempotent` | components/search.tsx:31-35 | lower-casing twice is lower-casing once |
| `JsString.Includes` | components/search.tsx:33-35 | `includes`: the pattern is a prefix of the string or of one of its suffixes, and is never longer than the string |
| `JsString.IncludesAt` | components/search.tsx:33-35 | a block of the string equal to the pattern, at any position, makes `includes` true |
| `JsString.IncludesWitness` | components/search.tsx:33-35 | when `includes` is true, the pattern occurs as a block at some position |
| `JsString.IncludesTransitive` | components/search.tsx:33-35 | if a occurs in b and b occurs in c, then a occurs in c |
| `JsString.Trim` | app/add-product/page.tsx:28 | ASCII `trim`: the result is no longer than the input and has no whitespace at either end |
| `JsString.TrimStripsOnlySpace` | app/add-product/page.tsx:28 | the input is leading whitespace, then the trimmed result, then trailing whitespace |
| `JsString.TrimIdempotent` | app/add-product/page.tsx:28-29 | trimming twice is trimming once |
| `JsString.TrimOfTrimmed` | app/add-product/page.tsx:28-29 | `trim` returns its input unchanged exactly when the input is already trimmed |
| `JsString.ReplaceFirst` | app/products/page.tsx:174 | `replace` with a one-character pattern changes only the first occurrence; a string without one is unchanged |
| `JsString.FirstWord` | app/categories/page.tsx:160 | `split(" ")[0]` is the prefix before the first space, or the whole string when there is no space |
| `Catalog.InCategory` | app/products/page.tsx:19-22 | every product the category filter returns has that category |
| `Catalog.WithRisk` | app/products/page.tsx:26-28 | every product the risk filter returns has that risk level |
| `Catalog.CategoryCount` | app/categories/page.tsx:18 | a category's product count is at most the catalogue length |
| `Catalog.RiskCount` | app/products/page.tsx:26-28 | a risk level's count is at most the catalogue length |
| `Catalog.HighRiskInCategory` | app/categories/page.tsx:19 | a category's high-risk count is at most its product count, and at most the number of all high-risk products |
| `Catalog.AllChemicals` | app/page.tsx:74 | `flatMap` of the chemical lists: a string occurs in it exactly when some product lists it |
| `Catalog.Brands` | app/page.tsx:80 | `map(p => p.brand)`: one brand per product, position by position |
| `Catalog.CategoryFilter` | app/categories/page.tsx:18 | a product is in a category's filter exactly when it is in the catalogue and has that category |
| `Catalog.CategoryFiltersDisjoint` | app/categories/page.tsx:18-48 | filters for two different categories share no product |
| `Catalog.CategoryCountsSum` | app/products/page.tsx:18-23 | the four category counts add up to at most the catalogue length, and to exactly that if and only if every category is one of the four |
| `Catalog.RiskCountsSum` | app/products/page.tsx:25-29 | High + Medium + Low is at most the total, and equal to it if and only if every risk level is one of the three |
| `Catalog.HighRiskCountsSum` | app/categories/page.tsx:19-56 | the four per-category high-risk counts add up to at most the high-risk total, and to exactly that when every category is one of the four |
| `Catalog.ChemicalsIdentified` | app/page.tsx:74 | "Chemicals Identified" is the number of different chemical strings that some product lists |
| `Catalog.BrandsCovered` | app/page.tsx:80 | "Brands Covered" is the number of different brands among the products |
| `Catalog.ChemicalsIdentifiedBounds` | app/page.tsx:74 | distinct chemicals are at most the chemical entries, and every chemical of every product is in the set |
| `Catalog.ChemicalsIdentifiedIgnoresRepeats` | app/page.tsx:74 | listing a product's chemical a second time leaves the distinct-chemical count unchanged |
| `Catalog.AggregatesIgnoreOrder` | app/about/page.tsx:29-35 | reordering the catalogue changes neither the distinct-chemical nor the distinct-brand count |
| `Catalog.BrandsCoveredBounds` | app/page.tsx:80 | distinct brands are at most the number of products, and at least one for a non-empty catalogue |
| `Search.FilteredProducts` | components/search.tsx:30-37 | the match list is never longer than the catalogue |
| `Search.Matches` | components/search.tsx:30-36 | the match predicate: the empty query matches every product, and a match needs the name, the brand or some chemical to be at least as long as the query |
| `Search.SearchFinds` | components/search.tsx:30-37 | a product matches if and only if it is in the catalogue and the lower-cased query occurs in its lower-cased name, brand or some lower-cased chemical |
| `Search.SearchKeepsOrder` | components/search.tsx:30 | the matches are a subsequence of the catalogue, in catalogue order |
| `Search.SearchIgnoresCase` | components/search.tsx:31-35 | queries with the same lower-cased form give identical results, and so do a query and its lower-cased form |
| `Search.EmptyQueryMatchesAll` | components/search.tsx:30-37 | the empty query matches the whole catalogue |
| `Search.LongerQueryNarrows` | components/search.tsx:31-35 | when the lower-cased old query occurs in the lower-cased new one, the new matches are a subsequence of the old ones |
| `Search.SearchFindsOwnFields` | components/search.tsx:33-35 | a catalogue product is found by its own name and by its brand, even with no chemicals, and by each of its chemicals |
| `Search.Body` | components/search.tsx:78-114 | prompt exactly for the empty query; "no products found", echoing the query, exactly when the query is non-empty and nothing matches; otherwise the first min(10, matches) matches |
| `Search.ResultBadge` | components/search.tsx:91-98 | the result badge is "destructive" exactly for High, "secondary" exactly for Medium, "outline" otherwise |
| `Search.SearchDialog.constructor` | components/search.tsx:14-15 | the dialog starts closed with an empty query |
| `Search.SearchDialog.SetOpen` | components/search.tsx:46 | `onOpenChange` sets `open` and leaves the query alone |
| `Search.SearchDialog.SetQuery` | components/search.tsx:62 | typing sets the query and leaves `open` alone; the dialog then shows `Body` for the new query |
| `Search.SearchDialog.ClearQuery` | components/search.tsx:71 | the clear button empties the query, so the dialog shows its prompt again |
| `Search.SearchDialog.HandleSelect` | components/search.tsx:39-43 | selecting a result closes the dialog, empties the query and yields the route `/product/<id>` |
| `AddProduct.Accepts` | app/add-product/page.tsx:28 | the add button's guard: the trimmed text is non-empty and not already in the list |
| `AddProduct.AcceptsIgnoresSurroundingSpace` | app/add-product/page.tsx:28 | whitespace around the typed text never changes whether it is accepted |
| `AddProduct.Added` | app/add-product/page.tsx:27-32 | the list grows by one exactly when the trimmed entry is non-empty and not present, and then by that trimmed entry at the end; otherwise it is unchanged |
| `AddProduct.RemoveAt` | app/add-product/page.tsx:34-36 | an index in range removes exactly that element and keeps the others in order; any other index leaves the list unchanged |
| `AddProduct.AddedWellFormed` | app/add-product/page.tsx:27-31 | adding keeps the list free of duplicates, with every entry trimmed and non-empty |
| `AddProduct.RemoveAtWellFormed` | app/add-product/page.tsx:34-36 | removing keeps the list free of duplicates, with every entry trimmed and non-empty |
| `AddProduct.AddedIdempotent` | app/add-product/page.tsx:28 | adding the same text twice in a row changes the list only once |
| `AddProduct.RemoveUndoesAdd` | app/add-product/page.tsx:29-35 | removing at the old length after an add restores the previous list, whether or not the add was accepted |
| `AddProduct.ReplayWellFormed` | app/add-product/page.tsx:23-36 | any sequence of adds and removals keeps a well-formed list well-formed |
| `AddProduct.EditsFromEmptyWellFormed` | app/add-product/page.tsx:23 | starting from the initial empty list, every reachable list is well-formed |
| `AddProduct.ChemicalEditor.constructor` | app/add-product/page.tsx:23-24 | the editor starts with an empty list and an empty text field |
| `AddProduct.ChemicalEditor.SetNewChemical` | app/add-product/page.tsx:152 | typing sets the text field and leaves the list alone |
| `AddProduct.ChemicalEditor.AddChemical` | app/add-product/page.tsx:27-32 | the list becomes `Added(list, text)`; the field is cleared on success and kept on rejection; well-formedness is preserved |
| `AddProduct.ChemicalEditor.RemoveChemical` | app/add-product/page.tsx:34-36 | the list becomes `RemoveAt(list, index)`, the text field is unchanged, and well-formedness is preserved |
| `ProductCard.RiskClass` | app/page.tsx:270-276 | the risk-class mapping is total: "risk-high" exactly for High, "risk-medium" exactly for Medium, "risk-low" for anything else |
| `ProductCard.ImageSource` | app/page.tsx:263 | the image is used when present and non-empty, otherwise the placeholder; the source is never empty |
| `ProductCard.ChemicalChips` | app/page.tsx:303-311 | the chips are the first min(2, n) chemicals, a "+(n-2) more" badge appears exactly when n > 2, and chips plus badge count equal n |
| `ProductsPage.CategoryStatsOf` | app/products/page.tsx:18-23 | each key holds that category's count; the four add up to at most the total, and to exactly the total when every category is known |
| `ProductsPage.RiskStatsOf` | app/products/page.tsx:25-29 | High, Medium and Low counts add up to at most the total, and to exactly the total when every risk level is known |
| `ProductsPage.CategoryLabel` | app/products/page.tsx:174 | only the first hyphen becomes a space; every other character stays, and a name without a hyphen is unchanged |
| `CategoriesPage.Info` | app/categories/page.tsx:13-22 | a card carries its id and name, its category's product count, and the number of products with that category and risk High, which is at most the product count |
| `CategoriesPage.Categories` | app/categories/page.tsx:12-53 | the cards are personal care, food and beverages, household and cosmetics, in that order and with the page's names; each carries its category's product count and high-risk count, the latter at most the former |
| `CategoriesPage.TotalHighRisk` | app/categories/page.tsx:56 | `totalHighRisk` is at most `totalProducts` |
| `CategoriesPage.CategoryTotals` | app/categories/page.tsx:18-56 | the cards' high-risk counts add up to at most `totalHighRisk`, which is at most `totalProducts`; both card sums are exact when every category is known |
| `CategoriesPage.InsightBadge` | app/categories/page.tsx:164 | "destructive" exactly when the high-risk count exceeds 5, "secondary" otherwise |
| `CategoriesPage.InsightLabel` | app/categories/page.tsx:160 | the label is the whole name, or the proper prefix that ends just before the first space; it contains no space |
| `HomePage.FeaturedProducts` | app/page.tsx:24 | the first min(8, n) catalogue products, in order |
| `HomePage.CategoryCards` | app/page.tsx:27-64 | the cards are personal care, food & beverages, household and cosmetics, in that order, with the page's names and the fixed risk labels Medium, High, High, Medium; each count is the category's product count, and no card gets the low-risk class |
| `HomePage.HomeStats` | app/page.tsx:66-85 | products analysed is the catalogue length; chemicals identified is the number of different chemical strings listed, and brands covered the number of different brands; distinct chemicals are at most the chemical entries; brands are at most the products and at least one for a non-empty catalogue |
| `AboutPage.Stats` | app/about/page.tsx:21-46 | products analysed, the number of different chemicals and the number of different brands, with the same bounds as the home page, equal to the home page's figures, plus the fixed "1M+" |
| `AboutPage.StatsIgnoreOrder` | app/about/page.tsx:23-35 | reordering the catalogue changes none of the about-page figures |
| `ThemeContext.GetItem` | contexts/theme-context.tsx:21 | `getItem` returns the stored value exactly when the key is present, and nothing otherwise |
| `ThemeContext.StoredTheme` | contexts/theme-context.tsx:21-23 | a stored value is adopted exactly when it is "light" or "dark" |
| `ThemeContext.InitialTheme` | contexts/theme-context.tsx:16-26 | a valid stored theme wins; otherwise the theme is "dark" exactly when the system prefers dark, else the default "light" |
| `ThemeContext.AppliedClasses` | contexts/theme-context.tsx:32-34 | the root gets the theme's class, loses the other theme's class, and keeps every unrelated class |
| `ThemeContext.Persisted` | contexts/theme-context.tsx:35-37 | storage is untouched before mount; after mount "theme" holds the theme and every other key is unchanged |
| `ThemeContext.PersistRoundTrip` | contexts/theme-context.tsx:21-23 | once a theme is persisted, resolving the initial theme yields it whatever the system preference |
| `ThemeContext.UseTheme` | contexts/theme-context.tsx:52-58 | fails with the provider error exactly when no provider value is present, and otherwise returns that value |
| `ThemeContext.ThemeProvider.constructor` | contexts/theme-context.tsx:16-17 | the provider starts with "light", unmounted |
| `ThemeContext.ThemeProvider.InitialSetup` | contexts/theme-context.tsx:20-28 | adopts a valid stored theme, else dark when preferred, else keeps the theme; then it is mounted; storage and classes are untouched |
| `ThemeContext.ThemeProvider.ApplyTheme` | contexts/theme-context.tsx:31-38 | the root classes become `AppliedClasses` of the theme, and storage becomes `Persisted` under the mounted flag |
| `ThemeContext.ThemeProvider.SetTheme` | contexts/theme-context.tsx:40-43 | the exposed setter changes only the theme, and consumers then receive the new theme |
| `ThemeContext.Startup` | contexts/theme-context.tsx:15-38 | after page load the theme is the resolved initial theme, the root carries exactly its class among light/dark, others are kept, storage holds it, and `useTheme` inside the provider returns it |

## Left out

- JSX markup, CSS classes other than the risk classes, icons, animation delays and
  layout. The header, footer, mobile navigation, loading spinner and root layout are
  presentation only.
- Next.js routing: `HandleSelect` returns the route string instead of calling
  `router.push`. The `mounted` hydration gate of the search button
  (components/search.tsx:16-28) is framework plumbing.
- The image upload through `FileReader` and the `setTimeout`-based fake submission of
  the contribution form. These are browser I/O and timers, and nothing is stored.
- The products page's search box, filter menus, sort menu and "Load more" button. They
  have no handlers in the code, so there is no behaviour to model.
- Unicode semantics of `toLowerCase` and `trim`. Only ASCII is modelled.
- The catalogue's real contents. The catalogue is an arbitrary input.
- The detail pages app/product/[id]/page.tsx and app/category/[id]/page.tsx. They hold
  the per-chemical description, category, tag and risk-tier lookup tables,
  `getById`-style lookup and similar-product lists. They are not part of this model.
- The `setTheme` callback inside the context value. `ThemeContextValue` carries only
  the theme, and the setter is the provider's `SetTheme` method.
- React's scheduling in general. Only the page-load order of the two theme effects is
  modelled (`Startup`). Later re-runs are modelled as explicit `SetTheme` and
  `ApplyTheme` calls.
- The `opacity-0` wrapper shown before mount. It is presentation only.
