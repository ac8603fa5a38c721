/** The search dialog of the site header: a case-insensitive substring filter over the
    catalogue, its first-ten display cap, and the dialog's `open`/`query` state. */
module Search {
  import opened JsString
  import opened JsArray
  import opened Catalog

  const DisplayLimit: nat := 10

  /** A product matches when the lower-cased query occurs in its lower-cased name, brand,
      or one of its lower-cased chemical entries. The empty query matches every product,
      and a product matches only when one of those fields is at least as long as the
      query. */
  predicate Matches(p: Product, query: string)
    ensures query == "" ==> Matches(p, query)
    ensures Matches(p, query) ==>
              |query| <= |p.name| || |query| <= |p.brand|
              || exists k :: 0 <= k < |p.harmfulChemicals| && |query| <= |p.harmfulChemicals[k]|
  {
    var term := Lower(query);
    Includes(Lower(p.name), term)
    || Includes(Lower(p.brand), term)
    || exists k :: 0 <= k < |p.harmfulChemicals| && Includes(Lower(p.harmfulChemicals[k]), term)
  }

  /** `filteredProducts`: the catalogue filtered by `Matches`, catalogue order kept. */
  function FilteredProducts(c: seq<Product>, query: string): (r: seq<Product>)
    ensures |r| <= |c|
  {
    Filter(c, (p: Product) => Matches(p, query))
  }

  /** What the dialog shows below the input. */
  datatype DialogBody =
    | Prompt                       // "Start typing to search ..."
    | NoResults(query: string)     // "No products found for <query>"
    | Results(items: seq<Product>) // at most ten matches, each clickable

  /** The dialog body for a query: the prompt for the empty query; otherwise the first
      ten matches, or the no-results message echoing the query when nothing matches. */
  function Body(c: seq<Product>, query: string): (b: DialogBody)
    ensures b.Prompt? <==> query == ""
    ensures b.NoResults? <==> query != "" && FilteredProducts(c, query) == []
    ensures b.NoResults? ==> b.query == query
    ensures b.Results? ==>
              var m := FilteredProducts(c, query);
              |b.items| == Min(DisplayLimit, |m|) && b.items == m[..|b.items|] && b.items != []
  {
    if query == "" then Prompt
    else
      var m := FilteredProducts(c, query);
      if |m| > 0 then Results(Take(m, DisplayLimit)) else NoResults(query)
  }

  /** Badge variant of a result row: "destructive" for High, "secondary" for Medium,
      "outline" for anything else. */
  function ResultBadge(riskLevel: string): (v: string)
    ensures v == "destructive" <==> riskLevel == High
    ensures v == "secondary" <==> riskLevel == Medium
    ensures v == "outline" <==> riskLevel != High && riskLevel != Medium
  {
    if riskLevel == High then "destructive" else if riskLevel == Medium then "secondary" else "outline"
  }

  /** A product is found exactly when it is in the catalogue and the lower-cased query
      occurs in its lower-cased name, brand or some lower-cased chemical. */
  lemma SearchFinds(c: seq<Product>, query: string, p: Product)
    ensures p in FilteredProducts(c, query) <==>
              p in c &&
              (Includes(Lower(p.name), Lower(query))
               || Includes(Lower(p.brand), Lower(query))
               || exists x :: x in p.harmfulChemicals && Includes(Lower(x), Lower(query)))
  {
    FilterKeeps(c, (p: Product) => Matches(p, query), p);
    assert (exists x :: x in p.harmfulChemicals && Includes(Lower(x), Lower(query)))
       <==> exists k :: 0 <= k < |p.harmfulChemicals| && Includes(Lower(p.harmfulChemicals[k]), Lower(query));
  }

  /** The matches come in catalogue order: a filter, not a sort. */
  lemma SearchKeepsOrder(c: seq<Product>, query: string)
    ensures Subsequence(FilteredProducts(c, query), c)
  {
    FilterIsSubsequence(c, (p: Product) => Matches(p, query));
  }

  /** Queries that lower-case to the same string find the same products; in particular
      a query and its lower-cased form do. */
  lemma SearchIgnoresCase(c: seq<Product>, q1: string, q2: string)
    requires Lower(q1) == Lower(q2)
    ensures FilteredProducts(c, q1) == FilteredProducts(c, q2)
    ensures FilteredProducts(c, q1) == FilteredProducts(c, Lower(q1))
  {
    LowerIdempotent(q1);
    FilterCongruent(c, (p: Product) => Matches(p, q1), (p: Product) => Matches(p, q2));
    FilterCongruent(c, (p: Product) => Matches(p, q1), (p: Product) => Matches(p, Lower(q1)));
  }

  /** The empty query matches every product. */
  lemma EmptyQueryMatchesAll(c: seq<Product>)
    ensures FilteredProducts(c, "") == c
  {
    forall k | 0 <= k < |c| ensures Matches(c[k], "") {
      IncludesEmptyAndSelf(Lower(c[k].name));
    }
    FilterAll(c, (p: Product) => Matches(p, ""));
  }

  /** Typing more only narrows the result: when the lower-cased old query occurs in the
      lower-cased new one, the new matches are a subsequence of the old matches. */
  lemma LongerQueryNarrows(c: seq<Product>, q1: string, q2: string)
    requires Includes(Lower(q2), Lower(q1))
    ensures Subsequence(FilteredProducts(c, q2), FilteredProducts(c, q1))
    ensures |FilteredProducts(c, q2)| <= |FilteredProducts(c, q1)|
  {
    forall k | 0 <= k < |c| && Matches(c[k], q2) ensures Matches(c[k], q1) {
      var p := c[k];
      if Includes(Lower(p.name), Lower(q2)) {
        IncludesTransitive(Lower(q1), Lower(q2), Lower(p.name));
      } else if Includes(Lower(p.brand), Lower(q2)) {
        IncludesTransitive(Lower(q1), Lower(q2), Lower(p.brand));
      } else {
        var j :| 0 <= j < |p.harmfulChemicals| && Includes(Lower(p.harmfulChemicals[j]), Lower(q2));
        IncludesTransitive(Lower(q1), Lower(q2), Lower(p.harmfulChemicals[j]));
      }
    }
    FilterMonotone(c, (p: Product) => Matches(p, q2), (p: Product) => Matches(p, q1));
  }

  /** Searching for a catalogue product's own name, its brand, or any one of its
      chemicals finds it; a product with no chemicals is still found by name and brand. */
  lemma SearchFindsOwnFields(c: seq<Product>, p: Product)
    requires p in c
    ensures p in FilteredProducts(c, p.name)
    ensures p in FilteredProducts(c, p.brand)
    ensures forall x :: x in p.harmfulChemicals ==> p in FilteredProducts(c, x)
  {
    IncludesEmptyAndSelf(Lower(p.name));
    IncludesEmptyAndSelf(Lower(p.brand));
    SearchFinds(c, p.name, p);
    SearchFinds(c, p.brand, p);
    forall x | x in p.harmfulChemicals
      ensures p in FilteredProducts(c, x)
    {
      IncludesEmptyAndSelf(Lower(x));
      SearchFinds(c, x, p);
    }
  }

  /** The dialog's own state: whether it is open and what is typed. */
  class SearchDialog {
    var open: bool
    var query: string

    constructor ()
      ensures !open && query == ""
    {
      open := false;
      query := "";
    }

    /** `onOpenChange`: the trigger button or closing the dialog. */
    method SetOpen(value: bool)
      modifies this
      ensures open == value && query == old(query)
    {
      open := value;
    }

    /** The input's `onChange`. */
    method SetQuery(text: string)
      modifies this
      ensures query == text && open == old(open)
      ensures forall c :: View(c) == Body(c, text)
    {
      query := text;
    }

    /** The clear button shown while a query is typed. */
    method ClearQuery()
      modifies this
      ensures query == "" && open == old(open)
      ensures forall c :: View(c) == Prompt
    {
      query := "";
    }

    /** Choosing a result closes the dialog, clears the query, and yields the product
        page to navigate to. */
    method HandleSelect(productId: string) returns (route: string)
      modifies this
      ensures !open && query == ""
      ensures forall c :: View(c) == Prompt
      ensures route == "/product/" + productId
    {
      open := false;
      query := "";
      route := "/product/" + productId;
    }

    /** What the open dialog shows for the catalogue `c` and the current query. */
    function View(c: seq<Product>): DialogBody
      reads this
    {
      Body(c, query)
    }
  }
}
