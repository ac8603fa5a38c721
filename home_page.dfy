/** The home page: the featured-products grid, the category cards and the stats band. */
module HomePage {
  import opened JsArray
  import opened Catalog
  import ProductCard

  const FeaturedLimit: nat := 8

  /** `productsData.slice(0, 8)`: the first eight products, or all of them when there are
      fewer, in catalogue order. */
  function FeaturedProducts(c: seq<Product>): (r: seq<Product>)
    ensures |r| == Min(FeaturedLimit, |c|)
    ensures r == c[..|r|]
  {
    Take(c, FeaturedLimit)
  }

  /** A category card: its id, its product count and the risk label printed on it. */
  datatype CategoryCard = CategoryCard(id: string, name: string, productCount: nat, riskLevel: string)

  /** The four category cards, in page order, with the names and fixed risk labels the
      page prints. Each card's count is the number of products of its category, and no
      card carries the low-risk class. */
  function CategoryCards(c: seq<Product>): (r: seq<CategoryCard>)
    ensures |r| == 4
    ensures [r[0].id, r[1].id, r[2].id, r[3].id] == [PersonalCare, FoodBeverages, Household, Cosmetics]
    ensures [r[0].name, r[1].name, r[2].name, r[3].name]
            == ["Personal Care", "Food & Beverages", "Household Products", "Cosmetics"]
    ensures [r[0].riskLevel, r[1].riskLevel, r[2].riskLevel, r[3].riskLevel] == [Medium, High, High, Medium]
    ensures forall k :: 0 <= k < 4 ==> KnownCategory(r[k].id) && r[k].productCount == CategoryCount(c, r[k].id)
    ensures forall k :: 0 <= k < 4 ==> ProductCard.RiskClass(r[k].riskLevel) != "risk-low"
  {
    [ CategoryCard(PersonalCare, "Personal Care", CategoryCount(c, PersonalCare), Medium),
      CategoryCard(FoodBeverages, "Food & Beverages", CategoryCount(c, FoodBeverages), High),
      CategoryCard(Household, "Household Products", CategoryCount(c, Household), High),
      CategoryCard(Cosmetics, "Cosmetics", CategoryCount(c, Cosmetics), Medium) ]
  }

  datatype Stats = Stats(productsAnalyzed: nat, chemicalsIdentified: nat, brandsCovered: nat)

  /** The stats band: products analysed, how many different chemicals and how many
      different brands the catalogue holds. There are never more distinct chemicals than
      chemical entries, nor more brands than products, and a non-empty catalogue covers
      at least one brand. */
  function HomeStats(c: seq<Product>): (s: Stats)
    ensures s.productsAnalyzed == |c|
    ensures s.chemicalsIdentified == |ChemicalSet(c)| && s.brandsCovered == |BrandSet(c)|
    ensures s.chemicalsIdentified <= |AllChemicals(c)|
    ensures s.brandsCovered <= s.productsAnalyzed
    ensures |c| > 0 ==> s.brandsCovered >= 1
  {
    ChemicalsIdentifiedBounds(c);
    BrandsCoveredBounds(c);
    Stats(|c|, ChemicalsIdentified(c), BrandsCovered(c))
  }
}
