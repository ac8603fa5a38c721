/** The "All Products" page: per-category and per-risk counts, and the category text
    on each card. */
module ProductsPage {
  import opened JsString
  import opened Catalog

  datatype CategoryStats = CategoryStats(personalCare: nat, foodBeverages: nat, household: nat, cosmetics: nat)

  datatype RiskStats = RiskStats(high: nat, medium: nat, low: nat)

  /** `categoryStats`: each key holds the number of products of that category; together
      they never exceed the catalogue, and cover it when all categories are known. */
  function CategoryStatsOf(c: seq<Product>): (s: CategoryStats)
    ensures s.personalCare == CategoryCount(c, PersonalCare) && s.foodBeverages == CategoryCount(c, FoodBeverages)
    ensures s.household == CategoryCount(c, Household) && s.cosmetics == CategoryCount(c, Cosmetics)
    ensures s.personalCare + s.foodBeverages + s.household + s.cosmetics <= |c|
    ensures (forall k :: 0 <= k < |c| ==> KnownCategory(c[k].category)) ==>
              s.personalCare + s.foodBeverages + s.household + s.cosmetics == |c|
  {
    CategoryCountsSum(c);
    CategoryStats(
      CategoryCount(c, PersonalCare), CategoryCount(c, FoodBeverages),
      CategoryCount(c, Household), CategoryCount(c, Cosmetics))
  }

  /** `riskStats`: High, Medium and Low counts; together they never exceed the total
      shown beside them, and equal it when every risk level is one of the three. */
  function RiskStatsOf(c: seq<Product>): (s: RiskStats)
    ensures s.high == RiskCount(c, High) && s.medium == RiskCount(c, Medium) && s.low == RiskCount(c, Low)
    ensures s.high + s.medium + s.low <= |c|
    ensures (forall k :: 0 <= k < |c| ==> KnownRiskLevel(c[k].riskLevel)) ==> s.high + s.medium + s.low == |c|
  {
    RiskCountsSum(c);
    RiskStats(RiskCount(c, High), RiskCount(c, Medium), RiskCount(c, Low))
  }

  /** `category.replace("-", " ")`: only the first hyphen becomes a space; every other
      character, later hyphens included, stays where it is. */
  function CategoryLabel(category: string): (text: string)
    ensures |text| == |category|
    ensures '-' !in category ==> text == category
    ensures '-' in category ==>
              text[IndexOf(category, '-')] == ' ' &&
              forall k :: 0 <= k < |category| && k != IndexOf(category, '-') ==> text[k] == category[k]
  {
    ReplaceFirst(category, '-', ' ')
  }
}
