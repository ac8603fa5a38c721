/** The categories page: a card per category with its product and high-risk counts, the
    page totals, and the "Category Insights" strip. */
module CategoriesPage {
  import opened JsString
  import opened Catalog

  datatype CategoryInfo = CategoryInfo(id: string, name: string, productCount: nat, highRiskCount: nat)

  /** A category card: its id and name, its number of products, and how many of those
      have risk level High. */
  function Info(c: seq<Product>, id: string, name: string): (info: CategoryInfo)
    ensures info.id == id && info.name == name && info.productCount == CategoryCount(c, id)
    ensures info.highRiskCount == HighRiskInCategory(c, id)
    ensures info.highRiskCount <= info.productCount
  {
    CategoryInfo(id, name, CategoryCount(c, id), HighRiskInCategory(c, id))
  }

  const PersonalCareName: string := "Personal Care Products"
  const FoodBeveragesName: string := "Food & Beverages"
  const HouseholdName: string := "Household Products"
  const CosmeticsName: string := "Cosmetics"

  /** The four category cards, in page order. */
  function Categories(c: seq<Product>): (r: seq<CategoryInfo>)
    ensures |r| == 4
    ensures [r[0].id, r[1].id, r[2].id, r[3].id] == [PersonalCare, FoodBeverages, Household, Cosmetics]
    ensures [r[0].name, r[1].name, r[2].name, r[3].name]
            == [PersonalCareName, FoodBeveragesName, HouseholdName, CosmeticsName]
    ensures forall k :: 0 <= k < 4 ==> KnownCategory(r[k].id) && r[k].productCount == CategoryCount(c, r[k].id)
    ensures forall k :: 0 <= k < 4 ==> r[k].highRiskCount == HighRiskInCategory(c, r[k].id)
    ensures forall k :: 0 <= k < 4 ==> r[k].highRiskCount <= r[k].productCount
  {
    [ Info(c, PersonalCare, PersonalCareName),
      Info(c, FoodBeverages, FoodBeveragesName),
      Info(c, Household, HouseholdName),
      Info(c, Cosmetics, CosmeticsName) ]
  }

  /** `totalHighRisk`. */
  function TotalHighRisk(c: seq<Product>): (n: nat)
    ensures n <= |c|
  {
    RiskCount(c, High)
  }

  /** The cards' high-risk counts add up to at most the page's high-risk total, which is
      at most the product total; the first is exact when every product is in one of the
      four categories. */
  lemma CategoryTotals(c: seq<Product>)
    ensures var r := Categories(c);
            r[0].highRiskCount + r[1].highRiskCount + r[2].highRiskCount + r[3].highRiskCount <= TotalHighRisk(c)
            && TotalHighRisk(c) <= |c|
            && r[0].productCount + r[1].productCount + r[2].productCount + r[3].productCount <= |c|
    ensures (forall k :: 0 <= k < |c| ==> KnownCategory(c[k].category)) ==>
            var r := Categories(c);
            r[0].highRiskCount + r[1].highRiskCount + r[2].highRiskCount + r[3].highRiskCount == TotalHighRisk(c)
            && r[0].productCount + r[1].productCount + r[2].productCount + r[3].productCount == |c|
  {
    HighRiskCountsSum(c);
    CategoryCountsSum(c);
  }

  /** The insight badge is "destructive" exactly when more than five products of the
      category are high-risk. */
  function InsightBadge(highRiskCount: nat): (variant: string)
    ensures variant == "destructive" <==> highRiskCount > 5
    ensures variant == "secondary" <==> highRiskCount <= 5
  {
    if highRiskCount > 5 then "destructive" else "secondary"
  }

  /** `category.name.split(" ")[0]`. */
  function InsightLabel(name: string): (text: string)
    ensures name == text || (text < name && name[|text|] == ' ')
    ensures ' ' !in text
  {
    FirstWord(name)
  }
}
