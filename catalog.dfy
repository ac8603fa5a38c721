/** The product catalogue that every page reads (`productsData`), and the counts and
    distinct-value aggregates that several pages compute from it with the same formulas. */
module Catalog {
  import opened Wrappers
  import opened JsArray

  /** One catalogue record. `category` and `riskLevel` are plain strings, compared by
      equality; `image` is absent (`undefined`) or a possibly empty string. */
  datatype Product = Product(
    id: string,
    name: string,
    brand: string,
    category: string,
    riskLevel: string,
    harmfulChemicals: seq<string>,
    image: Option<string>)

  const PersonalCare: string := "personal-care"
  const FoodBeverages: string := "food-beverages"
  const Household: string := "household"
  const Cosmetics: string := "cosmetics"

  const High: string := "High"
  const Medium: string := "Medium"
  const Low: string := "Low"

  predicate KnownCategory(cat: string)
  {
    cat == PersonalCare || cat == FoodBeverages || cat == Household || cat == Cosmetics
  }

  predicate KnownRiskLevel(level: string)
  {
    level == High || level == Medium || level == Low
  }

  /** `productsData.filter((p) => p.category === cat)` */
  function InCategory(c: seq<Product>, cat: string): (r: seq<Product>)
    ensures forall p :: p in r ==> p.category == cat
  {
    Filter(c, (p: Product) => p.category == cat)
  }

  /** `productsData.filter((p) => p.riskLevel === level)` */
  function WithRisk(c: seq<Product>, level: string): (r: seq<Product>)
    ensures forall p :: p in r ==> p.riskLevel == level
  {
    Filter(c, (p: Product) => p.riskLevel == level)
  }

  function CategoryCount(c: seq<Product>, cat: string): (n: nat)
    ensures n <= |c|
  {
    |InCategory(c, cat)|
  }

  function RiskCount(c: seq<Product>, level: string): (n: nat)
    ensures n <= |c|
  {
    |WithRisk(c, level)|
  }

  /** `productsData.filter((p) => p.category === cat && p.riskLevel === "High").length`:
      never more than the products of that category, nor than all high-risk products. */
  function HighRiskInCategory(c: seq<Product>, cat: string): (n: nat)
    ensures n <= CategoryCount(c, cat)
    ensures n <= RiskCount(c, High)
  {
    var both := (p: Product) => p.category == cat && p.riskLevel == High;
    FilterMonotone(c, both, (p: Product) => p.category == cat);
    FilterMonotone(c, both, (p: Product) => p.riskLevel == High);
    |Filter(c, both)|
  }

  /** `productsData.flatMap((p) => p.harmfulChemicals)`: every chemical entry, product by
      product, in catalogue order. */
  function AllChemicals(c: seq<Product>): (r: seq<string>)
    ensures forall x :: x in r <==> exists p :: p in c && x in p.harmfulChemicals
  {
    if |c| == 0 then []
    else
      var rest := AllChemicals(c[1..]);
      assert forall p :: p in c <==> p == c[0] || p in c[1..];
      c[0].harmfulChemicals + rest
  }

  /** `productsData.map((p) => p.brand)` */
  function Brands(c: seq<Product>): (r: seq<string>)
    ensures |r| == |c|
    ensures forall k :: 0 <= k < |c| ==> r[k] == c[k].brand
  {
    if |c| == 0 then [] else [c[0].brand] + Brands(c[1..])
  }

  /** Every chemical string some product lists, each once. */
  ghost function ChemicalSet(c: seq<Product>): set<string>
  {
    set p, x | p in c && x in p.harmfulChemicals :: x
  }

  /** Every brand some product has, each once. */
  ghost function BrandSet(c: seq<Product>): set<string>
  {
    set p | p in c :: p.brand
  }

  /** "Chemicals Identified": `Array.from(new Set(...flatMap...)).length` is the number of
      different chemical strings listed anywhere in the catalogue. */
  function ChemicalsIdentified(c: seq<Product>): (n: nat)
    ensures n == |ChemicalSet(c)|
  {
    DistinctChemicals(c);
    |Distinct(AllChemicals(c))|
  }

  /** "Brands Covered": `Array.from(new Set(...map(brand)...)).length` is the number of
      different brands in the catalogue. */
  function BrandsCovered(c: seq<Product>): (n: nat)
    ensures n == |BrandSet(c)|
  {
    DistinctBrands(c);
    |Distinct(Brands(c))|
  }

  lemma DistinctChemicals(c: seq<Product>)
    ensures Distinct(AllChemicals(c)) == ChemicalSet(c)
  {
    forall y ensures y in Distinct(AllChemicals(c)) <==> y in ChemicalSet(c) {
      if y in ChemicalSet(c) {
        var p, x :| p in c && x in p.harmfulChemicals && y == x;
        assert y in AllChemicals(c);
      }
    }
  }

  lemma DistinctBrands(c: seq<Product>)
    ensures Distinct(Brands(c)) == BrandSet(c)
  {
    var b := Brands(c);
    forall y ensures y in Distinct(b) <==> y in BrandSet(c) {
      if y in Distinct(b) {
        var k :| 0 <= k < |b| && b[k] == y;
        assert c[k] in c;
      }
      if y in BrandSet(c) {
        var p :| p in c && p.brand == y;
        var k :| 0 <= k < |c| && c[k] == p;
        assert b[k] == y;
      }
    }
  }

  /** A category filter has exactly the products of that category; different categories
      select disjoint products. */
  lemma CategoryFilter(c: seq<Product>, cat: string, p: Product)
    ensures p in InCategory(c, cat) <==> p in c && p.category == cat
  {
    FilterKeeps(c, (p: Product) => p.category == cat, p);
  }

  lemma CategoryFiltersDisjoint(c: seq<Product>, x: string, y: string)
    requires x != y
    ensures forall p :: p in InCategory(c, x) ==> p !in InCategory(c, y)
  {
  }

  /** The four category counts never add up to more than the catalogue, and add up to it
      exactly when every product is in one of the four categories. */
  lemma {:induction false} CategoryCountsSum(c: seq<Product>)
    ensures CategoryCount(c, PersonalCare) + CategoryCount(c, FoodBeverages)
            + CategoryCount(c, Household) + CategoryCount(c, Cosmetics) <= |c|
    ensures (forall k :: 0 <= k < |c| ==> KnownCategory(c[k].category)) <==>
            CategoryCount(c, PersonalCare) + CategoryCount(c, FoodBeverages)
            + CategoryCount(c, Household) + CategoryCount(c, Cosmetics) == |c|
  {
    if |c| > 0 {
      CategoryCountsSum(c[1..]);
    }
  }

  /** High + Medium + Low never exceeds the catalogue, with equality exactly when every
      risk level is one of the three. */
  lemma {:induction false} RiskCountsSum(c: seq<Product>)
    ensures RiskCount(c, High) + RiskCount(c, Medium) + RiskCount(c, Low) <= |c|
    ensures (forall k :: 0 <= k < |c| ==> KnownRiskLevel(c[k].riskLevel)) <==>
            RiskCount(c, High) + RiskCount(c, Medium) + RiskCount(c, Low) == |c|
  {
    if |c| > 0 {
      RiskCountsSum(c[1..]);
    }
  }

  /** The high-risk counts of the four categories never exceed the total number of
      high-risk products, with equality when every product is in one of the four. */
  lemma {:induction false} HighRiskCountsSum(c: seq<Product>)
    ensures HighRiskInCategory(c, PersonalCare) + HighRiskInCategory(c, FoodBeverages)
            + HighRiskInCategory(c, Household) + HighRiskInCategory(c, Cosmetics) <= RiskCount(c, High)
    ensures (forall k :: 0 <= k < |c| ==> KnownCategory(c[k].category)) ==>
            HighRiskInCategory(c, PersonalCare) + HighRiskInCategory(c, FoodBeverages)
            + HighRiskInCategory(c, Household) + HighRiskInCategory(c, Cosmetics) == RiskCount(c, High)
  {
    if |c| > 0 {
      HighRiskCountsSum(c[1..]);
    }
  }

  /** The distinct chemicals never outnumber the chemical entries, and every chemical of
      every product is counted. */
  lemma ChemicalsIdentifiedBounds(c: seq<Product>)
    ensures ChemicalsIdentified(c) <= |AllChemicals(c)|
    ensures forall p, x :: p in c && x in p.harmfulChemicals ==> x in Distinct(AllChemicals(c))
  {
    DistinctSize(AllChemicals(c));
  }

  /** Listing a chemical a second time for a product that already lists it leaves the
      count of distinct chemicals unchanged. */
  lemma ChemicalsIdentifiedIgnoresRepeats(c: seq<Product>, i: nat, x: string)
    requires i < |c| && x in c[i].harmfulChemicals
    ensures ChemicalsIdentified(c[i := c[i].(harmfulChemicals := c[i].harmfulChemicals + [x])])
            == ChemicalsIdentified(c)
  {
    var d := c[i := c[i].(harmfulChemicals := c[i].harmfulChemicals + [x])];
    forall y ensures y in AllChemicals(d) <==> y in AllChemicals(c) {
      if y in AllChemicals(d) {
        var p :| p in d && y in p.harmfulChemicals;
        var k :| 0 <= k < |d| && d[k] == p;
        if k == i {
          assert y in c[i].harmfulChemicals;
        } else {
          assert c[k] == p;
        }
      }
      if y in AllChemicals(c) {
        var p :| p in c && y in p.harmfulChemicals;
        var k :| 0 <= k < |c| && c[k] == p;
        if k == i {
          assert y in d[i].harmfulChemicals;
        } else {
          assert d[k] == p;
        }
      }
    }
    assert Distinct(AllChemicals(d)) == Distinct(AllChemicals(c));
  }

  /** Reordering the catalogue changes neither distinct count. */
  lemma AggregatesIgnoreOrder(c: seq<Product>, d: seq<Product>)
    requires multiset(c) == multiset(d)
    ensures ChemicalsIdentified(c) == ChemicalsIdentified(d)
    ensures BrandsCovered(c) == BrandsCovered(d)
  {
    assert forall p :: p in c <==> p in d by {
      forall p ensures p in c <==> p in d {
        assert p in c <==> p in multiset(c);
        assert p in d <==> p in multiset(d);
      }
    }
    assert Distinct(AllChemicals(c)) == Distinct(AllChemicals(d));
    forall b ensures b in Brands(c) <==> b in Brands(d) {
      if b in Brands(c) {
        var k :| 0 <= k < |c| && Brands(c)[k] == b;
        assert c[k] in c;
        var j :| 0 <= j < |d| && d[j] == c[k];
        assert Brands(d)[j] == b;
      }
      if b in Brands(d) {
        var k :| 0 <= k < |d| && Brands(d)[k] == b;
        assert d[k] in d;
        var j :| 0 <= j < |c| && c[j] == d[k];
        assert Brands(c)[j] == b;
      }
    }
    assert Distinct(Brands(c)) == Distinct(Brands(d));
  }

  /** There are never more brands than products, and a non-empty catalogue has one. */
  lemma BrandsCoveredBounds(c: seq<Product>)
    ensures BrandsCovered(c) <= |c|
    ensures |c| > 0 ==> BrandsCovered(c) >= 1
  {
    DistinctSize(Brands(c));
    if |c| > 0 {
      assert Brands(c)[0] in Distinct(Brands(c));
    }
  }
}
