/** The about page's stats block. */
module AboutPage {
  import opened Catalog
  import HomePage

  datatype AboutStats = AboutStats(
    productsAnalyzed: nat, chemicalsIdentified: nat, brandsCovered: nat, livesImpacted: string)

  /** Products analysed, distinct chemicals and distinct brands, computed by the same
      formulas as the home page, so the two pages always show the same three figures;
      the fourth figure is the fixed text "1M+". */
  function Stats(c: seq<Product>): (s: AboutStats)
    ensures s.productsAnalyzed == |c|
    ensures s.chemicalsIdentified == |ChemicalSet(c)| && s.brandsCovered == |BrandSet(c)|
    ensures s.brandsCovered <= |c| && (|c| > 0 ==> s.brandsCovered >= 1)
    ensures s.chemicalsIdentified <= |AllChemicals(c)|
    ensures var h := HomePage.HomeStats(c);
            h.productsAnalyzed == s.productsAnalyzed && h.chemicalsIdentified == s.chemicalsIdentified
            && h.brandsCovered == s.brandsCovered
    ensures s.livesImpacted == "1M+"
  {
    ChemicalsIdentifiedBounds(c);
    BrandsCoveredBounds(c);
    AboutStats(|c|, ChemicalsIdentified(c), BrandsCovered(c), "1M+")
  }

  /** Reordering the catalogue changes none of the figures. */
  lemma StatsIgnoreOrder(c: seq<Product>, d: seq<Product>)
    requires multiset(c) == multiset(d)
    ensures Stats(c) == Stats(d)
  {
    assert |c| == |multiset(c)| == |multiset(d)| == |d|;
    AggregatesIgnoreOrder(c, d);
  }
}
