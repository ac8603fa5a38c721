/** The product card drawn identically by the home page's featured grid and the
    products page's grid: risk badge class, image fallback and chemical chips. */
module ProductCard {
  import opened Wrappers
  import opened JsArray
  import opened Catalog

  const Placeholder: string := "/placeholder.svg?height=400&width=400"
  const ChipLimit: nat := 2

  /** The badge class: "risk-high" for High, "risk-medium" for Medium, "risk-low" for
      every other value, so the mapping is total. */
  function RiskClass(riskLevel: string): (cls: string)
    ensures cls == "risk-high" <==> riskLevel == High
    ensures cls == "risk-medium" <==> riskLevel == Medium
    ensures cls == "risk-low" <==> riskLevel != High && riskLevel != Medium
  {
    if riskLevel == High then "risk-high" else if riskLevel == Medium then "risk-medium" else "risk-low"
  }

  /** `product.image || placeholder`: an absent or empty image falls back to the
      placeholder, so the source is never empty. */
  function ImageSource(image: Option<string>): (src: string)
    ensures image.Some? && image.value != "" ==> src == image.value
    ensures image.None? || image.value == "" ==> src == Placeholder
    ensures src != ""
  {
    match image
    case Some(s) => if s != "" then s else Placeholder
    case None => Placeholder
  }

  /** The chips shown for a product's chemicals, and the "+N more" badge if any. */
  datatype Chips = Chips(shown: seq<string>, more: Option<nat>)

  function MoreCount(chips: Chips): nat
  {
    match chips.more
    case Some(n) => n
    case None => 0
  }

  /** `slice(0, 2)` of the chemicals, plus "+(n-2) more" exactly when there are more than
      two; the chips and the badge account for every chemical. */
  function ChemicalChips(chemicals: seq<string>): (chips: Chips)
    ensures chips.shown == chemicals[..Min(ChipLimit, |chemicals|)]
    ensures chips.more.Some? <==> |chemicals| > ChipLimit
    ensures |chips.shown| + MoreCount(chips) == |chemicals|
  {
    var n := |chemicals|;
    Chips(Take(chemicals, ChipLimit), if n > ChipLimit then Some(n - ChipLimit) else None)
  }
}
