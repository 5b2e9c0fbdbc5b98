/** The incentive classification of the exploratory analysis: two Yes/No
    columns, "Discount Applied" and "Promo Code Used", mapped to one of four
    incentive labels. Only the exact text "Yes" counts as used. */
module Incentives {

  /** A cell of a flag column: its text, or a missing value. */
  datatype FlagValue = Text(s: string) | Missing

  /** The only value that counts as a used incentive. */
  predicate IsYes(v: FlagValue)
  {
    v == Text("Yes")
  }

  /** The four labels, in the order of the plot's categories. */
  const Categories: seq<string> := ["Used Both", "Used Discount Only", "Used Promo Only", "Used Neither"]

  /** The row-wise classifier: both flags first, then discount alone, then promo alone. */
  function IncentiveType(discount: FlagValue, promo: FlagValue): (kind: string)
    ensures kind in Categories
  {
    if IsYes(discount) && IsYes(promo) then "Used Both"
    else if IsYes(discount) then "Used Discount Only"
    else if IsYes(promo) then "Used Promo Only"
    else "Used Neither"
  }

  /** Reference definition: the position of a flag pair in `Categories`. */
  function CategoryIndex(discountUsed: bool, promoUsed: bool): (i: nat)
    ensures i < |Categories|
  {
    (if discountUsed then 0 else 2) + (if promoUsed then 0 else 1)
  }

  /** The classifier picks the category of the two flags' truth values. */
  lemma IncentiveTypeIsCategory(discount: FlagValue, promo: FlagValue)
    ensures IncentiveType(discount, promo) == Categories[CategoryIndex(IsYes(discount), IsYes(promo))]
  {
  }

  /** Each label, with both directions of its condition. */
  lemma LabelConditions(discount: FlagValue, promo: FlagValue)
    ensures IncentiveType(discount, promo) == "Used Both" <==> IsYes(discount) && IsYes(promo)
    ensures IncentiveType(discount, promo) == "Used Discount Only" <==> IsYes(discount) && !IsYes(promo)
    ensures IncentiveType(discount, promo) == "Used Promo Only" <==> !IsYes(discount) && IsYes(promo)
    ensures IncentiveType(discount, promo) == "Used Neither" <==> !IsYes(discount) && !IsYes(promo)
  {
  }

  /** Whether a label says the discount was used. */
  function DiscountUsed(kind: string): bool
  {
    kind == "Used Both" || kind == "Used Discount Only"
  }

  /** Whether a label says the promo code was used. */
  function PromoUsed(kind: string): bool
  {
    kind == "Used Both" || kind == "Used Promo Only"
  }

  /** The label loses nothing but the spelling of non-"Yes" values: both flags'
      truth values can be read back from it. */
  lemma LabelRoundTrip(discount: FlagValue, promo: FlagValue)
    ensures DiscountUsed(IncentiveType(discount, promo)) == IsYes(discount)
    ensures PromoUsed(IncentiveType(discount, promo)) == IsYes(promo)
  {
  }

  /** Every category is reached, and a category determines the flags' truth values. */
  lemma CategoriesReached(kind: string)
    requires kind in Categories
    ensures IncentiveType(if DiscountUsed(kind) then Text("Yes") else Missing,
                          if PromoUsed(kind) then Text("Yes") else Missing) == kind
  {
  }

  /** Only the exact text counts: lower case, a padded value and a missing value do not. */
  lemma OnlyExactYes()
    ensures IncentiveType(Text("yes"), Text("Yes")) == "Used Promo Only"
    ensures IncentiveType(Text("Yes "), Missing) == "Used Neither"
    ensures IncentiveType(Missing, Missing) == "Used Neither"
  {
  }
}
