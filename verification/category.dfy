/**
 * The closed category enumeration of a gallery image (`CategoryType`, the
 * union of six string literals in src/types/gallery.ts).
 */
module Categories {
  import opened Wrappers

  datatype Category =
    | CctvSecurity
    | NetworkFiber
    | SoftwareAi
    | OnSiteWork
    | TeamTraining
    | Uncategorized

  /** The string literal that stands for each member of the union type. */
  function Label(c: Category): string {
    match c
    case CctvSecurity => "CCTV & Security"
    case NetworkFiber => "Network & Fiber"
    case SoftwareAi => "Software & AI"
    case OnSiteWork => "On-site Work"
    case TeamTraining => "Team & Training"
    case Uncategorized => "Uncategorized"
  }

  /** The enumeration in the order of the classifier's `validCategories` list. */
  const AllCategories: seq<Category> :=
    [CctvSecurity, NetworkFiber, SoftwareAi, OnSiteWork, TeamTraining, Uncategorized]

  /** `validCategories.includes(s)`: the member whose label is exactly `s`, if any. */
  function FromLabel(s: string): (r: Option<Category>)
    ensures r.Some? ==> Label(r.value) == s
    ensures r.None? ==> forall c: Category :: Label(c) != s
  {
    if s == "CCTV & Security" then Some(CctvSecurity)
    else if s == "Network & Fiber" then Some(NetworkFiber)
    else if s == "Software & AI" then Some(SoftwareAi)
    else if s == "On-site Work" then Some(OnSiteWork)
    else if s == "Team & Training" then Some(TeamTraining)
    else if s == "Uncategorized" then Some(Uncategorized)
    else None
  }

  /** A string is a label of the enumeration. */
  predicate IsLabel(s: string) { FromLabel(s).Some? }

  /** Every member is found again from its label: the labels are distinct. */
  lemma LabelRoundTrip(c: Category)
    ensures FromLabel(Label(c)) == Some(c)
  {
  }

  lemma LabelInjective(c: Category, d: Category)
    ensures Label(c) == Label(d) <==> c == d
  {
    LabelRoundTrip(c);
    LabelRoundTrip(d);
  }
}
