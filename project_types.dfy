/** The `Project` record of the portfolio and its category tags. */
module ProjectTypes {

  /** The three category tags a project may carry. */
  datatype Category = UiUx | Branding | ArtDirection
  {
    /** The label under which the category is stored and shown. */
    function Label(): (r: string)
      ensures r != "" && r != ALL
    {
      match this
      case UiUx => "UI/UX"
      case Branding => "品牌设计"
      case ArtDirection => "艺术指导"
    }
  }

  /** The filter label that shows every project. */
  const ALL: string := "全部"

  datatype Project = Project(id: string, title: string, category: Category, imageUrl: string, year: string)

  /** Distinct categories have distinct labels, so a label names one category. */
  lemma LabelInjective(c: Category, d: Category)
    ensures c.Label() == d.Label() <==> c == d
  {
  }
}
