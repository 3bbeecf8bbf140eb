/** The portfolio gallery (components/Portfolio.tsx): an ordered list of
    projects with add, delete-after-confirmation, reset, a category filter
    and a load from the saved slot when the gallery mounts. */
module Portfolio {
  import opened Optional
  import opened Seqs
  import opened ProjectTypes

  /** The built-in demonstration data. */
  const DEFAULT_PROJECTS: seq<Project> := [
    Project("1", "Nebula 金融", UiUx, "https://picsum.photos/seed/nebula/800/600", "2023"),
    Project("2", "Kinetic 品牌", Branding, "https://picsum.photos/seed/kinetic/600/800", "2024"),
    Project("3", "Zenith 建筑", ArtDirection, "https://picsum.photos/seed/zenith/800/800", "2023"),
    Project("4", "Flow 心流", UiUx, "https://picsum.photos/seed/flow/800/600", "2024"),
    Project("5", "Echo 系统", Branding, "https://picsum.photos/seed/echo/600/800", "2022"),
    Project("6", "Mono 杂志", ArtDirection, "https://picsum.photos/seed/mono/800/600", "2023")
  ]

  /** The filter buttons, in display order: "all" first, then one per category. */
  const CATEGORIES: seq<string> := [ALL, "UI/UX", "品牌设计", "艺术指导"]

  /** Year given to a new project whose form year is empty. */
  const DEFAULT_YEAR: string := "2024"

  /** The add-project form (a partial project without an id). */
  datatype Draft = Draft(title: string, category: Category, year: string, imageUrl: string)

  /** The form as it is initially and after every successful add; the year
      is the current calendar year, supplied by the caller. */
  function BlankDraft(currentYear: string): (d: Draft)
    ensures d.title == "" && d.imageUrl == "" && d.category == UiUx && d.year == currentYear
  {
    Draft("", UiUx, currentYear, "")
  }

  /** The project built from a form that passed the add guard. */
  function FromDraft(d: Draft, id: string): (p: Project)
    ensures p.id == id && p.title == d.title && p.category == d.category && p.imageUrl == d.imageUrl
    ensures p.year != ""
    ensures d.year != "" ==> p.year == d.year
    ensures d.year == "" ==> p.year == "2024"
  {
    Project(id, d.title, d.category, d.imageUrl, if d.year == "" then DEFAULT_YEAR else d.year)
  }

  /** The add handler's guard: the form is rejected while its title or its
      image is empty. */
  predicate AddRejected(d: Draft)
  {
    d.title == "" || d.imageUrl == ""
  }

  /** The test `p.id !== id` used when deleting. */
  function OtherId(id: string): Project -> bool
  {
    (p: Project) => p.id != id
  }

  /** The projects left after deleting `id`. */
  function Remaining(ps: seq<Project>, id: string): seq<Project>
  {
    Select(ps, OtherId(id))
  }

  /** The test `p.category === filter` of the filtered view. */
  function InCategory(filter: string): Project -> bool
  {
    (p: Project) => p.category.Label() == filter
  }

  /** The projects shown under `filter`. */
  function Visible(ps: seq<Project>, filter: string): seq<Project>
  {
    if filter == ALL then ps else Select(ps, InCategory(filter))
  }

  /** Deleting removes exactly the projects with that id and keeps the order
      and multiplicity of all others. */
  lemma RemainingSpec(ps: seq<Project>, id: string)
    ensures IsSubsequence(Remaining(ps, id), ps)
    ensures forall i :: 0 <= i < |Remaining(ps, id)| ==> Remaining(ps, id)[i].id != id
    ensures forall p: Project :: p.id != id ==> multiset(Remaining(ps, id))[p] == multiset(ps)[p]
    ensures forall p: Project :: p.id == id ==> multiset(Remaining(ps, id))[p] == 0
  {
    SelectIsSubsequence(ps, OtherId(id));
    forall p: Project
      ensures multiset(Remaining(ps, id))[p] == if p.id != id then multiset(ps)[p] else 0
    {
      SelectCount(ps, OtherId(id), p);
    }
  }

  /** Deleting an id that no project carries changes nothing. */
  lemma RemainingAbsent(ps: seq<Project>, id: string)
    ensures Remaining(ps, id) == ps <==> forall i :: 0 <= i < |ps| ==> ps[i].id != id
  {
    SelectAllKept(ps, OtherId(id));
  }

  /** Deleting the same id twice is deleting it once. */
  lemma RemainingIdempotent(ps: seq<Project>, id: string)
    ensures Remaining(Remaining(ps, id), id) == Remaining(ps, id)
  {
    SelectIdempotent(ps, OtherId(id));
  }

  /** Under "all" the view is the whole list; under a category label it is
      the order-preserving subsequence of projects with that label, never
      longer than the list. */
  lemma VisibleSpec(ps: seq<Project>, filter: string)
    ensures filter == ALL ==> Visible(ps, filter) == ps
    ensures IsSubsequence(Visible(ps, filter), ps)
    ensures |Visible(ps, filter)| <= |ps|
    ensures filter != ALL ==>
      (forall i :: 0 <= i < |Visible(ps, filter)| ==> Visible(ps, filter)[i].category.Label() == filter) &&
      (forall p: Project :: multiset(Visible(ps, filter))[p] ==
        if p.category.Label() == filter then multiset(ps)[p] else 0)
  {
    if filter == ALL {
      SubsequenceOfSelf(ps);
    } else {
      SelectIsSubsequence(ps, InCategory(filter));
      forall p: Project
        ensures multiset(Visible(ps, filter))[p] ==
          if p.category.Label() == filter then multiset(ps)[p] else 0
      {
        SelectCount(ps, InCategory(filter), p);
      }
    }
  }

  /** The category a filter button other than "all" stands for. */
  function ButtonCategory(filter: string): (c: Category)
    requires filter in CATEGORIES && filter != ALL
    ensures c.Label() == filter
  {
    if filter == UiUx.Label() then UiUx else if filter == Branding.Label() then Branding else ArtDirection
  }

  /** Under a filter button other than "all" the view is the selection, in
      order and with multiplicities, of the one category so labelled. */
  lemma VisibleByCategory(ps: seq<Project>, filter: string)
    requires filter in CATEGORIES && filter != ALL
    ensures forall i :: 0 <= i < |Visible(ps, filter)| ==> Visible(ps, filter)[i].category == ButtonCategory(filter)
    ensures forall p: Project ::
              multiset(Visible(ps, filter))[p] == if p.category == ButtonCategory(filter) then multiset(ps)[p] else 0
  {
    var c := ButtonCategory(filter);
    VisibleSpec(ps, filter);
    forall i | 0 <= i < |Visible(ps, filter)|
      ensures Visible(ps, filter)[i].category == c
    {
      LabelInjective(Visible(ps, filter)[i].category, c);
    }
    forall p: Project
      ensures multiset(Visible(ps, filter))[p] == if p.category == c then multiset(ps)[p] else 0
    {
      LabelInjective(p.category, c);
    }
  }

  /** Every demonstration project would pass the add guard, and their ids
      are pairwise distinct. */
  lemma DefaultProjectsSpec()
    ensures |DEFAULT_PROJECTS| == 6
    ensures forall i :: 0 <= i < |DEFAULT_PROJECTS| ==>
      DEFAULT_PROJECTS[i].title != "" && DEFAULT_PROJECTS[i].imageUrl != "" && DEFAULT_PROJECTS[i].year != ""
    ensures forall i, j :: 0 <= i < j < |DEFAULT_PROJECTS| ==> DEFAULT_PROJECTS[i].id != DEFAULT_PROJECTS[j].id
  {
  }

  /** A project added at the front shows at the front of the view exactly
      when it passes the filter; the rest of the view is unchanged. */
  lemma VisiblePrepend(p: Project, ps: seq<Project>, filter: string)
    ensures Visible([p] + ps, filter) ==
      (if filter == ALL || p.category.Label() == filter then [p] else []) + Visible(ps, filter)
  {
  }

  /** Every filter button other than "all" is the label of exactly one
      category, and every category has a button. */
  lemma CategoriesSpec()
    ensures |CATEGORIES| == 4 && CATEGORIES[0] == ALL
    ensures forall c: Category :: c.Label() in CATEGORIES[1..]
    ensures forall i :: 1 <= i < |CATEGORIES| ==> exists c: Category :: c.Label() == CATEGORIES[i]
  {
    assert CATEGORIES[1] == UiUx.Label();
    assert CATEGORIES[2] == Branding.Label();
    assert CATEGORIES[3] == ArtDirection.Label();
  }

  /** The state of the gallery component. */
  class PortfolioView {
    var projects: seq<Project>
    var filter: string
    var isModalOpen: bool
    var newProject: Draft

    /** The filter is always one of the filter buttons. */
    ghost predicate Valid()
      reads this
    {
      filter in CATEGORIES
    }

    /** The initial state, before the saved slot is read. */
    constructor (currentYear: string)
      ensures Valid()
      ensures projects == DEFAULT_PROJECTS && filter == ALL && !isModalOpen
      ensures newProject == BlankDraft(currentYear)
    {
      projects := DEFAULT_PROJECTS;
      filter := ALL;
      isModalOpen := false;
      newProject := BlankDraft(currentYear);
    }

    /** The mount-time load: a readable saved list replaces the projects;
        an absent or unreadable slot (`None`) keeps them. */
    method LoadSaved(saved: Option<seq<Project>>)
      requires Valid()
      modifies this
      ensures Valid()
      ensures projects == if saved.Some? then saved.value else old(projects)
      ensures filter == old(filter) && isModalOpen == old(isModalOpen) && newProject == old(newProject)
    {
      if saved.Some? {
        projects := saved.value;
      }
    }

    /** The add button is disabled while the title or the image is empty,
        which is exactly when the add handler's guard rejects the form. */
    function AddButtonDisabled(): (r: bool)
      reads this
      ensures r == AddRejected(newProject)
    {
      newProject.title == "" || newProject.imageUrl == ""
    }

    /** The projects on display: all of them under "all"; otherwise, in
        their order and with their multiplicities, those of the one category
        whose label is the filter. */
    function FilteredProjects(): (r: seq<Project>)
      requires Valid()
      reads this
      ensures filter == ALL ==> r == projects
      ensures IsSubsequence(r, projects)
      ensures filter != ALL ==>
        && (forall i :: 0 <= i < |r| ==> r[i].category == ButtonCategory(filter))
        && (forall p: Project :: multiset(r)[p] ==
              if p.category == ButtonCategory(filter) then multiset(projects)[p] else 0)
    {
      VisibleSpec(projects, filter);
      if filter != ALL then
        VisibleByCategory(projects, filter);
        Visible(projects, filter)
      else
        Visible(projects, filter)
    }

    /** Adds the project described by the form at the front of the list,
        closes the form and clears it; does nothing while the add button
        is disabled. `id` is the clock reading used as the new id. */
    method AddProject(id: string, currentYear: string)
      requires Valid()
      modifies this
      ensures Valid() && filter == old(filter)
      ensures old(AddButtonDisabled()) ==>
        projects == old(projects) && newProject == old(newProject) && isModalOpen == old(isModalOpen)
      ensures !old(AddButtonDisabled()) ==>
        && projects == [FromDraft(old(newProject), id)] + old(projects)
        && |projects| == |old(projects)| + 1
        && projects[1..] == old(projects)
        && !isModalOpen
        && newProject == BlankDraft(currentYear)
    {
      if AddRejected(newProject) {
        return;
      }
      var project := FromDraft(newProject, id);
      projects := [project] + projects;
      isModalOpen := false;
      newProject := BlankDraft(currentYear);
    }

    /** Deletes every project with the given id when the user confirms. */
    method DeleteProject(id: string, confirmed: bool)
      requires Valid()
      modifies this
      ensures Valid()
      ensures projects == if confirmed then Remaining(old(projects), id) else old(projects)
      ensures filter == old(filter) && isModalOpen == old(isModalOpen) && newProject == old(newProject)
    {
      if confirmed {
        projects := Remaining(projects, id);
      }
    }

    /** Restores the demonstration data when the user confirms. */
    method ResetToDefaults(confirmed: bool)
      requires Valid()
      modifies this
      ensures Valid()
      ensures projects == if confirmed then DEFAULT_PROJECTS else old(projects)
      ensures filter == old(filter) && isModalOpen == old(isModalOpen) && newProject == old(newProject)
    {
      if confirmed {
        projects := DEFAULT_PROJECTS;
      }
    }

    /** A click on one of the filter buttons. */
    method SetFilter(cat: string)
      requires Valid() && cat in CATEGORIES
      modifies this
      ensures Valid()
      ensures filter == cat
      ensures projects == old(projects) && isModalOpen == old(isModalOpen) && newProject == old(newProject)
    {
      filter := cat;
    }

    /** Opening (the add card) or closing (backdrop, close button) the form. */
    method SetModalOpen(open: bool)
      requires Valid()
      modifies this
      ensures Valid()
      ensures isModalOpen == open
      ensures projects == old(projects) && filter == old(filter) && newProject == old(newProject)
    {
      isModalOpen := open;
    }

    /** An edit of one of the form's inputs. */
    method EditDraft(d: Draft)
      requires Valid()
      modifies this
      ensures Valid()
      ensures newProject == d
      ensures projects == old(projects) && filter == old(filter) && isModalOpen == old(isModalOpen)
    {
      newProject := d;
    }
  }
}
