/** `src/components/ProjectTracker.tsx`: the five reforestation projects, the status
    filter of the project list, the overview totals, the active-project count and the
    colour of a status badge and of a progress bar. */
module ProjectTracker {
  import Seqs
  import Histogram

  /** A project with the fields the totals, the filter and the colours read. */
  datatype Project = Project(
    id: nat, name: string, status: string, progress: int,
    budget: int, spent: int, treesPlanted: int, treesTarget: int, area: int,
    carbonSequestered: int, communityJobs: int)

  const Projects: seq<Project> := [
    Project(1, "Amazon Rainforest Restoration", "active", 78, 250000, 195000, 15000, 20000, 120, 234, 25),
    Project(2, "Sahel Regreening Initiative", "active", 45, 180000, 81000, 8500, 15000, 85, 156, 40),
    Project(3, "Coastal Mangrove Conservation", "completed", 100, 120000, 118500, 12000, 12000, 45, 189, 18),
    Project(4, "Urban Forest Initiative", "planning", 15, 95000, 14250, 450, 3000, 25, 23, 8),
    Project(5, "Highland Forest Recovery", "active", 62, 165000, 102300, 9300, 15000, 78, 167, 32)
  ]

  // The badge styles of `getStatusColor`.
  const ActiveStyle := "bg-emerald-500/20 text-emerald-400 border-emerald-500/30"
  const CompletedStyle := "bg-blue-500/20 text-blue-400 border-blue-500/30"
  const PlanningStyle := "bg-amber-500/20 text-amber-400 border-amber-500/30"
  const PausedStyle := "bg-red-500/20 text-red-400 border-red-500/30"
  const DefaultStyle := "bg-slate-500/20 text-slate-400 border-slate-500/30"

  /** The statuses the badge has a style for, which are also the statuses of the filter. */
  const KnownStatuses: set<string> := {"active", "completed", "planning", "paused"}

  /** `getStatusColor`: the style of one of the four statuses, the slate style for any
      other. */
  function StatusColor(status: string): (r: string)
    ensures r == DefaultStyle <==> status !in KnownStatuses
    ensures status == "active" ==> r == ActiveStyle
    ensures status == "completed" ==> r == CompletedStyle
    ensures status == "planning" ==> r == PlanningStyle
    ensures status == "paused" ==> r == PausedStyle
  {
    match status
    case "active" => ActiveStyle
    case "completed" => CompletedStyle
    case "planning" => PlanningStyle
    case "paused" => PausedStyle
    case _ => DefaultStyle
  }

  /** Different known statuses have different badges. */
  lemma StatusColorsDistinct(a: string, b: string)
    requires a in KnownStatuses && b in KnownStatuses && a != b
    ensures StatusColor(a) != StatusColor(b)
  {
  }

  // The bar colours of `getProgressColor`.
  const Emerald := "bg-emerald-500"
  const Blue := "bg-blue-500"
  const Amber := "bg-amber-500"
  const Red := "bg-red-500"

  /** `getProgressColor`: the bands 80 and up, 60 to 80, 40 to 60 and below 40, tested
      from the top. */
  function ProgressColor(progress: int): (r: string)
    ensures r == Emerald <==> progress >= 80
    ensures r == Blue <==> 60 <= progress < 80
    ensures r == Amber <==> 40 <= progress < 60
    ensures r == Red <==> progress < 40
  {
    if progress >= 80 then Emerald
    else if progress >= 60 then Blue
    else if progress >= 40 then Amber
    else Red
  }

  /** The place of a bar colour in the order red, amber, blue, emerald. */
  function ColorRank(color: string): (r: nat)
    ensures r <= 3
  {
    if color == Emerald then 3 else if color == Blue then 2 else if color == Amber then 1 else 0
  }

  /** More progress never gives a lower band, and each band starts at its threshold. */
  lemma ProgressColorMonotone(p: int, q: int)
    requires p <= q
    ensures ColorRank(ProgressColor(p)) <= ColorRank(ProgressColor(q))
    ensures ColorRank(ProgressColor(q)) == (if q >= 80 then 3 else if q >= 60 then 2 else if q >= 40 then 1 else 0)
  {
  }

  /** The filter test: every project under "all", otherwise those with the selected
      status. */
  function Shown(selectedStatus: string): Project -> bool {
    (p: Project) => selectedStatus == "all" || p.status == selectedStatus
  }

  function StatusIs(status: string): Project -> bool {
    (p: Project) => p.status == status
  }

  /** `filteredProjects`. */
  function FilteredProjects(projects: seq<Project>, selectedStatus: string): (r: seq<Project>)
    ensures Seqs.IsSubsequence(r, projects)
    ensures |r| <= |projects|
    ensures selectedStatus != "all" ==> forall i :: 0 <= i < |r| ==> r[i].status == selectedStatus
    ensures forall i :: 0 <= i < |projects| && (selectedStatus == "all" || projects[i].status == selectedStatus)
              ==> projects[i] in r
  {
    Seqs.FilterMembers(projects, Shown(selectedStatus));
    Seqs.Filter(projects, Shown(selectedStatus))
  }

  /** "all" shows every project, in order. */
  lemma AllShowsEveryProject(projects: seq<Project>)
    ensures FilteredProjects(projects, "all") == projects
  {
    Seqs.FilterAll(projects, Shown("all"));
  }

  /** Any other choice shows exactly the projects with that status, as many as there are
      of them. */
  lemma StatusFilterExact(projects: seq<Project>, selectedStatus: string)
    requires selectedStatus != "all"
    ensures FilteredProjects(projects, selectedStatus) == Seqs.Filter(projects, StatusIs(selectedStatus))
    ensures |FilteredProjects(projects, selectedStatus)| == Histogram.Count(Statuses(projects), selectedStatus)
  {
    Seqs.FilterSameTest(projects, Shown(selectedStatus), StatusIs(selectedStatus));
    StatusCount(projects, selectedStatus);
  }

  function StatusOf(p: Project): string {
    p.status
  }

  function Statuses(projects: seq<Project>): seq<string> {
    Histogram.Keys(projects, StatusOf)
  }

  /** The number of projects with a status is the number of times it occurs among the
      statuses. */
  lemma StatusCount(projects: seq<Project>, status: string)
    ensures |Seqs.Filter(projects, StatusIs(status))| == Histogram.Count(Statuses(projects), status)
  {
    Histogram.FilterCount(projects, StatusIs(status), StatusOf, status);
  }

  /** The "Active Projects" card. */
  function ActiveCount(projects: seq<Project>): (r: nat)
    ensures r <= |projects|
  {
    |Seqs.Filter(projects, StatusIs("active"))|
  }

  /** The card counts the projects whose status is "active", as many as the filter set to
      "active" lists. */
  lemma ActiveCountIsStatusCount(projects: seq<Project>)
    ensures ActiveCount(projects) == Histogram.Count(Statuses(projects), "active")
    ensures ActiveCount(projects) == |FilteredProjects(projects, "active")|
  {
    StatusCount(projects, "active");
    StatusFilterExact(projects, "active");
  }

  /** Three of the five projects are active. */
  lemma ThreeActiveProjects()
    ensures ActiveCount(Projects) == 3
  {
    assert Statuses(Projects) == ["active", "active", "completed", "planning", "active"];
    StatusCount(Projects, "active");
    ActiveAmongStatuses();
  }

  lemma ActiveAmongStatuses()
    ensures Histogram.Count(["active", "active", "completed", "planning", "active"], "active") == 3
  {
    var s := ["active", "active", "completed", "planning", "active"];
    assert s[..4] == ["active", "active", "completed", "planning"];
    assert s[..4][..3] == ["active", "active", "completed"];
    assert s[..4][..3][..2] == ["active", "active"];
    assert s[..4][..3][..2][..1] == ["active"];
    assert ["active"][..0] == [];
    assert "completed" != "active" && "planning" != "active";
    assert Histogram.Count(["active"], "active") == 1;
    assert Histogram.Count(["active", "active"], "active") == 2;
    assert Histogram.Count(["active", "active", "completed"], "active") == 2;
    assert Histogram.Count(["active", "active", "completed", "planning"], "active") == 2;
  }

  /** The six overview totals. */
  datatype Totals = Totals(totalBudget: int, totalSpent: int, totalTrees: int, totalArea: int,
                           totalCarbon: int, totalJobs: int)

  const Zero := Totals(0, 0, 0, 0, 0, 0)

  function Plus(a: Totals, b: Totals): Totals {
    Totals(a.totalBudget + b.totalBudget, a.totalSpent + b.totalSpent, a.totalTrees + b.totalTrees,
           a.totalArea + b.totalArea, a.totalCarbon + b.totalCarbon, a.totalJobs + b.totalJobs)
  }

  /** The contribution of one project to the totals. */
  function Of(p: Project): Totals {
    Totals(p.budget, p.spent, p.treesPlanted, p.area, p.carbonSequestered, p.communityJobs)
  }

  /** The `reduce` callback applied to the projects from left to right, starting from
      `acc`. */
  function Reduce(acc: Totals, projects: seq<Project>): Totals
    decreases projects
  {
    if projects == [] then acc else Reduce(Plus(acc, Of(projects[0])), projects[1..])
  }

  /** `totalStats`: the `reduce` from the zero totals. */
  function TotalStats(projects: seq<Project>): (r: Totals)
    ensures projects == [] ==> r == Zero
  {
    Reduce(Zero, projects)
  }

  // The numeric fields the totals add up.
  const Budget := (p: Project) => p.budget
  const Spent := (p: Project) => p.spent
  const Trees := (p: Project) => p.treesPlanted
  const Area := (p: Project) => p.area
  const Carbon := (p: Project) => p.carbonSequestered
  const Jobs := (p: Project) => p.communityJobs

  /** The sum of a field over the projects. */
  function Sum(projects: seq<Project>, field: Project -> int): int {
    if projects == [] then 0 else field(projects[0]) + Sum(projects[1..], field)
  }

  lemma {:induction false} ReduceFields(acc: Totals, projects: seq<Project>)
    ensures Reduce(acc, projects) ==
              Totals(acc.totalBudget + Sum(projects, Budget), acc.totalSpent + Sum(projects, Spent),
                     acc.totalTrees + Sum(projects, Trees), acc.totalArea + Sum(projects, Area),
                     acc.totalCarbon + Sum(projects, Carbon), acc.totalJobs + Sum(projects, Jobs))
    decreases projects
  {
    if projects != [] {
      ReduceFields(Plus(acc, Of(projects[0])), projects[1..]);
    }
  }

  /** Each total is the sum of its field over all the projects. */
  lemma TotalStatsFields(projects: seq<Project>)
    ensures TotalStats(projects) ==
              Totals(Sum(projects, Budget), Sum(projects, Spent), Sum(projects, Trees),
                     Sum(projects, Area), Sum(projects, Carbon), Sum(projects, Jobs))
  {
    ReduceFields(Zero, projects);
  }

  lemma {:induction false} SumAppend(s: seq<Project>, t: seq<Project>, field: Project -> int)
    ensures Sum(s + t, field) == Sum(s, field) + Sum(t, field)
  {
    if s == [] {
      assert s + t == t;
    } else {
      assert (s + t)[1..] == s[1..] + t;
      SumAppend(s[1..], t, field);
    }
  }

  /** The totals of two lists together are the sums of their totals. */
  lemma TotalStatsAppend(s: seq<Project>, t: seq<Project>)
    ensures TotalStats(s + t) == Plus(TotalStats(s), TotalStats(t))
  {
    TotalStatsFields(s);
    TotalStatsFields(t);
    TotalStatsFields(s + t);
    SumAppend(s, t, Budget);
    SumAppend(s, t, Spent);
    SumAppend(s, t, Trees);
    SumAppend(s, t, Area);
    SumAppend(s, t, Carbon);
    SumAppend(s, t, Jobs);
  }

  lemma {:induction false} SumSplit(s: seq<Project>, p: Project -> bool, q: Project -> bool, field: Project -> int)
    requires forall i :: 0 <= i < |s| ==> q(s[i]) == !p(s[i])
    ensures Sum(Seqs.Filter(s, p), field) + Sum(Seqs.Filter(s, q), field) == Sum(s, field)
  {
    if s != [] {
      SumSplit(s[1..], p, q, field);
      Seqs.FilterCons(s, p);
      Seqs.FilterCons(s, q);
      if p(s[0]) {
        assert ([s[0]] + Seqs.Filter(s[1..], p))[1..] == Seqs.Filter(s[1..], p);
      } else {
        assert ([s[0]] + Seqs.Filter(s[1..], q))[1..] == Seqs.Filter(s[1..], q);
      }
    }
  }

  /** Totals whose every field adds up add up. */
  lemma TotalsAddUp(s: seq<Project>, a: seq<Project>, b: seq<Project>)
    requires Sum(a, Budget) + Sum(b, Budget) == Sum(s, Budget)
    requires Sum(a, Spent) + Sum(b, Spent) == Sum(s, Spent)
    requires Sum(a, Trees) + Sum(b, Trees) == Sum(s, Trees)
    requires Sum(a, Area) + Sum(b, Area) == Sum(s, Area)
    requires Sum(a, Carbon) + Sum(b, Carbon) == Sum(s, Carbon)
    requires Sum(a, Jobs) + Sum(b, Jobs) == Sum(s, Jobs)
    ensures Plus(TotalStats(a), TotalStats(b)) == TotalStats(s)
  {
    TotalStatsFields(s);
    TotalStatsFields(a);
    TotalStatsFields(b);
  }

  /** Splitting the projects by any test splits the totals: the totals of the projects a
      status filter shows and of those it hides add up to the overview totals. */
  lemma TotalStatsSplit(s: seq<Project>, p: Project -> bool, q: Project -> bool)
    requires forall i :: 0 <= i < |s| ==> q(s[i]) == !p(s[i])
    ensures Plus(TotalStats(Seqs.Filter(s, p)), TotalStats(Seqs.Filter(s, q))) == TotalStats(s)
  {
    SumSplit(s, p, q, Budget);
    SumSplit(s, p, q, Spent);
    SumSplit(s, p, q, Trees);
    SumSplit(s, p, q, Area);
    SumSplit(s, p, q, Carbon);
    SumSplit(s, p, q, Jobs);
    TotalsAddUp(s, Seqs.Filter(s, p), Seqs.Filter(s, q));
  }

  /** The overview of the five projects. */
  lemma ProjectTotals()
    ensures TotalStats(Projects) == Totals(810000, 511050, 45250, 353, 769, 123)
  {
    var t := Projects;
    assert t[1..][1..][1..][1..][1..] == [];
    assert Reduce(Zero, t) == Reduce(Totals(250000, 195000, 15000, 120, 234, 25), t[1..]);
    assert Reduce(Zero, t) == Reduce(Totals(430000, 276000, 23500, 205, 390, 65), t[1..][1..]);
    assert Reduce(Zero, t) == Reduce(Totals(550000, 394500, 35500, 250, 579, 83), t[1..][1..][1..]);
    assert Reduce(Zero, t) == Reduce(Totals(645000, 408750, 35950, 275, 602, 91), t[1..][1..][1..][1..]);
  }
}
