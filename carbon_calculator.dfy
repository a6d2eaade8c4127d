/** `frontend/src/components/CarbonCalculator.tsx`: the list of reforestation projects
    and the form for a new one (state the component replaces in `addProject` and
    `removeProject`), the carbon each project captures, and the aggregates the charts
    show. Quantities are exact reals; the clock is a parameter. */
module CarbonCalculator {
  import Seqs
  import Histogram

  datatype Project = Project(
    id: int, name: string, species: string, area: real, treesPerHectare: real, age: real)

  /** The new-project form. */
  datatype Draft = Draft(name: string, species: string, area: real, treesPerHectare: real, age: real)

  const EmptyDraft := Draft("", "", 0.0, 150.0, 0.0)

  const InitialProjects: seq<Project> := [
    Project(1, "Amazon Reforestation", "Mixed Native", 100.0, 150.0, 5.0),
    Project(2, "Urban Forest Initiative", "Oak Trees", 25.0, 100.0, 3.0)
  ]

  /** Tonnes of carbon per tree and year, and the growth factor, of a species. */
  datatype Rates = Rates(carbonPerTree: real, growthRate: real)

  const MixedNative := "Mixed Native"

  const SpeciesData: map<string, Rates> := map[
    MixedNative := Rates(0.045, 1.2),
    "Oak Trees" := Rates(0.055, 1.0),
    "Pine Trees" := Rates(0.035, 1.4),
    "Eucalyptus" := Rates(0.065, 1.8),
    "Bamboo" := Rates(0.025, 2.5),
    "Mangroves" := Rates(0.085, 0.8)
  ]

  /** The rates of a species, falling back on the mixed native ones. */
  function RatesOf(species: string): (r: Rates)
    ensures species in SpeciesData ==> r == SpeciesData[species]
    ensures species !in SpeciesData ==> r == SpeciesData[MixedNative]
  {
    if species in SpeciesData then SpeciesData[species] else SpeciesData[MixedNative]
  }

  datatype Calc = Calc(carbonPerYear: real, totalCarbon: real, totalTrees: real)

  /** `calculateCarbon`. */
  function CalculateCarbon(p: Project): (c: Calc)
    ensures c.totalTrees == p.area * p.treesPerHectare
    ensures c.totalCarbon == c.carbonPerYear * p.age
    ensures p.age == 0.0 ==> c.totalCarbon == 0.0
  {
    var rates := RatesOf(p.species);
    var totalTrees := p.area * p.treesPerHectare;
    var carbonPerYear := totalTrees * rates.carbonPerTree * rates.growthRate;
    Calc(carbonPerYear, carbonPerYear * p.age, totalTrees)
  }

  /** A species without rates of its own is computed exactly as a mixed native one. */
  lemma UnknownSpeciesIsMixedNative(p: Project)
    requires p.species !in SpeciesData
    ensures CalculateCarbon(p) == CalculateCarbon(p.(species := MixedNative))
  {
  }

  /** Carbon grows with the age of the project, and is never negative for non-negative
      inputs. */
  lemma CarbonMonotoneInAge(p: Project, age: real)
    requires p.area >= 0.0 && p.treesPerHectare >= 0.0 && 0.0 <= p.age <= age
    ensures 0.0 <= CalculateCarbon(p).totalCarbon <= CalculateCarbon(p.(age := age)).totalCarbon
  {
    var c := CalculateCarbon(p).carbonPerYear;
    var rates := RatesOf(p.species);
    assert rates.carbonPerTree >= 0.0 && rates.growthRate >= 0.0;
    assert p.area * p.treesPerHectare >= 0.0;
    assert p.area * p.treesPerHectare * rates.carbonPerTree >= 0.0;
    assert c >= 0.0;
    assert c * p.age <= c * age;
  }

  /** The four running sums of `totalStats`. */
  datatype Stats = Stats(totalCarbon: real, totalTrees: real, totalArea: real, annualCarbon: real)

  function Add(s: Stats, p: Project): Stats {
    var c := CalculateCarbon(p);
    Stats(s.totalCarbon + c.totalCarbon, s.totalTrees + c.totalTrees,
          s.totalArea + p.area, s.annualCarbon + c.carbonPerYear)
  }

  /** `projects.reduce(...)` from all-zero sums. */
  function TotalStats(projects: seq<Project>): Stats {
    if projects == [] then Stats(0.0, 0.0, 0.0, 0.0)
    else Add(TotalStats(projects[..|projects| - 1]), projects[|projects| - 1])
  }

  /** The sums over two lists one after the other add up. */
  lemma {:induction false} TotalStatsAppend(a: seq<Project>, b: seq<Project>)
    ensures var s, t, u := TotalStats(a + b), TotalStats(a), TotalStats(b);
            && s.totalCarbon == t.totalCarbon + u.totalCarbon
            && s.totalTrees == t.totalTrees + u.totalTrees
            && s.totalArea == t.totalArea + u.totalArea
            && s.annualCarbon == t.annualCarbon + u.annualCarbon
  {
    if b == [] {
      assert a + b == a;
    } else {
      var init := b[..|b| - 1];
      assert (a + b)[..|a + b| - 1] == a + init;
      assert (a + b)[|a + b| - 1] == b[|b| - 1];
      TotalStatsAppend(a, init);
    }
  }

  /** `projectChartData`: the name, total and annual carbon of each project. */
  datatype ProjectChartEntry = ProjectChartEntry(name: string, carbon: real, annual: real)

  function ProjectChartData(projects: seq<Project>): (r: seq<ProjectChartEntry>)
    ensures |r| == |projects|
    ensures forall i :: 0 <= i < |r| ==> (r[i].name == projects[i].name
              && r[i].carbon == CalculateCarbon(projects[i]).totalCarbon
              && r[i].annual == CalculateCarbon(projects[i]).carbonPerYear)
  {
    seq(|projects|, i requires 0 <= i < |projects| =>
      var c := CalculateCarbon(projects[i]);
      ProjectChartEntry(projects[i].name, c.totalCarbon, c.carbonPerYear))
  }

  function SpeciesOf(projects: seq<Project>): (r: seq<string>)
    ensures |r| == |projects| && forall i :: 0 <= i < |r| ==> r[i] == projects[i].species
  {
    seq(|projects|, i requires 0 <= i < |projects| => projects[i].species)
  }

  /** The total carbon of the projects of one species. */
  function CarbonOf(projects: seq<Project>, species: string): real {
    if projects == [] then 0.0
    else
      var last := projects[|projects| - 1];
      CarbonOf(projects[..|projects| - 1], species)
        + (if last.species == species then CalculateCarbon(last).totalCarbon else 0.0)
  }

  /** Each species of `keys` with the total carbon of its projects. */
  function SpeciesCarbon(keys: seq<string>, projects: seq<Project>): (r: seq<(string, real)>)
    ensures |r| == |keys| && forall k :: 0 <= k < |r| ==> r[k] == (keys[k], CarbonOf(projects, keys[k]))
  {
    seq(|keys|, k requires 0 <= k < |keys| => (keys[k], CarbonOf(projects, keys[k])))
  }

  /** `carbonBySpecies`: one entry per species, the species in the order of
      `Histogram.Distinct` (the order in which the object built by `reduce` lists its
      keys), each carrying the total carbon of that species' projects. */
  function CarbonBySpecies(projects: seq<Project>): (r: seq<(string, real)>)
    ensures |r| == |Histogram.Distinct(SpeciesOf(projects))|
    ensures forall k :: 0 <= k < |r| ==>
              r[k] == (Histogram.Distinct(SpeciesOf(projects))[k], CarbonOf(projects, Histogram.Distinct(SpeciesOf(projects))[k]))
    ensures forall i, j :: 0 <= i < j < |r| ==> r[i].0 != r[j].0
    ensures forall k :: 0 <= k < |r| ==> r[k].0 in SpeciesOf(projects)
    ensures forall i :: 0 <= i < |projects| ==> exists k :: 0 <= k < |r| && r[k].0 == projects[i].species
  {
    var keys := Histogram.Distinct(SpeciesOf(projects));
    var r := SpeciesCarbon(keys, projects);
    assert forall i :: 0 <= i < |projects| ==> exists k :: 0 <= k < |r| && r[k].0 == projects[i].species by {
      forall i | 0 <= i < |projects|
        ensures exists k :: 0 <= k < |r| && r[k].0 == projects[i].species
      {
        assert SpeciesOf(projects)[i] in keys;
        var k :| 0 <= k < |keys| && keys[k] == SpeciesOf(projects)[i];
        assert r[k].0 == projects[i].species;
      }
    }
    r
  }

  /** The chart lists the species in the order in which they first appear among the
      projects: an earlier entry's species occurs at a project before which, that one
      included, a later entry's species does not occur. */
  lemma CarbonBySpeciesInOrder(projects: seq<Project>, i: nat, j: nat)
    requires i < j < |CarbonBySpecies(projects)|
    ensures var r := CarbonBySpecies(projects);
            exists p :: 0 <= p < |projects| && projects[p].species == r[i].0 &&
                        forall q :: 0 <= q <= p ==> projects[q].species != r[j].0
  {
    var species := SpeciesOf(projects);
    var keys := Histogram.Distinct(species);
    var r := CarbonBySpecies(projects);
    Histogram.DistinctFirstAppearance(species, i, j);
    var p :| 0 <= p < |species| && species[p] == keys[i] && keys[j] !in species[..p + 1];
    forall q | 0 <= q <= p
      ensures projects[q].species != r[j].0
    {
      assert species[..p + 1][q] == species[q];
    }
    assert projects[p].species == r[i].0;
  }

  /** The carbon column of the chart data, summed. */
  function SumColumn(r: seq<(string, real)>): real {
    if r == [] then 0.0 else SumColumn(r[..|r| - 1]) + r[|r| - 1].1
  }

  /** Summing the carbon column is summing the carbon of the species. */
  lemma {:induction false} SumColumnOfSpeciesCarbon(keys: seq<string>, projects: seq<Project>)
    ensures SumColumn(SpeciesCarbon(keys, projects)) == SumCarbon(keys, projects)
  {
    if keys != [] {
      var init := keys[..|keys| - 1];
      var r := SpeciesCarbon(keys, projects);
      assert r[..|r| - 1] == SpeciesCarbon(init, projects);
      SumColumnOfSpeciesCarbon(init, projects);
    }
  }

  function SumCarbon(keys: seq<string>, projects: seq<Project>): real {
    if keys == [] then 0.0
    else SumCarbon(keys[..|keys| - 1], projects) + CarbonOf(projects, keys[|keys| - 1])
  }

  lemma {:induction false} SumCarbonSnoc(keys: seq<string>, projects: seq<Project>, p: Project)
    requires Histogram.NoDuplicates(keys)
    ensures SumCarbon(keys, projects + [p])
            == SumCarbon(keys, projects) + (if p.species in keys then CalculateCarbon(p).totalCarbon else 0.0)
  {
    assert (projects + [p])[..|projects + [p]| - 1] == projects;
    if keys != [] {
      var init := keys[..|keys| - 1];
      assert keys == init + [keys[|keys| - 1]];
      SumCarbonSnoc(init, projects, p);
    }
  }

  /** The carbon column of `carbonBySpecies` adds up to the total carbon of the
      overview: every project is counted once, under its own species. */
  lemma CarbonBySpeciesTotal(projects: seq<Project>)
    ensures SumColumn(CarbonBySpecies(projects)) == TotalStats(projects).totalCarbon
  {
    SumColumnOfSpeciesCarbon(Histogram.Distinct(SpeciesOf(projects)), projects);
    SumCarbonOfDistinct(projects);
  }

  lemma {:induction false} SumCarbonOfDistinct(projects: seq<Project>)
    ensures SumCarbon(Histogram.Distinct(SpeciesOf(projects)), projects) == TotalStats(projects).totalCarbon
  {
    if projects != [] {
      var init := projects[..|projects| - 1];
      var p := projects[|projects| - 1];
      assert projects == init + [p];
      assert SpeciesOf(projects) == SpeciesOf(init) + [p.species];
      assert SpeciesOf(projects)[..|projects| - 1] == SpeciesOf(init);
      SumCarbonOfDistinct(init);
      var d := Histogram.Distinct(SpeciesOf(init));
      SumCarbonSnoc(d, init, p);
      if p.species !in d {
        var e := d + [p.species];
        assert e[..|e| - 1] == d;
        assert p.species !in SpeciesOf(init);
        CarbonOfAbsent(init, p.species);
      }
    }
  }

  /** A species no project has carries no carbon. */
  lemma {:induction false} CarbonOfAbsent(projects: seq<Project>, species: string)
    requires species !in SpeciesOf(projects)
    ensures CarbonOf(projects, species) == 0.0
  {
    if projects != [] {
      var init := projects[..|projects| - 1];
      assert SpeciesOf(projects)[..|projects| - 1] == SpeciesOf(init);
      assert SpeciesOf(projects)[|projects| - 1] == projects[|projects| - 1].species;
      CarbonOfAbsent(init, species);
    }
  }

  /** `projectionData`: twenty years from `currentYear`, the annual carbon accumulating. */
  function ProjectionData(annualCarbon: real, currentYear: int): (r: seq<(int, real)>)
    ensures |r| == 20
  {
    seq(20, year requires 0 <= year < 20 => (currentYear + year, annualCarbon * (year + 1) as real))
  }

  /** Each year adds the annual carbon to the one before, starting from one year's
      worth, so the twentieth entry is twenty times the annual carbon. */
  lemma ProjectionGrowsLinearly(annualCarbon: real, currentYear: int)
    ensures var r := ProjectionData(annualCarbon, currentYear);
            && r[0] == (currentYear, annualCarbon)
            && (forall k :: 0 <= k < 19 ==> r[k + 1].0 == r[k].0 + 1 && r[k + 1].1 == r[k].1 + annualCarbon)
            && r[19].1 == 20.0 * annualCarbon
  {
    var r := ProjectionData(annualCarbon, currentYear);
    assert r[0].0 == currentYear && r[0].1 == annualCarbon * 1.0;
    forall k | 0 <= k < 19
      ensures r[k + 1].0 == r[k].0 + 1 && r[k + 1].1 == r[k].1 + annualCarbon
    {
      var n := (k + 1) as real;
      assert r[k].0 == currentYear + k;
      assert r[k].1 == annualCarbon * (k + 1) as real;
      assert r[k].1 == annualCarbon * n;
      assert (k + 1 + 1) as real == n + 1.0;
      assert r[k + 1].0 == currentYear + k + 1;
      assert r[k + 1].1 == annualCarbon * (k + 1 + 1) as real;
      assert r[k + 1].1 == annualCarbon * (n + 1.0);
      MulStep(annualCarbon, n);
    }
    assert r[19].1 == annualCarbon * 20.0;
  }

  lemma MulStep(a: real, n: real)
    ensures a * (n + 1.0) == a * n + a
  {
  }

  /** The form may be submitted when it has a name, a species and a positive area. */
  predicate Submittable(d: Draft) {
    d.name != "" && d.species != "" && d.area > 0.0
  }

  function ProjectOf(d: Draft, id: int): Project {
    Project(id, d.name, d.species, d.area, d.treesPerHectare, d.age)
  }

  /** The projects other than those with identifier `id`, in their order. */
  function Without(projects: seq<Project>, id: int): (r: seq<Project>)
    ensures forall i :: 0 <= i < |r| ==> r[i].id != id
    ensures forall i :: 0 <= i < |projects| && projects[i].id != id ==> projects[i] in r
    ensures forall i :: 0 <= i < |r| ==> r[i] in projects
    ensures Seqs.IsSubsequence(r, projects)
  {
    var r := Seqs.Filter(projects, (p: Project) => p.id != id);
    Seqs.FilterMembers(projects, (p: Project) => p.id != id);
    assert forall i :: 0 <= i < |r| ==> r[i] in r;
    r
  }

  /** Removing an identifier that no project has changes nothing. */
  lemma WithoutAbsent(projects: seq<Project>, id: int)
    requires forall i :: 0 <= i < |projects| ==> projects[i].id != id
    ensures Without(projects, id) == projects
  {
    Seqs.FilterAll(projects, (p: Project) => p.id != id);
  }

  class Calculator {
    var projects: seq<Project>
    var newProject: Draft

    constructor()
      ensures projects == InitialProjects && newProject == EmptyDraft
    {
      projects := InitialProjects;
      newProject := EmptyDraft;
    }

    /** `addProject`: a valid form becomes a new project, identified by the time `now`,
        and the form is reset; otherwise nothing changes. */
    method AddProject(now: int)
      modifies this
      ensures Submittable(old(newProject)) ==>
                projects == old(projects) + [ProjectOf(old(newProject), now)] && newProject == EmptyDraft
      ensures !Submittable(old(newProject)) ==>
                projects == old(projects) && newProject == old(newProject)
    {
      if newProject.name != "" && newProject.species != "" && newProject.area > 0.0 {
        projects := projects + [ProjectOf(newProject, now)];
        newProject := EmptyDraft;
      }
    }

    /** `removeProject`: drops the projects with that identifier. */
    method RemoveProject(id: int)
      modifies this
      ensures projects == Without(old(projects), id)
      ensures newProject == old(newProject)
    {
      projects := Without(projects, id);
    }
  }

  /** Adding a project adds its carbon, trees, area and annual carbon to the totals. */
  lemma TotalsAfterAdd(projects: seq<Project>, p: Project)
    ensures TotalStats(projects + [p]) == Add(TotalStats(projects), p)
  {
    assert (projects + [p])[..|projects + [p]| - 1] == projects;
  }
}
