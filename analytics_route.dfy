/** The dashboard statistics of the analytics endpoint, computed from the
    user's active projects with their datasets, visualizations and pages:
    totals, activity in the last seven days, datasets per technique, and the
    storage the datasets take. */
module AnalyticsRoute {
  import opened Wrappers

  /** A dataset as the statistics see it: upload time in milliseconds since
      the epoch, technique label, and file size when recorded. */
  datatype Dataset = Dataset(uploadedAt: int, technique: string, fileSize: Option<nat>)

  /** A project with its creation time and its lists; only the number of
      visualizations and pages matters here. */
  datatype Project = Project(createdAt: int, datasets: seq<Dataset>,
                             visualizationCount: nat, pageCount: nat)

  const DayMs := 86400000
  const WeekMs := 7 * DayMs

  // ---- Totals ----

  function TotalDatasets(projects: seq<Project>): nat
    decreases |projects|
  {
    if |projects| == 0 then 0
    else TotalDatasets(projects[..|projects| - 1]) + |projects[|projects| - 1].datasets|
  }

  function TotalVisualizations(projects: seq<Project>): nat
    decreases |projects|
  {
    if |projects| == 0 then 0
    else TotalVisualizations(projects[..|projects| - 1]) + projects[|projects| - 1].visualizationCount
  }

  function TotalPages(projects: seq<Project>): nat
    decreases |projects|
  {
    if |projects| == 0 then 0
    else TotalPages(projects[..|projects| - 1]) + projects[|projects| - 1].pageCount
  }

  /** Every dataset of every project, project by project. */
  function AllDatasets(projects: seq<Project>): (r: seq<Dataset>)
    decreases |projects|
  {
    if |projects| == 0 then []
    else AllDatasets(projects[..|projects| - 1]) + projects[|projects| - 1].datasets
  }

  /** `totalDatasets` counts each dataset once. */
  lemma {:induction false} TotalDatasetsCountsAll(projects: seq<Project>)
    ensures TotalDatasets(projects) == |AllDatasets(projects)|
    decreases |projects|
  {
    if |projects| > 0 {
      TotalDatasetsCountsAll(projects[..|projects| - 1]);
    }
  }

  // ---- Recent activity ----

  /** `new Date(t) >= oneWeekAgo`, with the cutoff seven days before `now`. */
  predicate InLastWeek(t: int, now: int) {
    t >= now - WeekMs
  }

  function ProjectsThisWeek(projects: seq<Project>, now: int): (n: nat)
    ensures n <= |projects|
    decreases |projects|
  {
    if |projects| == 0 then 0
    else ProjectsThisWeek(projects[..|projects| - 1], now)
         + (if InLastWeek(projects[|projects| - 1].createdAt, now) then 1 else 0)
  }

  function RecentCount(datasets: seq<Dataset>, now: int): (n: nat)
    ensures n <= |datasets|
    decreases |datasets|
  {
    if |datasets| == 0 then 0
    else RecentCount(datasets[..|datasets| - 1], now)
         + (if InLastWeek(datasets[|datasets| - 1].uploadedAt, now) then 1 else 0)
  }

  function DatasetsThisWeek(projects: seq<Project>, now: int): nat
    decreases |projects|
  {
    if |projects| == 0 then 0
    else DatasetsThisWeek(projects[..|projects| - 1], now) + RecentCount(projects[|projects| - 1].datasets, now)
  }

  /** Recent datasets are a part of all datasets. */
  lemma {:induction false} DatasetsThisWeekBounded(projects: seq<Project>, now: int)
    ensures DatasetsThisWeek(projects, now) <= TotalDatasets(projects)
    decreases |projects|
  {
    if |projects| > 0 {
      DatasetsThisWeekBounded(projects[..|projects| - 1], now);
    }
  }

  /** The cutoff is inclusive: something exactly seven days old still counts,
      one millisecond older does not. */
  lemma CutoffIsInclusive(now: int)
    ensures InLastWeek(now - WeekMs, now)
    ensures !InLastWeek(now - WeekMs - 1, now)
  {
  }

  // ---- Technique distribution ----

  datatype Distribution = Distribution(cv: nat, eis: nat, batteryCycling: nat, ca: nat, cp: nat, other: nat)

  function Sum(d: Distribution): nat {
    d.cv + d.eis + d.batteryCycling + d.ca + d.cp + d.other
  }

  /** The counter one dataset increments: the five known labels by exact
      match, everything else (including "Unknown") in `other`. */
  function Bump(d: Distribution, technique: string): (r: Distribution)
    ensures Sum(r) == Sum(d) + 1
  {
    if technique == "CV" then d.(cv := d.cv + 1)
    else if technique == "EIS" then d.(eis := d.eis + 1)
    else if technique == "BatteryCycling" then d.(batteryCycling := d.batteryCycling + 1)
    else if technique == "CA" then d.(ca := d.ca + 1)
    else if technique == "CP" then d.(cp := d.cp + 1)
    else d.(other := d.other + 1)
  }

  /** Any label outside the five known ones, "Unknown" among them, is
      counted as `other`. */
  lemma UnknownIsOther(d: Distribution, technique: string)
    requires technique !in {"CV", "EIS", "BatteryCycling", "CA", "CP"}
    ensures Bump(d, technique) == d.(other := d.other + 1)
  {
  }

  /** The distribution after counting `datasets` in order. */
  function Tally(datasets: seq<Dataset>): Distribution
    decreases |datasets|
  {
    if |datasets| == 0 then Distribution(0, 0, 0, 0, 0, 0)
    else Bump(Tally(datasets[..|datasets| - 1]), datasets[|datasets| - 1].technique)
  }

  lemma {:induction false} TallySum(datasets: seq<Dataset>)
    ensures Sum(Tally(datasets)) == |datasets|
    decreases |datasets|
  {
    if |datasets| > 0 {
      TallySum(datasets[..|datasets| - 1]);
    }
  }

  lemma TallySnoc(datasets: seq<Dataset>, d: Dataset)
    ensures Tally(datasets + [d]) == Bump(Tally(datasets), d.technique)
  {
    assert (datasets + [d])[..|datasets|] == datasets;
  }

  lemma TallyStep(before: seq<Dataset>, datasets: seq<Dataset>, j: nat)
    requires j < |datasets|
    ensures Tally(before + datasets[..j + 1]) == Bump(Tally(before + datasets[..j]), datasets[j].technique)
  {
    TallySnoc(before + datasets[..j], datasets[j]);
    assert before + datasets[..j] + [datasets[j]] == before + datasets[..j + 1];
  }

  lemma AllDatasetsSnoc(projects: seq<Project>, p: nat)
    requires p < |projects|
    ensures AllDatasets(projects[..p + 1]) == AllDatasets(projects[..p]) + projects[p].datasets
  {
    assert projects[..p + 1][..p] == projects[..p];
  }

  /** One step of the inner `forEach`: the if-chain on the technique label. */
  method Increment(dist: Distribution, technique: string) returns (r: Distribution)
    ensures r == Bump(dist, technique)
  {
    r := dist;
    if technique == "CV" { r := r.(cv := r.cv + 1); }
    else if technique == "EIS" { r := r.(eis := r.eis + 1); }
    else if technique == "BatteryCycling" { r := r.(batteryCycling := r.batteryCycling + 1); }
    else if technique == "CA" { r := r.(ca := r.ca + 1); }
    else if technique == "CP" { r := r.(cp := r.cp + 1); }
    else { r := r.(other := r.other + 1); }
  }

  /** The techniqueDistribution counters, incremented in the two nested loops. */
  method TechniqueDistribution(projects: seq<Project>) returns (dist: Distribution)
    ensures dist == Tally(AllDatasets(projects))
  {
    dist := Distribution(0, 0, 0, 0, 0, 0);
    for p := 0 to |projects|
      invariant dist == Tally(AllDatasets(projects[..p]))
    {
      dist := CountDatasets(dist, AllDatasets(projects[..p]), projects[p].datasets);
      AllDatasetsSnoc(projects, p);
    }
    assert projects[..|projects|] == projects;
  }

  /** The inner loop over one project's datasets. */
  method CountDatasets(dist: Distribution, ghost before: seq<Dataset>, datasets: seq<Dataset>)
    returns (r: Distribution)
    requires dist == Tally(before)
    ensures r == Tally(before + datasets)
  {
    r := dist;
    assert before + datasets[..0] == before;
    for j := 0 to |datasets|
      invariant r == Tally(before + datasets[..j])
    {
      r := Increment(r, datasets[j].technique);
      TallyStep(before, datasets, j);
    }
    assert datasets[..|datasets|] == datasets;
  }

  /** Each dataset increments exactly one counter: the counters add up to
      the total number of datasets. */
  lemma DistributionSumsToTotal(projects: seq<Project>)
    ensures Sum(Tally(AllDatasets(projects))) == TotalDatasets(projects)
  {
    TallySum(AllDatasets(projects));
    TotalDatasetsCountsAll(projects);
  }

  // ---- Storage ----

  /** `d.fileSize ? Number(d.fileSize) : 0`. */
  function SizeOf(d: Dataset): nat {
    match d.fileSize
    case Some(n) => n
    case None => 0
  }

  function DatasetStorage(datasets: seq<Dataset>): nat
    decreases |datasets|
  {
    if |datasets| == 0 then 0
    else DatasetStorage(datasets[..|datasets| - 1]) + SizeOf(datasets[|datasets| - 1])
  }

  function StorageUsed(projects: seq<Project>): nat
    decreases |projects|
  {
    if |projects| == 0 then 0
    else StorageUsed(projects[..|projects| - 1]) + DatasetStorage(projects[|projects| - 1].datasets)
  }

  lemma {:induction false} DatasetStorageAppend(a: seq<Dataset>, b: seq<Dataset>)
    ensures DatasetStorage(a + b) == DatasetStorage(a) + DatasetStorage(b)
    decreases |b|
  {
    if |b| == 0 {
      assert a + b == a;
    } else {
      assert (a + b)[..|a + b| - 1] == a + b[..|b| - 1];
      DatasetStorageAppend(a, b[..|b| - 1]);
    }
  }

  /** The storage figure is the sum of the recorded sizes over all
      datasets; a dataset without a size adds nothing. */
  lemma {:induction false} StorageIsSizeSum(projects: seq<Project>)
    ensures StorageUsed(projects) == DatasetStorage(AllDatasets(projects))
    decreases |projects|
  {
    if |projects| > 0 {
      StorageIsSizeSum(projects[..|projects| - 1]);
      DatasetStorageAppend(AllDatasets(projects[..|projects| - 1]), projects[|projects| - 1].datasets);
    }
  }

  /** The response body. */
  datatype Analytics = Analytics(
    totalProjects: nat, totalDatasets: nat, totalVisualizations: nat, totalPages: nat,
    projectsThisWeek: nat, datasetsThisWeek: nat,
    techniqueDistribution: Distribution, storageUsed: nat)

  /** The statistics for `projects` at time `now`. */
  method ComputeAnalytics(projects: seq<Project>, now: int) returns (a: Analytics)
    ensures a.totalProjects == |projects| && a.totalDatasets == TotalDatasets(projects)
    ensures a.totalVisualizations == TotalVisualizations(projects) && a.totalPages == TotalPages(projects)
    ensures a.projectsThisWeek == ProjectsThisWeek(projects, now) <= a.totalProjects
    ensures a.datasetsThisWeek == DatasetsThisWeek(projects, now) <= a.totalDatasets
    ensures a.techniqueDistribution == Tally(AllDatasets(projects))
    ensures Sum(a.techniqueDistribution) == a.totalDatasets
    ensures a.storageUsed == DatasetStorage(AllDatasets(projects))
  {
    var dist := TechniqueDistribution(projects);
    DatasetsThisWeekBounded(projects, now);
    DistributionSumsToTotal(projects);
    StorageIsSizeSum(projects);
    a := Analytics(|projects|, TotalDatasets(projects), TotalVisualizations(projects), TotalPages(projects),
                   ProjectsThisWeek(projects, now), DatasetsThisWeek(projects, now), dist, StorageUsed(projects));
  }
}
