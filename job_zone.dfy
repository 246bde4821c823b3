/** The job board `client/src/pages/job-zone.tsx`: the search and type filter,
    the three summary figures and the badge colour of a job type. */
module JobZone {
  import opened Common

  /** A posting; `kind` is the `type` field. */
  datatype Job = Job(
    id: string,
    title: string,
    company: string,
    location: string,
    kind: string,
    salary: Option<string>,
    description: string,
    requirements: seq<string>,
    postedBy: string,
    postedDate: int,
    deadline: Option<int>)

  const JobTypes := ["Full-time", "Part-time", "Contract", "Internship"]

  /** The title, the company or the location includes the query, ignoring case. */
  predicate MatchesSearch(job: Job, query: string)
  {
    IncludesIgnoringCase(job.title, query) || IncludesIgnoringCase(job.company, query) || IncludesIgnoringCase(job.location, query)
  }

  /** `filterType === 'all' || job.type === filterType`. */
  predicate MatchesType(job: Job, filterType: string)
  {
    filterType == "all" || job.kind == filterType
  }

  function Shown(query: string, filterType: string): Job -> bool
  {
    (job: Job) => MatchesSearch(job, query) && MatchesType(job, filterType)
  }

  /** `filteredJobs`. */
  function FilteredJobs(jobs: seq<Job>, query: string, filterType: string): (r: seq<Job>)
    ensures forall j :: j in r <==> j in jobs && MatchesSearch(j, query) && MatchesType(j, filterType)
    ensures IsSubsequence(r, jobs)
    ensures forall j :: multiset(r)[j] == if MatchesSearch(j, query) && MatchesType(j, filterType) then multiset(jobs)[j] else 0
  {
    Filter(jobs, Shown(query, filterType))
  }

  /** An empty search under "all" shows the whole board. */
  lemma EverythingByDefault(jobs: seq<Job>)
    ensures FilteredJobs(jobs, "", "all") == jobs
  {
    forall i | 0 <= i < |jobs|
      ensures Shown("", "all")(jobs[i])
    {
      ContainsEmpty(ToLower(jobs[i].title));
    }
    FilterKeepsAll(jobs, Shown("", "all"));
  }

  /** Choosing a type never shows more than "all" does for the same query. */
  lemma TypeFilterNarrows(jobs: seq<Job>, query: string, filterType: string)
    ensures forall j | j in FilteredJobs(jobs, query, filterType) :: j in FilteredJobs(jobs, query, "all")
    ensures |FilteredJobs(jobs, query, filterType)| <= |FilteredJobs(jobs, query, "all")|
  {
    TypeFilterNarrowsCount(jobs, query, filterType);
  }

  lemma {:induction false} TypeFilterNarrowsCount(jobs: seq<Job>, query: string, filterType: string)
    ensures |Filter(jobs, Shown(query, filterType))| <= |Filter(jobs, Shown(query, "all"))|
  {
    if jobs != [] {
      TypeFilterNarrowsCount(jobs[1..], query, filterType);
    }
  }

  // ---------------------------------------------------------------------------
  // Summary figures
  // ---------------------------------------------------------------------------

  /** The locations of the jobs, as `new Set(jobs.map(j => j.location))` collects them. */
  function Locations(jobs: seq<Job>): (r: set<string>)
    ensures forall l :: l in r <==> exists i | 0 <= i < |jobs| :: jobs[i].location == l
    ensures |r| <= |jobs|
    decreases |jobs|
  {
    if jobs == [] then {}
    else
      var rest := Locations(jobs[..|jobs| - 1]);
      assert forall i | 0 <= i < |jobs| - 1 :: jobs[..|jobs| - 1][i] == jobs[i];
      rest + {jobs[|jobs| - 1].location}
  }

  /** "Locations": the number of different location strings. */
  function LocationCount(jobs: seq<Job>): (n: nat)
    ensures n <= |jobs|
    ensures jobs != [] ==> n >= 1
  {
    if jobs != [] then assert jobs[0].location in Locations(jobs); |Locations(jobs)|
    else |Locations(jobs)|
  }

  /** Jobs at one place count once: the figure is one however many there are. */
  lemma OneLocation(jobs: seq<Job>, place: string)
    requires jobs != []
    requires forall i | 0 <= i < |jobs| :: jobs[i].location == place
    ensures LocationCount(jobs) == 1
  {
    assert Locations(jobs) == {place} by {
      assert jobs[0].location == place;
    }
  }

  /** `j.salary` is truthy: present and not the empty string. */
  predicate HasSalary(job: Job)
  {
    job.salary.Some? && job.salary.value != ""
  }

  function Salaried(): Job -> bool
  {
    (job: Job) => HasSalary(job)
  }

  /** "With Salary Info": `jobs.filter(j => j.salary).length`. */
  function WithSalaryCount(jobs: seq<Job>): (n: nat)
    ensures n <= |jobs|
    ensures n == |jobs| <==> forall i | 0 <= i < |jobs| :: HasSalary(jobs[i])
    ensures n == 0 <==> forall i | 0 <= i < |jobs| :: !HasSalary(jobs[i])
  {
    var kept := Filter(jobs, Salaried());
    SalaryCountBounds(jobs);
    |kept|
  }

  lemma {:induction false} SalaryCountBounds(jobs: seq<Job>)
    ensures |Filter(jobs, Salaried())| == |jobs| <==> forall i | 0 <= i < |jobs| :: HasSalary(jobs[i])
    ensures |Filter(jobs, Salaried())| == 0 <==> forall i | 0 <= i < |jobs| :: !HasSalary(jobs[i])
  {
    if jobs != [] {
      var rest := jobs[1..];
      var kept := Filter(rest, Salaried());
      SalaryCountBounds(rest);
      assert |kept| <= |rest|;
      if HasSalary(jobs[0]) {
        assert Filter(jobs, Salaried()) == [jobs[0]] + kept;
        AllOrNoneStep(jobs, true);
      } else {
        assert Filter(jobs, Salaried()) == kept;
        AllOrNoneStep(jobs, false);
      }
    }
  }

  /** Whether every job, or none, has a salary is decided by the first job and the rest. */
  lemma AllOrNoneStep(jobs: seq<Job>, first: bool)
    requires jobs != [] && HasSalary(jobs[0]) == first
    ensures (forall i | 0 <= i < |jobs| :: HasSalary(jobs[i])) <==> first && forall i | 0 <= i < |jobs| - 1 :: HasSalary(jobs[1..][i])
    ensures (forall i | 0 <= i < |jobs| :: !HasSalary(jobs[i])) <==> !first && forall i | 0 <= i < |jobs| - 1 :: !HasSalary(jobs[1..][i])
  {
    assert forall i | 1 <= i < |jobs| :: jobs[i] == jobs[1..][i - 1];
  }

  // ---------------------------------------------------------------------------
  // Badges
  // ---------------------------------------------------------------------------

  const GreyBadge := "bg-gray-500/20 text-gray-400 border-gray-500/30"

  /** `getTypeColor`: each of the four job types has its own colour, anything
      else is grey. */
  function TypeColor(kind: string): (r: string)
    ensures r == GreyBadge <==> kind !in JobTypes
  {
    match kind
    case "Full-time" => "bg-green-500/20 text-green-400 border-green-500/30"
    case "Part-time" => "bg-blue-500/20 text-blue-400 border-blue-500/30"
    case "Contract" => "bg-purple-500/20 text-purple-400 border-purple-500/30"
    case "Internship" => "bg-orange-500/20 text-orange-400 border-orange-500/30"
    case _ => GreyBadge
  }

  /** Two different job types never share a badge. */
  lemma TypeColorsDistinct(a: string, b: string)
    requires a in JobTypes && b in JobTypes && a != b
    ensures TypeColor(a) != TypeColor(b)
  {
  }
}
