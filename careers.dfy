/**
 * The Careers page: four filter buttons narrow the list of open positions
 * to all of them, the remote ones, or one department.
 */
module Careers {
  import opened Seqs
  import opened Text

  /** The fields of a job position that the filter reads. */
  datatype JobPosition = JobPosition(id: nat, title: string, department: string, remote: bool)

  const AllPositions := "all"
  const RemoteOnly := "remote"

  /** The `jobPositions` records, restricted to the fields above. */
  const JobPositions: seq<JobPosition> := [
    JobPosition(1, "Senior Full Stack Developer", "Engineering", true),
    JobPosition(2, "DevOps Engineer", "Infrastructure", true)
  ]

  /** The values behind the filter buttons, in the order they are rendered. */
  const FilterOptions: seq<string> := [AllPositions, "engineering", "infrastructure", RemoteOnly]

  /**
   * The test applied to each job when the filter is not "all": "remote" asks
   * for a remote job; any other value must equal the department letter for
   * letter once the department is lower-cased.
   */
  function MatchesFilter(job: JobPosition, filter: string): (r: bool)
    ensures filter == RemoteOnly ==> (r <==> job.remote)
    ensures filter != RemoteOnly ==>
      (r <==> |filter| == |job.department| &&
              forall i :: 0 <= i < |filter| ==> filter[i] == LowerChar(job.department[i]))
  {
    if filter == RemoteOnly then job.remote else Lower(job.department) == filter
  }

  /** `filteredJobs`. */
  function FilteredJobs(jobs: seq<JobPosition>, filter: string): (r: seq<JobPosition>)
    ensures filter == AllPositions ==> r == jobs
    ensures filter != AllPositions ==>
      forall job :: job in r <==> job in jobs && MatchesFilter(job, filter)
  {
    if filter == AllPositions then jobs
    else Filter(jobs, job => MatchesFilter(job, filter))
  }

  /** Every filter keeps the order of `jobs`. */
  lemma FilteredJobsInOrder(jobs: seq<JobPosition>, filter: string)
    ensures IsSubsequence(FilteredJobs(jobs, filter), jobs)
  {
    if filter == AllPositions {
      SubsequenceOfSelf(jobs);
    } else {
      FilterIsSubsequence(jobs, job => MatchesFilter(job, filter));
    }
  }

  lemma {:induction false} SubsequenceOfSelf(jobs: seq<JobPosition>)
    ensures IsSubsequence(jobs, jobs)
  {
    if jobs != [] {
      SubsequenceOfSelf(jobs[1..]);
    }
  }

  /** "remote" keeps exactly the remote jobs and never looks at the department. */
  lemma RemoteFilter(jobs: seq<JobPosition>, jobs': seq<JobPosition>)
    requires |jobs| == |jobs'|
    requires forall i :: 0 <= i < |jobs| ==> jobs'[i] == jobs[i].(department := jobs'[i].department)
    ensures forall job :: job in FilteredJobs(jobs, RemoteOnly) <==> job in jobs && job.remote
    ensures |FilteredJobs(jobs, RemoteOnly)| == |FilteredJobs(jobs', RemoteOnly)|
    ensures forall k :: 0 <= k < |FilteredJobs(jobs, RemoteOnly)| ==>
      FilteredJobs(jobs', RemoteOnly)[k] ==
        FilteredJobs(jobs, RemoteOnly)[k].(department := FilteredJobs(jobs', RemoteOnly)[k].department)
    decreases |jobs|
  {
    if jobs != [] {
      RemoteFilter(jobs[1..], jobs'[1..]);
      assert jobs'[0].remote == jobs[0].remote;
    }
  }

  /** A department filter spelled with an upper-case letter matches no job, since departments are compared lower-cased. */
  lemma UpperCaseFilterMatchesNothing(jobs: seq<JobPosition>, filter: string, k: nat)
    requires k < |filter| && IsUpper(filter[k])
    ensures FilteredJobs(jobs, filter) == []
  {
    assert filter != AllPositions && filter != RemoteOnly by {
      assert forall c :: c in AllPositions ==> !IsUpper(c);
      assert forall c :: c in RemoteOnly ==> !IsUpper(c);
      assert filter[k] in filter;
    }
    forall i | 0 <= i < |jobs| ensures !MatchesFilter(jobs[i], filter) {
      var d := Lower(jobs[i].department);
      if |d| == |filter| {
        assert d[k] != filter[k];
      }
    }
    FilterKeepsNone(jobs, job => MatchesFilter(job, filter));
  }

  lemma LowerEngineering()
    ensures Lower("Engineering") == "engineering"
  {
    LowerCapitalised('E', "ngineering");
  }

  lemma LowerInfrastructure()
    ensures Lower("Infrastructure") == "infrastructure"
  {
    LowerCapitalised('I', "nfrastructure");
  }

  /** Lower-casing a capitalised word only changes its first letter. */
  lemma LowerCapitalised(c: char, rest: string)
    requires IsLowerCase(rest)
    ensures Lower([c] + rest) == [LowerChar(c)] + rest
  {
    assert ([c] + rest)[1..] == rest;
    LowerOfLowerCase(rest);
  }

  /** On the site's own data each department button shows that department's one position. */
  lemma EngineeringJobs()
    ensures FilteredJobs(JobPositions, "engineering") == [JobPositions[0]]
  {
    LowerEngineering();
    LowerInfrastructure();
    var p := job => MatchesFilter(job, "engineering");
    assert p(JobPositions[0]) && !p(JobPositions[1]);
    assert Filter(JobPositions[1..], p) == [];
  }

  lemma InfrastructureJobs()
    ensures FilteredJobs(JobPositions, "infrastructure") == [JobPositions[1]]
  {
    LowerEngineering();
    LowerInfrastructure();
    var p := job => MatchesFilter(job, "infrastructure");
    assert !p(JobPositions[0]) && p(JobPositions[1]);
    assert Filter(JobPositions[1..], p) == [JobPositions[1]];
  }

  lemma RemoteJobs()
    ensures FilteredJobs(JobPositions, RemoteOnly) == JobPositions
  {
    FilterKeepsAll(JobPositions, job => MatchesFilter(job, RemoteOnly));
  }

  /** The page's state: the selected filter. */
  class CareersPage {
    const jobs: seq<JobPosition>
    var filter: string

    constructor (jobs: seq<JobPosition>)
      ensures this.jobs == jobs && filter == AllPositions
      ensures Filtered() == jobs
    {
      this.jobs := jobs;
      filter := AllPositions;
    }

    function Filtered(): seq<JobPosition>
      reads this
    {
      FilteredJobs(jobs, filter)
    }

    /** Whether "No positions match your current filter." is shown. */
    function ShowsNoPositions(): (r: bool)
      reads this
      ensures filter == AllPositions ==> (r <==> jobs == [])
      ensures filter != AllPositions ==>
        (r <==> forall i :: 0 <= i < |jobs| ==> !MatchesFilter(jobs[i], filter))
    {
      var f := filter;
      if f != AllPositions && forall i :: 0 <= i < |jobs| ==> !MatchesFilter(jobs[i], f) then
        FilterKeepsNone(jobs, job => MatchesFilter(job, f));
        |Filtered()| == 0
      else
        |Filtered()| == 0
    }

    /** A filter button; one exists for each of `FilterOptions`. */
    method SelectFilter(option: string)
      requires option in FilterOptions
      modifies this
      ensures filter == option
    {
      filter := option;
    }

    /** "View All Positions" under the empty message. */
    method ViewAllPositions()
      modifies this
      ensures filter == AllPositions
      ensures Filtered() == jobs
      ensures ShowsNoPositions() <==> jobs == []
    {
      filter := AllPositions;
    }
  }
}
