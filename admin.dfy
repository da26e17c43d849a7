/** The admin dashboard (src/pages/Admin.tsx): a moderation list of job
    postings with approve, reject and delete handlers, a title/company
    search, the status pie chart and the recent-jobs panel. */
module Admin {
  import Seqs
  import opened Text

  datatype Status = Active | Pending | Rejected

  /** A job as the dashboard lists it. */
  datatype Job = Job(
    id: string,
    title: string,
    company: string,
    location: string,
    salary: string,
    status: Status,
    applications: int,
    postedDate: string,
    views: int)

  /** The headline numbers; they are loaded alongside the list and are never
      recomputed from it. */
  datatype Stats = Stats(totalJobs: int, activeJobs: int, pendingJobs: int, companies: int, applications: int)

  /** The three values of the status pie chart. */
  datatype PieSlices = PieSlices(active: int, pending: int, rejected: int)

  /** The pie chart: active and pending are read from the stats, and the
      rejected slice is whatever remains of the total. */
  function PieData(stats: Stats): (r: PieSlices)
    ensures r.active == stats.activeJobs && r.pending == stats.pendingJobs
    ensures r.active + r.pending + r.rejected == stats.totalJobs
    ensures r.rejected >= 0 <==> stats.activeJobs + stats.pendingJobs <= stats.totalJobs
  {
    PieSlices(stats.activeJobs, stats.pendingJobs, stats.totalJobs - stats.activeJobs - stats.pendingJobs)
  }

  /** The per-job update `map` applies: the job with id `jobId` gets `status`. */
  function StatusSetter(jobId: string, status: Status): Job -> Job {
    (job: Job) => if job.id == jobId then job.(status := status) else job
  }

  /** The list after every job with id `jobId` has been given `status`,
      whatever status it had before. */
  function WithStatus(jobs: seq<Job>, jobId: string, status: Status): (r: seq<Job>)
    ensures |r| == |jobs|
    ensures forall i :: 0 <= i < |jobs| ==>
      && r[i].(status := jobs[i].status) == jobs[i]
      && r[i].status == (if jobs[i].id == jobId then status else jobs[i].status)
  {
    Seqs.Map(jobs, StatusSetter(jobId, status))
  }

  /** Changing the status of an id that is not listed changes nothing. */
  lemma WithStatusAbsent(jobs: seq<Job>, jobId: string, status: Status)
    requires forall i :: 0 <= i < |jobs| ==> jobs[i].id != jobId
    ensures WithStatus(jobs, jobId, status) == jobs
  {
    var r := WithStatus(jobs, jobId, status);
    assert forall i :: 0 <= i < |jobs| ==> r[i] == jobs[i];
  }

  /** Giving the same status twice is giving it once. */
  lemma WithStatusIdempotent(jobs: seq<Job>, jobId: string, status: Status)
    ensures WithStatus(WithStatus(jobs, jobId, status), jobId, status) == WithStatus(jobs, jobId, status)
  {
    var r := WithStatus(jobs, jobId, status);
    var rr := WithStatus(r, jobId, status);
    forall i | 0 <= i < |jobs|
      ensures rr[i] == r[i]
    {
      assert r[i].id == jobs[i].id;
    }
  }

  /** The test `filter` applies when deleting `jobId`. */
  function KeepsId(jobId: string): Job -> bool {
    (job: Job) => job.id != jobId
  }

  /** The list after deleting `jobId`: exactly the jobs with another id. */
  function WithoutJob(jobs: seq<Job>, jobId: string): (r: seq<Job>)
    ensures forall k :: 0 <= k < |r| ==> r[k] in jobs && r[k].id != jobId
    ensures forall i :: 0 <= i < |jobs| && jobs[i].id != jobId ==> jobs[i] in r
  {
    Seqs.Filter(jobs, KeepsId(jobId))
  }

  /** Delete keeps the remaining jobs in their original order. */
  lemma WithoutJobInOrder(jobs: seq<Job>, jobId: string)
    ensures Seqs.IsStableSelection(WithoutJob(jobs, jobId), jobs, Seqs.Positions(jobs, KeepsId(jobId)), KeepsId(jobId))
  {
    Seqs.FilterSelects(jobs, KeepsId(jobId));
  }

  /** Deleting an id that is not listed changes nothing. */
  lemma WithoutJobAbsent(jobs: seq<Job>, jobId: string)
    requires forall i :: 0 <= i < |jobs| ==> jobs[i].id != jobId
    ensures WithoutJob(jobs, jobId) == jobs
  {
    Seqs.FilterKeepsAll(jobs, KeepsId(jobId));
  }

  /** The admin search: the lower-cased term in the lower-cased title or
      company. Skills play no part here. */
  predicate MatchesAdminSearch(job: Job, term: string) {
    Includes(ToLower(job.title), ToLower(term)) || Includes(ToLower(job.company), ToLower(term))
  }

  function AdminMatcher(term: string): Job -> bool {
    job => MatchesAdminSearch(job, term)
  }

  /** The jobs listed in the management tab for the search box's `term`. */
  function SearchJobs(jobs: seq<Job>, term: string): (r: seq<Job>)
    ensures |r| <= |jobs|
    ensures forall k :: 0 <= k < |r| ==> r[k] in jobs && MatchesAdminSearch(r[k], term)
    ensures forall i :: 0 <= i < |jobs| && MatchesAdminSearch(jobs[i], term) ==> jobs[i] in r
  {
    Seqs.Filter(jobs, AdminMatcher(term))
  }

  /** The search keeps the original order of the jobs it lists. */
  lemma SearchJobsInOrder(jobs: seq<Job>, term: string)
    ensures Seqs.IsStableSelection(SearchJobs(jobs, term), jobs, Seqs.Positions(jobs, AdminMatcher(term)), AdminMatcher(term))
  {
    Seqs.FilterSelects(jobs, AdminMatcher(term));
  }

  /** An empty search box lists every job. */
  lemma EmptySearchListsAll(jobs: seq<Job>)
    ensures SearchJobs(jobs, "") == jobs
  {
    forall i | 0 <= i < |jobs|
      ensures AdminMatcher("")(jobs[i])
    {
      assert ToLower("") == "";
      assert Includes(ToLower(jobs[i].title), "");
    }
    Seqs.FilterKeepsAll(jobs, AdminMatcher(""));
  }

  /** The recent-jobs panel, `jobs.slice(0, 5)`: the first five jobs, or all
      of them when there are fewer. */
  function RecentJobs(jobs: seq<Job>): (r: seq<Job>)
    ensures |r| <= 5 && r <= jobs
    ensures |jobs| <= 5 ==> r == jobs
    ensures |jobs| >= 5 ==> |r| == 5
  {
    if |jobs| <= 5 then jobs else jobs[..5]
  }

  /** The dashboard's state: the stats and the job list the page loaded, and
      the text in the search box. */
  class Dashboard {
    var stats: Stats
    var jobs: seq<Job>
    var searchTerm: string

    /** The page once its mount effect has installed `stats` and `jobs`. */
    constructor (stats: Stats, jobs: seq<Job>)
      ensures this.stats == stats && this.jobs == jobs && searchTerm == ""
    {
      this.stats := stats;
      this.jobs := jobs;
      searchTerm := "";
    }

    /** `handleApprove`: every job with this id becomes active; the handler
        does not look at the status it had. */
    method Approve(jobId: string)
      modifies this
      ensures jobs == WithStatus(old(jobs), jobId, Active)
      ensures stats == old(stats) && searchTerm == old(searchTerm)
    {
      jobs := WithStatus(jobs, jobId, Active);
    }

    /** `handleReject`: every job with this id becomes rejected, whatever its
        status was. */
    method Reject(jobId: string)
      modifies this
      ensures jobs == WithStatus(old(jobs), jobId, Rejected)
      ensures stats == old(stats) && searchTerm == old(searchTerm)
    {
      jobs := WithStatus(jobs, jobId, Rejected);
    }

    /** `handleDelete`: every job with this id is removed. */
    method Delete(jobId: string)
      modifies this
      ensures jobs == WithoutJob(old(jobs), jobId)
      ensures stats == old(stats) && searchTerm == old(searchTerm)
    {
      jobs := WithoutJob(jobs, jobId);
    }

    /** Typing in the search box. */
    method SetSearchTerm(term: string)
      modifies this
      ensures searchTerm == term
      ensures jobs == old(jobs) && stats == old(stats)
    {
      searchTerm := term;
    }
  }
}
