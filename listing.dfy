/** The home page's job search (src/pages/Index.tsx): a free-text search over
    title, company and skills, narrowed by an optional location and an
    optional employment type. */
module Listing {
  import Seqs
  import opened Text

  /** A job as the home page lists it. */
  datatype Job = Job(
    id: string,
    title: string,
    company: string,
    location: string,
    salary: string,
    jobType: string,
    experience: string,
    skills: seq<string>,
    description: string,
    posted: string,
    logo: string,
    featured: bool)

  /** The three inputs of the search bar; `""` in a filter means "all". */
  datatype Query = Query(searchTerm: string, locationFilter: string, typeFilter: string)

  /** The term, lower-cased, occurs in the lower-cased title, company or
      some lower-cased skill. */
  predicate MatchesSearch(job: Job, term: string) {
    var t := ToLower(term);
    || Includes(ToLower(job.title), t)
    || Includes(ToLower(job.company), t)
    || exists skill | skill in job.skills :: Includes(ToLower(skill), t)
  }

  /** An empty filter lets every job through; otherwise the location must be
      equal, character for character. */
  predicate MatchesLocation(job: Job, locationFilter: string) {
    locationFilter == "" || job.location == locationFilter
  }

  predicate MatchesType(job: Job, typeFilter: string) {
    typeFilter == "" || job.jobType == typeFilter
  }

  predicate Matches(job: Job, q: Query) {
    MatchesSearch(job, q.searchTerm) && MatchesLocation(job, q.locationFilter) && MatchesType(job, q.typeFilter)
  }

  /** The test `filter` applies for the query `q`. */
  function Matcher(q: Query): Job -> bool {
    job => Matches(job, q)
  }

  /** The jobs the home page shows for `q`. */
  function FilteredJobs(jobs: seq<Job>, q: Query): (r: seq<Job>)
    ensures |r| <= |jobs|
    ensures forall k :: 0 <= k < |r| ==>
      && r[k] in jobs
      && MatchesSearch(r[k], q.searchTerm)
      && (q.locationFilter != "" ==> r[k].location == q.locationFilter)
      && (q.typeFilter != "" ==> r[k].jobType == q.typeFilter)
    ensures forall i :: 0 <= i < |jobs| && Matches(jobs[i], q) ==> jobs[i] in r
  {
    Seqs.Filter(jobs, Matcher(q))
  }

  /** The indices of the jobs that match `q`. */
  function MatchPositions(jobs: seq<Job>, q: Query): seq<nat> {
    Seqs.Positions(jobs, Matcher(q))
  }

  /** The result is `jobs` at increasing indices, and those indices are
      exactly the ones whose job matches: nothing is reordered, and a job
      listed twice is kept twice. */
  lemma FilteredJobsInOrder(jobs: seq<Job>, q: Query)
    ensures Seqs.IsStableSelection(FilteredJobs(jobs, q), jobs, MatchPositions(jobs, q), Matcher(q))
  {
    Seqs.FilterSelects(jobs, Matcher(q));
  }

  /** With an empty search term and no filters, every job is shown, in order. */
  lemma EmptyQueryShowsAll(jobs: seq<Job>)
    ensures FilteredJobs(jobs, Query("", "", "")) == jobs
  {
    var q := Query("", "", "");
    forall i | 0 <= i < |jobs|
      ensures Matcher(q)(jobs[i])
    {
      assert ToLower("") == "";
      assert Includes(ToLower(jobs[i].title), "");
    }
    Seqs.FilterKeepsAll(jobs, Matcher(q));
  }

  /** Searching the result again with the same query gives the same result. */
  lemma FilteredJobsIdempotent(jobs: seq<Job>, q: Query)
    ensures FilteredJobs(FilteredJobs(jobs, q), q) == FilteredJobs(jobs, q)
  {
    Seqs.FilterIdempotent(jobs, Matcher(q));
  }

  /** A skill that contains the term is enough for a job to be shown, whatever
      its title and company say. */
  lemma SkillMatchSuffices(jobs: seq<Job>, q: Query, i: nat, skill: string)
    requires i < |jobs| && skill in jobs[i].skills
    requires Includes(ToLower(skill), ToLower(q.searchTerm))
    requires MatchesLocation(jobs[i], q.locationFilter) && MatchesType(jobs[i], q.typeFilter)
    ensures jobs[i] in FilteredJobs(jobs, q)
  {
  }

  /** The search does not depend on the case of the term: two terms with the
      same lower-case form give the same result. */
  lemma SearchIgnoresCase(jobs: seq<Job>, q: Query, term: string)
    requires ToLower(term) == ToLower(q.searchTerm)
    ensures FilteredJobs(jobs, q.(searchTerm := term)) == FilteredJobs(jobs, q)
  {
    Seqs.FilterCongruent(jobs, Matcher(q.(searchTerm := term)), Matcher(q));
  }

  /** A sample posting whose only mention of React is one of its skills. */
  function BackendWithReact(): Job {
    Job("1", "Backend Developer", "TechViet Solutions", "Hồ Chí Minh", "25-35 triệu VND",
        "Full-time", "3-5 năm", ["React", "TypeScript"], "", "2 ngày trước", "", true)
  }

  /** The title of that posting does not contain "react"... */
  lemma ReactNotInTitle()
    ensures !Includes(ToLower(BackendWithReact().title), ToLower("react"))
  {
    assert ToLower("react") == "react";
    assert BackendWithReact().title == "Backend Developer";
    LetterNotInLower("Backend Developer", 't', 'T');
    MissingCharNotIncluded(ToLower("Backend Developer"), "react", 4);
  }

  /** ... and neither does its company. */
  lemma ReactNotInCompany()
    ensures !Includes(ToLower(BackendWithReact().company), ToLower("react"))
  {
    assert ToLower("react") == "react";
    assert BackendWithReact().company == "TechViet Solutions";
    LetterNotInLower("TechViet Solutions", 'r', 'R');
    MissingCharNotIncluded(ToLower("TechViet Solutions"), "react", 0);
  }

  /** Searching "react" still finds the posting, through its skill "React". */
  lemma ReactFoundBySkill()
    ensures FilteredJobs([BackendWithReact()], Query("react", "", "")) == [BackendWithReact()]
  {
    var job := BackendWithReact();
    var q := Query("react", "", "");
    assert ToLower("React") == "react" == ToLower("react");
    assert "React" in job.skills;
    assert Includes("react", "react");
    assert Matcher(q)(job);
    Seqs.FilterKeepsAll([job], Matcher(q));
  }
}
