/**
 * The in-memory database of the job board (src/lib/mockDatabase.ts): the
 * fixed job catalog, the table of registered users, and the operations over
 * them, namely e-mail lookup, registration, skill update, skill-overlap
 * recommendation and free-text search.
 */
module MockDatabase {
  import opened Options
  import opened Text
  import opened Seqs

  datatype User = User(id: string, name: string, email: string, password: string, skills: seq<string>)

  datatype Job = Job(
    id: string,
    title: string,
    company: string,
    description: string,
    requiredSkills: seq<string>,
    location: string,
    salary: string,
    postedDate: string)

  // ---------------------------------------------------------------------------
  // Seed data

  /** The one user the table starts with. */
  const SeedUser: User :=
    User("1", "John Doe", "john@example.com", "password123", ["JavaScript", "React", "TypeScript"])

  /** The job catalog, read-only for the whole run. */
  const Catalog: seq<Job> := [
    Job("1", "Frontend Developer", "Tech Solutions Inc.",
      "We are looking for a skilled Frontend Developer to join our team. You'll be responsible for building responsive user interfaces using React.",
      ["JavaScript", "React", "TypeScript", "HTML", "CSS"],
      "San Francisco, CA", "$100,000 - $130,000", "2025-04-20"),
    Job("2", "Backend Developer", "DataWare Systems",
      "Join our backend team to build robust and scalable APIs using Node.js and Express.",
      ["JavaScript", "Node.js", "Express", "MongoDB", "SQL"],
      "Remote", "$90,000 - $120,000", "2025-04-22"),
    Job("3", "Data Scientist", "Analytics Pro",
      "Looking for a data scientist to analyze large datasets and build machine learning models.",
      ["Python", "Machine Learning", "Data Science", "SQL", "Statistics"],
      "New York, NY", "$120,000 - $150,000", "2025-04-15"),
    Job("4", "DevOps Engineer", "Cloud Systems",
      "Help us automate and optimize our infrastructure using cloud technologies.",
      ["DevOps", "AWS", "Docker", "Kubernetes", "CI/CD"],
      "Chicago, IL", "$110,000 - $140,000", "2025-04-18"),
    Job("5", "Full Stack Developer", "WebApp Solutions",
      "Looking for a full stack developer who can work on both frontend and backend technologies.",
      ["JavaScript", "React", "Node.js", "MongoDB", "TypeScript"],
      "Austin, TX", "$95,000 - $125,000", "2025-04-23"),
    Job("6", "Machine Learning Engineer", "AI Innovations",
      "Join our team to build cutting-edge machine learning models for real-world applications.",
      ["Python", "Machine Learning", "TensorFlow", "PyTorch", "Data Science"],
      "Seattle, WA", "$130,000 - $160,000", "2025-04-17"),
    Job("7", "UI/UX Designer", "Design Masters",
      "Create beautiful and functional user interfaces for web and mobile applications.",
      ["UI/UX Design", "Figma", "Adobe XD", "User Research"],
      "Los Angeles, CA", "$85,000 - $110,000", "2025-04-21")
  ]

  /**
   * A catalog every posting of which can be scored: none has an empty skill
   * list, and none lists more than five skills.
   */
  predicate WellFormedCatalog(catalog: seq<Job>) {
    forall i :: 0 <= i < |catalog| ==> 0 < |catalog[i].requiredSkills| <= 5
  }

  /** `getAllJobs`: the seeded catalog, seven postings with pairwise distinct ids. */
  function GetAllJobs(): (r: seq<Job>)
    ensures |r| == 7
    ensures forall i, j :: 0 <= i < j < |r| ==> r[i].id != r[j].id
  {
    Catalog
  }

  /** Every seeded posting lists one to five skills, and no posting is listed twice. */
  lemma CatalogWellFormed()
    ensures WellFormedCatalog(GetAllJobs())
    ensures Distinct(GetAllJobs())
  {
  }

  // ---------------------------------------------------------------------------
  // Users: the lookup

  /** `users.find(user => user.email === email)`: the first user with exactly this e-mail. */
  function FindUserByEmail(users: seq<User>, email: string): (r: Option<User>)
    ensures r.None? <==> forall i :: 0 <= i < |users| ==> users[i].email != email
    ensures r.Some? ==> exists i :: 0 <= i < |users| && users[i] == r.value
                          && r.value.email == email
                          && forall j :: 0 <= j < i ==> users[j].email != email
    decreases |users|
  {
    if users == [] then None
    else if users[0].email == email then Some(users[0])
    else
      var r := FindUserByEmail(users[1..], email);
      assert forall j :: 1 <= j < |users| ==> users[j] == users[1..][j - 1];
      assert r.Some? ==> exists i :: 0 <= i < |users| && users[i] == r.value
                          && forall j :: 0 <= j < i ==> users[j].email != email by {
        if r.Some? {
          var i :| 0 <= i < |users[1..]| && users[1..][i] == r.value && r.value.email == email
                   && forall j :: 0 <= j < i ==> users[1..][j].email != email;
          assert users[i + 1] == r.value;
        }
      }
      r
  }

  /** `users.findIndex(user => user.id === userId)`: the first index with this id. */
  function IndexOfId(users: seq<User>, userId: string): (r: Option<nat>)
    ensures r.None? <==> forall i :: 0 <= i < |users| ==> users[i].id != userId
    ensures r.Some? ==> r.value < |users| && users[r.value].id == userId
                        && forall j :: 0 <= j < r.value ==> users[j].id != userId
    decreases |users|
  {
    if users == [] then None
    else if users[0].id == userId then Some(0)
    else
      match IndexOfId(users[1..], userId)
      case None => None
      case Some(i) => Some(i + 1)
  }

  /** The id invariant of the users table: the user at index i has id `(i + 1).toString()`. */
  ghost predicate SequentialIds(users: seq<User>) {
    forall i :: 0 <= i < |users| ==> users[i].id == NatToString(i + 1)
  }

  /** Sequential ids are unique ids. */
  lemma SequentialIdsAreUnique(users: seq<User>)
    requires SequentialIds(users)
    ensures forall i, j :: 0 <= i < j < |users| ==> users[i].id != users[j].id
  {
    forall i, j | 0 <= i < j < |users| ensures users[i].id != users[j].id {
      NatToStringInjective(i + 1, j + 1);
    }
  }

  /** Under the id invariant, the user with id `k.toString()` sits at index k - 1. */
  lemma IndexOfSequentialId(users: seq<User>, k: nat)
    requires SequentialIds(users) && 1 <= k <= |users|
    ensures IndexOfId(users, NatToString(k)) == Some(k - 1)
  {
    SequentialIdsAreUnique(users);
    var r := IndexOfId(users, NatToString(k));
    assert users[k - 1].id == NatToString(k);
    assert r.Some?;
  }

  // ---------------------------------------------------------------------------
  // Users: the mutable table

  /** The module-level `users` array, which registration and skill updates mutate. */
  class UserStore {
    var users: seq<User>

    ghost predicate Valid()
      reads this
    {
      SequentialIds(users)
    }

    /** The table as the module is loaded: the seed user only. */
    constructor ()
      ensures Valid()
      ensures users == [SeedUser]
    {
      users := [SeedUser];
    }

    /**
     * `registerUser`: appends a user whose id is the old length plus one and
     * returns it. It does not look for an existing user with the same e-mail.
     */
    method RegisterUser(name: string, email: string, password: string, skills: seq<string>)
      returns (newUser: User)
      requires Valid()
      modifies this
      ensures Valid()
      ensures newUser == User(NatToString(|old(users)| + 1), name, email, password, skills)
      ensures users == old(users) + [newUser]
    {
      newUser := User(NatToString(|users| + 1), name, email, password, skills);
      users := users + [newUser];
    }

    /**
     * `updateUserSkills`: replaces the skills of the first user with this id
     * and returns that user, or changes nothing and returns nothing.
     */
    method UpdateUserSkills(userId: string, skills: seq<string>) returns (r: Option<User>)
      requires Valid()
      modifies this
      ensures Valid()
      ensures IndexOfId(old(users), userId).None? ==> r.None? && users == old(users)
      ensures IndexOfId(old(users), userId).Some? ==>
                var i := IndexOfId(old(users), userId).value;
                && users == old(users)[i := old(users)[i].(skills := skills)]
                && r == Some(users[i])
    {
      var index := IndexOfId(users, userId);
      if index.None? {
        return None;
      }
      var i := index.value;
      users := users[i := users[i].(skills := skills)];
      r := Some(users[i]);
    }
  }

  // ---------------------------------------------------------------------------
  // Matching engine

  /** The test `skills.includes(skill)`. */
  function InSkills(skills: seq<string>): string -> bool {
    skill => skill in skills
  }

  /**
   * `requiredSkills.filter(skill => skills.includes(skill))`: the required
   * skills the user has, in the posting's order, each as often as the
   * posting lists it.
   */
  function MatchingSkills(requiredSkills: seq<string>, skills: seq<string>): (r: seq<string>)
    ensures IsSubsequence(r, requiredSkills)
    ensures forall s :: multiset(r)[s] == if s in skills then multiset(requiredSkills)[s] else 0
    ensures forall s :: s in r <==> s in requiredSkills && s in skills
  {
    FilterIsSubsequence(requiredSkills, InSkills(skills));
    FilterCount(requiredSkills, InSkills(skills));
    FilterMembers(requiredSkills, InSkills(skills));
    Filter(requiredSkills, InSkills(skills))
  }

  /**
   * How many entries of `requiredSkills` occur in `skills`, counted one
   * entry at a time: the reference count for the overlap.
   */
  function SharedCount(requiredSkills: seq<string>, skills: seq<string>): nat {
    if |requiredSkills| == 0 then 0
    else (if requiredSkills[0] in skills then 1 else 0) + SharedCount(requiredSkills[1..], skills)
  }

  /** The matching skills are exactly as many as the shared entries. */
  lemma {:induction false} MatchingSkillsCount(requiredSkills: seq<string>, skills: seq<string>)
    ensures |MatchingSkills(requiredSkills, skills)| == SharedCount(requiredSkills, skills)
    decreases |requiredSkills|
  {
    if |requiredSkills| > 0 {
      MatchingSkillsCount(requiredSkills[1..], skills);
    }
  }

  /** The overlap the recommender sorts by counts the job's required entries the user has. */
  lemma OverlapIsSharedCount(job: Job, skills: seq<string>)
    ensures Overlap(job, skills) == SharedCount(job.requiredSkills, skills)
  {
    MatchingSkillsCount(job.requiredSkills, skills);
  }

  /** Overlap count: the number of matching skills of the job. */
  function Overlap(job: Job, skills: seq<string>): (n: nat)
    ensures n <= |job.requiredSkills|
    ensures n > 0 <==> SharesSkill(job, skills)
  {
    var m := MatchingSkills(job.requiredSkills, skills);
    assert |m| > 0 ==> m[0] in m;
    assert SharesSkill(job, skills) ==> |m| > 0 by {
      if SharesSkill(job, skills) {
        var i :| 0 <= i < |job.requiredSkills| && job.requiredSkills[i] in skills;
        assert job.requiredSkills[i] in m;
      }
    }
    |m|
  }

  /** `requiredSkills.some(skill => skills.includes(skill))`. */
  predicate SharesSkill(job: Job, skills: seq<string>) {
    exists i :: 0 <= i < |job.requiredSkills| && job.requiredSkills[i] in skills
  }

  function SharesSkillWith(skills: seq<string>): Job -> bool {
    job => SharesSkill(job, skills)
  }

  function OverlapWith(skills: seq<string>): Job -> int {
    job => Overlap(job, skills)
  }

  /**
   * `getRecommendedJobs`, over a given catalog: the catalog itself for an
   * empty skill list; otherwise the postings sharing a skill with the user,
   * stably sorted by descending overlap count.
   */
  function GetRecommendedJobs(catalog: seq<Job>, skills: seq<string>): (r: seq<Job>)
    // no skills: the catalog itself, unfiltered and in its own order
    ensures |skills| == 0 ==> r == catalog
    // otherwise exactly the postings that share a skill, each as often as in the catalog
    ensures |skills| > 0 ==>
              forall job :: multiset(r)[job] == if SharesSkill(job, skills) then multiset(catalog)[job] else 0
    ensures |skills| > 0 ==> forall job :: job in r <==> job in catalog && SharesSkill(job, skills)
    // ordered by non-increasing overlap
    ensures |skills| > 0 ==> forall i, j :: 0 <= i < j < |r| ==> Overlap(r[i], skills) >= Overlap(r[j], skills)
    // stable: for each overlap count k >= 1, those postings appear in catalog order
    ensures |skills| > 0 ==> forall k :: k >= 1 ==>
              Filter(r, KeyIs(OverlapWith(skills), k)) == Filter(catalog, KeyIs(OverlapWith(skills), k))
  {
    if |skills| == 0 then catalog
    else
      RecommendedContents(catalog, skills);
      RecommendedOrder(catalog, skills);
      SortByKeyDescending(Filter(catalog, SharesSkillWith(skills)), OverlapWith(skills))
  }

  /** The sorted matches hold exactly the postings that share a skill, as often as the catalog does. */
  lemma RecommendedContents(catalog: seq<Job>, skills: seq<string>)
    ensures var r := SortByKeyDescending(Filter(catalog, SharesSkillWith(skills)), OverlapWith(skills));
            && (forall job :: multiset(r)[job] == if SharesSkill(job, skills) then multiset(catalog)[job] else 0)
            && (forall job :: job in r <==> job in catalog && SharesSkill(job, skills))
  {
    var matching := Filter(catalog, SharesSkillWith(skills));
    var r := SortByKeyDescending(matching, OverlapWith(skills));
    FilterCount(catalog, SharesSkillWith(skills));
    FilterMembers(catalog, SharesSkillWith(skills));
    forall job ensures job in r <==> job in matching {
      assert job in r <==> multiset(r)[job] > 0;
      assert job in matching <==> multiset(matching)[job] > 0;
    }
  }

  /** The sorted matches descend by overlap, and postings of equal positive overlap keep catalog order. */
  lemma RecommendedOrder(catalog: seq<Job>, skills: seq<string>)
    ensures var r := SortByKeyDescending(Filter(catalog, SharesSkillWith(skills)), OverlapWith(skills));
            && (forall i, j :: 0 <= i < j < |r| ==> Overlap(r[i], skills) >= Overlap(r[j], skills))
            && (forall k :: k >= 1 ==>
                  Filter(r, KeyIs(OverlapWith(skills), k)) == Filter(catalog, KeyIs(OverlapWith(skills), k)))
  {
    var matching := Filter(catalog, SharesSkillWith(skills));
    SortIsStable(matching, OverlapWith(skills));
    forall k | k >= 1
      ensures Filter(SortByKeyDescending(matching, OverlapWith(skills)), KeyIs(OverlapWith(skills), k))
           == Filter(catalog, KeyIs(OverlapWith(skills), k))
    {
      FilterOfFilter(catalog, SharesSkillWith(skills), KeyIs(OverlapWith(skills), k));
    }
  }

  /** In the seeded catalog every recommended posting appears exactly once. */
  lemma RecommendedOnce(skills: seq<string>, job: Job)
    requires |skills| > 0 && job in Catalog && SharesSkill(job, skills)
    ensures multiset(GetRecommendedJobs(Catalog, skills))[job] == 1
  {
    CatalogWellFormed();
    DistinctCount(Catalog, job);
  }

  // ---------------------------------------------------------------------------
  // Search engine

  /**
   * The search test on one posting for an already lower-cased query: the
   * query occurs in the lower-cased title, company, description or one of
   * the required skills.
   */
  predicate MatchesQuery(job: Job, lowerQuery: string) {
    || Contains(Lower(job.title), lowerQuery)
    || Contains(Lower(job.company), lowerQuery)
    || Contains(Lower(job.description), lowerQuery)
    || exists i :: 0 <= i < |job.requiredSkills| && Contains(Lower(job.requiredSkills[i]), lowerQuery)
  }

  function MatchesQueryOf(lowerQuery: string): Job -> bool {
    job => MatchesQuery(job, lowerQuery)
  }

  /** `searchJobs`, over a given catalog: case-insensitive substring filter in catalog order. */
  function SearchJobs(catalog: seq<Job>, query: string): (r: seq<Job>)
    ensures IsSubsequence(r, catalog)
    ensures forall job :: job in r <==> job in catalog && MatchesQuery(job, Lower(query))
    ensures forall job :: multiset(r)[job] == if MatchesQuery(job, Lower(query)) then multiset(catalog)[job] else 0
    ensures query == "" ==> r == catalog
  {
    var lowerQuery := Lower(query);
    FilterIsSubsequence(catalog, MatchesQueryOf(lowerQuery));
    FilterMembers(catalog, MatchesQueryOf(lowerQuery));
    FilterCount(catalog, MatchesQueryOf(lowerQuery));
    assert query == "" ==> Filter(catalog, MatchesQueryOf(lowerQuery)) == catalog by {
      if query == "" {
        forall i | 0 <= i < |catalog| ensures MatchesQuery(catalog[i], lowerQuery) {
          ContainsEmpty(Lower(catalog[i].title));
        }
        FilterAll(catalog, MatchesQueryOf(lowerQuery));
      }
    }
    Filter(catalog, MatchesQueryOf(lowerQuery))
  }

  /** Upper and lower case in the query make no difference. */
  lemma SearchIgnoresQueryCase(catalog: seq<Job>, query: string)
    ensures SearchJobs(catalog, Lower(query)) == SearchJobs(catalog, query)
  {
    LowerIdempotent(query);
  }
}
