/** The projects endpoint: a user's projects are one array under `projects:<email>`. */
module ProjectsRoute {
  import opened Wrappers
  import opened Types
  import opened Http
  import opened Store

  const ProjectPrefix: string := "projects:"

  /** `getProjectKey`. */
  function ProjectKey(email: string): (r: string)
    ensures |r| == |ProjectPrefix| + |email| && r[..|ProjectPrefix|] == ProjectPrefix
    ensures r[|ProjectPrefix|..] == email
  {
    ProjectPrefix + email
  }

  /** Different users have different project keys. */
  lemma ProjectKeyInjective(a: string, b: string)
    requires ProjectKey(a) == ProjectKey(b)
    ensures a == b
  {
    assert a == ProjectKey(a)[|ProjectPrefix|..];
  }

  /** `(await redis.get(projectKey)) || []`. */
  function StoredProjects(db: Redis, email: string): (r: seq<Project>)
    reads db
    ensures db.GetProjects(ProjectKey(email)).None? ==> r == []
    ensures db.GetProjects(ProjectKey(email)).Some? ==> r == db.GetProjects(ProjectKey(email)).value
  {
    db.GetProjects(ProjectKey(email)).GetOr([])
  }

  predicate DistinctIds(ps: seq<Project>) {
    forall i, j :: 0 <= i < j < |ps| ==> ps[i].id != ps[j].id
  }

  /** No project in `ps` has the id `id`: what a freshly generated id is expected to be. */
  predicate FreshFor(ps: seq<Project>, id: string) {
    forall i :: 0 <= i < |ps| ==> ps[i].id != id
  }

  /** Appending a project whose id is new keeps the ids distinct. */
  lemma AppendFreshKeepsDistinct(ps: seq<Project>, p: Project)
    requires DistinctIds(ps) && FreshFor(ps, p.id)
    ensures DistinctIds(ps + [p])
  {
  }

  /** The fields of a POST body; a missing or non-numeric rate is `None`. */
  datatype ProjectBody = ProjectBody(name: Option<string>, hourlyRate: Option<real>)

  /** `hourlyRate` is truthy: present and not zero. */
  predicate RateTruthy(rate: Option<real>) {
    rate.Some? && rate.value != 0.0
  }

  /** Both the email and the user id are needed to create. */
  predicate CanCreate(s: Session) {
    Truthy(s.email) && Truthy(s.id)
  }

  const NameAndRateRequired: string := "Name and hourly rate are required"

  /** `GET`: 401 without an email; otherwise the stored projects, or none. */
  method Get(db: Redis, session: Session) returns (resp: Response<seq<Project>>)
    ensures !SignedIn(session) ==> resp == Denied()
    ensures SignedIn(session) ==> resp == Ok(200, StoredProjects(db, session.email.value))
  {
    if !SignedIn(session) {
      return Denied();
    }
    var projects := db.GetProjects(ProjectKey(session.email.value));
    resp := Ok(200, projects.GetOr([]));
  }

  /**
   * `POST`: 401 without both an email and a user id, 400 unless both the name and the rate are
   * truthy, and otherwise 201 with a new project, owned by the user id and under the fresh
   * id, appended after the stored ones. Nothing is written unless the project is created.
   */
  method Post(db: Redis, session: Session, body: ProjectBody, freshId: string) returns (resp: Response<Project>)
    modifies db
    ensures !CanCreate(session) ==> resp == Denied() && db.data == old(db.data)
    ensures CanCreate(session) && !(Truthy(body.name) && RateTruthy(body.hourlyRate)) ==>
              resp == Fail(400, NameAndRateRequired) && db.data == old(db.data)
    ensures CanCreate(session) && Truthy(body.name) && RateTruthy(body.hourlyRate) ==>
              resp == Ok(201, Project(freshId, body.name.value, body.hourlyRate.value, session.id.value))
              && db.data == old(db.data)[ProjectKey(session.email.value) :=
                   ProjectList(old(StoredProjects(db, session.email.value)) + [resp.value])]
    ensures resp.Ok? ==>
              StoredProjects(db, session.email.value) == old(StoredProjects(db, session.email.value)) + [resp.value]
    ensures resp.Ok? && DistinctIds(old(StoredProjects(db, session.email.value)))
            && FreshFor(old(StoredProjects(db, session.email.value)), freshId) ==>
              DistinctIds(StoredProjects(db, session.email.value))
  {
    if !CanCreate(session) {
      return Denied();
    }
    if !(Truthy(body.name) && RateTruthy(body.hourlyRate)) {
      return Fail(400, NameAndRateRequired);
    }
    var key := ProjectKey(session.email.value);
    var p := Project(freshId, body.name.value, body.hourlyRate.value, session.id.value);
    var projects := db.GetProjects(key).GetOr([]);
    if DistinctIds(projects) && FreshFor(projects, freshId) {
      AppendFreshKeepsDistinct(projects, p);
    }
    projects := projects + [p];
    db.Set(key, ProjectList(projects));
    resp := Ok(201, p);
  }

  /** A rate of zero counts as missing: the project is refused and nothing is stored. */
  method ZeroRateRefused(session: Session, name: string, freshId: string) returns (resp: Response<Project>, stored: seq<Project>)
    requires CanCreate(session)
    ensures resp == Fail(400, NameAndRateRequired) && stored == []
  {
    var db := new Redis(map[]);
    resp := Post(db, session, ProjectBody(Some(name), Some(0.0)), freshId);
    stored := StoredProjects(db, session.email.value);
  }

  /** Two projects created in turn under fresh ids are listed in creation order, with distinct ids. */
  method CreateTwo(session: Session, a: ProjectBody, b: ProjectBody, id1: string, id2: string)
    returns (listed: Response<seq<Project>>)
    requires CanCreate(session) && id1 != id2
    requires Truthy(a.name) && RateTruthy(a.hourlyRate) && Truthy(b.name) && RateTruthy(b.hourlyRate)
    ensures listed.Ok? && |listed.value| == 2 && DistinctIds(listed.value)
    ensures listed.value[0].name == a.name.value && listed.value[1].name == b.name.value
  {
    var db := new Redis(map[]);
    var r1 := Post(db, session, a, id1);
    var r2 := Post(db, session, b, id2);
    listed := Get(db, session);
  }

  /** Creating a project under a fresh id, over stored projects with distinct ids, keeps the ids distinct. */
  method CreateKeepsIdsDistinct(initial: seq<Project>, session: Session, body: ProjectBody, freshId: string)
    returns (created: Response<Project>, listed: Response<seq<Project>>)
    requires CanCreate(session) && Truthy(body.name) && RateTruthy(body.hourlyRate)
    requires DistinctIds(initial) && FreshFor(initial, freshId)
    ensures created.Ok? && created.value.id == freshId
    ensures listed.Ok? && listed.value == initial + [created.value] && DistinctIds(listed.value)
  {
    var db := new Redis(map[ProjectKey(session.email.value) := ProjectList(initial)]);
    created := Post(db, session, body, freshId);
    listed := Get(db, session);
  }
}
