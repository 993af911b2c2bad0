/** The records of backend/models: roles, the four stored entities, the
    request payloads with the constraints their `binding` tags impose, and
    the value sets of the string-typed enumerations. */
module Models {
  import opened Wrappers

  // ---------------------------------------------------------------- roles

  /** The three roles a user can hold. */
  datatype Role = Observer | Engineer | Manager

  /** A user row inserted without a role gets the column default. */
  const DefaultRole: Role := Observer

  /** The text a role is stored and transmitted as. */
  function RoleName(r: Role): string
  {
    match r
    case Observer => "observer"
    case Engineer => "engineer"
    case Manager => "manager"
  }

  /** Reads a role from its text; the only texts accepted are the three role
      names, and the role read back has exactly that name. */
  function ParseRole(s: string): (r: Option<Role>)
    ensures r.Some? <==> (s == "observer" || s == "engineer" || s == "manager")
    ensures r.Some? ==> RoleName(r.value) == s
  {
    if s == "manager" then Some(Manager)
    else if s == "engineer" then Some(Engineer)
    else if s == "observer" then Some(Observer)
    else None
  }

  lemma RoleNameRoundTrip(r: Role)
    ensures ParseRole(RoleName(r)) == Some(r)
  {
  }

  // ------------------------------------------- string-typed enumerations

  // Project, defect status and priority are Go string types: the named
  // constants below are the intended values, but the handlers store any
  // non-empty text a client sends.

  const ProjectStatusActive: string := "active"
  const ProjectStatusCompleted: string := "completed"
  const ProjectStatusSuspended: string := "suspended"

  const DefectStatusNew: string := "new"
  const DefectStatusInProgress: string := "in_progress"
  const DefectStatusReview: string := "review"
  const DefectStatusClosed: string := "closed"
  const DefectStatusCanceled: string := "canceled"

  const DefectPriorityLow: string := "low"
  const DefectPriorityMedium: string := "medium"
  const DefectPriorityHigh: string := "high"

  function ProjectStatuses(): set<string>
  {
    {ProjectStatusActive, ProjectStatusCompleted, ProjectStatusSuspended}
  }

  function DefectStatuses(): set<string>
  {
    {DefectStatusNew, DefectStatusInProgress, DefectStatusReview,
     DefectStatusClosed, DefectStatusCanceled}
  }

  function DefectPriorities(): set<string>
  {
    {DefectPriorityLow, DefectPriorityMedium, DefectPriorityHigh}
  }

  /** The enumerations have exactly three, five and three distinct values. */
  lemma EnumerationSizes()
    ensures |ProjectStatuses()| == 3
    ensures |DefectStatuses()| == 5
    ensures |DefectPriorities()| == 3
  {
    assert ProjectStatusActive != ProjectStatusCompleted by { assert ProjectStatusActive[0] != ProjectStatusCompleted[0]; }
    assert DefectStatusNew[0] != DefectStatusInProgress[0];
    assert DefectStatusReview[0] != DefectStatusClosed[0];
    assert DefectStatusClosed[1] != DefectStatusCanceled[1];
    assert DefectPriorityLow[0] != DefectPriorityMedium[0];
  }

  // ---------------------------------------------------------------- dates

  /** A `time.Time`, opaque except for whether it is the zero time. */
  datatype Date = ZeroTime | Instant(unixNanos: int)
  {
    predicate IsZero() { ZeroTime? }
  }

  // ------------------------------------------------------------- entities

  /** A user row; `deleted` is gorm's soft-delete marker. */
  datatype User = User(
    id: nat,
    username: string,
    email: string,
    passwordHash: string,
    fullName: string,
    role: Role,
    deleted: bool)

  /** What a handler sends back for a user: the password hash and the
      deletion marker are never serialized. */
  datatype UserView = UserView(id: nat, username: string, email: string, fullName: string, role: Role)

  function View(u: User): (v: UserView)
    ensures v.id == u.id && v.username == u.username && v.role == u.role
    ensures v.email == u.email && v.fullName == u.fullName
  {
    UserView(u.id, u.username, u.email, u.fullName, u.role)
  }

  /** The serialized user does not depend on the password hash. */
  lemma ViewHidesPasswordHash(u: User, hash: string)
    ensures View(u.(passwordHash := hash)) == View(u)
  {
  }

  datatype Project = Project(
    id: nat,
    name: string,
    description: string,
    location: string,
    startDate: Date,
    endDate: Date,
    status: string,
    managerId: nat,
    deleted: bool)

  datatype Defect = Defect(
    id: nat,
    title: string,
    description: string,
    projectId: nat,
    status: string,
    priority: string,
    reporterId: nat,
    assigneeId: nat,   // 0 means unassigned
    dueDate: Date,
    deleted: bool)

  datatype Comment = Comment(id: nat, defectId: nat, userId: nat, content: string, deleted: bool)

  // ------------------------------------------------------------- payloads

  /** The registration payload. It has no role field. */
  datatype UserRegistration = UserRegistration(username: string, email: string, password: string, fullName: string)

  /** The binding rules of UserRegistration: a username of 3 to 50
      characters, a non-empty email that the validator library accepts as
      an address (its verdict is `emailFormatOk`), a password of at least 6
      characters and a non-empty full name. */
  predicate RegistrationBinds(reg: UserRegistration, emailFormatOk: bool)
  {
    3 <= |reg.username| <= 50 && reg.email != "" && emailFormatOk
    && |reg.password| >= 6 && reg.fullName != ""
  }

  /** `username` may hold a username or an email address. */
  datatype UserLogin = UserLogin(username: string, password: string)

  predicate LoginBinds(l: UserLogin)
  {
    l.username != "" && l.password != ""
  }

  datatype ProjectCreate = ProjectCreate(
    name: string,
    description: string,
    location: string,
    startDate: Date,
    endDate: Date,
    status: string,
    managerId: nat)

  /** Name, location, both dates and the manager are required; status and
      description are optional. */
  predicate ProjectCreateBinds(pc: ProjectCreate)
  {
    pc.name != "" && pc.location != "" && !pc.startDate.IsZero() && !pc.endDate.IsZero()
    && pc.managerId != 0
  }

  /** Every field is optional: empty text, the zero date and 0 mean absent. */
  datatype ProjectUpdate = ProjectUpdate(
    name: string,
    description: string,
    location: string,
    startDate: Date,
    endDate: Date,
    status: string,
    managerId: nat)

  /** No status and no reporter: the server sets both. */
  datatype DefectCreate = DefectCreate(
    title: string,
    description: string,
    projectId: nat,
    priority: string,
    assigneeId: nat,
    dueDate: Date)

  predicate DefectCreateBinds(dc: DefectCreate)
  {
    dc.title != "" && dc.projectId != 0
  }

  /** No project and no reporter: an update cannot move a defect or change
      who reported it. */
  datatype DefectUpdate = DefectUpdate(
    title: string,
    description: string,
    status: string,
    priority: string,
    assigneeId: nat,
    dueDate: Date)

  /** No author: the server sets it. */
  datatype CommentCreate = CommentCreate(defectId: nat, content: string)

  predicate CommentCreateBinds(cc: CommentCreate)
  {
    cc.defectId != 0 && cc.content != ""
  }
}
