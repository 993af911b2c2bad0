/** The database as the handlers see it through gorm: four tables keyed by
    primary key, each row carrying gorm's soft-delete marker. Every query
    gorm builds for a model with `DeletedAt` leaves deleted rows out; the
    unique indexes on `users.username` and `users.email` still see them.
    Primary keys come from a per-table sequence starting at 1. */
module Store {
  import opened Wrappers
  import opened Models
  import opened Strconv

  // ------------------------------------------------------- query helpers

  /** The keys below `n` of the rows the conditions accept: the rows
      gorm's `Find` reads. `Find` sends no ORDER BY, so the database may
      return them in any order; the model lists them in ascending key
      order. */
  function KeysBelow<T>(table: map<nat, T>, n: nat, keep: T -> bool): (ks: seq<nat>)
    ensures forall i, j :: 0 <= i < j < |ks| ==> ks[i] < ks[j]
    ensures forall k :: k in ks <==> (k < n && k in table && keep(table[k]))
  {
    if n == 0 then []
    else
      var prev := KeysBelow(table, n - 1, keep);
      if n - 1 in table && keep(table[n - 1]) then
        assert forall i :: 0 <= i < |prev| ==> prev[i] < n - 1 by {
          forall i | 0 <= i < |prev| ensures prev[i] < n - 1 {
            assert prev[i] in prev;
          }
        }
        prev + [n - 1]
      else prev
  }


  /** gorm's `First` on a table whose keys are all below `n`: the key of
      the row with the smallest primary key among those the conditions
      accept, or none (`ErrRecordNotFound`). */
  function FirstKey<T>(table: map<nat, T>, n: nat, keep: T -> bool): (k: Option<nat>)
    ensures k.Some? ==> k.value < n && k.value in table && keep(table[k.value])
    ensures k.Some? ==> forall j :: j < n && j in table && keep(table[j]) ==> k.value <= j
    ensures k.None? <==> forall j :: j < n && j in table ==> !keep(table[j])
  {
    var ks := KeysBelow(table, n, keep);
    if ks == [] then None
    else
      assert forall j :: j < n && j in table && keep(table[j]) ==> ks[0] <= j by {
        forall j | j < n && j in table && keep(table[j]) ensures ks[0] <= j {
          assert j in ks;
        }
      }
      assert ks[0] in ks;
      Some(ks[0])
  }

  /** The rows of `table` at `ks`, in that order. */
  function RowsAt<T>(table: map<nat, T>, ks: seq<nat>): (rows: seq<T>)
    requires forall k :: k in ks ==> k in table
    ensures |rows| == |ks| && forall i :: 0 <= i < |ks| ==> rows[i] == table[ks[i]]
  {
    seq(|ks|, i requires 0 <= i < |ks| => table[ks[i]])
  }

  // ------------------------------------------------- integer parameters

  /** Every id column of the schema is a PostgreSQL `INTEGER`: 32 bits. */
  const MinInteger: int := -0x8000_0000
  const MaxInteger: int := 0x7fff_ffff

  /** Text bound as a query parameter compared with an `INTEGER` column:
      PostgreSQL reads it only when it is a decimal integer within the
      column's 32-bit range, and otherwise refuses the whole query. */
  predicate IntegerParam(text: string)
  {
    Atoi(text).Some? && MinInteger <= Atoi(text).value <= MaxInteger
  }

  /** Text `Atoi` reads can still be refused by the database: the decimal
      text of 2^31 is a 64-bit `int` but no `INTEGER`. */
  lemma WideIdTextRefused()
    ensures Atoi(Itoa(MaxInteger + 1)).Some?
    ensures !IntegerParam(Itoa(MaxInteger + 1))
  {
    AtoiItoa(MaxInteger + 1);
  }

  // -------------------------------------------------- primary-key lookups

  /** `First(&row, id)` with a numeric id: the row under that key, if it
      exists and is not soft-deleted. */
  function LiveRow<T>(table: map<nat, T>, id: int, live: T -> bool): Option<T>
  {
    if id >= 0 && id in table && live(table[id]) then Some(table[id]) else None
  }

  /** gorm turns `First(&row, id)` into the query "id = ? and not deleted,
      lowest id first"; in a table whose rows carry their own keys, that
      query finds a row exactly when the direct key lookup does, and the
      same row. */
  lemma PrimaryKeyLookup<T>(table: map<nat, T>, n: nat, id: int, live: T -> bool, key: T -> nat)
    requires forall k :: k in table ==> key(table[k]) == k && k < n
    ensures LiveRow(table, id, live).Some? <==> FirstKey(table, n, (r: T) => live(r) && key(r) == id).Some?
    ensures LiveRow(table, id, live).Some? ==>
              && FirstKey(table, n, (r: T) => live(r) && key(r) == id) == Some(id as nat)
              && LiveRow(table, id, live).value == table[id]
  {
    var keep := (r: T) => live(r) && key(r) == id;
    var first := FirstKey(table, n, keep);
    if LiveRow(table, id, live).Some? {
      assert id < n && keep(table[id]);
      assert first.Some?;
      assert key(table[first.value]) == first.value;
    }
  }

  function LiveUser(users: map<nat, User>, id: int): Option<User>
  {
    LiveRow(users, id, (u: User) => !u.deleted)
  }

  function LiveProject(projects: map<nat, Project>, id: int): Option<Project>
  {
    LiveRow(projects, id, (p: Project) => !p.deleted)
  }

  function LiveDefect(defects: map<nat, Defect>, id: int): Option<Defect>
  {
    LiveRow(defects, id, (d: Defect) => !d.deleted)
  }

  function LiveComment(comments: map<nat, Comment>, id: int): Option<Comment>
  {
    LiveRow(comments, id, (c: Comment) => !c.deleted)
  }

  // ------------------------------------------------------ table invariants

  predicate UsersKeyed(t: map<nat, User>, next: nat)
  {
    forall k :: k in t ==> t[k].id == k && 0 < k < next
  }

  predicate ProjectsKeyed(t: map<nat, Project>, next: nat)
  {
    forall k :: k in t ==> t[k].id == k && 0 < k < next
  }

  predicate DefectsKeyed(t: map<nat, Defect>, next: nat)
  {
    forall k :: k in t ==> t[k].id == k && 0 < k < next
  }

  predicate CommentsKeyed(t: map<nat, Comment>, next: nat)
  {
    forall k :: k in t ==> t[k].id == k && 0 < k < next
  }

  /** The unique indexes: no two user rows, deleted or not, share a
      username or an email. */
  predicate UniqueCredentials(users: map<nat, User>)
  {
    forall i, j :: i in users && j in users && i != j ==>
      users[i].username != users[j].username && users[i].email != users[j].email
  }

  /** Whether inserting a user with this username and email would break a
      unique index. */
  predicate Collides(users: map<nat, User>, username: string, email: string)
  {
    exists k :: k in users && (users[k].username == username || users[k].email == email)
  }

  /** Adding a row that breaks no unique index keeps the indexes unique. */
  lemma InsertKeepsCredentialsUnique(users: map<nat, User>, u: User)
    requires UniqueCredentials(users)
    requires u.id !in users && !Collides(users, u.username, u.email)
    ensures UniqueCredentials(users[u.id := u])
  {
  }

  /** Rewriting a row with its username and email unchanged keeps the
      indexes unique. */
  lemma SaveKeepsCredentialsUnique(users: map<nat, User>, u: User)
    requires UniqueCredentials(users)
    requires u.id in users && users[u.id].username == u.username && users[u.id].email == u.email
    ensures UniqueCredentials(users[u.id := u])
  {
  }

  /** The whole content of the database at one moment. */
  datatype Tables = Tables(
    users: map<nat, User>,
    projects: map<nat, Project>,
    defects: map<nat, Defect>,
    comments: map<nat, Comment>,
    nextUserId: nat,
    nextProjectId: nat,
    nextDefectId: nat,
    nextCommentId: nat)

  class Database {
    var users: map<nat, User>
    var projects: map<nat, Project>
    var defects: map<nat, Defect>
    var comments: map<nat, Comment>
    var nextUserId: nat
    var nextProjectId: nat
    var nextDefectId: nat
    var nextCommentId: nat

    ghost predicate Valid()
      reads this
    {
      && 0 < nextUserId && 0 < nextProjectId && 0 < nextDefectId && 0 < nextCommentId
      && UsersKeyed(users, nextUserId)
      && ProjectsKeyed(projects, nextProjectId)
      && DefectsKeyed(defects, nextDefectId)
      && CommentsKeyed(comments, nextCommentId)
      && UniqueCredentials(users)
    }

    function State(): Tables
      reads this
    {
      Tables(users, projects, defects, comments, nextUserId, nextProjectId, nextDefectId, nextCommentId)
    }

    /** An empty database whose sequences start at 1. */
    constructor ()
      ensures Valid()
      ensures users == map[] && projects == map[] && defects == map[] && comments == map[]
      ensures nextUserId == 1 && nextProjectId == 1 && nextDefectId == 1 && nextCommentId == 1
    {
      users, projects, defects, comments := map[], map[], map[], map[];
      nextUserId, nextProjectId, nextDefectId, nextCommentId := 1, 1, 1, 1;
    }
  }
}
