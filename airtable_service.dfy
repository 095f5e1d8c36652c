/** The record-store service: every operation of `airtableService` over an in-memory
    base of three tables (Projects, Comments, Users). */
module AirtableService {
  import opened Wrappers
  import opened Records
  import opened Entities
  import opened Queries
  import opened Statistics

  /** Why a call failed: the store did not answer, the store has no record with the
      given id, or the service threw an error of its own. */
  datatype Error = Unreachable | NotFound | Thrown(message: string)

  const ProjectNotFound := "Project not found"
  const UserErrorPrefix := "Erreur lors de la création de l'utilisateur: "
  const UsersTableUnavailable := "La table Users n'existe pas ou n'est pas accessible. Veuillez vérifier que la table existe dans votre base Airtable avec les champs: username, password, role"
  const DuplicateUsername := "Un utilisateur avec ce nom existe déjà"

  /** The cells of a record after a like: one more like, every other cell as it was. */
  function LikedCells(f: ProjectFields): (g: ProjectFields)
    ensures g.likes == Some(LikesOf(f) + 1)
    ensures g.(likes := f.likes) == f
  {
    f.(likes := Some(LikesOf(f) + 1))
  }

  /** `addLike` as a table transition: read the record, add one to its likes (an empty
      cell counts as 0), write that one cell back, and return the new count. */
  function Liked(t: Table<ProjectFields>, id: RecordId): Result<(Table<ProjectFields>, int), Error>
  {
    match Lookup(t, id)
    case None => Err(Thrown(ProjectNotFound))
    case Some(row) =>
      Ok((Replace(t, id, LikedCells(row.fields)), LikesOf(row.fields) + 1))
  }

  /** A like on an existing project writes old + 1 (an empty cell counting as 0) into
      its likes cell, changes no other cell, returns the new count and keeps the table's
      length. */
  lemma LikedIncrements(t: Table<ProjectFields>, id: RecordId)
    requires HasId(t, id)
    ensures Liked(t, id).Ok?
    ensures Liked(t, id).value.1 == LikesOf(Lookup(t, id).value.fields) + 1
    ensures Lookup(Liked(t, id).value.0, id) == Some(Row(id, LikedCells(Lookup(t, id).value.fields)))
    ensures |Liked(t, id).value.0| == |t|
  {
    LookupReplaced(t, id, LikedCells(Lookup(t, id).value.fields));
  }

  /** A like leaves every other record as it was. */
  lemma LikedLeavesOthers(t: Table<ProjectFields>, id: RecordId, other: RecordId)
    requires HasId(t, id) && other != id
    ensures Liked(t, id).Ok? && Lookup(Liked(t, id).value.0, other) == Lookup(t, other)
  {
    LookupOtherAfterReplace(t, id, LikedCells(Lookup(t, id).value.fields), other);
  }

  /** A like on an unknown id fails with 'Project not found' and writes nothing. */
  lemma LikedUnknown(t: Table<ProjectFields>, id: RecordId)
    requires !HasId(t, id)
    ensures Liked(t, id) == Err(Thrown(ProjectNotFound))
  {
  }

  /** Two likes in sequence (not concurrent) add two. */
  lemma LikedTwice(t: Table<ProjectFields>, id: RecordId)
    requires HasId(t, id)
    ensures Liked(t, id).Ok?
    ensures Liked(Liked(t, id).value.0, id).Ok?
    ensures Liked(Liked(t, id).value.0, id).value.1 == LikesOf(Lookup(t, id).value.fields) + 2
  {
    LikedIncrements(t, id);
    var t1 := Liked(t, id).value.0;
    assert Lookup(t1, id).Some?;
    LikedIncrements(t1, id);
  }

  /** `cell` after an update that sends `change` (a field left `undefined` is not sent). */
  function Patch<T>(cell: Option<T>, change: Option<T>): Option<T>
  {
    if change.Some? then change else cell
  }

  /** The cells of a project record after `updateProject` sends `changes`. */
  function PatchProject(f: ProjectFields, changes: ProjectFields): ProjectFields
  {
    ProjectFields(
      Patch(f.name, changes.name), Patch(f.description, changes.description),
      Patch(f.technologies, changes.technologies), Patch(f.projectLink, changes.projectLink),
      Patch(f.githubLink, changes.githubLink), Patch(f.demoLink, changes.demoLink),
      Patch(f.images, changes.images), Patch(f.thumbnail, changes.thumbnail),
      Patch(f.promotion, changes.promotion), Patch(f.students, changes.students),
      Patch(f.category, changes.category), Patch(f.tags, changes.tags),
      Patch(f.status, changes.status), Patch(f.difficulty, changes.difficulty),
      Patch(f.startDate, changes.startDate), Patch(f.endDate, changes.endDate),
      Patch(f.mentor, changes.mentor), Patch(f.achievements, changes.achievements),
      Patch(f.isHidden, changes.isHidden), Patch(f.likes, changes.likes))
  }

  /** An update that sends nothing changes nothing, and sending the same changes twice
      is the same as sending them once. */
  lemma PatchProjectLaws(f: ProjectFields, changes: ProjectFields)
    ensures PatchProject(f, BlankProject) == f
    ensures PatchProject(PatchProject(f, changes), changes) == PatchProject(f, changes)
  {
  }

  /** The remote base: three tables and the serial from which new record ids are drawn.
      `online` says whether the store answers during the request being modelled. */
  class Base {
    var projects: Table<ProjectFields>
    var comments: Table<CommentFields>
    var users: Table<UserFields>
    var nextSerial: nat
    const online: bool

    /** Every record id is unique within its table and was issued before `nextSerial`. */
    ghost predicate Valid()
      reads this
    {
      && IdsBelow(projects, nextSerial) && DistinctIds(projects)
      && IdsBelow(comments, nextSerial) && DistinctIds(comments)
      && IdsBelow(users, nextSerial) && DistinctIds(users)
    }

    constructor (online: bool)
      ensures Valid() && this.online == online
      ensures projects == [] && comments == [] && users == []
    {
      projects, comments, users := [], [], [];
      nextSerial := 0;
      this.online := online;
    }

    /** A record id the store has not issued yet. */
    method Issue() returns (id: RecordId)
      requires Valid()
      modifies this`nextSerial
      ensures Valid() && nextSerial == old(nextSerial) + 1
      ensures id == RecordId(old(nextSerial))
      ensures !HasId(projects, id) && !HasId(comments, id) && !HasId(users, id)
    {
      id := RecordId(nextSerial);
      nextSerial := nextSerial + 1;
    }

    /** `getAllProjects`: the visible projects, decoded with defaults. */
    method GetAllProjects(now: string) returns (r: Result<seq<Project>, Error>)
      ensures online ==> r == Ok(VisibleProjects(projects, now))
      ensures !online ==> r == Err(Unreachable)
    {
      if !online {
        return Err(Unreachable);
      }
      r := Ok(VisibleProjects(projects, now));
    }

    /** `getProjectById`: the decoded record, or null on any failure. */
    method GetProjectById(id: RecordId, now: string) returns (r: Option<Project>)
      ensures r.Some? <==> online && HasId(projects, id)
      ensures r.Some? ==> r.value == DecodeFound(Lookup(projects, id).value, now) && r.value.projectID == id
    {
      if !online {
        return None;
      }
      match Lookup(projects, id)
      case None => r := None;
      case Some(row) => r := Some(DecodeFound(row, now));
    }

    /** `createProject`: store the given cells with likes forced to 0 under a new id, and
        return them with that id. */
    method CreateProject(draft: ProjectFields) returns (r: Result<Row<ProjectFields>, Error>)
      requires Valid()
      modifies this
      ensures Valid()
      ensures comments == old(comments) && users == old(users)
      ensures !online ==> r == Err(Unreachable) && projects == old(projects)
      ensures online ==> && r.Ok?
                         && r.value.fields == draft.(likes := Some(0))
                         && !HasId(old(projects), r.value.id)
                         && projects == old(projects) + [r.value]
    {
      if !online {
        return Err(Unreachable);
      }
      var id := Issue();
      var row := Row(id, draft.(likes := Some(0)));
      projects := projects + [row];
      r := Ok(row);
    }

    /** `updateProject`: send the given cells to record `id` and return it decoded, or null. */
    method UpdateProject(id: RecordId, changes: ProjectFields, now: string) returns (r: Option<Project>)
      requires Valid()
      modifies this`projects
      ensures Valid()
      ensures !online || !HasId(old(projects), id) ==> r == None && projects == old(projects)
      ensures online && HasId(old(projects), id) ==>
        var cells := PatchProject(Lookup(old(projects), id).value.fields, changes);
        && projects == Replace(old(projects), id, cells)
        && r == Some(DecodeFound(Row(id, cells), now))
    {
      if !online {
        return None;
      }
      match Lookup(projects, id)
      case None => r := None;
      case Some(row) =>
        var cells := PatchProject(row.fields, changes);
        projects := Replace(projects, id, cells);
        r := Some(DecodeFound(Row(id, cells), now));
    }

    /** `addLike`: read the project, write its likes + 1, return the new count. A project
        that `getProjectById` cannot produce (unknown id, or no answer) throws
        'Project not found' before anything is written. */
    method AddLike(id: RecordId) returns (r: Result<int, Error>)
      requires Valid()
      modifies this`projects
      ensures Valid()
      ensures !online ==> r == Err(Thrown(ProjectNotFound)) && projects == old(projects)
      ensures online ==> match Liked(old(projects), id)
                         case Ok((t, n)) => projects == t && r == Ok(n)
                         case Err(e) => projects == old(projects) && r == Err(e)
    {
      var project := GetProjectById(id, "");
      if project.None? {
        return Err(Thrown(ProjectNotFound));
      }
      var row := Lookup(projects, id).value;
      var newLikes := project.value.likes + 1;
      projects := Replace(projects, id, row.fields.(likes := Some(newLikes)));
      r := Ok(newLikes);
    }

    /** `searchProjects`: the decoded records matching the query, hidden ones included. */
    method SearchProjects(query: string, now: string) returns (r: Result<seq<Project>, Error>)
      ensures online ==> r == Ok(SearchResults(projects, query, now))
      ensures !online ==> r == Err(Unreachable)
    {
      if !online {
        return Err(Unreachable);
      }
      r := Ok(SearchResults(projects, query, now));
    }

    /** `getStatistics`: count, likes sum and category histogram of the visible projects. */
    method GetStatistics(now: string) returns (r: Result<Stats, Error>)
      ensures !online ==> r == Err(Unreachable)
      ensures online ==>
        var ps := VisibleProjects(projects, now);
        && r.Ok?
        && r.value.totalProjects == |ps|
        && r.value.totalLikes == TotalLikes(ps)
        && r.value.categories.Keys == KeysOf(ps)
        && forall c :: c in r.value.categories ==> r.value.categories[c] == CountIn(ps, c)
    {
      var projects := GetAllProjects(now);
      if projects.Err? {
        return Err(projects.error);
      }
      var stats := Tally(projects.value);
      r := Ok(stats);
    }

    /** `getComments`: the comments whose projectID cell is `projectID`. */
    method GetComments(projectID: string) returns (r: Result<seq<Comment>, Error>)
      ensures online ==> r == Ok(CommentsFor(comments, projectID))
      ensures !online ==> r == Err(Unreachable)
    {
      if !online {
        return Err(Unreachable);
      }
      r := Ok(CommentsFor(comments, projectID));
    }

    /** `addComment`: store a comment stamped with the current time. */
    method AddComment(projectID: Option<string>, content: Option<string>, author: Option<string>, now: string)
      returns (r: Result<Comment, Error>)
      requires Valid()
      modifies this
      ensures Valid()
      ensures projects == old(projects) && users == old(users)
      ensures !online ==> r == Err(Unreachable) && comments == old(comments)
      ensures online ==> && r.Ok?
                         && r.value == Comment(r.value.commentID, projectID, content, author, Some(now))
                         && !HasId(old(comments), r.value.commentID)
                         && comments == old(comments) + [Row(r.value.commentID, CommentFields(projectID, content, author, Some(now)))]
    {
      if !online {
        return Err(Unreachable);
      }
      var id := Issue();
      var row := Row(id, CommentFields(projectID, content, author, Some(now)));
      comments := comments + [row];
      r := Ok(DecodeComment(row));
    }

    /** `getCommentById`: the decoded comment, or null on any failure. */
    method GetCommentById(id: RecordId) returns (r: Option<Comment>)
      ensures r.Some? <==> online && HasId(comments, id)
      ensures r.Some? ==> r.value == DecodeComment(Lookup(comments, id).value) && r.value.commentID == id
    {
      if !online {
        return None;
      }
      match Lookup(comments, id)
      case None => r := None;
      case Some(row) => r := Some(DecodeComment(row));
    }

    /** `updateComment`: send the given content, projectID and author, and return the
        comment decoded, or null. */
    method UpdateComment(id: RecordId, content: Option<string>, projectID: Option<string>, author: Option<string>)
      returns (r: Option<Comment>)
      requires Valid()
      modifies this`comments
      ensures Valid()
      ensures !online || !HasId(old(comments), id) ==> r == None && comments == old(comments)
      ensures online && HasId(old(comments), id) ==>
        var f := Lookup(old(comments), id).value.fields;
        var cells := CommentFields(Patch(f.projectID, projectID), Patch(f.content, content), Patch(f.author, author), f.createdAt);
        && comments == Replace(old(comments), id, cells)
        && r == Some(DecodeComment(Row(id, cells)))
    {
      if !online {
        return None;
      }
      match Lookup(comments, id)
      case None => r := None;
      case Some(row) =>
        var f := row.fields;
        var cells := CommentFields(Patch(f.projectID, projectID), Patch(f.content, content), Patch(f.author, author), f.createdAt);
        comments := Replace(comments, id, cells);
        r := Some(DecodeComment(Row(id, cells)));
    }

    /** `deleteComment`: destroy the record; an unknown id is an error. */
    method DeleteComment(id: RecordId) returns (r: Result<(), Error>)
      requires Valid()
      modifies this`comments
      ensures Valid()
      ensures !online ==> r == Err(Unreachable) && comments == old(comments)
      ensures online && !HasId(old(comments), id) ==> r == Err(NotFound) && comments == old(comments)
      ensures online && HasId(old(comments), id) ==> r == Ok(()) && comments == Remove(old(comments), id)
    {
      if !online {
        return Err(Unreachable);
      }
      if Lookup(comments, id).None? {
        return Err(NotFound);
      }
      comments := Remove(comments, id);
      r := Ok(());
    }

    /** `deleteProject`: destroy the record; its comments stay (there is no cascade). */
    method DeleteProject(id: RecordId) returns (r: Result<(), Error>)
      requires Valid()
      modifies this`projects
      ensures Valid()
      ensures !online ==> r == Err(Unreachable) && projects == old(projects)
      ensures online && !HasId(old(projects), id) ==> r == Err(NotFound) && projects == old(projects)
      ensures online && HasId(old(projects), id) ==> r == Ok(()) && projects == Remove(old(projects), id)
      ensures !HasId(projects, id)  || projects == old(projects)
    {
      if !online {
        return Err(Unreachable);
      }
      if Lookup(projects, id).None? {
        return Err(NotFound);
      }
      projects := Remove(projects, id);
      r := Ok(());
    }

    /** `getUserByUsername`: the first user with that username, or null. */
    method GetUserByUsername(username: string) returns (r: Result<Option<User>, Error>)
      ensures !online ==> r == Err(Unreachable)
      ensures online ==> r.Ok? && (r.value.None? <==> UserByName(users, username).None?)
      ensures online && r.value.Some? ==> r.value.value == DecodeUser(UserByName(users, username).value)
    {
      if !online {
        return Err(Unreachable);
      }
      match UserByName(users, username)
      case None => r := Ok(None);
      case Some(row) => r := Ok(Some(DecodeUser(row)));
    }

    /** `createUser`: refuse a username already taken, otherwise add exactly one record.
        Every error is rethrown with the prefix "Erreur lors de la création de l'utilisateur: ". */
    method CreateUser(user: UserFields) returns (r: Result<User, Error>)
      requires Valid()
      modifies this
      ensures Valid()
      ensures projects == old(projects) && comments == old(comments)
      ensures !online ==> r == Err(Thrown(UserErrorPrefix + UsersTableUnavailable)) && users == old(users)
      ensures online && UserByName(old(users), user.username).Some? ==>
                r == Err(Thrown(UserErrorPrefix + DuplicateUsername)) && users == old(users)
      ensures online && UserByName(old(users), user.username).None? ==>
                && r.Ok?
                && r.value == User(r.value.userID, user.username, user.password, user.role)
                && !HasId(old(users), r.value.userID)
                && users == old(users) + [Row(r.value.userID, user)]
      ensures UniqueUsernames(old(users)) ==> UniqueUsernames(users)
    {
      if !online {
        return Err(Thrown(UserErrorPrefix + UsersTableUnavailable));
      }
      var existing := GetUserByUsername(user.username);
      if existing.Err? || existing.value.Some? {
        return Err(Thrown(UserErrorPrefix + DuplicateUsername));
      }
      var id := Issue();
      var row := Row(id, user);
      users := users + [row];
      r := Ok(DecodeUser(row));
    }

    /** `getUserById`: the decoded user, or null on any failure. */
    method GetUserById(id: RecordId) returns (r: Option<User>)
      ensures r.Some? <==> online && HasId(users, id)
      ensures r.Some? ==> r.value == DecodeUser(Lookup(users, id).value) && r.value.userID == id
    {
      if !online {
        return None;
      }
      match Lookup(users, id)
      case None => r := None;
      case Some(row) => r := Some(DecodeUser(row));
    }

    /** `getAllUsers`: every user, in store order. */
    method GetAllUsers() returns (r: Result<seq<User>, Error>)
      ensures !online ==> r == Err(Unreachable)
      ensures online ==> r.Ok? && |r.value| == |users| &&
                         forall i :: 0 <= i < |users| ==> r.value[i] == DecodeUser(users[i])
    {
      if !online {
        return Err(Unreachable);
      }
      var rows := users;
      r := Ok(seq(|rows|, i requires 0 <= i < |rows| => DecodeUser(rows[i])));
    }
  }
}
