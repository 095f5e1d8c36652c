/** The three kinds of record the service keeps (projects, comments, users), their
    cells as the store holds them, and the objects the service decodes them into. */
module Entities {
  import opened Wrappers
  import opened Records

  /** The cells of a Projects record. A cell the store leaves empty is `None`. */
  datatype ProjectFields = ProjectFields(
    name: Option<string>,
    description: Option<string>,
    technologies: Option<seq<string>>,
    projectLink: Option<string>,
    githubLink: Option<string>,
    demoLink: Option<string>,
    images: Option<seq<string>>,
    thumbnail: Option<string>,
    promotion: Option<string>,
    students: Option<seq<string>>,
    category: Option<string>,
    tags: Option<seq<string>>,
    status: Option<string>,
    difficulty: Option<string>,
    startDate: Option<string>,
    endDate: Option<string>,
    mentor: Option<string>,
    achievements: Option<string>,
    isHidden: Option<bool>,
    likes: Option<int>)

  /** A record whose every cell is empty. */
  const BlankProject := ProjectFields(None, None, None, None, None, None, None, None, None, None,
                                      None, None, None, None, None, None, None, None, None, None)

  /** A project as the service returns it. A text field left `None` is `undefined` in the
      returned object; the decoders decide which fields get a default instead. */
  datatype Project = Project(
    projectID: RecordId,
    name: Option<string>,
    description: Option<string>,
    technologies: seq<string>,
    projectLink: Option<string>,
    githubLink: Option<string>,
    demoLink: Option<string>,
    images: seq<string>,
    thumbnail: Option<string>,
    promotion: Option<string>,
    students: seq<string>,
    category: Option<string>,
    tags: seq<string>,
    status: string,
    difficulty: string,
    startDate: string,
    endDate: Option<string>,
    mentor: Option<string>,
    achievements: Option<string>,
    isHidden: bool,
    likes: int)

  /** The members of the `status` and `difficulty` type unions. */
  const Statuses: seq<string> := ["En cours", "Terminé", "En pause"]
  const Difficulties: seq<string> := ["Débutant", "Intermédiaire", "Avancé"]

  const DefaultStatus := "En cours"
  const DefaultDifficulty := "Intermédiaire"

  /** `cell || fallback` for a text cell: an empty cell and the empty string both give `fallback`. */
  function TextOr(cell: Option<string>, fallback: string): string
  {
    if cell.Some? && cell.value != "" then cell.value else fallback
  }

  /** The likes a record holds, `likes || 0`. */
  function LikesOf(f: ProjectFields): int
  {
    f.likes.GetOr(0)
  }

  /** The decoding of `getAllProjects`: every field that is absent gets a default. */
  function DecodeListed(row: Row<ProjectFields>, now: string): Project
  {
    var f := row.fields;
    Project(
      projectID := row.id,
      name := Some(f.name.GetOr("")),
      description := Some(f.description.GetOr("")),
      technologies := f.technologies.GetOr([]),
      projectLink := Some(f.projectLink.GetOr("")),
      githubLink := Some(f.githubLink.GetOr("")),
      demoLink := Some(f.demoLink.GetOr("")),
      images := f.images.GetOr([]),
      thumbnail := Some(f.thumbnail.GetOr("")),
      promotion := Some(f.promotion.GetOr("")),
      students := f.students.GetOr([]),
      category := Some(f.category.GetOr("")),
      tags := f.tags.GetOr([]),
      status := TextOr(f.status, DefaultStatus),
      difficulty := TextOr(f.difficulty, DefaultDifficulty),
      startDate := TextOr(f.startDate, now),
      endDate := Some(f.endDate.GetOr("")),
      mentor := Some(f.mentor.GetOr("")),
      achievements := Some(f.achievements.GetOr("")),
      isHidden := f.isHidden.GetOr(false),
      likes := LikesOf(f))
  }

  /** The decoding of `getProjectById`, `updateProject` and `searchProjects`: only the
      lists, status, difficulty, start date, hidden flag and likes get defaults. */
  function DecodeFound(row: Row<ProjectFields>, now: string): Project
  {
    var f := row.fields;
    Project(
      projectID := row.id,
      name := f.name,
      description := f.description,
      technologies := f.technologies.GetOr([]),
      projectLink := f.projectLink,
      githubLink := f.githubLink,
      demoLink := f.demoLink,
      images := f.images.GetOr([]),
      thumbnail := f.thumbnail,
      promotion := f.promotion,
      students := f.students.GetOr([]),
      category := f.category,
      tags := f.tags.GetOr([]),
      status := TextOr(f.status, DefaultStatus),
      difficulty := TextOr(f.difficulty, DefaultDifficulty),
      startDate := TextOr(f.startDate, now),
      endDate := f.endDate,
      mentor := f.mentor,
      achievements := f.achievements,
      isHidden := f.isHidden.GetOr(false),
      likes := LikesOf(f))
  }

  /** The cells a project is written back as: every field filled in. */
  function Cells(p: Project): ProjectFields
  {
    ProjectFields(p.name, p.description, Some(p.technologies), p.projectLink, p.githubLink,
                  p.demoLink, Some(p.images), p.thumbnail, p.promotion, Some(p.students),
                  p.category, Some(p.tags), Some(p.status), Some(p.difficulty), Some(p.startDate),
                  p.endDate, p.mentor, p.achievements, Some(p.isHidden), Some(p.likes))
  }

  /** A project every optional text field of which is present and whose status,
      difficulty and start date are not empty: the shape `getAllProjects` returns. */
  predicate Complete(p: Project)
  {
    && p.name.Some? && p.description.Some? && p.projectLink.Some? && p.githubLink.Some?
    && p.demoLink.Some? && p.thumbnail.Some? && p.promotion.Some? && p.category.Some?
    && p.endDate.Some? && p.mentor.Some? && p.achievements.Some?
    && p.status != "" && p.difficulty != "" && p.startDate != ""
  }

  /** A record with every cell empty decodes to the documented defaults: `''` for text,
      `[]` for lists, 'En cours', 'Intermédiaire', the current time, `false` and `0`;
      the project id is the record id. */
  lemma ListedDefaults(id: RecordId, now: string)
    ensures DecodeListed(Row(id, BlankProject), now)
         == Project(id, Some(""), Some(""), [], Some(""), Some(""), Some(""), [], Some(""), Some(""),
                    [], Some(""), [], "En cours", "Intermédiaire", now, Some(""), Some(""), Some(""),
                    false, 0)
  {
  }

  /** Decoding for the listing always yields a complete project (given a non-empty clock reading). */
  lemma ListedIsComplete(row: Row<ProjectFields>, now: string)
    requires now != ""
    ensures Complete(DecodeListed(row, now))
    ensures DecodeListed(row, now).projectID == row.id
  {
  }

  /** Writing a complete project back as cells and decoding it again gives the same project:
      present values are kept, so the defaults touch only what is absent. */
  lemma ListedRoundTrip(p: Project, now: string)
    requires Complete(p)
    ensures DecodeListed(Row(p.projectID, Cells(p)), now) == p
  {
  }

  /** Decoding a listed project's cells once more changes nothing: the defaults are idempotent. */
  lemma ListedIdempotent(row: Row<ProjectFields>, now: string)
    requires now != ""
    ensures var p := DecodeListed(row, now); DecodeListed(Row(row.id, Cells(p)), now) == p
  {
    ListedIsComplete(row, now);
    ListedRoundTrip(DecodeListed(row, now), now);
  }

  /** The two decodings agree on a record all of whose text cells are present. */
  lemma DecodingsAgreeOnFullRecords(row: Row<ProjectFields>, now: string)
    requires row.fields.name.Some? && row.fields.description.Some? && row.fields.projectLink.Some?
    requires row.fields.githubLink.Some? && row.fields.demoLink.Some? && row.fields.thumbnail.Some?
    requires row.fields.promotion.Some? && row.fields.category.Some? && row.fields.endDate.Some?
    requires row.fields.mentor.Some? && row.fields.achievements.Some?
    ensures DecodeFound(row, now) == DecodeListed(row, now)
  {
  }

  /** A status or difficulty cell that is empty or holds a member of its type union
      decodes to a member of that union. */
  lemma DecodedEnumerations(row: Row<ProjectFields>, now: string)
    requires row.fields.status.None? || row.fields.status.value == "" || row.fields.status.value in Statuses
    requires row.fields.difficulty.None? || row.fields.difficulty.value == "" || row.fields.difficulty.value in Difficulties
    ensures DecodeListed(row, now).status in Statuses && DecodeFound(row, now).status in Statuses
    ensures DecodeListed(row, now).difficulty in Difficulties && DecodeFound(row, now).difficulty in Difficulties
  {
  }

  /** The cells of a Comments record. */
  datatype CommentFields = CommentFields(
    projectID: Option<string>,
    content: Option<string>,
    author: Option<string>,
    createdAt: Option<string>)

  /** A comment as the service returns it. */
  datatype Comment = Comment(
    commentID: RecordId,
    projectID: Option<string>,
    content: Option<string>,
    author: Option<string>,
    createdAt: Option<string>)

  function DecodeComment(row: Row<CommentFields>): Comment
  {
    Comment(row.id, row.fields.projectID, row.fields.content, row.fields.author, row.fields.createdAt)
  }

  /** The cells of a Users record: the password cell holds the salted hash. */
  datatype UserFields = UserFields(username: string, password: string, role: string)

  /** A user as the service returns it. */
  datatype User = User(userID: RecordId, username: string, password: string, role: string)

  function DecodeUser(row: Row<UserFields>): User
  {
    User(row.id, row.fields.username, row.fields.password, row.fields.role)
  }

  const AdminRole := "admin"
  const UserRole := "user"
}
