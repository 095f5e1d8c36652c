/** The project routes' own logic: the validation and defaulting of `POST /`, the
    404 rule of `GET /:id`, and the form metadata of `GET /new`. */
module ProjectRoutes {
  import opened Wrappers
  import opened Strings
  import opened Json
  import opened Entities
  import opened Records
  import opened Auth

  /** The fields a new project must have, in the order they are reported. */
  const RequiredFields: seq<string> := ["name", "description", "category", "promotion"]
  const MissingPrefix := "Les champs suivants sont requis: "
  const ProjectNotFoundReply := "Projet non trouvé"
  const NotAuthorized := "Non autorisé"
  const Categories: seq<string> := ["Web", "Mobile", "Desktop", "API", "Autre"]

  /** `a` is `b` with some elements left out, the rest in their order. */
  predicate SubsequenceOf(a: seq<string>, b: seq<string>)
  {
    if |a| == 0 then true
    else if |b| == 0 then false
    else if a[0] == b[0] then SubsequenceOf(a[1..], b[1..])
    else SubsequenceOf(a, b[1..])
  }

  /** `fields.filter(field => !body[field])`: the fields the body lacks or holds a falsy value for. */
  function MissingFrom(body: Object, fields: seq<string>): (missing: seq<string>)
    ensures forall f :: f in missing <==> f in fields && !Present(body, f)
    ensures SubsequenceOf(missing, fields)
    ensures |missing| == 0 <==> forall f :: f in fields ==> Present(body, f)
  {
    if |fields| == 0 then []
    else
      var rest := MissingFrom(body, fields[1..]);
      assert forall f :: f in fields <==> f == fields[0] || f in fields[1..] by {
        assert fields == [fields[0]] + fields[1..];
      }
      if Present(body, fields[0]) then
        assert |rest| > 0 ==> rest[0] != fields[0];
        rest
      else
        assert ([fields[0]] + rest)[1..] == rest;
        [fields[0]] + rest
  }

  /** The fields of `POST /` the body is missing, in the order of `RequiredFields`. */
  function MissingFields(body: Object): seq<string>
  {
    MissingFrom(body, RequiredFields)
  }

  /** The object handed to `createProject`: the body as sent, with falsy technologies,
      students and tags replaced by `''`, a falsy startDate by the current time, a falsy
      isHidden by `false`, and likes forced to 0. */
  function Formatted(body: Object, now: string): Object
  {
    body["technologies" := OrElse(body, "technologies", Str(""))]
        ["students" := OrElse(body, "students", Str(""))]
        ["tags" := OrElse(body, "tags", Str(""))]
        ["startDate" := OrElse(body, "startDate", Str(now))]
        ["isHidden" := OrElse(body, "isHidden", Bool(false))]
        ["likes" := Num(0)]
  }

  /** The keys the route defaults or overrides. */
  const Defaulted: set<string> := {"technologies", "students", "tags", "startDate", "isHidden", "likes"}

  /** The formatted data keeps every field of the body, overriding only the defaulted
      ones: likes is always 0, and each other defaulted field keeps a truthy body value
      and otherwise gets its default (the empty string, not a list, for the three lists). */
  lemma FormattedData(body: Object, now: string)
    ensures Formatted(body, now).Keys == body.Keys + Defaulted
    ensures forall k :: k in body && k !in Defaulted ==> Formatted(body, now)[k] == body[k]
    ensures Formatted(body, now)["likes"] == Num(0)
    ensures forall k :: k in ["technologies", "students", "tags"] ==>
      Formatted(body, now)[k] == if Present(body, k) then body[k] else Str("")
    ensures Formatted(body, now)["startDate"] == if Present(body, "startDate") then body["startDate"] else Str(now)
    ensures Formatted(body, now)["isHidden"] == if Present(body, "isHidden") then body["isHidden"] else Bool(false)
  {
  }

  /** Formatting twice is formatting once: defaults only touch falsy values, and the
      defaults themselves are kept (given a non-empty clock reading). */
  lemma FormattedIdempotent(body: Object, now: string)
    requires now != ""
    ensures Formatted(Formatted(body, now), now) == Formatted(body, now)
  {
  }

  /** What `POST /` does once authenticated: refuse with 400, or call `createProject`. */
  datatype Outcome = Reject(rejection: Rejection) | Create(data: Object)

  function PostProject(body: Object, now: string): Outcome
  {
    var missing := MissingFields(body);
    if |missing| > 0 then Reject(Rejection(400, MissingPrefix + Join(missing, ", ")))
    else Create(Formatted(body, now))
  }

  /** `POST /` refuses exactly when a required field is falsy, naming exactly the falsy
      required fields in their order; otherwise it creates the formatted body. */
  lemma PostProjectDecides(body: Object, now: string)
    ensures PostProject(body, now).Reject? <==> exists f :: f in RequiredFields && !Present(body, f)
    ensures PostProject(body, now).Reject? ==>
      var missing := MissingFields(body);
      && PostProject(body, now).rejection == Rejection(400, MissingPrefix + Join(missing, ", "))
      && (forall f :: f in missing <==> f in RequiredFields && !Present(body, f))
      && SubsequenceOf(missing, RequiredFields)
    ensures PostProject(body, now).Create? ==> PostProject(body, now).data == Formatted(body, now)
  {
    var missing := MissingFields(body);
    if exists f :: f in RequiredFields && !Present(body, f) {
      var f :| f in RequiredFields && !Present(body, f);
      assert f in missing;
    }
  }

  /** An empty body is refused with every required field named, in order. */
  lemma EmptyBodyMessage(now: string)
    ensures PostProject(map[], now) ==
      Reject(Rejection(400, MissingPrefix + "name, description, category, promotion"))
  {
    EmptyBodyMissesAll(now);
    RequiredFieldsText();
  }

  lemma EmptyBodyMissesAll(now: string)
    ensures PostProject(map[], now) == Reject(Rejection(400, MissingPrefix + Join(RequiredFields, ", ")))
  {
    NothingPresent(RequiredFields);
  }

  /** The required fields as the message lists them. */
  lemma RequiredFieldsText()
    ensures Join(RequiredFields, ", ") == "name, description, category, promotion"
  {
    JoinFour("name", "description", "category", "promotion", ", ");
    assert "name" + ", " + "description" + ", " + "category" + ", " + "promotion"
        == "name, description, category, promotion";
  }

  /** Joining four pieces. */
  lemma JoinFour(a: string, b: string, c: string, d: string, sep: string)
    ensures Join([a, b, c, d], sep) == a + sep + b + sep + c + sep + d
  {
    assert [c, d][1..] == [d];
    assert Join([c, d], sep) == c + sep + d;
    assert [b, c, d][1..] == [c, d];
    assert Join([b, c, d], sep) == b + sep + (c + sep + d);
    assert [a, b, c, d][1..] == [b, c, d];
    assert Join([a, b, c, d], sep) == a + sep + (b + sep + (c + sep + d));
  }

  /** An empty body lacks every field. */
  lemma {:induction false} NothingPresent(fields: seq<string>)
    ensures MissingFrom(map[], fields) == fields
  {
    if |fields| > 0 {
      NothingPresent(fields[1..]);
      assert fields == [fields[0]] + fields[1..];
    }
  }

  /** `GET /:id`: the project, or 404 exactly when `getProjectById` yields null (which it
      does for every failure, so the route's 500 branch is never taken). */
  function ShowProject(found: Option<Project>): (r: Result<Project, Rejection>)
    ensures r.Err? <==> found.None?
    ensures r.Err? ==> r.error == Rejection(404, ProjectNotFoundReply)
    ensures r.Ok? ==> r.value == found.value
  {
    match found
    case None => Err(Rejection(404, ProjectNotFoundReply))
    case Some(p) => Ok(p)
  }

  /** The body of `GET /new`. */
  datatype Form = Form(user: AuthUser, categories: seq<string>, difficulties: seq<string>, statuses: seq<string>)

  /** `GET /new`: the form metadata for the attached user, or 401 without one. */
  function NewProjectForm(user: Option<AuthUser>): (r: Result<Form, Rejection>)
  {
    match user
    case None => Err(Rejection(401, NotAuthorized))
    case Some(u) => Ok(Form(u, Categories, ["Débutant", "Intermédiaire", "Avancé"], ["En cours", "Terminé", "En pause"]))
  }

  /** The form is served exactly to an attached user, and its difficulties and statuses
      are the members of the project type's unions, with the project defaults among them. */
  lemma NewProjectFormLists(user: Option<AuthUser>)
    ensures NewProjectForm(user).Err? <==> user.None?
    ensures NewProjectForm(user).Err? ==> NewProjectForm(user).error == Rejection(401, NotAuthorized)
    ensures NewProjectForm(user).Ok? ==>
      var form := NewProjectForm(user).value;
      && form.user == user.value
      && form.difficulties == Difficulties && form.statuses == Statuses
      && DefaultDifficulty in form.difficulties && DefaultStatus in form.statuses
      && |form.categories| == 5
  {
  }

  /** Behind `authenticateToken`, the 401 of `GET /new` cannot happen: the middleware
      only lets a request through with a user attached. */
  lemma NewProjectFormBehindAuth(header: Option<string>, verify: string -> Option<RecordId>,
                                 online: bool, users: Table<UserFields>)
    requires Authenticate(header, verify, online, users).Ok?
    ensures NewProjectForm(Some(Authenticate(header, verify, online, users).value)).Ok?
  {
  }
}
