/** The read-side selections of the service: the visible-project listing, the
    substring search, the user lookup by name and the comments of a project. */
module Queries {
  import opened Wrappers
  import opened Strings
  import opened Records
  import opened Entities

  /** The filter `{isHidden} = FALSE()` rejects exactly the records whose box is ticked. */
  predicate Hidden(row: Row<ProjectFields>)
  {
    row.fields.isHidden == Some(true)
  }

  /** The number of hidden records in the table. */
  function HiddenCount(t: Table<ProjectFields>): nat
  {
    if |t| == 0 then 0 else (if Hidden(t[0]) then 1 else 0) + HiddenCount(t[1..])
  }

  /** What `getAllProjects` returns: one decoded project per record that is not hidden, in store order. */
  function VisibleProjects(t: Table<ProjectFields>, now: string): (ps: seq<Project>)
    ensures |ps| + HiddenCount(t) == |t|
    ensures forall p :: p in ps ==> !p.isHidden
    ensures forall i :: 0 <= i < |t| && !Hidden(t[i]) ==> DecodeListed(t[i], now) in ps
    ensures forall p :: p in ps ==> exists i :: 0 <= i < |t| && !Hidden(t[i]) && p == DecodeListed(t[i], now)
  {
    if |t| == 0 then []
    else
      var rest := VisibleProjects(t[1..], now);
      assert forall i :: 1 <= i < |t| ==> t[i] == t[1..][i - 1];
      (if Hidden(t[0]) then [] else [DecodeListed(t[0], now)]) + rest
  }

  /** The text the formula language sees for a text cell; an empty cell is blank. */
  function CellText(cell: Option<string>): string
  {
    cell.GetOr("")
  }

  /** The text the formula language sees for a list cell: its items joined by ", ". */
  function ListText(cell: Option<seq<string>>): string
  {
    Join(cell.GetOr([]), ", ")
  }

  /** The search formula: `FIND(q, field) > 0` for one of name, description,
      technologies, category or tags. */
  predicate Matches(f: ProjectFields, q: string)
  {
    || Find(q, CellText(f.name)) > 0
    || Find(q, CellText(f.description)) > 0
    || Find(q, ListText(f.technologies)) > 0
    || Find(q, CellText(f.category)) > 0
    || Find(q, ListText(f.tags)) > 0
  }

  /** A record matches a query exactly when the query is a substring, case-sensitively,
      of the text of at least one of the five searched fields. */
  lemma MatchesIffSubstring(f: ProjectFields, q: string)
    ensures Matches(f, q) <==>
      || Occurs(q, CellText(f.name))
      || Occurs(q, CellText(f.description))
      || Occurs(q, ListText(f.technologies))
      || Occurs(q, CellText(f.category))
      || Occurs(q, ListText(f.tags))
  {
    FindPositiveIffOccurs(q, CellText(f.name));
    FindPositiveIffOccurs(q, CellText(f.description));
    FindPositiveIffOccurs(q, ListText(f.technologies));
    FindPositiveIffOccurs(q, CellText(f.category));
    FindPositiveIffOccurs(q, ListText(f.tags));
  }

  /** The number of records of `t` that `keep` accepts. */
  function KeptCount<F>(t: Table<F>, keep: Row<F> -> bool): nat
  {
    if |t| == 0 then 0 else (if keep(t[0]) then 1 else 0) + KeptCount(t[1..], keep)
  }

  /** The records `keep` accepts, each decoded once, in store order: the accepted record
      at index `i` lands at the position counting the accepted records before it. */
  function Select<F, P>(t: Table<F>, keep: Row<F> -> bool, decode: Row<F> -> P): (ps: seq<P>)
    ensures |ps| == KeptCount(t, keep)
    ensures forall i :: 0 <= i < |t| && keep(t[i]) ==>
      KeptCount(t[..i], keep) < |ps| && ps[KeptCount(t[..i], keep)] == decode(t[i])
    ensures forall i :: 0 <= i < |t| && keep(t[i]) ==> decode(t[i]) in ps
    ensures forall p :: p in ps ==> exists i :: 0 <= i < |t| && keep(t[i]) && p == decode(t[i])
  {
    if |t| == 0 then []
    else
      var rest := Select(t[1..], keep, decode);
      var head := if keep(t[0]) then [decode(t[0])] else [];
      assert forall i :: 1 <= i < |t| ==> t[i] == t[1..][i - 1];
      assert forall i :: 1 <= i <= |t| ==>
        KeptCount(t[..i], keep) == |head| + KeptCount(t[1..][..i - 1], keep) by {
        forall i | 1 <= i <= |t| ensures KeptCount(t[..i], keep) == |head| + KeptCount(t[1..][..i - 1], keep) {
          assert t[..i][1..] == t[1..][..i - 1];
        }
      }
      head + rest
  }

  /** The search formula as a filter on records. */
  function MatchesQuery(q: string): Row<ProjectFields> -> bool
  {
    (row: Row<ProjectFields>) => Matches(row.fields, q)
  }

  /** What `searchProjects` returns: one decoded project per matching record, hidden or
      not, each once and in store order. */
  function SearchResults(t: Table<ProjectFields>, q: string, now: string): (ps: seq<Project>)
    ensures |ps| == KeptCount(t, MatchesQuery(q))
    ensures forall i :: 0 <= i < |t| && Matches(t[i].fields, q) ==>
      KeptCount(t[..i], MatchesQuery(q)) < |ps| && ps[KeptCount(t[..i], MatchesQuery(q))] == DecodeFound(t[i], now)
    ensures forall i :: 0 <= i < |t| && Matches(t[i].fields, q) ==> DecodeFound(t[i], now) in ps
    ensures forall p :: p in ps ==> exists i :: 0 <= i < |t| && Matches(t[i].fields, q) && p == DecodeFound(t[i], now)
  {
    Select(t, MatchesQuery(q), (row: Row<ProjectFields>) => DecodeFound(row, now))
  }

  /** When only the record at index `k` matches (say the query occurs only in its tags),
      the search returns exactly that project. */
  lemma SearchSingleMatch(t: Table<ProjectFields>, q: string, now: string, k: int)
    requires 0 <= k < |t| && Matches(t[k].fields, q)
    requires forall i :: 0 <= i < |t| && i != k ==> !Matches(t[i].fields, q)
    ensures SearchResults(t, q, now) == [DecodeFound(t[k], now)]
  {
    var keep := MatchesQuery(q);
    assert t == t[..k] + [t[k]] + t[k + 1..];
    KeptCountAppend(t[..k] + [t[k]], t[k + 1..], keep);
    KeptCountAppend(t[..k], [t[k]], keep);
    KeptNone(t[..k], keep);
    KeptNone(t[k + 1..], keep);
    assert KeptCount([t[k]], keep) == 1 by {
      assert [t[k]][1..] == [];
    }
  }

  /** A table none of whose records match has an empty search result. */
  lemma NoMatches(t: Table<ProjectFields>, q: string, now: string)
    requires forall i :: 0 <= i < |t| ==> !Matches(t[i].fields, q)
    ensures SearchResults(t, q, now) == []
  {
    KeptNone(t, MatchesQuery(q));
  }

  /** Counting the accepted records of two tables one after the other. */
  lemma {:induction false} KeptCountAppend<F>(a: Table<F>, b: Table<F>, keep: Row<F> -> bool)
    ensures KeptCount(a + b, keep) == KeptCount(a, keep) + KeptCount(b, keep)
  {
    if |a| == 0 {
      assert a + b == b;
    } else {
      KeptCountAppend(a[1..], b, keep);
      assert (a + b)[1..] == a[1..] + b;
    }
  }

  /** A table with no accepted record counts none. */
  lemma {:induction false} KeptNone<F>(t: Table<F>, keep: Row<F> -> bool)
    requires forall i :: 0 <= i < |t| ==> !keep(t[i])
    ensures KeptCount(t, keep) == 0
  {
    if |t| > 0 {
      assert forall i :: 1 <= i < |t| ==> t[i] == t[1..][i - 1];
      KeptNone(t[1..], keep);
    }
  }

  /** What `getUserByUsername` returns: the first record with that username, if any. */
  function UserByName(t: Table<UserFields>, name: string): (r: Option<Row<UserFields>>)
    ensures r.None? <==> forall i :: 0 <= i < |t| ==> t[i].fields.username != name
    ensures r.Some? ==> exists i :: 0 <= i < |t| && t[i] == r.value &&
                          forall j :: 0 <= j < i ==> t[j].fields.username != name
    ensures r.Some? ==> r.value.fields.username == name
  {
    if |t| == 0 then None
    else if t[0].fields.username == name then Some(t[0])
    else
      var r := UserByName(t[1..], name);
      assert forall i :: 1 <= i < |t| ==> t[i] == t[1..][i - 1];
      assert r.Some? ==> exists i :: 0 <= i < |t| && t[i] == r.value &&
                          forall j :: 0 <= j < i ==> t[j].fields.username != name by {
        if r.Some? {
          var i :| 0 <= i < |t[1..]| && t[1..][i] == r.value &&
                   forall j :: 0 <= j < i ==> t[1..][j].fields.username != name;
          assert t[i + 1] == r.value;
          forall j | 0 <= j < i + 1 ensures t[j].fields.username != name {
            if j > 0 { assert t[j] == t[1..][j - 1]; }
          }
        }
      }
      r
  }

  /** No two users share a username. */
  predicate UniqueUsernames(t: Table<UserFields>)
  {
    forall i, j :: 0 <= i < j < |t| ==> t[i].fields.username != t[j].fields.username
  }

  /** In a table of unique usernames, the lookup by name of a record's username finds that record. */
  lemma UserByNameFindsRecord(t: Table<UserFields>, k: int)
    requires UniqueUsernames(t) && 0 <= k < |t|
    ensures UserByName(t, t[k].fields.username) == Some(t[k])
  {
    var r := UserByName(t, t[k].fields.username);
    var i :| 0 <= i < |t| && t[i] == r.value && forall j :: 0 <= j < i ==> t[j].fields.username != t[k].fields.username;
    assert i == k;
  }

  /** The filter `{projectID} = '<id>'` on comment records. */
  function OfProject(projectID: string): Row<CommentFields> -> bool
  {
    (row: Row<CommentFields>) => CellText(row.fields.projectID) == projectID
  }

  /** What `getComments` returns: the comments whose projectID cell equals `projectID`,
      each once and in store order. */
  function CommentsFor(t: Table<CommentFields>, projectID: string): (cs: seq<Comment>)
    ensures |cs| == KeptCount(t, OfProject(projectID))
    ensures forall i :: 0 <= i < |t| && CellText(t[i].fields.projectID) == projectID ==>
      KeptCount(t[..i], OfProject(projectID)) < |cs| && cs[KeptCount(t[..i], OfProject(projectID))] == DecodeComment(t[i])
    ensures forall i :: 0 <= i < |t| && CellText(t[i].fields.projectID) == projectID ==> DecodeComment(t[i]) in cs
    ensures forall c :: c in cs ==> exists i :: 0 <= i < |t| && CellText(t[i].fields.projectID) == projectID && c == DecodeComment(t[i])
  {
    Select(t, OfProject(projectID), DecodeComment)
  }
}
