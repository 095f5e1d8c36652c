/** The statistics of `getStatistics`: the number of visible projects, the sum of their
    likes, and how many of them fall in each category. */
module Statistics {
  import opened Wrappers
  import opened Entities

  datatype Stats = Stats(totalProjects: nat, totalLikes: int, categories: map<string, nat>)

  /** The property name `acc[project.category]` uses: an absent category becomes "undefined". */
  function CategoryKey(p: Project): string
  {
    match p.category
    case Some(c) => c
    case None => "undefined"
  }

  /** The sum of the projects' likes. */
  function TotalLikes(ps: seq<Project>): int
  {
    if |ps| == 0 then 0 else TotalLikes(ps[..|ps| - 1]) + ps[|ps| - 1].likes
  }

  /** The number of projects whose category key is `c`. */
  function CountIn(ps: seq<Project>, c: string): nat
  {
    if |ps| == 0 then 0 else CountIn(ps[..|ps| - 1], c) + (if CategoryKey(ps[|ps| - 1]) == c then 1 else 0)
  }

  /** The category keys that occur among the projects. */
  function KeysOf(ps: seq<Project>): set<string>
  {
    if |ps| == 0 then {} else KeysOf(ps[..|ps| - 1]) + {CategoryKey(ps[|ps| - 1])}
  }

  /** A key occurs among the projects exactly when it counts at least one of them. */
  lemma {:induction false} KeysAreCounted(ps: seq<Project>, c: string)
    ensures c in KeysOf(ps) <==> CountIn(ps, c) > 0
  {
    if |ps| > 0 {
      KeysAreCounted(ps[..|ps| - 1], c);
    }
  }

  /** The two reductions of `getStatistics`: the likes sum (an absent count was already
      read as 0 when decoding) and the histogram built by `acc[k] = (acc[k] || 0) + 1`,
      with the histogram as a map, whose keys cannot collide with inherited properties. */
  method Tally(ps: seq<Project>) returns (s: Stats)
    ensures s.totalProjects == |ps|
    ensures s.totalLikes == TotalLikes(ps)
    ensures s.categories.Keys == KeysOf(ps)
    ensures forall c :: c in s.categories ==> s.categories[c] == CountIn(ps, c) > 0
  {
    var sum := 0;
    for i := 0 to |ps|
      invariant sum == TotalLikes(ps[..i])
    {
      assert ps[..i + 1][..i] == ps[..i];
      sum := sum + ps[i].likes;
    }
    assert ps[..|ps|] == ps;

    var acc: map<string, nat> := map[];
    for i := 0 to |ps|
      invariant acc.Keys == KeysOf(ps[..i])
      invariant forall c :: c in acc ==> acc[c] == CountIn(ps[..i], c) > 0
    {
      assert ps[..i + 1][..i] == ps[..i];
      var key := CategoryKey(ps[i]);
      forall c | c in acc ensures CountIn(ps[..i + 1], c) == CountIn(ps[..i], c) + (if key == c then 1 else 0) {
      }
      assert key !in acc ==> CountIn(ps[..i], key) == 0 by {
        KeysAreCounted(ps[..i], key);
      }
      acc := acc[key := (if key in acc then acc[key] else 0) + 1];
    }
    s := Stats(|ps|, sum, acc);
  }

  /** The number of projects whose category key is one of `keys`. */
  function CountAmong(ps: seq<Project>, keys: seq<string>): nat
  {
    if |ps| == 0 then 0 else CountAmong(ps[..|ps| - 1], keys) + (if CategoryKey(ps[|ps| - 1]) in keys then 1 else 0)
  }

  /** The counts of a histogram, summed over a listing of its keys. */
  function SumCounts(m: map<string, nat>, keys: seq<string>): nat
    requires forall k :: k in keys ==> k in m
  {
    if |keys| == 0 then 0 else m[keys[0]] + SumCounts(m, keys[1..])
  }

  /** Counting the projects among `keys` splits into those with the first key and the rest. */
  lemma {:induction false} CountAmongFirst(ps: seq<Project>, keys: seq<string>)
    requires |keys| > 0 && keys[0] !in keys[1..]
    ensures CountAmong(ps, keys) == CountIn(ps, keys[0]) + CountAmong(ps, keys[1..])
  {
    if |ps| > 0 {
      CountAmongFirst(ps[..|ps| - 1], keys);
      assert keys == [keys[0]] + keys[1..];
    }
  }

  /** Every project is counted once when the keys list every category that occurs. */
  lemma {:induction false} CountAmongAll(ps: seq<Project>, keys: seq<string>)
    requires KeysOf(ps) <= set k | k in keys
    ensures CountAmong(ps, keys) == |ps|
  {
    if |ps| > 0 {
      assert KeysOf(ps[..|ps| - 1]) <= KeysOf(ps);
      CountAmongAll(ps[..|ps| - 1], keys);
    }
  }

  /** A histogram that counts each key, summed over duplicate-free keys, counts the projects among them. */
  lemma {:induction false} SumCountsCountsAmong(ps: seq<Project>, m: map<string, nat>, keys: seq<string>)
    requires forall k :: k in keys ==> k in m && m[k] == CountIn(ps, k)
    requires forall i, j :: 0 <= i < j < |keys| ==> keys[i] != keys[j]
    ensures SumCounts(m, keys) == CountAmong(ps, keys)
  {
    if |keys| > 0 {
      assert keys[0] !in keys[1..] by {
        forall j | 0 <= j < |keys[1..]| ensures keys[1..][j] != keys[0] {
          assert keys[1..][j] == keys[j + 1];
        }
      }
      forall i, j | 0 <= i < j < |keys[1..]| ensures keys[1..][i] != keys[1..][j] {
        assert keys[1..][i] == keys[i + 1] && keys[1..][j] == keys[j + 1];
      }
      SumCountsCountsAmong(ps, m, keys[1..]);
      CountAmongFirst(ps, keys);
    } else {
      CountAmongNothing(ps);
    }
  }

  /** No project has its category among no keys. */
  lemma {:induction false} CountAmongNothing(ps: seq<Project>)
    ensures CountAmong(ps, []) == 0
  {
    if |ps| > 0 {
      CountAmongNothing(ps[..|ps| - 1]);
    }
  }

  /** The category counts of the statistics add up to the number of projects, whatever
      order the categories are listed in. */
  lemma CategoryCountsSumToTotal(ps: seq<Project>, s: Stats, keys: seq<string>)
    requires s.totalProjects == |ps| && s.categories.Keys == KeysOf(ps)
    requires forall c :: c in s.categories ==> s.categories[c] == CountIn(ps, c)
    requires (set k | k in keys) == s.categories.Keys
    requires forall i, j :: 0 <= i < j < |keys| ==> keys[i] != keys[j]
    ensures SumCounts(s.categories, keys) == s.totalProjects
  {
    SumCountsCountsAmong(ps, s.categories, keys);
    CountAmongAll(ps, keys);
  }

  /** `acc[key] = (acc[key] || 0) + 1` as written, on a plain JavaScript object: reading
      `acc['__proto__']` yields the object's prototype, and assigning a number to
      `__proto__` is silently ignored, so that key never enters the histogram. */
  function CountStepAsWritten(acc: map<string, nat>, key: string): map<string, nat>
  {
    if key == "__proto__" then acc
    else acc[key := (if key in acc then acc[key] else 0) + 1]
  }

  /** The `categories` reduction as written. */
  function CategoriesAsWritten(ps: seq<Project>): map<string, nat>
  {
    if |ps| == 0 then map[]
    else CountStepAsWritten(CategoriesAsWritten(ps[..|ps| - 1]), CategoryKey(ps[|ps| - 1]))
  }

  /** One visible project whose category is "__proto__": the histogram as written is
      empty, so its counts add up to 0 and not to the one project counted in totalProjects. */
  lemma ProtoCategoryIsDropped(p: Project)
    requires p.category == Some("__proto__")
    ensures CategoriesAsWritten([p]) == map[]
    ensures CountIn([p], "__proto__") == 1
  {
    assert [p][..0] == [];
  }
}
