/**
 The dashboard's project list: the `Project` record, the fixed seed list the
 component ships with, and the search filter that derives the visible
 projects from the search query.
 */
module Catalog {
  import opened Text

  /** A project card. `lastUpdated` is a pre-formatted label, not a timestamp. */
  datatype Project = Project(
    id: string,
    name: string,
    description: string,
    lastUpdated: string,
    branch: string
  )

  /** The three sample projects, in display order. */
  const Seed: seq<Project> := [
    Project("1", "Move Matrix Demo", "Visual DeFi Builder", "Updated 2h ago", "main"),
    Project("2", "Lending Protocol", "Aptos Lending", "Updated 1d ago", "main"),
    Project("3", "AMM DEX", "Automated Market Maker", "Updated 3d ago", "main")
  ]

  /** `text`, lower-cased, contains the lower-cased `query`. */
  predicate Mentions(text: string, query: string) {
    Contains(Lower(text), Lower(query))
  }

  /** A project is kept when its name or its description mentions the query. */
  predicate Matches(p: Project, query: string) {
    Mentions(p.name, query) || Mentions(p.description, query)
  }

  /**
   The projects matching `query`, in their original order. The result holds
   exactly the matching projects of `ps` and nothing else.
   */
  function Filter(ps: seq<Project>, query: string): (r: seq<Project>)
    ensures |r| <= |ps|
    ensures forall p :: p in r <==> p in ps && Matches(p, query)
  {
    if ps == [] then []
    else (if Matches(ps[0], query) then [ps[0]] else []) + Filter(ps[1..], query)
  }

  /** `xs` is obtained from `ys` by deleting elements, without reordering. */
  ghost predicate IsSubsequence<T>(xs: seq<T>, ys: seq<T>)
    decreases |ys|
  {
    if xs == [] then true
    else if ys == [] then false
    else (xs[0] == ys[0] && IsSubsequence(xs[1..], ys[1..])) || IsSubsequence(xs, ys[1..])
  }

  /** No two projects share an id. */
  predicate UniqueIds(ps: seq<Project>) {
    forall i, j :: 0 <= i < j < |ps| ==> ps[i].id != ps[j].id
  }

  /** The filter only deletes projects: it never reorders them. */
  lemma {:induction false} FilterIsSubsequence(ps: seq<Project>, query: string)
    ensures IsSubsequence(Filter(ps, query), ps)
  {
    if ps != [] {
      FilterIsSubsequence(ps[1..], query);
      var rest := Filter(ps[1..], query);
      if Matches(ps[0], query) {
        assert Filter(ps, query) == [ps[0]] + rest;
        assert ([ps[0]] + rest)[1..] == rest;
      } else {
        assert Filter(ps, query) == rest;
        SubsequenceDropHead(rest, ps);
      }
    }
  }

  /** Deleting one more element from the front keeps a subsequence a subsequence. */
  lemma {:induction false} SubsequenceDropHead<T>(xs: seq<T>, ys: seq<T>)
    requires ys != []
    requires IsSubsequence(xs, ys[1..])
    ensures IsSubsequence(xs, ys)
  {
  }

  /**
   Each matching project appears in the result exactly as often as in the
   input, and a non-matching one not at all: the filter neither drops a match
   nor duplicates anything.
   */
  lemma {:induction false} FilterMultiplicity(ps: seq<Project>, query: string, p: Project)
    ensures multiset(Filter(ps, query))[p] == if Matches(p, query) then multiset(ps)[p] else 0
  {
    if ps != [] {
      FilterMultiplicity(ps[1..], query, p);
      assert ps == [ps[0]] + ps[1..];
      assert multiset(ps) == multiset([ps[0]]) + multiset(ps[1..]);
      var head := if Matches(ps[0], query) then [ps[0]] else [];
      assert Filter(ps, query) == head + Filter(ps[1..], query);
      assert multiset(Filter(ps, query)) == multiset(head) + multiset(Filter(ps[1..], query));
    }
  }

  /** When every project matches, the filter returns the list unchanged. */
  lemma {:induction false} FilterAllMatch(ps: seq<Project>, query: string)
    requires forall i :: 0 <= i < |ps| ==> Matches(ps[i], query)
    ensures Filter(ps, query) == ps
  {
    if ps != [] {
      assert Matches(ps[0], query);
      FilterAllMatch(ps[1..], query);
      assert [ps[0]] + ps[1..] == ps;
    }
  }

  /** The empty query shows every project, in the original order. */
  lemma FilterEmptyQuery(ps: seq<Project>)
    ensures Filter(ps, "") == ps
  {
    forall i | 0 <= i < |ps|
      ensures Matches(ps[i], "")
    {
      assert Lower("") == "";
      ContainsEmpty(Lower(ps[i].name));
      assert Mentions(ps[i].name, "");
    }
    FilterAllMatch(ps, "");
  }

  /** Queries that lower-case alike select the same projects ("LENDING" and "lending"). */
  lemma {:induction false} FilterCaseInsensitive(ps: seq<Project>, q1: string, q2: string)
    requires Lower(q1) == Lower(q2)
    ensures Filter(ps, q1) == Filter(ps, q2)
  {
    if ps != [] {
      FilterCaseInsensitive(ps[1..], q1, q2);
    }
  }

  /** A subsequence of a list with unique ids has unique ids. */
  lemma {:induction false} FilterKeepsIdsUnique(ps: seq<Project>, query: string)
    requires UniqueIds(ps)
    ensures UniqueIds(Filter(ps, query))
  {
    if ps != [] {
      var rest := Filter(ps[1..], query);
      FilterKeepsIdsUnique(ps[1..], query);
      if Matches(ps[0], query) {
        var r := [ps[0]] + rest;
        assert Filter(ps, query) == r;
        forall j | 0 < j < |r|
          ensures r[0].id != r[j].id
        {
          assert r[j] in Filter(ps[1..], query);
          var k :| 0 <= k < |ps[1..]| && ps[1..][k] == r[j];
          assert ps[k + 1] == r[j];
        }
      }
    }
  }

  lemma SeedIdsUnique()
    ensures UniqueIds(Seed)
  {
  }

  /**
   A text lacking some letter of the query, in both cases (`c` small, `u`
   capital), does not mention the query.
   */
  lemma TextLacksLetter(text: string, query: string, c: char, u: char)
    requires 'a' <= c <= 'z' && u as int == c as int - 32 && c in Lower(query)
    requires Lacks(text, c) && Lacks(text, u)
    ensures !Mentions(text, query)
  {
    LowerMissingLetter(text, c, u);
    MissingCharNotContained(Lower(text), Lower(query), c);
  }

  /** The filter over a three-element list, spelled out. */
  lemma FilterThree(ps: seq<Project>, query: string)
    requires |ps| == 3
    ensures Filter(ps, query) ==
      (if Matches(ps[0], query) then [ps[0]] else []) +
      (if Matches(ps[1], query) then [ps[1]] else []) +
      (if Matches(ps[2], query) then [ps[2]] else [])
  {
    var t1 := ps[1..];
    var t2 := t1[1..];
    assert t2[1..] == [];
    FilterUnfold(t2, query);
    FilterUnfold(t1, query);
    FilterUnfold(ps, query);
  }

  lemma FilterUnfold(ps: seq<Project>, query: string)
    requires ps != []
    ensures Filter(ps, query) == (if Matches(ps[0], query) then [ps[0]] else []) + Filter(ps[1..], query)
  {
  }

  // The absence of a letter from a seed text is shown one project at a time:
  // the literal strings are cheap to inspect separately and costly together.

  /** Neither text of project '1' has a 'g' or a 'z', in either case. */
  lemma MoveMatrixLacks(q: string, c: char, u: char)
    requires (c == 'g' && u == 'G') || (c == 'z' && u == 'Z')
    requires c in Lower(q)
    ensures !Mentions("Move Matrix Demo", q) && !Mentions("Visual DeFi Builder", q)
  {
    TextLacksLetter("Move Matrix Demo", q, c, u);
    TextLacksLetter("Visual DeFi Builder", q, c, u);
  }

  /** Neither text of project '2' has a 'z', in either case. */
  lemma LendingLacksZ(q: string)
    requires 'z' in Lower(q)
    ensures !Mentions("Lending Protocol", q) && !Mentions("Aptos Lending", q)
  {
    TextLacksLetter("Lending Protocol", q, 'z', 'Z');
    TextLacksLetter("Aptos Lending", q, 'z', 'Z');
  }

  /** Neither text of project '3' has a 'g' or a 'z', in either case. */
  lemma AmmDexLacks(q: string, c: char, u: char)
    requires (c == 'g' && u == 'G') || (c == 'z' && u == 'Z')
    requires c in Lower(q)
    ensures !Mentions("AMM DEX", q) && !Mentions("Automated Market Maker", q)
  {
    TextLacksLetter("AMM DEX", q, c, u);
    TextLacksLetter("Automated Market Maker", q, c, u);
  }

  /** "Move Matrix Demo" and "AMM DEX" have no 'g' anywhere, so any query with a 'g' skips them. */
  lemma SeedWithoutG(q: string)
    requires 'g' in Lower(q)
    ensures !Matches(Seed[0], q) && !Matches(Seed[2], q)
  {
    MoveMatrixLacks(q, 'g', 'G');
    AmmDexLacks(q, 'g', 'G');
  }

  /** "Lending Protocol" starts with "lending". */
  lemma SeedLendingName(q: string)
    requires Lower(q) == "lending"
    ensures Matches(Seed[1], q)
  {
    var n := Lower(Seed[1].name);
    assert n[0..7] == "lending";
    assert OccursAt(n, Lower(q), 0);
  }

  /** Any query lower-casing to "lending" shows exactly the "Lending Protocol" project. */
  lemma SeedLending(q: string)
    requires Lower(q) == "lending"
    ensures Filter(Seed, q) == [Seed[1]]
  {
    assert "lending"[6] == 'g';
    SeedWithoutG(q);
    SeedLendingName(q);
    FilterThree(Seed, q);
  }

  /** The query "lending" shows only the "Lending Protocol" project. */
  lemma SeedLendingExample()
    ensures Filter(Seed, "lending") == [Seed[1]]
  {
    var q := "lending";
    assert Lower(q) == q by {
      assert forall i :: 0 <= i < |q| ==> Lower(q)[i] == q[i];
    }
    SeedLending(q);
  }

  /** Upper-case "LENDING" selects the same single project. */
  lemma SeedLendingUpperExample()
    ensures Filter(Seed, "LENDING") == [Seed[1]]
  {
    var u := "LENDING";
    assert Lower(u) == "lending" by {
      assert forall i :: 0 <= i < |u| ==> Lower(u)[i] == "lending"[i];
    }
    SeedLending(u);
  }

  /** No seed has a 'z' in its name or description, so a query with a 'z' matches none. */
  lemma SeedWithoutZ(q: string)
    requires 'z' in Lower(q)
    ensures forall i :: 0 <= i < |Seed| ==> !Matches(Seed[i], q)
  {
    MoveMatrixLacks(q, 'z', 'Z');
    LendingLacksZ(q);
    AmmDexLacks(q, 'z', 'Z');
  }

  /** The query "zzz-no-match" shows nothing. */
  lemma SeedNoMatchExample()
    ensures Filter(Seed, "zzz-no-match") == []
  {
    var q := "zzz-no-match";
    assert Lower(q)[0] == 'z';
    SeedWithoutZ(q);
    FilterThree(Seed, q);
  }
}
