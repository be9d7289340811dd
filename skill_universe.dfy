/** The list of skill buttons: every skill of every project, once each, in
    sorted order (the `allSkills` value of the page). */
module SkillUniverse {
  import opened PortfolioData
  import opened Text
  import opened Seqs

  /** The skills of a list of projects, concatenated in order (inner `flatMap`). */
  function ProjectSkills(ps: seq<Project>): (r: seq<string>)
    ensures forall s :: s in r <==> exists p :: p in ps && s in p.skills
    decreases |ps|
  {
    if ps == [] then []
    else
      var rest := ProjectSkills(ps[1..]);
      assert forall p :: p in ps <==> p == ps[0] || p in ps[1..];
      ps[0].skills + rest
  }

  /** The skills of every project of every category (outer `flatMap`). */
  function CategorySkills(cats: seq<Category>): (r: seq<string>)
    ensures forall s :: s in r <==> exists c, p :: c in cats && p in c.projects && s in p.skills
    decreases |cats|
  {
    if cats == [] then []
    else
      var rest := CategorySkills(cats[1..]);
      assert forall c :: c in cats <==> c == cats[0] || c in cats[1..];
      ProjectSkills(cats[0].projects) + rest
  }

  /** `Array.from(new Set(xs))`: each element once, at its first occurrence. */
  function Distinct(xs: seq<string>): (r: seq<string>)
    ensures NoDuplicates(r)
    ensures forall x :: x in r <==> x in xs
    decreases |xs|
  {
    if xs == [] then []
    else
      var init := xs[..|xs| - 1];
      var last := xs[|xs| - 1];
      assert xs == init + [last];
      var r := Distinct(init);
      if last in r then r else r + [last]
  }

  ghost predicate Sorted(s: seq<string>) {
    forall i, j :: 0 <= i < j < |s| ==> LexLe(s[i], s[j])
  }

  /** A head no greater than any element of a sorted tail keeps it sorted. */
  lemma SortedCons(h: string, t: seq<string>)
    requires Sorted(t)
    requires forall y :: y in t ==> LexLe(h, y)
    ensures Sorted([h] + t)
  {
    forall i, j | 0 <= i < j < |[h] + t| ensures LexLe(([h] + t)[i], ([h] + t)[j]) {
      if i == 0 {
        assert t[j - 1] in t;
      }
    }
  }

  /** Puts `x` in front of the first element of `s` it does not exceed. */
  function Insert(x: string, s: seq<string>): (r: seq<string>)
    requires Sorted(s)
    ensures Sorted(r)
    ensures multiset(r) == multiset(s) + multiset{x}
    ensures x !in s && NoDuplicates(s) ==> NoDuplicates(r)
    decreases |s|
  {
    if s == [] then [x]
    else if LexLe(x, s[0]) then
      InsertFront(x, s);
      [x] + s
    else
      var rest := Insert(x, s[1..]);
      InsertAfterHead(x, s, rest);
      [s[0]] + rest
  }

  lemma InsertFront(x: string, s: seq<string>)
    requires Sorted(s) && s != [] && LexLe(x, s[0])
    ensures Sorted([x] + s)
  {
    forall y | y in s ensures LexLe(x, y) {
      var j :| 0 <= j < |s| && s[j] == y;
      if j > 0 {
        LexLeTrans(x, s[0], s[j]);
      }
    }
    SortedCons(x, s);
  }

  lemma InsertAfterHead(x: string, s: seq<string>, rest: seq<string>)
    requires Sorted(s) && s != [] && !LexLe(x, s[0])
    requires Sorted(rest) && multiset(rest) == multiset(s[1..]) + multiset{x}
    ensures Sorted([s[0]] + rest)
    ensures multiset([s[0]] + rest) == multiset(s) + multiset{x}
    ensures x !in s && NoDuplicates(s) ==> s[0] !in rest
  {
    assert s == [s[0]] + s[1..];
    LexLeTotal(x, s[0]);
    forall y | y in rest ensures LexLe(s[0], y) {
      assert y in multiset(rest);
      if y != x {
        assert y in multiset(s[1..]);
        var j :| 0 <= j < |s[1..]| && s[1..][j] == y;
        assert s[j + 1] == y;
      }
    }
    SortedCons(s[0], rest);
    if x !in s && NoDuplicates(s) {
      assert s[0] in s;
      assert s[0] !in s[1..] by {
        assert forall j :: 0 <= j < |s[1..]| ==> s[1..][j] == s[j + 1];
      }
      assert s[0] !in multiset(rest);
    }
  }

  /** The default `Array.prototype.sort`: ascending lexicographic order. */
  function Sort(xs: seq<string>): (r: seq<string>)
    ensures Sorted(r)
    ensures multiset(r) == multiset(xs)
    ensures NoDuplicates(xs) ==> NoDuplicates(r)
    decreases |xs|
  {
    if xs == [] then []
    else
      var rest := Sort(xs[1..]);
      assert xs == [xs[0]] + xs[1..];
      assert NoDuplicates(xs) ==> xs[0] !in multiset(xs[1..]);
      Insert(xs[0], rest)
  }

  /** The page's `allSkills`: a skill is listed exactly when some project of
      some category has it; no skill twice; strictly ascending. */
  function AllSkills(cats: seq<Category>): (r: seq<string>)
    ensures forall s :: s in r <==> exists c, p :: c in cats && p in c.projects && s in p.skills
    ensures NoDuplicates(r)
    ensures forall i, j :: 0 <= i < j < |r| ==> LexLt(r[i], r[j])
  {
    var d := Distinct(CategorySkills(cats));
    var r := Sort(d);
    assert forall s :: s in r <==> s in d by {
      forall s ensures s in r <==> s in d {
        assert s in r <==> s in multiset(r);
      }
    }
    r
  }

  /** A sorted list without duplicates is determined by its elements, so the
      universe is the one such list of the projects' skills, whatever the order
      of the data or of the sort's comparisons. */
  lemma {:induction false} SortedDistinctUnique(a: seq<string>, b: seq<string>)
    requires Sorted(a) && NoDuplicates(a)
    requires Sorted(b) && NoDuplicates(b)
    requires forall x :: x in a <==> x in b
    ensures a == b
    decreases |a|
  {
    if a == [] {
      assert forall i :: 0 <= i < |b| ==> b[i] in a;
    } else {
      assert a[0] in a;
      assert b != [];
      assert b[0] in b;
      var k :| 0 <= k < |b| && b[k] == a[0];
      var m :| 0 <= m < |a| && a[m] == b[0];
      assert LexLe(b[0], a[0]) by {
        if k > 0 {
          assert LexLe(b[0], b[k]);
        } else {
          LexLeRefl(a[0]);
        }
      }
      assert LexLe(a[0], b[0]) by {
        if m > 0 {
          assert LexLe(a[0], a[m]);
        } else {
          LexLeRefl(a[0]);
        }
      }
      LexLeAntisymmetric(a[0], b[0]);
      forall x ensures x in a[1..] <==> x in b[1..] {
        assert x in a <==> x == a[0] || x in a[1..];
        assert x in b <==> x == b[0] || x in b[1..];
        assert a[0] !in a[1..];
        assert b[0] !in b[1..];
      }
      SortedDistinctUnique(a[1..], b[1..]);
      assert a == [a[0]] + a[1..];
      assert b == [b[0]] + b[1..];
    }
  }

  lemma AllSkillsCanonical(cats: seq<Category>, s: seq<string>)
    requires Sorted(s) && NoDuplicates(s)
    requires forall x :: x in s <==> exists c, p :: c in cats && p in c.projects && x in p.skills
    ensures s == AllSkills(cats)
  {
    var r := AllSkills(cats);
    assert Sorted(r) by {
      forall i, j | 0 <= i < j < |r| ensures LexLe(r[i], r[j]) {
        assert LexLt(r[i], r[j]);
      }
    }
    SortedDistinctUnique(s, r);
  }
}
