/** The new selected-skills list computed by the page's `toggleSkill`. */
module SkillToggle {
  import opened Seqs

  /** `prev.filter(s => s !== skill)`. */
  function RemoveAll(xs: seq<string>, skill: string): (r: seq<string>)
    ensures Subseq(r, xs)
    ensures forall x :: x in r <==> x in xs && x != skill
    ensures forall x :: multiset(r)[x] == if x != skill then multiset(xs)[x] else 0
    ensures |r| == |xs| - multiset(xs)[skill]
    decreases |xs|
  {
    if xs == [] then []
    else
      var rest := RemoveAll(xs[1..], skill);
      assert forall x :: x in xs <==> x == xs[0] || x in xs[1..];
      assert xs == [xs[0]] + xs[1..];
      if xs[0] != skill then [xs[0]] + rest else rest
  }

  /** Removing a value that is not there changes nothing. */
  lemma {:induction false} RemoveAbsent(xs: seq<string>, skill: string)
    requires skill !in xs
    ensures RemoveAll(xs, skill) == xs
    decreases |xs|
  {
    if xs != [] {
      RemoveAbsent(xs[1..], skill);
      assert xs == [xs[0]] + xs[1..];
    }
  }

  /** Removal keeps a list free of duplicates. */
  lemma {:induction false} RemoveKeepsDistinct(xs: seq<string>, skill: string)
    requires NoDuplicates(xs)
    ensures NoDuplicates(RemoveAll(xs, skill))
    decreases |xs|
  {
    if xs != [] {
      RemoveKeepsDistinct(xs[1..], skill);
      assert xs[0] !in xs[1..];
    }
  }

  /** If `skill` is selected, every copy of it goes and the rest keep their
      order; otherwise it is appended after the existing selection. */
  function Toggle(prev: seq<string>, skill: string): (r: seq<string>)
    ensures skill in r <==> skill !in prev
    ensures forall x :: x != skill ==> (x in r <==> x in prev)
    ensures skill in prev ==> Subseq(r, prev) && |r| == |prev| - multiset(prev)[skill]
    ensures skill in prev ==> forall x :: multiset(r)[x] == if x != skill then multiset(prev)[x] else 0
    ensures skill !in prev ==> |r| == |prev| + 1 && r[..|prev|] == prev && r[|prev|] == skill
  {
    if skill in prev then
      RemoveAll(prev, skill)
    else
      prev + [skill]
  }

  /** Toggling twice restores the membership of every skill, and restores the
      list itself when the skill was not selected. */
  lemma ToggleTwice(prev: seq<string>, skill: string)
    ensures forall x :: x in Toggle(Toggle(prev, skill), skill) <==> x in prev
    ensures skill !in prev ==> Toggle(Toggle(prev, skill), skill) == prev
  {
    if skill !in prev {
      RemoveAbsent(prev, skill);
      assert RemoveAll(prev + [skill], skill) == RemoveAll(prev, skill) by {
        RemoveSnoc(prev, skill);
      }
    }
  }

  /** Removing a value from a list that ends with it. */
  lemma {:induction false} RemoveSnoc(xs: seq<string>, skill: string)
    ensures RemoveAll(xs + [skill], skill) == RemoveAll(xs, skill)
    decreases |xs|
  {
    if xs != [] {
      RemoveSnoc(xs[1..], skill);
      assert (xs + [skill])[1..] == xs[1..] + [skill];
    }
  }

  /** A selection built by toggles never lists a skill twice. */
  lemma ToggleKeepsDistinct(prev: seq<string>, skill: string)
    requires NoDuplicates(prev)
    ensures NoDuplicates(Toggle(prev, skill))
  {
    if skill in prev {
      RemoveKeepsDistinct(prev, skill);
    }
  }
}
