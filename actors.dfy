/**
 * The actor list of one movie and the transformations the actors screen
 * applies to it: add, rename, remove, and the save handler that chooses
 * between add and rename.
 */
module Actors {
  import opened Wrappers

  /** Adding an actor: the name becomes the last actor, the earlier actors
      are kept in place, and the name occurs once more than before. */
  function AddActor(actors: seq<string>, name: string): (r: seq<string>)
    ensures |r| == |actors| + 1
    ensures r[..|actors|] == actors && r[|actors|] == name
    ensures multiset(r) == multiset(actors) + multiset{name}
  {
    actors + [name]
  }

  /** Renaming an actor: every occurrence of `from` becomes `to`, every other
      name stays where it was. */
  function RenameActor(actors: seq<string>, from: string, to: string): (r: seq<string>)
    ensures |r| == |actors|
    ensures forall i :: 0 <= i < |actors| && actors[i] == from ==> r[i] == to
    ensures forall i :: 0 <= i < |actors| && actors[i] != from ==> r[i] == actors[i]
  {
    if actors == [] then []
    else [if actors[0] == from then to else actors[0]] + RenameActor(actors[1..], from, to)
  }

  /** Renaming an absent name changes nothing. */
  lemma RenameAbsent(actors: seq<string>, from: string, to: string)
    requires from !in actors
    ensures RenameActor(actors, from, to) == actors
  {
  }

  /** After renaming to a different name the old name is gone, the new name
      is counted once for each occurrence of either name, and every other
      name keeps its count. */
  lemma {:induction false} RenameCount(actors: seq<string>, from: string, to: string, x: string)
    requires from != to
    ensures multiset(RenameActor(actors, from, to))[x] ==
              if x == from then 0
              else if x == to then multiset(actors)[to] + multiset(actors)[from]
              else multiset(actors)[x]
  {
    if actors != [] {
      var head := if actors[0] == from then to else actors[0];
      var rest := RenameActor(actors[1..], from, to);
      RenameCount(actors[1..], from, to, x);
      assert RenameActor(actors, from, to) == [head] + rest;
      assert multiset(RenameActor(actors, from, to)) == multiset{head} + multiset(rest);
      assert multiset(actors) == multiset{actors[0]} + multiset(actors[1..]) by {
        assert actors == [actors[0]] + actors[1..];
      }
      if x == from {
        assert head != x;
      } else if x == to {
        assert multiset{head}[x] == multiset{actors[0]}[from] + multiset{actors[0]}[to];
      } else {
        assert multiset{head}[x] == multiset{actors[0]}[x];
      }
    }
  }

  /** Removing an actor: no occurrence of `name` is left, every
      other name keeps its number of occurrences, and the list shrinks by the
      number of occurrences removed. */
  function RemoveActor(actors: seq<string>, name: string): (r: seq<string>)
    ensures name !in r
    ensures multiset(r) == multiset(actors)[name := 0]
    ensures |r| == |actors| - multiset(actors)[name]
  {
    if actors == [] then []
    else
      var rest := RemoveActor(actors[1..], name);
      assert actors == [actors[0]] + actors[1..];
      if actors[0] != name then [actors[0]] + rest else rest
  }

  /** Removing distributes over concatenation, so the remaining names keep
      their relative order. */
  lemma {:induction false} RemoveConcat(a: seq<string>, b: seq<string>, name: string)
    ensures RemoveActor(a + b, name) == RemoveActor(a, name) + RemoveActor(b, name)
  {
    if a == [] {
      assert a + b == b;
    } else {
      assert (a + b)[1..] == a[1..] + b;
      RemoveConcat(a[1..], b, name);
    }
  }

  /** Removing an absent name changes nothing; in particular removing twice is
      the same as removing once. */
  lemma {:induction false} RemoveAbsent(actors: seq<string>, name: string)
    requires name !in actors
    ensures RemoveActor(actors, name) == actors
  {
    if actors != [] {
      assert forall x :: x in actors[1..] ==> x in actors;
      RemoveAbsent(actors[1..], name);
      assert actors == [actors[0]] + actors[1..];
    }
  }

  /** The name selected for editing is absent or empty. */
  predicate IsNullOrEmpty(selected: Option<string>) {
    selected.None? || selected.value == ""
  }

  /** The save handler of the actor dialog: with no selected name, or the empty
      one the "+" button uses as its marker, the entered name is appended;
      otherwise every occurrence of the selected name is renamed. It grows the
      list exactly when the selection is null or empty. */
  function SaveActor(actors: seq<string>, selected: Option<string>, name: string): (r: seq<string>)
    ensures IsNullOrEmpty(selected) <==> |r| == |actors| + 1
    ensures !IsNullOrEmpty(selected) ==> |r| == |actors|
    ensures IsNullOrEmpty(selected) ==> r[..|actors|] == actors && r[|actors|] == name
    ensures !IsNullOrEmpty(selected) ==>
              forall i :: 0 <= i < |actors| ==>
                r[i] == if actors[i] == selected.value then name else actors[i]
  {
    if IsNullOrEmpty(selected) then AddActor(actors, name)
    else RenameActor(actors, selected.value, name)
  }

  /** The empty name is both a legal actor name and the marker for "create":
      editing an actor whose name is empty appends the entered name and
      leaves the empty-named actor in place. */
  lemma EditingEmptyNameAppends(actors: seq<string>, k: nat, name: string)
    requires k < |actors| && actors[k] == ""
    ensures SaveActor(actors, Some(actors[k]), name) == actors + [name]
    ensures SaveActor(actors, Some(actors[k]), name)[k] == ""
  {
  }
}
