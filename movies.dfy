/**
 * The movie list of the catalogue screen and the pure transformations its
 * event handlers apply to it: id assignment, create, edit, delete and
 * replacing one movie's actor list.
 */
module Movies {
  import opened Wrappers

  /** A catalogue entry: an id assigned by the catalogue, a title, and the
      ordered list of actor names (duplicates allowed). */
  datatype Movie = Movie(id: int, title: string, actors: seq<string>)

  /** The two movies the screen starts with. */
  const SampleMovies: seq<Movie> := [
    Movie(1, "Inception", ["Leonardo DiCaprio", "Joseph Gordon-Levitt"]),
    Movie(2, "The Dark Knight", ["Christian Bale", "Heath Ledger"])
  ]

  /** The ids of the list, in order. */
  function Ids(ms: seq<Movie>): (r: seq<int>)
    ensures |r| == |ms|
    ensures forall i :: 0 <= i < |ms| ==> r[i] == ms[i].id
  {
    if ms == [] then [] else [ms[0].id] + Ids(ms[1..])
  }

  /** No two movies of the list share an id. */
  ghost predicate UniqueIds(ms: seq<Movie>) {
    forall i, j :: 0 <= i < j < |ms| ==> ms[i].id != ms[j].id
  }

  /** Some movie of the list has this id. */
  ghost predicate HasId(ms: seq<Movie>, id: int) {
    exists i :: 0 <= i < |ms| && ms[i].id == id
  }

  // ---------------------------------------------------------------- ids

  /** The largest id of the list, or None when the list is empty. */
  function MaxIdOrNull(ms: seq<Movie>): (r: Option<int>)
    ensures r.None? <==> ms == []
    ensures r.Some? ==> forall i :: 0 <= i < |ms| ==> ms[i].id <= r.value
    ensures r.Some? ==> HasId(ms, r.value)
  {
    if ms == [] then None
    else
      match MaxIdOrNull(ms[1..])
      case None => Some(ms[0].id)
      case Some(k) =>
        assert HasId(ms[1..], k);
        var j :| 0 <= j < |ms[1..]| && ms[1..][j].id == k;
        assert ms[j + 1].id == k;
        Some(if ms[0].id >= k then ms[0].id else k)
  }

  /** The id a newly created movie receives: the largest existing id plus one,
      or 1 for the empty list. It is the least integer above every existing id,
      so no movie of the list has it. */
  function NextId(ms: seq<Movie>): (r: int)
    ensures forall i :: 0 <= i < |ms| ==> ms[i].id < r
    ensures !HasId(ms, r)
    ensures ms == [] ==> r == 1
    ensures ms != [] ==> HasId(ms, r - 1)
  {
    MaxIdOrNull(ms).GetOr(0) + 1
  }

  // ---------------------------------------------------------------- dialog

  /** The movie the create/edit dialog hands to its save handler: when editing,
      the edited movie's id and actors with the entered title; when creating,
      a fresh id, the entered title and no actors. */
  function DialogMovie(ms: seq<Movie>, editing: Option<Movie>, title: string): (r: Movie)
    ensures r.title == title
    ensures editing.Some? ==> r.id == editing.value.id && r.actors == editing.value.actors
    ensures editing.None? ==> r.id == NextId(ms)
    ensures editing.None? ==> r.actors == [] && !HasId(ms, r.id)
    ensures editing.None? ==> forall i :: 0 <= i < |ms| ==> ms[i].id < r.id
    ensures editing.None? && ms == [] ==> r.id == 1
  {
    match editing
    case Some(e) => Movie(e.id, title, e.actors)
    case None => Movie(NextId(ms), title, [])
  }

  // ---------------------------------------------------------------- create

  /** Saving the dialog in create mode: the new movie goes at the end. */
  function CreateMovie(ms: seq<Movie>, title: string): (r: seq<Movie>)
    ensures |r| == |ms| + 1
    ensures r[..|ms|] == ms
    ensures r[|ms|].title == title && r[|ms|].actors == []
    ensures r[|ms|].id == NextId(ms)
    ensures forall i :: 0 <= i < |ms| ==> ms[i].id < r[|ms|].id
    ensures ms == [] ==> r[0].id == 1
  {
    ms + [DialogMovie(ms, None, title)]
  }

  /** Creation never introduces a duplicate id. */
  lemma CreatePreservesUniqueIds(ms: seq<Movie>, title: string)
    requires UniqueIds(ms)
    ensures UniqueIds(CreateMovie(ms, title))
  {
  }

  // ---------------------------------------------------------------- edit

  /** Saving a movie over the list: every movie with the id of `m` becomes
      `m`; the others, the length and every id stay. */
  function ReplaceById(ms: seq<Movie>, m: Movie): (r: seq<Movie>)
    ensures |r| == |ms|
    ensures forall i :: 0 <= i < |ms| ==> r[i].id == ms[i].id
    ensures forall i :: 0 <= i < |ms| && ms[i].id != m.id ==> r[i] == ms[i]
    ensures forall i :: 0 <= i < |ms| && ms[i].id == m.id ==> r[i] == m
  {
    if ms == [] then []
    else [if ms[0].id == m.id then m else ms[0]] + ReplaceById(ms[1..], m)
  }

  /** Saving the dialog in edit mode for the movie `e`: movies with `e`'s id
      get the entered title and `e`'s actors; nothing else changes, and the
      list is unchanged when no movie has that id. */
  function EditMovie(ms: seq<Movie>, e: Movie, title: string): (r: seq<Movie>)
    ensures |r| == |ms| && Ids(r) == Ids(ms)
    ensures forall i :: 0 <= i < |ms| && ms[i].id != e.id ==> r[i] == ms[i]
    ensures forall i :: 0 <= i < |ms| && ms[i].id == e.id ==> r[i] == Movie(e.id, title, e.actors)
    ensures !HasId(ms, e.id) ==> r == ms
  {
    ReplaceById(ms, DialogMovie(ms, Some(e), title))
  }

  /** Editing a movie picked from a list with unique ids changes its title
      and nothing else: same position, same id, same actors. */
  lemma EditChangesOnlyTitle(ms: seq<Movie>, k: nat, title: string)
    requires UniqueIds(ms) && k < |ms|
    ensures EditMovie(ms, ms[k], title) == ms[k := ms[k].(title := title)]
  {
  }

  /** Editing never introduces a duplicate id. */
  lemma EditPreservesUniqueIds(ms: seq<Movie>, e: Movie, title: string)
    requires UniqueIds(ms)
    ensures UniqueIds(EditMovie(ms, e, title))
  {
  }

  // ---------------------------------------------------------------- delete

  /** Deleting by id: the movies kept are exactly those of the list with a
      different id. */
  function DeleteMovie(ms: seq<Movie>, id: int): (r: seq<Movie>)
    ensures |r| <= |ms|
    ensures forall m :: m in r <==> m in ms && m.id != id
  {
    if ms == [] then []
    else if ms[0].id != id then [ms[0]] + DeleteMovie(ms[1..], id)
    else DeleteMovie(ms[1..], id)
  }

  /** Deleting drops every occurrence of a movie with that id and keeps every
      other movie as often as it occurred. */
  lemma {:induction false} DeleteCount(ms: seq<Movie>, id: int, m: Movie)
    ensures multiset(DeleteMovie(ms, id))[m] == if m.id == id then 0 else multiset(ms)[m]
  {
    if ms != [] {
      DeleteCount(ms[1..], id, m);
      assert ms == [ms[0]] + ms[1..];
    }
  }

  /** Deleting distributes over concatenation, so the kept movies stay in
      their original relative order. */
  lemma {:induction false} DeleteConcat(a: seq<Movie>, b: seq<Movie>, id: int)
    ensures DeleteMovie(a + b, id) == DeleteMovie(a, id) + DeleteMovie(b, id)
  {
    if a == [] {
      assert a + b == b;
    } else {
      assert (a + b)[1..] == a[1..] + b;
      DeleteConcat(a[1..], b, id);
    }
  }

  /** Deleting an id nobody has leaves the list unchanged. */
  lemma {:induction false} DeleteAbsent(ms: seq<Movie>, id: int)
    requires !HasId(ms, id)
    ensures DeleteMovie(ms, id) == ms
  {
    if ms != [] {
      assert ms[0].id != id;
      DeleteAbsent(ms[1..], id);
      assert ms == [ms[0]] + ms[1..];
    }
  }

  /** Under unique ids, deleting the id of the movie at position `k` removes
      exactly that movie: the list shrinks by one and the rest keeps its order. */
  lemma DeleteAt(ms: seq<Movie>, k: nat)
    requires UniqueIds(ms) && k < |ms|
    ensures DeleteMovie(ms, ms[k].id) == ms[..k] + ms[k + 1..]
    ensures |DeleteMovie(ms, ms[k].id)| == |ms| - 1
  {
    var id, pre, post := ms[k].id, ms[..k], ms[k + 1..];
    assert ms == pre + ([ms[k]] + post);
    DeleteConcat(pre, [ms[k]] + post, id);
    DeleteConcat([ms[k]], post, id);
    forall j | 0 <= j < |pre| ensures pre[j].id != id {
      assert pre[j] == ms[j];
    }
    forall j | 0 <= j < |post| ensures post[j].id != id {
      assert post[j] == ms[k + 1 + j];
    }
    DeleteAbsent(pre, id);
    DeleteAbsent(post, id);
    assert DeleteMovie([ms[k]], id) == [];
  }

  /** Deleting keeps the ids unique: the result is drawn from the list. */
  lemma {:induction false} DeletePreservesUniqueIds(ms: seq<Movie>, id: int)
    requires UniqueIds(ms)
    ensures UniqueIds(DeleteMovie(ms, id))
  {
    if ms != [] {
      var rest := DeleteMovie(ms[1..], id);
      assert UniqueIds(ms[1..]) by {
        forall i, j | 0 <= i < j < |ms[1..]| ensures ms[1..][i].id != ms[1..][j].id {
          assert ms[i + 1].id != ms[j + 1].id;
        }
      }
      DeletePreservesUniqueIds(ms[1..], id);
      if ms[0].id != id {
        var r := [ms[0]] + rest;
        forall j | 0 <= j < |rest| ensures rest[j].id != ms[0].id {
          assert rest[j] in ms[1..];
          var i :| 0 <= i < |ms[1..]| && ms[1..][i] == rest[j];
          assert ms[i + 1] == rest[j];
        }
        forall i, j | 0 <= i < j < |r| ensures r[i].id != r[j].id {
          if i == 0 {
            assert r[j] == rest[j - 1];
          } else {
            assert r[i] == rest[i - 1] && r[j] == rest[j - 1];
          }
        }
      }
    }
  }

  // ---------------------------------------------------------------- actors

  /** Replacing the actor list of the movies with that id; ids, titles, the
      other movies, the length and the order stay. */
  function SetActors(ms: seq<Movie>, id: int, actors: seq<string>): (r: seq<Movie>)
    ensures |r| == |ms|
    ensures forall i :: 0 <= i < |ms| ==> r[i].id == ms[i].id && r[i].title == ms[i].title
    ensures forall i :: 0 <= i < |ms| && ms[i].id == id ==> r[i].actors == actors
    ensures forall i :: 0 <= i < |ms| && ms[i].id != id ==> r[i] == ms[i]
  {
    if ms == [] then []
    else [if ms[0].id == id then ms[0].(actors := actors) else ms[0]] + SetActors(ms[1..], id, actors)
  }

  /** Replacing actors never changes an id, so uniqueness is kept. */
  lemma SetActorsPreservesUniqueIds(ms: seq<Movie>, id: int, actors: seq<string>)
    requires UniqueIds(ms)
    ensures UniqueIds(SetActors(ms, id, actors))
  {
  }

  /** Replacing the actors of an id no movie has leaves the list unchanged. */
  lemma SetActorsAbsent(ms: seq<Movie>, id: int, actors: seq<string>)
    requires !HasId(ms, id)
    ensures SetActors(ms, id, actors) == ms
  {
  }

  // ---------------------------------------------------------------- seed

  /** The seed has the unique ids 1 and 2, so the first movie created on it
      gets id 3. */
  lemma SampleMoviesFacts()
    ensures UniqueIds(SampleMovies)
    ensures Ids(SampleMovies) == [1, 2]
    ensures NextId(SampleMovies) == 3
    ensures CreateMovie(SampleMovies, "Dune")[2].id == 3
  {
  }
}
