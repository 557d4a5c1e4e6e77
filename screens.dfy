/**
 * The two screens' state as objects. The movie list screen owns the
 * `movies` variable and the actors screen owns its own `actors` list; each
 * event handler reassigns that variable wholesale with one of the pure
 * transformations of Movies and Actors, and the actors screen passes every
 * change back to the movie list.
 */
module Screens {
  import opened Wrappers
  import opened Movies
  import opened Actors

  /** The movie list screen. Its invariant is that ids are unique. */
  class MoviesScreen {
    var movies: seq<Movie>

    ghost predicate Valid()
      reads this
    {
      UniqueIds(movies)
    }

    /** The screen starts from the two-movie seed. */
    constructor ()
      ensures Valid() && movies == SampleMovies
    {
      movies := SampleMovies;
      SampleMoviesFacts();
    }

    /** The dialog's save handler: without a movie being edited the new movie
        is appended, otherwise it replaces the movies with the same id. */
    method SaveMovie(editing: Option<Movie>, title: string)
      requires Valid()
      modifies this
      ensures Valid()
      ensures editing.None? ==> movies == CreateMovie(old(movies), title)
      ensures editing.Some? ==> movies == EditMovie(old(movies), editing.value, title)
    {
      var movie := DialogMovie(movies, editing, title);
      if editing.None? {
        CreatePreservesUniqueIds(movies, title);
        movies := movies + [movie];
      } else {
        EditPreservesUniqueIds(movies, editing.value, title);
        movies := ReplaceById(movies, movie);
      }
    }

    /** The "Eliminar" button of a movie card. */
    method Delete(id: int)
      requires Valid()
      modifies this
      ensures Valid()
      ensures movies == DeleteMovie(old(movies), id)
    {
      DeletePreservesUniqueIds(movies, id);
      movies := DeleteMovie(movies, id);
    }

    /** The callback through which the actors screen reports a new actor list
        for the movie it shows. */
    method UpdateActors(id: int, actors: seq<string>)
      requires Valid()
      modifies this
      ensures Valid()
      ensures movies == SetActors(old(movies), id, actors)
    {
      SetActorsPreservesUniqueIds(movies, id, actors);
      movies := SetActors(movies, id, actors);
    }
  }

  /** The actors screen of one movie: a local copy of its actor list, edited
      here and reported back to the movie list after every change. */
  class ActorsScreen {
    const movieId: int
    var actors: seq<string>

    /** Opening the screen copies the movie's actors. */
    constructor (movie: Movie)
      ensures movieId == movie.id && actors == movie.actors
    {
      movieId := movie.id;
      actors := movie.actors;
    }

    /** The actor dialog's save handler, with the name selected for editing
        (empty when opened by the "+" button). */
    method Save(selected: Option<string>, name: string, list: MoviesScreen)
      requires list.Valid()
      modifies this, list
      ensures actors == SaveActor(old(actors), selected, name)
      ensures list.Valid() && list.movies == SetActors(old(list.movies), movieId, actors)
    {
      actors := SaveActor(actors, selected, name);
      list.UpdateActors(movieId, actors);
    }

    /** The "Eliminar" button of an actor card. */
    method Remove(actor: string, list: MoviesScreen)
      requires list.Valid()
      modifies this, list
      ensures actors == RemoveActor(old(actors), actor)
      ensures list.Valid() && list.movies == SetActors(old(list.movies), movieId, actors)
    {
      actors := RemoveActor(actors, actor);
      list.UpdateActors(movieId, actors);
    }
  }

  /** The list values the seed scenario passes through. */
  lemma SeedSteps()
    ensures CreateMovie(SampleMovies, "Dune") == SampleMovies + [Movie(3, "Dune", [])]
    ensures SaveActor([], Some(""), "Timothée Chalamet") == ["Timothée Chalamet"]
    ensures SetActors(SampleMovies + [Movie(3, "Dune", [])], 3, ["Timothée Chalamet"])
              == SampleMovies + [Movie(3, "Dune", ["Timothée Chalamet"])]
    ensures DeleteMovie(SampleMovies + [Movie(3, "Dune", ["Timothée Chalamet"])], 1)
              == [SampleMovies[1], Movie(3, "Dune", ["Timothée Chalamet"])]
  {
    SampleMoviesFacts();
    var dune' := Movie(3, "Dune", ["Timothée Chalamet"]);
    var afterAdd := SampleMovies + [dune'];
    assert UniqueIds(afterAdd) by {
      SetActorsPreservesUniqueIds(SampleMovies + [Movie(3, "Dune", [])], 3, ["Timothée Chalamet"]);
      CreatePreservesUniqueIds(SampleMovies, "Dune");
    }
    DeleteAt(afterAdd, 0);
    assert afterAdd[1..] == [SampleMovies[1], dune'];
  }

  /** From the seed: create "Dune", add one actor to it through its actors
      screen, then delete the first movie. The list ends with the ids 2 and 3,
      and Dune has exactly the one actor. */
  method SeedScenario() returns (ids: seq<int>, duneActors: seq<string>)
    ensures ids == [2, 3]
    ensures duneActors == ["Timothée Chalamet"]
  {
    SeedSteps();
    var list := new MoviesScreen();
    list.SaveMovie(None, "Dune");
    var screen := new ActorsScreen(list.movies[2]);
    screen.Save(Some(""), "Timothée Chalamet", list);
    list.Delete(1);
    ids := Ids(list.movies);
    duneActors := list.movies[1].actors;
  }
}
