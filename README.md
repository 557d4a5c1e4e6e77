# Movie catalogue: a Dafny model

The application is an Android screen that keeps a small in-memory catalogue
of movies. Each movie has an integer id, a title and an ordered list of actor
names. The data logic lives in the Compose event handlers of `MainActivity.kt`:

- the movie list starts from a two-movie seed;
- a dialog creates a movie (fresh id, entered title, no actors) or edits one
  (its id and actors, the entered title);
- a movie card deletes its movie;
- an actors screen keeps its own copy of one movie's actor names. It appends,
  renames or removes names and reports every new list back to the movie list,
  which replaces that movie's actors by id.

The model has four modules:

- `Wrappers` holds `Option`, standing in for Kotlin's nullable types.
- `Movies` holds the `Movie` record, the seed and the pure list
  transformations: `MaxIdOrNull`/`NextId`, `DialogMovie`, `CreateMovie`,
  `ReplaceById`/`EditMovie`, `DeleteMovie` and `SetActors`. It also holds the
  `UniqueIds` invariant and the lemmas that every operation keeps it.
- `Actors` holds `AddActor`, `RenameActor`, `RemoveActor` and `SaveActor`.
  `SaveActor` is the dialog's choice between append and rename, with Kotlin's
  `isNullOrEmpty` test.
- `Screens` holds two classes. `MoviesScreen` has a `movies: seq<Movie>` field,
  and `ActorsScreen` has an `actors: seq<string>` field. Their handler methods
  reassign these fields wholesale, as the Kotlin state variables are. One
  client method replays a concrete scenario that starts from the seed.

Two details of the code are easy to miss:

- Creating a movie takes no actor list; a new movie always starts with no
  actors (line 224).
- Editing replaces every movie with the edited id by the movie the dialog
  built. That movie carries the actors of the movie as it was when the
  dialog opened (lines 222-224 and 44), not necessarily the actors currently
  in the list. `EditChangesOnlyTitle` shows that, for a movie taken from the
  current list with unique ids, only the title changes.

The empty string does two jobs in the actors screen. It is a legal actor
name, and it also marks "create" for the "+" button (lines 129 and 152).
So editing an actor whose name is empty appends a new name and renames
nothing. `EditingEmptyNameAppends` states this.

## Model

| member | source | states |
|---|---|---|
| `Movies.MaxIdOrNull` | app/src/main/java/com/example/gr2sw2024b_lnpr/MainActivity.kt:222 | None exactly for the empty list; otherwise a value that is some movie's id and at least every id |
| `Movies.NextId` | app/src/main/java/com/example/gr2sw2024b_lnpr/MainActivity.kt:222 | the new id is above every existing id and taken by no movie; it is 1 for the empty list and otherwise one more than an existing id |
| `Movies.DialogMovie` | app/src/main/java/com/example/gr2sw2024b_lnpr/MainActivity.kt:221-225 | the saved movie has the entered title; when editing it has the edited movie's id and actors; when creating it has no actors and the id NextId assigns, which is fresh (1 on an empty list) |
| `Movies.CreateMovie` | app/src/main/java/com/example/gr2sw2024b_lnpr/MainActivity.kt:42 | length grows by one; earlier movies stay unchanged and in order; the last movie has the entered title, no actors, and the id NextId assigns, greater than every earlier id |
| `Movies.CreatePreservesUniqueIds` | app/src/main/java/com/example/gr2sw2024b_lnpr/MainActivity.kt:42 | creation never introduces a duplicate id |
| `Movies.ReplaceById` | app/src/main/java/com/example/gr2sw2024b_lnpr/MainActivity.kt:44 | length and every id are kept; movies with the saved movie's id become that movie; all others are unchanged |
| `Movies.EditMovie` | app/src/main/java/com/example/gr2sw2024b_lnpr/MainActivity.kt:222-224 | same length and ids; movies with the edited id get the entered title and the edited movie's actors; the others are unchanged; with no matching id the list is unchanged |
| `Movies.EditChangesOnlyTitle` | app/src/main/java/com/example/gr2sw2024b_lnpr/MainActivity.kt:44 | under unique ids, editing the movie at position k changes only that movie's title |
| `Movies.EditPreservesUniqueIds` | app/src/main/java/com/example/gr2sw2024b_lnpr/MainActivity.kt:44 | editing keeps ids unique |
| `Movies.DeleteMovie` | app/src/main/java/com/example/gr2sw2024b_lnpr/MainActivity.kt:105 | no movie with the id is left; a movie is kept if and only if it was in the list with a different id; the list does not grow |
| `Movies.DeleteCount` | app/src/main/java/com/example/gr2sw2024b_lnpr/MainActivity.kt:105 | every movie with a different id keeps its number of occurrences; movies with the id occur zero times |
| `Movies.DeleteConcat` | app/src/main/java/com/example/gr2sw2024b_lnpr/MainActivity.kt:105 | deletion distributes over concatenation, so the kept movies stay in their relative order |
| `Movies.DeleteAbsent` | app/src/main/java/com/example/gr2sw2024b_lnpr/MainActivity.kt:105 | deleting an id that no movie has leaves the list unchanged |
| `Movies.DeleteAt` | app/src/main/java/com/example/gr2sw2024b_lnpr/MainActivity.kt:105 | under unique ids, deleting the id at position k removes exactly that movie; the list shrinks by one and the rest keeps its order |
| `Movies.DeletePreservesUniqueIds` | app/src/main/java/com/example/gr2sw2024b_lnpr/MainActivity.kt:105 | deletion keeps ids unique |
| `Movies.SetActors` | app/src/main/java/com/example/gr2sw2024b_lnpr/MainActivity.kt:56-58 | length, ids and titles are kept; movies with the id get the new actors; every other movie is unchanged |
| `Movies.SetActorsPreservesUniqueIds` | app/src/main/java/com/example/gr2sw2024b_lnpr/MainActivity.kt:56-58 | replacing actors keeps ids unique |
| `Movies.SetActorsAbsent` | app/src/main/java/com/example/gr2sw2024b_lnpr/MainActivity.kt:56-58 | with no movie of that id the list is unchanged |
| `Movies.SampleMoviesFacts` | app/src/main/java/com/example/gr2sw2024b_lnpr/MainActivity.kt:274-277 | the seed has the unique ids 1 and 2; the next id is 3, and so is the id of the first movie created on it |
| `Actors.AddActor` | app/src/main/java/com/example/gr2sw2024b_lnpr/MainActivity.kt:130 | the name becomes the last element; the earlier actors are unchanged; the name occurs once more |
| `Actors.RenameActor` | app/src/main/java/com/example/gr2sw2024b_lnpr/MainActivity.kt:132 | length is kept; every occurrence of the old name becomes the new name; every other element stays in place |
| `Actors.RenameAbsent` | app/src/main/java/com/example/gr2sw2024b_lnpr/MainActivity.kt:132 | renaming a name that is not in the list changes nothing |
| `Actors.RenameCount` | app/src/main/java/com/example/gr2sw2024b_lnpr/MainActivity.kt:132 | for distinct names: the old name is gone; the new name's count is the sum of both counts; every other count is kept |
| `Actors.RemoveActor` | app/src/main/java/com/example/gr2sw2024b_lnpr/MainActivity.kt:181 | no occurrence of the name is left; every other name keeps its count; length shrinks by the number of occurrences |
| `Actors.RemoveConcat` | app/src/main/java/com/example/gr2sw2024b_lnpr/MainActivity.kt:181 | removal distributes over concatenation, so the other names keep their order |
| `Actors.RemoveAbsent` | app/src/main/java/com/example/gr2sw2024b_lnpr/MainActivity.kt:181 | removing an absent name changes nothing, so removing twice equals removing once |
| `Actors.SaveActor` | app/src/main/java/com/example/gr2sw2024b_lnpr/MainActivity.kt:128-133 | the list grows if and only if the selected name is null or empty, and then the name is appended; otherwise every occurrence of the selected name becomes the entered name and the length is kept |
| `Actors.EditingEmptyNameAppends` | app/src/main/java/com/example/gr2sw2024b_lnpr/MainActivity.kt:129 | editing an actor whose name is empty appends the entered name and leaves the empty-named actor in place |
| `Screens.MoviesScreen.constructor` | app/src/main/java/com/example/gr2sw2024b_lnpr/MainActivity.kt:27 | the screen starts from the seed, which has unique ids |
| `Screens.MoviesScreen.SaveMovie` | app/src/main/java/com/example/gr2sw2024b_lnpr/MainActivity.kt:40-45 | with no movie being edited the list becomes CreateMovie of the old list, otherwise EditMovie; unique ids are kept |
| `Screens.MoviesScreen.Delete` | app/src/main/java/com/example/gr2sw2024b_lnpr/MainActivity.kt:104-106 | the list becomes DeleteMovie of the old list; unique ids are kept |
| `Screens.MoviesScreen.UpdateActors` | app/src/main/java/com/example/gr2sw2024b_lnpr/MainActivity.kt:55-59 | the list becomes SetActors of the old list; unique ids are kept |
| `Screens.ActorsScreen.constructor` | app/src/main/java/com/example/gr2sw2024b_lnpr/MainActivity.kt:121 | the screen's actors are a copy of the movie's actors |
| `Screens.ActorsScreen.Save` | app/src/main/java/com/example/gr2sw2024b_lnpr/MainActivity.kt:128-135 | the local list becomes SaveActor of the old list; the movie list gets it through SetActors for this movie's id |
| `Screens.ActorsScreen.Remove` | app/src/main/java/com/example/gr2sw2024b_lnpr/MainActivity.kt:180-183 | the local list becomes RemoveActor of the old list; the movie list gets it through SetActors for this movie's id |
| `Screens.SeedSteps` | app/src/main/java/com/example/gr2sw2024b_lnpr/MainActivity.kt:274-277 | the lists produced from the seed: creating "Dune" appends id 3, adding an actor gives it exactly that actor, and deleting id 1 leaves ids 2 and 3 in that order |
| `Screens.SeedScenario` | app/src/main/java/com/example/gr2sw2024b_lnpr/MainActivity.kt:274-277 | the same scenario driven through the screen objects ends with ids [2, 3], and Dune has one actor |

## Left out

- Compose presentation (`setContent`, `Scaffold`, `LazyColumn`, cards, dialogs, buttons, layout) is library code for rendering. It has no effect on the data.
- The dialog and navigation flags `showCreateMovieDialog`, `selectedMovieForEdit`, `selectedMovieForActors` and `showEditActorDialog` are not modelled as state. Instead, the movie being edited is the `editing` parameter of `SaveMovie`, the selected actor name is the `selected` parameter of `Save`, and the selected movie's id is the `movieId` of an `ActorsScreen`.
- `remember`/`mutableStateOf` recomposition is not modelled. Each handler is one sequential state update. The model also does not relate an `ActorsScreen`'s local copy to the movie list that later edits may change.
- Movies.NextId: Kotlin's `Int` wraps at 2147483647, and the model's ids are unbounded integers. So `max + 1` overflow is not modelled.
- Text fields (`TextFieldValue`) are left out. Entered titles and names are arbitrary strings, including the empty string.
