# Movie Manager core, modelled in Dafny

This project models the logic-bearing core of a small React + TypeScript single-page
application that lists shows from a remote catalogue (TVMaze), lets the user keep a
list of favourite movies, and lets the user post positive or negative text reviews
held only in memory.

The modelled core is:

- `useFetchMovies` (`fetch_movies.dfy`, module `FetchMovies`): the per-record
  normalisation of catalogue shows into `Movie` values, and the `(data, loading, error)`
  state driven by one request. The request is not performed: how it ended is an
  `Outcome` given as input (a response with status and body, or a throw), and the
  hook's `try`/`catch`/`finally` is the imperative `MoviesFetch.Settle`, proved against
  the pure `Resolve`.
- `useReviews` (`reviews.dfy`, module `Reviews`): a class holding the review sequence,
  with guarded appends of trimmed messages and a clear-all.
- `MovieDashboard` (`dashboard.dfy`, module `Dashboard`): the favourites list
  (dedupe-by-id add, filter-by-id remove) and the review input box with its submit
  handler.
- `Review.ts` (`review.dfy`, module `ReviewType`): the two-variant review and
  `renderReview`, with a reader that recovers the review from its rendering.
- `Movie.ts` (`movie.dfy`, module `MovieType`): the `Movie` record and `formatMovie`.
- The JavaScript built-ins these rely on (`text.dfy`, module `Text`): `String.prototype.trim`
  over the ECMAScript whitespace and line-terminator set, `Array.prototype.join`, and the
  decimal printing of an integer in a template literal, with a reader proving it
  loses nothing. `wrappers.dfy` holds the `Option` type used for `T | null`.

Where the code and its documented intent differ, the model follows the code:

- A cancelled request still runs the `finally` block, so `loading` becomes false even
  though nothing else changes (`MoviesFetch.Settle`).
- A failure leaves `data` as it was; it is not emptied.
- A thrown `Error` whose message is empty is stored as the empty string; the fixed
  unknown-error text is used only for thrown values that are not `Error` instances
  (`FetchMovies.ErrorMessage`).
- A request that has been superseded is not prevented from running its `finally`;
  the interleaving itself is outside the model (see below).

## Model

| member | source | states |
|---|---|---|
| `Text.Trim` | src/hooks/useReviews.ts:27-33 | `trim()` gives the infix of its input that is preceded and followed only by whitespace and that, when non-empty, starts and ends with a non-whitespace character |
| `Text.TrimmedAtIsTrim` | src/hooks/useReviews.ts:27-33 | any infix preceded and followed only by whitespace, with non-whitespace ends when non-empty, is the trim: the description determines `trim()` |
| `Text.TrimBlank` | src/hooks/useReviews.ts:27-29 | a message trims to nothing exactly when every character of it is whitespace |
| `Text.TrimIdempotent` | src/hooks/useReviews.ts:33 | the trimmed message that is stored is its own trim |
| `Text.IntToString` | src/types/Movie.ts:20 | the printed integer is never empty and starts with a minus sign exactly when the integer is negative |
| `Text.IntToStringRoundTrip` | src/types/Movie.ts:20 | the printed rating reads back as the same integer |
| `Text.IntToStringInjective` | src/hooks/useFetchMovies.ts:50 | different integers print differently |
| `Text.Join` | src/types/Movie.ts:19 | joining no genres gives the empty string, and a single genre is returned alone with no separator |
| `Text.JoinPart` | src/types/Movie.ts:19 | every genre appears unchanged in the joined list, at the offset of the genres and separators before it |
| `Text.JoinSeparator` | src/types/Movie.ts:19 | between consecutive genres the join puts exactly one separator, in genre order |
| `Text.JoinLength` | src/types/Movie.ts:19 | for n genres the joined length is the genres' total length plus n-1 separators |
| `MovieType.FormatMovie` | src/types/Movie.ts:18-21 | the line begins with the title followed by " (" and ends with ") - Rating: ", the printed rating and "/10" |
| `MovieType.FormatMovieSplit` | src/types/Movie.ts:19-20 | the line is exactly the title and " (", then the genres joined by ", ", then ") - Rating: <rating>/10", and the joined genres start right after the " (" |
| `MovieType.FormatMovieGenre` | src/types/Movie.ts:19-20 | every genre of the movie appears in the line, in list order, after the title and " (" |
| `MovieType.FormatMovieSeparator` | src/types/Movie.ts:19-20 | consecutive genres are separated in the line by exactly one ", " |
| `MovieType.FormatMovieIgnoresIdAndAvailability` | src/types/Movie.ts:18-21 | the line depends only on title, genres and rating, not on id or availability |
| `MovieType.FormatMovieDeterminesRating` | src/types/Movie.ts:20 | for a given title and genres, the line determines the rating |
| `ReviewType.MakeReview` | src/types/Review.ts:5-7 | the review built from a tag and a message has that tag and that message |
| `ReviewType.RenderReview` | src/types/Review.ts:15-20 | a positive review renders with the positive label, a negative one with the negative label, and the rendering ends with the message |
| `ReviewType.RenderReviewRoundTrip` | src/types/Review.ts:15-20 | the tag and the message can both be read back from the rendering |
| `ReviewType.RenderReviewInjective` | src/types/Review.ts:15-20 | two reviews that render alike are the same review |
| `ReviewType.RenderReviewTagsDiffer` | src/types/Review.ts:16-19 | the positive and negative renderings of one message differ |
| `FetchMovies.NormalizeShow` | src/hooks/useFetchMovies.ts:56-62 | id and title pass through; empty genres become the one placeholder genre, others are kept, so genres are never empty; a null average gives 0 and a present one passes unclamped; available iff the status is "Running" or "Ended" |
| `FetchMovies.NormalizeShows` | src/hooks/useFetchMovies.ts:56-62 | one movie per record, same length, element i normalised from record i |
| `FetchMovies.NormalizeShowsAppend` | src/hooks/useFetchMovies.ts:56 | normalising two catalogue pieces gives their results in the same order |
| `FetchMovies.HttpError` | src/hooks/useFetchMovies.ts:49-50 | a non-ok response throws an error that is not a cancellation and whose message starts with "Error HTTP: " |
| `FetchMovies.IsAbort` | src/hooks/useFetchMovies.ts:67 | only an `Error` instance can be a cancellation; a thrown value that is not an `Error` never is |
| `FetchMovies.ThrownBy` | src/hooks/useFetchMovies.ts:45-53 | nothing is thrown exactly when an ok response's records were read; a cancellation can only come from the request or from reading an ok response's body, never from the HTTP check |
| `FetchMovies.ErrorMessage` | src/hooks/useFetchMovies.ts:71-73 | an `Error` yields its own message; any other thrown value yields the fixed unknown-error text |
| `FetchMovies.Resolve` | src/hooks/useFetchMovies.ts:41-76 | a request loads data exactly when nothing was thrown, is silent exactly when a cancellation was thrown, fails with the catch block's message otherwise, and loaded movies always have genres |
| `FetchMovies.ResolveLoaded` | src/hooks/useFetchMovies.ts:53-64 | an ok response with records loads exactly the normalised records |
| `FetchMovies.ResolveHttpFailure` | src/hooks/useFetchMovies.ts:49-50 | a non-ok response fails with "Error HTTP: " followed by its status, whatever its body |
| `FetchMovies.ResolveHttpFailureNamesStatus` | src/hooks/useFetchMovies.ts:50 | two HTTP failures with the same message had the same status |
| `FetchMovies.ResolveErrorSurfacesMessage` | src/hooks/useFetchMovies.ts:45-74 | an `Error` other than a cancellation, thrown by the request or while reading an ok response's body, fails with that error's own message |
| `FetchMovies.ResolveNonError` | src/hooks/useFetchMovies.ts:71-73 | a thrown non-`Error` value fails with "Error desconocido al cargar las películas" |
| `FetchMovies.ResolveAbortIsSilent` | src/hooks/useFetchMovies.ts:67-68 | a cancellation, before the response or while reading the body, is never reported as an error |
| `FetchMovies.MoviesFetch.constructor` | src/hooks/useFetchMovies.ts:33-35 | the hook starts with no data, loading, and no error |
| `FetchMovies.MoviesFetch.Begin` | src/hooks/useFetchMovies.ts:42-43 | starting a request sets loading and clears the error, leaving the data untouched |
| `FetchMovies.MoviesFetch.Settle` | src/hooks/useFetchMovies.ts:45-76 | once settled, loading is false; data is replaced only by a load; the error is set only by a failure; a cancellation changes neither data nor error; all held movies have genres |
| `FetchMovies.MoviesFetch.FetchData` | src/hooks/useFetchMovies.ts:40-78 | a whole run ends with loading false, data replaced only on success, and the error set exactly on failure (cleared otherwise) |
| `Reviews.WellFormedIsTrimmed` | src/hooks/useReviews.ts:31-34 | a stored message, non-empty with no whitespace at either end, equals its own trim and is not blank |
| `Reviews.AddedReview` | src/hooks/useReviews.ts:26-37 | a blank message leaves the list unchanged; otherwise exactly one review of the given tag with the trimmed message is appended, and the old list is a prefix of the new one |
| `Reviews.AddedReviewWellFormed` | src/hooks/useReviews.ts:27-33 | adding keeps every stored message non-empty and trimmed |
| `Reviews.ReviewStore.constructor` | src/hooks/useReviews.ts:20 | the store starts empty |
| `Reviews.ReviewStore.AddPositiveReview` | src/hooks/useReviews.ts:26-37 | the new list is the old one with a positive review of the trimmed message appended, unless the message is blank |
| `Reviews.ReviewStore.AddNegativeReview` | src/hooks/useReviews.ts:43-54 | the new list is the old one with a negative review of the trimmed message appended, unless the message is blank |
| `Reviews.ReviewStore.ClearReviews` | src/hooks/useReviews.ts:59-61 | the list is empty afterwards, whatever it held |
| `Dashboard.HasIdIffMember` | src/components/MovieDashboard.tsx:38 | `some` on the favourites finds the id exactly when a movie with that id is in the list |
| `Dashboard.AddFavorite` | src/components/MovieDashboard.tsx:37-41 | the list is unchanged iff the id was present; otherwise the movie is appended at the end; the id is present afterwards; old entries are kept as a prefix; distinct ids stay distinct |
| `Dashboard.RemoveFavorite` | src/components/MovieDashboard.tsx:48 | no entry with the id is left, every entry with another id stays, and the list is unchanged when the id was absent |
| `Dashboard.AddFavoriteIdempotent` | src/components/MovieDashboard.tsx:37-41 | adding the same movie twice equals adding it once |
| `Dashboard.RemoveFavoriteAppend` | src/components/MovieDashboard.tsx:48 | removal filters each piece of a list independently, keeping order |
| `Dashboard.RemoveFavoriteOnly` | src/components/MovieDashboard.tsx:48 | when only one movie carries the id, removing it leaves the movies before and after it, in order |
| `Dashboard.RemoveFavoriteAt` | src/components/MovieDashboard.tsx:48 | with distinct ids, removing the id at index k drops exactly that entry and keeps the others in order |
| `Dashboard.RemoveFavoriteKeepsDistinct` | src/components/MovieDashboard.tsx:47-49 | removal keeps the ids pairwise distinct |
| `Dashboard.RemoveFavoriteUndoesAdd` | src/components/MovieDashboard.tsx:36-49 | removing a movie just added as new gives back the earlier list |
| `Dashboard.MovieDashboard.constructor` | src/components/MovieDashboard.tsx:15-17 | no reviews, an empty input box and no favourites at first |
| `Dashboard.MovieDashboard.SetReviewInput` | src/components/MovieDashboard.tsx:74 | the input box holds what was typed |
| `Dashboard.MovieDashboard.HandleAddReview` | src/components/MovieDashboard.tsx:22-31 | a blank input changes neither the reviews nor the input; otherwise the add of the matching tag receives the untrimmed input and the input is cleared |
| `Dashboard.MovieDashboard.HandleAddFavorite` | src/components/MovieDashboard.tsx:36-42 | favourites become the dedupe-by-id add of the movie, keeping ids distinct |
| `Dashboard.MovieDashboard.HandleRemoveFavorite` | src/components/MovieDashboard.tsx:47-49 | favourites become the filter-by-id removal, keeping ids distinct |

## Left out

- The `fetch` call, `AbortController`, `response.json()` and `useEffect` scheduling
  (src/hooks/useFetchMovies.ts:37-48, 53, 80-86): network I/O and the async runtime.
  The way a request ends is an input (`Outcome`); a cancellation is a thrown error
  named "AbortError".
- Interleavings between an old request and a newer one after the URL changes or the
  component unmounts (an aborted request's `finally` running after a new request
  began): concurrency. Each modelled run is `Begin` then `Settle` with nothing between.
- The unchecked cast of the response body to show records (src/hooks/useFetchMovies.ts:53):
  records are assumed well typed.
- `MovieType.FormatMovie`: ratings are integers here; non-integral averages such as 8.5
  and JavaScript's printing of fractional numbers are not modelled.
- `FetchMovies.NormalizeShow`: the average is an integer here, for the same reason.
- `Text.IntToString`: prints every integer as its plain decimal numeral. JavaScript numbers
  are doubles, so integers beyond 2^53 are not held exactly and those of magnitude 10^21 or
  more print in exponent form; neither is modelled. The printed values are HTTP status
  codes and 0-10 ratings, far inside both limits.
- Strings are sequences of Unicode scalar values rather than UTF-16 code units; no
  modelled property depends on the difference.
- `averageRating` in src/components/FavoriteMovies.tsx: floating-point division and
  `toFixed(2)` formatting.
- React state batching and re-rendering: each handler's updates are applied in order,
  at once.
- The presentational components (`MovieList`, `MovieCard`, `GenericList`, `Section`,
  `AlertBox`, `ReviewInput`, `ReviewsList`, `FavoriteMovies`, `App`): markup, event
  wiring and view selection with no logic beyond what is modelled.
