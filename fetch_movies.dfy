/**
 * `useFetchMovies`: one request to the catalogue, the normalisation of its records
 * into `Movie` values, and the `(data, loading, error)` state the request drives.
 * The request itself is not performed here: how it ended is given as an `Outcome`.
 */
module FetchMovies {
  import opened Wrappers
  import opened Text
  import opened MovieType

  // ---------------------------------------------------------------------------
  // Catalogue records and their normalisation
  // ---------------------------------------------------------------------------

  /** A record as the catalogue sends it; `average` is `null` when the show has no rating. */
  datatype Show = Show(id: int, name: string, genres: seq<string>, average: Option<int>, status: string)

  /** The genre list given to a show that has none. */
  const NoGenre: string := "Sin g\U{00E9}nero"

  /** The two statuses under which a show counts as available. */
  predicate IsAvailableStatus(status: string) {
    status == "Running" || status == "Ended"
  }

  /**
   * The per-record transform: `id` and the name pass through, an empty genre list
   * becomes the placeholder list, a missing average becomes 0 (a present one is
   * kept as it is, out-of-range values included), and the show is available
   * exactly under the statuses "Running" and "Ended".
   */
  function NormalizeShow(show: Show): (m: Movie)
    ensures m.id == show.id && m.title == show.name
    ensures m.genres != []
    ensures show.genres != [] ==> m.genres == show.genres
    ensures show.genres == [] ==> m.genres == [NoGenre]
    ensures show.average.Some? ==> m.rating == show.average.value
    ensures show.average.None? ==> m.rating == 0
    ensures m.available <==> IsAvailableStatus(show.status)
  {
    Movie(
      show.id,
      show.name,
      if |show.genres| > 0 then show.genres else [NoGenre],
      show.average.GetOr(0),
      IsAvailableStatus(show.status))
  }

  /** `shows.map(...)`: one movie per record, in record order. */
  function NormalizeShows(shows: seq<Show>): (ms: seq<Movie>)
    ensures |ms| == |shows|
    ensures forall i :: 0 <= i < |shows| ==> ms[i] == NormalizeShow(shows[i])
  {
    if shows == [] then [] else [NormalizeShow(shows[0])] + NormalizeShows(shows[1..])
  }

  /** A movie with at least one genre, as every movie the normaliser produces is. */
  predicate HasGenres(m: Movie) {
    m.genres != []
  }

  predicate AllHaveGenres(ms: seq<Movie>) {
    forall i :: 0 <= i < |ms| ==> HasGenres(ms[i])
  }

  /** Normalising a catalogue in two pieces gives the two results one after the other. */
  lemma {:induction false} NormalizeShowsAppend(a: seq<Show>, b: seq<Show>)
    ensures NormalizeShows(a + b) == NormalizeShows(a) + NormalizeShows(b)
  {
    var l := NormalizeShows(a + b);
    var r := NormalizeShows(a) + NormalizeShows(b);
    assert |l| == |r|;
    forall i | 0 <= i < |l| ensures l[i] == r[i] {
      if i < |a| {
        assert (a + b)[i] == a[i];
      } else {
        assert (a + b)[i] == b[i - |a|];
      }
    }
  }

  // ---------------------------------------------------------------------------
  // How a request ends
  // ---------------------------------------------------------------------------

  /**
   * A thrown value: an `Error` instance with its `name` and `message`, or any other
   * value, which carries no message.
   */
  datatype Thrown = ErrorObject(name: string, message: string) | NonError

  /** What reading the response body gave: the records, or a thrown value. */
  datatype Body = Parsed(shows: seq<Show>) | BodyFailed(thrown: Thrown)

  /** How the request ended: a response with its status and body, or a throw before any response. */
  datatype Outcome = Responded(status: int, body: Body) | RequestFailed(thrown: Thrown)

  const AbortErrorName: string := "AbortError"
  const HttpErrorPrefix: string := "Error HTTP: "
  const UnknownError: string := "Error desconocido al cargar las pel\U{00ED}culas"

  /** `response.ok`: a status in the range 200-299. */
  predicate IsOk(status: int) {
    200 <= status <= 299
  }

  /** The error the hook throws itself for a response that is not ok. */
  function HttpError(status: int): (t: Thrown)
    ensures t.ErrorObject? && t.name != AbortErrorName
    ensures |HttpErrorPrefix| < |t.message| && t.message[..|HttpErrorPrefix|] == HttpErrorPrefix
  {
    ErrorObject("Error", HttpErrorPrefix + IntToString(status))
  }

  /**
   * Whether a thrown value is the cancellation of the request: an `Error` instance
   * named "AbortError"; a thrown value that is not an `Error` never is.
   */
  predicate IsAbort(t: Thrown)
    ensures IsAbort(t) ==> t.ErrorObject?
  {
    t.ErrorObject? && t.name == AbortErrorName
  }

  /** The text the `catch` block stores: an error's own message, or a fixed text for other values. */
  function ErrorMessage(t: Thrown): (msg: string)
    ensures t.ErrorObject? ==> msg == t.message
    ensures t.NonError? ==> msg == UnknownError
  {
    if t.ErrorObject? then t.message else UnknownError
  }

  /**
   * The value the `try` block throws, if any, for a given outcome. Nothing is thrown
   * exactly when an ok response's records were read; the hook's own HTTP error is
   * never a cancellation, so a cancellation comes from the request or the body read.
   */
  function ThrownBy(o: Outcome): (t: Option<Thrown>)
    ensures t.None? <==> o.Responded? && IsOk(o.status) && o.body.Parsed?
    ensures t.Some? && IsAbort(t.value) ==> o.RequestFailed? || (IsOk(o.status) && o.body.BodyFailed?)
  {
    match o
    case RequestFailed(t) => Some(t)
    case Responded(status, body) =>
      if !IsOk(status) then Some(HttpError(status))
      else if body.BodyFailed? then Some(body.thrown)
      else None
  }

  /** What a settled request does to the hook's state. */
  datatype Completion = Loaded(movies: seq<Movie>) | Failed(message: string) | Aborted

  /**
   * How a request settles: with the normalised records when nothing was thrown,
   * silently when the throw was a cancellation, and with the catch block's message
   * otherwise.
   */
  function Resolve(o: Outcome): (c: Completion)
    ensures c.Loaded? <==> ThrownBy(o).None?
    ensures c.Aborted? <==> ThrownBy(o).Some? && IsAbort(ThrownBy(o).value)
    ensures c.Failed? ==> c.message == ErrorMessage(ThrownBy(o).value)
    ensures c.Loaded? ==> AllHaveGenres(c.movies)
  {
    match ThrownBy(o)
    case None => Loaded(NormalizeShows(o.body.shows))
    case Some(t) => if IsAbort(t) then Aborted else Failed(ErrorMessage(t))
  }

  /** An ok response with readable records loads exactly those records, normalised. */
  lemma ResolveLoaded(status: int, shows: seq<Show>)
    requires IsOk(status)
    ensures Resolve(Responded(status, Parsed(shows))) == Loaded(NormalizeShows(shows))
  {
  }

  /** A response that is not ok fails with "Error HTTP: " followed by its status, whatever its body. */
  lemma ResolveHttpFailure(status: int, body: Body)
    requires !IsOk(status)
    ensures Resolve(Responded(status, body)) == Failed(HttpErrorPrefix + IntToString(status))
  {
  }

  /** The HTTP failure message names the status: two failures with the same message had the same status. */
  lemma ResolveHttpFailureNamesStatus(s1: int, b1: Body, s2: int, b2: Body)
    requires !IsOk(s1) && !IsOk(s2)
    requires Resolve(Responded(s1, b1)) == Resolve(Responded(s2, b2))
    ensures s1 == s2
  {
    var m1 := HttpErrorPrefix + IntToString(s1);
    var m2 := HttpErrorPrefix + IntToString(s2);
    assert m1 == m2;
    assert IntToString(s1) == m1[|HttpErrorPrefix|..];
    assert IntToString(s2) == m2[|HttpErrorPrefix|..];
    IntToStringInjective(s1, s2);
  }

  /**
   * An `Error` other than a cancellation, thrown by the request or while reading an ok
   * response's body, fails with that error's own message.
   */
  lemma ResolveErrorSurfacesMessage(o: Outcome, name: string, message: string)
    requires name != AbortErrorName
    requires o == RequestFailed(ErrorObject(name, message))
          || (o.Responded? && IsOk(o.status) && o.body == BodyFailed(ErrorObject(name, message)))
    ensures Resolve(o) == Failed(message)
  {
  }

  /** A value thrown that is not an `Error` fails with the fixed unknown-error text. */
  lemma ResolveNonError(o: Outcome)
    requires ThrownBy(o) == Some(NonError)
    ensures Resolve(o) == Failed(UnknownError)
  {
  }

  /** A cancellation is never reported as an error, wherever it happened. */
  lemma ResolveAbortIsSilent(o: Outcome, message: string)
    requires o == RequestFailed(ErrorObject(AbortErrorName, message))
          || (o.Responded? && IsOk(o.status) && o.body == BodyFailed(ErrorObject(AbortErrorName, message)))
    ensures Resolve(o) == Aborted
  {
  }

  // ---------------------------------------------------------------------------
  // The hook's state
  // ---------------------------------------------------------------------------

  /** The three pieces of state the hook returns: `data`, `loading` and `error`. */
  class MoviesFetch {
    var data: seq<Movie>
    var loading: bool
    var error: Option<string>

    /** Every movie held has at least one genre. */
    ghost predicate Valid()
      reads this
    {
      AllHaveGenres(data)
    }

    /** The initial state: no data, loading, no error. */
    constructor ()
      ensures Valid()
      ensures data == [] && loading && error == None
    {
      data := [];
      loading := true;
      error := None;
    }

    /** The start of `fetchData`, before the request is awaited. */
    method Begin()
      requires Valid()
      modifies this
      ensures Valid()
      ensures loading && error == None && data == old(data)
    {
      loading := true;
      error := None;
    }

    /**
     * The rest of `fetchData`, once the request has settled: the `try` block,
     * the `catch` block and the `finally` block, in that order.
     */
    method Settle(outcome: Outcome)
      requires Valid()
      modifies this
      ensures Valid()
      ensures !loading
      ensures data == if Resolve(outcome).Loaded? then Resolve(outcome).movies else old(data)
      ensures error == if Resolve(outcome).Failed? then Some(Resolve(outcome).message) else old(error)
    {
      // try
      var thrown: Option<Thrown> := None;
      match outcome {
        case RequestFailed(t) =>
          thrown := Some(t);
        case Responded(status, body) =>
          if !IsOk(status) {
            thrown := Some(HttpError(status));
          } else {
            match body {
              case BodyFailed(t) =>
                thrown := Some(t);
              case Parsed(shows) =>
                data := NormalizeShows(shows);
            }
          }
      }
      // catch
      if thrown.Some? {
        if !IsAbort(thrown.value) {
          error := Some(ErrorMessage(thrown.value));
        }
      }
      // finally
      loading := false;
    }

    /**
     * One whole `fetchData` run. Whatever the outcome, loading ends false; the data
     * is replaced only by a successful load; the error is set only by a failure, and
     * a cancellation leaves it cleared.
     */
    method FetchData(outcome: Outcome)
      requires Valid()
      modifies this
      ensures Valid()
      ensures !loading
      ensures data == if Resolve(outcome).Loaded? then Resolve(outcome).movies else old(data)
      ensures error == if Resolve(outcome).Failed? then Some(Resolve(outcome).message) else None
    {
      Begin();
      Settle(outcome);
    }
  }
}
