/**
 * `MovieDashboard`: the favourites list and the review input box, and the handlers
 * that update them.
 */
module Dashboard {
  import opened Text
  import opened MovieType
  import opened ReviewType
  import opened Reviews

  // ---------------------------------------------------------------------------
  // Favourites
  // ---------------------------------------------------------------------------

  /** `favs.some(fav => fav.id === id)`: some favourite carries that id. */
  predicate HasId(favs: seq<Movie>, id: int) {
    exists i :: 0 <= i < |favs| && favs[i].id == id
  }

  /** The favourites contain a movie with that id exactly when some index holds one. */
  lemma HasIdIffMember(favs: seq<Movie>, id: int)
    ensures HasId(favs, id) <==> exists m :: m in favs && m.id == id
  {
    if m :| m in favs && m.id == id {
      var i :| 0 <= i < |favs| && favs[i] == m;
    }
  }

  /** No two favourites share an id. */
  predicate DistinctIds(favs: seq<Movie>) {
    forall i, j :: 0 <= i < j < |favs| ==> favs[i].id != favs[j].id
  }

  /**
   * The favourites after adding `movie`: the list is kept as it is when a favourite
   * with that id is already present, and otherwise `movie` is appended at the end.
   * Either way a favourite with that id is present afterwards and ids stay distinct.
   */
  function AddFavorite(favs: seq<Movie>, movie: Movie): (r: seq<Movie>)
    ensures HasId(r, movie.id)
    ensures favs <= r && |r| <= |favs| + 1
    ensures r == favs <==> HasId(favs, movie.id)
    ensures r != favs ==> r[|favs|] == movie
    ensures DistinctIds(favs) ==> DistinctIds(r)
  {
    if HasId(favs, movie.id) then favs
    else
      assert (favs + [movie])[|favs|] == movie;
      favs + [movie]
  }

  /**
   * `favs.filter(fav => fav.id !== id)`: the favourites with another id, and only
   * those, so none with that id is left; the list is unchanged when the id was absent.
   */
  function RemoveFavorite(favs: seq<Movie>, id: int): (r: seq<Movie>)
    ensures |r| <= |favs|
    ensures !HasId(r, id)
    ensures forall m :: m in r <==> m in favs && m.id != id
    ensures !HasId(favs, id) ==> r == favs
  {
    if favs == [] then []
    else
      var rest := RemoveFavorite(favs[1..], id);
      assert !HasId(favs, id) ==> !HasId(favs[1..], id) by {
        if HasId(favs[1..], id) {
          var i :| 0 <= i < |favs[1..]| && favs[1..][i].id == id;
          assert favs[i + 1].id == id;
        }
      }
      if favs[0].id != id then [favs[0]] + rest else rest
  }

  /** Removing keeps the ids distinct. */
  lemma {:induction false} RemoveFavoriteKeepsDistinct(favs: seq<Movie>, id: int)
    requires DistinctIds(favs)
    ensures DistinctIds(RemoveFavorite(favs, id))
  {
    if favs != [] {
      var tail := favs[1..];
      var rest := RemoveFavorite(tail, id);
      RemoveFavoriteKeepsDistinct(tail, id);
      if favs[0].id != id {
        forall m | m in rest ensures m.id != favs[0].id {
          var i :| 0 <= i < |tail| && tail[i] == m;
          assert favs[i + 1] == m;
        }
        var r := [favs[0]] + rest;
        forall i, j | 0 <= i < j < |r| ensures r[i].id != r[j].id {
          if i > 0 {
            assert r[i] == rest[i - 1] && r[j] == rest[j - 1];
          } else {
            assert r[j] == rest[j - 1] && r[j] in rest;
          }
        }
      }
    }
  }

  /** Adding the same movie twice is the same as adding it once. */
  lemma AddFavoriteIdempotent(favs: seq<Movie>, movie: Movie)
    ensures AddFavorite(AddFavorite(favs, movie), movie) == AddFavorite(favs, movie)
  {
  }

  /** Filtering a list in two pieces gives the two filtered pieces one after the other. */
  lemma {:induction false} RemoveFavoriteAppend(a: seq<Movie>, b: seq<Movie>, id: int)
    ensures RemoveFavorite(a + b, id) == RemoveFavorite(a, id) + RemoveFavorite(b, id)
  {
    if a != [] {
      assert (a + b)[1..] == a[1..] + b;
      assert (a + b)[0] == a[0];
      RemoveFavoriteAppend(a[1..], b, id);
    } else {
      assert a + b == b;
    }
  }

  /** With distinct ids, the id at index `k` occurs neither before nor after `k`. */
  lemma DistinctIdsAt(favs: seq<Movie>, k: nat)
    requires DistinctIds(favs) && k < |favs|
    ensures !HasId(favs[..k], favs[k].id) && !HasId(favs[k + 1..], favs[k].id)
  {
    var before, after := favs[..k], favs[k + 1..];
    forall i | 0 <= i < |before| ensures before[i].id != favs[k].id {
      assert before[i] == favs[i];
    }
    forall i | 0 <= i < |after| ensures after[i].id != favs[k].id {
      assert after[i] == favs[k + 1 + i];
    }
  }

  /** Removing the id of the one entry that carries it leaves the entries around it. */
  lemma RemoveFavoriteOnly(before: seq<Movie>, movie: Movie, after: seq<Movie>)
    requires !HasId(before, movie.id) && !HasId(after, movie.id)
    ensures RemoveFavorite(before + [movie] + after, movie.id) == before + after
  {
    var id, left := movie.id, before + [movie];
    RemoveFavoriteAppend(left, after, id);
    RemoveFavoriteAppend(before, [movie], id);
    assert RemoveFavorite([movie], id) == [];
    assert RemoveFavorite(left, id) == before;
  }

  /**
   * On a list with distinct ids, removing the id of the favourite at index `k` removes
   * exactly that entry and keeps all the others in their order.
   */
  lemma RemoveFavoriteAt(favs: seq<Movie>, k: nat)
    requires DistinctIds(favs) && k < |favs|
    ensures RemoveFavorite(favs, favs[k].id) == favs[..k] + favs[k + 1..]
  {
    DistinctIdsAt(favs, k);
    assert favs == favs[..k] + [favs[k]] + favs[k + 1..];
    RemoveFavoriteOnly(favs[..k], favs[k], favs[k + 1..]);
  }

  /** Removing a movie that was just added as new gives back the list from before. */
  lemma RemoveFavoriteUndoesAdd(favs: seq<Movie>, movie: Movie)
    requires !HasId(favs, movie.id)
    ensures RemoveFavorite(AddFavorite(favs, movie), movie.id) == favs
  {
    RemoveFavoriteAppend(favs, [movie], movie.id);
    assert RemoveFavorite([movie], movie.id) == [];
  }

  // ---------------------------------------------------------------------------
  // The component's state
  // ---------------------------------------------------------------------------

  /** The dashboard's own state and the review store (the `useReviews` hook) it uses. */
  class MovieDashboard {
    const reviewStore: ReviewStore
    var reviewInput: string
    var favorites: seq<Movie>

    ghost predicate Valid()
      reads this, reviewStore
    {
      reviewStore.Valid() && DistinctIds(favorites)
    }

    /** The initial state: no reviews, an empty input box, no favourites. */
    constructor ()
      ensures Valid() && fresh(reviewStore)
      ensures reviewStore.reviews == [] && reviewInput == [] && favorites == []
    {
      reviewStore := new ReviewStore();
      reviewInput := [];
      favorites := [];
    }

    /** The input box's change handler. */
    method SetReviewInput(value: string)
      modifies this`reviewInput
      ensures reviewInput == value
    {
      reviewInput := value;
    }

    /**
     * `handleAddReview`: a blank input changes nothing; otherwise the input, untrimmed,
     * goes to the add operation of the given kind, and the input box is cleared.
     */
    method HandleAddReview(kind: ReviewKind)
      requires Valid()
      modifies this`reviewInput, reviewStore
      ensures Valid()
      ensures reviewStore.reviews == AddedReview(old(reviewStore.reviews), kind, old(reviewInput))
      ensures reviewInput == if Trim(old(reviewInput)) == [] then old(reviewInput) else []
    {
      if Trim(reviewInput) == [] {
        return;
      }
      if kind == PositiveKind {
        reviewStore.AddPositiveReview(reviewInput);
      } else {
        reviewStore.AddNegativeReview(reviewInput);
      }
      reviewInput := [];
    }

    /** `handleAddFavorite`: adds the movie unless a favourite with its id is already there. */
    method HandleAddFavorite(movie: Movie)
      requires Valid()
      modifies this`favorites
      ensures Valid()
      ensures favorites == AddFavorite(old(favorites), movie)
    {
      favorites := AddFavorite(favorites, movie);
    }

    /** `handleRemoveFavorite`: drops every favourite with the given id. */
    method HandleRemoveFavorite(id: int)
      requires Valid()
      modifies this`favorites
      ensures Valid()
      ensures favorites == RemoveFavorite(old(favorites), id)
    {
      RemoveFavoriteKeepsDistinct(favorites, id);
      favorites := RemoveFavorite(favorites, id);
    }
  }
}
