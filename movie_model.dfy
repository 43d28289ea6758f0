/** The movie schema: field types, the required fields, the genre enumeration,
    the 0..10 bounds on `rating` and on every entry of `ratings`, and the
    defaults for `country` and `rating`. A document that breaks a constraint
    cannot be saved. Numbers are JavaScript numbers; scores are modelled as
    reals and the release year as an integer. */
module MovieModel {
  import opened Wrappers
  import opened Users

  const Genres: seq<string> :=
    ["Action", "Drama", "Comedy", "Thriller", "Fantasy", "Romance", "Sports", "Musical"]
  const DefaultCountry := "India"
  const DefaultRating: real := 0.0
  const MinScore: real := 0.0
  const MaxScore: real := 10.0

  /** An embedded review: a reference to a user and the review text. */
  datatype Review = Review(user: UserId, text: string)

  /** A stored movie document, defaults already applied. */
  datatype Movie = Movie(
    title: Option<string>,
    releaseYear: Option<int>,
    genre: seq<string>,
    director: Option<string>,
    actors: seq<string>,
    language: Option<string>,
    country: string,
    rating: real,
    plot: Option<string>,
    awards: Option<string>,
    posterUrl: Option<string>,
    trailerUrl: Option<string>,
    ratings: seq<real>,
    reviews: seq<Review>)

  /** The fields a new movie is given; `None` and an empty array mean "not supplied". */
  datatype Draft = Draft(
    title: Option<string>,
    releaseYear: Option<int>,
    genre: seq<string>,
    director: Option<string>,
    actors: seq<string>,
    language: Option<string>,
    country: Option<string>,
    rating: Option<real>,
    plot: Option<string>,
    awards: Option<string>,
    posterUrl: Option<string>,
    trailerUrl: Option<string>,
    ratings: seq<real>,
    reviews: seq<Review>)

  predicate InScale(x: real)
  {
    MinScore <= x <= MaxScore
  }

  predicate IsGenre(g: string)
  {
    g in Genres
  }

  /** A required string is present and, as the document mapper treats required
      strings, not empty. */
  predicate Present(s: Option<string>)
  {
    s.Some? && s.value != ""
  }

  predicate AllInScale(xs: seq<real>)
  {
    forall i :: 0 <= i < |xs| ==> InScale(xs[i])
  }

  predicate AllGenres(gs: seq<string>)
  {
    forall i :: 0 <= i < |gs| ==> IsGenre(gs[i])
  }

  /** The schema's validation: required fields, genre enumeration, score bounds. */
  predicate Valid(m: Movie)
    ensures Valid(m) <==>
      && m.title.Some? && m.title.value != ""
      && m.releaseYear.Some?
      && m.director.Some? && m.director.value != ""
      && m.language.Some? && m.language.value != ""
      && (forall g :: g in m.genre ==> g in Genres)
      && 0.0 <= m.rating <= 10.0
      && (forall x :: x in m.ratings ==> 0.0 <= x <= 10.0)
  {
    assert AllGenres(m.genre) <==> forall g :: g in m.genre ==> IsGenre(g);
    assert AllInScale(m.ratings) <==> forall x :: x in m.ratings ==> InScale(x);
    && Present(m.title)
    && m.releaseYear.Some?
    && Present(m.director)
    && Present(m.language)
    && AllGenres(m.genre)
    && InScale(m.rating)
    && AllInScale(m.ratings)
  }

  /** Every movie of a collection passes validation. */
  ghost predicate AllValid<K>(movies: map<K, Movie>)
  {
    forall id :: id in movies ==> Valid(movies[id])
  }

  /** `new Movie(draft)`: supplied values are kept; `country` defaults to "India"
      and `rating` to 0. */
  function NewMovie(d: Draft): (m: Movie)
    ensures d.country.None? ==> m.country == "India"
    ensures d.rating.None? ==> m.rating == 0.0
    ensures d.country.Some? ==> m.country == d.country.value
    ensures d.rating.Some? ==> m.rating == d.rating.value
    ensures m.title == d.title && m.releaseYear == d.releaseYear && m.director == d.director
    ensures m.language == d.language && m.genre == d.genre && m.actors == d.actors
    ensures m.ratings == d.ratings && m.reviews == d.reviews
    ensures m.plot == d.plot && m.awards == d.awards
    ensures m.posterUrl == d.posterUrl && m.trailerUrl == d.trailerUrl
  {
    Movie(
      d.title, d.releaseYear, d.genre, d.director, d.actors, d.language,
      match d.country case Some(c) => c case None => DefaultCountry,
      match d.rating case Some(r) => r case None => DefaultRating,
      d.plot, d.awards, d.posterUrl, d.trailerUrl, d.ratings, d.reviews)
  }

  /** A new movie is valid exactly when the draft supplies the required fields,
      only enumerated genres and in-range scores; the defaults never break a
      constraint. */
  lemma NewMovieValid(d: Draft)
    ensures Valid(NewMovie(d)) <==>
      && Present(d.title)
      && d.releaseYear.Some?
      && Present(d.director)
      && Present(d.language)
      && (forall i :: 0 <= i < |d.genre| ==> d.genre[i] in Genres)
      && (d.rating.None? || 0.0 <= d.rating.value <= 10.0)
      && (forall i :: 0 <= i < |d.ratings| ==> 0.0 <= d.ratings[i] <= 10.0)
  {
  }

  /** Appending a score to a valid movie keeps it valid exactly when the score is in range. */
  lemma AppendScoreValid(m: Movie, x: real, review: Review)
    requires Valid(m)
    ensures Valid(m.(ratings := m.ratings + [x], reviews := m.reviews + [review])) <==> 0.0 <= x <= 10.0
  {
    var m' := m.(ratings := m.ratings + [x], reviews := m.reviews + [review]);
    assert m'.ratings[|m.ratings|] == x;
    assert forall i :: 0 <= i < |m.ratings| ==> m'.ratings[i] == m.ratings[i];
  }
}
