/** The review service over the movie collection (a map from movie id to
    document) and the user collection it joins against. Joining a review's user
    reference yields that user's summary (`_id`, `username`, `profilePictureUrl`)
    or nothing when no such user exists. */
module Reviews {
  import opened Wrappers
  import opened Errors
  import opened Users
  import opened MovieModel
  import Accounts

  type MovieId = string

  /** How many reviews the review listing returns at most. */
  const ReviewPageSize := 3

  datatype UserSummary = UserSummary(id: UserId, username: Option<string>, profilePictureUrl: Option<string>)

  /** A review whose user reference has been replaced by the joined summary. */
  datatype JoinedReview = JoinedReview(user: Option<UserSummary>, text: string)

  /** A movie as re-read with its reviewers joined. */
  datatype PopulatedMovie = PopulatedMovie(doc: Movie, reviews: seq<JoinedReview>)

  /** One entry of the review listing. */
  datatype ReviewEntry = ReviewEntry(review: string, user: Option<UserSummary>)

  /** What a call returns and what the movie collection holds afterwards. */
  datatype MovieStep = MovieStep(result: Result<PopulatedMovie, Error>, movies: map<MovieId, Movie>)

  /** The reviewer lookup: a reference to no stored user joins to nothing; otherwise
      the summary carries that user's id and exactly its `username` and
      `profilePictureUrl` fields (each absent when the document lacks it), and no
      other field of the document. */
  function Join(users: seq<Record>, ref: UserId): (r: Option<UserSummary>)
    ensures r.None? <==> ref >= |users|
    ensures r.Some? ==>
      && r.value.id == ref
      && (r.value.username.Some? <==> Username in users[ref])
      && (r.value.username.Some? ==> HasValue(users[ref], Username, r.value.username.value))
      && (r.value.profilePictureUrl.Some? <==> ProfilePictureUrl in users[ref])
      && (r.value.profilePictureUrl.Some? ==>
            HasValue(users[ref], ProfilePictureUrl, r.value.profilePictureUrl.value))
  {
    if ref < |users| then
      Some(UserSummary(ref, Field(users[ref], Username), Field(users[ref], ProfilePictureUrl)))
    else None
  }

  /** The join applied to every review, in stored order. */
  function JoinReviews(users: seq<Record>, reviews: seq<Review>): (r: seq<JoinedReview>)
    ensures |r| == |reviews|
    ensures forall i :: 0 <= i < |reviews| ==>
      r[i] == JoinedReview(Join(users, reviews[i].user), reviews[i].text)
  {
    if reviews == [] then []
    else [JoinedReview(Join(users, reviews[0].user), reviews[0].text)] + JoinReviews(users, reviews[1..])
  }

  /** A movie re-read with its reviewers joined: the document itself is unchanged,
      and there is one joined review per stored review, in stored order. */
  function Populate(users: seq<Record>, m: Movie): (p: PopulatedMovie)
    ensures p.doc == m
    ensures |p.reviews| == |m.reviews|
    ensures forall i :: 0 <= i < |m.reviews| ==>
      p.reviews[i].text == m.reviews[i].text && p.reviews[i].user == Join(users, m.reviews[i].user)
  {
    PopulatedMovie(m, JoinReviews(users, m.reviews))
  }

  /** addRatingAndReview: append the score and the review, save (which validates
      the whole document), then re-read with reviewers joined. Every failure,
      whether the movie is missing or the save is refused, is reported as
      MovieNotFound and leaves the collection as it was. */
  function AddRatingAndReview(users: seq<Record>, movies: map<MovieId, Movie>, movieId: MovieId,
                              rating: real, userId: UserId, review: string): (s: MovieStep)
    ensures movieId !in movies ==> s == MovieStep(Failure(MovieNotFound), movies)
    ensures s.result.Failure? ==> s.result.error == MovieNotFound && s.movies == movies
    ensures s.result.Success? ==>
      && movieId in movies
      && var m := movies[movieId];
      && var updated := s.result.value.doc;
      && updated == m.(ratings := m.ratings + [rating], reviews := m.reviews + [Review(userId, review)])
      && s.movies == movies[movieId := updated]
      && s.result.value.reviews == JoinReviews(users, updated.reviews)
    ensures movieId in movies ==>
      var m := movies[movieId];
      (s.result.Success? <==> Valid(m.(ratings := m.ratings + [rating], reviews := m.reviews + [Review(userId, review)])))
  {
    if movieId !in movies then MovieStep(Failure(MovieNotFound), movies)
    else
      var movie := movies[movieId];
      var movie := movie.(ratings := movie.ratings + [rating]);
      var movie := movie.(reviews := movie.reviews + [Review(userId, review)]);
      if !Valid(movie) then MovieStep(Failure(MovieNotFound), movies)
      else
        var saved := movies[movieId := movie];
        MovieStep(Success(Populate(users, saved[movieId])), saved)
  }

  /** getMovieReviewsWithUserDetails: the first three reviews in stored order,
      each as its text and its joined reviewer; nothing is changed. */
  function GetMovieReviewsWithUserDetails(users: seq<Record>, movies: map<MovieId, Movie>, movieId: MovieId)
    : (r: Result<seq<ReviewEntry>, Error>)
    ensures r.Failure? <==> movieId !in movies
    ensures r.Failure? ==> r.error == MovieNotFound
    ensures r.Success? ==>
      var reviews := movies[movieId].reviews;
      && |r.value| == (if |reviews| < 3 then |reviews| else 3)
      && forall i :: 0 <= i < |r.value| ==>
           r.value[i] == ReviewEntry(reviews[i].text, Join(users, reviews[i].user))
  {
    if movieId !in movies then Failure(MovieNotFound)
    else
      var joined := JoinReviews(users, movies[movieId].reviews);
      var page := if |joined| < ReviewPageSize then joined else joined[..ReviewPageSize];
      Success(seq(|page|, i requires 0 <= i < |page| => ReviewEntry(page[i].text, page[i].user)))
  }

  /** Adding a review keeps a collection of valid movies valid. */
  lemma AddRatingKeepsMoviesValid(users: seq<Record>, movies: map<MovieId, Movie>, movieId: MovieId,
                                  rating: real, userId: UserId, review: string)
    requires AllValid(movies)
    ensures AllValid(AddRatingAndReview(users, movies, movieId, rating, userId, review).movies)
  {
    var s := AddRatingAndReview(users, movies, movieId, rating, userId, review);
    if s.result.Success? {
      forall id | id in s.movies
        ensures Valid(s.movies[id])
      {
        if id != movieId {
          assert s.movies[id] == movies[id];
        }
      }
    }
  }

  /** On a valid movie, adding a review succeeds exactly when the score lies in
      [0, 10]; an out-of-range score is refused and nothing changes. */
  lemma AddRatingOnValidMovie(users: seq<Record>, movies: map<MovieId, Movie>, movieId: MovieId,
                              rating: real, userId: UserId, review: string)
    requires movieId in movies && Valid(movies[movieId])
    ensures var s := AddRatingAndReview(users, movies, movieId, rating, userId, review);
      && (s.result.Success? <==> 0.0 <= rating <= 10.0)
      && (s.result.Failure? ==> s.result.error == MovieNotFound && s.movies == movies)
  {
    AppendScoreValid(movies[movieId], rating, Review(userId, review));
  }

  /** The listing after a successful addition: the first entries are unchanged and
      the new review appears, joined, only if fewer than three were stored before. */
  lemma AddThenListReviews(users: seq<Record>, movies: map<MovieId, Movie>, movieId: MovieId,
                           rating: real, userId: UserId, review: string)
    requires AddRatingAndReview(users, movies, movieId, rating, userId, review).result.Success?
    ensures
      var s := AddRatingAndReview(users, movies, movieId, rating, userId, review);
      var before := GetMovieReviewsWithUserDetails(users, movies, movieId).value;
      var after := GetMovieReviewsWithUserDetails(users, s.movies, movieId).value;
      after == before + (if |before| < 3 then [ReviewEntry(review, Join(users, userId))] else [])
  {
    var s := AddRatingAndReview(users, movies, movieId, rating, userId, review);
    var old_reviews := movies[movieId].reviews;
    var new_reviews := s.movies[movieId].reviews;
    assert new_reviews == old_reviews + [Review(userId, review)];
    var before := GetMovieReviewsWithUserDetails(users, movies, movieId).value;
    var after := GetMovieReviewsWithUserDetails(users, s.movies, movieId).value;
    var expected := before + (if |before| < 3 then [ReviewEntry(review, Join(users, userId))] else []);
    assert |after| == |expected|;
    forall i | 0 <= i < |after|
      ensures after[i] == expected[i]
    {
      if i < |old_reviews| {
        assert new_reviews[i] == old_reviews[i];
      } else {
        assert new_reviews[i] == Review(userId, review);
      }
    }
  }

  /** A new profile picture shows in the reviewer summary of every review by that user. */
  lemma ProfilePictureShownInReviews(users: seq<Record>, email: string, url: string)
    requires Accounts.UpdateProfilePicture(users, email, url).result.Success?
    ensures var s := Accounts.UpdateProfilePicture(users, email, url);
      var id := s.result.value.id;
      Join(s.users, id) == Some(UserSummary(id, Field(users[id], Username), Some(url)))
  {
  }
}
