/** The service functions as they run: each fetches a document from the store,
    changes it in place and saves it back. `Store` holds both collections; each
    method is proved to do exactly what the matching function of Accounts or
    Reviews describes, and to leave the other collection alone. */
module Backend {
  import opened Wrappers
  import opened Errors
  import opened Users
  import opened MovieModel
  import A = Accounts
  import R = Reviews

  class Store {
    var users: seq<Record>
    var movies: map<R.MovieId, Movie>

    /** Every stored movie passes schema validation. */
    ghost predicate MoviesValid()
      reads this
    {
      AllValid(movies)
    }

    /** Movies have no creation endpoint: the store starts from whatever it holds. */
    constructor (users: seq<Record>, movies: map<R.MovieId, Movie>)
      ensures this.users == users && this.movies == movies
    {
      this.users := users;
      this.movies := movies;
    }

    method Signup(userData: Record) returns (r: Result<Account, Error>)
      requires Username in userData && Email in userData
      modifies this
      ensures A.Step(r, users) == A.Signup(old(users), userData)
      ensures movies == old(movies)
    {
      var foundUsername := FindOne(users, Username, userData[Username]);
      var foundEmail := FindOne(users, Email, userData[Email]);
      if foundUsername.Some? && foundEmail.Some? {
        return Failure(UserAlreadyRegistered);
      } else if foundUsername.Some? {
        return Failure(UsernameTaken);
      }
      var id := |users|;
      users := users + [userData];
      r := Success(Account(id, users[id]));
    }

    method ChangePassword(email: string, currentPassword: string, newPassword: string)
      returns (r: Result<Account, Error>)
      modifies this
      ensures A.Step(r, users) == A.ChangePassword(old(users), email, currentPassword, newPassword)
      ensures movies == old(movies)
    {
      var found := FindOne(users, Email, email);
      if found.None? {
        return Failure(UserNotFound);
      }
      var j := found.value;
      var user := users[j];
      if HasValue(user, Password, currentPassword) {
        user := user[Password := newPassword];
        users := users[j := user];
        r := Success(Account(j, user));
      } else {
        r := Failure(IncorrectPassword);
      }
    }

    method UpdateProfilePicture(email: string, newProfilePictureUrl: string)
      returns (r: Result<Account, Error>)
      modifies this
      ensures A.Step(r, users) == A.UpdateProfilePicture(old(users), email, newProfilePictureUrl)
      ensures movies == old(movies)
    {
      var found := FindOne(users, Email, email);
      if found.None? {
        // the assignment to a field of a missing user throws before any save
        return Failure(NullUser);
      }
      var j := found.value;
      var user := users[j];
      user := user[ProfilePictureUrl := newProfilePictureUrl];
      users := users[j := user];
      r := Success(Account(j, user));
    }

    method UpdateContactDetails(email: string, updatedContactDetails: Record)
      returns (r: Result<Account, Error>)
      modifies this
      ensures A.Step(r, users) == A.UpdateContactDetails(old(users), email, updatedContactDetails)
      ensures movies == old(movies)
    {
      var found := FindOne(users, Email, email);
      if found.None? {
        return Failure(EmailNotFound);
      }
      var j := found.value;
      var user := users[j];
      user := user + updatedContactDetails;
      users := users[j := user];
      r := Success(Account(j, user));
    }

    method AddRatingAndReview(movieId: R.MovieId, rating: real, userId: UserId, review: string)
      returns (r: Result<R.PopulatedMovie, Error>)
      modifies this
      ensures R.MovieStep(r, movies) == R.AddRatingAndReview(users, old(movies), movieId, rating, userId, review)
      ensures users == old(users)
      ensures old(MoviesValid()) ==> MoviesValid()
    {
      if MoviesValid() {
        R.AddRatingKeepsMoviesValid(users, movies, movieId, rating, userId, review);
      }
      if movieId !in movies {
        // pushing onto a missing movie throws; the error is replaced
        return Failure(MovieNotFound);
      }
      var movie := movies[movieId];
      movie := movie.(ratings := movie.ratings + [rating]);
      movie := movie.(reviews := movie.reviews + [Review(userId, review)]);
      if !MovieModel.Valid(movie) {
        // the save is refused by validation; the error is replaced
        return Failure(MovieNotFound);
      }
      movies := movies[movieId := movie];
      r := Success(R.Populate(users, movies[movieId]));
    }
  }
}
