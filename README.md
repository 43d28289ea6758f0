# Movie-review backend: account and review services over an in-memory store

This project models the service layer of a small movie-review backend. The
backend is an Express application over a MongoDB document store. The model has
no HTTP and no database. The two collections are plain values:

- **Users** are an ordered sequence of documents. Each document maps field names
  to strings. `findOne({ field: value })` is "the first document, in stored order,
  whose field holds exactly that value" (`Users.FindOne`). The store enforces no
  uniqueness.
- A user's **identifier** is its position in the sequence. Users are only ever
  appended, never removed, so a position names one user for good. This stands in
  for the store-generated ObjectId.
- **Movies** are a map from movie id to a movie document (`MovieModel.Movie`).
  Each document embeds its `ratings` and its `reviews`.

Each service call is described by a pure function in `Accounts` or `Reviews`.
The function gives the call's result (success or a typed error) and the
collection after the call. The class `Backend.Store` holds both collections. Its
methods do what the source does: fetch a document, change it in place and save
it. Each method is proved equal to its function and leaves the other collection
unchanged. The lemmas then state what the source promises across calls. For
example:

- after a password change the new password logs in;
- an email-only collision lets signup through, but the older account keeps
  answering logins;
- adding a review to a valid movie succeeds exactly when the score is in [0, 10];
- adding a review keeps every stored movie valid.

`MovieModel` holds the movie schema:

- the required fields;
- the genre enumeration;
- the [0, 10] bounds on `rating` and on each entry of `ratings`;
- the defaults "India" for `country` and 0 for `rating`.

A movie is saved only if the whole document passes this validation
(`MovieModel.Valid`).

Failures are the `Errors.Error` kinds. Each kind carries the message the client
receives: the services' own literal strings, and for `NullUser` the runtime's
TypeError text as Node.js 16 and later word it (older runtimes word it
differently). Failures within one kind share one message: a missing movie and a
save refused by validation both read "Movie Not Found", and login and
changePassword report their two failures with the same two messages.

## Model

| member | source | states |
|---|---|---|
| `Users.FindOne` | index.js:39-40 | finds nothing exactly when no document holds the value in that field; otherwise returns the first such document in stored order |
| `Errors.MessageDistinguishes` | index.js:37-268 | the eight error kinds carry pairwise distinct messages, so a client can tell the kinds apart; failures within one kind (a missing movie or a refused save; login or changePassword) cannot be told apart |
| `Accounts.Signup` | index.js:37-53 | fails iff the username is already taken, and then nothing is stored. The message is "User already registered" if the email is also taken, else "Username already taken". Otherwise the collection grows by exactly `userData`, stored verbatim at the end, even when its email is already in use |
| `Accounts.Login` | index.js:70-84 | an unknown email fails with "User Not Found or Incorrect Email Entered". Otherwise the first user with that email decides: an exactly equal password returns that user, anything else fails with "Incorrect Password". Success holds iff such a user has that password |
| `Accounts.ChangePassword` | index.js:101-117 | fails exactly as login with the current password fails, and then nothing changes. On success only the `password` field of the first user with that email becomes the new password; all other fields and users stay the same |
| `Accounts.UpdateProfilePicture` | index.js:134-144 | with no user for the email the call fails (runtime error on the unguarded assignment) and nothing is saved; otherwise only `profilePictureUrl` of the first user with that email changes |
| `Accounts.UpdateContactDetails` | index.js:162-174 | unknown email fails with "Email Not Found" and saves nothing. Otherwise every patched field takes the patch's value and every other field keeps its value; the field set is the union of both; other users are unchanged |
| `Accounts.FindUserByPhoneNumber` | index.js:191-199 | returns the first user whose `phoneNumber` is exactly the given one; fails with "Phone number not associated with any user" iff there is none |
| `Accounts.ChangePasswordThenLogin` | index.js:101-117 | after a successful change, login with the new password returns the updated user, and login with the old password fails with "Incorrect Password" when the two differ |
| `Accounts.SignupThenLogin` | index.js:37-53 | an account created with an unused username and an unused email logs in with its own password |
| `Accounts.SignupSharedEmailShadowed` | index.js:39-49 | a signup reusing an existing email succeeds, yet every login with that email answers exactly as before the signup, because the older document still comes first |
| `Accounts.UpdateContactThenFindByPhone` | index.js:162-174 | after a contact update whose patch sets `phoneNumber`, the lookup by that phone number succeeds |
| `MovieModel.NewMovie` | models/movie.model.js:3-67 | `country` is "India" and `rating` is 0 when not supplied; every supplied value is kept as given |
| `MovieModel.Valid` | models/movie.model.js:4-55 | a movie passes validation iff `title`, `director` and `language` are present and non-empty, `releaseYear` is present, every genre is one of the eight enumerated, `rating` is in [0, 10] and every entry of `ratings` is in [0, 10] |
| `MovieModel.NewMovieValid` | models/movie.model.js:4-55 | a new movie passes validation iff `title`, `director` and `language` are non-empty, `releaseYear` is present, every genre is one of the eight enumerated, and every supplied score is in [0, 10]; the defaults never break a constraint |
| `MovieModel.AppendScoreValid` | models/movie.model.js:49-55 | appending a score and a review to a valid movie keeps it valid exactly when the score lies in [0, 10] |
| `Reviews.Join` | index.js:251-257 | a user reference to no stored user joins to nothing; otherwise to that user's id with exactly its `username` and `profilePictureUrl`, each absent when the document lacks it, and no other field |
| `Reviews.Populate` | index.js:227 | the re-read movie keeps its document unchanged and has one joined review per stored review, in stored order, each with the review's text and the joined reviewer |
| `Reviews.JoinReviews` | index.js:227 | joins every review, in stored order, to its reviewer's `{_id, username, profilePictureUrl}`, or to nothing when no such user exists |
| `Reviews.AddRatingAndReview` | index.js:217-232 | on success the movie's `ratings` are the old ratings plus `[rating]` and its `reviews` are the old reviews plus `{user: userId, text: review}`; nothing else in it and no other movie changes; the result is the saved movie with reviewers joined. Success holds iff the movie exists and the updated document passes validation; every failure is "Movie Not Found" with the collection unchanged |
| `Reviews.GetMovieReviewsWithUserDetails` | index.js:249-268 | fails with "Movie Not Found" iff the id is unknown; otherwise returns exactly min(3, number of reviews) entries, entry i being review i's text and its joined reviewer, in stored order |
| `Reviews.AddRatingKeepsMoviesValid` | models/movie.model.js:49-55 | if every stored movie is valid before an addition, every stored movie is valid after it |
| `Reviews.AddRatingOnValidMovie` | index.js:217-231 | on an existing valid movie, an addition succeeds iff the score is in [0, 10]; an out-of-range score is reported as "Movie Not Found" and changes nothing |
| `Reviews.AddThenListReviews` | index.js:217-268 | after a successful addition, the review listing keeps its earlier entries. It gains the new review, joined, only if fewer than three reviews were stored before |
| `Reviews.ProfilePictureShownInReviews` | index.js:134-144 | after a successful profile-picture update, the reviewer summary joined for that user carries the new picture URL and the unchanged username |
| `Backend.Store.Signup` | index.js:37-53 | fetch, check and save as in `Accounts.Signup`; the result and the new user collection are exactly that function's; movies unchanged |
| `Backend.Store.ChangePassword` | index.js:101-117 | sets the found user's `password` and saves; result and new user collection are exactly `Accounts.ChangePassword`'s; movies unchanged |
| `Backend.Store.UpdateProfilePicture` | index.js:134-144 | sets the found user's `profilePictureUrl` and saves; result and new user collection are exactly `Accounts.UpdateProfilePicture`'s; movies unchanged |
| `Backend.Store.UpdateContactDetails` | index.js:162-174 | merges the patch into the found user and saves; result and new user collection are exactly `Accounts.UpdateContactDetails`'s; movies unchanged |
| `Backend.Store.AddRatingAndReview` | index.js:217-232 | pushes the score and the review, saves if valid and re-reads joined. Result and new movie collection are exactly `Reviews.AddRatingAndReview`'s. Users are unchanged, and a store whose movies are all valid stays so |

## Left out

- HTTP routing, the response bodies and the uniform status 500 on errors (index.js:12-35 and every route handler): transport plumbing around the service functions.
- Server start-up, `PORT`, the database connection and the loaded but unused JWT secret (index.js:1-19): process I/O and environment.
- Store-generated ObjectIds and the `createdAt`/`updatedAt` timestamps (models/movie.model.js:66): a user's identifier is its position instead, and time is not modelled.
- The user schema (`models/user.model`) is not part of this model. User documents therefore have no schema-level validation, defaults or field filtering, and every user save succeeds.
- Type casting by the document mapper is not modelled: the model gets no non-numeric score and no malformed user or movie id. Such input would also end in "Movie Not Found" in addRatingAndReview.
- Reviews.Join: because a user's identifier is its position, a review whose `userId` names no user yet (addRatingAndReview does not check it) joins to a user created later at that position. In the source a newly generated ObjectId never equals an earlier dangling reference, so that reviewer stays null.
- Reviews.AddRatingAndReview: `reviewData.rating` and `reviewData.review` are pushed unchecked in the source; the model's score is a real and its text a string, so a missing score or text is not modelled.
- Request values are strings. An absent (`undefined`) email, password or phone number, and the filter an undefined value produces, are not modelled.
- Accounts.Signup: requires `userData` to carry `username` and `email`. Without one of them the source queries with an undefined filter value, whose matching is a quirk of the mapper.
- The time between the save and the re-read in addRatingAndReview is not modelled. The model is sequential, so the re-read sees exactly the saved movie; concurrent requests are out of scope.
- The mechanics of `populate` are not modelled. The join is a lookup by identifier in the user collection, projected to `_id`, `username` and `profilePictureUrl`.
- JavaScript numbers are modelled as reals for scores and as integers for `releaseYear`. NaN and other floating-point values are not modelled.
- The movie fields `actors`, `plot`, `awards`, `posterUrl` and `trailerUrl` carry no constraints and are only carried along.
