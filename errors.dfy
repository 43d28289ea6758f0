/** The failures the account and review services raise. Every one of them reaches
    the client only as its message string (the transport maps all of them to the
    same status), so the message is the observable part. */
module Errors {

  datatype Error =
    | UserAlreadyRegistered   // signup: username and email both already in use
    | UsernameTaken           // signup: username already in use
    | UserNotFound            // login, changePassword: no user with that email
    | IncorrectPassword       // login, changePassword: stored password differs
    | EmailNotFound           // updateContactDetails: no user with that email
    | PhoneNotFound           // findUserByPhoneNumber: no user with that number
    | NullUser                // updateProfilePicture: assignment on a missing user
    | MovieNotFound           // addRatingAndReview (any failure), getMovieReviewsWithUserDetails

  function Message(e: Error): string
  {
    match e
    case UserAlreadyRegistered => "User already registered"
    case UsernameTaken => "Username already taken"
    case UserNotFound => "User Not Found or Incorrect Email Entered"
    case IncorrectPassword => "Incorrect Password"
    case EmailNotFound => "Email Not Found"
    case PhoneNotFound => "Phone number not associated with any user"
    // the JavaScript runtime's own TypeError for `null.profilePictureUrl = ...`
    case NullUser => "Cannot set properties of null (setting 'profilePictureUrl')"
    case MovieNotFound => "Movie Not Found"
  }

  /** A client can tell every failure apart by its message alone. */
  lemma MessageDistinguishes(e1: Error, e2: Error)
    ensures Message(e1) == Message(e2) <==> e1 == e2
  {
  }
}
