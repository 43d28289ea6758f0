/** The user collection as the services see it: an ordered sequence of documents,
    each a map from field name to value. A user's identifier is its position in
    the sequence: users are only ever appended, never removed, so a position names
    one user for good. The store itself enforces no uniqueness. */
module Users {
  import opened Wrappers

  type Record = map<string, string>
  type UserId = nat

  const Username := "username"
  const Email := "email"
  const Password := "password"
  const PhoneNumber := "phoneNumber"
  const ProfilePictureUrl := "profilePictureUrl"

  /** A user document as the services return it: its identifier and its fields. */
  datatype Account = Account(id: UserId, fields: Record)

  /** The equality filter `{ field: value }`: the field is present and holds exactly `value`. */
  predicate HasValue(rec: Record, field: string, value: string)
  {
    field in rec && rec[field] == value
  }

  function Field(rec: Record, field: string): Option<string>
  {
    if field in rec then Some(rec[field]) else None
  }

  /** Some document matches `{ field: value }`. */
  ghost predicate Taken(users: seq<Record>, field: string, value: string)
  {
    exists j :: 0 <= j < |users| && HasValue(users[j], field, value)
  }

  /** Document `j` is the first, in stored order, that matches `{ field: value }`. */
  ghost predicate IsFirst(users: seq<Record>, field: string, value: string, j: int)
  {
    && 0 <= j < |users|
    && HasValue(users[j], field, value)
    && forall k :: 0 <= k < j ==> !HasValue(users[k], field, value)
  }

  /** `findOne({ field: value })`: the first matching document in stored order, if any. */
  function FindOne(users: seq<Record>, field: string, value: string): (r: Option<UserId>)
    ensures r.None? <==> !Taken(users, field, value)
    ensures r.Some? ==> IsFirst(users, field, value, r.value)
  {
    if |users| == 0 then None
    else if HasValue(users[0], field, value) then Some(0)
    else match FindOne(users[1..], field, value)
      case None =>
        assert forall j :: 1 <= j < |users| ==> users[j] == users[1..][j - 1];
        None
      case Some(k) =>
        assert forall j :: 1 <= j <= k + 1 ==> users[j] == users[1..][j - 1];
        Some(k + 1)
  }

  /** Replacing the first match by a document that still matches keeps it the first match. */
  lemma ReplaceKeepsFirst(users: seq<Record>, field: string, value: string, j: int, rec: Record)
    requires IsFirst(users, field, value, j)
    requires HasValue(rec, field, value)
    ensures IsFirst(users[j := rec], field, value, j)
  {
  }
}
