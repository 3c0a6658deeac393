/** A user's public profile, profile picture and public notes. */
module UserId {
  import opened Wrappers
  import opened Db
  import opened Notes

  /** `PublicUserResponse`: no e-mail, password or picture bytes. */
  datatype PublicUserResponse = PublicUserResponse(id: int, username: string, createdAt: Instant, hasProfilePicture: bool)

  /** `From<user::Model> for PublicUserResponse`. */
  function FromUser(u: User): (r: PublicUserResponse)
    ensures r.id == u.id && r.username == u.username && r.createdAt == u.createdAt
    ensures r.hasProfilePicture <==> u.profilePicture.Some?
  {
    PublicUserResponse(u.id, u.username, u.createdAt, u.profilePicture.Some?)
  }

  /** The public view hides the secrets: users differing only in e-mail and
      password look the same. */
  lemma PublicViewHidesSecrets(u: User, email: string, password: string)
    ensures FromUser(u.(email := email, password := password)) == FromUser(u)
  {
  }

  /** `get_user` */
  function GetUser(users: map<int, User>, id: int): (r: Result<PublicUserResponse, ApiError>)
    ensures r.Err? <==> id !in users
    ensures r.Err? ==> r.error == NotFound("User not found")
    ensures r.Ok? ==> r.value == FromUser(users[id])
  {
    if id in users then Ok(FromUser(users[id])) else Err(NotFound("User not found"))
  }

  /** A picture answer: the `Content-Type` header and the body. */
  datatype Picture = Picture(contentType: string, bytes: seq<byte>)

  const Png := "image/png"

  /** `get_user_profile_picture`: NotFound for a missing user, then for a user
      without a picture; otherwise the stored bytes, untouched, as PNG. */
  function GetProfilePicture(users: map<int, User>, id: int): (r: Result<Picture, ApiError>)
    ensures id !in users ==> r == Err(NotFound("User not found"))
    ensures id in users && users[id].profilePicture.None? ==> r == Err(NotFound("User has no profile picture"))
    ensures r.Ok? <==> id in users && users[id].profilePicture.Some?
    ensures r.Ok? ==> r.value == Picture(Png, users[id].profilePicture.value)
  {
    if id !in users then Err(NotFound("User not found"))
    else match users[id].profilePicture
      case Some(bytes) => Ok(Picture(Png, bytes))
      case None => Err(NotFound("User has no profile picture"))
  }

  /** The largest picture the handler itself accepts: 2 MiB. */
  const MaxSize: nat := 2 * 1024 * 1024

  /** axum's default limit for a `Bytes` body, 2 MiB; the user routes do not raise it. */
  const DefaultBodyLimit: nat := 2_097_152

  /** axum's rejection of a body over the limit (413 Payload Too Large). */
  const LengthLimitExceeded := "Failed to buffer the request body: length limit exceeded"

  /** The success status of the upload, 204 No Content. */
  const NoContent := 204

  /** The upload route with a request body limit of `limit` bytes. The `Bytes`
      extractor reads the body before the handler runs, so a body over the limit
      is refused with 413 whoever sends it. Then the handler: only for one's own
      id, at most `MaxSize` bytes, for an existing user, in that order. */
  method SetProfilePictureUnder(db: Database, limit: nat, caller: int, id: int, body: seq<byte>) returns (r: Result<int, ApiError>)
    requires db.Valid()
    modifies db`users
    ensures db.Valid()
    ensures r.Err? ==> db.users == old(db.users)
    ensures |body| > limit ==> r == Err(PayloadTooLarge(LengthLimitExceeded))
    ensures |body| <= limit && caller != id ==> r == Err(Unauthorized("You cannot change another user's profile picture"))
    ensures |body| <= limit && caller == id && |body| > MaxSize ==> r == Err(BadRequest("Image too large"))
    ensures |body| <= limit && caller == id && |body| <= MaxSize && id !in old(db.users) ==> r == Err(NotFound("User not found"))
    ensures |body| <= limit && caller == id && |body| <= MaxSize && id in old(db.users) ==>
      && r == Ok(NoContent)
      && db.users == old(db.users)[id := old(db.users)[id].(profilePicture := Some(body))]
      && GetProfilePicture(db.users, id) == Ok(Picture(Png, body))
  {
    if |body| > limit {
      return Err(PayloadTooLarge(LengthLimitExceeded));
    }
    if caller != id {
      return Err(Unauthorized("You cannot change another user's profile picture"));
    }
    if |body| > MaxSize {
      return Err(BadRequest("Image too large"));
    }
    if id !in db.users {
      return Err(NotFound("User not found"));
    }
    var active := db.users[id];
    active := active.(profilePicture := Some(body));
    db.users := db.users[id := active];
    r := Ok(NoContent);
  }

  /** `set_user_profile_picture` as routed: under axum's default body limit, which
      equals `MaxSize`, so the handler's own "Image too large" branch is never taken. */
  method SetProfilePicture(db: Database, caller: int, id: int, body: seq<byte>) returns (r: Result<int, ApiError>)
    requires db.Valid()
    modifies db`users
    ensures db.Valid()
    ensures r.Err? ==> db.users == old(db.users)
    ensures r != Err(BadRequest("Image too large"))
    ensures |body| > MaxSize ==> r == Err(PayloadTooLarge(LengthLimitExceeded))
    ensures |body| <= MaxSize && caller != id ==> r == Err(Unauthorized("You cannot change another user's profile picture"))
    ensures |body| <= MaxSize && caller == id && id !in old(db.users) ==> r == Err(NotFound("User not found"))
    ensures |body| <= MaxSize && caller == id && id in old(db.users) ==>
      && r == Ok(NoContent)
      && db.users == old(db.users)[id := old(db.users)[id].(profilePicture := Some(body))]
      && GetProfilePicture(db.users, id) == Ok(Picture(Png, body))
  {
    r := SetProfilePictureUnder(db, DefaultBodyLimit, caller, id, body);
  }

  /** A picture of exactly 2 MiB is accepted and one byte more is refused with 413,
      even when someone else sends it; the profile reports a picture only after
      the accepted upload. */
  method SizeLimitScenario(u: User, big: seq<byte>)
    returns (exact: Result<int, ApiError>, over: Result<int, ApiError>, stranger: Result<int, ApiError>, profile: Result<PublicUserResponse, ApiError>)
    requires |big| == MaxSize + 1
    ensures exact == Ok(NoContent)
    ensures over == Err(PayloadTooLarge(LengthLimitExceeded))
    ensures stranger == Err(PayloadTooLarge(LengthLimitExceeded))
    ensures profile.Ok? && profile.value.hasProfilePicture
  {
    var db := new Database(map[u.id := u], map[]);
    over := SetProfilePicture(db, u.id, u.id, big);
    stranger := SetProfilePicture(db, u.id + 1, u.id, big);
    exact := SetProfilePicture(db, u.id, u.id, big[..MaxSize]);
    profile := GetUser(db.users, u.id);
  }

  /** With a body limit above `MaxSize` the handler's checks decide, as its code
      intends: the owner's oversized picture is "Image too large" and a stranger's
      upload is refused as unauthorised. */
  method RaisedLimitScenario(u: User, big: seq<byte>)
    returns (over: Result<int, ApiError>, stranger: Result<int, ApiError>, profile: Result<PublicUserResponse, ApiError>)
    requires |big| == MaxSize + 1
    ensures over == Err(BadRequest("Image too large"))
    ensures stranger == Err(Unauthorized("You cannot change another user's profile picture"))
    ensures profile.Ok? && profile.value == FromUser(u)
  {
    var db := new Database(map[u.id := u], map[]);
    over := SetProfilePictureUnder(db, MaxSize + 1, u.id, u.id, big);
    stranger := SetProfilePictureUnder(db, MaxSize + 1, u.id + 1, u.id, big);
    profile := GetUser(db.users, u.id);
  }

  /** `get_user_notes`: that user's public notes, newest first, each with the
      caller's own vote and bookmark. */
  method GetUserNotes(db: Database, id: int, caller: int) returns (responses: seq<NoteResponse>)
    requires db.Valid()
    ensures forall i | 0 <= i < |responses| ::
      responses[i].id in db.notes && responses[i].userId == id && responses[i].public
      && responses[i] == ToResponse(db.notes[responses[i].id], db.upvotes, db.saves, caller)
    ensures forall k | k in db.notes && db.notes[k].userId == id && db.notes[k].public ::
      exists i | 0 <= i < |responses| :: responses[i].id == k
    ensures forall i, j | 0 <= i < j < |responses| ::
      responses[i].createdAt >= responses[j].createdAt && responses[i].id != responses[j].id
  {
    var listed := SelectNewestFirst(db.notes, db.nextNoteId, PublicOf(id));
    responses := ResponseFromArray(listed, db.upvotes, db.saves, caller);
    forall k | k in db.notes && db.notes[k].userId == id && db.notes[k].public
      ensures exists i | 0 <= i < |responses| :: responses[i].id == k
    {
      var i :| 0 <= i < |listed| && listed[i] == db.notes[k];
      assert responses[i].id == k;
    }
    forall i | 0 <= i < |responses|
      ensures responses[i].id in db.notes && responses[i].userId == id && responses[i].public
      ensures responses[i] == ToResponse(db.notes[responses[i].id], db.upvotes, db.saves, caller)
    {
      assert listed[i] in listed;
    }
  }
}
