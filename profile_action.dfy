/** The profile update action (app/actions/profile.ts): who may change a
    profile, which fields each caller may change, and the order of the
    writes. The signed-in user, the answers of the storage upload, of the
    auth admin update and of the users-table update are parameters; the
    writes the action makes are returned in the order it makes them. */
module ProfileAction {
  import opened Common

  /** The signed-in caller and the role in the caller's metadata. */
  datatype Caller = Caller(id: string, role: Option<string>)

  /** The submitted form: `name` and `role` are absent when the form has no
      such field; `avatarSize` is the size of the chosen file, if any. */
  datatype ProfileForm = ProfileForm(name: Option<string>, role: Option<string>, avatarSize: Option<nat>)

  /** What the services answer: the upload's error message, the public URL of
      the uploaded file, and the error messages of the two updates. */
  datatype Answers = Answers(uploadError: Option<string>, publicUrl: string,
                             authError: Option<string>, dbError: Option<string>)

  /** A write to a service, with the user it is about. */
  datatype Write =
    | UploadAvatar(owner: string)
    | UpdateAuthMetadata(userId: string, metadata: map<string, string>)
    | UpdateUsersRow(userId: string, update: map<string, string>)

  datatype Outcome = Failure(error: string) | Success

  const UnauthorizedMessage := "Unauthorized to update this profile"
  const UploadFailedPrefix := "Failed to upload avatar: "

  /** Only the user themself or an Admin may update a profile. */
  predicate Authorized(caller: Option<Caller>, userId: string) {
    caller.Some? && (caller.value.id == userId || caller.value.role == Some("Admin"))
  }

  /** A file is uploaded only when one was chosen and it is not empty. */
  predicate Uploads(form: ProfileForm) {
    form.avatarSize.Some? && form.avatarSize.value > 0
  }

  /** The avatar URL after the upload step: the public URL when a file was uploaded. */
  function AvatarUrl(form: ProfileForm, answers: Answers): (r: Option<string>)
    ensures r.Some? <==> Uploads(form)
  {
    if Uploads(form) then Some(answers.publicUrl) else None
  }

  /** The fields a caller may change: name and avatar on their own profile,
      the role when they are an Admin, each only when it is non-empty. */
  function FieldUpdate(name: Option<string>, avatarUrl: Option<string>, role: Option<string>,
                       isSelf: bool, isAdmin: bool): (m: map<string, string>)
    ensures "name" in m <==> Truthy(name) && isSelf
    ensures "avatar_url" in m <==> Truthy(avatarUrl) && isSelf
    ensures "role" in m <==> Truthy(role) && isAdmin
    ensures m.Keys <= {"name", "avatar_url", "role"}
    ensures "name" in m ==> m["name"] == name.value
    ensures "avatar_url" in m ==> m["avatar_url"] == avatarUrl.value
    ensures "role" in m ==> m["role"] == role.value
  {
    var withName: map<string, string> := if Truthy(name) && isSelf then map["name" := name.value] else map[];
    var withAvatar := if Truthy(avatarUrl) && isSelf then withName["avatar_url" := avatarUrl.value] else withName;
    if Truthy(role) && isAdmin then withAvatar["role" := role.value] else withAvatar
  }

  /** The fields the action writes for this caller and form. */
  function Update(caller: Caller, userId: string, form: ProfileForm, answers: Answers): map<string, string> {
    FieldUpdate(form.name, AvatarUrl(form, answers), form.role,
                caller.id == userId, caller.role == Some("Admin"))
  }

  /** `updateProfile`: the checks, the upload, the auth metadata update and
      the users-table update, each returning early on an error. */
  method UpdateProfile(caller: Option<Caller>, userId: string, form: ProfileForm, answers: Answers)
    returns (outcome: Outcome, writes: seq<Write>)
    // an unauthorised caller gets an error and nothing is written
    ensures !Authorized(caller, userId) ==> outcome == Failure(UnauthorizedMessage) && writes == []
    // a failed upload stops the action before any update
    ensures Authorized(caller, userId) && Uploads(form) && answers.uploadError.Some? ==>
              outcome == Failure(UploadFailedPrefix + answers.uploadError.value) &&
              writes == [UploadAvatar(userId)]
    // otherwise the auth metadata is always updated, with the permitted fields
    ensures Authorized(caller, userId) && !(Uploads(form) && answers.uploadError.Some?) ==>
              var upload := if Uploads(form) then [UploadAvatar(userId)] else [];
              var fields := Update(caller.value, userId, form, answers);
              // an auth error returns before the users table is touched
              (answers.authError.Some? ==>
                 outcome == Failure(answers.authError.value) &&
                 writes == upload + [UpdateAuthMetadata(userId, fields)]) &&
              // the users table gets the same fields, unless there are none
              (answers.authError.None? && fields == map[] ==>
                 outcome == Success && writes == upload + [UpdateAuthMetadata(userId, fields)]) &&
              (answers.authError.None? && fields != map[] ==>
                 writes == upload + [UpdateAuthMetadata(userId, fields), UpdateUsersRow(userId, fields)] &&
                 outcome == (if answers.dbError.Some? then Failure(answers.dbError.value) else Success))
  {
    if caller.None? || (caller.value.id != userId && caller.value.role != Some("Admin")) {
      return Failure(UnauthorizedMessage), [];
    }
    var user := caller.value;
    var name := form.name;
    var role := form.role;
    writes := [];

    var avatarUrl: Option<string> := None;
    if form.avatarSize.Some? && form.avatarSize.value > 0 {
      writes := writes + [UploadAvatar(userId)];
      if answers.uploadError.Some? {
        return Failure(UploadFailedPrefix + answers.uploadError.value), writes;
      }
      avatarUrl := Some(answers.publicUrl);
    }

    var isSelf := user.id == userId;
    var isAdmin := user.role == Some("Admin");

    var metadataUpdate: map<string, string> := map[];
    if Truthy(name) && isSelf { metadataUpdate := metadataUpdate["name" := name.value]; }
    if Truthy(avatarUrl) && isSelf { metadataUpdate := metadataUpdate["avatar_url" := avatarUrl.value]; }
    if Truthy(role) && isAdmin { metadataUpdate := metadataUpdate["role" := role.value]; }
    assert metadataUpdate == Update(user, userId, form, answers);

    writes := writes + [UpdateAuthMetadata(userId, metadataUpdate)];
    if answers.authError.Some? {
      return Failure(answers.authError.value), writes;
    }

    var dbUpdate: map<string, string> := map[];
    if Truthy(name) && isSelf { dbUpdate := dbUpdate["name" := name.value]; }
    if Truthy(avatarUrl) && isSelf { dbUpdate := dbUpdate["avatar_url" := avatarUrl.value]; }
    if Truthy(role) && isAdmin { dbUpdate := dbUpdate["role" := role.value]; }
    assert dbUpdate == Update(user, userId, form, answers);

    if |dbUpdate| > 0 {
      writes := writes + [UpdateUsersRow(userId, dbUpdate)];
      if answers.dbError.Some? {
        return Failure(answers.dbError.value), writes;
      }
    }
    outcome := Success;
  }

  /** Name and avatar change only on one's own profile; the role only for an
      Admin, on their own profile as on anyone else's. */
  lemma FieldPermissions(caller: Caller, userId: string, form: ProfileForm, answers: Answers)
    ensures caller.id != userId ==>
              "name" !in Update(caller, userId, form, answers) && "avatar_url" !in Update(caller, userId, form, answers)
    ensures caller.role != Some("Admin") ==> "role" !in Update(caller, userId, form, answers)
    ensures caller.role == Some("Admin") && Truthy(form.role) ==>
              Update(caller, userId, form, answers)["role"] == form.role.value
    ensures caller.id == userId && Truthy(form.name) ==>
              Update(caller, userId, form, answers)["name"] == form.name.value
  {
  }

  /** An Admin editing someone else can change nothing but the role, so a
      form without a role writes no users-table row. */
  lemma AdminOnOthers(caller: Caller, userId: string, form: ProfileForm, answers: Answers)
    requires caller.id != userId
    ensures Update(caller, userId, form, answers).Keys <= {"role"}
    ensures !Truthy(form.role) ==> Update(caller, userId, form, answers) == map[]
  {
  }

  /** A non-empty uploaded avatar reaches the update only on one's own profile. */
  lemma AvatarOnlyForSelf(caller: Caller, userId: string, form: ProfileForm, answers: Answers)
    requires Uploads(form) && answers.publicUrl != ""
    ensures "avatar_url" in Update(caller, userId, form, answers) <==> caller.id == userId
  {
  }
}
