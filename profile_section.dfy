/** The profile card (components/ProfileSection.tsx): which fields the
    viewer may edit, the edit button, and the edit, avatar, submit and cancel
    handlers. The form the card submits is related to the profile update
    action, so that the card is shown never to offer more than the action
    permits. */
module ProfileSection {
  import opened Common
  import ProfileAction

  /** The profile shown. */
  datatype ShownUser = ShownUser(id: string, name: string, role: string, avatarUrl: Option<string>)

  /** The signed-in viewer. */
  datatype Viewer = Viewer(id: string, role: string)

  predicate IsSelf(user: ShownUser, viewer: Viewer) {
    viewer.id == user.id
  }

  predicate IsAdmin(viewer: Viewer) {
    viewer.role == "Admin"
  }

  /** Name and avatar can be edited on one's own profile only. */
  predicate CanEditNameAvatar(user: ShownUser, viewer: Viewer) {
    IsSelf(user, viewer)
  }

  /** The role can be edited by an Admin looking at someone else. */
  predicate CanEditRole(user: ShownUser, viewer: Viewer) {
    !IsSelf(user, viewer) && IsAdmin(viewer)
  }

  predicate CanEditAnything(user: ShownUser, viewer: Viewer) {
    CanEditNameAvatar(user, viewer) || CanEditRole(user, viewer)
  }

  const EditRoleLabel := "Edit Role"
  const EditProfileLabel := "Edit Profile"

  /** The header button: shown exactly when not editing and something can be
      edited, and reading "Edit Role" exactly when only the role can be. */
  function EditButton(user: ShownUser, viewer: Viewer, isEditing: bool): (r: Option<string>)
    ensures r.Some? <==> !isEditing && CanEditAnything(user, viewer)
    ensures r == Some(EditRoleLabel) <==> !isEditing && CanEditRole(user, viewer)
    ensures r == Some(EditProfileLabel) <==> !isEditing && IsSelf(user, viewer)
  {
    if !isEditing && CanEditAnything(user, viewer) then
      Some(if CanEditRole(user, viewer) && !CanEditNameAvatar(user, viewer) then EditRoleLabel else EditProfileLabel)
    else None
  }

  /** The two kinds of editing never come together, and editing is possible
      for everyone but a non-Admin looking at someone else. */
  lemma FlagsExclusive(user: ShownUser, viewer: Viewer)
    ensures !(CanEditNameAvatar(user, viewer) && CanEditRole(user, viewer))
    ensures !CanEditAnything(user, viewer) <==> !IsSelf(user, viewer) && !IsAdmin(viewer)
  {
  }

  /** The avatar drawn for a preview: only a non-empty URL is drawn as an image. */
  function DrawnAvatar(preview: Option<string>): (r: Option<string>)
    ensures r.Some? <==> Truthy(preview)
  {
    NonEmpty(preview)
  }

  /** The form the card submits: disabled inputs are left out of it, so the
      name and the avatar are sent only when they can be edited, and the
      role only when it can be edited. */
  function SubmittedForm(user: ShownUser, viewer: Viewer, name: string, chosenRole: string,
                         avatarSize: Option<nat>): (f: ProfileAction.ProfileForm)
    ensures f.name.Some? <==> CanEditNameAvatar(user, viewer)
    ensures f.avatarSize.Some? ==> CanEditNameAvatar(user, viewer)
    ensures f.role.Some? <==> CanEditRole(user, viewer)
  {
    ProfileAction.ProfileForm(
      if CanEditNameAvatar(user, viewer) then Some(name) else None,
      if CanEditRole(user, viewer) then Some(chosenRole) else None,
      if CanEditNameAvatar(user, viewer) then avatarSize else None)
  }

  /** The viewer as the update action sees the caller. */
  function CallerOf(viewer: Viewer): ProfileAction.Caller {
    ProfileAction.Caller(viewer.id, Some(viewer.role))
  }

  /** Whatever the card submits, the update action changes only the fields
      the card lets the viewer edit. */
  lemma CardWithinAction(user: ShownUser, viewer: Viewer, name: string, chosenRole: string,
                         avatarSize: Option<nat>, answers: ProfileAction.Answers)
    ensures var fields := ProfileAction.Update(CallerOf(viewer), user.id,
                                               SubmittedForm(user, viewer, name, chosenRole, avatarSize), answers);
            ("name" in fields || "avatar_url" in fields ==> CanEditNameAvatar(user, viewer)) &&
            ("role" in fields ==> CanEditRole(user, viewer))
  {
  }

  /** An Admin on their own profile could have the role changed by the
      action, but the card does not offer it: the card is stricter there. */
  lemma AdminOwnRoleNotOffered(user: ShownUser, viewer: Viewer, name: string, chosenRole: string,
                               avatarSize: Option<nat>, answers: ProfileAction.Answers)
    requires IsSelf(user, viewer) && IsAdmin(viewer) && chosenRole != ""
    ensures "role" !in ProfileAction.Update(CallerOf(viewer), user.id,
                                            SubmittedForm(user, viewer, name, chosenRole, avatarSize), answers)
    ensures "role" in ProfileAction.Update(CallerOf(viewer), user.id,
                                           ProfileAction.ProfileForm(Some(name), Some(chosenRole), avatarSize), answers)
  {
  }

  /** The card's state. */
  class ProfileCard {
    const user: ShownUser
    const viewer: Viewer
    var isEditing: bool
    var isLoading: bool
    var name: string
    var avatarPreview: Option<string>

    constructor(user: ShownUser, viewer: Viewer)
      ensures this.user == user && this.viewer == viewer
      ensures !isEditing && !isLoading && name == user.name
      ensures avatarPreview == NonEmpty(user.avatarUrl)
    {
      this.user := user;
      this.viewer := viewer;
      isEditing := false;
      isLoading := false;
      name := user.name;
      avatarPreview := if Truthy(user.avatarUrl) then user.avatarUrl else None;
    }

    /** The header button's click. */
    method StartEditing()
      modifies this
      ensures isEditing
      ensures isLoading == old(isLoading) && name == old(name) && avatarPreview == old(avatarPreview)
    {
      isEditing := true;
    }

    /** Typing in the name input. */
    method NameChanged(value: string)
      modifies this
      ensures name == value
      ensures isEditing == old(isEditing) && isLoading == old(isLoading) && avatarPreview == old(avatarPreview)
    {
      name := value;
    }

    /** `handleAvatarChange`: `objectUrl` is the URL made for the chosen file,
        if one was chosen. The choice is ignored unless the avatar can be edited. */
    method AvatarChanged(objectUrl: Option<string>)
      modifies this
      ensures CanEditNameAvatar(user, viewer) && objectUrl.Some? ==> avatarPreview == objectUrl
      ensures !(CanEditNameAvatar(user, viewer) && objectUrl.Some?) ==> avatarPreview == old(avatarPreview)
      ensures isEditing == old(isEditing) && isLoading == old(isLoading) && name == old(name)
    {
      if !CanEditNameAvatar(user, viewer) {
        return;
      }
      if objectUrl.Some? {
        avatarPreview := objectUrl;
      }
    }

    /** `handleSubmit`: the form is sent to the update action, whose error is
        `error`; an error is shown and editing goes on, otherwise editing ends. */
    method Submit(chosenRole: string, avatarSize: Option<nat>, error: Option<string>)
      returns (sent: ProfileAction.ProfileForm, alert: Option<string>)
      modifies this
      ensures sent == SubmittedForm(user, viewer, old(name), chosenRole, avatarSize)
      ensures !isLoading
      ensures Truthy(error) ==> alert == error && isEditing == old(isEditing)
      ensures !Truthy(error) ==> alert == None && !isEditing
      ensures name == old(name) && avatarPreview == old(avatarPreview)
    {
      isLoading := true;
      sent := ProfileAction.ProfileForm(
        if CanEditNameAvatar(user, viewer) then Some(name) else None,
        if CanEditRole(user, viewer) then Some(chosenRole) else None,
        if CanEditNameAvatar(user, viewer) then avatarSize else None);
      isLoading := false;
      if Truthy(error) {
        alert := error;
      } else {
        alert := None;
        isEditing := false;
      }
    }

    /** The Cancel button: editing ends and the name and avatar go back to the
        user's own. The preview is restored with `??`, so an empty URL comes
        back as the empty string rather than as no URL, which draws the same. */
    method Cancel()
      modifies this
      ensures !isEditing && isLoading == old(isLoading)
      ensures name == user.name && avatarPreview == user.avatarUrl
      ensures DrawnAvatar(avatarPreview) == DrawnAvatar(NonEmpty(user.avatarUrl))
    {
      isEditing := false;
      avatarPreview := user.avatarUrl;
      name := user.name;
    }
  }
}
