/** pages/Profile.tsx: the profile form's submit handler. It builds the update
    payload from the signed-in user and the form, adds the new password only
    when one is typed and confirmed, and on success stores the renamed user and
    clears the password fields. */
module Profile {
  import opened Common

  /** The signed-in user kept in local storage. */
  datatype ProfileUser = ProfileUser(id: int, name: string, email: string, role: string)

  datatype ProfileForm = ProfileForm(
    name: string,
    email: string,
    currentPassword: string,
    newPassword: string,
    confirmPassword: string)

  /** The body sent to the users endpoint; `password` is absent unless set. */
  datatype UpdatePayload = UpdatePayload(id: int, name: string, email: string, role: string, password: Option<string>)

  datatype Message = Success(text: string) | Error(text: string)

  /** A typed new password that the confirmation does not repeat. */
  predicate PasswordMismatch(form: ProfileForm) {
    form.newPassword != "" && form.newPassword != form.confirmPassword
  }

  /** The payload the handler sends, or None when the confirmation fails. */
  function Payload(user: ProfileUser, form: ProfileForm): (p: Option<UpdatePayload>)
    ensures p.None? <==> PasswordMismatch(form)
    // id and role come from the signed-in user, never from the form
    ensures p.Some? ==> p.value.id == user.id && p.value.role == user.role
    ensures p.Some? ==> p.value.name == form.name && p.value.email == form.email
    // no password is sent unless one was typed, and a sent one is confirmed
    ensures p.Some? ==> (p.value.password.None? <==> form.newPassword == "")
    ensures p.Some? && p.value.password.Some? ==>
      p.value.password.value == form.newPassword && form.newPassword == form.confirmPassword
  {
    if PasswordMismatch(form) then None
    else Some(UpdatePayload(user.id, form.name, form.email, user.role,
                            if form.newPassword == "" then None else Some(form.newPassword)))
  }

  /** `{ ...user, name: formData.name, email: formData.email }` */
  function Renamed(user: ProfileUser, form: ProfileForm): (u: ProfileUser)
    ensures u.id == user.id && u.role == user.role
    ensures u.name == form.name && u.email == form.email
  {
    user.(name := form.name, email := form.email)
  }

  /** The page's state: the React state variables and the `currentUser` entry of
      local storage. */
  class ProfilePage {
    var user: Option<ProfileUser>
    var form: ProfileForm
    var loading: bool
    var message: Option<Message>
    var storedUser: Option<ProfileUser>

    /** The page after loading: the form starts from the stored user. */
    constructor (stored: Option<ProfileUser>)
      ensures user == stored && storedUser == stored
      ensures stored.Some? ==> form == ProfileForm(stored.value.name, stored.value.email, "", "", "")
      ensures stored.None? ==> form == ProfileForm("", "", "", "", "")
      ensures !loading && message.None?
    {
      user := stored;
      storedUser := stored;
      form := match stored
        case Some(u) => ProfileForm(u.name, u.email, "", "", "")
        case None => ProfileForm("", "", "", "", "");
      loading := false;
      message := None;
    }

    /** handleUpdateProfile with `apiSucceeds` standing for the outcome of the
        update request; `sent` is the payload sent, if any. */
    method HandleUpdateProfile(apiSucceeds: bool) returns (sent: Option<UpdatePayload>)
      modifies this
      // with no signed-in user nothing happens
      ensures old(user).None? ==> sent.None? && unchanged(this)
      ensures old(user).Some? ==> sent == Payload(old(user).value, old(form)) && !loading
      ensures old(user).Some? && PasswordMismatch(old(form)) ==>
        && message == Some(Error("New passwords do not match"))
        && user == old(user) && form == old(form) && storedUser == old(storedUser)
      ensures sent.Some? && apiSucceeds ==>
        && user == Some(Renamed(old(user).value, old(form)))
        && storedUser == user
        && form == old(form).(currentPassword := "", newPassword := "", confirmPassword := "")
        && message == Some(Success("Profile updated successfully"))
      ensures sent.Some? && !apiSucceeds ==>
        && user == old(user) && form == old(form) && storedUser == old(storedUser)
        && message == Some(Error("Failed to update profile. Please try again."))
    {
      sent := None;
      if user.Some? {
        var current := user.value;
        loading := true;
        message := None;
        var updateData := UpdatePayload(current.id, form.name, form.email, current.role, None);
        var mismatch := false;
        if form.newPassword != "" {
          if form.newPassword != form.confirmPassword {
            message := Some(Error("New passwords do not match"));
            mismatch := true;
          } else {
            updateData := updateData.(password := Some(form.newPassword));
          }
        }
        if !mismatch {
          sent := Some(updateData);
          if apiSucceeds {
            var updatedUser := current.(name := form.name, email := form.email);
            storedUser := Some(updatedUser);
            user := Some(updatedUser);
            message := Some(Success("Profile updated successfully"));
            form := form.(currentPassword := "", newPassword := "", confirmPassword := "");
          } else {
            message := Some(Error("Failed to update profile. Please try again."));
          }
        }
        loading := false;
      }
    }
  }
}
