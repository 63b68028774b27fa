/** The staff page: the user editor's save handler, which validates the
    form, fills in the defaults and resets the editor. */
module UserManagement {
  import opened Types
  import opened Text
  import opened Collections
  import App

  /** The editor's partially filled user. */
  datatype UserForm = UserForm(
    id: Option<string>,
    name: Option<string>,
    role: Option<UserRole>,
    phone: Option<string>,
    joinDate: Option<string>,
    telegramChatId: Option<string>)

  /** The form for a new user: empty text, the crew role, and an empty (but
      present) chat id. */
  const EmptyUserForm: UserForm := UserForm(None, Some(""), Some(Crew), Some(""), None, Some(""))

  /** The form holding an existing user for editing. */
  function FormOfUser(u: User): UserForm
  {
    UserForm(Some(u.id), Some(u.name), Some(u.role), Some(u.phone), Some(u.joinDate), u.telegramChatId)
  }

  datatype UserEditor = UserEditor(isOpen: bool, form: UserForm)

  /** What a save press yields: the user handed to the application, if any,
      and the editor afterwards. */
  datatype UserSave = UserSave(saved: Option<User>, editor: UserEditor)

  /** The save handler. Without a name or a phone nothing happens. Otherwise
      the user keeps the form's id (else a fresh one), role (else crew) and
      join date (else today's date, the part of `nowIso` before the 'T');
      the chat id passes through as it is; the editor closes and resets. */
  function SaveUserForm(ed: UserEditor, nowMillis: nat, nowIso: string): (r: UserSave)
    ensures r.saved.None? <==> !Truthy(ed.form.name) || !Truthy(ed.form.phone)
    ensures r.saved.None? ==> r.editor == ed
    ensures r.saved.Some? ==> r.editor == UserEditor(false, EmptyUserForm)
    ensures r.saved.Some? ==>
      var u := r.saved.value;
      && u.id == (if Truthy(ed.form.id) then ed.form.id.value else NumberedId("u-", nowMillis))
      && Some(u.name) == ed.form.name && Some(u.phone) == ed.form.phone
      && u.role == (if ed.form.role.Some? then ed.form.role.value else Crew)
      && u.joinDate == (if Truthy(ed.form.joinDate) then ed.form.joinDate.value else Before(nowIso, 'T'))
      && u.telegramChatId == ed.form.telegramChatId
  {
    var f := ed.form;
    if !Truthy(f.name) || !Truthy(f.phone) then UserSave(None, ed)
    else
      var role := if f.role.Some? then f.role.value else Crew;
      var u := User(OrElse(f.id, NumberedId("u-", nowMillis)), f.name.value, role, f.phone.value,
        OrElse(f.joinDate, Before(nowIso, 'T')), f.telegramChatId);
      UserSave(Some(u), UserEditor(false, EmptyUserForm))
  }

  /** Opening a stored user in the editor and saving it unchanged gives the
      same user back, and the application's list then holds it under its id. */
  lemma EditAndSaveUserRoundTrip(u: User, users: seq<User>, nowMillis: nat, nowIso: string)
    requires u.id != "" && u.name != "" && u.phone != "" && u.joinDate != ""
    ensures SaveUserForm(UserEditor(true, FormOfUser(u)), nowMillis, nowIso).saved == Some(u)
    ensures FindById(App.SaveUser(users, u), UserId, u.id) == Some(u)
  {
  }

  /** A user created from the blank form becomes crew with a fresh id, and
      carries an empty chat id rather than none: such a user is not offered
      as a notification recipient. */
  lemma NewUserFromBlankForm(name: string, phone: string, nowMillis: nat, nowIso: string)
    requires name != "" && phone != ""
    ensures var r := SaveUserForm(UserEditor(true, EmptyUserForm.(name := Some(name), phone := Some(phone))), nowMillis, nowIso);
      && r.saved.Some?
      && StartsWith(r.saved.value.id, "u-")
      && r.saved.value.role == Crew
      && r.saved.value.telegramChatId == Some("")
      && r.saved.value.joinDate == Before(nowIso, 'T')
  {
  }

  /** The blank form is never saveable; the editor survives the attempt. */
  lemma BlankUserFormRejected(open: bool, nowMillis: nat, nowIso: string)
    ensures SaveUserForm(UserEditor(open, EmptyUserForm), nowMillis, nowIso) == UserSave(None, UserEditor(open, EmptyUserForm))
  {
  }
}
