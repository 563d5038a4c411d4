/** The user editor page: create and edit mode, how a fetched user is
    loaded into the form, the submit validation and the choice between an
    update and a create. */
module UserEditor {
  import opened Wrappers

  /** The form; the password is never loaded, only typed. */
  datatype UserFormData = UserFormData(
    email: string,
    password: string,
    companyName: string,
    ico: string,
    dic: string,
    address: string,
    phone: string,
    bankAccount: string,
    isVatPayer: bool)

  const EmptyForm := UserFormData("", "", "", "", "", "", "", "", false)

  /** `isEditMode = !!id`: a non-empty id in the route. */
  function IsEditMode(id: Option<string>): (b: bool)
    ensures b <==> id.Some? && id.value != ""
  {
    id.Some? && id.value != ""
  }

  /** `isEditingSelf = id === currentUser?.id`; two absent ids compare
      equal. */
  function IsEditingSelf(id: Option<string>, currentUserId: Option<string>): (b: bool)
    ensures b <==> (id.None? && currentUserId.None?) || (id.Some? && currentUserId.Some? && id.value == currentUserId.value)
  {
    id == currentUserId
  }

  /** A user as the server returns it; `None` is `null` or absent. */
  datatype FetchedUser = FetchedUser(
    email: Option<string>,
    companyName: Option<string>,
    ico: Option<string>,
    dic: Option<string>,
    address: Option<string>,
    phone: Option<string>,
    bankAccount: Option<string>,
    isVatPayer: Option<bool>)

  /** `fetchUser`'s mapping: every missing text becomes '', the flag
      defaults to false, and the password is always ''. */
  function LoadUser(data: FetchedUser): (f: UserFormData)
    ensures f.password == ""
    ensures f.email == data.email.GetOr("") && f.companyName == data.companyName.GetOr("")
    ensures f.ico == data.ico.GetOr("") && f.dic == data.dic.GetOr("")
    ensures f.address == data.address.GetOr("") && f.phone == data.phone.GetOr("")
    ensures f.bankAccount == data.bankAccount.GetOr("")
    ensures f.isVatPayer <==> data.isVatPayer == Some(true)
  {
    UserFormData(data.email.GetOr(""), "", data.companyName.GetOr(""), data.ico.GetOr(""),
                 data.dic.GetOr(""), data.address.GetOr(""), data.phone.GetOr(""),
                 data.bankAccount.GetOr(""), data.isVatPayer.GetOr(false))
  }

  /** What a submit does. */
  datatype Outcome =
    | EmailRequired
    | PasswordRequired
    | Update(id: string, form: UserFormData)
    | Create(form: UserFormData)

  /** `handleSubmit`: the e-mail is always required, the password only
      when creating; then an update in edit mode, else a create. */
  function Submit(id: Option<string>, f: UserFormData): (r: Outcome)
    ensures r == EmailRequired <==> f.email == ""
    ensures r == PasswordRequired <==> f.email != "" && !IsEditMode(id) && f.password == ""
    ensures r.Update? <==> f.email != "" && IsEditMode(id)
    ensures r.Update? ==> r.id == id.value && r.form == f
    ensures r.Create? ==> r.form == f && f.password != ""
  {
    if f.email == "" then EmailRequired
    else if !IsEditMode(id) && f.password == "" then PasswordRequired
    else if IsEditMode(id) then Update(id.value, f)
    else Create(f)
  }

  /** A loaded user with an e-mail can be saved without typing a password. */
  lemma LoadedUserSavable(id: string, data: FetchedUser)
    requires id != "" && data.email.Some? && data.email.value != ""
    ensures Submit(Some(id), LoadUser(data)) == Update(id, LoadUser(data))
    ensures Submit(Some(id), LoadUser(data)).form.password == ""
  {
  }

  /** The empty form of the create page is rejected for its e-mail, and
      with an e-mail but no password for the password. */
  lemma CreateNeedsBoth(email: string)
    requires email != ""
    ensures Submit(None, EmptyForm) == EmailRequired
    ensures Submit(None, EmptyForm.(email := email)) == PasswordRequired
  {
  }
}
