/** The customer profile page, `client/src/pages/UserManagement/Profile.jsx`:
    the update body built from the edit form, the picture upload checks, the
    edit prefill, the order-history toggle and the order status badge. */
module Profile {
  import opened Wrappers
  import opened Text
  import opened OrderModel
  import OrderManagement
  import UserController

  /** The edit form's `formData`: a field is missing until it is typed in,
      prefilled or set by an upload. */
  datatype ProfileForm = ProfileForm(username: Option<string>, email: Option<string>, phonenumber: Option<string>,
                                     address: Option<string>, avatar: Option<string>, password: Option<string>)

  const EmptyForm := ProfileForm(None, None, None, None, None, None)

  /** The body with no field at all. */
  const EmptyBody := UserController.UserBody(None, None, None, None, None, None)

  /** The five inputs of the edit form, by their element ids. */
  datatype Input = Username | Email | PhoneNumber | Address | Password

  /** `{ ...formData, [id]: value }`. */
  function Edit(f: ProfileForm, i: Input, value: string): (g: ProfileForm)
    ensures g.avatar == f.avatar
  {
    match i
    case Username => f.(username := Some(value))
    case Email => f.(email := Some(value))
    case PhoneNumber => f.(phonenumber := Some(value))
    case Address => f.(address := Some(value))
    case Password => f.(password := Some(value))
  }

  // ---------------------------------------------------------------------------
  // The update body

  /** `value && value.trim() !== ''`: the test every field passes to be sent. */
  predicate Filled(v: Option<string>) {
    Truthy(v) && !IsBlank(v.value)
  }

  /** A field sent trimmed: user name, e-mail, phone number and address. */
  function Trimmed(v: Option<string>): Option<string> {
    if Filled(v) then Some(Trim(v.value)) else None
  }

  /** A field sent as typed: avatar and password. */
  function AsTyped(v: Option<string>): Option<string> {
    if Filled(v) then v else None
  }

  /** The `updateData` object `handleSubmit` sends for the form `f`. */
  function UpdateData(f: ProfileForm): UserController.UserBody {
    UserController.UserBody(Trimmed(f.username), Trimmed(f.email), Trimmed(f.phonenumber), Trimmed(f.address),
                            AsTyped(f.password), AsTyped(f.avatar))
  }

  /** `handleSubmit`'s field-by-field construction of `updateData`. */
  method BuildUpdateData(f: ProfileForm) returns (d: UserController.UserBody)
    ensures d == UpdateData(f)
  {
    d := EmptyBody;
    if Filled(f.username) {
      d := d.(username := Some(Trim(f.username.value)));
    }
    if Filled(f.email) {
      d := d.(email := Some(Trim(f.email.value)));
    }
    if Filled(f.phonenumber) {
      d := d.(phonenumber := Some(Trim(f.phonenumber.value)));
    }
    if Filled(f.address) {
      d := d.(address := Some(Trim(f.address.value)));
    }
    if Filled(f.avatar) {
      d := d.(avatar := f.avatar);
    }
    if Filled(f.password) {
      d := d.(password := f.password);
    }
  }

  /** A field is filled exactly when it holds a character other than white
      space. */
  lemma FilledMeaning(v: Option<string>)
    ensures Filled(v) <==> v.Some? && !AllSpace(v.value)
  {
    if v.Some? {
      BlankIffAllSpace(v.value);
    }
  }

  /** A trimmed field is sent exactly when it holds a non-space character,
      and what is sent is a non-empty piece of what was typed with no white
      space at either end. */
  lemma TrimmedFieldMeaning(v: Option<string>)
    ensures Trimmed(v).Some? <==> v.Some? && !AllSpace(v.value)
    ensures Trimmed(v).Some? ==>
      var t := Trimmed(v).value;
      && t != [] && !IsSpace(t[0]) && !IsSpace(t[|t| - 1])
      && Occurs(v.value, t)
  {
    FilledMeaning(v);
    if Filled(v) {
      TrimmedPiece(v.value);
      var k := |v.value| - |TrimStart(v.value)|;
      assert OccursAt(v.value, Trim(v.value), k);
    }
  }

  /** An avatar or password is sent exactly when it holds a non-space
      character, and then exactly as typed, spaces included. */
  lemma AsTypedFieldMeaning(v: Option<string>)
    ensures AsTyped(v).Some? <==> v.Some? && !AllSpace(v.value)
    ensures AsTyped(v).Some? ==> AsTyped(v) == v
  {
    FilledMeaning(v);
  }

  /** Nothing is sent exactly when every field is missing or white space
      only. */
  lemma NothingToSend(f: ProfileForm)
    ensures UpdateData(f) == EmptyBody <==>
      && (f.username.None? || AllSpace(f.username.value))
      && (f.email.None? || AllSpace(f.email.value))
      && (f.phonenumber.None? || AllSpace(f.phonenumber.value))
      && (f.address.None? || AllSpace(f.address.value))
      && (f.avatar.None? || AllSpace(f.avatar.value))
      && (f.password.None? || AllSpace(f.password.value))
  {
    FilledMeaning(f.username);
    FilledMeaning(f.email);
    FilledMeaning(f.phonenumber);
    FilledMeaning(f.address);
    FilledMeaning(f.avatar);
    FilledMeaning(f.password);
  }

  /** What the server's `updateUser` makes of the body: fields the form left
      blank keep their stored values, a sent password is always hashed, and
      a blank one never replaces the stored hash. */
  lemma ServerKeepsUnsentFields(u: UserController.User, f: ProfileForm, hashed: string)
    ensures var r := UserController.SelfUpdate(u, UpdateData(f), hashed);
      && r.id == u.id
      && r.username == (if Filled(f.username) then Some(Trim(f.username.value)) else u.username)
      && r.email == (if Filled(f.email) then Some(Trim(f.email.value)) else u.email)
      && r.phonenumber == (if Filled(f.phonenumber) then Some(Trim(f.phonenumber.value)) else u.phonenumber)
      && r.address == (if Filled(f.address) then Some(Trim(f.address.value)) else u.address)
      && r.avatar == (if Filled(f.avatar) then f.avatar else u.avatar)
      && r.password == (if Filled(f.password) then Some(hashed) else u.password)
  {
  }

  /** Removing the picture stores an empty avatar in the form, which the
      body leaves out: saving afterwards keeps the stored avatar. */
  lemma RemovedPictureNotSent(u: UserController.User, f: ProfileForm, hashed: string)
    ensures UpdateData(f.(avatar := Some(""))).avatar.None?
    ensures UserController.SelfUpdate(u, UpdateData(f.(avatar := Some(""))), hashed).avatar == u.avatar
  {
  }

  // ---------------------------------------------------------------------------
  // The picture upload and the edit prefill

  /** The largest picture accepted, in bytes. */
  const MaxPictureSize := 2 * 1024 * 1024

  /** The checks `handleFileUpload` makes before it starts an upload. */
  predicate UploadAccepted(mimeType: string, size: int) {
    StartsWith(mimeType, "image/") && size <= MaxPictureSize
  }

  /** The signed-in user as the page reads it; older records carry `name`
      and `phone` instead of `username` and `phonenumber`. */
  datatype CurrentUser = CurrentUser(id: Option<string>, username: Option<string>, name: Option<string>,
                                     email: Option<string>, phonenumber: Option<string>, phone: Option<string>,
                                     address: Option<string>, avatar: Option<string>)

  /** The form `handleEditClick` opens with. */
  function Prefill(u: CurrentUser): (f: ProfileForm)
    ensures f.password.None?
    ensures f.username.Some? && f.email.Some? && f.phonenumber.Some? && f.address.Some? && f.avatar.Some?
    ensures Truthy(u.username) ==> f.username == u.username
    ensures !Truthy(u.username) ==> f.username == Some(OrElse(u.name, ""))
    ensures Truthy(u.phonenumber) ==> f.phonenumber == u.phonenumber
    ensures !Truthy(u.phonenumber) ==> f.phonenumber == Some(OrElse(u.phone, ""))
  {
    ProfileForm(Some(OrElse(u.username, OrElse(u.name, ""))), Some(OrElse(u.email, "")),
                Some(OrElse(u.phonenumber, OrElse(u.phone, ""))), Some(OrElse(u.address, "")),
                Some(OrElse(u.avatar, "")), None)
  }

  /** The user as the server stores it, read back by the page. */
  function Signed(u: UserController.User): CurrentUser {
    CurrentUser(Some(u.id), u.username, None, u.email, u.phonenumber, None, u.address, u.avatar)
  }

  /** A stored text field the form would send back unchanged: missing,
      blank, or already without surrounding white space. */
  predicate KeepsOnSave(v: Option<string>) {
    v.None? || IsBlank(v.value) || Trim(v.value) == v.value
  }

  lemma TrimmedFieldKept(v: Option<string>)
    requires KeepsOnSave(v)
    ensures UserController.SetField(v, Trimmed(Some(OrElse(v, "")))) == v
  {
    if v.Some? && v.value == "" {
      assert Trimmed(Some("")) == None;
    }
  }

  /** Saving the prefilled form unchanged leaves the stored user as it was,
      when its text fields carry no surrounding white space. */
  lemma UnchangedSaveKeepsUser(u: UserController.User, hashed: string)
    requires KeepsOnSave(u.username) && KeepsOnSave(u.email) && KeepsOnSave(u.phonenumber) && KeepsOnSave(u.address)
    ensures UserController.SelfUpdate(u, UpdateData(Prefill(Signed(u))), hashed) == u
  {
    TrimmedFieldKept(u.username);
    TrimmedFieldKept(u.email);
    TrimmedFieldKept(u.phonenumber);
    TrimmedFieldKept(u.address);
  }

  // ---------------------------------------------------------------------------
  // The order history

  /** `getStatusColor(order.status || 'Processing')`: the same badge table
      as the order dashboard's. */
  function OrderBadge(status: Option<string>): (c: string)
    ensures !Truthy(status) ==> c == "bg-yellow-100 text-yellow-800"
    ensures Truthy(status) ==> c == OrderManagement.StatusColor(status.value)
    ensures Truthy(status) && !IsStatus(status.value) ==> c == OrderManagement.Gray
  {
    OrderManagement.StatusColor(OrderManagement.DisplayStatus(status))
  }

  /** How `getOrdersByUser` ended: an error or an unsuccessful reply, or a
      successful one with its `orders` field, which may be missing. */
  datatype OrdersResponse = Failed | Loaded(orders: Option<seq<Order>>)

  // ---------------------------------------------------------------------------
  // The page state

  class ProfilePage {
    var formData: ProfileForm
    var isEditing: bool
    var updateSuccess: bool
    var fileUploadError: bool
    var filePerc: int
    var orders: seq<Order>
    var ordersLoading: bool
    var showOrderHistory: bool
    /** The form as the upload callbacks captured it when the upload began. */
    var uploadBase: ProfileForm

    constructor()
      ensures formData == EmptyForm && !isEditing && !updateSuccess && !fileUploadError && filePerc == 0
      ensures orders == [] && !ordersLoading && !showOrderHistory
    {
      formData := EmptyForm;
      isEditing := false;
      updateSuccess := false;
      fileUploadError := false;
      filePerc := 0;
      orders := [];
      ordersLoading := false;
      showOrderHistory := false;
      uploadBase := EmptyForm;
    }

    /** `handleChange`. */
    method HandleChange(i: Input, value: string)
      modifies this
      ensures formData == Edit(old(formData), i, value)
      ensures isEditing == old(isEditing) && orders == old(orders)
    {
      formData := Edit(formData, i, value);
    }

    /** `handleSubmit` up to the request: the body to send, or none when the
      form has nothing to send, in which case edit mode ends and the form
      is cleared at once. */
    method HandleSubmit() returns (request: Option<UserController.UserBody>)
      modifies this
      ensures request.None? <==> UpdateData(old(formData)) == EmptyBody
      ensures request.Some? ==>
        request.value == UpdateData(old(formData)) && formData == old(formData) && isEditing == old(isEditing)
        && updateSuccess == old(updateSuccess)
      ensures request.None? ==> formData == EmptyForm && !isEditing && updateSuccess
      ensures orders == old(orders) && fileUploadError == old(fileUploadError)
    {
      var d := BuildUpdateData(formData);
      if d == EmptyBody {
        isEditing := false;
        formData := EmptyForm;
        updateSuccess := true;
        return None;
      }
      request := Some(d);
    }

    /** The answer to the update request: on success edit mode ends and the
      form is cleared; a failure goes to the store and changes nothing
      here. */
    method HandleUpdateResponse(failed: bool)
      modifies this
      ensures failed ==> formData == old(formData) && isEditing == old(isEditing) && updateSuccess == old(updateSuccess)
      ensures !failed ==> formData == EmptyForm && !isEditing && updateSuccess
    {
      if !failed {
        updateSuccess := true;
        isEditing := false;
        formData := EmptyForm;
      }
    }

    /** `handleFileUpload`: resets the error and progress, then starts the
      upload only for an image of at most 2 MiB. */
    method HandleFileUpload(mimeType: string, size: int) returns (starts: bool)
      modifies this
      ensures starts <==> UploadAccepted(mimeType, size)
      ensures fileUploadError <==> !starts
      ensures filePerc == 0 && formData == old(formData)
      ensures starts ==> uploadBase == formData
      ensures !starts ==> uploadBase == old(uploadBase)
    {
      fileUploadError := false;
      filePerc := 0;
      if !StartsWith(mimeType, "image/") {
        fileUploadError := true;
        return false;
      }
      if size > MaxPictureSize {
        fileUploadError := true;
        return false;
      }
      uploadBase := formData;
      starts := true;
    }

    /** The upload finished with download address `url`: the avatar is set
      on the form the callback captured, so fields typed while the upload
      ran are set back to what they were when it began. */
    method UploadCompleted(url: string)
      modifies this
      ensures formData == old(uploadBase).(avatar := Some(url)) && !fileUploadError
    {
      formData := uploadBase.(avatar := Some(url));
      fileUploadError := false;
    }

    /** The upload itself failed: the error flag is set and the progress
      goes back to 0. */
    method UploadFailed()
      modifies this
      ensures fileUploadError && filePerc == 0 && formData == old(formData)
    {
      fileUploadError := true;
      filePerc := 0;
    }

    /** The upload finished but its download address could not be read:
      the error flag is set and the progress stays where it was. */
    method DownloadAddressFailed()
      modifies this
      ensures fileUploadError && filePerc == old(filePerc) && formData == old(formData)
    {
      fileUploadError := true;
    }

    /** `handleRemoveProfilePicture`. */
    method RemoveProfilePicture()
      modifies this
      ensures formData == old(formData).(avatar := Some("")) && !fileUploadError && filePerc == 0
    {
      formData := formData.(avatar := Some(""));
      fileUploadError := false;
      filePerc := 0;
    }

    /** `handleEditClick`. */
    method HandleEditClick(u: CurrentUser)
      modifies this
      ensures isEditing && formData == Prefill(u)
    {
      isEditing := true;
      formData := Prefill(u);
    }

    /** `handleCancelEdit`. */
    method HandleCancelEdit()
      modifies this
      ensures !isEditing && formData == EmptyForm && !fileUploadError && filePerc == 0
      ensures orders == old(orders)
    {
      isEditing := false;
      formData := EmptyForm;
      fileUploadError := false;
      filePerc := 0;
    }

    /** `handleShowOrderHistory`: flips the panel and asks for the history
      only when opening it with no orders loaded. */
    method HandleShowOrderHistory() returns (fetch: bool)
      modifies this
      ensures showOrderHistory == !old(showOrderHistory)
      ensures fetch <==> !old(showOrderHistory) && |orders| == 0
      ensures orders == old(orders) && formData == old(formData)
    {
      fetch := !showOrderHistory && |orders| == 0;
      showOrderHistory := !showOrderHistory;
    }

    /** `fetchOrderHistory` for user id `userId`, with the reply it gets:
      nothing happens without an id; a failed reply keeps the list. */
    method FetchOrderHistory(userId: Option<string>, response: OrdersResponse)
      modifies this
      ensures !Truthy(userId) ==> orders == old(orders) && ordersLoading == old(ordersLoading)
      ensures Truthy(userId) ==> !ordersLoading
      ensures Truthy(userId) && response.Loaded? ==> orders == response.orders.GetOr([])
      ensures response.Failed? ==> orders == old(orders)
      ensures showOrderHistory == old(showOrderHistory) && formData == old(formData)
    {
      if !Truthy(userId) {
        return;
      }
      ordersLoading := true;
      if response.Loaded? {
        orders := response.orders.GetOr([]);
      }
      ordersLoading := false;
    }
  }
}
