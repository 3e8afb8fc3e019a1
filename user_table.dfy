/** The administrator's user list, `client/src/pages/UserManagement/
    Usertable.jsx`: the case-insensitive search, the confirmed delete and the
    edit dialog that feeds the administrator's update. */
module UserTable {
  import opened Wrappers
  import opened Text
  import opened UserController

  /** `a` is `b` with some elements left out, the rest in their order. */
  ghost predicate Subsequence<T>(a: seq<T>, b: seq<T>)
    decreases |b|
  {
    if a == [] then true
    else if b == [] then false
    else (a[0] == b[0] && Subsequence(a[1..], b[1..])) || Subsequence(a, b[1..])
  }

  // ---------------------------------------------------------------------------
  // Search

  /** The search callback on `u` for the lowered query `needle`: whether it
      keeps the user, or `None` when it throws because the user name is
      missing, or the name does not match and the e-mail is missing. */
  function Keeps(u: User, needle: string): Option<bool> {
    if u.username.None? then None
    else if Includes(Lower(u.username.value), needle) then Some(true)
    else if u.email.None? then None
    else Some(Includes(Lower(u.email.value), needle))
  }

  /** `users.filter(callback)`: the kept users, or `None` when a call of
      the callback throws. */
  function FilterUsers(users: seq<User>, needle: string): (r: Option<seq<User>>)
    ensures r.Some? ==> |r.value| <= |users|
  {
    if users == [] then Some([])
    else match Keeps(users[0], needle)
      case None => None
      case Some(keep) =>
        match FilterUsers(users[1..], needle)
        case None => None
        case Some(rest) => Some(if keep then [users[0]] + rest else rest)
  }

  /** What `handleSearch` sets the results to for the loaded list `list`
      (`data.user`, missing before the first load) and query `q`; `None` when
      the handler throws and the results stay as they were. */
  function Search(list: Option<seq<User>>, q: string): Option<seq<User>> {
    if list.None? then Some([]) else FilterUsers(list.value, Lower(q))
  }

  /** The filter fails exactly when some user makes the callback throw;
      otherwise it keeps exactly the users the callback accepts, in their
      order. */
  lemma {:induction false} FilterMeaning(users: seq<User>, needle: string)
    ensures FilterUsers(users, needle).Some? <==> forall i :: 0 <= i < |users| ==> Keeps(users[i], needle).Some?
    ensures FilterUsers(users, needle).Some? ==>
      var r := FilterUsers(users, needle).value;
      && (forall x :: x in r <==> x in users && Keeps(x, needle) == Some(true))
      && Subsequence(r, users)
  {
    if users != [] {
      FilterMeaning(users[1..], needle);
      assert forall i :: 1 <= i < |users| ==> users[i] == users[1..][i - 1];
      assert users == [users[0]] + users[1..];
    }
  }

  /** With a user name on every user, the empty query keeps them all. */
  lemma {:induction false} EmptySearchKeepsAll(users: seq<User>)
    requires forall i :: 0 <= i < |users| ==> users[i].username.Some?
    ensures FilterUsers(users, Lower("")) == Some(users)
  {
    if users != [] {
      EmptyIncluded(Lower(users[0].username.value));
      EmptySearchKeepsAll(users[1..]);
      assert users == [users[0]] + users[1..];
    }
  }

  /** Lower-casing twice is lower-casing once. */
  lemma LowerTwice(s: string)
    ensures Lower(Lower(s)) == Lower(s)
  {
    assert forall i :: 0 <= i < |s| ==> Lower(Lower(s))[i] == LowerChar(Lower(s)[i]);
  }

  /** The query's letter case does not matter. */
  lemma SearchIgnoresCase(list: Option<seq<User>>, q: string)
    ensures Search(list, Lower(q)) == Search(list, q)
  {
    LowerTwice(q);
  }

  /** Searching the results again with the same query keeps them all. */
  lemma {:induction false} SearchTwice(users: seq<User>, needle: string)
    requires FilterUsers(users, needle).Some?
    ensures FilterUsers(FilterUsers(users, needle).value, needle) == FilterUsers(users, needle)
  {
    if users != [] {
      SearchTwice(users[1..], needle);
      var rest := FilterUsers(users[1..], needle).value;
      if Keeps(users[0], needle) == Some(true) {
        assert ([users[0]] + rest)[1..] == rest;
      }
    }
  }

  // ---------------------------------------------------------------------------
  // Delete

  /** `users.filter(promo => promo._id !== id)`; a `null` id keeps all. */
  function RemoveId(users: seq<User>, id: Option<string>): (r: seq<User>)
    ensures |r| <= |users|
    ensures forall x :: x in r <==> x in users && (id.None? || x.id != id.value)
  {
    if users == [] then []
    else
      var rest := RemoveId(users[1..], id);
      assert forall x :: x in users <==> x == users[0] || x in users[1..];
      if id.None? || users[0].id != id.value then [users[0]] + rest else rest
  }

  /** The users left keep their order, and nothing goes when no user has the
      id. */
  lemma {:induction false} RemoveIdKeepsOrder(users: seq<User>, id: string)
    ensures Subsequence(RemoveId(users, Some(id)), users)
    ensures (forall i :: 0 <= i < |users| ==> users[i].id != id) ==> RemoveId(users, Some(id)) == users
  {
    if users != [] {
      RemoveIdKeepsOrder(users[1..], id);
      assert users == [users[0]] + users[1..];
    }
  }

  /** The list the page keeps after a delete holds the same users as the
      server's collection after `deleteAllUsers` on the same id. */
  lemma ListMatchesServer(before: seq<User>, after: seq<User>, id: string)
    requires forall u :: u in after <==> u in before && u.id != id
    ensures forall u :: u in RemoveId(before, Some(id)) <==> u in after
  {
  }

  // ---------------------------------------------------------------------------
  // Edit

  /** The edit dialog's fields; an `undefined` one is left out of the
      request body. */
  datatype EditForm = EditForm(username: Option<string>, email: Option<string>, phonenumber: Option<string>,
                               address: Option<string>)

  const BlankEdit := EditForm(Some(""), Some(""), Some(""), Some(""))

  /** The dialog's four inputs. */
  datatype Input = Username | Email | PhoneNumber | Address

  /** `handleEdit`'s prefill: the user's four contact fields. */
  function EditPrefill(u: User): (f: EditForm)
    ensures f.username == u.username && f.email == u.email
    ensures f.phonenumber == u.phonenumber && f.address == u.address
  {
    EditForm(u.username, u.email, u.phonenumber, u.address)
  }

  function Edit(f: EditForm, i: Input, value: string): EditForm {
    match i
    case Username => f.(username := Some(value))
    case Email => f.(email := Some(value))
    case PhoneNumber => f.(phonenumber := Some(value))
    case Address => f.(address := Some(value))
  }

  /** The request body of `handleUpdate`. */
  function BodyOf(f: EditForm): (b: UserBody)
    ensures b.password.None? && b.avatar.None?
  {
    UserBody(f.username, f.email, f.phonenumber, f.address, None, None)
  }

  /** Saving the dialog unchanged leaves the user as stored. */
  lemma UnchangedEditKeepsUser(u: User)
    ensures AdminUpdate(u, BodyOf(EditPrefill(u))) == u
  {
  }

  /** Saving after typing `value` into one input stores that value in its
      field and leaves every other field of the user as it was. */
  lemma EditedFieldStored(u: User, i: Input, value: string)
    ensures var r := AdminUpdate(u, BodyOf(Edit(EditPrefill(u), i, value)));
      && r.id == u.id && r.password == u.password && r.avatar == u.avatar
      && r.username == (if i == Username then Some(value) else u.username)
      && r.email == (if i == Email then Some(value) else u.email)
      && r.phonenumber == (if i == PhoneNumber then Some(value) else u.phonenumber)
      && r.address == (if i == Address then Some(value) else u.address)
  {
  }

  // ---------------------------------------------------------------------------
  // The page state

  class UserTablePage {
    /** `data.user`: missing until the first load succeeds. */
    var data: Option<seq<User>>
    var searchQuery: string
    var searchResults: seq<User>
    var deleteId: Option<string>
    var editUser: Option<User>
    var formData: EditForm

    constructor()
      ensures data.None? && searchQuery == "" && searchResults == [] && deleteId.None? && editUser.None?
      ensures formData == BlankEdit
    {
      data := None;
      searchQuery := "";
      searchResults := [];
      deleteId := None;
      editUser := None;
      formData := BlankEdit;
    }

    /** `fetchData`, with the list the server returned, or `None` when the
        request failed and nothing changes. */
    method FetchData(response: Option<seq<User>>)
      modifies this
      ensures response.Some? ==> data == response && searchResults == response.value
      ensures response.None? ==> data == old(data) && searchResults == old(searchResults)
      ensures deleteId == old(deleteId) && editUser == old(editUser) && formData == old(formData)
    {
      if response.Some? {
        data := response;
        searchResults := response.value;
      }
    }

    method SetSearchQuery(q: string)
      modifies this
      ensures searchQuery == q && data == old(data) && searchResults == old(searchResults)
    {
      searchQuery := q;
    }

    /** `handleSearch`. */
    method HandleSearch()
      modifies this
      ensures Search(old(data), old(searchQuery)).Some? ==> searchResults == Search(old(data), old(searchQuery)).value
      ensures Search(old(data), old(searchQuery)).None? ==> searchResults == old(searchResults)
      ensures data == old(data) && searchQuery == old(searchQuery) && deleteId == old(deleteId)
    {
      var r := Search(data, searchQuery);
      if r.Some? {
        searchResults := r.value;
      }
    }

    /** `handleDeleteConfirmation`: opens the dialog for user `id`. */
    method HandleDeleteConfirmation(id: string)
      modifies this
      ensures deleteId == Some(id) && data == old(data) && searchResults == old(searchResults)
    {
      deleteId := Some(id);
    }

    /** `handleDeleteConfirmed`, with whether the server's delete succeeded;
        the dialog is only reachable from a row of the loaded list. The
        shown results are left for the page reload to refresh. */
    method HandleDeleteConfirmed(serverOk: bool)
      requires data.Some?
      modifies this
      ensures serverOk ==> data == Some(RemoveId(old(data).value, old(deleteId))) && deleteId.None?
      ensures !serverOk ==> data == old(data) && deleteId == old(deleteId)
      ensures searchResults == old(searchResults)
    {
      if serverOk {
        data := Some(RemoveId(data.value, deleteId));
        deleteId := None;
      }
    }

    /** `handleCancelDelete`. */
    method HandleCancelDelete()
      modifies this
      ensures deleteId.None? && data == old(data) && searchResults == old(searchResults)
      ensures editUser == old(editUser) && formData == old(formData)
    {
      deleteId := None;
    }

    /** `handleEdit`. */
    method HandleEdit(u: User)
      modifies this
      ensures editUser == Some(u) && formData == EditPrefill(u)
      ensures data == old(data) && deleteId == old(deleteId)
    {
      editUser := Some(u);
      formData := EditPrefill(u);
    }

    /** Typing into one of the dialog's inputs. */
    method HandleEditInput(i: Input, value: string)
      modifies this
      ensures formData == Edit(old(formData), i, value) && editUser == old(editUser)
    {
      formData := Edit(formData, i, value);
    }

    /** `handleUpdate`: the id and body of the administrator's update, then
        the dialog closes when the server accepted it. */
    method HandleUpdate(serverOk: bool) returns (id: string, body: UserBody)
      requires editUser.Some?
      modifies this
      ensures id == old(editUser).value.id && body == BodyOf(old(formData))
      ensures serverOk ==> editUser.None?
      ensures !serverOk ==> editUser == old(editUser)
      ensures formData == old(formData) && data == old(data)
    {
      id := editUser.value.id;
      body := BodyOf(formData);
      if serverOk {
        editUser := None;
      }
    }
  }
}
