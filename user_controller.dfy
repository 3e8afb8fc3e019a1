/** The customer account handlers of `server/controllers/user.controller.js`:
    self-service update and delete guarded by the signed-in user's id, the
    administrator's update and delete, and the password-reset pair. */
module UserController {
  import opened Wrappers

  /** A stored user; the password field holds a hash. */
  datatype User = User(id: string, username: Option<string>, email: Option<string>, phonenumber: Option<string>,
                       address: Option<string>, password: Option<string>, avatar: Option<string>)

  /** A user as sent back by `updateUser`: every field but the password. */
  datatype UserView = UserView(id: string, username: Option<string>, email: Option<string>,
                               phonenumber: Option<string>, address: Option<string>, avatar: Option<string>)

  /** The request body fields the handlers read; JSON leaves any out. */
  datatype UserBody = UserBody(username: Option<string>, email: Option<string>, phonenumber: Option<string>,
                               address: Option<string>, password: Option<string>, avatar: Option<string>)

  const UpdateOwnOnly := "You can only update your own account!"
  const DeleteOwnOnly := "You can only delete your own account!"
  const UserDeleted := "User has been deleted!"
  const UserNotFound := "User not found!"
  const InvalidToken := "Invalid or expired token!"
  const ResetSubject := "Password Reset Request"
  const ResetLinkBase := "http://localhost:5173/reset-password/"

  /** A `$set` entry: an `undefined` value leaves the field as it was. */
  function SetField(current: Option<string>, given: Option<string>): (r: Option<string>)
    ensures given.Some? ==> r == given
    ensures given.None? ==> r == current
  {
    if given.Some? then given else current
  }

  function View(u: User): (v: UserView)
    ensures v.id == u.id && v.username == u.username && v.email == u.email && v.avatar == u.avatar
    ensures v.phonenumber == u.phonenumber && v.address == u.address
  {
    UserView(u.id, u.username, u.email, u.phonenumber, u.address, u.avatar)
  }

  /** The position of the user with id `id`. */
  function FindId(docs: seq<User>, id: string): (r: Option<nat>)
    ensures r.Some? ==> r.value < |docs| && docs[r.value].id == id
    ensures r.None? ==> forall j :: 0 <= j < |docs| ==> docs[j].id != id
  {
    if docs == [] then None
    else if docs[0].id == id then Some(0)
    else match FindId(docs[1..], id)
      case None => None
      case Some(k) => Some(k + 1)
  }

  /** `findOne({ email })`; with no e-mail the filter is empty and the
      first user matches. */
  function FindEmail(docs: seq<User>, email: Option<string>): (r: Option<nat>)
    ensures r.Some? ==> r.value < |docs| && (email.None? || docs[r.value].email == email)
    ensures r.None? ==> email.Some? ==> forall j :: 0 <= j < |docs| ==> docs[j].email != email
    ensures email.None? ==> (r.Some? <==> docs != [])
  {
    if docs == [] then None
    else if email.None? || docs[0].email == email then Some(0)
    else match FindEmail(docs[1..], email)
      case None => None
      case Some(k) => Some(k + 1)
  }

  /** The self-service update applied to `u`: the six fields of the body,
      the password replaced by `hashed` when one was given. */
  function SelfUpdate(u: User, b: UserBody, hashed: string): (r: User)
    ensures r.id == u.id
    ensures b.password.Some? && b.password.value != "" ==> r.password == Some(hashed)
    ensures b.password.None? ==> r.password == u.password
    ensures b.password == Some("") ==> r.password == Some("")
    ensures r.username == SetField(u.username, b.username) && r.email == SetField(u.email, b.email)
    ensures r.phonenumber == SetField(u.phonenumber, b.phonenumber) && r.address == SetField(u.address, b.address)
    ensures r.avatar == SetField(u.avatar, b.avatar)
  {
    var password := if Truthy(b.password) then Some(hashed) else b.password;
    User(u.id, SetField(u.username, b.username), SetField(u.email, b.email),
         SetField(u.phonenumber, b.phonenumber), SetField(u.address, b.address),
         SetField(u.password, password), SetField(u.avatar, b.avatar))
  }

  /** The administrator's update applied to `u`: four fields only. */
  function AdminUpdate(u: User, b: UserBody): (r: User)
    ensures r.id == u.id && r.password == u.password && r.avatar == u.avatar
    ensures r.username == SetField(u.username, b.username) && r.email == SetField(u.email, b.email)
    ensures r.phonenumber == SetField(u.phonenumber, b.phonenumber) && r.address == SetField(u.address, b.address)
  {
    u.(username := SetField(u.username, b.username), email := SetField(u.email, b.email),
       phonenumber := SetField(u.phonenumber, b.phonenumber), address := SetField(u.address, b.address))
  }

  /** The reset mail `forgotPassword` sends. */
  datatype Mail = Mail(to: Option<string>, subject: string, text: string)

  /** The mail's text for reset token `token`. */
  function ResetText(token: string): string {
    "Click here to reset your password: " + ResetLinkBase + token
  }

  class UserStore {
    var docs: seq<User>

    ghost predicate Valid()
      reads this
    {
      forall i, j :: 0 <= i < j < |docs| ==> docs[i].id != docs[j].id
    }

    constructor(users: seq<User>)
      requires forall i, j :: 0 <= i < j < |users| ==> users[i].id != users[j].id
      ensures Valid() && docs == users
    {
      docs := users;
    }

    /** `updateUser` for signed-in user `authId` on user `id`; `hashed` is
        the hash of the given password. A target that no longer exists
        makes the handler read a field of null, which ends in a 500. */
    method UpdateUser(authId: string, id: string, b: UserBody, hashed: string) returns (r: Reply<UserView>)
      requires Valid()
      modifies this
      ensures Valid()
      ensures authId != id ==> r == Fail(401, UpdateOwnOnly) && docs == old(docs)
      ensures authId == id && FindId(old(docs), id).None? ==> r.Fail? && r.code == 500 && docs == old(docs)
      ensures authId == id && FindId(old(docs), id).Some? ==>
        var k := FindId(old(docs), id).value;
        var u := SelfUpdate(old(docs)[k], b, hashed);
        docs == old(docs)[k := u] && r == Ok(200, View(u))
    {
      if authId != id {
        return Fail(401, UpdateOwnOnly);
      }
      var found := FindId(docs, id);
      if found.None? {
        return Fail(500, "Cannot read properties of null (reading '_doc')");
      }
      var k := found.value;
      var u := SelfUpdate(docs[k], b, hashed);
      docs := docs[k := u];
      r := Ok(200, View(u));
    }

    /** `deleteUser`: only one's own account; a missing one is still
        reported deleted. */
    method DeleteUser(authId: string, id: string) returns (r: Reply<string>)
      requires Valid()
      modifies this
      ensures Valid()
      ensures authId != id ==> r == Fail(401, DeleteOwnOnly) && docs == old(docs)
      ensures authId == id ==> r == Ok(200, UserDeleted)
      ensures authId == id ==> forall u :: u in docs <==> u in old(docs) && u.id != id
    {
      if authId != id {
        return Fail(401, DeleteOwnOnly);
      }
      Remove(id);
      r := Ok(200, UserDeleted);
    }

    /** `deleteAllUsers`: despite its name, the administrator's delete of the
        one user with that id. */
    method DeleteAllUsers(id: string) returns (r: Reply<User>)
      requires Valid()
      modifies this
      ensures Valid()
      ensures FindId(old(docs), id).None? <==> r == Fail(404, UserNotFound)
      ensures r.Ok? ==> r.code == 200 && r.value in old(docs) && r.value.id == id
      ensures forall u :: u in docs <==> u in old(docs) && u.id != id
    {
      var found := FindId(docs, id);
      if found.None? {
        return Fail(404, UserNotFound);
      }
      r := Ok(200, docs[found.value]);
      Remove(id);
    }

    /** `findByIdAndDelete`. */
    method Remove(id: string)
      requires Valid()
      modifies this
      ensures Valid()
      ensures forall u :: u in docs <==> u in old(docs) && u.id != id
      ensures FindId(old(docs), id).None? ==> docs == old(docs)
    {
      var found := FindId(docs, id);
      if found.Some? {
        var k := found.value;
        forall u | u in docs && u.id != id
          ensures u in docs[..k] + docs[k + 1..]
        {
          var i :| 0 <= i < |docs| && docs[i] == u;
          if i < k {
            assert docs[..k][i] == u;
          } else {
            assert docs[k + 1..][i - k - 1] == u;
          }
        }
        docs := docs[..k] + docs[k + 1..];
      }
    }

    /** `getUsers`: the whole collection, never the not-found branch. */
    method GetUsers() returns (r: Reply<seq<User>>)
      ensures r == Ok(200, docs)
    {
      r := Ok(200, docs);
    }

    /** `adminUpdateUser`: sets user name, e-mail, phone number and address
        of any user. */
    method AdminUpdateUser(id: string, b: UserBody) returns (r: Reply<User>)
      requires Valid()
      modifies this
      ensures Valid()
      ensures FindId(old(docs), id).None? ==> r == Fail(404, UserNotFound) && docs == old(docs)
      ensures FindId(old(docs), id).Some? ==>
        var k := FindId(old(docs), id).value;
        var u := AdminUpdate(old(docs)[k], b);
        docs == old(docs)[k := u] && r == Ok(200, u)
    {
      var found := FindId(docs, id);
      if found.None? {
        return Fail(404, UserNotFound);
      }
      var k := found.value;
      var u := AdminUpdate(docs[k], b);
      docs := docs[k := u];
      r := Ok(200, u);
    }

    /** `forgotPassword`: `sign` makes the 15-minute reset token of a user
        id, and `delivered` is whether the mail server accepted a message
        that has a recipient; one without a recipient (no e-mail in the
        body) is always refused, which ends in a 500. */
    method ForgotPassword(email: Option<string>, sign: string -> string, delivered: bool)
      returns (r: Reply<string>, mail: Option<Mail>)
      ensures FindEmail(docs, email).None? <==> r == Fail(404, UserNotFound)
      ensures FindEmail(docs, email).None? ==> mail.None?
      ensures FindEmail(docs, email).Some? ==>
        var u := docs[FindEmail(docs, email).value];
        mail == Some(Mail(email, ResetSubject, ResetText(sign(u.id))))
        && r == if delivered && email.Some? then Ok(200, "Password reset link sent to email!")
                else Fail(500, "Internal Server Error")
      ensures r.Ok? ==> email.Some? && mail.Some? && mail.value.to == email
    {
      var found := FindEmail(docs, email);
      if found.None? {
        return Fail(404, UserNotFound), None;
      }
      var u := docs[found.value];
      mail := Some(Mail(email, ResetSubject, ResetText(sign(u.id))));
      if !delivered || email.None? {
        return Fail(500, "Internal Server Error"), mail;
      }
      r := Ok(200, "Password reset link sent to email!");
    }

    /** `resetPassword`: `tokenId` is the id the token verifies to, `None`
        when it does not verify; `hashed` the hash of the new password. */
    method ResetPassword(tokenId: Option<string>, password: Option<string>, hashed: string) returns (r: Reply<string>)
      requires Valid()
      modifies this
      ensures Valid()
      ensures tokenId.None? || password.None? ==> r == Fail(400, InvalidToken) && docs == old(docs)
      ensures tokenId.Some? && password.Some? ==> r == Ok(200, "Password reset successfully!")
      ensures tokenId.Some? && password.Some? && FindId(old(docs), tokenId.value).Some? ==>
        var k := FindId(old(docs), tokenId.value).value;
        docs == old(docs)[k := old(docs)[k].(password := Some(hashed))]
      ensures tokenId.Some? && FindId(old(docs), tokenId.value).None? ==> docs == old(docs)
    {
      if tokenId.None? || password.None? {
        return Fail(400, InvalidToken);
      }
      var found := FindId(docs, tokenId.value);
      if found.Some? {
        var k := found.value;
        docs := docs[k := docs[k].(password := Some(hashed))];
      }
      r := Ok(200, "Password reset successfully!");
    }
  }

  /** The link `forgotPassword` mails leads `resetPassword` back to the user
      who asked: with distinct ids and a token that verifies to the id it was
      signed for, the reset changes that user's password and no other. */
  lemma ResetLinkFindsRequester(docs: seq<User>, email: string, sign: string -> string,
                                verify: string -> Option<string>)
    requires forall i, j :: 0 <= i < j < |docs| ==> docs[i].id != docs[j].id
    requires forall id :: verify(sign(id)) == Some(id)
    requires FindEmail(docs, Some(email)).Some?
    ensures var k := FindEmail(docs, Some(email)).value;
      var tokenId := verify(sign(docs[k].id));
      && docs[k].email == Some(email)
      && tokenId.Some? && FindId(docs, tokenId.value) == Some(k)
  {
    var k := FindEmail(docs, Some(email)).value;
    FindIdUnique(docs, k);
  }

  /** With distinct ids, looking up the id at position `k` finds `k`. */
  lemma {:induction false} FindIdUnique(docs: seq<User>, k: nat)
    requires forall i, j :: 0 <= i < j < |docs| ==> docs[i].id != docs[j].id
    requires k < |docs|
    ensures FindId(docs, docs[k].id) == Some(k)
  {
    if k > 0 {
      FindIdUnique(docs[1..], k - 1);
    }
  }

  /** Updating one's own account with a body that carries nothing changes
      nothing. */
  lemma EmptyBodyChangesNothing(u: User, hashed: string)
    ensures SelfUpdate(u, UserBody(None, None, None, None, None, None), hashed) == u
    ensures AdminUpdate(u, UserBody(None, None, None, None, None, None)) == u
  {
  }
}
