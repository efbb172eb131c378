/** The user administration page (src/pages/Admin.jsx): the list of users, a
    modal form that creates or edits one user, and deletion behind a
    confirmation prompt. */
module Admin {
  import opened Ui

  datatype User = User(id: string, name: string, isAdmin: bool)

  /** The modal form's record. */
  datatype UserForm = UserForm(name: string, password: string)

  const EmptyForm := UserForm("", "")

  /** The body of a create or update request. */
  datatype Payload = Payload(name: string, password: string, isAdmin: bool)

  datatype Call =
    | ListUsers
    | CreateUser(payload: Payload)
    | UpdateUser(id: string, payload: Payload)
    | DeleteUser(id: string)

  function Verb(c: Call): string
  {
    match c
    case ListUsers => "GET"
    case CreateUser(_) => "POST"
    case UpdateUser(_, _) => "PUT"
    case DeleteUser(_) => "DELETE"
  }

  function Path(c: Call): string
  {
    match c
    case ListUsers => "/users"
    case CreateUser(_) => "/users"
    case UpdateUser(id, _) => "/users/" + id
    case DeleteUser(id) => "/users/" + id
  }

  /** The request a submit sends: PUT to the edited user, or POST to the
      collection, carrying the form's name and password; the page never grants
      administrator rights. */
  function SubmitCall(editing: Option<User>, form: UserForm): (c: Call)
    ensures c.CreateUser? || c.UpdateUser?
    ensures c.payload.name == form.name && c.payload.password == form.password
    ensures !c.payload.isAdmin
    ensures editing.Some? ==> Verb(c) == "PUT" && Path(c) == "/users/" + editing.value.id
    ensures editing.None? ==> Verb(c) == "POST" && Path(c) == "/users"
  {
    var payload := Payload(form.name, form.password, false);
    match editing
    case Some(u) => UpdateUser(u.id, payload)
    case None => CreateUser(payload)
  }

  /** The buttons in a user's row. */
  datatype RowAction = EditButton | DeleteButton

  /** Every row can be edited; every row but the one named exactly "admin"
      can be deleted. */
  function RowActions(u: User): (actions: seq<RowAction>)
    ensures EditButton in actions
    ensures DeleteButton in actions <==> u.name != "admin"
  {
    [EditButton] + if u.name != "admin" then [DeleteButton] else []
  }

  /** The protection looks at the name only: neither the administrator flag
      nor the id makes a difference. */
  lemma ProtectionIsByName(u: User, id: string, isAdmin: bool)
    ensures RowActions(u.(id := id, isAdmin := isAdmin)) == RowActions(u)
  {
  }

  class AdminPage {
    var users: seq<User>
    var showModal: bool
    var editingUser: Option<User>
    var formData: UserForm

    constructor ()
      ensures users == [] && !showModal && editingUser == None && formData == EmptyForm
    {
      users, showModal, editingUser, formData := [], false, None, EmptyForm;
    }

    /** The modal is shut, edits nobody and holds an empty form. */
    predicate Closed()
      reads this
    {
      !showModal && editingUser == None && formData == EmptyForm
    }

    /** fetchUsers: replace the list with the server's answer; a failure
        leaves it as it was. */
    method FetchUsers(response: Response<seq<User>>) returns (call: Call)
      modifies this`users
      ensures call == ListUsers
      ensures users == if response.Ok? then response.data else old(users)
    {
      call := ListUsers;
      if response.Ok? {
        users := response.data;
      }
    }

    /** handleShow: open the modal on a user to edit (or on nobody, to create),
        with that user's name and an empty password. */
    method HandleShow(user: Option<User>)
      modifies this`editingUser, this`formData, this`showModal
      ensures editingUser == user && showModal
      ensures formData.password == ""
      ensures formData.name == if user.Some? then user.value.name else ""
    {
      editingUser := user;
      formData := UserForm(if user.Some? && user.value.name != "" then user.value.name else "", "");
      showModal := true;
    }

    /** handleClose: shut the modal and forget the form and the edited user. */
    method HandleClose()
      modifies this`showModal, this`formData, this`editingUser
      ensures Closed()
    {
      showModal := false;
      formData := EmptyForm;
      editingUser := None;
    }

    /** The name input's change handler. */
    method ChangeName(value: string)
      modifies this`formData
      ensures formData == old(formData).(name := value)
    {
      formData := formData.(name := value);
    }

    /** The password input's change handler. */
    method ChangePassword(value: string)
      modifies this`formData
      ensures formData == old(formData).(password := value)
    {
      formData := formData.(password := value);
    }

    /** handleSubmit: send the create or update request. On success announce
        it, close the modal and reload the users; a failed reload is reported
        like a failed save, after the modal has closed. A failed save leaves
        everything as it was. The name input is `required`, so the browser
        runs the handler only with a non-empty name. */
    method HandleSubmit(save: Response<()>, reload: Response<seq<User>>)
      returns (calls: seq<Call>, toasts: seq<Toast>)
      requires formData.name != ""
      modifies this`showModal, this`editingUser, this`formData, this`users
      ensures calls != [] && calls[0] == SubmitCall(old(editingUser), old(formData))
      ensures save.Err? ==>
                calls == [SubmitCall(old(editingUser), old(formData))] &&
                toasts == [Error(AnyMessageOr(save.failure, "Error saving user"))] &&
                showModal == old(showModal) && editingUser == old(editingUser) &&
                formData == old(formData) && users == old(users)
      ensures save.Ok? ==>
                Closed() && calls == [SubmitCall(old(editingUser), old(formData)), ListUsers] &&
                users == (if reload.Ok? then reload.data else old(users)) &&
                toasts == [Success(if old(editingUser).Some? then "User updated" else "User created")] +
                          (if reload.Ok? then [] else [Error(AnyMessageOr(reload.failure, "Error saving user"))])
    {
      var call := SubmitCall(editingUser, formData);
      calls := [call];
      match save
      case Err(f) =>
        toasts := [Error(AnyMessageOr(f, "Error saving user"))];
      case Ok(_) =>
        toasts := [Success(if editingUser.Some? then "User updated" else "User created")];
        HandleClose();
        var list := FetchUsers(reload);
        calls := calls + [list];
        if reload.Err? {
          toasts := toasts + [Error(AnyMessageOr(reload.failure, "Error saving user"))];
        }
    }

    /** handleDelete: nothing happens unless the prompt is confirmed; then the
        user is deleted and the list reloaded, and a failure of either is
        reported. */
    method HandleDelete(id: string, confirmed: bool, outcome: Response<()>, reload: Response<seq<User>>)
      returns (calls: seq<Call>, toasts: seq<Toast>)
      modifies this`users
      ensures !confirmed ==> calls == [] && toasts == [] && users == old(users)
      ensures confirmed ==> calls != [] && calls[0] == DeleteUser(id) && Path(calls[0]) == "/users/" + id
      ensures confirmed && outcome.Err? ==>
                calls == [DeleteUser(id)] && users == old(users) &&
                toasts == [Error(AnyMessageOr(outcome.failure, "Delete failed"))]
      ensures confirmed && outcome.Ok? ==>
                calls == [DeleteUser(id), ListUsers] &&
                users == (if reload.Ok? then reload.data else old(users)) &&
                toasts == [Success("User deleted")] +
                          (if reload.Ok? then [] else [Error(AnyMessageOr(reload.failure, "Delete failed"))])
    {
      calls, toasts := [], [];
      if !confirmed {
        return;
      }
      calls := [DeleteUser(id)];
      match outcome
      case Err(f) =>
        toasts := [Error(AnyMessageOr(f, "Delete failed"))];
      case Ok(_) =>
        toasts := [Success("User deleted")];
        var list := FetchUsers(reload);
        calls := calls + [list];
        if reload.Err? {
          toasts := toasts + [Error(AnyMessageOr(reload.failure, "Delete failed"))];
        }
    }
  }

  /** Whatever user the modal was opened on, closing it returns the page to
      the closed state, with the list untouched. */
  method ShowThenClose(page: AdminPage, user: Option<User>)
    modifies page
    ensures page.Closed() && page.users == old(page.users)
  {
    page.HandleShow(user);
    page.HandleClose();
  }

  /** A successful edit ends with the modal closed whatever the reload did. */
  method EditAndSave(page: AdminPage, u: User, newName: string, reload: Response<seq<User>>)
    returns (calls: seq<Call>)
    requires newName != ""
    modifies page
    ensures page.Closed()
    ensures calls != [] && calls[0] == UpdateUser(u.id, Payload(newName, "", false))
  {
    page.HandleShow(Some(u));
    page.ChangeName(newName);
    var toasts;
    calls, toasts := page.HandleSubmit(Ok(()), reload);
  }
}
