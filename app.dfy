/** The state coordinator of the user-management screen: the list of users it
    shows, the form, and the handlers that change them once a request to the
    users API has resolved. Each request is an outcome the handler receives. */
module App {
  import opened Users

  datatype Option<T> = None | Some(value: T)

  /** What an awaited request produced: it threw (a transport error or a
      non-2xx status), or it resolved with the response's `data`. */
  datatype Outcome<T> = Failure | Success(data: T)

  /** What the submit button does: create a new user, or update the one
      whose id the form is editing. */
  datatype Action = Add | Edit(id: Id)

  /** The dispatch of the submit button as written: `editingUserId ? edit : add`,
      a test of JavaScript truthiness, so `null`, `0` and `''` all mean "add". */
  function SubmitAction(editing: Option<Id>): Action {
    if editing.Some? && Truthy(editing.value) then Edit(editing.value) else Add
  }

  /** The dispatch the screen's two modes call for: edit exactly when an id is
      set, whatever its value. */
  function IntendedSubmitAction(editing: Option<Id>): Action {
    match editing
    case None => Add
    case Some(id) => Edit(id)
  }

  /** As written, selecting a record whose id is `0` and submitting creates a
      new record instead of updating the selected one. */
  lemma SelectZeroIdThenSubmitAdds(u: User)
    requires u.id == Num(0)
    ensures SubmitAction(Some(u.id)) == Add
    ensures IntendedSubmitAction(Some(u.id)) == Edit(u.id)
  {
  }

  /** With the intended dispatch, selecting any record and submitting updates
      that record, and an empty selection creates. */
  lemma SelectThenSubmitUpdates(u: User)
    ensures IntendedSubmitAction(Some(u.id)) == Edit(u.id)
    ensures IntendedSubmitAction(None) == Add
  {
  }

  /** The two dispatches differ only on falsy ids. */
  lemma SubmitActionAgreesOnTruthyIds(editing: Option<Id>)
    ensures SubmitAction(editing) == IntendedSubmitAction(editing) <==> (editing.Some? ==> Truthy(editing.value))
  {
  }

  class AppState {
    var users: seq<User>
    var name: string
    var email: string
    var password: string
    var editingUserId: Option<Id>

    /** The initial state: no users, an empty form, create mode. */
    constructor ()
      ensures users == [] && Form() == NoFields && editingUserId == None
    {
      users := [];
      name, email, password := "", "", "";
      editingUserId := None;
    }

    /** The form's three values, as the object sent in a create or update. */
    function Form(): Fields
      reads this
    {
      Fields(name, email, password)
    }

    /** A successful fetch replaces the list by the server's sequence as
        returned; the form is never touched, and a failure changes nothing. */
    method FetchData(response: Outcome<seq<User>>)
      modifies this
      ensures response.Failure? ==> unchanged(this)
      ensures response.Success? ==> users == response.data
      ensures Form() == old(Form()) && editingUserId == old(editingUserId)
    {
      if response.Success? {
        users := response.data;
      }
    }

    /** A successful create appends the record the server returned after every
        existing one and clears the three form values; the editing id is left
        as it was. A failure changes nothing. */
    method HandleAddUser(response: Outcome<User>)
      modifies this
      ensures response.Failure? ==> unchanged(this)
      ensures response.Success? ==> users == old(users) + [response.data] && Form() == NoFields
      ensures editingUserId == old(editingUserId)
    {
      if response.Success? {
        users := users + [response.data];
        name := "";
        email := "";
        password := "";
      }
    }

    /** A successful update of `id` merges the form values into every record
        carrying `id` (MergeById), clears the form and leaves edit mode. A
        failure changes nothing. */
    method HandleEditUser(id: Id, ok: bool)
      modifies this
      ensures !ok ==> unchanged(this)
      ensures ok ==> users == MergeById(old(users), id, old(Form()))
      ensures ok ==> Form() == NoFields && editingUserId == None
    {
      if ok {
        var edited := Form();
        users := MergeById(users, id, edited);
        name := "";
        email := "";
        password := "";
        editingUserId := None;
      }
    }

    /** A successful delete of `id` drops every record carrying `id`
        (RemoveById); the form is never touched, and a failure changes nothing. */
    method HandleDeleteUser(id: Id, ok: bool)
      modifies this
      ensures !ok ==> unchanged(this)
      ensures ok ==> users == RemoveById(old(users), id)
      ensures Form() == old(Form()) && editingUserId == old(editingUserId)
    {
      if ok {
        users := RemoveById(users, id);
      }
    }

    /** Selecting a record loads its three values into the form and its id as
        the editing id; the list is not touched. */
    method HandleEdit(user: User)
      modifies this
      ensures users == old(users)
      ensures Form() == user.FormFields() && editingUserId == Some(user.id)
    {
      name := user.name;
      email := user.email;
      password := user.password;
      editingUserId := Some(user.id);
    }

    /** The name input. */
    method SetName(text: string)
      modifies this
      ensures name == text
      ensures users == old(users) && email == old(email) && password == old(password)
      ensures editingUserId == old(editingUserId)
    {
      name := text;
    }

    /** The email input. */
    method SetEmail(text: string)
      modifies this
      ensures email == text
      ensures users == old(users) && name == old(name) && password == old(password)
      ensures editingUserId == old(editingUserId)
    {
      email := text;
    }

    /** The password input. */
    method SetPassword(text: string)
      modifies this
      ensures password == text
      ensures users == old(users) && name == old(name) && email == old(email)
      ensures editingUserId == old(editingUserId)
    {
      password := text;
    }

    /** The submit button: an update of the editing id when that id is truthy,
        a create otherwise. `response` is the outcome of the request issued;
        for an update only its success matters, since the body is ignored. */
    method Submit(response: Outcome<User>) returns (action: Action)
      modifies this
      ensures action == SubmitAction(old(editingUserId))
      ensures response.Failure? ==> unchanged(this)
      ensures action == Add && response.Success? ==>
        users == old(users) + [response.data] && Form() == NoFields && editingUserId == old(editingUserId)
      ensures action.Edit? && response.Success? ==>
        users == MergeById(old(users), action.id, old(Form())) && Form() == NoFields && editingUserId == None
    {
      action := SubmitAction(editingUserId);
      match action
      case Add =>
        HandleAddUser(response);
      case Edit(id) =>
        HandleEditUser(id, response.Success?);
    }

    /** The submit button with the intended dispatch: an update whenever an
        editing id is set, a create otherwise. */
    method SubmitAsIntended(response: Outcome<User>) returns (action: Action)
      modifies this
      ensures action == IntendedSubmitAction(old(editingUserId))
      ensures response.Failure? ==> unchanged(this)
      ensures action == Add && response.Success? ==>
        users == old(users) + [response.data] && Form() == NoFields && editingUserId == old(editingUserId)
      ensures action.Edit? && response.Success? ==>
        users == MergeById(old(users), action.id, old(Form())) && Form() == NoFields && editingUserId == None
    {
      action := IntendedSubmitAction(editingUserId);
      match action
      case Add =>
        HandleAddUser(response);
      case Edit(id) =>
        HandleEditUser(id, response.Success?);
    }
  }

  /** The example sessions of the design: a delete that empties a one-record
      list, a create appended after the existing record, and an edit of a
      selected record that a later submit writes back. */
  method ExampleSession()
  {
    var a := User(Num(1), "A", "a@x.com", "", map[]);
    var app := new AppState();
    app.FetchData(Success([a]));
    assert app.users == [a];
    app.HandleDeleteUser(Num(1), true);
    assert app.users == [];

    app.FetchData(Success([a]));
    app.SetName("B");
    app.SetEmail("b@x.com");
    app.SetPassword("pw");
    var b := User(Num(2), "B", "b@x.com", "pw", map[]);
    var action := app.Submit(Success(b));
    assert action == Add;
    assert app.users == [a, b];

    app.HandleEdit(a);
    app.SetEmail("a@y.com");
    action := app.Submit(Success(b));
    assert action == Edit(Num(1));
    assert app.users == [a.(email := "a@y.com"), b];
    assert app.Form() == NoFields && app.editingUserId == None;

    app.HandleEdit(a);
    app.SetName("C");
    action := app.Submit(Failure);
    assert app.users == [a.(email := "a@y.com"), b] && app.name == "C";

    // A record whose id is 0: as written, submitting after selecting it
    // creates a second record; with the intended dispatch it updates it.
    var z := User(Num(0), "Z", "z@x.com", "pz", map[]);
    var created := User(Num(3), "Z", "z@x.com", "pz", map[]);
    app.FetchData(Success([z]));
    app.HandleEdit(z);
    action := app.Submit(Success(created));
    assert action == Add;
    assert app.users == [z, created];

    app.FetchData(Success([z]));
    app.HandleEdit(z);
    app.SetName("Y");
    action := app.SubmitAsIntended(Success(created));
    assert action == Edit(Num(0));
    assert app.users == [z.(name := "Y")];
  }
}
