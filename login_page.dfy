/** The login page (src/pages/LoginPage.tsx): signing in by e-mail and password, and
    registering a new account that is then signed in. */
module LoginPage {
  import opened Types
  import opened AppContext

  /** The registration form's fields. */
  datatype RegisterForm = RegisterForm(name: string, email: string, password: string,
                                       phone: string, address: string)

  /** Index of the first user whose e-mail and password both match, |users| for none. */
  function CredentialIndex(users: seq<User>, email: string, password: string): (i: nat)
    ensures i <= |users|
    ensures i < |users| ==> users[i].email == email && users[i].password == password
    ensures forall k :: 0 <= k < i ==> !(users[k].email == email && users[k].password == password)
  {
    Lists.FindIndex(users, (u: User) => u.email == email && u.password == password)
  }

  /** Login: SET_CURRENT_USER with the first matching user, nothing (an alert) otherwise. */
  function LoginActions(users: seq<User>, email: string, password: string): (r: seq<Action>)
    ensures |r| <= 1
    ensures r == [] <==> forall k :: 0 <= k < |users| ==>
                          !(users[k].email == email && users[k].password == password)
  {
    var i := CredentialIndex(users, email, password);
    if i < |users| then [SetCurrentUser(Some(users[i]))] else []
  }

  /** A successful login makes the first matching user current and changes nothing else; a
      failed one changes no state at all. */
  lemma LoginEffect(s: State, email: string, password: string)
    ensures var t := ReduceAll(s, LoginActions(s.users, email, password));
      var i := CredentialIndex(s.users, email, password);
      && (i < |s.users| ==> t == s.(currentUser := Some(s.users[i])))
      && (i == |s.users| ==> t == s)
  {
    var i := CredentialIndex(s.users, email, password);
    if i < |s.users| {
      assert LoginActions(s.users, email, password) == [SetCurrentUser(Some(s.users[i]))];
      SignIn(s, s.users[i]);
    } else {
      assert LoginActions(s.users, email, password) == [];
    }
  }

  lemma SignIn(s: State, u: User)
    ensures ReduceAll(s, [SetCurrentUser(Some(u))]) == s.(currentUser := Some(u))
  {
    ReduceAllOne(s, SetCurrentUser(Some(u)));
  }

  /** The account a registration creates: never an administrator. */
  function NewUser(form: RegisterForm, id: string, now: string): (u: User)
    ensures !u.isAdmin && u.email == form.email && u.password == form.password
  {
    User(id, form.name, form.email, form.password, form.phone, form.address, false, now)
  }

  /** Registration: nothing (an alert) when the e-mail is taken, else ADD_USER then
      SET_CURRENT_USER with the new account. */
  function RegisterActions(users: seq<User>, form: RegisterForm, id: string, now: string)
    : (r: seq<Action>)
    ensures r == [] <==> EmailIndex(users, form.email) < |users|
  {
    if EmailIndex(users, form.email) < |users| then []
    else [AddUser(NewUser(form, id, now)), SetCurrentUser(Some(NewUser(form, id, now)))]
  }

  predicate DistinctEmails(users: seq<User>) {
    forall i, j :: 0 <= i < j < |users| ==> users[i].email != users[j].email
  }

  /** A taken e-mail leaves the state as it was; a new one appends exactly one non-admin user
      and makes it current; distinct e-mails stay distinct either way. */
  lemma RegisterEffect(s: State, form: RegisterForm, id: string, now: string)
    ensures var t := ReduceAll(s, RegisterActions(s.users, form, id, now));
      && (EmailIndex(s.users, form.email) < |s.users| ==> t == s)
      && (EmailIndex(s.users, form.email) == |s.users| ==>
            && t.users == s.users + [NewUser(form, id, now)]
            && t.currentUser == Some(NewUser(form, id, now))
            && t == s.(users := t.users, currentUser := t.currentUser))
      && (DistinctEmails(s.users) ==> DistinctEmails(t.users))
  {
    if EmailIndex(s.users, form.email) == |s.users| {
      var u := NewUser(form, id, now);
      AddUserThenSignIn(s, u);
      if DistinctEmails(s.users) {
        AppendKeepsDistinctEmails(s.users, u);
      }
    }
  }

  lemma AddUserThenSignIn(s: State, u: User)
    ensures ReduceAll(s, [AddUser(u), SetCurrentUser(Some(u))])
            == s.(users := s.users + [u], currentUser := Some(u))
  {
    ReduceAllTwo(s, AddUser(u), SetCurrentUser(Some(u)));
  }

  lemma AppendKeepsDistinctEmails(users: seq<User>, u: User)
    requires DistinctEmails(users) && EmailIndex(users, u.email) == |users|
    ensures DistinctEmails(users + [u])
  {
    var t := users + [u];
    forall i, j | 0 <= i < j < |t| ensures t[i].email != t[j].email {
      if j == |users| { assert t[i] == users[i]; } else { assert t[i] == users[i] && t[j] == users[j]; }
    }
  }

  method HandleLogin(store: Store, email: string, password: string)
    modifies store
    ensures store.state == ReduceAll(old(store.state), LoginActions(old(store.state).users, email, password))
  {
    store.DispatchAll(LoginActions(store.state.users, email, password));
  }

  method HandleRegister(store: Store, form: RegisterForm, id: string, now: string)
    modifies store
    ensures store.state == ReduceAll(old(store.state), RegisterActions(old(store.state).users, form, id, now))
  {
    store.DispatchAll(RegisterActions(store.state.users, form, id, now));
  }
}
