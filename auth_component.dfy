/** The sign-in form (src/components/AuthComponent.tsx): the username flow
    over the plaintext `users` table (log in when a record matches both
    fields, register when the name is free) and the error wording of the
    e-mail flow. The authentication backend is the caller's: the uid it
    gives the anonymous session and any error it throws are inputs. */
module AuthComponent {
  import opened FamilyTypes
  import FamilyStore

  /** A record of the `users` collection. */
  datatype Credential = Credential(username: string, password: string)

  /** The session handed to `onAuthStateChange`: the backend user and the
      display name this form set on it (`None` when it set none). */
  datatype Session = Session(user: FamilyStore.User, displayName: Option<string>)

  /** How one press of the username button ends. */
  datatype UsernameOutcome =
    | MissingInput        // empty username or password: nothing is queried
    | LoginRejected       // no record matches both fields
    | LoggedIn(session: Session)
    | UsernameTaken       // registration refused
    | Registered          // one record added, form switched to login
    | Failed(message: string)

  /** `where('username', '==', u), where('password', '==', p)` is not empty. */
  predicate HasMatch(users: seq<Credential>, username: string, password: string)
  {
    exists i | 0 <= i < |users| :: users[i].username == username && users[i].password == password
  }

  /** `where('username', '==', u)` is not empty. */
  predicate NameTaken(users: seq<Credential>, username: string)
  {
    exists i | 0 <= i < |users| :: users[i].username == username
  }

  /** The message shown for an e-mail sign-in error: three known codes get
      fixed wording, any other error shows its own message. */
  function EmailErrorMessage(code: string, message: string): (r: string)
    ensures code == "auth/user-not-found" ==> r == "ユーザーが見つかりません"
    ensures code == "auth/wrong-password" ==> r == "パスワードが間違っています"
    ensures code == "auth/email-already-in-use" ==> r == "このメールアドレスは既に使用されています"
    ensures code !in {"auth/user-not-found", "auth/wrong-password", "auth/email-already-in-use"} ==> r == message
  {
    if code == "auth/user-not-found" then "ユーザーが見つかりません"
    else if code == "auth/wrong-password" then "パスワードが間違っています"
    else if code == "auth/email-already-in-use" then "このメールアドレスは既に使用されています"
    else message
  }

  const EmailErrorPrefix: string := "認証エラー: "

  /** The message shown when the e-mail or the password is empty. */
  const MissingEmailInput: string := "メールアドレスとパスワードを入力してください"

  /** An error the backend throws: its code and message. */
  datatype AuthError = AuthError(code: string, message: string)

  class AuthForm {
    var isLogin: bool
    var username: string
    var password: string
    var email: string
    var loading: bool
    /** The `users` collection. */
    var users: seq<Credential>
    /** The last session handed to `onAuthStateChange`. */
    var session: Option<Session>

    constructor(users: seq<Credential>)
      ensures isLogin && username == "" && password == "" && email == "" && !loading
      ensures this.users == users && session.None?
    {
      isLogin := true;
      username := "";
      password := "";
      email := "";
      loading := false;
      this.users := users;
      session := None;
    }

    /** `handleUsernameLogin`. `newUid` is the uid of the anonymous session
        the backend would open; `queryError` is the error of the first
        awaited call, when it throws. */
    method HandleUsernameLogin(newUid: string, queryError: Option<string>) returns (o: UsernameOutcome)
      modifies this
      ensures username == old(username) && password == old(password) && email == old(email)
      ensures old(username) == "" || old(password) == "" ==>
                o == MissingInput && loading == old(loading) && users == old(users) &&
                session == old(session) && isLogin == old(isLogin)
      ensures old(username) != "" && old(password) != "" ==> !loading
      ensures old(username) != "" && old(password) != "" && queryError.Some? ==>
                o == Failed(queryError.value) && users == old(users) && session == old(session) &&
                isLogin == old(isLogin)
      ensures old(username) != "" && old(password) != "" && queryError.None? && old(isLogin) ==>
                users == old(users) && isLogin &&
                (HasMatch(old(users), old(username), old(password)) ==>
                   o == LoggedIn(Session(FamilyStore.User(newUid, None), Some(old(username)))) && session == Some(o.session)) &&
                (!HasMatch(old(users), old(username), old(password)) ==> o == LoginRejected && session == old(session))
      ensures old(username) != "" && old(password) != "" && queryError.None? && !old(isLogin) ==>
                session == old(session) &&
                (NameTaken(old(users), old(username)) ==> o == UsernameTaken && users == old(users) && !isLogin) &&
                (!NameTaken(old(users), old(username)) ==>
                   o == Registered && users == old(users) + [Credential(old(username), old(password))] && isLogin)
    {
      if username == "" || password == "" {
        return MissingInput;
      }
      loading := true;
      if queryError.Some? {
        o := Failed(queryError.value);
      } else if isLogin {
        if HasMatch(users, username, password) {
          var s := Session(FamilyStore.User(newUid, None), Some(username));
          session := Some(s);
          o := LoggedIn(s);
        } else {
          o := LoginRejected;
        }
      } else {
        if NameTaken(users, username) {
          o := UsernameTaken;
        } else {
          users := users + [Credential(username, password)];
          isLogin := true;
          o := Registered;
        }
      }
      loading := false;
    }

    /** `handleEmailLogin`: refused with a message on an empty e-mail or
        password; otherwise signs in or registers, and an error is shown with
        the wording of `EmailErrorMessage`. Returns the error message shown,
        if any. */
    method HandleEmailLogin(backendUser: FamilyStore.User, error: Option<AuthError>) returns (shown: Option<string>)
      modifies this
      ensures old(email) == "" || old(password) == "" ==>
                shown == Some(MissingEmailInput) && loading == old(loading) && session == old(session)
      ensures old(email) != "" && old(password) != "" ==> !loading
      ensures old(email) != "" && old(password) != "" && error.Some? ==>
                shown == Some(EmailErrorPrefix + EmailErrorMessage(error.value.code, error.value.message)) && session == old(session)
      ensures old(email) != "" && old(password) != "" && error.None? ==>
                shown.None? && session == Some(Session(backendUser, None))
      ensures users == old(users) && isLogin == old(isLogin) && email == old(email) && password == old(password)
      ensures username == old(username)
    {
      if email == "" || password == "" {
        return Some(MissingEmailInput);
      }
      loading := true;
      if error.Some? {
        shown := Some(EmailErrorPrefix + EmailErrorMessage(error.value.code, error.value.message));
      } else {
        session := Some(Session(backendUser, None));
        shown := None;
      }
      loading := false;
    }
  }

  /** A name that registers successfully can then log in with the same
      password. */
  lemma RegisteredCanLogIn(users: seq<Credential>, username: string, password: string)
    ensures HasMatch(users + [Credential(username, password)], username, password)
    ensures NameTaken(users + [Credential(username, password)], username)
  {
    var r := users + [Credential(username, password)];
    assert r[|users|] == Credential(username, password);
  }

  /** Registration keeps names unique: a table whose names are unique still
      has unique names after a registration the flow accepts. */
  lemma RegistrationKeepsNamesUnique(users: seq<Credential>, c: Credential)
    requires forall i, j | 0 <= i < j < |users| :: users[i].username != users[j].username
    requires !NameTaken(users, c.username)
    ensures var r := users + [c];
      forall i, j | 0 <= i < j < |r| :: r[i].username != r[j].username
  {
  }

  /** The session this flow opens carries no `photoURL`, so the family it is
      scoped to is always keyed by its uid, never by a `family_` name. */
  lemma UsernameSessionKeyedByUid(uid: string, username: string)
    ensures FamilyStore.TenantKey(Session(FamilyStore.User(uid, None), Some(username)).user) == uid
  {
  }
}
