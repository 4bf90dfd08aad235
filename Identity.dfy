/** The identity handlers of the user controller: `signUp`, `login`,
    `refreshUserIdToken` and `changePassword`. Each validates its body,
    calls the identity provider (an outcome given as a parameter), maps a
    provider error to a reply, and then reads or writes the user
    collection. */
module Identity {

  import opened Http
  import opened Documents

  datatype SignUpBody = SignUpBody(email: Field, password: Field, name: Field)
  datatype LoginBody = LoginBody(email: Field, password: Field)
  /** The body of `refreshUserIdToken`, forwarded to the provider as is. */
  datatype RefreshBody = RefreshBody(grantType: Field, refreshToken: Field)
  datatype PasswordBody = PasswordBody(token: Field, password: Field)

  /** What the provider answers on success: a token bundle and the
      account's `localId` (`user_id` on the refresh endpoint). */
  datatype Tokens = Tokens(idToken: string, refreshToken: string, expiresIn: string, localId: UserId)

  /** The body of a 200 reply: the token bundle and the user data, which
      the refresh endpoint sends as `null` when there is no local record. */
  datatype Session = Session(idToken: string, refreshToken: string, expiresIn: string, userData: Option<User>)

  /** The name of a user record that login creates. */
  const PlaceholderName: string := "Please update your name"

  function SessionOf(t: Tokens, u: Option<User>): Session {
    Session(t.idToken, t.refreshToken, t.expiresIn, u)
  }

  predicate ValidSignUp(b: SignUpBody) {
    Present(b.email) && Present(b.password) && Present(b.name)
  }

  predicate ValidLogin(b: LoginBody) {
    Present(b.email) && Present(b.password)
  }

  predicate ValidRefresh(b: RefreshBody) {
    Present(b.grantType) && Present(b.refreshToken)
  }

  predicate ValidPassword(b: PasswordBody) {
    Present(b.token) && Present(b.password)
  }

  /** `signUp`: create the provider account, then insert the local record
      `{name, email, _id: localId}` with no likes. The insert fails when it
      throws or when a record with that `_id` already exists; the provider
      account is then left in place and the reply says so. */
  function SignUp(db: Db, body: SignUpBody, provider: Provider<Tokens>, faults: Faults): Step<Session>
  {
    if !ValidSignUp(body) then Step(Fail(400, InvalidBody), db)
    else match provider
      case Rejected(e) => Step(ProviderFailure(e), db)
      case Granted(t) =>
        var u := User(body.name.value, body.email.value, []);
        if faults.saveUser || t.localId in db.users then Step(Fail(500, SignUpDatabaseError), db)
        else Step(Ok(SessionOf(t, Some(u))), db.(users := db.users[t.localId := u]))
  }

  /** `login`: sign in with the provider, then find the local record,
      creating it with the placeholder name and the request's email when
      there is none. */
  function Login(db: Db, body: LoginBody, provider: Provider<Tokens>, faults: Faults): Step<Session>
  {
    if !ValidLogin(body) then Step(Fail(400, InvalidBody), db)
    else match provider
      case Rejected(e) => Step(ProviderFailure(e), db)
      case Granted(t) =>
        if faults.find then Step(Fail(500, DatabaseError), db)
        else if t.localId in db.users then Step(Ok(SessionOf(t, Some(db.users[t.localId]))), db)
        else
          var u := User(PlaceholderName, body.email.value, []);
          if faults.saveUser then Step(Fail(500, DatabaseError), db)
          else Step(Ok(SessionOf(t, Some(u))), db.(users := db.users[t.localId := u]))
  }

  /** `refreshUserIdToken`: exchange the refresh token, then read the local
      record; a failing read is reported as 'Internal Server Error'. */
  function RefreshUserIdToken(db: Db, body: RefreshBody, provider: Provider<Tokens>, faults: Faults): Reply<Session>
  {
    if !ValidRefresh(body) then Fail(400, InvalidBody)
    else match provider
      case Rejected(e) => ProviderFailure(e)
      case Granted(t) =>
        if faults.find then Fail(500, InternalServerError)
        else Ok(SessionOf(t, if t.localId in db.users then Some(db.users[t.localId]) else None))
  }

  /** `changePassword`: update the password with the provider, then read
      the local record. Without a record the reply is built from `null`
      and the handler throws before answering. */
  function ChangePassword(db: Db, body: PasswordBody, provider: Provider<Tokens>, faults: Faults): Reply<Session>
  {
    if !ValidPassword(body) then Fail(400, InvalidBody)
    else match provider
      case Rejected(e) => ProviderFailure(e)
      case Granted(t) =>
        if faults.find then Fail(500, DatabaseError)
        else if t.localId !in db.users then Unanswered
        else Ok(SessionOf(t, Some(db.users[t.localId])))
  }

  /** signUp without `email`, `password` or `name` gives 400 'Invalid
      request body' whatever the provider would have answered, and writes
      nothing; with a valid body a provider error gives the shared mapping
      (400 with the provider's message, otherwise 500 'Firebase Server
      Error') and writes nothing. */
  lemma SignUpRejects(db: Db, body: SignUpBody, provider: Provider<Tokens>, faults: Faults)
    ensures !ValidSignUp(body) ==> SignUp(db, body, provider, faults) == Step(Fail(400, InvalidBody), db)
    ensures ValidSignUp(body) && provider.Rejected? ==>
      SignUp(db, body, provider, faults) == Step(ProviderFailure(provider.error), db)
  {
  }

  /** login without `email` or `password` gives 400 before the provider
      call; a provider error gives the shared mapping; neither writes. */
  lemma LoginRejects(db: Db, body: LoginBody, provider: Provider<Tokens>, faults: Faults)
    ensures !ValidLogin(body) ==> Login(db, body, provider, faults) == Step(Fail(400, InvalidBody), db)
    ensures ValidLogin(body) && provider.Rejected? ==>
      Login(db, body, provider, faults) == Step(ProviderFailure(provider.error), db)
  {
  }

  /** refreshUserIdToken without `grant_type` or `refresh_token` gives 400
      before the provider call; a provider error gives the shared mapping;
      a failing read of the local record gives 500 'Internal Server Error'. */
  lemma RefreshRejects(db: Db, body: RefreshBody, provider: Provider<Tokens>, faults: Faults)
    ensures !ValidRefresh(body) ==> RefreshUserIdToken(db, body, provider, faults) == Fail(400, InvalidBody)
    ensures ValidRefresh(body) && provider.Rejected? ==>
      RefreshUserIdToken(db, body, provider, faults) == ProviderFailure(provider.error)
    ensures ValidRefresh(body) && provider.Granted? && faults.find ==>
      RefreshUserIdToken(db, body, provider, faults) == Fail(500, InternalServerError)
  {
  }

  /** changePassword without `token` or `password` gives 400 before the
      provider call; a provider error gives the shared mapping. */
  lemma ChangePasswordRejects(db: Db, body: PasswordBody, provider: Provider<Tokens>, faults: Faults)
    ensures !ValidPassword(body) ==> ChangePassword(db, body, provider, faults) == Fail(400, InvalidBody)
    ensures ValidPassword(body) && provider.Rejected? ==>
      ChangePassword(db, body, provider, faults) == ProviderFailure(provider.error)
  {
  }

  /** After the provider accepted the new password: a failing read gives
      500 'Database Error', a missing record a throw (`Unanswered`), and a found
      record the new tokens with that record. */
  lemma ChangePasswordOutcome(db: Db, body: PasswordBody, t: Tokens, faults: Faults)
    requires ValidPassword(body)
    ensures var r := ChangePassword(db, body, Granted(t), faults);
      && (faults.find ==> r == Fail(500, DatabaseError))
      && (!faults.find && t.localId !in db.users ==> r.Unanswered?)
      && (!faults.find && t.localId in db.users ==> r == Ok(SessionOf(t, Some(db.users[t.localId]))))
  {
  }

  /** Signup succeeds exactly when the body is valid, the provider grants
      the account, and the insert of a new `_id` does not throw; it then
      stores `{name, email}` with no likes under the provider's `localId`
      and answers with that record. Otherwise nothing is written. */
  lemma SignUpOutcome(db: Db, body: SignUpBody, provider: Provider<Tokens>, faults: Faults)
    ensures var st := SignUp(db, body, provider, faults);
      st.reply.Ok? <==> ValidSignUp(body) && provider.Granted? && !faults.saveUser && provider.value.localId !in db.users
    ensures var st := SignUp(db, body, provider, faults);
      st.reply.Ok? ==>
        var u := User(body.name.value, body.email.value, []);
        st.reply.body == SessionOf(provider.value, Some(u)) &&
        st.db == db.(users := db.users[provider.value.localId := u])
    ensures var st := SignUp(db, body, provider, faults);
      !st.reply.Ok? ==> st.db == db
    ensures var st := SignUp(db, body, provider, faults);
      ValidSignUp(body) && provider.Granted? && (faults.saveUser || provider.value.localId in db.users) ==>
        st.reply == Fail(500, SignUpDatabaseError)
  {
  }

  /** Login with no local record creates one: the placeholder name, the
      request's email, no likes, under the provider's `localId`; the reply
      carries that record. */
  lemma LoginCreatesMissingRecord(db: Db, body: LoginBody, t: Tokens, faults: Faults)
    requires ValidLogin(body) && !faults.find && !faults.saveUser
    requires t.localId !in db.users
    ensures var nu := User(PlaceholderName, body.email.value, []);
      Login(db, body, Granted(t), faults) ==
        Step(Ok(SessionOf(t, Some(nu))), db.(users := db.users[t.localId := nu]))
  {
  }

  /** Login with a local record answers with that record and writes
      nothing. */
  lemma LoginFindsExistingRecord(db: Db, body: LoginBody, t: Tokens, faults: Faults)
    requires ValidLogin(body) && !faults.find
    requires t.localId in db.users
    ensures Login(db, body, Granted(t), faults) == Step(Ok(SessionOf(t, Some(db.users[t.localId]))), db)
  {
  }

  /** Login writes at most the one new record, never over an existing one,
      and never touches the journals. */
  lemma LoginWritesOnlyNewRecord(db: Db, body: LoginBody, provider: Provider<Tokens>, faults: Faults)
    ensures var st := Login(db, body, provider, faults);
      st.db.journals == db.journals &&
      (st.db == db ||
       (provider.Granted? && provider.value.localId !in db.users &&
        st.db.users == db.users[provider.value.localId := User(PlaceholderName, body.email.value, [])]))
  {
  }

  /** The lazy creation happens once: a second login with the same outcome
      finds the record the first one created and writes nothing. */
  lemma LoginTwiceCreatesOnce(db: Db, body: LoginBody, provider: Provider<Tokens>, faults: Faults)
    requires faults.find == false
    ensures var st := Login(db, body, provider, faults);
      Login(st.db, body, provider, faults) == st
  {
  }

  /** A new record has no likes, so creating it keeps the store well formed
      (it holds no user that any journal's `likedby` could name). */
  lemma InsertKeepsWellFormed(db: Db, id: UserId, u: User)
    requires WellFormed(db) && id !in db.users && u.likes == []
    ensures WellFormed(db.(users := db.users[id := u]))
  {
  }

  /** Signup keeps the store well formed. */
  lemma SignUpKeepsWellFormed(db: Db, body: SignUpBody, provider: Provider<Tokens>, faults: Faults)
    requires WellFormed(db)
    ensures WellFormed(SignUp(db, body, provider, faults).db)
  {
  }

  /** Login keeps the store well formed. */
  lemma LoginKeepsWellFormed(db: Db, body: LoginBody, provider: Provider<Tokens>, faults: Faults)
    requires WellFormed(db)
    ensures WellFormed(Login(db, body, provider, faults).db)
  {
  }

  /** Token refresh never creates a record: it answers with the stored
      record, or with no user data when there is none. */
  lemma RefreshReadsOnly(db: Db, body: RefreshBody, t: Tokens, faults: Faults)
    requires ValidRefresh(body) && !faults.find
    ensures RefreshUserIdToken(db, body, Granted(t), faults).Ok?
    ensures var r := RefreshUserIdToken(db, body, Granted(t), faults);
      (r.body.userData.Some? <==> t.localId in db.users) &&
      (r.body.userData.Some? ==> r.body.userData.value == db.users[t.localId])
  {
  }
}
