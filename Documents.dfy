/** The documents the user controller reads and writes, the two collections
    that hold them, and the relation the collections store twice. */
module Documents {

  import opened Http

  /** A user's `_id`: the identity provider's `localId`, an opaque string. */
  type UserId = string
  /** A journal's generated `_id`. */
  type JournalId = string

  /** A user record. `likes` lists the ids of the journals the user liked. */
  datatype User = User(name: string, email: string, likes: seq<JournalId>)

  datatype Privacy = Public | Anonymous | Private

  /** A comment embedded in a journal. */
  datatype Comment = Comment(
    id: string, authorId: UserId, date: string, content: string,
    anonymous: bool, edited: bool)

  /** A journal document. `likedby` lists the ids of the users who liked it. */
  datatype Journal = Journal(
    authorId: UserId, title: string, date: string, image: string,
    weather: string, content: string, privacy: Privacy,
    likedby: seq<UserId>, comments: seq<Comment>)

  /** The database: the user collection and the journal collection, each
      keyed by `_id`. */
  datatype Db = Db(users: map<UserId, User>, journals: map<JournalId, Journal>)

  /** What a handler that may write leaves behind: its reply and the
      database afterwards. */
  datatype Step<T> = Step(reply: Reply<T>, db: Db)

  /** Which database steps of a request throw. A handler consults only the
      steps it performs: `find` for any `findById`, `begin` for opening the
      session and its transaction, `saveUser` and `saveJournal` for the two
      `save` calls, `commit` for `commitTransaction`. */
  datatype Faults = Faults(find: bool, begin: bool, saveUser: bool, saveJournal: bool, commit: bool)

  /** The outcome of a handler's call to its own `users/info/secure` route,
      which resolves an id token: the call fails, it answers with
      `userData: null` (the token is valid but there is no local record),
      or it gives the user's `_id`. */
  datatype TokenLookup = LookupFailed | NoUserData | Resolved(id: UserId)

  /** No step throws. */
  const NoFaults: Faults := Faults(false, false, false, false, false)

  /** The two stored sides of the "liked" relation agree: for every user and
      every journal in the database, the user's `likes` lists the journal
      exactly when the journal's `likedby` lists the user. */
  ghost predicate Consistent(db: Db) {
    forall u, j :: u in db.users && j in db.journals ==>
      (j in db.users[u].likes <==> u in db.journals[j].likedby)
  }

  /** Every id either side of the relation stores names an existing
      document: a user's `likes` only existing journals, a journal's
      `likedby` only existing users. */
  ghost predicate Referential(db: Db) {
    && (forall u, j :: u in db.users && j in db.users[u].likes ==> j in db.journals)
    && (forall j, u :: j in db.journals && u in db.journals[j].likedby ==> u in db.users)
  }

  /** The invariant of the store: both sides agree and refer only to
      existing documents. */
  ghost predicate WellFormed(db: Db) {
    Consistent(db) && Referential(db)
  }
}
