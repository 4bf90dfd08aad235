/** The like/unlike toggle of the user controller (`likeJournalHelper`),
    as a function from the database before the request to the reply and the
    database after it, and what it promises about the "liked" relation. */
module LikeToggle {

  import opened Http
  import opened Documents
  import opened Lists

  /** The request body `{ journalId, idToken }`. */
  datatype LikeBody = LikeBody(journalId: Field, idToken: Field)

  /** Whether the requested direction already holds on both sides, so the
      handler answers without writing. Every `type` other than 'like' asks
      for the unlike direction. */
  predicate AlreadyDone(u: User, j: Journal, uid: UserId, jid: JournalId, kind: string) {
    if kind == "like" then jid in u.likes && uid in j.likedby
    else jid !in u.likes && uid !in j.likedby
  }

  /** The user record after the in-memory `push` or `pull` on `likes`. */
  function ToggledUser(u: User, jid: JournalId, kind: string): User {
    if kind == "like" then u.(likes := u.likes + [jid])
    else u.(likes := Pull(u.likes, jid))
  }

  /** The journal after the in-memory `push` or `pull` on `likedby`. */
  function ToggledJournal(j: Journal, uid: UserId, kind: string): Journal {
    if kind == "like" then j.(likedby := j.likedby + [uid])
    else j.(likedby := Pull(j.likedby, uid))
  }

  /** `likeJournalHelper(req, res, kind)`: validate the body, resolve the
      token, find both documents, short-circuit when nothing is to do,
      otherwise save both changed documents in one transaction. A fault in
      any step of the transaction leaves the database as it was. */
  function Toggle(db: Db, body: LikeBody, kind: string, identity: TokenLookup, faults: Faults): Step<JournalId>
  {
    if !Present(body.journalId) || !Present(body.idToken) then Step(Fail(400, InvalidBody), db)
    else match identity
      case LookupFailed => Step(Fail(500, ServerError), db)
      case NoUserData => Step(Unanswered, db)
      case Resolved(uid) =>
        var jid := body.journalId.value;
        if faults.find || uid !in db.users || jid !in db.journals then
          Step(Fail(500, DatabaseError), db)
        else if AlreadyDone(db.users[uid], db.journals[jid], uid, jid, kind) then
          Step(Ok(jid), db)
        else if faults.begin || faults.saveUser || faults.saveJournal || faults.commit then
          Step(Fail(500, DatabaseError), db)
        else
          Step(Ok(jid), Db(db.users[uid := ToggledUser(db.users[uid], jid, kind)],
                           db.journals[jid := ToggledJournal(db.journals[jid], uid, kind)]))
  }

  /** A body without a `journalId` or an `idToken` is refused with 400
      before the token is looked up, and nothing is written. */
  lemma ToggleRejectsInvalidBody(db: Db, body: LikeBody, kind: string, identity: TokenLookup, faults: Faults)
    requires !Present(body.journalId) || !Present(body.idToken)
    ensures Toggle(db, body, kind, identity, faults) == Step(Fail(400, InvalidBody), db)
  {
  }

  /** When the user or the journal does not exist the reply is 500
      'Database Error' and nothing is written. */
  lemma ToggleMissingDocument(db: Db, body: LikeBody, kind: string, uid: UserId, faults: Faults)
    requires Present(body.journalId) && Present(body.idToken)
    requires uid !in db.users || body.journalId.value !in db.journals
    ensures Toggle(db, body, kind, Resolved(uid), faults) == Step(Fail(500, DatabaseError), db)
  {
  }

  /** Liking a pair that both sides already record, or unliking a pair that
      neither side records, answers 200 with the journal id and writes
      nothing, whatever the transaction would have done. */
  lemma ToggleShortCircuit(db: Db, body: LikeBody, kind: string, uid: UserId, faults: Faults)
    requires Present(body.journalId) && Present(body.idToken) && !faults.find
    requires uid in db.users && body.journalId.value in db.journals
    requires kind == "like" ==> body.journalId.value in db.users[uid].likes && uid in db.journals[body.journalId.value].likedby
    requires kind != "like" ==> body.journalId.value !in db.users[uid].likes && uid !in db.journals[body.journalId.value].likedby
    ensures Toggle(db, body, kind, Resolved(uid), faults) == Step(Ok(body.journalId.value), db)
  {
  }

  /** Every `type` other than 'like' behaves exactly as 'unlike'. */
  lemma ToggleTreatsOtherTypesAsUnlike(db: Db, body: LikeBody, kind: string, identity: TokenLookup, faults: Faults)
    requires kind != "like"
    ensures Toggle(db, body, kind, identity, faults) == Toggle(db, body, "unlike", identity, faults)
  {
  }

  /** A successful like leaves the journal in the user's `likes` and the
      user in the journal's `likedby`. Either nothing was written, or each
      list grew by exactly the one appended id (so an id already present on
      one side is now there twice); no other document changed. */
  lemma ToggleLikeOutcome(db: Db, body: LikeBody, identity: TokenLookup, faults: Faults)
    requires Toggle(db, body, "like", identity, faults).reply.Ok?
    ensures identity.Resolved? && Present(body.journalId)
    ensures var s, uid, jid := Toggle(db, body, "like", identity, faults), identity.id, body.journalId.value;
      && s.reply == Ok(jid)
      && uid in db.users && jid in db.journals
      && s.db.users.Keys == db.users.Keys && s.db.journals.Keys == db.journals.Keys
      && jid in s.db.users[uid].likes && uid in s.db.journals[jid].likedby
      && (forall u :: u in db.users && u != uid ==> s.db.users[u] == db.users[u])
      && (forall j :: j in db.journals && j != jid ==> s.db.journals[j] == db.journals[j])
      && (s.db == db ||
          (s.db.users[uid] == db.users[uid].(likes := db.users[uid].likes + [jid]) &&
           s.db.journals[jid] == db.journals[jid].(likedby := db.journals[jid].likedby + [uid])))
  {
  }

  /** A successful unlike (any `type` other than 'like') leaves no
      occurrence of the journal in the user's `likes` and none of the user
      in the journal's `likedby`; the other elements keep their order
      (the lists are `Pull`ed) and no other document changed. */
  lemma ToggleUnlikeOutcome(db: Db, body: LikeBody, kind: string, identity: TokenLookup, faults: Faults)
    requires kind != "like"
    requires Toggle(db, body, kind, identity, faults).reply.Ok?
    ensures identity.Resolved? && Present(body.journalId)
    ensures var s, uid, jid := Toggle(db, body, kind, identity, faults), identity.id, body.journalId.value;
      && s.reply == Ok(jid)
      && uid in db.users && jid in db.journals
      && s.db.users.Keys == db.users.Keys && s.db.journals.Keys == db.journals.Keys
      && jid !in s.db.users[uid].likes && uid !in s.db.journals[jid].likedby
      && s.db.users[uid] == db.users[uid].(likes := Pull(db.users[uid].likes, jid))
      && s.db.journals[jid] == db.journals[jid].(likedby := Pull(db.journals[jid].likedby, uid))
      && (forall u :: u in db.users && u != uid ==> s.db.users[u] == db.users[u])
      && (forall j :: j in db.journals && j != jid ==> s.db.journals[j] == db.journals[j])
  {
  }

  /** All or nothing: a request that is not answered with 200 writes
      nothing, and one answered with 200 either writes nothing or writes
      both documents. */
  lemma ToggleAllOrNothing(db: Db, body: LikeBody, kind: string, identity: TokenLookup, faults: Faults)
    ensures var s := Toggle(db, body, kind, identity, faults);
      !s.reply.Ok? ==> s.db == db
    ensures var s := Toggle(db, body, kind, identity, faults);
      s.reply.Ok? && s.db != db ==>
        identity.Resolved? && identity.id in db.users && s.reply.body in db.journals &&
        s.db == Db(db.users[identity.id := ToggledUser(db.users[identity.id], s.reply.body, kind)],
                   db.journals[s.reply.body := ToggledJournal(db.journals[s.reply.body], identity.id, kind)])
  {
  }

  /** A fault in any step of the transaction (opening it, either save, the
      commit) gives 500 'Database Error' and both documents keep their
      prior state. */
  lemma ToggleFaultRollsBack(db: Db, body: LikeBody, kind: string, uid: UserId, faults: Faults)
    requires Present(body.journalId) && Present(body.idToken) && !faults.find
    requires uid in db.users && body.journalId.value in db.journals
    requires !AlreadyDone(db.users[uid], db.journals[body.journalId.value], uid, body.journalId.value, kind)
    requires faults.begin || faults.saveUser || faults.saveJournal || faults.commit
    ensures Toggle(db, body, kind, Resolved(uid), faults) == Step(Fail(500, DatabaseError), db)
  {
  }

  /** The toggle keeps the two stored sides of the relation in agreement. */
  lemma {:induction false} ToggleKeepsConsistent(db: Db, body: LikeBody, kind: string, identity: TokenLookup, faults: Faults)
    requires Consistent(db)
    ensures Consistent(Toggle(db, body, kind, identity, faults).db)
  {
    var s := Toggle(db, body, kind, identity, faults);
    if s.db != db {
      ToggleAllOrNothing(db, body, kind, identity, faults);
      var uid, jid := identity.id, s.reply.body;
      forall u, j | u in s.db.users && j in s.db.journals
        ensures j in s.db.users[u].likes <==> u in s.db.journals[j].likedby
      {
        if kind != "like" {
          PullSubset(db.users[uid].likes, jid, j);
          PullSubset(db.journals[jid].likedby, uid, u);
        }
      }
    }
  }

  /** The toggle only ever stores ids of existing documents, so it keeps
      the store well formed. */
  lemma {:induction false} ToggleKeepsWellFormed(db: Db, body: LikeBody, kind: string, identity: TokenLookup, faults: Faults)
    requires WellFormed(db)
    ensures WellFormed(Toggle(db, body, kind, identity, faults).db)
  {
    ToggleKeepsConsistent(db, body, kind, identity, faults);
    var s := Toggle(db, body, kind, identity, faults);
    if s.db != db {
      ToggleAllOrNothing(db, body, kind, identity, faults);
      var uid, jid := identity.id, s.reply.body;
      forall u, j | u in s.db.users && j in s.db.users[u].likes
        ensures j in s.db.journals
      {
        if kind != "like" && u == uid {
          PullSubset(db.users[uid].likes, jid, j);
        }
      }
      forall j, u | j in s.db.journals && u in s.db.journals[j].likedby
        ensures u in s.db.users
      {
        if kind != "like" && j == jid {
          PullSubset(db.journals[jid].likedby, uid, u);
        }
      }
    }
  }

  /** No user's `likes` and no journal's `likedby` holds a repeated id. */
  ghost predicate DuplicateFree(db: Db) {
    && (forall u :: u in db.users ==> NoDuplicates(db.users[u].likes))
    && (forall j :: j in db.journals ==> NoDuplicates(db.journals[j].likedby))
  }

  /** On a consistent database the toggle never introduces a duplicate:
      `push` only runs when neither side records the pair. */
  lemma {:induction false} ToggleKeepsDuplicateFree(db: Db, body: LikeBody, kind: string, identity: TokenLookup, faults: Faults)
    requires Consistent(db) && DuplicateFree(db)
    ensures DuplicateFree(Toggle(db, body, kind, identity, faults).db)
  {
    var s := Toggle(db, body, kind, identity, faults);
    if s.db != db {
      ToggleAllOrNothing(db, body, kind, identity, faults);
      var uid, jid := identity.id, s.reply.body;
      var likes, likedby := db.users[uid].likes, db.journals[jid].likedby;
      if kind == "like" {
        assert jid !in likes && uid !in likedby;
        assert NoDuplicates(likes + [jid]);
        assert NoDuplicates(likedby + [uid]);
      } else {
        PullNoDuplicates(likes, jid);
        PullNoDuplicates(likedby, uid);
      }
    }
  }

  /** Liking twice in a row: the second call is a no-op that answers 200
      with the same journal id. */
  lemma LikeTwiceIsNoOp(db: Db, body: LikeBody, identity: TokenLookup, faults: Faults, faults2: Faults)
    requires Toggle(db, body, "like", identity, faults).reply.Ok?
    requires !faults2.find
    ensures var s := Toggle(db, body, "like", identity, faults);
      Toggle(s.db, body, "like", identity, faults2) == s
  {
  }

  /** Liking a pair neither side records and then unliking it restores the
      database exactly. */
  lemma LikeThenUnlikeRestores(db: Db, body: LikeBody, uid: UserId)
    requires Present(body.journalId) && Present(body.idToken)
    requires uid in db.users && body.journalId.value in db.journals
    requires body.journalId.value !in db.users[uid].likes && uid !in db.journals[body.journalId.value].likedby
    ensures var mid := Toggle(db, body, "like", Resolved(uid), NoFaults).db;
      Toggle(mid, body, "unlike", Resolved(uid), NoFaults).db == db
  {
    var jid := body.journalId.value;
    var u, j := db.users[uid], db.journals[jid];
    var mid := Db(db.users[uid := ToggledUser(u, jid, "like")], db.journals[jid := ToggledJournal(j, uid, "like")]);
    ToggleWrites(db, body, "like", uid);
    assert jid in mid.users[uid].likes;
    ToggleWrites(mid, body, "unlike", uid);
    PullUndoesPush(u.likes, jid);
    PullUndoesPush(j.likedby, uid);
    assert mid.users[uid := u] == db.users;
    assert mid.journals[jid := j] == db.journals;
  }

  /** A fault-free toggle that does not short-circuit writes both toggled
      documents. */
  lemma ToggleWrites(db: Db, body: LikeBody, kind: string, uid: UserId)
    requires Present(body.journalId) && Present(body.idToken)
    requires uid in db.users && body.journalId.value in db.journals
    requires !AlreadyDone(db.users[uid], db.journals[body.journalId.value], uid, body.journalId.value, kind)
    ensures var jid := body.journalId.value;
      Toggle(db, body, kind, Resolved(uid), NoFaults) ==
        Step(Ok(jid), Db(db.users[uid := ToggledUser(db.users[uid], jid, kind)],
                         db.journals[jid := ToggledJournal(db.journals[jid], uid, kind)]))
  {
  }

  /** A user who already lists a journal whose `likedby` does not record
      the user is forced into the liked state by a like: the `push` stores
      the journal id in `likes` once more, so it is there at least twice. */
  lemma LikeOverDisagreementDuplicates(db: Db, body: LikeBody, uid: UserId)
    requires Present(body.journalId) && Present(body.idToken)
    requires uid in db.users && body.journalId.value in db.journals
    requires body.journalId.value in db.users[uid].likes
    requires uid !in db.journals[body.journalId.value].likedby
    ensures var jid := body.journalId.value;
      var s := Toggle(db, body, "like", Resolved(uid), NoFaults);
      && s.reply == Ok(jid)
      && uid in s.db.users && jid in s.db.journals
      && multiset(s.db.users[uid].likes)[jid] == multiset(db.users[uid].likes)[jid] + 1
      && multiset(s.db.users[uid].likes)[jid] >= 2
      && uid in s.db.journals[jid].likedby
  {
  }
}
