/** The user controller's handlers that write to the database, over a store
    object holding the two collections. Each handler updates the
    collections in place, step by step as the controller does, and is
    proved to leave the store as the matching specification function says. */
module UserController {

  import opened Http
  import opened Documents
  import opened Lists
  import LikeToggle
  import Identity

  class Store {
    /** The user collection, keyed by `_id`. */
    var users: map<UserId, User>
    /** The journal collection, keyed by `_id`. */
    var journals: map<JournalId, Journal>

    /** The database the store holds. */
    function State(): Db
      reads this
    {
      Db(users, journals)
    }

    constructor (db: Db)
      ensures State() == db
    {
      users := db.users;
      journals := db.journals;
    }

    /** `signUp`, lines 39-105. */
    method SignUp(body: Identity.SignUpBody, provider: Provider<Identity.Tokens>, faults: Faults)
      returns (reply: Reply<Identity.Session>)
      modifies this
      ensures Step(reply, State()) == Identity.SignUp(old(State()), body, provider, faults)
      ensures journals == old(journals)
      ensures WellFormed(old(State())) ==> WellFormed(State())
    {
      if WellFormed(State()) {
        Identity.SignUpKeepsWellFormed(State(), body, provider, faults);
      }
      if !Identity.ValidSignUp(body) {
        return Fail(400, InvalidBody);
      }
      if provider.Rejected? {
        return ProviderFailure(provider.error);
      }
      var t := provider.value;
      var newUser := User(body.name.value, body.email.value, []);
      // `newUser.save()` inserts, and an existing `_id` makes the insert throw.
      if faults.saveUser || t.localId in users {
        return Fail(500, SignUpDatabaseError);
      }
      users := users[t.localId := newUser];
      reply := Ok(Identity.SessionOf(t, Some(newUser)));
    }

    /** `login`, lines 138-207, with the lazy creation of lines 178-190. */
    method Login(body: Identity.LoginBody, provider: Provider<Identity.Tokens>, faults: Faults)
      returns (reply: Reply<Identity.Session>)
      modifies this
      ensures Step(reply, State()) == Identity.Login(old(State()), body, provider, faults)
      ensures journals == old(journals)
      ensures WellFormed(old(State())) ==> WellFormed(State())
    {
      if WellFormed(State()) {
        Identity.LoginKeepsWellFormed(State(), body, provider, faults);
      }
      if !Identity.ValidLogin(body) {
        return Fail(400, InvalidBody);
      }
      if provider.Rejected? {
        return ProviderFailure(provider.error);
      }
      var t := provider.value;
      if faults.find {
        return Fail(500, DatabaseError);
      }
      var foundUser: User;
      if t.localId in users {
        foundUser := users[t.localId];
      } else {
        var newUser := User(Identity.PlaceholderName, body.email.value, []);
        if faults.saveUser {
          return Fail(500, DatabaseError);
        }
        users := users[t.localId := newUser];
        foundUser := newUser;
      }
      reply := Ok(Identity.SessionOf(t, Some(foundUser)));
    }

    /** `likeJournalHelper`, lines 362-414. The two saves run inside a
        transaction: they are staged, and only the commit makes them part
        of the store, so a throw at any step leaves both collections as
        they were. */
    method LikeJournalHelper(body: LikeToggle.LikeBody, kind: string, lookup: TokenLookup, faults: Faults)
      returns (reply: Reply<JournalId>)
      modifies this
      ensures Step(reply, State()) == LikeToggle.Toggle(old(State()), body, kind, lookup, faults)
      ensures !reply.Ok? ==> users == old(users) && journals == old(journals)
      ensures WellFormed(old(State())) ==> WellFormed(State())
    {
      if WellFormed(State()) {
        LikeToggle.ToggleKeepsWellFormed(State(), body, kind, lookup, faults);
      }
      if !Present(body.journalId) || !Present(body.idToken) {
        return Fail(400, InvalidBody);
      }
      if lookup.LookupFailed? {
        return Fail(500, ServerError);
      }
      if lookup.NoUserData? {
        return Unanswered;
      }
      var userid := lookup.id;
      var journalId := body.journalId.value;
      if faults.find || userid !in users || journalId !in journals {
        return Fail(500, DatabaseError);
      }
      var foundUser := users[userid];
      var foundJournal := journals[journalId];
      if kind == "like" {
        if journalId in foundUser.likes && userid in foundJournal.likedby {
          return Ok(journalId);
        }
      } else {
        if journalId !in foundUser.likes && userid !in foundJournal.likedby {
          return Ok(journalId);
        }
      }
      if faults.begin {
        return Fail(500, DatabaseError);
      }
      if kind == "like" {
        foundUser := foundUser.(likes := foundUser.likes + [journalId]);
        foundJournal := foundJournal.(likedby := foundJournal.likedby + [userid]);
      } else {
        foundUser := foundUser.(likes := Pull(foundUser.likes, journalId));
        foundJournal := foundJournal.(likedby := Pull(foundJournal.likedby, userid));
      }
      var stagedUsers, stagedJournals := users, journals;
      if faults.saveUser {
        return Fail(500, DatabaseError);
      }
      stagedUsers := stagedUsers[userid := foundUser];
      if faults.saveJournal {
        return Fail(500, DatabaseError);
      }
      stagedJournals := stagedJournals[journalId := foundJournal];
      if faults.commit {
        return Fail(500, DatabaseError);
      }
      users, journals := stagedUsers, stagedJournals;
      reply := Ok(journalId);
    }

    /** `likeJournal`, lines 416-418. */
    method LikeJournal(body: LikeToggle.LikeBody, lookup: TokenLookup, faults: Faults)
      returns (reply: Reply<JournalId>)
      modifies this
      ensures Step(reply, State()) == LikeToggle.Toggle(old(State()), body, "like", lookup, faults)
    {
      reply := LikeJournalHelper(body, "like", lookup, faults);
    }

    /** `unlikeJournal`, lines 420-422. */
    method UnlikeJournal(body: LikeToggle.LikeBody, lookup: TokenLookup, faults: Faults)
      returns (reply: Reply<JournalId>)
      modifies this
      ensures Step(reply, State()) == LikeToggle.Toggle(old(State()), body, "unlike", lookup, faults)
    {
      reply := LikeJournalHelper(body, "unlike", lookup, faults);
    }
  }

  /** A client of the store: like, like again, then unlike, on a store
      where neither side records the pair. The second like changes nothing
      and the unlike restores the store. */
  method LikeLikeUnlike(s: Store, body: LikeToggle.LikeBody, uid: UserId)
    requires Present(body.journalId) && Present(body.idToken)
    requires uid in s.users && body.journalId.value in s.journals
    requires body.journalId.value !in s.users[uid].likes && uid !in s.journals[body.journalId.value].likedby
    modifies s
    ensures s.State() == old(s.State())
  {
    ghost var before := s.State();
    var r1 := s.LikeJournal(body, Resolved(uid), NoFaults);
    ghost var liked := s.State();
    LikeToggle.ToggleWrites(before, body, "like", uid);
    var r2 := s.LikeJournal(body, Resolved(uid), NoFaults);
    LikeToggle.LikeTwiceIsNoOp(before, body, Resolved(uid), NoFaults, NoFaults);
    assert s.State() == liked;
    var r3 := s.UnlikeJournal(body, Resolved(uid), NoFaults);
    LikeToggle.LikeThenUnlikeRestores(before, body, uid);
  }
}
