/** `getLikedJournalsByUserToken`: the journals a user liked, as the client
    sees them. Each populated journal loses its author reference, its own
    and its comments', and its raw `likedby` list, which is replaced by the
    count `likesNum`; then every private journal is dropped. */
module LikedJournals {

  import opened Http
  import opened Documents

  /** A populated journal: the document together with its `_id`. */
  datatype Doc = Doc(id: JournalId, journal: Journal)

  /** A comment without its `author_id`. */
  datatype CommentView = CommentView(id: string, date: string, content: string, anonymous: bool, edited: bool)

  /** A journal without `author_id` and `likedby`, with `likesNum` instead. */
  datatype JournalView = JournalView(
    id: JournalId, title: string, date: string, image: string,
    weather: string, content: string, privacy: Privacy,
    likesNum: nat, comments: seq<CommentView>)

  /** `let {author_id, ...rest} = comment`: every field but the author. */
  function StripComment(c: Comment): CommentView {
    CommentView(c.id, c.date, c.content, c.anonymous, c.edited)
  }

  /** The `map` step of the projection for one journal. */
  function StripJournal(d: Doc): JournalView {
    var j := d.journal;
    JournalView(d.id, j.title, j.date, j.image, j.weather, j.content, j.privacy,
                |j.likedby|, seq(|j.comments|, i requires 0 <= i < |j.comments| => StripComment(j.comments[i])))
  }

  /** The `map` step: strip every journal, in order. Each view keeps the
      id and every field of its journal except `author_id` and `likedby`,
      carries the length of `likedby` as `likesNum`, and keeps every
      comment, in order, with every field except `author_id`. */
  function StripAll(ds: seq<Doc>): (vs: seq<JournalView>)
    ensures |vs| == |ds|
    ensures forall i :: 0 <= i < |ds| ==>
      var j := ds[i].journal;
      && vs[i].id == ds[i].id
      && vs[i].title == j.title && vs[i].date == j.date && vs[i].image == j.image
      && vs[i].weather == j.weather && vs[i].content == j.content
      && vs[i].privacy == j.privacy
      && vs[i].likesNum == |j.likedby|
      && |vs[i].comments| == |j.comments|
    ensures forall i, k :: 0 <= i < |ds| && 0 <= k < |ds[i].journal.comments| ==>
      var c := ds[i].journal.comments[k];
      && vs[i].comments[k].id == c.id && vs[i].comments[k].date == c.date
      && vs[i].comments[k].content == c.content
      && vs[i].comments[k].anonymous == c.anonymous && vs[i].comments[k].edited == c.edited
  {
    seq(|ds|, i requires 0 <= i < |ds| => StripJournal(ds[i]))
  }

  /** The `filter` step: keep the views whose privacy is not PRIVATE. */
  function HidePrivate(vs: seq<JournalView>): (r: seq<JournalView>)
    ensures forall v :: v in r <==> v in vs && v.privacy != Private
    ensures |r| <= |vs|
  {
    if vs == [] then []
    else (if vs[0].privacy == Private then [] else [vs[0]]) + HidePrivate(vs[1..])
  }

  /** Lines 448-464: map, then filter. */
  function Project(ds: seq<Doc>): seq<JournalView> {
    HidePrivate(StripAll(ds))
  }

  /** A reference definition that filters the documents first and strips
      the survivors after. */
  function VisibleStripped(ds: seq<Doc>): seq<JournalView> {
    if ds == [] then []
    else (if ds[0].journal.privacy == Private then [] else [StripJournal(ds[0])]) + VisibleStripped(ds[1..])
  }

  /** Stripping does not touch privacy, so mapping then filtering equals
      filtering then mapping. */
  lemma {:induction false} ProjectIsFilterThenStrip(ds: seq<Doc>)
    ensures Project(ds) == VisibleStripped(ds)
  {
    if ds != [] {
      ProjectIsFilterThenStrip(ds[1..]);
      assert StripAll(ds)[1..] == StripAll(ds[1..]);
    }
  }

  /** The projection keeps the input order: projecting a concatenation is
      concatenating the projections. */
  lemma {:induction false} VisibleStrippedConcat(a: seq<Doc>, b: seq<Doc>)
    ensures VisibleStripped(a + b) == VisibleStripped(a) + VisibleStripped(b)
  {
    if a == [] {
      assert a + b == b;
    } else {
      assert (a + b)[1..] == a[1..] + b;
      VisibleStrippedConcat(a[1..], b);
    }
  }

  /** The projection keeps the input order of the surviving journals:
      projecting a concatenation is concatenating the projections. */
  lemma ProjectConcat(a: seq<Doc>, b: seq<Doc>)
    ensures Project(a + b) == Project(a) + Project(b)
  {
    ProjectIsFilterThenStrip(a + b);
    ProjectIsFilterThenStrip(a);
    ProjectIsFilterThenStrip(b);
    VisibleStrippedConcat(a, b);
  }

  /** A view is in the projection exactly when it strips some non-private
      input journal. In particular the projection holds no private journal,
      and each view's `likesNum` is the length of its journal's `likedby`. */
  lemma ProjectMembers(ds: seq<Doc>, v: JournalView)
    ensures v in Project(ds) <==> exists i :: 0 <= i < |ds| && ds[i].journal.privacy != Private && v == StripJournal(ds[i])
    ensures v in Project(ds) ==> v.privacy != Private
    ensures v in Project(ds) ==> exists i :: 0 <= i < |ds| && v.likesNum == |ds[i].journal.likedby| && v.id == ds[i].id
  {
  }

  /** `populate('likes')`: the liked journals in the order of the user's
      `likes`, a repeated id giving a repeated journal and an id with no
      journal giving none. */
  function Populate(journals: map<JournalId, Journal>, ids: seq<JournalId>): (r: seq<Doc>)
    ensures forall d :: d in r ==> d.id in ids && d.id in journals && d.journal == journals[d.id]
    ensures forall id :: id in ids && id in journals ==> Doc(id, journals[id]) in r
  {
    if ids == [] then []
    else (if ids[0] in journals then [Doc(ids[0], journals[ids[0]])] else []) + Populate(journals, ids[1..])
  }

  /** The handler: validate the token parameter, resolve it, find the user
      with its likes populated, and project. */
  function GetLikedJournalsByUserToken(db: Db, idToken: Field, lookup: TokenLookup, faults: Faults): Reply<seq<JournalView>>
  {
    if !Present(idToken) then Fail(400, InvalidBody)
    else match lookup
      case LookupFailed => Fail(500, ServerError)
      case NoUserData => Unanswered
      case Resolved(uid) =>
        if faults.find || uid !in db.users then Fail(500, DatabaseError)
        else Ok(Project(Populate(db.journals, db.users[uid].likes)))
  }

  /** When every document with id `jid` is journal `j`, and one is in the
      input, a view with id `jid` is in the projection exactly when `j` is
      not private. */
  lemma ProjectListsUnlessPrivate(ds: seq<Doc>, jid: JournalId, j: Journal)
    requires Doc(jid, j) in ds
    requires forall d :: d in ds && d.id == jid ==> d.journal == j
    ensures (exists v :: v in Project(ds) && v.id == jid) <==> j.privacy != Private
  {
    var i :| 0 <= i < |ds| && ds[i] == Doc(jid, j);
    if j.privacy != Private {
      ProjectMembers(ds, StripJournal(ds[i]));
    } else {
      forall v | v in Project(ds) ensures v.id != jid {
        ProjectMembers(ds, v);
      }
    }
  }

  /** The error replies of the handler: 400 without a token, 500 'Server
      Error' when the token lookup fails, 500 'Database Error' when the read
      throws or there is no such user. */
  lemma LikedJournalsErrors(db: Db, idToken: Field, lookup: TokenLookup, faults: Faults)
    ensures !Present(idToken) ==> GetLikedJournalsByUserToken(db, idToken, lookup, faults) == Fail(400, InvalidBody)
    ensures Present(idToken) && lookup.LookupFailed? ==>
      GetLikedJournalsByUserToken(db, idToken, lookup, faults) == Fail(500, ServerError)
    ensures Present(idToken) && lookup.Resolved? && (faults.find || lookup.id !in db.users) ==>
      GetLikedJournalsByUserToken(db, idToken, lookup, faults) == Fail(500, DatabaseError)
  {
  }

  /** A journal the user liked is listed exactly when it is not private;
      a private one is hidden even though the user's `likes` names it. */
  lemma LikedJournalListedUnlessPrivate(db: Db, idToken: Field, uid: UserId, faults: Faults, jid: JournalId)
    requires Present(idToken) && !faults.find && uid in db.users
    requires jid in db.users[uid].likes && jid in db.journals
    ensures var r := GetLikedJournalsByUserToken(db, idToken, Resolved(uid), faults);
      r.Ok? && ((exists v :: v in r.body && v.id == jid) <==> db.journals[jid].privacy != Private)
  {
  }
}
