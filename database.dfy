/** The relational store the server actions talk to, as an in-memory value:
    one sequence of rows per table, in insertion order, the serial counters
    the store draws new ids from, and the auth provider's user metadata.
    Row shapes follow types/database.types.ts for users, gatherings and
    participations, and the columns the actions read and write for the
    other tables. */
module Database {
  import opened Common
  import opened Seqs

  /** `gatherings.status` */
  datatype GatheringStatus = Recruiting | Closed | Canceled

  /** `participations.status`; only `Joined` is ever written. */
  datatype ParticipationStatus = Pending | Joined | Rejected

  /** A row of `gatherings`. Times are milliseconds since the epoch. */
  datatype Gathering = Gathering(
    id: GatheringId,
    hostId: UserId,
    title: string,
    content: Option<string>,
    location: string,
    meetAt: int,
    capacity: int,
    imageUrl: Option<string>,
    category: Option<string>,
    status: GatheringStatus,
    createdAt: int,
    latitude: Option<real>,
    longitude: Option<real>)

  /** A row of `participations`: confirmed attendance. */
  datatype Participation = Participation(userId: UserId, gatheringId: GatheringId, status: ParticipationStatus)

  /** A row of `gathering_applications`: a pending request to join. */
  datatype Application = Application(userId: UserId, gatheringId: GatheringId, createdAt: int)

  /** The two votes a manner review can carry. */
  type Score = s: int | s == 1 || s == -1 witness 1

  /** A row of `user_reviews`. */
  datatype Review = Review(reviewerId: UserId, revieweeId: UserId, gatheringId: GatheringId, score: Score)

  /** A row of `comments`. */
  datatype Comment = Comment(id: nat, userId: UserId, gatheringId: GatheringId, content: string)

  /** A row of `likes`. */
  datatype Like = Like(id: nat, userId: UserId, gatheringId: GatheringId)

  /** A row of `notifications`. */
  datatype Notification = Notification(
    id: nat,
    userId: UserId,
    kind: string,
    content: string,
    linkUrl: Option<string>,
    isRead: bool,
    createdAt: int)

  /** A row of `users`, the public profile. */
  datatype Profile = Profile(
    id: UserId,
    email: Option<string>,
    name: Option<string>,
    avatarUrl: Option<string>,
    company: Option<string>,
    jobTitle: Option<string>)

  /** An auth user's `user_metadata`: a present key maps to a string or to JSON null. */
  type Metadata = map<string, Option<string>>

  function GatheringKey(g: Gathering): GatheringId { g.id }
  function ParticipationKey(p: Participation): (UserId, GatheringId) { (p.userId, p.gatheringId) }
  function ApplicationKey(a: Application): (UserId, GatheringId) { (a.userId, a.gatheringId) }
  function ReviewKey(r: Review): (UserId, UserId, GatheringId) { (r.reviewerId, r.revieweeId, r.gatheringId) }
  function CommentKey(c: Comment): nat { c.id }
  function LikeKey(l: Like): nat { l.id }
  function NotificationKey(n: Notification): nat { n.id }
  function ProfileKey(p: Profile): UserId { p.id }

  /** What an insert into a table with a unique key reports: the injected
      fault if there is one, a unique violation if the key is taken, and
      nothing otherwise (the row is then stored). */
  function InsertError<T, K(==)>(table: seq<T>, key: T -> K, row: T, fault: Option<StoreError>): (e: Option<StoreError>)
    ensures e.None? <==> fault.None? && !HasKey(table, key, key(row))
    ensures fault.None? && HasKey(table, key, key(row)) ==> e == Some(UniqueViolation)
  {
    if fault.Some? then fault
    else if HasKey(table, key, key(row)) then Some(UniqueViolation)
    else None
  }

  /** The rows of `gatherings` with this id (at most one). */
  function FindGathering(gatherings: seq<Gathering>, id: GatheringId): (r: Option<Gathering>)
    ensures r.Some? <==> HasKey(gatherings, GatheringKey, id)
    ensures r.Some? ==> r.value in gatherings && r.value.id == id
  {
    if gatherings == [] then None
    else if gatherings[0].id == id then Some(gatherings[0])
    else
      var r := FindGathering(gatherings[1..], id);
      assert HasKey(gatherings, GatheringKey, id) ==> HasKey(gatherings[1..], GatheringKey, id) by {
        if HasKey(gatherings, GatheringKey, id) {
          var i :| 0 <= i < |gatherings| && gatherings[i].id == id;
          assert gatherings[1..][i - 1] == gatherings[i];
        }
      }
      assert HasKey(gatherings[1..], GatheringKey, id) ==> HasKey(gatherings, GatheringKey, id) by {
        if HasKey(gatherings[1..], GatheringKey, id) {
          var i :| 0 <= i < |gatherings[1..]| && gatherings[1..][i].id == id;
          assert gatherings[i + 1] == gatherings[1..][i];
        }
      }
      r
  }

  class Database {
    var gatherings: seq<Gathering>
    var participations: seq<Participation>
    var applications: seq<Application>
    var reviews: seq<Review>
    var comments: seq<Comment>
    var likes: seq<Like>
    var notifications: seq<Notification>
    var profiles: seq<Profile>
    var authMetadata: map<UserId, Metadata>
    var nextGatheringId: nat
    var nextCommentId: nat
    var nextLikeId: nat

    /** The store's constraints: primary keys and the unique constraints on
        (user, gathering) and (reviewer, reviewee, gathering), and serial
        counters ahead of every id handed out. Foreign keys are not part of
        the model. */
    ghost predicate Valid()
      reads this
    {
      && UniqueBy(gatherings, GatheringKey)
      && (forall g :: g in gatherings ==> g.id < nextGatheringId)
      && UniqueBy(participations, ParticipationKey)
      && UniqueBy(applications, ApplicationKey)
      && UniqueBy(reviews, ReviewKey)
      && UniqueBy(comments, CommentKey)
      && (forall c :: c in comments ==> c.id < nextCommentId)
      && UniqueBy(likes, LikeKey)
      && (forall l :: l in likes ==> l.id < nextLikeId)
      && UniqueBy(notifications, NotificationKey)
      && UniqueBy(profiles, ProfileKey)
    }

    /** An empty store. */
    constructor ()
      ensures Valid()
      ensures gatherings == [] && participations == [] && applications == []
      ensures reviews == [] && comments == [] && likes == [] && notifications == []
      ensures profiles == [] && authMetadata == map[]
      ensures nextGatheringId == 1 && nextCommentId == 1 && nextLikeId == 1
    {
      gatherings, participations, applications := [], [], [];
      reviews, comments, likes, notifications := [], [], [], [];
      profiles, authMetadata := [], map[];
      nextGatheringId, nextCommentId, nextLikeId := 1, 1, 1;
    }
  }
}
