/** The "right here, right now" and "lunch today" lists of
    app/gatherings/lightning-actions.ts: recruiting gatherings within a time
    window, annotated with their participant count and, when both ends have
    coordinates, their distance from the caller; with caller coordinates the
    list is cut to one kilometre and re-sorted by distance in place. */
module Lightning {
  import opened Common
  import opened Seqs
  import opened Database

  /** How far ahead the lightning list looks: 90 minutes, in milliseconds. */
  const LightningWindow: int := 90 * 60 * 1000

  /** The largest distance, in metres, the lightning list keeps. */
  const MaxDistance: nat := 1000

  /** The great-circle distance in whole metres between (lat1, lng1) and
      (lat2, lng2); the model leaves it unspecified. */
  type DistanceFn = (real, real, real, real) -> nat

  /** A gathering as the two lists return it. */
  datatype Listed = Listed(gathering: Gathering, participantCount: nat, distance: Option<nat>)

  function MeetAt(g: Gathering): int {
    g.meetAt
  }

  /** `participations (count)`: the embedded aggregate the store returns with a gathering. */
  function CountEmbed(participations: seq<Participation>, id: GatheringId): seq<nat> {
    [Count(participations, (p: Participation) => p.gatheringId == id)]
  }

  /** `g.participations?.[0]?.count || 0`. */
  function ParticipantCount(embed: Option<seq<nat>>): (n: nat)
    ensures embed.Some? && |embed.value| > 0 ==> n == embed.value[0]
    ensures embed.None? || embed.value == [] ==> n == 0
  {
    if embed.Some? && |embed.value| > 0 then embed.value[0] else 0
  }

  /** The distance of `g` from the caller: only when all four coordinates are truthy numbers. */
  function DistanceTo(latitude: Option<real>, longitude: Option<real>, g: Gathering, dist: DistanceFn): (d: Option<nat>)
    ensures d.Some? <==> TruthyNumber(latitude) && TruthyNumber(longitude)
                         && TruthyNumber(g.latitude) && TruthyNumber(g.longitude)
    ensures d.Some? ==> d.value == dist(latitude.value, longitude.value, g.latitude.value, g.longitude.value)
  {
    if TruthyNumber(latitude) && TruthyNumber(longitude) && TruthyNumber(g.latitude) && TruthyNumber(g.longitude)
    then Some(dist(latitude.value, longitude.value, g.latitude.value, g.longitude.value))
    else None
  }

  /** The `map` over the query result. */
  function Annotate(gs: seq<Gathering>, participations: seq<Participation>,
                    latitude: Option<real>, longitude: Option<real>, dist: DistanceFn): (r: seq<Listed>)
    ensures |r| == |gs|
    ensures forall i :: 0 <= i < |r| ==>
              && r[i].gathering == gs[i]
              && r[i].participantCount == ParticipantCount(Some(CountEmbed(participations, gs[i].id)))
              && r[i].distance == DistanceTo(latitude, longitude, gs[i], dist)
  {
    seq(|gs|, i requires 0 <= i < |gs| =>
      Listed(gs[i], ParticipantCount(Some(CountEmbed(participations, gs[i].id))), DistanceTo(latitude, longitude, gs[i], dist)))
  }

  /** Annotating keeps exactly the gatherings it was given, and the listed
      count is the number of participation rows of that gathering. */
  lemma AnnotateKeepsGatherings(gs: seq<Gathering>, participations: seq<Participation>,
                                latitude: Option<real>, longitude: Option<real>, dist: DistanceFn)
    ensures var r := Annotate(gs, participations, latitude, longitude, dist);
            && (forall x :: x in r ==> x.gathering in gs)
            && (forall g :: g in gs ==> exists x :: x in r && x.gathering == g)
            && (forall x :: x in r ==>
                  x.participantCount == Count(participations, (p: Participation) => p.gatheringId == x.gathering.id))
  {
    var r := Annotate(gs, participations, latitude, longitude, dist);
    forall x | x in r ensures x.gathering in gs {
      var i :| 0 <= i < |r| && r[i] == x;
    }
    forall g | g in gs ensures exists x :: x in r && x.gathering == g {
      var i :| 0 <= i < |gs| && gs[i] == g;
      assert r[i] in r;
    }
  }

  /** The rows of the lightning query: recruiting, meeting between now and 90 minutes from now. */
  predicate StartsSoon(now: int, g: Gathering) {
    g.status == Recruiting && now <= g.meetAt <= now + LightningWindow
  }

  /** The rows of the lunch query: recruiting lunches meeting within the given day. */
  predicate LunchToday(dayStart: int, dayEnd: int, g: Gathering) {
    g.status == Recruiting && g.category == Some("lunch") && dayStart <= g.meetAt <= dayEnd
  }

  /** The key of `sort((a, b) => (a.distance || 0) - (b.distance || 0))`. */
  function DistanceKey(x: Listed): int {
    x.distance.GetOr(0)
  }

  predicate Near(x: Listed) {
    x.distance.Some? && x.distance.value <= MaxDistance
  }

  /** Exchanges the neighbours at `i - 1` and `i`. */
  method SwapDown(a: array<Listed>, i: int)
    requires 0 < i < a.Length
    modifies a
    ensures a[..] == old(a[..])[i - 1 := old(a[i])][i := old(a[i - 1])]
    ensures multiset(a[..]) == multiset(old(a[..]))
  {
    a[i - 1], a[i] := a[i], a[i - 1];
  }

  /** Moves `a[i]` left past every larger key, so that `a[..i + 1]` is sorted. */
  method InsertAt(a: array<Listed>, i: int)
    requires 0 <= i < a.Length
    requires forall k, l :: 0 <= k < l < i ==> DistanceKey(a[k]) <= DistanceKey(a[l])
    modifies a
    ensures forall k, l :: 0 <= k < l <= i ==> DistanceKey(a[k]) <= DistanceKey(a[l])
    ensures multiset(a[..]) == multiset(old(a[..]))
  {
    var j := i;
    while j > 0 && DistanceKey(a[j - 1]) > DistanceKey(a[j])
      invariant 0 <= j <= i
      invariant forall k, l :: 0 <= k < l <= i && k != j && l != j ==> DistanceKey(a[k]) <= DistanceKey(a[l])
      invariant forall l :: j < l <= i ==> DistanceKey(a[j]) < DistanceKey(a[l])
      invariant 0 < j < i ==> DistanceKey(a[j - 1]) <= DistanceKey(a[j + 1])
      invariant multiset(a[..]) == multiset(old(a[..]))
    {
      SwapDown(a, j);
      j := j - 1;
    }
  }

  /** `Array.prototype.sort` with that comparator, as an insertion sort by adjacent swaps. */
  method SortByDistance(a: array<Listed>)
    modifies a
    ensures SortedBy(a[..], DistanceKey)
    ensures multiset(a[..]) == multiset(old(a[..]))
  {
    var i := 0;
    while i < a.Length
      invariant 0 <= i <= a.Length
      invariant forall k, l :: 0 <= k < l < i ==> DistanceKey(a[k]) <= DistanceKey(a[l])
      invariant multiset(a[..]) == multiset(old(a[..]))
    {
      InsertAt(a, i);
      i := i + 1;
    }
  }

  /** The rows of the time-window query, ordered by meeting time. */
  function WindowRows(gatherings: seq<Gathering>, now: int): seq<Gathering> {
    SortBy(Filter(gatherings, (g: Gathering) => StartsSoon(now, g)), MeetAt)
  }

  /** The annotated time-window query: every gathering of the window, once each. */
  function LightningRows(gatherings: seq<Gathering>, participations: seq<Participation>, now: int,
                         latitude: Option<real>, longitude: Option<real>, dist: DistanceFn): (r: seq<Listed>)
    ensures |r| == Count(gatherings, (g: Gathering) => StartsSoon(now, g))
    ensures forall x :: x in r ==> x.gathering in gatherings && StartsSoon(now, x.gathering)
    ensures forall g :: g in gatherings && StartsSoon(now, g) ==> exists x :: x in r && x.gathering == g
  {
    AnnotateKeepsGatherings(WindowRows(gatherings, now), participations, latitude, longitude, dist);
    Annotate(WindowRows(gatherings, now), participations, latitude, longitude, dist)
  }

  /** The lightning rows are in ascending meeting time. */
  lemma LightningRowsByTime(gatherings: seq<Gathering>, participations: seq<Participation>, now: int,
                            latitude: Option<real>, longitude: Option<real>, dist: DistanceFn)
    ensures var r := LightningRows(gatherings, participations, now, latitude, longitude, dist);
            forall i, j :: 0 <= i < j < |r| ==> r[i].gathering.meetAt <= r[j].gathering.meetAt
  {
    var rows := WindowRows(gatherings, now);
    var r := LightningRows(gatherings, participations, now, latitude, longitude, dist);
    forall i, j | 0 <= i < j < |r| ensures r[i].gathering.meetAt <= r[j].gathering.meetAt {
      assert MeetAt(rows[i]) <= MeetAt(rows[j]);
    }
  }

  /** Each lightning row carries its gathering's distance from the caller and
      the number of its participation rows. */
  lemma LightningRowsAnnotated(gatherings: seq<Gathering>, participations: seq<Participation>, now: int,
                               latitude: Option<real>, longitude: Option<real>, dist: DistanceFn)
    ensures forall x :: x in LightningRows(gatherings, participations, now, latitude, longitude, dist) ==>
              && x.distance == DistanceTo(latitude, longitude, x.gathering, dist)
              && x.participantCount == Count(participations, (p: Participation) => p.gatheringId == x.gathering.id)
  {
    var r := LightningRows(gatherings, participations, now, latitude, longitude, dist);
    AnnotateKeepsGatherings(WindowRows(gatherings, now), participations, latitude, longitude, dist);
    forall x | x in r ensures x.distance == DistanceTo(latitude, longitude, x.gathering, dist) {
      var i :| 0 <= i < |r| && r[i] == x;
    }
  }

  /** `getLightningGatherings`: without caller coordinates the annotated query
      as it is; with them, only the gatherings at most a kilometre away,
      nearest first. A failed query yields the empty list. */
  method GetLightningGatherings(db: Database, now: int, latitude: Option<real>, longitude: Option<real>,
                                dist: DistanceFn, failed: bool)
    returns (r: seq<Listed>)
    ensures failed ==> r == []
    ensures !failed && !(TruthyNumber(latitude) && TruthyNumber(longitude)) ==>
              r == LightningRows(db.gatherings, db.participations, now, latitude, longitude, dist)
    ensures !failed && TruthyNumber(latitude) && TruthyNumber(longitude) ==>
              var rows := LightningRows(db.gatherings, db.participations, now, latitude, longitude, dist);
              && SortedBy(r, DistanceKey)
              && multiset(r) == multiset(Filter(rows, Near))
              && (forall x :: x in r <==> x in rows && Near(x))
  {
    if failed {
      return [];
    }
    var results := LightningRows(db.gatherings, db.participations, now, latitude, longitude, dist);
    if TruthyNumber(latitude) && TruthyNumber(longitude) {
      var near := Filter(results, Near);
      var a := new Listed[|near|](i requires 0 <= i < |near| => near[i]);
      assert a[..] == near;
      SortByDistance(a);
      r := a[..];
      assert forall x :: x in r <==> x in near by {
        forall x ensures x in r <==> x in near {
          assert x in r <==> x in multiset(r);
          assert x in near <==> x in multiset(near);
        }
      }
    } else {
      r := results;
    }
  }

  /** With caller coordinates, every gathering of the window within a
      kilometre is on the list, and nothing farther or without a distance is. */
  lemma NearListIsExact(gatherings: seq<Gathering>, participations: seq<Participation>, now: int,
                        latitude: Option<real>, longitude: Option<real>, dist: DistanceFn, g: Gathering)
    requires TruthyNumber(latitude) && TruthyNumber(longitude)
    requires g in gatherings && StartsSoon(now, g)
    ensures var rows := LightningRows(gatherings, participations, now, latitude, longitude, dist);
            var d := DistanceTo(latitude, longitude, g, dist);
            (exists x :: x in rows && Near(x) && x.gathering == g) <==> d.Some? && d.value <= MaxDistance
  {
    var rows := LightningRows(gatherings, participations, now, latitude, longitude, dist);
    LightningRowsAnnotated(gatherings, participations, now, latitude, longitude, dist);
    var x :| x in rows && x.gathering == g;
    assert x.distance == DistanceTo(latitude, longitude, g, dist);
  }

  /** The rows of the lunch query, ordered by meeting time. */
  function LunchRows(gatherings: seq<Gathering>, dayStart: int, dayEnd: int): seq<Gathering> {
    SortBy(Filter(gatherings, (g: Gathering) => LunchToday(dayStart, dayEnd, g)), MeetAt)
  }

  /** `getLunchGatherings`: every recruiting lunch of the day, once each, with
      its participant count and no distance. A failed query yields the empty list. */
  function LunchGatherings(gatherings: seq<Gathering>, participations: seq<Participation>,
                           dayStart: int, dayEnd: int, failed: bool): (r: seq<Listed>)
    ensures failed ==> r == []
    ensures !failed ==> |r| == Count(gatherings, (g: Gathering) => LunchToday(dayStart, dayEnd, g))
    ensures forall x :: x in r ==> x.gathering in gatherings && LunchToday(dayStart, dayEnd, x.gathering)
    ensures !failed ==> forall g :: g in gatherings && LunchToday(dayStart, dayEnd, g) ==> exists x :: x in r && x.gathering == g
    ensures forall x :: x in r ==>
              x.participantCount == Count(participations, (p: Participation) => p.gatheringId == x.gathering.id)
  {
    if failed then []
    else
      AnnotateKeepsGatherings(LunchRows(gatherings, dayStart, dayEnd), participations, None, None, (a, b, c, d) => 0);
      Annotate(LunchRows(gatherings, dayStart, dayEnd), participations, None, None, (a, b, c, d) => 0)
  }

  /** The lunch list is in ascending meeting time and carries no distance. */
  lemma LunchGatheringsByTime(gatherings: seq<Gathering>, participations: seq<Participation>,
                              dayStart: int, dayEnd: int)
    ensures var r := LunchGatherings(gatherings, participations, dayStart, dayEnd, false);
            && (forall i, j :: 0 <= i < j < |r| ==> r[i].gathering.meetAt <= r[j].gathering.meetAt)
            && (forall x :: x in r ==> x.distance.None?)
  {
    var rows := LunchRows(gatherings, dayStart, dayEnd);
    var r := LunchGatherings(gatherings, participations, dayStart, dayEnd, false);
    forall i, j | 0 <= i < j < |r| ensures r[i].gathering.meetAt <= r[j].gathering.meetAt {
      assert MeetAt(rows[i]) <= MeetAt(rows[j]);
    }
    forall x | x in r ensures x.distance.None? {
      var i :| 0 <= i < |r| && r[i] == x;
    }
  }
}
