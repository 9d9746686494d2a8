/** The gathering participation lifecycle of app/gatherings/actions.ts: creating
    a gathering (the host joins it), joining or applying, cancelling,
    approving and rejecting applications, the host-only delete, and the two
    list queries. Each action reads and writes the store step by step, as the
    source does, and ends in an `Outcome`. */
module Gatherings {
  import opened Common
  import opened Seqs
  import opened Database
  import Decimal

  // ---------------------------------------------------------------------
  // Store writes on the three lifecycle tables
  // ---------------------------------------------------------------------

  /** `INSERT INTO gatherings ... RETURNING *`: the store draws the id from its serial. */
  method InsertGathering(db: Database, draft: Gathering, fault: Option<StoreError>)
    returns (err: Option<StoreError>, row: Gathering)
    requires db.Valid()
    modifies db`gatherings, db`nextGatheringId
    ensures db.Valid()
    ensures err == fault
    ensures row == draft.(id := old(db.nextGatheringId))
    ensures err.None? ==> (db.gatherings == old(db.gatherings) + [row]
                           && db.nextGatheringId == old(db.nextGatheringId) + 1)
    ensures err.Some? ==> (db.gatherings == old(db.gatherings)
                           && db.nextGatheringId == old(db.nextGatheringId))
  {
    row := draft.(id := db.nextGatheringId);
    err := fault;
    if err.None? {
      assert !HasKey(db.gatherings, GatheringKey, row.id);
      AppendKeepsUnique(db.gatherings, row, GatheringKey);
      db.gatherings := db.gatherings + [row];
      db.nextGatheringId := db.nextGatheringId + 1;
    }
  }

  /** `INSERT INTO participations`, refused when (user, gathering) is taken. */
  method InsertParticipation(db: Database, row: Participation, fault: Option<StoreError>)
    returns (err: Option<StoreError>)
    requires db.Valid()
    modifies db`participations
    ensures db.Valid()
    ensures err == InsertError(old(db.participations), ParticipationKey, row, fault)
    ensures db.participations == if err.None? then old(db.participations) + [row] else old(db.participations)
  {
    err := InsertError(db.participations, ParticipationKey, row, fault);
    if err.None? {
      AppendKeepsUnique(db.participations, row, ParticipationKey);
      db.participations := db.participations + [row];
    }
  }

  /** `INSERT INTO gathering_applications`, refused when (user, gathering) is taken. */
  method InsertApplication(db: Database, row: Application, fault: Option<StoreError>)
    returns (err: Option<StoreError>)
    requires db.Valid()
    modifies db`applications
    ensures db.Valid()
    ensures err == InsertError(old(db.applications), ApplicationKey, row, fault)
    ensures db.applications == if err.None? then old(db.applications) + [row] else old(db.applications)
  {
    err := InsertError(db.applications, ApplicationKey, row, fault);
    if err.None? {
      AppendKeepsUnique(db.applications, row, ApplicationKey);
      db.applications := db.applications + [row];
    }
  }

  /** The applications table after `DELETE ... WHERE user_id = u AND gathering_id = g`. */
  function WithoutApplication(applications: seq<Application>, u: UserId, g: GatheringId): (r: seq<Application>)
    ensures forall a :: a in r <==> a in applications && !(a.userId == u && a.gatheringId == g)
    ensures !HasKey(r, ApplicationKey, (u, g))
    ensures |r| <= |applications|
  {
    Filter(applications, (a: Application) => !(a.userId == u && a.gatheringId == g))
  }

  /** Deleting the (user, gathering) application keeps every other row, in order. */
  lemma WithoutApplicationKeepsOthers(applications: seq<Application>, u: UserId, g: GatheringId)
    requires !HasKey(applications, ApplicationKey, (u, g))
    ensures WithoutApplication(applications, u, g) == applications
  {
    FilterAll(applications, (a: Application) => !(a.userId == u && a.gatheringId == g));
  }

  /** `DELETE FROM gathering_applications WHERE user_id = u AND gathering_id = g`. */
  method DeleteApplication(db: Database, u: UserId, g: GatheringId, fault: Option<StoreError>)
    returns (err: Option<StoreError>)
    requires db.Valid()
    modifies db`applications
    ensures db.Valid()
    ensures err == fault
    ensures db.applications == if err.None? then WithoutApplication(old(db.applications), u, g) else old(db.applications)
  {
    err := fault;
    if err.None? {
      FilterKeepsUnique(db.applications, (a: Application) => !(a.userId == u && a.gatheringId == g), ApplicationKey);
      db.applications := WithoutApplication(db.applications, u, g);
    }
  }

  /** The gatherings table after `DELETE ... WHERE id = id`. */
  function WithoutGathering(gatherings: seq<Gathering>, id: GatheringId): (r: seq<Gathering>)
    ensures forall g :: g in r <==> g in gatherings && g.id != id
    ensures FindGathering(r, id).None?
  {
    Filter(gatherings, (g: Gathering) => g.id != id)
  }

  /** `DELETE FROM gatherings WHERE id = id`. Dependent rows are left as they are. */
  method DeleteGatheringRow(db: Database, id: GatheringId, fault: Option<StoreError>)
    returns (err: Option<StoreError>)
    requires db.Valid()
    modifies db`gatherings
    ensures db.Valid()
    ensures err == fault
    ensures db.gatherings == if err.None? then WithoutGathering(old(db.gatherings), id) else old(db.gatherings)
  {
    err := fault;
    if err.None? {
      FilterKeepsUnique(db.gatherings, (g: Gathering) => g.id != id, GatheringKey);
      db.gatherings := WithoutGathering(db.gatherings, id);
    }
  }

  // ---------------------------------------------------------------------
  // The actions
  // ---------------------------------------------------------------------

  /** The form input of `createGathering`. */
  datatype CreateGatheringInput = CreateGatheringInput(
    title: string,
    content: string,
    location: string,
    meetAt: int,
    capacity: int,
    category: string,
    imageUrl: Option<string>,
    latitude: Option<real>,
    longitude: Option<real>)

  /** The row `createGathering` asks the store to insert; the store fills in the
      id, the creation time and the default status `recruiting`. */
  function GatheringDraft(host: UserId, input: CreateGatheringInput, now: int): (g: Gathering)
    ensures g.hostId == host && g.status == Recruiting && g.createdAt == now
    ensures g.title == input.title && g.meetAt == input.meetAt && g.capacity == input.capacity
    ensures g.category == Some(input.category)
  {
    Gathering(0, host, input.title, Some(input.content), input.location, input.meetAt, input.capacity,
              input.imageUrl, Some(input.category), Recruiting, now, input.latitude, input.longitude)
  }

  /** The detail page of a gathering. */
  function GatheringPath(id: GatheringId): string {
    "/gatherings/" + Decimal.Show(id)
  }

  /** Different gatherings have different detail pages. */
  lemma GatheringPathInjective(a: GatheringId, b: GatheringId)
    requires GatheringPath(a) == GatheringPath(b)
    ensures a == b
  {
    var prefix := "/gatherings/";
    assert GatheringPath(a)[|prefix|..] == Decimal.Show(a);
    assert GatheringPath(b)[|prefix|..] == Decimal.Show(b);
    Decimal.ShowInjective(a, b);
  }

  /** `createGathering`: insert the gathering, then, best effort, the host's
      participation; a failure of the second insert is only logged. */
  method CreateGathering(db: Database, caller: Option<UserId>, input: CreateGatheringInput, now: int,
                         gatheringFault: Option<StoreError>, participationFault: Option<StoreError>)
    returns (out: Outcome<()>)
    requires db.Valid()
    modifies db`gatherings, db`nextGatheringId, db`participations
    ensures db.Valid()
    ensures caller.None? || gatheringFault.Some? ==>
              && out == Thrown(if caller.None? then "User is not authenticated" else "Failed to create gathering")
              && db.gatherings == old(db.gatherings)
              && db.nextGatheringId == old(db.nextGatheringId)
              && db.participations == old(db.participations)
    ensures caller.Some? && gatheringFault.None? ==>
              var row := GatheringDraft(caller.value, input, now).(id := old(db.nextGatheringId));
              var host := Participation(caller.value, row.id, Joined);
              && out == Redirected(GatheringPath(row.id))
              && db.gatherings == old(db.gatherings) + [row]
              && db.nextGatheringId == old(db.nextGatheringId) + 1
              && db.participations ==
                   if InsertError(old(db.participations), ParticipationKey, host, participationFault).None?
                   then old(db.participations) + [host]
                   else old(db.participations)
  {
    if caller.None? {
      return Thrown("User is not authenticated");
    }
    var user := caller.value;
    var gatheringError, gathering := InsertGathering(db, GatheringDraft(user, input, now), gatheringFault);
    if gatheringError.Some? {
      return Thrown("Failed to create gathering");
    }
    var participationError := InsertParticipation(db, Participation(user, gathering.id, Joined), participationFault);
    // a failed host participation is logged and otherwise ignored
    out := Redirected(GatheringPath(gathering.id));
  }

  /** `joinGathering`: the host is joined directly; anyone else files an
      application. `lookupFails` is a failed `.single()` lookup, which yields
      no row even for an existing gathering. */
  method JoinGathering(db: Database, caller: Option<UserId>, gatheringId: GatheringId, lookupFails: bool, now: int,
                       fault: Option<StoreError>)
    returns (out: Outcome<()>)
    requires db.Valid()
    modifies db`participations, db`applications
    ensures db.Valid()
    ensures caller.None? ==> out == Redirected("/login")
    ensures caller.Some? && (lookupFails || FindGathering(db.gatherings, gatheringId).None?) ==>
              out == Thrown("Gathering not found")
    ensures caller.None? || lookupFails || FindGathering(db.gatherings, gatheringId).None? ==>
              db.participations == old(db.participations) && db.applications == old(db.applications)
    ensures caller.Some? && !lookupFails && FindGathering(db.gatherings, gatheringId).Some?
            && FindGathering(db.gatherings, gatheringId).value.hostId == caller.value ==>
              var row := Participation(caller.value, gatheringId, Joined);
              var err := InsertError(old(db.participations), ParticipationKey, row, fault);
              && db.applications == old(db.applications)
              && (err.Some? ==> out == Thrown("Failed to join as host") && db.participations == old(db.participations))
              && (err.None? ==> out == Returned(()) && db.participations == old(db.participations) + [row])
    ensures caller.Some? && !lookupFails && FindGathering(db.gatherings, gatheringId).Some?
            && FindGathering(db.gatherings, gatheringId).value.hostId != caller.value ==>
              var row := Application(caller.value, gatheringId, now);
              var err := InsertError(old(db.applications), ApplicationKey, row, fault);
              && db.participations == old(db.participations)
              && (err.Some? && err.value.code == UniqueViolationCode ==> out == Thrown("Already applied"))
              && (err.Some? && err.value.code != UniqueViolationCode ==> out == Thrown("Failed to apply"))
              && (err.Some? ==> db.applications == old(db.applications))
              && (err.None? ==> out == Returned(()) && db.applications == old(db.applications) + [row])
  {
    if caller.None? {
      return Redirected("/login");
    }
    var user := caller.value;
    var gathering := if lookupFails then None else FindGathering(db.gatherings, gatheringId);
    if gathering.None? {
      return Thrown("Gathering not found");
    }
    if gathering.value.hostId == user {
      var err := InsertParticipation(db, Participation(user, gatheringId, Joined), fault);
      if err.Some? {
        return Thrown("Failed to join as host");
      }
    } else {
      var err := InsertApplication(db, Application(user, gatheringId, now), fault);
      if err.Some? {
        if err.value.code == UniqueViolationCode {
          return Thrown("Already applied");
        }
        return Thrown("Failed to apply");
      }
    }
    out := Returned(());
  }

  /** `cancelApplication`: delete the caller's own application; the delete's
      own error is not inspected. */
  method CancelApplication(db: Database, caller: Option<UserId>, gatheringId: GatheringId, fault: Option<StoreError>)
    returns (out: Outcome<()>)
    requires db.Valid()
    modifies db`applications
    ensures db.Valid()
    ensures caller.None? ==> out == Thrown("User not authenticated") && db.applications == old(db.applications)
    ensures caller.Some? ==> out == Returned(())
    ensures caller.Some? ==>
              db.applications == if fault.None? then WithoutApplication(old(db.applications), caller.value, gatheringId)
                                 else old(db.applications)
  {
    if caller.None? {
      return Thrown("User not authenticated");
    }
    var _ := DeleteApplication(db, caller.value, gatheringId, fault);
    out := Returned(());
  }

  /** `approveApplication`: insert the participation, then delete the
      application. Nobody's identity is checked, and no application needs to exist. */
  method ApproveApplication(db: Database, gatheringId: GatheringId, targetUserId: UserId,
                            insertFault: Option<StoreError>, deleteFault: Option<StoreError>)
    returns (out: Outcome<()>)
    requires db.Valid()
    modifies db`participations, db`applications
    ensures db.Valid()
    ensures var row := Participation(targetUserId, gatheringId, Joined);
            var err := InsertError(old(db.participations), ParticipationKey, row, insertFault);
            && (err.Some? ==> && out == Thrown("Failed to approve")
                              && db.participations == old(db.participations)
                              && db.applications == old(db.applications))
            && (err.None? ==> && out == Returned(())
                              && db.participations == old(db.participations) + [row]
                              && db.applications ==
                                   if deleteFault.None? then WithoutApplication(old(db.applications), targetUserId, gatheringId)
                                   else old(db.applications))
  {
    var joinError := InsertParticipation(db, Participation(targetUserId, gatheringId, Joined), insertFault);
    if joinError.Some? {
      return Thrown("Failed to approve");
    }
    var _ := DeleteApplication(db, targetUserId, gatheringId, deleteFault);
    out := Returned(());
  }

  /** `rejectApplication`: delete the application. Nobody's identity is checked. */
  method RejectApplication(db: Database, gatheringId: GatheringId, targetUserId: UserId, fault: Option<StoreError>)
    returns (out: Outcome<()>)
    requires db.Valid()
    modifies db`applications
    ensures db.Valid()
    ensures out == Returned(())
    ensures db.applications == if fault.None? then WithoutApplication(old(db.applications), targetUserId, gatheringId)
                               else old(db.applications)
  {
    var _ := DeleteApplication(db, targetUserId, gatheringId, fault);
    out := Returned(());
  }

  /** `deleteGathering`: only the host may delete, and only a gathering the
      lookup finds; `lookupFails` is a failed `.single()` lookup. */
  method DeleteGathering(db: Database, caller: Option<UserId>, gatheringId: GatheringId, lookupFails: bool,
                         fault: Option<StoreError>)
    returns (out: Outcome<()>)
    requires db.Valid()
    modifies db`gatherings
    ensures db.Valid()
    ensures caller.None? ==> out == Thrown("User is not authenticated")
    ensures caller.Some? && (lookupFails || FindGathering(old(db.gatherings), gatheringId).None?) ==>
              out == Thrown("Gathering not found")
    ensures caller.Some? && !lookupFails && FindGathering(old(db.gatherings), gatheringId).Some?
            && FindGathering(old(db.gatherings), gatheringId).value.hostId != caller.value ==>
              out == Thrown("Only host can delete gathering")
    ensures caller.Some? && !lookupFails && FindGathering(old(db.gatherings), gatheringId).Some?
            && FindGathering(old(db.gatherings), gatheringId).value.hostId == caller.value ==>
              out == (if fault.None? then Returned(()) else Thrown("Failed to delete gathering"))
    ensures out == Returned(()) ==> db.gatherings == WithoutGathering(old(db.gatherings), gatheringId)
    ensures out != Returned(()) ==> db.gatherings == old(db.gatherings)
  {
    if caller.None? {
      return Thrown("User is not authenticated");
    }
    var gathering := if lookupFails then None else FindGathering(db.gatherings, gatheringId);
    if gathering.None? {
      return Thrown("Gathering not found");
    }
    if gathering.value.hostId != caller.value {
      return Thrown("Only host can delete gathering");
    }
    var err := DeleteGatheringRow(db, gatheringId, fault);
    if err.Some? {
      return Thrown("Failed to delete gathering");
    }
    out := Returned(());
  }

  // ---------------------------------------------------------------------
  // Queries
  // ---------------------------------------------------------------------

  function ApplicationCreatedAt(a: Application): int { a.createdAt }

  /** `getApplications`: the applications for one gathering, oldest first; an
      error yields the empty list. */
  method GetApplications(db: Database, gatheringId: GatheringId, failed: bool) returns (r: seq<Application>)
    ensures failed ==> r == []
    ensures !failed ==> SortedBy(r, ApplicationCreatedAt)
    ensures !failed ==> forall a :: a in r <==> a in db.applications && a.gatheringId == gatheringId
    ensures !failed ==> multiset(r) == multiset(Filter(db.applications, (a: Application) => a.gatheringId == gatheringId))
  {
    if failed {
      return [];
    }
    var rows := Filter(db.applications, (a: Application) => a.gatheringId == gatheringId);
    r := SortBy(rows, ApplicationCreatedAt);
  }

  /** The optional filters `getGatherings` accepts. */
  datatype GatheringFilters = GatheringFilters(category: Option<string>, query: Option<string>, status: Option<string>)

  /** The conditions accumulated on the query builder. */
  datatype GatheringQuery = GatheringQuery(category: Option<string>, search: Option<string>, meetAfter: Option<int>)

  /** ASCII case folding, the part of `ILIKE`'s folding that the model covers. */
  function LowerChar(c: char): char {
    if 'A' <= c <= 'Z' then (c as int - 'A' as int + 'a' as int) as char else c
  }

  function Lower(s: string): (r: string)
    ensures |r| == |s|
  {
    seq(|s|, i requires 0 <= i < |s| => LowerChar(s[i]))
  }

  /** `q` occurs in `s` as a contiguous piece. */
  predicate Contains(s: string, q: string)
    decreases |s|
  {
    q <= s || (s != [] && Contains(s[1..], q))
  }

  /** `column ILIKE '%q%'`, with `q` read as plain text. */
  predicate ILikeSubstring(column: string, q: string) {
    Contains(Lower(column), Lower(q))
  }

  predicate MatchesQuery(q: GatheringQuery, g: Gathering) {
    && (q.category.Some? ==> g.category == q.category)
    && (q.search.Some? ==> ILikeSubstring(g.title, q.search.value)
                           || (g.content.Some? && ILikeSubstring(g.content.value, q.search.value)))
    && (q.meetAfter.Some? ==> g.meetAt > q.meetAfter.value)
  }

  /** Newest first: ascending order of this key. */
  function NewestFirst(g: Gathering): int { -g.createdAt }

  /** Which gatherings `getGatherings` is meant to list, stated on the filters themselves. */
  predicate Selected(filters: Option<GatheringFilters>, now: int, g: Gathering) {
    && ((filters.Some? && filters.value.category.Some? && filters.value.category.value != ""
         && filters.value.category.value != "all") ==> g.category == filters.value.category)
    && (filters.Some? && filters.value.query.Some? && filters.value.query.value != "" ==>
          ILikeSubstring(g.title, filters.value.query.value)
          || (g.content.Some? && ILikeSubstring(g.content.value, filters.value.query.value)))
    && (filters.Some? && filters.value.status == Some("open") ==> g.meetAt > now)
  }

  /** `getGatherings`: the query is refined filter by filter, then run with
      newest-created first; an error yields the empty list. */
  method GetGatherings(db: Database, filters: Option<GatheringFilters>, now: int, failed: bool)
    returns (r: seq<Gathering>)
    ensures failed ==> r == []
    ensures !failed ==> forall g :: g in r <==> g in db.gatherings && Selected(filters, now, g)
    ensures !failed ==> forall i, j :: 0 <= i < j < |r| ==> r[i].createdAt >= r[j].createdAt
    ensures !failed ==> multiset(r) == multiset(Filter(db.gatherings, (g: Gathering) => Selected(filters, now, g)))
  {
    var query := GatheringQuery(None, None, None);
    if filters.Some? && filters.value.category.Some? && filters.value.category.value != ""
       && filters.value.category.value != "all" {
      query := query.(category := filters.value.category);
    }
    if filters.Some? && filters.value.query.Some? && filters.value.query.value != "" {
      query := query.(search := filters.value.query);
    }
    if filters.Some? && filters.value.status == Some("open") {
      query := query.(meetAfter := Some(now));
    }
    if failed {
      return [];
    }
    assert forall g :: MatchesQuery(query, g) == Selected(filters, now, g);
    var rows := Filter(db.gatherings, (g: Gathering) => MatchesQuery(query, g));
    assert rows == Filter(db.gatherings, (g: Gathering) => Selected(filters, now, g)) by {
      FilterSameAs(db.gatherings, (g: Gathering) => MatchesQuery(query, g), (g: Gathering) => Selected(filters, now, g));
    }
    r := SortBy(rows, NewestFirst);
  }

  /** With no filters at all, every gathering is listed. */
  lemma NoFiltersListsAll(now: int, g: Gathering)
    ensures Selected(None, now, g)
    ensures Selected(Some(GatheringFilters(Some("all"), None, None)), now, g)
  {
  }
}
