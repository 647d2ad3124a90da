/** The browser's optimistic update after revoking a device equals the server's next snapshot. */
module OptimisticRefinement {
  import opened DeviceView
  import opened Ordered
  import opened Sessions
  import opened Tables
  import opened Text

  /** The device list of the security center at instant `now`. */
  function Snapshot(sessions: seq<Session>, user: nat, current: Option<nat>, now: int): seq<Device> {
    Dedupe(DeviceRows(sessions, LoadActiveSessions(sessions, user, now), current))
  }

  // ---------------------------------------------------------------- the listing is a stable sort

  ghost predicate Sorted(sessions: seq<Session>, ids: seq<nat>)
    requires Rows(sessions, ids)
  {
    forall i, j :: 0 <= i < j < |ids| ==> !Before(sessions[ids[j]], sessions[ids[i]])
  }

  lemma {:induction false} InsertSorted(sessions: seq<Session>, id: nat, ids: seq<nat>)
    requires id < |sessions| && Rows(sessions, ids) && Sorted(sessions, ids)
    ensures Sorted(sessions, InsertRow(sessions, id, ids))
  {
    if ids != [] && Before(sessions[ids[0]], sessions[id]) {
      var tail := InsertRow(sessions, id, ids[1..]);
      InsertSorted(sessions, id, ids[1..]);
      forall j | 0 <= j < |tail| ensures !Before(sessions[tail[j]], sessions[ids[0]]) {
        assert tail[j] in tail;
      }
    }
  }

  /** The query's order, without duplicates: most recently seen first, ties by creation. */
  lemma {:induction false} OrderSorted(sessions: seq<Session>, ids: seq<nat>)
    requires Rows(sessions, ids)
    ensures Sorted(sessions, OrderRows(sessions, ids))
    ensures multiset(OrderRows(sessions, ids)) == multiset(ids)
  {
    if ids == [] {
    } else {
      OrderSorted(sessions, ids[1..]);
      hide Sorted, Before, InsertRow;
      InsertSorted(sessions, ids[0], OrderRows(sessions, ids[1..]));
      InsertMultiset(sessions, ids[0], OrderRows(sessions, ids[1..]));
      assert ids == [ids[0]] + ids[1..];
    }
  }

  lemma {:induction false} InsertMultiset(sessions: seq<Session>, id: nat, ids: seq<nat>)
    requires id < |sessions| && Rows(sessions, ids)
    ensures multiset(InsertRow(sessions, id, ids)) == multiset(ids) + multiset{id}
  {
    if ids != [] && Before(sessions[ids[0]], sessions[id]) {
      InsertMultiset(sessions, id, ids[1..]);
      assert ids == [ids[0]] + ids[1..];
    }
  }

  lemma {:induction false} ActiveIdsOnce(sessions: seq<Session>, user: nat, now: int, i: nat)
    requires i <= |sessions|
    ensures forall id: nat :: multiset(ActiveIds(sessions, user, now, i))[id] <= 1
    decreases |sessions| - i
  {
    if i == |sessions| {
    } else {
      ActiveIdsOnce(sessions, user, now, i + 1);
      var rest := ActiveIds(sessions, user, now, i + 1);
      assert i !in rest;
      var counted: multiset<nat> := multiset(rest);
      assert counted[i] == 0;
    }
  }

  /** The listing is what the query asks for: exactly the active sessions, each once, in the query's order. */
  lemma ListingMeetsQuery(sessions: seq<Session>, user: nat, now: int)
    ensures Sorted(sessions, LoadActiveSessions(sessions, user, now))
    ensures forall id: nat :: multiset(LoadActiveSessions(sessions, user, now))[id]
                           == if id < |sessions| && IsActive(sessions[id], user, now) then 1 else 0
  {
    OrderSorted(sessions, ActiveIds(sessions, user, now));
    ActiveIdsOnce(sessions, user, now, 0);
  }

  /** What the listing's order means: a session seen later comes first, one never seen last, and of two seen together
      the younger. */
  lemma ListingBySight(sessions: seq<Session>, user: nat, now: int, i: nat, j: nat)
    requires i < j < |LoadActiveSessions(sessions, user, now)|
    ensures var ids := LoadActiveSessions(sessions, user, now);
            var s, t := sessions[ids[i]], sessions[ids[j]];
            && (s.lastSeenAt.None? ==> t.lastSeenAt.None?)
            && (s.lastSeenAt.Some? && t.lastSeenAt.Some? ==> s.lastSeenAt.value >= t.lastSeenAt.value)
            && (s.lastSeenAt == t.lastSeenAt ==> s.createdAt >= t.createdAt)
  {
    ListingMeetsQuery(sessions, user, now);
  }

  // ---------------------------------------------------------------- dropping rows from the listing

  function Remaining(sessions: seq<Session>, ids: seq<nat>, closed: set<nat>): (r: seq<nat>)
    requires Rows(sessions, ids)
    ensures Rows(sessions, r)
    ensures forall x :: x in r <==> x in ids && x !in closed
  {
    if ids == [] then []
    else
      var rest := Remaining(sessions, ids[1..], closed);
      if ids[0] in closed then rest else [ids[0]] + rest
  }

  lemma RemainingCons(sessions: seq<Session>, x: nat, ids: seq<nat>, closed: set<nat>)
    requires x < |sessions| && Rows(sessions, ids)
    ensures Rows(sessions, [x] + ids)
    ensures Remaining(sessions, [x] + ids, closed)
            == if x in closed then Remaining(sessions, ids, closed) else [x] + Remaining(sessions, ids, closed)
  {
  }

  lemma InsertCons(sessions: seq<Session>, id: nat, x: nat, ids: seq<nat>)
    requires id < |sessions| && x < |sessions| && Rows(sessions, ids)
    ensures Rows(sessions, [x] + ids)
    ensures InsertRow(sessions, id, [x] + ids)
            == if Before(sessions[x], sessions[id]) then [x] + InsertRow(sessions, id, ids) else [id] + ([x] + ids)
  {
  }

  /** Closing rows and inserting a row can be done in either order. */
  lemma {:induction false} InsertRemaining(sessions: seq<Session>, id: nat, ids: seq<nat>, closed: set<nat>)
    requires id < |sessions| && Rows(sessions, ids) && Sorted(sessions, ids)
    ensures Remaining(sessions, InsertRow(sessions, id, ids), closed)
            == if id in closed then Remaining(sessions, ids, closed)
                else InsertRow(sessions, id, Remaining(sessions, ids, closed))
  {
    if ids == [] || !Before(sessions[ids[0]], sessions[id]) {
      RemainingCons(sessions, id, ids, closed);
      NoneBefore(sessions, id, ids, closed);
    } else {
      var tail := ids[1..];
      RemainingCons(sessions, ids[0], InsertRow(sessions, id, tail), closed);
      InsertRemaining(sessions, id, tail, closed);
      InsertCons(sessions, id, ids[0], Remaining(sessions, tail, closed));
    }
  }

  lemma NoneBefore(sessions: seq<Session>, id: nat, ids: seq<nat>, closed: set<nat>)
    requires id < |sessions| && Rows(sessions, ids) && Sorted(sessions, ids)
    requires ids == [] || !Before(sessions[ids[0]], sessions[id])
    ensures InsertRow(sessions, id, Remaining(sessions, ids, closed)) == [id] + Remaining(sessions, ids, closed)
  {
  }

  lemma {:induction false} OrderRemaining(sessions: seq<Session>, ids: seq<nat>, closed: set<nat>)
    requires Rows(sessions, ids)
    ensures Remaining(sessions, OrderRows(sessions, ids), closed)
            == OrderRows(sessions, Remaining(sessions, ids, closed))
  {
    if ids == [] {
    } else {
      OrderRemaining(sessions, ids[1..], closed);
      OrderSorted(sessions, ids[1..]);
      InsertRemaining(sessions, ids[0], OrderRows(sessions, ids[1..]), closed);
      var kept := Remaining(sessions, ids[1..], closed);
      assert ([ids[0]] + kept)[1..] == kept;
    }
  }

  lemma {:induction false} InsertFrame(sessions: seq<Session>, other: seq<Session>, id: nat, ids: seq<nat>)
    requires |sessions| == |other| && id < |sessions| && Rows(sessions, ids)
    requires sessions[id] == other[id] && forall x :: x in ids ==> sessions[x] == other[x]
    ensures InsertRow(sessions, id, ids) == InsertRow(other, id, ids)
  {
    if ids == [] {
    } else {
      InsertFrame(sessions, other, id, ids[1..]);
    }
  }

  lemma {:induction false} OrderFrame(sessions: seq<Session>, other: seq<Session>, ids: seq<nat>)
    requires |sessions| == |other| && Rows(sessions, ids)
    requires forall x :: x in ids ==> sessions[x] == other[x]
    ensures OrderRows(sessions, ids) == OrderRows(other, ids)
  {
    if ids == [] {
    } else {
      OrderFrame(sessions, other, ids[1..]);
      InsertFrame(sessions, other, ids[0], OrderRows(sessions, ids[1..]));
    }
  }

  lemma StillActive(s: Session, t: Session, user: nat, now: int, closed: bool)
    requires if closed then !t.Live() else t == s
    ensures IsActive(t, user, now) <==> IsActive(s, user, now) && !closed
  {
  }

  lemma ActiveStep(sessions: seq<Session>, user: nat, now: int, i: nat)
    requires i < |sessions|
    ensures ActiveIds(sessions, user, now, i) ==
            (if IsActive(sessions[i], user, now) then [i] else []) + ActiveIds(sessions, user, now, i + 1)
  {
  }

  lemma {:induction false} ActiveRemaining(sessions: seq<Session>, other: seq<Session>, user: nat, now: int,
                                           closed: set<nat>, i: nat)
    requires i <= |sessions| == |other|
    requires forall j :: 0 <= j < |sessions| ==> if j in closed then !other[j].Live() else other[j] == sessions[j]
    ensures ActiveIds(other, user, now, i) == Remaining(sessions, ActiveIds(sessions, user, now, i), closed)
    decreases |sessions| - i
  {
    if i == |sessions| {
    } else {
      var rest, kept := ActiveIds(sessions, user, now, i + 1), ActiveIds(other, user, now, i + 1);
      ActiveRemaining(sessions, other, user, now, closed, i + 1);
      assert kept == Remaining(sessions, rest, closed);
      ActiveStep(sessions, user, now, i);
      ActiveStep(other, user, now, i);
      StillActive(sessions[i], other[i], user, now, i in closed);
      RemainingCons(sessions, i, rest, closed);
      var head := if IsActive(sessions[i], user, now) then [i] else [];
      assert ActiveIds(sessions, user, now, i) == head + rest;
      hide *;
      if head == [] {
        assert head + rest == rest && head + kept == kept;
      }
    }
  }

  /** Revoking rows removes them from the listing and keeps the order of the others. */
  lemma ListingAfterRevoke(sessions: seq<Session>, user: nat, now: int, closed: set<nat>, at: int)
    ensures LoadActiveSessions(RevokeSessions(sessions, closed, at), user, now)
            == Remaining(sessions, LoadActiveSessions(sessions, user, now), closed)
  {
    var other := RevokeSessions(sessions, closed, at);
    var ids := ActiveIds(sessions, user, now);
    ActiveRemaining(sessions, other, user, now, closed, 0);
    OrderRemaining(sessions, ids, closed);
    OrderFrame(sessions, other, Remaining(sessions, ids, closed));
  }

  // ---------------------------------------------------------------- rows

  lemma {:induction false} ExcludingCons(d: Device, rows: seq<Device>, name: string)
    ensures Excluding([d] + rows, name) == (if d.name != name then [d] else []) + Excluding(rows, name)
  {
    if rows == [] {
      assert [d] + rows == [d] && [d][..0] == [];
    } else {
      ExcludingCons(d, rows[..|rows| - 1], name);
      assert ([d] + rows)[..|rows|] == [d] + rows[..|rows| - 1];
    }
  }

  function MapRows(row: nat -> Device, ids: seq<nat>): seq<Device> {
    if ids == [] then [] else [row(ids[0])] + MapRows(row, ids[1..])
  }

  /** Closing a name's sessions excludes its rows. */
  lemma {:induction false} MapRemaining(sessions: seq<Session>, row: nat -> Device, ids: seq<nat>, closed: set<nat>,
                                        name: string)
    requires Rows(sessions, ids)
    requires forall x :: x in ids ==> (x in closed <==> row(x).name == name)
    ensures MapRows(row, Remaining(sessions, ids, closed)) == Excluding(MapRows(row, ids), name)
  {
    if ids == [] {
    } else {
      MapRemaining(sessions, row, ids[1..], closed, name);
      ExcludingCons(row(ids[0]), MapRows(row, ids[1..]), name);
      var kept := Remaining(sessions, ids[1..], closed);
      assert ([ids[0]] + kept)[1..] == kept;
    }
  }

  /** The row of each session, as a function of its id. */
  function RowFunction(sessions: seq<Session>, current: Option<nat>): nat -> Device {
    (x: nat) => if x < |sessions| then DeviceOf(sessions[x], x, current)
        else Device(x, "", "", "", 0, 0, false, None, None, None)
  }

  lemma {:induction false} DeviceRowsMap(sessions: seq<Session>, ids: seq<nat>, current: Option<nat>)
    requires Rows(sessions, ids)
    ensures DeviceRows(sessions, ids, current) == MapRows(RowFunction(sessions, current), ids)
  {
    if ids == [] {
    } else {
      DeviceRowsMap(sessions, ids[1..], current);
    }
  }

  lemma RowsRemaining(sessions: seq<Session>, ids: seq<nat>, current: Option<nat>, closed: set<nat>, name: string)
    requires Rows(sessions, ids)
    requires forall x :: x in ids ==> (x in closed <==> DisplayName(sessions[x]) == name)
    ensures DeviceRows(sessions, Remaining(sessions, ids, closed), current)
            == Excluding(DeviceRows(sessions, ids, current), name)
  {
    DeviceRowsMap(sessions, ids, current);
    DeviceRowsMap(sessions, Remaining(sessions, ids, closed), current);
    forall x | x in ids ensures x in closed <==> RowFunction(sessions, current)(x).name == name {
      assert RowFunction(sessions, current)(x).name == DisplayName(sessions[x]);
    }
    MapRemaining(sessions, RowFunction(sessions, current), ids, closed, name);
  }

  /** A row of the snapshot is the row of an active session. */
  lemma SnapshotRow(sessions: seq<Session>, user: nat, current: Option<nat>, now: int, d: Device)
    requires d in Snapshot(sessions, user, current, now)
    ensures d.id < |sessions| && IsActive(sessions[d.id], user, now) && d == DeviceOf(sessions[d.id], d.id, current)
    ensures d.id in LoadActiveSessions(sessions, user, now)
  {
  }

  /** What a displayed row says: it is of an active session of the user, and each column is that session's. */
  lemma SnapshotShows(sessions: seq<Session>, user: nat, current: Option<nat>, now: int, d: Device)
    requires d in Snapshot(sessions, user, current, now)
    ensures d.id < |sessions|
    ensures var s := sessions[d.id];
            && s.user == user && s.revokedAt.None? && s.expiresAt > now
            && d.name == DisplayName(s) && (d.isCurrent <==> current == Some(d.id))
            && d.system == ParseUserAgent(s.meta.userAgent).system && d.kind == ParseUserAgent(s.meta.userAgent).kind
            && d.loggedInAt == s.createdAt
            && (s.lastSeenAt.Some? ==> d.lastSeenAt == s.lastSeenAt.value)
            && (s.lastSeenAt.None? ==> d.lastSeenAt == s.createdAt)
            && d.client == s.client && d.ip == s.meta.ip
            && (d.location.Some? ==> s.meta.location.Some? && d.location.value == Strip(s.meta.location.value) != "")
            && (d.location.None? ==> s.meta.location.None? || Strip(s.meta.location.value) == "")
  {
    SnapshotRow(sessions, user, current, now, d);
    hide ParseUserAgent, DisplayName, Strip, Snapshot;
  }

  /** Every active session's title is displayed, by the caller's own session when it has that title. */
  lemma SnapshotCovers(sessions: seq<Session>, user: nat, current: Option<nat>, now: int, x: nat) returns (d: Device)
    requires x < |sessions| && IsActive(sessions[x], user, now)
    ensures d in Snapshot(sessions, user, current, now) && d.name == DisplayName(sessions[x])
    ensures current == Some(x) ==> d.id == x
  {
    var ids := LoadActiveSessions(sessions, user, now);
    var rows := DeviceRows(sessions, ids, current);
    assert x in ids;
    var j :| 0 <= j < |ids| && ids[j] == x;
    assert rows[j].name == DisplayName(sessions[x]) && (rows[j].isCurrent <==> current == Some(x));
    d := NameIsShown(rows, j);
    SnapshotRow(sessions, user, current, now, d);
    hide LoadActiveSessions, DisplayName, IsActive, Dedupe;
  }

  /** A displayed row that is not current was seen no earlier than any active session of its title. */
  lemma ShowsTheLatest(sessions: seq<Session>, user: nat, current: Option<nat>, now: int, d: Device, x: nat)
    requires d in Snapshot(sessions, user, current, now) && !d.isCurrent
    requires x in LoadActiveSessions(sessions, user, now) && DisplayName(sessions[x]) == d.name
    ensures d.id < |sessions|
    ensures var shown, other := sessions[d.id], sessions[x];
            && (shown.lastSeenAt.None? ==> other.lastSeenAt.None?)
            && (shown.lastSeenAt.Some? && other.lastSeenAt.Some? ==> shown.lastSeenAt.value >= other.lastSeenAt.value)
            && (shown.lastSeenAt == other.lastSeenAt ==> shown.createdAt >= other.createdAt)
  {
    var ids := LoadActiveSessions(sessions, user, now);
    var rows := DeviceRows(sessions, ids, current);
    SnapshotRow(sessions, user, current, now, d);
    var j :| 0 <= j < |ids| && ids[j] == x;
    var i := ShownFirst(rows, d, j);
    assert ids[i] == d.id;
    hide *;
    if i < j {
      ListingBySight(sessions, user, now, i, j);
    }
  }

  /** The caller's own session is never listed under the name of a displayed row that is not current. */
  lemma OwnNameDiffers(sessions: seq<Session>, user: nat, current: Option<nat>, now: int, d: Device, x: nat)
    requires d in Snapshot(sessions, user, current, now) && !d.isCurrent
    requires x in LoadActiveSessions(sessions, user, now) && DisplayName(sessions[x]) == d.name
    ensures current != Some(x)
  {
    var ids := LoadActiveSessions(sessions, user, now);
    var rows := DeviceRows(sessions, ids, current);
    DisplayedGroup(rows, d);
    var i :| 0 <= i < |ids| && ids[i] == x;
    assert rows[i] in rows;
  }

  /** Revoking a displayed device that is not the caller's own succeeds, and at every later instant the server's
      snapshot is the optimistic update of the one it would have sent without the revocation, order included. */
  lemma OptimisticUpdateMatchesServer(a: AuthTables, user: nat, current: Option<nat>, now: int, d: Device, later: int)
    requires d in Snapshot(a.sessions, user, current, now) && !d.isCurrent && now <= later
    ensures var (b, reply) := RevokeSecuritySession(a, now, user, d.id, current);
            && reply == Ok
            && Snapshot(b.sessions, user, current, later)
                == OptimisticUpdate(Snapshot(a.sessions, user, current, later), d.name)
  {
    SnapshotRow(a.sessions, user, current, now, d);
    var ids, shown := LoadActiveSessions(a.sessions, user, now), LoadActiveSessions(a.sessions, user, later);
    var targets := SameName(a.sessions, ids, d.name, current);
    OwnNameDiffers(a.sessions, user, current, now, d, d.id);
    assert d.id in targets;
    var closed := Elements(targets);
    RevokedListing(a.sessions, user, current, now, d, later, closed);
  }

  lemma RevokedListing(sessions: seq<Session>, user: nat, current: Option<nat>, now: int, d: Device, later: int,
                       closed: set<nat>)
    requires d in Snapshot(sessions, user, current, now) && !d.isCurrent && now <= later
    requires closed == Elements(SameName(sessions, LoadActiveSessions(sessions, user, now), d.name, current))
    ensures Snapshot(RevokeSessions(sessions, closed, now), user, current, later)
            == OptimisticUpdate(Snapshot(sessions, user, current, later), d.name)
  {
    var shown := LoadActiveSessions(sessions, user, later);
    forall x | x in shown ensures x in closed <==> DisplayName(sessions[x]) == d.name {
      if DisplayName(sessions[x]) == d.name {
        OwnNameDiffers(sessions, user, current, now, d, x);
      }
    }
    SnapshotAfterRevoke(sessions, user, current, later, closed, now, d.name);
    var rows := DeviceRows(sessions, shown, current);
    forall e | e in Dedupe(rows) && e.name == d.name ensures !e.isCurrent {
      SnapshotRow(sessions, user, current, later, e);
      OwnNameDiffers(sessions, user, current, now, d, e.id);
    }
    OptimisticIsExclusion(Dedupe(rows), d.name);
  }

  lemma SnapshotAfterRevoke(sessions: seq<Session>, user: nat, current: Option<nat>, now: int, closed: set<nat>,
                            at: int, name: string)
    requires forall x ::
               x in LoadActiveSessions(sessions, user, now)
               ==> (x in closed <==> DisplayName(sessions[x]) == name)
    ensures Snapshot(RevokeSessions(sessions, closed, at), user, current, now)
            == Excluding(Snapshot(sessions, user, current, now), name)
  {
    var other, shown := RevokeSessions(sessions, closed, at), LoadActiveSessions(sessions, user, now);
    var kept := Remaining(sessions, shown, closed);
    ListingAfterRevoke(sessions, user, now, closed, at);
    RowsRemaining(sessions, shown, current, closed, name);
    SameRows(sessions, other, kept, current);
    DedupeExcluding(DeviceRows(sessions, shown, current), name);
  }

  lemma SameRows(sessions: seq<Session>, other: seq<Session>, ids: seq<nat>, current: Option<nat>)
    requires |sessions| == |other| && Rows(sessions, ids)
    requires forall x :: x in ids ==> sessions[x] == other[x]
    ensures DeviceRows(other, ids, current) == DeviceRows(sessions, ids, current)
  {
  }

  /** So when nothing the list shows expires in between, updating the list the browser already has gives exactly what
      the server returns next. */
  lemma StaleSnapshotMatches(a: AuthTables, user: nat, current: Option<nat>, now: int, d: Device, later: int)
    requires d in Snapshot(a.sessions, user, current, now) && !d.isCurrent && now <= later
    ensures LoadActiveSessions(a.sessions, user, now) == LoadActiveSessions(a.sessions, user, later) ==>
            Snapshot(RevokeSecuritySession(a, now, user, d.id, current).0.sessions, user, current, later)
            == OptimisticUpdate(Snapshot(a.sessions, user, current, now), d.name)
  {
    OptimisticUpdateMatchesServer(a, user, current, now, d, later);
  }
}
