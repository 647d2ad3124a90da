/** The device list: active sessions collapsed by display name, on the server and in the browser's mock. */
module DeviceView {
  import opened Ordered
  import opened Sessions
  import opened Tables
  import opened Text

  /** One row of the list; `location` is absent when it is looked up from the address. */
  datatype Device = Device(
    id: nat,
    name: string,
    system: string,
    kind: string,
    loggedInAt: int,
    lastSeenAt: int,
    isCurrent: bool,
    client: Option<string>,
    ip: Option<string>,
    location: Option<string>
  )

  function DeviceOf(s: Session, id: nat, current: Option<nat>): Device {
    var agent := ParseUserAgent(s.meta.userAgent);
    Device(id, DisplayName(s), agent.system, agent.kind, s.createdAt,
           if s.lastSeenAt.Some? then s.lastSeenAt.value else s.createdAt,
           current == Some(id), s.client, s.meta.ip,
           if s.meta.location.Some? && Strip(s.meta.location.value) != "" then Some(Strip(s.meta.location.value))
               else None)
  }

  function DeviceRows(sessions: seq<Session>, ids: seq<nat>, current: Option<nat>): seq<Device>
    requires Rows(sessions, ids)
  {
    seq(|ids|, i requires 0 <= i < |ids| => DeviceOf(sessions[ids[i]], ids[i], current))
  }

  // ---------------------------------------------------------------- de-duplication

  function Names(rows: seq<Device>): seq<string> {
    seq(|rows|, i requires 0 <= i < |rows| => rows[i].name)
  }

  /** The row shown for `name`: the first current one if there is any, else the first. */
  function Best(rows: seq<Device>, name: string): (d: Device)
    requires name in Names(rows)
    ensures d in rows && d.name == name
  {
    var own := FindRow(rows, (d: Device) => d.name == name && d.isCurrent);
    var any := FindRow(rows, (d: Device) => d.name == name);
    NameHasRow(rows, name);
    if own.Some? then rows[own.value] else rows[any.value]
  }

  lemma NameHasRow(rows: seq<Device>, name: string)
    requires name in Names(rows)
    ensures FindRow(rows, (d: Device) => d.name == name).Some?
  {
  }

  /** A current row is shown exactly when the name has one. */
  lemma BestIsCurrent(rows: seq<Device>, name: string)
    requires name in Names(rows)
    ensures Best(rows, name).isCurrent <==> exists e :: e in rows && e.name == name && e.isCurrent
  {
  }

  function BestOf(rows: seq<Device>, names: seq<string>): seq<Device>
    requires forall n :: n in names ==> n in Names(rows)
  {
    seq(|names|, i requires 0 <= i < |names| => Best(rows, names[i]))
  }

  /** One row per name, names in order of first occurrence. */
  function Dedupe(rows: seq<Device>): seq<Device> {
    BestOf(rows, Distinct(Names(rows)))
  }

  lemma NamesAppend(rows: seq<Device>, d: Device)
    ensures Names(rows + [d]) == Names(rows) + [d.name]
  {
  }

  lemma FindRowAppend<T>(rows: seq<T>, x: T, p: T -> bool)
    ensures FindRow(rows + [x], p) ==
            if FindRow(rows, p).Some? then FindRow(rows, p) else if p(x) then Some(|rows|) else None
  {
    var f, g := FindRow(rows, p), FindRow(rows + [x], p);
    assert forall i :: 0 <= i < |rows| ==> (rows + [x])[i] == rows[i];
    assert (rows + [x])[|rows|] == x;
  }

  /** How the shown row changes when one more row arrives. */
  lemma BestAppend(rows: seq<Device>, d: Device, name: string)
    requires name in Names(rows) || name == d.name
    ensures name in Names(rows + [d])
    ensures Best(rows + [d], name) ==
            if name !in Names(rows) then d
            else if d.name == name && d.isCurrent && !Best(rows, name).isCurrent then d
            else Best(rows, name)
  {
    NamesAppend(rows, d);
    FindRowAppend(rows, d, (e: Device) => e.name == name && e.isCurrent);
    FindRowAppend(rows, d, (e: Device) => e.name == name);
    if name !in Names(rows) {
      assert forall i :: 0 <= i < |rows| ==> Names(rows)[i] == rows[i].name;
    }
  }

  /** `best` holds the row to show for each name of `rows`. */
  ghost predicate BestByName(best: map<string, Device>, rows: seq<Device>) {
    && best.Keys == Elements(Names(rows))
    && forall n :: n in best ==> best[n] == Best(rows, n)
  }

  function Record(best: map<string, Device>, d: Device): map<string, Device> {
    if d.name !in best || (d.isCurrent && !best[d.name].isCurrent) then best[d.name := d] else best
  }

  lemma RecordBest(best: map<string, Device>, rows: seq<Device>, d: Device)
    requires BestByName(best, rows)
    ensures BestByName(Record(best, d), rows + [d])
  {
    var after := Record(best, d);
    NamesAppend(rows, d);
    forall n | n in after ensures after[n] == Best(rows + [d], n) {
      BestAppend(rows, d, n);
    }
  }

  /** The server's first loop. */
  method DedupeDevicesByName(devices: seq<Device>) returns (deduped: seq<Device>)
    ensures deduped == Dedupe(devices)
  {
    var best: map<string, Device> := map[];
    assert BestByName(best, devices[..0]);
    hide BestByName, Dedupe;
    for i := 0 to |devices|
      invariant BestByName(best, devices[..i])
    {
      var device := devices[i];
      assert devices[..i + 1] == devices[..i] + [device];
      RecordBest(best, devices[..i], device);
      if device.name !in best {
        best := best[device.name := device];
        continue;
      }
      if device.isCurrent && !best[device.name].isCurrent {
        best := best[device.name := device];
      }
    }
    assert devices[..|devices|] == devices;
    deduped := CollectBest(devices, best);
  }

  lemma DistinctExtends(devices: seq<Device>, names: seq<string>, i: nat)
    requires names == Names(devices) && i < |devices|
    ensures Elements(names[..i + 1]) == Elements(names[..i]) + {names[i]}
    ensures BestOf(devices, Distinct(names[..i + 1])) ==
            BestOf(devices, Distinct(names[..i])) + if names[i] in names[..i] then [] else [Best(devices, names[i])]
  {
    assert names[..i + 1] == names[..i] + [names[i]] && names[..i + 1][..i] == names[..i];
    DistinctInNames(names, i);
    DistinctInNames(names, i + 1);
    hide Best, Names;
  }

  lemma DistinctInNames(names: seq<string>, i: nat)
    requires i <= |names|
    ensures forall n :: n in Distinct(names[..i]) ==> n in names
  {
  }

  /** The second loop, the same on the server and in the browser: one row per new name. */
  method CollectBest(devices: seq<Device>, best: map<string, Device>) returns (deduped: seq<Device>)
    requires BestByName(best, devices)
    ensures deduped == Dedupe(devices)
  {
    var seen: set<string> := {};
    deduped := [];
    ghost var names := Names(devices);
    for i := 0 to |devices|
      invariant seen == Elements(names[..i])
      invariant deduped == BestOf(devices, Distinct(names[..i]))
    {
      var name := devices[i].name;
      DistinctExtends(devices, names, i);
      if name in seen {
        continue;
      }
      seen := seen + {name};
      deduped := deduped + [best[name]];
    }
    assert names[..|devices|] == names;
  }

  /** The browser mock's first loop, with its combined test. */
  method DedupeDevicesInMock(devices: seq<Device>) returns (deduped: seq<Device>)
    ensures deduped == Dedupe(devices)
  {
    var best: map<string, Device> := map[];
    for i := 0 to |devices|
      invariant BestByName(best, devices[..i])
    {
      var device := devices[i];
      assert devices[..i + 1] == devices[..i] + [device];
      RecordBest(best, devices[..i], device);
      if device.name !in best || (device.isCurrent && !best[device.name].isCurrent) {
        best := best[device.name := device];
      }
    }
    assert devices[..|devices|] == devices;
    deduped := CollectBest(devices, best);
  }

  /** The names shown are the input's, each once, in order of first occurrence; every row shown is an input row, and
      is a current one exactly when some input row of its name is. */
  lemma DedupeMeetsItsSpec(rows: seq<Device>)
    ensures Names(Dedupe(rows)) == Distinct(Names(rows)) && NoDuplicates(Names(Dedupe(rows)))
    ensures forall d :: d in Dedupe(rows) ==>
              d in rows && (d.isCurrent <==> exists e :: e in rows && e.name == d.name && e.isCurrent)
  {
    DistinctNoDuplicates(Names(rows));
    assert Names(Dedupe(rows)) == Distinct(Names(rows));
    forall n | n in Names(rows) ensures Best(rows, n).isCurrent
        <==> exists e :: e in rows && e.name == n && e.isCurrent {
      BestIsCurrent(rows, n);
    }
  }

  /** Row `j` is preferred to row `i` of the same name: it alone is current, or it comes first among equals. */
  predicate Preferred(rows: seq<Device>, j: nat, i: nat)
    requires i < |rows| && j < |rows|
  {
    && rows[j].name == rows[i].name
    && ((rows[j].isCurrent && !rows[i].isCurrent) || (rows[j].isCurrent == rows[i].isCurrent && j < i))
  }

  predicate Shown(rows: seq<Device>, i: nat)
    requires i < |rows|
  {
    forall j :: 0 <= j < |rows| ==> !Preferred(rows, j, i)
  }

  lemma BestIsShown(rows: seq<Device>, name: string) returns (i: nat)
    requires name in Names(rows)
    ensures i < |rows| && rows[i] == Best(rows, name) && Shown(rows, i)
  {
    NameHasRow(rows, name);
    var own := FindRow(rows, (d: Device) => d.name == name && d.isCurrent);
    i := if own.Some? then own.value else FindRow(rows, (d: Device) => d.name == name).value;
  }

  /** The rows shown are exactly the input rows to which no other row of their name is preferred. */
  lemma ShowsThePreferred(rows: seq<Device>, d: Device)
    ensures d in Dedupe(rows) <==> exists i :: 0 <= i < |rows| && rows[i] == d && Shown(rows, i)
  {
    var names := Distinct(Names(rows));
    if d in Dedupe(rows) {
      var k :| 0 <= k < |names| && Dedupe(rows)[k] == d;
      assert names[k] in Names(rows);
      var i := BestIsShown(rows, names[k]);
    }
    if i :| 0 <= i < |rows| && rows[i] == d && Shown(rows, i) {
      assert Names(rows)[i] == d.name;
      var b := BestIsShown(rows, d.name);
      assert !Preferred(rows, b, i) && !Preferred(rows, i, b);
      assert d.name in names;
      var k :| 0 <= k < |names| && names[k] == d.name;
      assert Dedupe(rows)[k] == d;
    }
  }

  lemma OnlyOneIsBest(rows: seq<Device>, i: nat)
    requires i < |rows| && NoDuplicates(Names(rows))
    ensures rows[i].name in Names(rows) && Best(rows, rows[i].name) == rows[i]
  {
    assert Names(rows)[i] == rows[i].name;
    var j := BestIsShown(rows, rows[i].name);
    assert Names(rows)[j] == Names(rows)[i];
  }

  lemma NameIsShown(rows: seq<Device>, j: nat) returns (d: Device)
    requires j < |rows|
    ensures d in Dedupe(rows) && d.name == rows[j].name && (rows[j].isCurrent ==> d.isCurrent)
  {
    assert Names(rows)[j] == rows[j].name;
    DedupeMeetsItsSpec(rows);
    var shown := Names(Dedupe(rows));
    assert rows[j].name in shown;
    var k :| 0 <= k < |shown| && shown[k] == rows[j].name;
    d := Dedupe(rows)[k];
    assert rows[j] in rows;
  }

  /** De-duplicating twice changes nothing more. */
  lemma DedupeIdempotent(rows: seq<Device>)
    ensures Dedupe(Dedupe(rows)) == Dedupe(rows)
  {
    var once := Dedupe(rows);
    DedupeMeetsItsSpec(rows);
    DistinctFixpoint(Names(once));
    forall i | 0 <= i < |once| ensures once[i].name in Names(once) && Best(once, once[i].name) == once[i] {
      OnlyOneIsBest(once, i);
    }
    hide Best, Distinct;
    assert Dedupe(once) == BestOf(once, Names(once));
  }

  // ---------------------------------------------------------------- the optimistic update

  /** What the browser does to the rows it shows after revoking a device named `name`. */
  function OptimisticUpdate(rows: seq<Device>, name: string): seq<Device> {
    if rows == [] then []
    else
      var last := rows[|rows| - 1];
      OptimisticUpdate(rows[..|rows| - 1], name) + if last.name != name || last.isCurrent then [last] else []
  }

  function Excluding(rows: seq<Device>, name: string): (r: seq<Device>)
    ensures forall d :: d in r ==> d in rows
  {
    if rows == [] then []
    else
      var last := rows[|rows| - 1];
      Excluding(rows[..|rows| - 1], name) + if last.name != name then [last] else []
  }

  lemma {:induction false} OptimisticIsExclusion(rows: seq<Device>, name: string)
    requires forall d :: d in rows && d.name == name ==> !d.isCurrent
    ensures OptimisticUpdate(rows, name) == Excluding(rows, name)
  {
    if rows == [] {
    } else {
      OptimisticIsExclusion(rows[..|rows| - 1], name);
    }
  }

  lemma {:induction false} ExcludingNames(rows: seq<Device>, name: string)
    ensures Names(Excluding(rows, name)) == Without(Names(rows), {name})
  {
    if rows == [] {
    } else {
      var prefix, last := rows[..|rows| - 1], rows[|rows| - 1];
      ExcludingNames(prefix, name);
      assert rows == prefix + [last];
      NamesAppend(prefix, last);
      NamesAppend(Excluding(prefix, name), last);
      assert (Names(prefix) + [last.name])[..|prefix|] == Names(prefix);
    }
  }

  lemma {:induction false} ExcludingBest(rows: seq<Device>, name: string, other: string)
    requires other in Names(rows) && other != name
    ensures other in Names(Excluding(rows, name)) && Best(Excluding(rows, name), other) == Best(rows, other)
  {
    var prefix, last := rows[..|rows| - 1], rows[|rows| - 1];
    assert rows == prefix + [last];
    NamesAppend(prefix, last);
    KeepsOtherNames(prefix, name, other);
    if other in Names(prefix) {
      ExcludingBest(prefix, name, other);
    }
    BestAppend(prefix, last, other);
    if last.name != name {
      assert Excluding(rows, name) == Excluding(prefix, name) + [last];
      BestAppend(Excluding(prefix, name), last, other);
    } else {
      assert Excluding(rows, name) == Excluding(prefix, name);
    }
  }

  lemma KeepsOtherNames(rows: seq<Device>, name: string, other: string)
    requires other != name
    ensures other in Names(Excluding(rows, name)) <==> other in Names(rows)
  {
    ExcludingNames(rows, name);
  }

  lemma {:induction false} ExcludingBestOf(rows: seq<Device>, names: seq<string>, name: string)
    requires forall n :: n in names ==> n in Names(rows)
    ensures Excluding(BestOf(rows, names), name) == BestOf(rows, Without(names, {name}))
  {
    if names != [] {
      var prefix, last := names[..|names| - 1], names[|names| - 1];
      ExcludingBestOf(rows, prefix, name);
      assert BestOf(rows, names)[..|prefix|] == BestOf(rows, prefix);
    } else {
      assert BestOf(rows, names) == [];
    }
  }

  /** Taking a name out commutes with de-duplication, order included. */
  lemma DedupeExcluding(rows: seq<Device>, name: string)
    ensures Dedupe(Excluding(rows, name)) == Excluding(Dedupe(rows), name)
  {
    ExcludingNames(rows, name);
    WithoutDistinct(Names(rows), {name});
    ExcludingBestOf(rows, Distinct(Names(rows)), name);
    forall n | n in Distinct(Names(Excluding(rows, name))) ensures Best(Excluding(rows, name), n) == Best(rows, n) {
      ExcludingBest(rows, name, n);
    }
  }

  /** A displayed row that is not current stands for a group without a current row. */
  lemma DisplayedGroup(rows: seq<Device>, d: Device)
    requires d in Dedupe(rows) && !d.isCurrent
    ensures d in rows
    ensures forall e :: e in rows && e.name == d.name ==> !e.isCurrent
    ensures forall e :: e in Dedupe(rows) && e.name == d.name ==> !e.isCurrent
  {
  }

  // ---------------------------------------------------------------- when dropping rows and de-duplicating commute

  predicate CurrentNamed(rows: seq<Device>, name: string) {
    exists i :: 0 <= i < |rows| && rows[i].name == name && rows[i].isCurrent
  }

  /** Row `f` is named `name`, the name of row `j` first occurs there, and the first current row of `name` comes
      after. */
  predicate OvertakenAt(rows: seq<Device>, name: string, f: nat, j: nat, c: nat) {
    && f < j < c < |rows| && rows[f].name == name && rows[c].name == name && rows[c].isCurrent
    && forall i :: 0 <= i < j ==> rows[i].name != rows[j].name && !(rows[i].name == name && rows[i].isCurrent)
  }

  /** Another name first occurs between the first row of `name` and its first current row. */
  ghost predicate Overtaken(rows: seq<Device>, name: string) {
    exists f: nat, j: nat, c: nat :: OvertakenAt(rows, name, f, j, c)
  }

  /** Moving the only occurrence of `x` to the end changes nothing exactly when nothing new follows its first one. */
  lemma {:induction false} DistinctEndsWith(xs: seq<string>, x: string)
    requires x in xs
    ensures Distinct(xs) == Without(Distinct(xs), {x}) + [x] <==> forall j ::
              0 <= j < |xs| && xs[j] !in xs[..j]
              ==> x !in xs[..j]
  {
    var n := |xs| - 1;
    var prefix, last := xs[..n], xs[n];
    assert xs == prefix + [last];
    assert forall j :: 0 <= j < n ==> prefix[j] == xs[j] && prefix[..j] == xs[..j];
    if x in prefix {
      DistinctEndsWith(prefix, x);
    } else {
      WithoutAbsent(Distinct(prefix), x);
    }
    var d := Distinct(prefix);
    if last !in prefix {
      assert (d + [last])[..|d|] == d;
    }
  }

  lemma {:induction false} WithoutAbsent(xs: seq<string>, x: string)
    requires x !in xs
    ensures Without(xs, {x}) == xs
  {
    if xs == [] {
    } else {
      WithoutAbsent(xs[..|xs| - 1], x);
    }
  }

  lemma OvertakenPrefix(prefix: seq<Device>, x: Device, name: string)
    requires CurrentNamed(prefix, name)
    ensures Overtaken(prefix + [x], name) <==> Overtaken(prefix, name)
  {
    var rows := prefix + [x];
    assert forall i :: 0 <= i < |prefix| ==> prefix[i] == rows[i];
    var own :| 0 <= own < |prefix| && prefix[own].name == name && prefix[own].isCurrent;
    if f: nat, j: nat, c: nat :| OvertakenAt(prefix, name, f, j, c) {
      assert OvertakenAt(rows, name, f, j, c);
    }
    if f: nat, j: nat, c: nat :| OvertakenAt(rows, name, f, j, c) {
      assert rows[own].name == name && rows[own].isCurrent;
      assert j < own || j == own;
      assert OvertakenAt(prefix, name, f, j, own);
    }
  }

  lemma OvertakenAtEnd(prefix: seq<Device>, x: Device, name: string)
    requires !CurrentNamed(prefix, name) && x.name == name && x.isCurrent
    ensures var names := Names(prefix);
            Overtaken(prefix + [x], name) <==> exists j ::
                  0 <= j < |names| && names[j] !in names[..j]
                  && name in names[..j]
  {
    var rows, names := prefix + [x], Names(prefix);
    if f: nat, j: nat, c: nat :| OvertakenAt(rows, name, f, j, c) {
      assert forall i :: 0 <= i < j ==> names[..j][i] == rows[i].name;
      assert names[..j][f] == name;
    }
    if j :| 0 <= j < |names| && names[j] !in names[..j] && name in names[..j] {
      var f :| 0 <= f < j && names[..j][f] == name;
      forall i | 0 <= i < j ensures rows[i].name != rows[j].name {
        assert names[..j][i] == rows[i].name;
      }
      assert OvertakenAt(rows, name, f, j, |prefix|);
    }
  }

  lemma UpdateAppend(prefix: seq<Device>, x: Device, name: string)
    ensures OptimisticUpdate(prefix + [x], name)
            == if x.name != name || x.isCurrent then OptimisticUpdate(prefix, name) + [x]
                else OptimisticUpdate(prefix, name)
  {
    assert (prefix + [x])[..|prefix|] == prefix;
  }

  lemma CurrentAppend(prefix: seq<Device>, x: Device, name: string)
    ensures CurrentNamed(prefix + [x], name) <==> CurrentNamed(prefix, name) || (x.name == name && x.isCurrent)
  {
    var rows := prefix + [x];
    if i :| 0 <= i < |prefix| && prefix[i].name == name && prefix[i].isCurrent {
      assert rows[i] == prefix[i];
    }
    if x.name == name && x.isCurrent {
      assert rows[|prefix|] == x;
    }
  }

  lemma {:induction false} UpdateNames(rows: seq<Device>, name: string, other: string)
    ensures other in Names(OptimisticUpdate(rows, name))
            <==> other in Names(rows) && (other != name || CurrentNamed(rows, name))
  {
    if rows == [] {
    } else {
      var prefix, last := rows[..|rows| - 1], rows[|rows| - 1];
      assert rows == prefix + [last];
      UpdateNames(prefix, name, other);
      NamesAppend(prefix, last);
      NamesAppend(OptimisticUpdate(prefix, name), last);
      UpdateAppend(prefix, last, name);
      CurrentAppend(prefix, last, name);
      CurrentIsNamed(prefix, name);
      hide *;
    }
  }

  lemma {:induction false} UpdateBest(rows: seq<Device>, name: string, other: string)
    requires other in Names(rows) && (other != name || CurrentNamed(rows, name))
    ensures other in Names(OptimisticUpdate(rows, name))
            && Best(OptimisticUpdate(rows, name), other) == Best(rows, other)
  {
    var prefix, last := rows[..|rows| - 1], rows[|rows| - 1];
    assert rows == prefix + [last];
    var kept := OptimisticUpdate(prefix, name);
    UpdateNames(rows, name, other);
    UpdateNames(prefix, name, other);
    NamesAppend(prefix, last);
    UpdateAppend(prefix, last, name);
    CurrentAppend(prefix, last, name);
    if other in Names(prefix) && (other != name || CurrentNamed(prefix, name)) {
      UpdateBest(prefix, name, other);
    }
    if other in Names(prefix) && other == name {
      BestIsCurrent(prefix, name);
    }
    CurrentIsNamed(prefix, name);
    BestAppend(prefix, last, other);
    if last.name != name || last.isCurrent {
      NamesAppend(kept, last);
      BestAppend(kept, last, other);
    }
    hide *;
  }

  lemma CurrentIsNamed(rows: seq<Device>, name: string)
    ensures CurrentNamed(rows, name) <==> exists e :: e in rows && e.name == name && e.isCurrent
    ensures CurrentNamed(rows, name) ==> name in Names(rows)
  {
    if i :| 0 <= i < |rows| && rows[i].name == name && rows[i].isCurrent {
      assert Names(rows)[i] == name;
    }
  }

  lemma AppendAgree(xs: seq<string>, ys: seq<string>, x: string)
    requires x in xs <==> x in ys
    ensures Distinct(xs + [x]) == Distinct(ys + [x]) <==> Distinct(xs) == Distinct(ys)
  {
    assert (xs + [x])[..|xs|] == xs && (ys + [x])[..|ys|] == ys;
    if x !in xs {
      assert (Distinct(xs) + [x])[..|Distinct(xs)|] == Distinct(xs);
      assert (Distinct(ys) + [x])[..|Distinct(ys)|] == Distinct(ys);
    }
  }

  /** Dropping the other rows of a current name keeps the order of the names unless one overtakes it. */
  lemma {:induction false} NamesAgree(rows: seq<Device>, name: string)
    requires CurrentNamed(rows, name)
    ensures Distinct(Names(OptimisticUpdate(rows, name))) == Distinct(Names(rows)) <==> !Overtaken(rows, name)
  {
    var prefix, last := rows[..|rows| - 1], rows[|rows| - 1];
    assert rows == prefix + [last];
    if CurrentNamed(prefix, name) {
      NamesAgree(prefix, name);
      OvertakenPrefix(prefix, last, name);
      NamesAgreeAfter(prefix, last, name);
    } else {
      NamesAgreeAt(prefix, last, name);
    }
  }

  lemma NamesAgreeAfter(prefix: seq<Device>, x: Device, name: string)
    requires CurrentNamed(prefix, name)
    ensures Distinct(Names(OptimisticUpdate(prefix + [x], name))) == Distinct(Names(prefix + [x]))
            <==> Distinct(Names(OptimisticUpdate(prefix, name))) == Distinct(Names(prefix))
  {
    var kept := OptimisticUpdate(prefix, name);
    NamesAppend(prefix, x);
    NamesAppend(kept, x);
    UpdateNames(prefix, name, x.name);
    CurrentIsNamed(prefix, name);
    UpdateAppend(prefix, x, name);
    AppendAgree(Names(kept), Names(prefix), x.name);
    assert (Names(prefix) + [x.name])[..|prefix|] == Names(prefix);
  }

  lemma NamesAgreeAt(prefix: seq<Device>, x: Device, name: string)
    requires !CurrentNamed(prefix, name) && x.name == name && x.isCurrent
    ensures Distinct(Names(OptimisticUpdate(prefix + [x], name))) == Distinct(Names(prefix + [x]))
            <==> !Overtaken(prefix + [x], name)
  {
    var names := Names(prefix);
    OptimisticIsExclusion(prefix, name);
    ExcludingNames(prefix, name);
    UpdateAppend(prefix, x, name);
    NamesAppend(prefix, x);
    NamesAppend(Excluding(prefix, name), x);
    OvertakenAtEnd(prefix, x, name);
    WithoutDistinct(names, {name});
    var left := Without(names, {name});
    assert (left + [name])[..|left|] == left && (names + [name])[..|names|] == names;
    if name in names {
      DistinctEndsWith(names, name);
    } else {
      WithoutAbsent(names, name);
    }
  }

  lemma {:induction false} UpdateNothing(rows: seq<Device>, name: string)
    requires forall d :: d in rows && d.name == name ==> d.isCurrent
    ensures OptimisticUpdate(rows, name) == rows
  {
    if rows == [] {
    } else {
      var prefix, last := rows[..|rows| - 1], rows[|rows| - 1];
      assert rows == prefix + [last];
      UpdateNothing(prefix, name);
      UpdateAppend(prefix, last, name);
      hide OptimisticUpdate;
    }
  }

  /** Dropping the non-current rows of a name before or after de-duplicating gives the same list, order included,
      exactly when no other name first occurs between the first row of the name and its first current row. */
  lemma UpdateCommutesExactly(rows: seq<Device>, name: string)
    ensures Dedupe(OptimisticUpdate(rows, name)) == OptimisticUpdate(Dedupe(rows), name) <==> !Overtaken(rows, name)
  {
    DedupeMeetsItsSpec(rows);
    if CurrentNamed(rows, name) {
      var kept := OptimisticUpdate(rows, name);
      NamesAgree(rows, name);
      UpdateNothing(Dedupe(rows), name);
      DedupeMeetsItsSpec(kept);
      forall n | n in Names(rows) ensures n in Names(kept) && Best(kept, n) == Best(rows, n) {
        UpdateBest(rows, name, n);
      }
    } else {
      OptimisticIsExclusion(rows, name);
      OptimisticIsExclusion(Dedupe(rows), name);
      DedupeExcluding(rows, name);
    }
  }

  /** A displayed row that is not current is never overtaken: revoking it in the mock and updating the shown rows give
      the same list. */
  lemma MockSteps(rows: seq<Device>, d: Device)
    requires d in Dedupe(rows) && !d.isCurrent
    ensures Dedupe(OptimisticUpdate(rows, d.name)) == OptimisticUpdate(Dedupe(rows), d.name)
  {
    DisplayedGroup(rows, d);
    UpdateCommutesExactly(rows, d.name);
    forall f: nat, j: nat, c: nat ensures !OvertakenAt(rows, d.name, f, j, c) {
    }
  }

  /** A row hidden behind the current one can be overtaken: then revoking it moves the current row. */
  lemma HiddenRowsMayMove(name: string, other: string)
    requires name != other
    ensures exists rows: seq<Device>, d: Device ::
              d in rows && !d.isCurrent && d.name == name
              && Dedupe(OptimisticUpdate(rows, name)) != OptimisticUpdate(Dedupe(rows), name)
  {
    var hidden := Device(0, name, "", "", 0, 0, false, None, None, None);
    var rows := [hidden, hidden.(id := 1, name := other), hidden.(id := 2, isCurrent := true)];
    assert OvertakenAt(rows, name, 0, 1, 2);
    UpdateCommutesExactly(rows, name);
    assert hidden in rows;
  }

  /** A displayed row that is not current is the first of its name. */
  lemma ShownFirst(rows: seq<Device>, d: Device, j: nat) returns (i: nat)
    requires d in Dedupe(rows) && !d.isCurrent && j < |rows| && rows[j].name == d.name
    ensures i <= j && rows[i] == d
  {
    ShowsThePreferred(rows, d);
    DisplayedGroup(rows, d);
    i :| 0 <= i < |rows| && rows[i] == d && Shown(rows, i);
    assert !Preferred(rows, j, i) && rows[j] in rows;
  }

  // ---------------------------------------------------------------- the in-memory mock

  /** The browser's stand-in for the server. */
  class MockDataSource {
    var devices: seq<Device>

    constructor (initial: seq<Device>)
      ensures devices == initial
    {
      devices := initial;
    }

    method GetSnapshot() returns (shown: seq<Device>)
      ensures shown == Dedupe(devices)
    {
      shown := DedupeDevicesInMock(devices);
    }

    /** Refuses an unknown or current device; otherwise drops the non-current rows of its name. The next snapshot is
        then the optimistic update of the last one exactly when no name overtakes the device's, so always for a
        displayed row. */
    method RevokeDevice(id: nat) returns (error: Option<Error>)
      modifies this
      ensures var f := FindRow(old(devices), (d: Device) => d.id == id);
              error == if f.None? then Some(SessionNotFound) else if old(devices)[f.value].isCurrent
                  then Some(CurrentSession) else None
      ensures error.Some? ==> devices == old(devices)
      ensures error.None? ==>
                var d := old(devices)[FindRow(old(devices), (d: Device) => d.id == id).value];
                && devices == OptimisticUpdate(old(devices), d.name)
                && (Dedupe(devices) == OptimisticUpdate(Dedupe(old(devices)), d.name)
                    <==> !Overtaken(old(devices), d.name))
                && (d in Dedupe(old(devices)) ==> Dedupe(devices) == OptimisticUpdate(Dedupe(old(devices)), d.name))
    {
      var f := FindRow(devices, (d: Device) => d.id == id);
      if f.None? {
        return Some(SessionNotFound);
      }
      var device := devices[f.value];
      if device.isCurrent {
        return Some(CurrentSession);
      }
      ghost var before := devices;
      var kept: seq<Device> := [];
      for i := 0 to |devices|
        invariant devices == before
        invariant kept == OptimisticUpdate(devices[..i], device.name)
      {
        assert devices[..i + 1][..i] == devices[..i];
        if devices[i].name != device.name || devices[i].isCurrent {
          kept := kept + [devices[i]];
        }
      }
      assert devices[..|devices|] == devices;
      devices := kept;
      UpdateCommutesExactly(before, device.name);
      if device in Dedupe(before) {
        MockSteps(before, device);
      }
      error := None;
    }
  }
}
