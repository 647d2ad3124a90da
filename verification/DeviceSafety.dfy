/** Safety of the device grant (RFC 8628, section 3) over whole runs. */
module DeviceSafety {
  import opened Grants
  import opened Service
  import opened Tables
  import opened Text

  // ---------------------------------------------------------------- what a call does to the requests

  datatype DeviceChange =
    | Untouched
    | Started(row: DeviceRequest)
    | Lapsed(k: nat)
    | ApprovedBy(k: nat, user: nat)
    | DeniedIn(k: nat)
    | Spent(k: nat)

  predicate OpenAt(d: DeviceRequest, now: int) {
    d.status == Pending && now < d.expiresAt
  }

  ghost predicate NewCodes(a: seq<DeviceRequest>, d: DeviceRequest) {
    forall i :: 0 <= i < |a| ==> a[i].deviceCode != d.deviceCode && a[i].userCode != d.userCode
  }

  ghost predicate DevicesChanged(a: seq<DeviceRequest>, b: seq<DeviceRequest>, now: int, ch: DeviceChange) {
    match ch
    case Untouched => b == a
    case Started(d) =>
      && b == a + [d] && NewCodes(a, d) && d.createdAt == now && d.expiresAt == now + DEVICE_LIFETIME
      && d.status == Pending && d.approvedUser == None && d.approvedAt == None && d.deniedAt == None
          && d.consumedAt == None
    case Lapsed(k) =>
      k < |a| && a[k].expiresAt <= now && b == a[k := a[k].(status := Expired)]
    case ApprovedBy(k, user) =>
      && k < |a| && OpenAt(a[k], now)
      && b == a[k := a[k].(status := Approved, approvedUser := Some(user), approvedAt := Some(now))]
    case DeniedIn(k) =>
      k < |a| && OpenAt(a[k], now) && b == a[k := a[k].(status := Denied, deniedAt := Some(now))]
    case Spent(k) =>
      && k < |a| && a[k].status == Approved && now < a[k].expiresAt && a[k].consumedAt.None?
      && b == a[k := a[k].(consumedAt := Some(now))]
  }

  /** Call `i` was a decision on the request with user code `code`, and it took effect. */
  predicate Decides(call: Call, reply: Reply, code: string, approve: bool) {
    call.DeviceConfirm? && reply.Ok? && call.approve == approve && Strip(Upper(call.userCode)) == code
  }

  /** The request holds what the call that started it brought. */
  predicate Carries(d: DeviceRequest, call: Call) {
    && call.DeviceStart? && d.deviceCode == call.deviceCode && d.userCode == call.userCode
    && d.client == call.client && d.scope == call.scope && d.meta == call.deviceMeta
  }

  predicate Yields(call: Call, reply: Reply, code: string) {
    call.DeviceExchange? && reply.Issued? && Strip(call.deviceCode) == code
  }

  /** How a change answers to the call that made it. */
  predicate Explains(ch: DeviceChange, devices: seq<DeviceRequest>, call: Call, reply: Reply) {
    && (ch.Started? <==> call.DeviceStart? && reply.Ok?)
    && (ch.ApprovedBy? <==> call.DeviceConfirm? && reply.Ok? && call.approve)
    && (ch.DeniedIn? <==> call.DeviceConfirm? && reply.Ok? && !call.approve)
    && (ch.Spent? <==> call.DeviceExchange? && reply.Issued?)
    && match ch
       case Started(d) => Carries(d, call)
       case ApprovedBy(k, user) =>
         k < |devices| && call.approver == Some(user) && Decides(call, reply, devices[k].userCode, true)
       case DeniedIn(k) => k < |devices| && Decides(call, reply, devices[k].userCode, false)
       case Spent(k) =>
         k < |devices| && Yields(call, reply, devices[k].deviceCode) && devices[k].approvedUser == Some(reply.user)
       case _ => true
  }

  lemma ConfirmChange(db: Db, db': Db, reply: Reply, userCode: string, user: Option<nat>, approve: bool)
      returns (ch: DeviceChange)
    requires ConfirmDevice(db, userCode, user, approve) == (db', reply)
    ensures DevicesChanged(db.devices, db'.devices, db.now, ch) && !ch.Spent? && !ch.Started?
    ensures ch.ApprovedBy? <==> reply.Ok? && approve
    ensures ch.DeniedIn? <==> reply.Ok? && !approve
    ensures ch.ApprovedBy? || ch.DeniedIn? ==> ch.k < |db.devices|
    ensures ch.ApprovedBy? ==> user == Some(ch.user) && db.devices[ch.k].userCode == Strip(Upper(userCode))
    ensures ch.DeniedIn? ==> db.devices[ch.k].userCode == Strip(Upper(userCode))
  {
    var f := FindUserCode(db.devices, userCode);
    if f.None? {
      ch := Untouched;
    } else if reply == Failed(ExpiredDeviceCode) {
      ch := Lapsed(f.value);
    } else if reply.Ok? {
      ch := if approve then ApprovedBy(f.value, user.value) else DeniedIn(f.value);
    } else {
      ch := Untouched;
    }
  }

  lemma ExchangeChange(db: Db, db': Db, reply: Reply, client: string, deviceCode: string, meta: Option<Meta>)
      returns (ch: DeviceChange)
    requires ExchangeDevice(db, client, deviceCode, meta) == (db', reply)
    ensures DevicesChanged(db.devices, db'.devices, db.now, ch) && !ch.ApprovedBy? && !ch.DeniedIn? && !ch.Started?
    ensures ch.Spent? <==> reply.Issued?
    ensures ch.Spent? ==> ch.k < |db.devices|
    ensures ch.Spent? ==>
              db.devices[ch.k].deviceCode == Strip(deviceCode)
              && db.devices[ch.k].approvedUser == Some(reply.user)
  {
    var f := FindDeviceCode(db.devices, client, deviceCode);
    if f.None? {
      ch := Untouched;
    } else if reply == Failed(ExpiredToken) {
      ch := Lapsed(f.value);
    } else if reply.Issued? {
      ch := Spent(f.value);
    } else {
      ch := Untouched;
    }
  }

  lemma StartChange(db: Db, db': Db, reply: Reply, client: string, scope: string, meta: Meta, deviceCode: string,
                    userCode: string)
    returns (ch: DeviceChange)
    requires StartDevice(db, client, scope, meta, deviceCode, userCode) == (db', reply)
    ensures DevicesChanged(db.devices, db'.devices, db.now, ch) && (ch.Untouched? || ch.Started?)
    ensures ch.Started? <==> reply.Ok?
    ensures ch.Started? ==> Carries(ch.row, DeviceStart(client, scope, meta, deviceCode, userCode))
  {
    ch := if reply.Ok? then Started(db'.devices[|db.devices|]) else Untouched;
  }

  predicate ConcernsDevices(call: Call) {
    call.DeviceStart? || call.DeviceConfirm? || call.DeviceExchange?
  }

  lemma OtherCallsLeaveDevices(db: Db, call: Call)
    requires !ConcernsDevices(call)
    ensures Step(db, call).0.devices == db.devices
  {
  }

  lemma StepDevices(db: Db, call: Call, db': Db, reply: Reply) returns (ch: DeviceChange)
    requires Step(db, call) == (db', reply)
    ensures DevicesChanged(db.devices, db'.devices, db.now, ch) && Explains(ch, db.devices, call, reply)
  {
    if ConcernsDevices(call) {
      hide StartDevice, ConfirmDevice, ExchangeDevice, DevicesChanged, Explains, Strip, Upper;
      match call
      case DeviceStart(client, scope, meta, deviceCode, userCode) =>
        ch := StartChange(db, db', reply, client, scope, meta, deviceCode, userCode);
        StartExplained(ch, db.devices, call, reply);
      case DeviceConfirm(userCode, approver, approve) =>
        ch := ConfirmChange(db, db', reply, userCode, approver, approve);
        ConfirmExplained(ch, db.devices, call, reply);
      case DeviceExchange(client, deviceCode, meta) =>
        ch := ExchangeChange(db, db', reply, client, deviceCode, meta);
        ExchangeExplained(ch, db.devices, call, reply);
    } else {
      OtherCallsLeaveDevices(db, call);
      hide Step;
      ch := Untouched;
    }
  }

  lemma StartExplained(ch: DeviceChange, devices: seq<DeviceRequest>, call: Call, reply: Reply)
    requires call.DeviceStart? && (ch.Untouched? || ch.Started?) && (ch.Started? <==> reply.Ok?)
    requires ch.Started? ==> Carries(ch.row, call)
    ensures Explains(ch, devices, call, reply)
  {
  }

  lemma ConfirmExplained(ch: DeviceChange, devices: seq<DeviceRequest>, call: Call, reply: Reply)
    requires call.DeviceConfirm? && !ch.Spent? && !ch.Started?
    requires (ch.ApprovedBy? <==> reply.Ok? && call.approve) && (ch.DeniedIn? <==> reply.Ok? && !call.approve)
    requires ch.ApprovedBy? || ch.DeniedIn? ==>
               ch.k < |devices| && devices[ch.k].userCode == Strip(Upper(call.userCode))
    requires ch.ApprovedBy? ==> call.approver == Some(ch.user)
    ensures Explains(ch, devices, call, reply)
  {
  }

  lemma ExchangeExplained(ch: DeviceChange, devices: seq<DeviceRequest>, call: Call, reply: Reply)
    requires call.DeviceExchange? && !ch.ApprovedBy? && !ch.DeniedIn? && !ch.Started?
    requires ch.Spent? <==> reply.Issued?
    requires ch.Spent? ==> ch.k < |devices| && devices[ch.k].deviceCode == Strip(call.deviceCode)
                           && devices[ch.k].approvedUser == Some(reply.user)
    ensures Explains(ch, devices, call, reply)
  {
  }

  /** What call `i` of a run does to the requests. */
  lemma CallDevices(r: Run, i: nat) returns (ch: DeviceChange)
    requires IsRun(r) && i < |r.calls|
    ensures DevicesChanged(r.states[i].devices, r.states[i + 1].devices, r.states[i].now, ch)
    ensures Explains(ch, r.states[i].devices, r.calls[i], r.replies[i])
  {
    assert Happens(r, i);
    ch := StepDevices(r.states[i], r.calls[i], r.states[i + 1], r.replies[i]);
  }

  // ---------------------------------------------------------------- what every call keeps

  predicate DeviceRow(d: DeviceRequest, now: int) {
    && d.createdAt <= now
    && (d.approvedAt.Some? <==> d.approvedUser.Some?)
    && (d.approvedAt.Some? ==>
          d.deniedAt.None? && d.createdAt <= d.approvedAt.value < d.expiresAt
          && d.approvedAt.value <= now)
    && (d.consumedAt.Some? ==>
          d.approvedAt.Some? && d.approvedAt.value <= d.consumedAt.value < d.expiresAt
          && d.consumedAt.value <= now)
    && match d.status
       case Pending => d.approvedAt.None? && d.deniedAt.None?
       case Approved => d.approvedAt.Some?
       case Denied => d.deniedAt.Some?
       case Expired => d.expiresAt <= now
  }

  ghost predicate DistinctCodes(devices: seq<DeviceRequest>) {
    forall i, j :: 0 <= i < j < |devices| ==>
      devices[i].deviceCode != devices[j].deviceCode && devices[i].userCode != devices[j].userCode
  }

  ghost predicate DevicesSound(devices: seq<DeviceRequest>, now: int) {
    DistinctCodes(devices) && forall i :: 0 <= i < |devices| ==> DeviceRow(devices[i], now)
  }

  lemma ChangeDevicesSound(a: seq<DeviceRequest>, b: seq<DeviceRequest>, now: int, later: int, ch: DeviceChange)
    requires DevicesSound(a, now) && DevicesChanged(a, b, now, ch) && now <= later
    ensures DevicesSound(b, later)
  {
  }

  lemma {:induction false} RunDevicesSound(r: Run, i: nat)
    requires IsRun(r) && i < |r.states|
    ensures DevicesSound(r.states[i].devices, r.states[i].now)
  {
    if i == 0 {
    } else {
      RunDevicesSound(r, i - 1);
      ClockForward(r, i - 1, i);
      var ch := CallDevices(r, i - 1);
      ChangeDevicesSound(r.states[i - 1].devices, r.states[i].devices, r.states[i - 1].now, r.states[i].now, ch);
    }
  }

  /** Pending, then approved or denied, then expired. */
  predicate Forward(s: DeviceStatus, t: DeviceStatus) {
    s == t || s == Pending || t == Expired
  }

  /** A request keeps its codes and lifetime, its status moves only forward, and once it has left the pending state
      no decision is added or changed; a consumption, once recorded, stays. */
  predicate RequestEvolves(d: DeviceRequest, e: DeviceRequest) {
    && e.deviceCode == d.deviceCode && e.userCode == d.userCode && e.client == d.client && e.scope == d.scope
    && e.meta == d.meta && e.createdAt == d.createdAt && e.expiresAt == d.expiresAt
    && Forward(d.status, e.status)
    && (d.status != Pending ==>
          e.approvedUser == d.approvedUser && e.approvedAt == d.approvedAt
          && e.deniedAt == d.deniedAt)
    && (d.consumedAt.Some? ==> e.consumedAt == d.consumedAt)
  }

  lemma {:induction false} RequestsEvolve(r: Run, i: nat, j: nat, k: nat)
    requires IsRun(r) && i <= j < |r.states| && k < |r.states[i].devices|
    ensures k < |r.states[j].devices| && RequestEvolves(r.states[i].devices[k], r.states[j].devices[k])
  {
    if i == j {
    } else {
      RequestsEvolve(r, i, j - 1, k);
      var ch := CallDevices(r, j - 1);
    }
  }

  /** A consumed request was approved first, and both before it expired; no request is both approved and denied. */
  lemma ConsumedInTime(r: Run, i: nat, k: nat)
    requires IsRun(r) && i < |r.states| && k < |r.states[i].devices|
    ensures var d := r.states[i].devices[k];
            && (d.consumedAt.Some? ==> d.approvedAt.Some? && d.approvedAt.value <= d.consumedAt.value < d.expiresAt)
            && (d.approvedAt.None? || d.deniedAt.None?)
  {
    RunDevicesSound(r, i);
    assert DeviceRow(r.states[i].devices[k], r.states[i].now);
  }

  // ---------------------------------------------------------------- history

  predicate YieldsAt(r: Run, i: nat, code: string)
    requires |r.replies| == |r.calls|
  {
    i < |r.calls| && Yields(r.calls[i], r.replies[i], code)
  }

  lemma SpentCodeIsRefused(r: Run, i: nat, j: nat, code: string)
    requires IsRun(r) && YieldsAt(r, i, code) && i < j
    ensures !YieldsAt(r, j, code)
  {
    var first := CallDevices(r, i);
    if j < |r.calls| {
      RequestsEvolve(r, i + 1, j, first.k);
      RunDevicesSound(r, j);
      var second := CallDevices(r, j);
    }
  }

  /** Each device code yields tokens at most once. */
  lemma DeviceCodeYieldsOnce(r: Run, i: nat, j: nat, code: string)
    requires IsRun(r) && YieldsAt(r, i, code) && YieldsAt(r, j, code)
    ensures i == j
  {
    if i < j {
      SpentCodeIsRefused(r, i, j, code);
    } else if j < i {
      SpentCodeIsRefused(r, j, i, code);
    }
  }

  /** Every request was started by an earlier call that succeeded; it keeps what that call brought, and lives for
      fifteen minutes from its instant. */
  lemma {:induction false} RequestWasStarted(r: Run, n: nat, k: nat) returns (j: nat)
    requires IsRun(r) && n < |r.states| && k < |r.states[n].devices|
    ensures j < n && |r.states[j].devices| == k && r.replies[j].Ok? && Carries(r.states[n].devices[k], r.calls[j])
    ensures r.states[n].devices[k].createdAt == r.states[j].now
    ensures r.states[n].devices[k].expiresAt == r.states[j].now + 900
    decreases n
  {
    assert n > 0;
    var ch := CallDevices(r, n - 1);
    if k < |r.states[n - 1].devices| {
      j := RequestWasStarted(r, n - 1, k);
      RequestsEvolve(r, n - 1, n, k);
    } else {
      j := n - 1;
    }
  }

  /** The call that approved request `k`. */
  lemma {:induction false} ApprovalHappened(r: Run, n: nat, k: nat) returns (j: nat)
    requires IsRun(r) && n < |r.states| && k < |r.states[n].devices| && r.states[n].devices[k].approvedAt.Some?
    ensures j < n && k < |r.states[j].devices|
    ensures Decides(r.calls[j], r.replies[j], r.states[n].devices[k].userCode, true)
    ensures r.calls[j].approver == r.states[n].devices[k].approvedUser
    ensures r.states[j].now < r.states[n].devices[k].expiresAt
    ensures r.states[n].devices[k].approvedAt == Some(r.states[j].now)
    decreases n
  {
    var ch := CallDevices(r, n - 1);
    if ch.ApprovedBy? && ch.k == k {
      j := n - 1;
    } else {
      j := ApprovalHappened(r, n - 1, k);
    }
  }

  /** A denial that takes effect and a yield never concern the same request. */
  lemma DenialExcludesYield(r: Run, i: nat, m: nat, k: nat)
    requires IsRun(r) && i < |r.calls| && m < |r.calls|
    requires k < |r.states[i].devices| && YieldsAt(r, i, r.states[i].devices[k].deviceCode)
    ensures !Decides(r.calls[m], r.replies[m], r.states[i].devices[k].userCode, false)
  {
    var spent := CallDevices(r, i);
    var refused := CallDevices(r, m);
    RunDevicesSound(r, i);
    RunDevicesSound(r, m);
    assert DeviceRow(r.states[i].devices[k], r.states[i].now);
    assert spent.k == k;
    if refused.DeniedIn? {
      if m < i {
        RequestsEvolve(r, m, i, refused.k);
        RequestsEvolve(r, m + 1, i, refused.k);
      } else {
        RequestsEvolve(r, i, m, k);
      }
    }
  }

  /** Whoever a device code yields tokens for approved its user code, in an earlier call that took effect before the
      code expired; and no denial of that user code takes effect anywhere in the run. */
  lemma YieldNeedsApproval(r: Run, i: nat, code: string) returns (j: nat, k: nat)
    requires IsRun(r) && YieldsAt(r, i, code)
    ensures k < |r.states[i].devices| && r.states[i].devices[k].deviceCode == code
    ensures j < i && Decides(r.calls[j], r.replies[j], r.states[i].devices[k].userCode, true)
    ensures r.calls[j].approver == Some(r.replies[i].user)
    ensures r.states[j].now <= r.states[i].now < r.states[i].devices[k].expiresAt
    ensures forall m :: 0 <= m < |r.calls| ==> !Decides(r.calls[m], r.replies[m], r.states[i].devices[k].userCode,
                                                        false)
  {
    var ch := CallDevices(r, i);
    k := ch.k;
    RunDevicesSound(r, i);
    assert DeviceRow(r.states[i].devices[k], r.states[i].now);
    j := ApprovalHappened(r, i, k);
    ClockForward(r, j, i);
    forall m | 0 <= m < |r.calls| ensures !Decides(r.calls[m], r.replies[m], r.states[i].devices[k].userCode, false) {
      DenialExcludesYield(r, i, m, k);
    }
  }
}
