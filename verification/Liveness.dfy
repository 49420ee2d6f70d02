/** Two readings of the same liveness signals: the bridge's tracker, which keeps
    the latest of each kind as they come, and the monitor's roll-up, which goes
    over the whole message list. */
module Liveness {
  import opened Text

  datatype LiveState = Online | Stale | Offline | Unknown

  datatype Kind = RecordMsg | HeartbeatMsg | StatusMsg(payload: string)

  datatype Msg = Msg(device: string, kind: Kind, ts: real)

  function Later(a: Option<real>, b: Option<real>): Option<real> {
    if a.None? then b else if b.None? then a else if a.value >= b.value then a else b
  }

  // -------------------------------------------------------------------
  // The tracker

  datatype Device = Device(lastOnline: bool, lastStatusAt: Option<real>, lastHbAt: Option<real>)

  const UNHEARD := Device(false, None, None)

  function WithStatus(d: Device, payload: string, now: real): Device {
    d.(lastOnline := payload == "online", lastStatusAt := Some(now))
  }

  function AliveAt(d: Device): Option<real> {
    Later(d.lastHbAt, if d.lastOnline then d.lastStatusAt else None)
  }

  function Fresh(alive: Option<real>, now: real, timeout: real): LiveState {
    if alive.None? then Unknown else if now - alive.value <= timeout then Online else Stale
  }

  function TrackedState(d: Device, now: real, timeout: real): LiveState {
    var alive := AliveAt(d);
    if !d.lastOnline && d.lastStatusAt.Some? && (alive.None? || d.lastStatusAt.value >= alive.value) then Offline
    else Fresh(alive, now, timeout)
  }

  class LivenessTracker {
    const timeout: real
    var devices: map<string, Device>

    constructor (timeout: real)
      ensures this.timeout == timeout && devices == map[]
    {
      this.timeout, devices := timeout, map[];
    }

    function Get(id: string): Device
      reads this
    {
      if id in devices then devices[id] else UNHEARD
    }

    method RecordStatus(id: string, status: string, now: real)
      modifies this
      ensures devices == old(devices)[id := WithStatus(old(Get(id)), status, now)]
    {
      var d := Get(id);
      d := d.(lastOnline := status == "online");
      d := d.(lastStatusAt := Some(now));
      devices := devices[id := d];
    }

    method RecordHeartbeat(id: string, now: real)
      modifies this
      ensures devices == old(devices)[id := old(Get(id)).(lastHbAt := Some(now))]
    {
      devices := devices[id := Get(id).(lastHbAt := Some(now))];
    }

    method StateOf(id: string, now: real) returns (s: LiveState)
      ensures s == TrackedState(Get(id), now, timeout)
    {
      var d := Get(id);
      var alive: Option<real> := None;
      if d.lastHbAt.Some? { alive := d.lastHbAt; }
      if d.lastOnline && d.lastStatusAt.Some? {
        if alive.None? || d.lastStatusAt.value > alive.value { alive := d.lastStatusAt; }
      }
      if !d.lastOnline && d.lastStatusAt.Some? && (alive.None? || d.lastStatusAt.value >= alive.value) {
        return Offline;
      }
      if alive.Some? {
        return if now - alive.value <= timeout then Online else Stale;
      }
      return Unknown;
    }

    /** The MQTT handlers in front of the tracker, fed with a list of messages. */
    method Feed(msgs: seq<Msg>)
      modifies this
      ensures forall id :: Get(id) == Tracked(old(Get(id)), msgs, id)
    {
      for i := 0 to |msgs|
        invariant forall id :: Get(id) == Tracked(old(Get(id)), msgs[..i], id)
      {
        assert msgs[..i + 1][..i] == msgs[..i];
        var m := msgs[i];
        match m.kind
        case RecordMsg =>
        case HeartbeatMsg => if m.device != "" { RecordHeartbeat(m.device, m.ts); }
        case StatusMsg(payload) => if m.device != "" { RecordStatus(m.device, Strip(payload), m.ts); }
      }
      assert msgs[..|msgs|] == msgs;
    }
  }

  /** One device's entry after a list of messages. */
  function Tracked(start: Device, msgs: seq<Msg>, id: string): Device {
    if msgs == [] then start
    else
      var d := Tracked(start, msgs[..|msgs| - 1], id);
      var m := msgs[|msgs| - 1];
      if m.device != id || id == "" then d
      else match m.kind
        case RecordMsg => d
        case HeartbeatMsg => d.(lastHbAt := Some(m.ts))
        case StatusMsg(payload) => WithStatus(d, Strip(payload), m.ts)
  }

  // -------------------------------------------------------------------
  // The roll-up

  datatype Acc = Acc(lastHb: Option<real>, lastOnline: Option<real>, lastOffline: Option<real>)

  const NOTHING := Acc(None, None, None)

  predicate Newer(ts: real, last: Option<real>) { last.None? || ts > last.value }

  function Noted(a: Acc, m: Msg): Acc {
    match m.kind
    case RecordMsg => a
    case HeartbeatMsg => if Newer(m.ts, a.lastHb) then a.(lastHb := Some(m.ts)) else a
    case StatusMsg(payload) =>
      if Strip(payload) == "online" then
        if Newer(m.ts, a.lastOnline) then a.(lastOnline := Some(m.ts)) else a
      else if Strip(payload) == "offline" then
        if Newer(m.ts, a.lastOffline) then a.(lastOffline := Some(m.ts)) else a
      else a
  }

  function Rolled(msgs: seq<Msg>, id: string): Acc {
    if msgs == [] then NOTHING
    else
      var a := Rolled(msgs[..|msgs| - 1], id);
      if msgs[|msgs| - 1].device == id then Noted(a, msgs[|msgs| - 1]) else a
  }

  function RolledState(a: Acc, now: real, timeout: real): LiveState {
    var alive := Later(a.lastHb, a.lastOnline);
    if a.lastOffline.Some? && (alive.None? || a.lastOffline.value >= alive.value) then Offline
    else Fresh(alive, now, timeout)
  }

  /** `child_rollup`: a state for every device that sent anything. */
  method ChildRollup(msgs: seq<Msg>, now: real, timeout: real) returns (out: map<string, LiveState>)
    ensures forall id :: id in out <==> id != "" && exists i | 0 <= i < |msgs| :: msgs[i].device == id
    ensures forall id | id in out :: out[id] == RolledState(Rolled(msgs, id), now, timeout)
  {
    var accs: map<string, Acc> := map[];
    for i := 0 to |msgs|
      invariant forall id :: id in accs <==> id != "" && exists j | 0 <= j < i :: msgs[j].device == id
      invariant forall id | id != "" :: (if id in accs then accs[id] else NOTHING) == Rolled(msgs[..i], id)
    {
      assert msgs[..i + 1][..i] == msgs[..i];
      var m := msgs[i];
      if m.device == "" {
        continue;
      }
      var a := if m.device in accs then accs[m.device] else NOTHING;
      match m.kind {
        case RecordMsg =>
        case HeartbeatMsg =>
          if a.lastHb.None? || m.ts > a.lastHb.value { a := a.(lastHb := Some(m.ts)); }
        case StatusMsg(payload) =>
          var state := Strip(payload);
          if state == "online" {
            if a.lastOnline.None? || m.ts > a.lastOnline.value { a := a.(lastOnline := Some(m.ts)); }
          } else if state == "offline" {
            if a.lastOffline.None? || m.ts > a.lastOffline.value { a := a.(lastOffline := Some(m.ts)); }
          }
      }
      accs := accs[m.device := a];
    }
    assert msgs[..|msgs|] == msgs;
    out := map id | id in accs :: RolledState(accs[id], now, timeout);
  }

  // -------------------------------------------------------------------
  // Where they agree

  ghost predicate InOrder(msgs: seq<Msg>) {
    forall i, j | 0 <= i < j < |msgs| :: msgs[i].ts <= msgs[j].ts
  }

  ghost predicate StrictlyInOrder(msgs: seq<Msg>) {
    forall i, j | 0 <= i < j < |msgs| :: msgs[i].ts < msgs[j].ts
  }

  predicate AtMost(a: Option<real>, t: real) { a.None? || a.value <= t }

  function LatestTs(msgs: seq<Msg>): Option<real> {
    if msgs == [] then None else Some(msgs[|msgs| - 1].ts)
  }

  /** How the two summaries of one device's messages relate. A status that is neither
      "online" nor "offline" is in the tracker's alone. */
  predicate Match(d: Device, a: Acc, latest: Option<real>) {
    && d.lastHbAt == a.lastHb
    && (d.lastStatusAt.None? ==> a.lastOnline.None? && a.lastOffline.None? && !d.lastOnline)
    && (d.lastStatusAt.Some? ==>
          && AtMost(a.lastOnline, d.lastStatusAt.value) && AtMost(a.lastOffline, d.lastStatusAt.value)
          && (d.lastOnline ==> a.lastOnline == d.lastStatusAt))
    && (latest.None? ==> d == UNHEARD && a == NOTHING)
    && (latest.Some? ==> AtMost(a.lastHb, latest.value) && AtMost(d.lastStatusAt, latest.value))
  }

  lemma {:induction false} SummariesMatch(msgs: seq<Msg>, id: string)
    requires InOrder(msgs) && id != ""
    ensures Match(Tracked(UNHEARD, msgs, id), Rolled(msgs, id), LatestTs(msgs))
  {
    if msgs != [] {
      var n := |msgs| - 1;
      assert InOrder(msgs[..n]);
      SummariesMatch(msgs[..n], id);
      if n > 0 {
        assert msgs[n - 1].ts <= msgs[n].ts;
        assert msgs[..n][n - 1] == msgs[n - 1];
      }
    }
  }

  /** The roll-up's case for "offline". */
  predicate RolledOffline(a: Acc) {
    a.lastOffline.Some? && AtMost(Later(a.lastHb, a.lastOnline), a.lastOffline.value)
  }

  /** From the two summaries: for any payloads and any ties they part exactly when no
      heartbeat came after the latest status, and that status is "online" to the tracker
      while the roll-up's latest word is "offline", or the other way round. */
  lemma SummariesAgreeIff(msgs: seq<Msg>, id: string, now: real, timeout: real)
    requires InOrder(msgs) && id != ""
    ensures var d := Tracked(UNHEARD, msgs, id);
            var a := Rolled(msgs, id);
            TrackedState(d, now, timeout) == RolledState(a, now, timeout) <==>
            !(d.lastStatusAt.Some? && AtMost(d.lastHbAt, d.lastStatusAt.value) && d.lastOnline == RolledOffline(a))
  {
    SummariesMatch(msgs, id);
  }

  // From the messages themselves

  predicate IsStatus(m: Msg, id: string) { m.device == id && m.kind.StatusMsg? }

  predicate Says(m: Msg, id: string, word: string) { IsStatus(m, id) && Strip(m.kind.payload) == word }

  function Heartbeats(msgs: seq<Msg>, id: string): set<real> {
    set m | m in msgs && m.device == id && m.kind.HeartbeatMsg? :: m.ts
  }

  function Saying(msgs: seq<Msg>, id: string, word: string): set<real> {
    set m | m in msgs && Says(m, id, word) :: m.ts
  }

  predicate AllAtMost(times: set<real>, t: real) { forall u | u in times :: u <= t }

  /** An "offline" of the device that no heartbeat and no "online" is later than. */
  predicate OfflineStands(msgs: seq<Msg>, id: string) {
    exists t | t in Saying(msgs, id, "offline") ::
      AllAtMost(Heartbeats(msgs, id), t) && AllAtMost(Saying(msgs, id, "online"), t)
  }

  predicate IsLatestStatus(msgs: seq<Msg>, id: string, i: nat) {
    && i < |msgs| && IsStatus(msgs[i], id)
    && forall j | i < j < |msgs| :: !IsStatus(msgs[j], id)
  }

  /** No heartbeat is later than the device's latest status, and that status is "online"
      although an "offline" stands, or any other payload although none stands. */
  predicate Splits(msgs: seq<Msg>, id: string) {
    exists i | 0 <= i < |msgs| ::
      && IsLatestStatus(msgs, id, i) && AllAtMost(Heartbeats(msgs, id), msgs[i].ts)
      && (Says(msgs[i], id, "online") <==> OfflineStands(msgs, id))
  }

  predicate IsMax(last: Option<real>, times: set<real>) {
    && (last.None? <==> times == {})
    && (last.Some? ==> last.value in times && AllAtMost(times, last.value))
  }

  lemma MaxAtMost(last: Option<real>, times: set<real>, t: real)
    requires IsMax(last, times)
    ensures AtMost(last, t) <==> AllAtMost(times, t)
  {
  }

  lemma MaxNext(last: Option<real>, times: set<real>, ts: real)
    requires IsMax(last, times)
    ensures IsMax(if Newer(ts, last) then Some(ts) else last, times + {ts})
  {
  }

  lemma TimesNext(msgs: seq<Msg>, id: string)
    requires msgs != []
    ensures var n := |msgs| - 1;
            && Heartbeats(msgs, id) == Heartbeats(msgs[..n], id)
                 + (if msgs[n].device == id && msgs[n].kind.HeartbeatMsg? then {msgs[n].ts} else {})
            && forall word :: Saying(msgs, id, word) == Saying(msgs[..n], id, word)
                 + (if Says(msgs[n], id, word) then {msgs[n].ts} else {})
  {
    var n := |msgs| - 1;
    assert forall m :: m in msgs <==> m in msgs[..n] || m == msgs[n] by {
      assert msgs == msgs[..n] + [msgs[n]];
    }
  }

  lemma NotedIsMax(a: Acc, m: Msg, id: string, hbs: set<real>, onlines: set<real>, offlines: set<real>)
    requires m.device == id && IsMax(a.lastHb, hbs) && IsMax(a.lastOnline, onlines) && IsMax(a.lastOffline, offlines)
    ensures var b := Noted(a, m);
            && IsMax(b.lastHb, hbs + (if m.kind.HeartbeatMsg? then {m.ts} else {}))
            && IsMax(b.lastOnline, onlines + (if Says(m, id, "online") then {m.ts} else {}))
            && IsMax(b.lastOffline, offlines + (if Says(m, id, "offline") then {m.ts} else {}))
  {
    MaxNext(a.lastHb, hbs, m.ts);
    MaxNext(a.lastOnline, onlines, m.ts);
    MaxNext(a.lastOffline, offlines, m.ts);
  }

  /** The roll-up holds the latest time of each kind. */
  lemma {:induction false} RolledIsMax(msgs: seq<Msg>, id: string)
    ensures var a := Rolled(msgs, id);
            && IsMax(a.lastHb, Heartbeats(msgs, id))
            && IsMax(a.lastOnline, Saying(msgs, id, "online"))
            && IsMax(a.lastOffline, Saying(msgs, id, "offline"))
  {
    if msgs != [] {
      var n := |msgs| - 1;
      RolledIsMax(msgs[..n], id);
      TimesNext(msgs, id);
      if msgs[n].device == id {
        NotedIsMax(Rolled(msgs[..n], id), msgs[n], id, Heartbeats(msgs[..n], id),
                   Saying(msgs[..n], id, "online"), Saying(msgs[..n], id, "offline"));
      }
    }
  }

  lemma OfflineStandsIff(msgs: seq<Msg>, id: string)
    ensures OfflineStands(msgs, id) <==> RolledOffline(Rolled(msgs, id))
  {
    var a := Rolled(msgs, id);
    RolledIsMax(msgs, id);
    forall t | t in Saying(msgs, id, "offline")
      ensures AllAtMost(Heartbeats(msgs, id), t) && AllAtMost(Saying(msgs, id, "online"), t) <==>
              AtMost(a.lastHb, t) && AtMost(a.lastOnline, t)
    {
      MaxAtMost(a.lastHb, Heartbeats(msgs, id), t);
      MaxAtMost(a.lastOnline, Saying(msgs, id, "online"), t);
    }
  }

  /** The tracker holds the device's latest status. */
  lemma {:induction false} TrackedIsLatest(msgs: seq<Msg>, id: string)
    requires id != ""
    ensures var d := Tracked(UNHEARD, msgs, id);
            && (d.lastStatusAt.None? ==> !d.lastOnline && forall m | m in msgs :: !IsStatus(m, id))
            && (d.lastStatusAt.Some? ==> exists i | 0 <= i < |msgs| :: IsLatestStatus(msgs, id, i))
            && forall i: nat | IsLatestStatus(msgs, id, i) ::
                 d.lastStatusAt == Some(msgs[i].ts) && (d.lastOnline <==> Says(msgs[i], id, "online"))
  {
    if msgs != [] {
      var n := |msgs| - 1;
      TrackedIsLatest(msgs[..n], id);
      if IsStatus(msgs[n], id) {
        assert IsLatestStatus(msgs, id, n);
      } else {
        assert forall i: nat | i < n :: msgs[..n][i] == msgs[i];
        assert forall i: nat :: IsLatestStatus(msgs[..n], id, i) <==> IsLatestStatus(msgs, id, i);
      }
    }
  }

  // -------------------------------------------------------------------
  // What the two say

  /** The state without an "offline": by the latest sign of life. */
  predicate IsFresh(state: LiveState, alive: set<real>, now: real, timeout: real) {
    && (state == Online <==> exists t | t in alive :: now - t <= timeout)
    && (state == Stale <==> alive != {} && forall t | t in alive :: now - t > timeout)
    && (state == Unknown <==> alive == {})
  }

  lemma LaterIsMax(a: Option<real>, b: Option<real>, s: set<real>, t: set<real>)
    requires IsMax(a, s) && IsMax(b, t)
    ensures IsMax(Later(a, b), s + t)
  {
    if a.None? {
      assert s + t == t;
    } else if b.None? {
      assert s + t == s;
    }
  }

  lemma FreshIs(last: Option<real>, alive: set<real>, now: real, timeout: real)
    requires IsMax(last, alive)
    ensures IsFresh(Fresh(last, now, timeout), alive, now, timeout)
  {
    if last.Some? {
      assert last.value in alive;
    }
  }

  /** To the tracker signs of life are heartbeats and a latest status that is "online". */
  function Signs(msgs: seq<Msg>, id: string): set<real> {
    Heartbeats(msgs, id)
    + set i | 0 <= i < |msgs| && IsLatestStatus(msgs, id, i) && Says(msgs[i], id, "online") :: msgs[i].ts
  }

  lemma SignsMax(msgs: seq<Msg>, id: string)
    requires InOrder(msgs) && id != ""
    ensures IsMax(AliveAt(Tracked(UNHEARD, msgs, id)), Signs(msgs, id))
  {
    var d := Tracked(UNHEARD, msgs, id);
    SummariesMatch(msgs, id);
    RolledIsMax(msgs, id);
    TrackedIsLatest(msgs, id);
    var online := set i | 0 <= i < |msgs| && IsLatestStatus(msgs, id, i) && Says(msgs[i], id, "online") :: msgs[i].ts;
    var status := if d.lastOnline then d.lastStatusAt else None;
    if d.lastOnline {
      var i :| 0 <= i < |msgs| && IsLatestStatus(msgs, id, i);
      assert msgs[i].ts in online;
    }
    assert IsMax(status, online);
    LaterIsMax(d.lastHbAt, status, Heartbeats(msgs, id), online);
  }

  /** The tracker's state from the messages: offline if the latest status is not "online"
      and no heartbeat is later; else online, stale or unknown by its signs of life. */
  lemma {:induction false} TrackerSays(msgs: seq<Msg>, id: string, now: real, timeout: real)
    requires InOrder(msgs) && id != ""
    ensures var state := TrackedState(Tracked(UNHEARD, msgs, id), now, timeout);
            var offline := exists i | 0 <= i < |msgs| ::
                             && IsLatestStatus(msgs, id, i) && !Says(msgs[i], id, "online")
                             && AllAtMost(Heartbeats(msgs, id), msgs[i].ts);
            if offline then state == Offline else IsFresh(state, Signs(msgs, id), now, timeout)
  {
    var d := Tracked(UNHEARD, msgs, id);
    SignsMax(msgs, id);
    FreshIs(AliveAt(d), Signs(msgs, id), now, timeout);
    TrackedIsLatest(msgs, id);
    SummariesMatch(msgs, id);
    RolledIsMax(msgs, id);
    if d.lastStatusAt.Some? {
      MaxAtMost(d.lastHbAt, Heartbeats(msgs, id), d.lastStatusAt.value);
    }
  }

  /** The roll-up's state from the messages, in any order: offline if an "offline"
      stands; else online, stale or unknown by heartbeats and "online"s. */
  lemma {:induction false} RollupSays(msgs: seq<Msg>, id: string, now: real, timeout: real)
    ensures var state := RolledState(Rolled(msgs, id), now, timeout);
            if OfflineStands(msgs, id) then state == Offline
            else IsFresh(state, Heartbeats(msgs, id) + Saying(msgs, id, "online"), now, timeout)
  {
    var a := Rolled(msgs, id);
    OfflineStandsIff(msgs, id);
    RolledIsMax(msgs, id);
    LaterIsMax(a.lastHb, a.lastOnline, Heartbeats(msgs, id), Saying(msgs, id, "online"));
    FreshIs(Later(a.lastHb, a.lastOnline), Heartbeats(msgs, id) + Saying(msgs, id, "online"), now, timeout);
  }

  /** Messages without a device id are nobody's. */
  lemma {:induction false} NamelessIgnored(start: Device, msgs: seq<Msg>)
    ensures Tracked(start, msgs, "") == start
  {
    if msgs != [] {
      NamelessIgnored(start, msgs[..|msgs| - 1]);
    }
  }

  /** With non-decreasing times, for any payloads, tracker and roll-up part exactly on
      the lists that `Splits` describes, and then at every moment. */
  lemma {:induction false} AgreeIff(msgs: seq<Msg>, id: string, now: real, timeout: real)
    requires InOrder(msgs) && id != ""
    ensures TrackedState(Tracked(UNHEARD, msgs, id), now, timeout) == RolledState(Rolled(msgs, id), now, timeout) <==>
            !Splits(msgs, id)
  {
    var d, a := Tracked(UNHEARD, msgs, id), Rolled(msgs, id);
    SummariesAgreeIff(msgs, id, now, timeout);
    SummariesMatch(msgs, id);
    OfflineStandsIff(msgs, id);
    TrackedIsLatest(msgs, id);
    RolledIsMax(msgs, id);
    if d.lastStatusAt.Some? {
      MaxAtMost(a.lastHb, Heartbeats(msgs, id), d.lastStatusAt.value);
    }
  }

  /** Status payloads are "online" or "offline". */
  predicate Plain(msgs: seq<Msg>) {
    forall i | 0 <= i < |msgs| && msgs[i].kind.StatusMsg? :: Strip(msgs[i].kind.payload) in ["online", "offline"]
  }

  /** With those two payloads only, they part exactly in a tie: the latest status is
      "online", an "offline" carries the same time, and no later heartbeat came. */
  lemma {:induction false} PlainSplitsIff(msgs: seq<Msg>, id: string)
    requires InOrder(msgs) && Plain(msgs) && id != ""
    ensures Splits(msgs, id) <==>
            exists i | 0 <= i < |msgs| ::
              && IsLatestStatus(msgs, id, i) && AllAtMost(Heartbeats(msgs, id), msgs[i].ts)
              && Says(msgs[i], id, "online") && msgs[i].ts in Saying(msgs, id, "offline")
  {
    forall i | 0 <= i < |msgs| && IsLatestStatus(msgs, id, i) && AllAtMost(Heartbeats(msgs, id), msgs[i].ts)
      ensures OfflineStands(msgs, id) <==>
              Says(msgs[i], id, "offline") || msgs[i].ts in Saying(msgs, id, "offline")
    {
      StatusesUpTo(msgs, id, i);
      if Says(msgs[i], id, "online") {
        assert msgs[i].ts in Saying(msgs, id, "online");
      } else {
        assert Says(msgs[i], id, "offline") && msgs[i].ts in Saying(msgs, id, "offline");
      }
    }
  }

  lemma StatusesUpTo(msgs: seq<Msg>, id: string, i: nat)
    requires InOrder(msgs) && IsLatestStatus(msgs, id, i)
    ensures forall word :: AllAtMost(Saying(msgs, id, word), msgs[i].ts)
  {
    forall word, t | t in Saying(msgs, id, word)
      ensures t <= msgs[i].ts
    {
      var j :| 0 <= j < |msgs| && Says(msgs[j], id, word) && msgs[j].ts == t;
      assert j <= i;
    }
  }

  /** With strictly increasing times the tracker and the roll-up agree on every
      device at every moment. */
  lemma {:induction false} IncrementalEqualsBatch(msgs: seq<Msg>, id: string, now: real, timeout: real)
    requires StrictlyInOrder(msgs) && Plain(msgs) && id != ""
    ensures TrackedState(Tracked(UNHEARD, msgs, id), now, timeout) == RolledState(Rolled(msgs, id), now, timeout)
  {
    assert InOrder(msgs);
    AgreeIff(msgs, id, now, timeout);
    PlainSplitsIff(msgs, id);
    forall i, t | 0 <= i < |msgs| && Says(msgs[i], id, "online") && t in Saying(msgs, id, "offline")
      ensures t != msgs[i].ts
    {
      var j :| 0 <= j < |msgs| && Says(msgs[j], id, "offline") && msgs[j].ts == t;
      assert j != i;
    }
  }

  /** A device's one status, neither word: "offline" to the tracker, nothing to the
      roll-up. An "offline" before it makes them agree again. */
  lemma OtherPayloadSplits(id: string, payload: string, ts: real, now: real, timeout: real)
    requires id != "" && Strip(payload) !in ["online", "offline"]
    ensures var msgs := [Msg(id, StatusMsg(payload), ts)];
            && TrackedState(Tracked(UNHEARD, msgs, id), now, timeout) == Offline
            && RolledState(Rolled(msgs, id), now, timeout) == Unknown
    ensures var msgs := [Msg(id, StatusMsg("offline"), ts), Msg(id, StatusMsg(payload), ts)];
            && TrackedState(Tracked(UNHEARD, msgs, id), now, timeout) == Offline
            && RolledState(Rolled(msgs, id), now, timeout) == Offline
  {
  }

  /** An "offline" and an "online" at one time: the tracker goes by which came last, the
      roll-up takes the device for offline. */
  lemma TieSplits(id: string, ts: real, timeout: real)
    requires id != "" && timeout >= 0.0
    ensures var msgs := [Msg(id, StatusMsg("offline"), ts), Msg(id, StatusMsg("online"), ts)];
            && TrackedState(Tracked(UNHEARD, msgs, id), ts, timeout) == Online
            && RolledState(Rolled(msgs, id), ts, timeout) == Offline
  {
    var msgs := [Msg(id, StatusMsg("offline"), ts), Msg(id, StatusMsg("online"), ts)];
    StripTrims("offline");
    StripTrims("online");
    var first := msgs[..1];
    assert first[..0] == [] && first[0] == msgs[0];
    assert Rolled(first, id) == Acc(None, None, Some(ts));
    assert Rolled(msgs, id) == Acc(None, Some(ts), Some(ts));
  }
}
