/**
 Alerts derived from the audit trail and from connector state. The evaluator folds queued events
 into alerts in bounded batches; the outage pass keeps one alert per connector that is failing now.
 */
module Alerts {
  import opened Optional

  type Id = string

  datatype Rule =
    | PrivilegeChange
    | RecoveryUse
    | ConnectorCredentials
    | LoginFailures
    | AccessRemovalFailed
    | ProvisioningOutage
    | LogoutOutage
  datatype Status = Open | Acknowledged | Resolved
  datatype Alert = Alert(rule: Rule, key: string, status: Status, count: int)

  datatype Action =
    | UserCreated(admin: bool) | UserUpdated(roleChanged: bool) | DelegationsUpdated
    | RecoveryConsumed | MfaReset | PasswordReset
    | ScimTokenChanged | SystemCreated | SystemConfigured(rotated: bool) | MailConfigured
    | Login
    | ExpiryFailed | EndRefused
    | OtherAction

  /** An audit row. `place` orders rows of the same instant; no target is the empty string. */
  datatype Event = Event(place: int, action: Action, success: bool, target: Id, ip: string, created: int)

  datatype Settings = Settings(threshold: int, window: int)

  const MANY_SOURCES := "many-sources"
  const UNKNOWN_SOURCE := "unknown-source"
  const CEILING := 10
  const BATCH := 500
  const MAX_BATCHES := 10

  datatype Spec = Spec(rule: Rule, key: string, count: int)

  // ---- classification -------------------------------------------------------------------------------

  /** The rules that need nothing but the event. */
  function Plain(e: Event): Option<Spec> {
    match e.action
    case UserCreated(admin) => if e.success && admin then Some(Spec(PrivilegeChange, e.target, 1)) else None
    case UserUpdated(roleChanged) => if e.success && roleChanged then Some(Spec(PrivilegeChange, e.target, 1)) else None
    case DelegationsUpdated => if e.success then Some(Spec(PrivilegeChange, e.target, 1)) else None
    case RecoveryConsumed => if e.success then Some(Spec(RecoveryUse, e.target, 1)) else None
    case MfaReset => if e.success then Some(Spec(RecoveryUse, e.target, 1)) else None
    case PasswordReset => if e.success then Some(Spec(RecoveryUse, e.target, 1)) else None
    case ScimTokenChanged => if e.success then Some(Spec(ConnectorCredentials, e.target, 1)) else None
    case SystemCreated => if e.success then Some(Spec(ConnectorCredentials, e.target, 1)) else None
    case SystemConfigured(rotated) => if e.success && rotated then Some(Spec(ConnectorCredentials, e.target, 1))
      else None
    case MailConfigured => if e.success then Some(Spec(ConnectorCredentials, "mail", 1)) else None
    case ExpiryFailed => Some(Spec(AccessRemovalFailed, if e.target == "" then "directory" else e.target, 1))
    case EndRefused => Some(Spec(AccessRemovalFailed, e.target, 1))
    case Login => None
    case OtherAction => None
  }

  /** A failed sign-in keys by its account, or else by its source address. */
  function SourceKey(e: Event): string {
    if e.target != "" then e.target else if e.ip != "" then e.ip else UNKNOWN_SOURCE
  }

  predicate SameSource(f: Event, e: Event) {
    if e.target != "" then f.target == e.target else f.ip == e.ip
  }

  predicate UpTo(f: Event, e: Event) {
    f.created < e.created || (f.created == e.created && f.place <= e.place)
  }

  /** Failures of the event's source within the window, up to the event itself. */
  function Counted(audit: set<Event>, e: Event, settings: Settings, now: int): set<Event> {
    set f | f in audit && f.action == Login && !f.success && SameSource(f, e) && now - settings.window < f.created
      && UpTo(f, e)
  }

  function Failures(audit: set<Event>, e: Event, settings: Settings, now: int): int {
    |Counted(audit, e, settings, now)|
  }

  predicate Live(a: Alert) { a.status != Resolved }

  predicate LiveAs(a: Alert, rule: Rule, key: string) { Live(a) && a.rule == rule && a.key == key }

  /** A live login alert of its own, not the shared one. */
  predicate OwnLogin(a: Alert) { Live(a) && a.rule == LoginFailures && a.key != MANY_SOURCES }

  /** How many rows satisfy a condition. */
  function Count(alerts: seq<Alert>, p: Alert -> bool): nat {
    if alerts == [] then 0 else Count(alerts[..|alerts| - 1], p) + if p(alerts[|alerts| - 1]) then 1 else 0
  }

  predicate HasLive(alerts: seq<Alert>, rule: Rule, key: string) {
    exists i :: 0 <= i < |alerts| && LiveAs(alerts[i], rule, key)
  }

  /** The alert an event calls for, given the alerts so far. Past the ceiling, new sources share one. */
  function Classify(alerts: seq<Alert>, audit: set<Event>, e: Event, settings: Settings, now: int): Option<Spec> {
    if e.action != Login then Plain(e)
    else if e.success then None
    else
      var n := Failures(audit, e, settings, now);
      if n < settings.threshold then None
      else if !HasLive(alerts, LoginFailures, SourceKey(e)) && Count(alerts, OwnLogin) >= CEILING
        then Some(Spec(LoginFailures, MANY_SOURCES, 1))
      else Some(Spec(LoginFailures, SourceKey(e), n))
  }

  // ---- raising --------------------------------------------------------------------------------------

  function FindLive(alerts: seq<Alert>, rule: Rule, key: string): (at: Option<nat>)
    ensures at.Some? ==> at.value < |alerts| && LiveAs(alerts[at.value], rule, key)
    ensures at.None? ==> forall i :: 0 <= i < |alerts| ==> !LiveAs(alerts[i], rule, key)
  {
    if alerts == [] then None
    else if LiveAs(alerts[|alerts| - 1], rule, key) then Some(|alerts| - 1)
    else FindLive(alerts[..|alerts| - 1], rule, key)
  }

  /** Folds the occurrence into the live alert for its rule and key, or opens one. */
  function Raise(alerts: seq<Alert>, spec: Spec): seq<Alert> {
    var at := FindLive(alerts, spec.rule, spec.key);
    if at.None? then alerts + [Alert(spec.rule, spec.key, Open, spec.count)]
    else alerts[at.value := alerts[at.value].(count := alerts[at.value].count + 1, status := Open)]
  }

  function Raised(alerts: seq<Alert>, spec: Option<Spec>): seq<Alert> {
    if spec.None? then alerts else Raise(alerts, spec.value)
  }

  function Evaluate(alerts: seq<Alert>, audit: set<Event>, e: Event, settings: Settings, now: int): seq<Alert> {
    Raised(alerts, Classify(alerts, audit, e, settings, now))
  }

  /** All the events, one after the other. */
  function Fold(alerts: seq<Alert>, audit: set<Event>, events: seq<Event>, settings: Settings, now: int): seq<Alert>
    decreases |events|
  {
    if events == [] then alerts
      else Evaluate(Fold(alerts, audit, events[..|events| - 1], settings, now), audit, events[|events| - 1],
        settings, now)
  }

  // ---- batches --------------------------------------------------------------------------------------

  datatype State = State(alerts: seq<Alert>, queue: seq<Event>)

  function Least(a: nat, b: nat): nat { if a < b then a else b }

  /** One transaction: the first events of the queue are folded and leave it. */
  function Batch(st: State, audit: set<Event>, size: nat, settings: Settings, now: int): State {
    var n := Least(size, |st.queue|);
    State(Fold(st.alerts, audit, st.queue[..n], settings, now), st.queue[n..])
  }

  datatype Attempt = Attempt(size: nat, commits: bool)

  function Attempts(st: State, audit: set<Event>, attempts: seq<Attempt>, settings: Settings, now: int): State
    decreases |attempts|
  {
    if attempts == [] then st
    else Attempts(if attempts[0].commits then Batch(st, audit, attempts[0].size, settings, now)
      else st, audit, attempts[1..], settings, now)
  }

  lemma {:induction false} FoldSplits(alerts: seq<Alert>, audit: set<Event>, a: seq<Event>, b: seq<Event>,
      settings: Settings, now: int)
    ensures Fold(alerts, audit, a + b, settings, now)
      == Fold(Fold(alerts, audit, a, settings, now), audit, b, settings, now)
    decreases |b|
  {
    if b == [] {
      assert a + b == a;
    } else {
      var front := b[..|b| - 1];
      assert (a + b)[..|a + b| - 1] == a + front;
      FoldSplits(alerts, audit, a, front, settings, now);
    }
  }

  lemma Slices(all: seq<Event>, k: nat, n: nat)
    requires k + n <= |all|
    ensures all[..k] + all[k..][..n] == all[..k + n]
    ensures all[k..][n..] == all[k + n..]
  {
  }

  /** Any batches, any sizes, any aborts: what has been evaluated is one fold over what has left the queue. */
  lemma {:induction false} BatchesAreOneFold(st: State, audit: set<Event>, attempts: seq<Attempt>, settings: Settings,
      now: int) returns (k: nat)
    ensures k <= |st.queue|
    ensures Attempts(st, audit, attempts, settings, now)
      == State(Fold(st.alerts, audit, st.queue[..k], settings, now), st.queue[k..])
    decreases |attempts|
  {
    if attempts == [] {
      k := 0;
    } else if !attempts[0].commits {
      k := BatchesAreOneFold(st, audit, attempts[1..], settings, now);
    } else {
      var n := Least(attempts[0].size, |st.queue|);
      var st' := Batch(st, audit, attempts[0].size, settings, now);
      var k' := BatchesAreOneFold(st', audit, attempts[1..], settings, now);
      k := n + k';
      Slices(st.queue, n, k');
      FoldSplits(st.alerts, audit, st.queue[..n], st'.queue[..k'], settings, now);
    }
  }

  /** Two ways of draining the queue end alike, and as evaluating it in one go. */
  lemma DrainedIsOneFold(st: State, audit: set<Event>, attempts: seq<Attempt>, settings: Settings, now: int)
    requires Attempts(st, audit, attempts, settings, now).queue == []
    ensures Attempts(st, audit, attempts, settings, now).alerts == Fold(st.alerts, audit, st.queue, settings, now)
  {
    var k := BatchesAreOneFold(st, audit, attempts, settings, now);
    assert st.queue[..k] == st.queue;
  }

  // ---- what every step keeps ------------------------------------------------------------------------

  predicate OnePerKey(alerts: seq<Alert>) {
    forall i, j :: 0 <= i < j < |alerts| && Live(alerts[i]) && Live(alerts[j]) ==>
      alerts[i].rule != alerts[j].rule || alerts[i].key != alerts[j].key
  }

  ghost predicate Inv(alerts: seq<Alert>) {
    OnePerKey(alerts) && Count(alerts, OwnLogin) <= CEILING
  }

  lemma CountAppend(alerts: seq<Alert>, a: Alert, p: Alert -> bool)
    ensures Count(alerts + [a], p) == Count(alerts, p) + if p(a) then 1 else 0
  {
    assert (alerts + [a])[..|alerts|] == alerts;
  }

  lemma {:induction false} CountUpdate(alerts: seq<Alert>, i: nat, a: Alert, p: Alert -> bool)
    requires i < |alerts|
    ensures Count(alerts[i := a], p) == Count(alerts, p) - (if p(alerts[i]) then 1 else 0) + if p(a) then 1 else 0
    decreases |alerts|
  {
    var n := |alerts| - 1;
    if i < n {
      CountUpdate(alerts[..n], i, a, p);
      assert alerts[i := a][..n] == alerts[..n][i := a];
    } else {
      assert alerts[i := a][..n] == alerts[..n];
    }
  }

  lemma {:induction false} CountShrinks(alerts: seq<Alert>, alerts': seq<Alert>, p: Alert -> bool)
    requires |alerts| == |alerts'| && forall i :: 0 <= i < |alerts| && p(alerts'[i]) ==> p(alerts[i])
    ensures Count(alerts', p) <= Count(alerts, p)
  {
    if alerts != [] {
      var n := |alerts| - 1;
      CountShrinks(alerts[..n], alerts'[..n], p);
    }
  }

  lemma OpenKeeps(alerts: seq<Alert>, a: Alert)
    requires Inv(alerts) && (forall i :: 0 <= i < |alerts| ==> !LiveAs(alerts[i], a.rule, a.key))
    requires OwnLogin(a) ==> Count(alerts, OwnLogin) < CEILING
    ensures Inv(alerts + [a])
  {
    CountAppend(alerts, a, OwnLogin);
  }

  /** Rewriting a live row under the same rule and key, or an open one as acknowledged, changes no key. */
  lemma RewriteKeeps(alerts: seq<Alert>, i: nat, a: Alert)
    requires Inv(alerts) && i < |alerts| && Live(alerts[i]) && a.rule == alerts[i].rule && a.key == alerts[i].key
    ensures Inv(alerts[i := a])
  {
    CountUpdate(alerts, i, a, OwnLogin);
  }

  lemma RaiseKeeps(alerts: seq<Alert>, spec: Spec)
    requires Inv(alerts)
    requires spec.rule == LoginFailures && spec.key != MANY_SOURCES && !HasLive(alerts, spec.rule, spec.key) ==>
      Count(alerts, OwnLogin) < CEILING
    ensures Inv(Raise(alerts, spec))
  {
    var at := FindLive(alerts, spec.rule, spec.key);
    if at.None? {
      OpenKeeps(alerts, Alert(spec.rule, spec.key, Open, spec.count));
    } else {
      RewriteKeeps(alerts, at.value, alerts[at.value].(count := alerts[at.value].count + 1, status := Open));
    }
  }

  lemma EvaluateKeeps(alerts: seq<Alert>, audit: set<Event>, e: Event, settings: Settings, now: int)
    requires Inv(alerts)
    ensures Inv(Evaluate(alerts, audit, e, settings, now))
  {
    var spec := Classify(alerts, audit, e, settings, now);
    if spec.Some? {
      assert e.action != Login ==> spec.value.rule != LoginFailures;
      RaiseKeeps(alerts, spec.value);
    }
  }

  lemma {:induction false} FoldKeeps(alerts: seq<Alert>, audit: set<Event>, events: seq<Event>, settings: Settings,
      now: int)
    requires Inv(alerts)
    ensures Inv(Fold(alerts, audit, events, settings, now))
    decreases |events|
  {
    if events != [] {
      FoldKeeps(alerts, audit, events[..|events| - 1], settings, now);
      EvaluateKeeps(Fold(alerts, audit, events[..|events| - 1], settings, now), audit, events[|events| - 1],
        settings, now);
    }
  }

  // ---- counts add up --------------------------------------------------------------------------------

  predicate About(a: Alert, rule: Rule, key: string) { a.rule == rule && a.key == key }

  /** Everything ever counted for a rule and key, over live and resolved alerts. */
  function Total(alerts: seq<Alert>, rule: Rule, key: string): int {
    if alerts == [] then 0
    else
      Total(alerts[..|alerts| - 1], rule, key)
      + if About(alerts[|alerts| - 1], rule, key) then alerts[|alerts| - 1].count else 0
  }

  lemma TotalAppend(alerts: seq<Alert>, a: Alert, rule: Rule, key: string)
    ensures Total(alerts + [a], rule, key) == Total(alerts, rule, key) + if About(a, rule, key) then a.count else 0
  {
    assert (alerts + [a])[..|alerts|] == alerts;
  }

  lemma {:induction false} TotalUpdate(alerts: seq<Alert>, i: nat, a: Alert, rule: Rule, key: string)
    requires i < |alerts| && a.rule == alerts[i].rule && a.key == alerts[i].key
    ensures Total(alerts[i := a], rule, key) == Total(alerts, rule, key)
      + if About(a, rule, key) then a.count - alerts[i].count else 0
    decreases |alerts|
  {
    var n := |alerts| - 1;
    if i < n {
      TotalUpdate(alerts[..n], i, a, rule, key);
      assert alerts[i := a][..n] == alerts[..n][i := a];
    } else {
      assert alerts[i := a][..n] == alerts[..n];
    }
  }

  lemma {:induction false} TotalSame(alerts: seq<Alert>, alerts': seq<Alert>, rule: Rule, key: string)
    requires |alerts| == |alerts'|
    requires forall i :: 0 <= i < |alerts| ==>
      About(alerts'[i], rule, key) == About(alerts[i], rule, key) && alerts'[i].count == alerts[i].count
    ensures Total(alerts', rule, key) == Total(alerts, rule, key)
  {
    if alerts != [] {
      TotalSame(alerts[..|alerts| - 1], alerts'[..|alerts| - 1], rule, key);
    }
  }

  lemma RaiseCounts(alerts: seq<Alert>, spec: Spec, rule: Rule, key: string)
    requires spec.rule == rule && spec.key == key ==> spec.count == 1
    ensures Total(Raise(alerts, spec), rule, key) == Total(alerts, rule, key)
      + if spec.rule == rule && spec.key == key then 1 else 0
  {
    var at := FindLive(alerts, spec.rule, spec.key);
    if at.None? {
      TotalAppend(alerts, Alert(spec.rule, spec.key, Open, spec.count), rule, key);
    } else {
      TotalUpdate(alerts, at.value, alerts[at.value].(count := alerts[at.value].count + 1, status := Open), rule, key);
    }
  }

  /** The events that call for this rule and key. */
  predicate CallsFor(e: Event, rule: Rule, key: string) {
    match rule
    case PrivilegeChange =>
      e.success && e.target == key && e.action in {UserCreated(true), UserUpdated(true), DelegationsUpdated}
    case RecoveryUse => e.success && e.target == key && e.action in {RecoveryConsumed, MfaReset, PasswordReset}
    case ConnectorCredentials =>
      e.success && (|| (e.target == key && e.action in {ScimTokenChanged, SystemCreated, SystemConfigured(true)})
                    || (key == "mail" && e.action == MailConfigured))
    case AccessRemovalFailed =>
      || (e.action == EndRefused && e.target == key)
      || (e.action == ExpiryFailed && key == if e.target == "" then "directory" else e.target)
    case _ => false
  }

  lemma PlainMeans(e: Event, rule: Rule, key: string)
    ensures Plain(e).Some? && Plain(e).value.rule == rule && Plain(e).value.key == key <==> CallsFor(e, rule, key)
  {
  }

  function Calls(events: seq<Event>, rule: Rule, key: string): nat {
    if events == [] then 0 else Calls(events[..|events| - 1], rule, key) + if CallsFor(events[|events| - 1], rule, key)
      then 1 else 0
  }

  lemma {:induction false} CallsAdd(a: seq<Event>, b: seq<Event>, rule: Rule, key: string)
    ensures Calls(a + b, rule, key) == Calls(a, rule, key) + Calls(b, rule, key)
  {
    if b == [] {
      assert a + b == a;
    } else {
      assert (a + b)[..|a + b| - 1] == a + b[..|b| - 1];
      CallsAdd(a, b[..|b| - 1], rule, key);
    }
  }

  lemma PlainSpec(e: Event)
    ensures Plain(e).Some? ==>
      Plain(e).value.count == 1 && Plain(e).value.rule != LoginFailures && !OutageRule(Plain(e).value.rule)
  {
  }

  lemma ClassifyShape(alerts: seq<Alert>, audit: set<Event>, e: Event, settings: Settings, now: int, spec: Option<Spec>)
    requires spec == Classify(alerts, audit, e, settings, now)
    ensures spec == Plain(e) || (Plain(e).None? && spec.Some? && spec.value.rule == LoginFailures)
  {
  }

  lemma RaisedCounts(alerts: seq<Alert>, spec: Option<Spec>, e: Event, rule: Rule, key: string)
    requires rule != LoginFailures
    requires spec == Plain(e) || (Plain(e).None? && spec.Some? && spec.value.rule == LoginFailures)
    ensures Total(Raised(alerts, spec), rule, key) == Total(alerts, rule, key) + if CallsFor(e, rule, key) then 1 else 0
  {
    PlainSpec(e);
    PlainMeans(e, rule, key);
    if spec.Some? {
      RaiseCounts(alerts, spec.value, rule, key);
    }
  }

  lemma EvaluateCounts(alerts: seq<Alert>, audit: set<Event>, e: Event, settings: Settings, now: int, rule: Rule,
      key: string)
    requires rule != LoginFailures
    ensures Total(Evaluate(alerts, audit, e, settings, now), rule, key) == Total(alerts, rule, key)
      + if CallsFor(e, rule, key) then 1 else 0
  {
    var spec := Classify(alerts, audit, e, settings, now);
    ClassifyShape(alerts, audit, e, settings, now, spec);
    RaisedCounts(alerts, spec, e, rule, key);
  }

  /** Every call for a rule and key is counted once, and nothing else is. */
  lemma {:induction false} FoldCounts(alerts: seq<Alert>, audit: set<Event>, events: seq<Event>, settings: Settings,
      now: int, rule: Rule, key: string)
    requires rule != LoginFailures
    ensures Total(Fold(alerts, audit, events, settings, now), rule, key) == Total(alerts, rule, key)
      + Calls(events, rule, key)
    decreases |events|
  {
    if events != [] {
      var front, e := events[..|events| - 1], events[|events| - 1];
      FoldCounts(alerts, audit, front, settings, now, rule, key);
      EvaluateCounts(Fold(alerts, audit, front, settings, now), audit, e, settings, now, rule, key);
    }
  }

  predicate OpenAs(a: Alert, rule: Rule, key: string) { a.status == Open && a.rule == rule && a.key == key }

  /** And an event that calls for a rule and key leaves its alert open. */
  lemma CallOpensAlert(alerts: seq<Alert>, audit: set<Event>, e: Event, settings: Settings, now: int, rule: Rule,
      key: string)
    requires CallsFor(e, rule, key)
    ensures var alerts' := Evaluate(alerts, audit, e, settings, now);
      exists i :: 0 <= i < |alerts'| && OpenAs(alerts'[i], rule, key)
  {
    PlainMeans(e, rule, key);
    var alerts' := Evaluate(alerts, audit, e, settings, now);
    var at := FindLive(alerts, rule, key);
    assert OpenAs(alerts'[if at.Some? then at.value else |alerts|], rule, key);
  }

  /** The failed sign-ins of the same account, or without one of the same address, in the window up to this one. */
  function FailedUpTo(audit: set<Event>, e: Event, window: int, now: int): set<Event> {
    set f | f in audit && f.action == Login && !f.success && f.created > now - window
      && (if e.target == "" then f.ip == e.ip else f.target == e.target)
      && (f.created == e.created ==> f.place <= e.place) && f.created <= e.created
  }

  /** One more occurrence of a live alert. */
  predicate Again(alerts: seq<Alert>, alerts': seq<Alert>, rule: Rule, key: string) {
    exists i :: 0 <= i < |alerts| && LiveAs(alerts[i], rule, key) &&
      alerts' == alerts[i := alerts[i].(count := alerts[i].count + 1, status := Open)]
  }

  /** The alert's next occurrence if it is live, and otherwise a new one with this count. */
  predicate OnceMore(alerts: seq<Alert>, alerts': seq<Alert>, rule: Rule, key: string, n: int) {
    if HasLive(alerts, rule, key) then Again(alerts, alerts', rule, key)
    else alerts' == alerts + [Alert(rule, key, Open, n)]
  }

  lemma RaiseIsOnceMore(alerts: seq<Alert>, spec: Spec)
    ensures OnceMore(alerts, Raise(alerts, spec), spec.rule, spec.key, spec.count)
  {
    var at := FindLive(alerts, spec.rule, spec.key);
    if at.Some? {
      assert LiveAs(alerts[at.value], spec.rule, spec.key);
    }
  }

  /**
   What a sign-in does: nothing if it succeeded or its source has too few recent failures; otherwise its
   source's alert has one more occurrence, or, for a source without a live alert once ten others have
   one, the shared alert has.
   */
  lemma SignInRaises(alerts: seq<Alert>, audit: set<Event>, e: Event, settings: Settings, now: int)
    requires e.action == Login
    ensures var alerts' := Evaluate(alerts, audit, e, settings, now);
      var n := |FailedUpTo(audit, e, settings.window, now)|;
      var key := if e.target != "" then e.target else if e.ip != "" then e.ip else "unknown-source";
      if e.success || n < settings.threshold then alerts' == alerts
      else if HasLive(alerts, LoginFailures, key) || Count(alerts, OwnLogin) < 10
      then OnceMore(alerts, alerts', LoginFailures, key, n)
      else OnceMore(alerts, alerts', LoginFailures, "many-sources", 1)
  {
    assert Counted(audit, e, settings, now) == FailedUpTo(audit, e, settings.window, now);
    var spec := Classify(alerts, audit, e, settings, now);
    if spec.Some? {
      RaiseIsOnceMore(alerts, spec.value);
    }
  }

  // ---- quiet logins and acknowledgements ------------------------------------------------------------

  predicate RecentFailure(audit: set<Event>, key: string, since: int) {
    exists f :: f in audit && f.action == Login && !f.success && since < f.created
      && (key == MANY_SOURCES || f.target == key || f.ip == key)
  }

  function Quieted(a: Alert, audit: set<Event>, since: int): Alert {
    if Live(a) && a.rule == LoginFailures && !RecentFailure(audit, a.key, since) then a.(status := Resolved) else a
  }

  /** Login alerts whose source went quiet for a window are resolved. */
  function Quiet(alerts: seq<Alert>, audit: set<Event>, settings: Settings, now: int): seq<Alert> {
    seq(|alerts|, i requires 0 <= i < |alerts| => Quieted(alerts[i], audit, now - settings.window))
  }

  datatype Outcome = Ok | Missing | NotOpen

  function Acknowledge(alerts: seq<Alert>, i: nat): (seq<Alert>, Outcome) {
    if i >= |alerts| then (alerts, Missing)
    else if alerts[i].status != Open then (alerts, NotOpen)
    else (alerts[i := alerts[i].(status := Acknowledged)], Ok)
  }

  /** Rows keep their rule and key, and none comes back to life. */
  predicate Weaker(alerts: seq<Alert>, alerts': seq<Alert>) {
    |alerts| == |alerts'| && forall i :: 0 <= i < |alerts| ==>
      alerts'[i].rule == alerts[i].rule && alerts'[i].key == alerts[i].key && alerts'[i].count == alerts[i].count
        && (Live(alerts'[i]) ==> Live(alerts[i]))
  }

  lemma WeakerKeeps(alerts: seq<Alert>, alerts': seq<Alert>)
    requires Inv(alerts) && Weaker(alerts, alerts')
    ensures Inv(alerts')
  {
    CountShrinks(alerts, alerts', OwnLogin);
  }

  /**
   A login alert stays live exactly while a failure that carries its key, or any failure for the shared
   alert, lies within the window; no other alert changes.
   */
  lemma QuietResolves(alerts: seq<Alert>, audit: set<Event>, settings: Settings, now: int, rule: Rule, key: string)
    ensures HasLive(Quiet(alerts, audit, settings, now), rule, key) <==>
      HasLive(alerts, rule, key) && (rule == LoginFailures ==> RecentFailure(audit, key, now - settings.window))
  {
    var alerts' := Quiet(alerts, audit, settings, now);
    if i :|
      0 <= i < |alerts| && LiveAs(alerts[i], rule, key) &&
      (rule == LoginFailures ==> RecentFailure(audit, key, now - settings.window)) {
      assert LiveAs(alerts'[i], rule, key);
    }
    if i :| 0 <= i < |alerts'| && LiveAs(alerts'[i], rule, key) {
      assert LiveAs(alerts[i], rule, key);
    }
  }

  /** A failed sign-in since the given instant. */
  predicate FailedSince(e: Event, since: int) {
    e.action == Login && !e.success && since < e.created
  }

  /**
   Which failures keep their own source's alert open: exactly those that name an account or an address.
   The key a nameless one is filed under is compared with columns it is not in, so only a row that
   carries that very text would count for it.
   */
  lemma FailureKeepsItsAlertIff(audit: set<Event>, e: Event, since: int)
    requires e in audit && FailedSince(e, since)
    ensures RecentFailure(audit, SourceKey(e), since) <==>
      || e.target != "" || e.ip != ""
      || exists f :: f in audit && FailedSince(f, since) && (f.target == UNKNOWN_SOURCE || f.ip == UNKNOWN_SOURCE)
  {
    if e.target != "" || e.ip != "" {
      assert FailedSince(e, since) && (e.target == SourceKey(e) || e.ip == SourceKey(e));
    } else if RecentFailure(audit, SourceKey(e), since) {
      var f :| f in audit && f.action == Login && !f.success && since < f.created
        && (SourceKey(e) == MANY_SOURCES || f.target == SourceKey(e) || f.ip == SourceKey(e));
      assert SourceKey(e)[0] == 'u' && MANY_SOURCES[0] == 'm';
      assert FailedSince(f, since) && (f.target == UNKNOWN_SOURCE || f.ip == UNKNOWN_SOURCE);
    }
  }

  /** So an alert for failures without account or address is resolved by the next pass, though they go on. */
  lemma NamelessFailuresAreForgotten(e: Event, settings: Settings, now: int)
    requires FailedSince(e, now - settings.window) && e.target == "" && e.ip == "" && settings.threshold <= 1
      && e.created <= now
    ensures HasLive(Evaluate([], {e}, e, settings, now), LoginFailures, UNKNOWN_SOURCE)
    ensures !HasLive(Quiet(Evaluate([], {e}, e, settings, now), {e}, settings, now), LoginFailures, UNKNOWN_SOURCE)
  {
    assert Counted({e}, e, settings, now) == {e};
    var alerts := Evaluate([], {e}, e, settings, now);
    assert alerts == [Alert(LoginFailures, UNKNOWN_SOURCE, Open, 1)];
    assert LiveAs(alerts[0], LoginFailures, UNKNOWN_SOURCE);
    FailureKeepsItsAlertIff({e}, e, now - settings.window);
    assert !RecentFailure({e}, UNKNOWN_SOURCE, now - settings.window) by {
      assert forall f :: f in {e} ==> f.target != UNKNOWN_SOURCE && f.ip != UNKNOWN_SOURCE;
    }
    QuietResolves(alerts, {e}, settings, now, LoginFailures, UNKNOWN_SOURCE);
  }

  /**
   An acknowledgement hides nothing: it changes no count and no key's liveness, and the next occurrence
   reopens the same alert with one more counted instead of opening another.
   */
  lemma AcknowledgedReopens(alerts: seq<Alert>, row: nat, spec: Spec)
    requires OnePerKey(alerts) && Acknowledge(alerts, row).1.Ok? && About(alerts[row], spec.rule, spec.key)
    ensures var acked := Acknowledge(alerts, row).0;
      && Weaker(alerts, acked) && Weaker(acked, alerts)
      && Raise(acked, spec) == alerts[row := alerts[row].(count := alerts[row].count + 1)]
  {
    var acked := Acknowledge(alerts, row).0;
    var at := FindLive(acked, spec.rule, spec.key);
    assert LiveAs(acked[row], spec.rule, spec.key);
    assert at == Some(row);
    assert acked[row := alerts[row].(count := alerts[row].count + 1)]
      == alerts[row := alerts[row].(count := alerts[row].count + 1)];
  }

  // ---- outages --------------------------------------------------------------------------------------

  predicate OutageRule(rule: Rule) { rule == ProvisioningOutage || rule == LogoutOutage }

  datatype Outage = Outage(rule: Rule, key: string)

  datatype System = System(disabled: bool, failing: bool, failedSync: bool)

  /** Connector state: paired systems, and the clients with a logout delivery given up. */
  datatype World = World(systems: map<Id, System>, clients: set<Id>, failedLogouts: set<Id>)

  predicate SystemDown(s: System) { !s.disabled && (s.failing || s.failedSync) }

  predicate Down(w: World, o: Outage) {
    || (o.rule == ProvisioningOutage && o.key in w.systems && SystemDown(w.systems[o.key]))
    || (o.rule == LogoutOutage && o.key in w.clients && o.key in w.failedLogouts)
  }

  function OpenOutage(alerts: seq<Alert>, o: Outage): seq<Alert> {
    if HasLive(alerts, o.rule, o.key) then alerts else alerts + [Alert(o.rule, o.key, Open, 1)]
  }

  function OpenOutages(alerts: seq<Alert>, down: seq<Outage>): seq<Alert> {
    if down == [] then alerts else OpenOutage(OpenOutages(alerts, down[..|down| - 1]), down[|down| - 1])
  }

  function Recovered(a: Alert, down: seq<Outage>): Alert {
    if Live(a) && OutageRule(a.rule) && Outage(a.rule, a.key) !in down then a.(status := Resolved) else a
  }

  function ResolveRecovered(alerts: seq<Alert>, down: seq<Outage>): seq<Alert> {
    seq(|alerts|, i requires 0 <= i < |alerts| => Recovered(alerts[i], down))
  }

  function OutagePass(alerts: seq<Alert>, down: seq<Outage>): seq<Alert> {
    ResolveRecovered(OpenOutages(alerts, down), down)
  }

  /** How many alerts were ever opened for a rule and key. */
  function Opened(alerts: seq<Alert>, rule: Rule, key: string): nat {
    Count(alerts, (a: Alert) => About(a, rule, key))
  }

  lemma AppendLeavesKey(alerts: seq<Alert>, a: Alert, rule: Rule, key: string)
    requires !About(a, rule, key)
    ensures HasLive(alerts + [a], rule, key) <==> HasLive(alerts, rule, key)
    ensures Opened(alerts + [a], rule, key) == Opened(alerts, rule, key)
  {
    CountAppend(alerts, a, (x: Alert) => About(x, rule, key));
    if HasLive(alerts, rule, key) {
      var i :| 0 <= i < |alerts| && LiveAs(alerts[i], rule, key);
      assert LiveAs((alerts + [a])[i], rule, key);
    }
  }

  lemma AppendOpensKey(alerts: seq<Alert>, a: Alert)
    requires Live(a)
    ensures HasLive(alerts + [a], a.rule, a.key)
    ensures Opened(alerts + [a], a.rule, a.key) == Opened(alerts, a.rule, a.key) + 1
  {
    CountAppend(alerts, a, (x: Alert) => About(x, a.rule, a.key));
    assert LiveAs((alerts + [a])[|alerts|], a.rule, a.key);
  }

  lemma OpenOutageEffect(alerts: seq<Alert>, o: Outage, rule: Rule, key: string)
    ensures HasLive(OpenOutage(alerts, o), rule, key) <==> HasLive(alerts, rule, key) || o == Outage(rule, key)
    ensures Opened(OpenOutage(alerts, o), rule, key) == Opened(alerts, rule, key)
      + if o == Outage(rule, key) && !HasLive(alerts, rule, key) then 1 else 0
  {
    if !HasLive(alerts, o.rule, o.key) {
      if o == Outage(rule, key) {
        AppendOpensKey(alerts, Alert(o.rule, o.key, Open, 1));
      } else {
        AppendLeavesKey(alerts, Alert(o.rule, o.key, Open, 1), rule, key);
      }
    }
  }

  lemma {:induction false} OpenOutagesEffect(alerts: seq<Alert>, down: seq<Outage>, rule: Rule, key: string)
    ensures HasLive(OpenOutages(alerts, down), rule, key) <==> HasLive(alerts, rule, key) || Outage(rule, key) in down
    ensures Opened(OpenOutages(alerts, down), rule, key) == Opened(alerts, rule, key)
      + if Outage(rule, key) in down && !HasLive(alerts, rule, key) then 1 else 0
  {
    if down != [] {
      var n := |down| - 1;
      OpenOutagesEffect(alerts, down[..n], rule, key);
      OpenOutageEffect(OpenOutages(alerts, down[..n]), down[n], rule, key);
      assert down == down[..n] + [down[n]];
    }
  }

  lemma {:induction false} CountSame(alerts: seq<Alert>, alerts': seq<Alert>, p: Alert -> bool)
    requires |alerts| == |alerts'| && forall i :: 0 <= i < |alerts| ==> p(alerts'[i]) == p(alerts[i])
    ensures Count(alerts', p) == Count(alerts, p)
  {
    if alerts != [] {
      CountSame(alerts[..|alerts| - 1], alerts'[..|alerts| - 1], p);
    }
  }

  lemma ResolveEffect(alerts: seq<Alert>, down: seq<Outage>, rule: Rule, key: string)
    requires OutageRule(rule)
    ensures HasLive(ResolveRecovered(alerts, down), rule, key) <==>
      HasLive(alerts, rule, key) && Outage(rule, key) in down
    ensures Opened(ResolveRecovered(alerts, down), rule, key) == Opened(alerts, rule, key)
  {
    var alerts' := ResolveRecovered(alerts, down);
    CountSame(alerts, alerts', (a: Alert) => About(a, rule, key));
    if HasLive(alerts, rule, key) && Outage(rule, key) in down {
      var i :| 0 <= i < |alerts| && LiveAs(alerts[i], rule, key);
      assert LiveAs(alerts'[i], rule, key);
    }
  }

  /** After a pass the live outage alerts are exactly what is down, and a pass opens one per new outage. */
  lemma PassTracksOutages(alerts: seq<Alert>, down: seq<Outage>, rule: Rule, key: string)
    requires OutageRule(rule)
    ensures HasLive(OutagePass(alerts, down), rule, key) <==> Outage(rule, key) in down
    ensures Opened(OutagePass(alerts, down), rule, key) == Opened(alerts, rule, key)
      + if Outage(rule, key) in down && !HasLive(alerts, rule, key) then 1 else 0
  {
    OpenOutagesEffect(alerts, down, rule, key);
    ResolveEffect(OpenOutages(alerts, down), down, rule, key);
  }

  /** The two queries of the pass, in whatever order their rows come. */
  method FindOutages(w: World) returns (down: seq<Outage>)
    ensures forall o :: o in down <==> Down(w, o)
  {
    down := [];
    var ids := w.systems.Keys;
    while ids != {}
      invariant ids <= w.systems.Keys
      invariant forall o :: o in down <==> o.rule == ProvisioningOutage && Down(w, o) && o.key !in ids
    {
      var id :| id in ids;
      if SystemDown(w.systems[id]) {
        down := down + [Outage(ProvisioningOutage, id)];
      }
      ids := ids - {id};
    }
    var clients := w.clients * w.failedLogouts;
    while clients != {}
      invariant clients <= w.clients * w.failedLogouts
      invariant forall o :: o in down <==> Down(w, o) && (o.rule == LogoutOutage ==> o.key !in clients)
    {
      var id :| id in clients;
      down := down + [Outage(LogoutOutage, id)];
      clients := clients - {id};
    }
  }

  /** On what the queries found, a pass leaves live alerts for exactly the connectors that are down. */
  lemma LiveOutagesAreDown(alerts: seq<Alert>, w: World, down: seq<Outage>, o: Outage)
    requires (forall x :: x in down <==> Down(w, x)) && OutageRule(o.rule)
    ensures HasLive(OutagePass(alerts, down), o.rule, o.key) <==>
      if o.rule == LogoutOutage then o.key in w.clients && o.key in w.failedLogouts
      else o.key in w.systems && !w.systems[o.key].disabled && (w.systems[o.key].failing || w.systems[o.key].failedSync)
  {
    PassTracksOutages(alerts, down, o.rule, o.key);
    assert Outage(o.rule, o.key) == o;
  }

  // ---- whole runs -----------------------------------------------------------------------------------

  /** `done` remembers the events that have been evaluated, for the statements below. */
  datatype Log = Log(alerts: seq<Alert>, queue: seq<Event>, done: seq<Event>)

  datatype Op =
    | QueueOp(event: Event)
    | BatchOp(audit: set<Event>, size: nat, commits: bool, settings: Settings, now: int)
    | QuietOp(audit: set<Event>, settings: Settings, now: int)
    | AckOp(row: nat)
    | OutageOp(down: seq<Outage>)

  function Step(l: Log, op: Op): Log {
    match op
    case QueueOp(e) => l.(queue := l.queue + [e])
    case BatchOp(audit, size, commits, settings, now) =>
      if !commits then l
      else
        var n := Least(size, |l.queue|);
        Log(Fold(l.alerts, audit, l.queue[..n], settings, now), l.queue[n..], l.done + l.queue[..n])
    case QuietOp(audit, settings, now) => l.(alerts := Quiet(l.alerts, audit, settings, now))
    case AckOp(row) => l.(alerts := Acknowledge(l.alerts, row).0)
    case OutageOp(down) => l.(alerts := OutagePass(l.alerts, down))
  }

  function Run(l: Log, ops: seq<Op>): Log
    decreases |ops|
  {
    if ops == [] then l else Run(Step(l, ops[0]), ops[1..])
  }

  /** Only outages are reported down. */
  predicate Reports(op: Op) {
    op.OutageOp? ==> forall i :: 0 <= i < |op.down| ==> OutageRule(op.down[i].rule)
  }

  lemma OpenOutageKeeps(alerts: seq<Alert>, o: Outage, rule: Rule, key: string)
    requires Inv(alerts) && OutageRule(o.rule) && !OutageRule(rule)
    ensures Inv(OpenOutage(alerts, o))
    ensures Total(OpenOutage(alerts, o), rule, key) == Total(alerts, rule, key)
  {
    var a := Alert(o.rule, o.key, Open, 1);
    if !HasLive(alerts, o.rule, o.key) {
      OpenKeeps(alerts, a);
      TotalAppend(alerts, a, rule, key);
    }
  }

  lemma {:induction false} OpenOutagesKeep(alerts: seq<Alert>, down: seq<Outage>, n: nat, rule: Rule, key: string)
    requires Inv(alerts) && n <= |down| && (forall i :: 0 <= i < |down| ==> OutageRule(down[i].rule))
      && !OutageRule(rule)
    ensures Inv(OpenOutages(alerts, down[..n]))
    ensures Total(OpenOutages(alerts, down[..n]), rule, key) == Total(alerts, rule, key)
  {
    if n > 0 {
      OpenOutagesKeep(alerts, down, n - 1, rule, key);
      assert down[..n][..n - 1] == down[..n - 1];
      OpenOutageKeeps(OpenOutages(alerts, down[..n - 1]), down[n - 1], rule, key);
    }
  }

  lemma BatchKeeps(l: Log, op: Op, rule: Rule, key: string)
    requires Inv(l.alerts) && op.BatchOp? && rule != LoginFailures
    ensures Inv(Step(l, op).alerts)
    ensures Total(Step(l, op).alerts, rule, key) - Calls(Step(l, op).done, rule, key)
      == Total(l.alerts, rule, key) - Calls(l.done, rule, key)
  {
    var taken := l.queue[..Least(op.size, |l.queue|)];
    FoldKeeps(l.alerts, op.audit, taken, op.settings, op.now);
    FoldCounts(l.alerts, op.audit, taken, op.settings, op.now, rule, key);
    CallsAdd(l.done, taken, rule, key);
  }

  lemma StepKeeps(l: Log, op: Op, rule: Rule, key: string)
    requires Inv(l.alerts) && Reports(op) && !OutageRule(rule) && rule != LoginFailures
    ensures Inv(Step(l, op).alerts)
    ensures Total(Step(l, op).alerts, rule, key) - Calls(Step(l, op).done, rule, key)
      == Total(l.alerts, rule, key) - Calls(l.done, rule, key)
  {
    match op
    case QueueOp(e) =>
    case BatchOp(audit, size, commits, settings, now) => BatchKeeps(l, op, rule, key);
    case QuietOp(audit, settings, now) =>
      WeakerKeeps(l.alerts, Quiet(l.alerts, audit, settings, now));
      TotalSame(l.alerts, Quiet(l.alerts, audit, settings, now), rule, key);
    case AckOp(row) =>
      WeakerKeeps(l.alerts, Acknowledge(l.alerts, row).0);
      TotalSame(l.alerts, Acknowledge(l.alerts, row).0, rule, key);
    case OutageOp(down) =>
      OpenOutagesKeep(l.alerts, down, |down|, rule, key);
      assert down[..|down|] == down;
      var marked := OpenOutages(l.alerts, down);
      WeakerKeeps(marked, ResolveRecovered(marked, down));
      TotalSame(marked, ResolveRecovered(marked, down), rule, key);
  }

  lemma {:induction false} RunKeeps(l: Log, ops: seq<Op>, rule: Rule, key: string)
    requires Inv(l.alerts) && (forall i :: 0 <= i < |ops| ==> Reports(ops[i])) && !OutageRule(rule)
      && rule != LoginFailures
    ensures Inv(Run(l, ops).alerts)
    ensures Total(Run(l, ops).alerts, rule, key) - Calls(Run(l, ops).done, rule, key)
      == Total(l.alerts, rule, key) - Calls(l.done, rule, key)
    decreases |ops|
  {
    if ops != [] {
      StepKeeps(l, ops[0], rule, key);
      RunKeeps(Step(l, ops[0]), ops[1..], rule, key);
    }
  }

  /**
   On every run from an empty table, with batches, aborts, acknowledgements, resolutions and outage
   passes in any order: one live alert per rule and key, at most ten live login alerts besides the
   shared one, and for every other audit rule the counts of a key add up to its evaluated events.
   */
  lemma AlertsStayAccountable(ops: seq<Op>, rule: Rule, key: string)
    requires (forall i :: 0 <= i < |ops| ==> Reports(ops[i])) && !OutageRule(rule) && rule != LoginFailures
    ensures var l := Run(Log([], [], []), ops);
      && OnePerKey(l.alerts) && Count(l.alerts, OwnLogin) <= CEILING
      && Total(l.alerts, rule, key) == Calls(l.done, rule, key)
  {
    RunKeeps(Log([], [], []), ops, rule, key);
  }

  // ---- outages over runs ----------------------------------------------------------------------------

  /** Same rows, same liveness for the key. */
  lemma SameForKey(alerts: seq<Alert>, alerts': seq<Alert>, rule: Rule, key: string)
    requires |alerts| == |alerts'|
    requires forall i :: 0 <= i < |alerts| ==>
      About(alerts'[i], rule, key) == About(alerts[i], rule, key)
        && LiveAs(alerts'[i], rule, key) == LiveAs(alerts[i], rule, key)
    ensures HasLive(alerts', rule, key) <==> HasLive(alerts, rule, key)
    ensures Opened(alerts', rule, key) == Opened(alerts, rule, key)
  {
    CountSame(alerts, alerts', (a: Alert) => About(a, rule, key));
  }

  lemma RaiseLeavesOutages(alerts: seq<Alert>, spec: Spec, rule: Rule, key: string)
    requires spec.rule != rule
    ensures HasLive(Raise(alerts, spec), rule, key) <==> HasLive(alerts, rule, key)
    ensures Opened(Raise(alerts, spec), rule, key) == Opened(alerts, rule, key)
  {
    var at := FindLive(alerts, spec.rule, spec.key);
    if at.None? {
      AppendLeavesKey(alerts, Alert(spec.rule, spec.key, Open, spec.count), rule, key);
    } else {
      SameForKey(alerts, Raise(alerts, spec), rule, key);
    }
  }

  lemma {:induction false} FoldLeavesOutages(alerts: seq<Alert>, audit: set<Event>, events: seq<Event>,
      settings: Settings, now: int, rule: Rule, key: string)
    requires OutageRule(rule)
    ensures HasLive(Fold(alerts, audit, events, settings, now), rule, key) <==> HasLive(alerts, rule, key)
    ensures Opened(Fold(alerts, audit, events, settings, now), rule, key) == Opened(alerts, rule, key)
    decreases |events|
  {
    if events != [] {
      var front, e := events[..|events| - 1], events[|events| - 1];
      FoldLeavesOutages(alerts, audit, front, settings, now, rule, key);
      var before := Fold(alerts, audit, front, settings, now);
      var spec := Classify(before, audit, e, settings, now);
      PlainSpec(e);
      if spec.Some? {
        RaiseLeavesOutages(before, spec.value, rule, key);
      }
    }
  }

  /** Between passes nothing touches an outage alert but its acknowledgement, which keeps it live. */
  lemma OtherStepsLeaveOutages(l: Log, op: Op, rule: Rule, key: string)
    requires OutageRule(rule) && !op.OutageOp?
    ensures HasLive(Step(l, op).alerts, rule, key) <==> HasLive(l.alerts, rule, key)
    ensures Opened(Step(l, op).alerts, rule, key) == Opened(l.alerts, rule, key)
  {
    match op
    case QueueOp(e) =>
    case BatchOp(audit, size, commits, settings, now) =>
      FoldLeavesOutages(l.alerts, audit, l.queue[..Least(size, |l.queue|)], settings, now, rule, key);
    case QuietOp(audit, settings, now) => SameForKey(l.alerts, Quiet(l.alerts, audit, settings, now), rule, key);
    case AckOp(row) => SameForKey(l.alerts, Acknowledge(l.alerts, row).0, rule, key);
  }

  /** What the passes of a run saw of one connector. */
  function Seen(ops: seq<Op>, o: Outage): seq<bool> {
    if ops == [] then [] else (if ops[0].OutageOp? then [o in ops[0].down] else []) + Seen(ops[1..], o)
  }

  /** Changes from healthy to down. */
  function Breakdowns(down: bool, seen: seq<bool>): nat
    decreases |seen|
  {
    if seen == [] then 0 else (if seen[0] && !down then 1 else 0) + Breakdowns(seen[0], seen[1..])
  }

  /** What one step does to a connector's alert. */
  lemma StepTracksOutages(l: Log, op: Op, o: Outage)
    requires OutageRule(o.rule)
    ensures HasLive(Step(l, op).alerts, o.rule, o.key) <==> if op.OutageOp? then o in op.down
      else HasLive(l.alerts, o.rule, o.key)
    ensures Opened(Step(l, op).alerts, o.rule, o.key) == Opened(l.alerts, o.rule, o.key) +
      if op.OutageOp? && o in op.down && !HasLive(l.alerts, o.rule, o.key) then 1 else 0
  {
    if op.OutageOp? {
      PassTracksOutages(l.alerts, op.down, o.rule, o.key);
    } else {
      OtherStepsLeaveOutages(l, op, o.rule, o.key);
    }
  }

  lemma SeenFirst(ops: seq<Op>, o: Outage)
    requires ops != []
    ensures ops[0].OutageOp? ==>
      Seen(ops, o) == [o in ops[0].down] + Seen(ops[1..], o) && Seen(ops, o)[1..] == Seen(ops[1..], o)
    ensures !ops[0].OutageOp? ==> Seen(ops, o) == Seen(ops[1..], o)
  {
  }

  /** The last pass decides; before any pass, the start does. */
  function LastSeen(down: bool, seen: seq<bool>): bool {
    if seen == [] then down else seen[|seen| - 1]
  }

  /**
   Over any run, one alert is opened per observed breakdown of a connector, whatever was acknowledged,
   evaluated or resolved in between; and it is live exactly while the last pass saw it down.
   */
  lemma {:induction false} OneAlertPerBreakdown(l: Log, ops: seq<Op>, o: Outage)
    requires OutageRule(o.rule)
    ensures Opened(Run(l, ops).alerts, o.rule, o.key) == Opened(l.alerts, o.rule, o.key)
      + Breakdowns(HasLive(l.alerts, o.rule, o.key), Seen(ops, o))
    ensures HasLive(Run(l, ops).alerts, o.rule, o.key) <==> LastSeen(HasLive(l.alerts, o.rule, o.key), Seen(ops, o))
    decreases |ops|
  {
    if ops != [] {
      StepTracksOutages(l, ops[0], o);
      OneAlertPerBreakdown(Step(l, ops[0]), ops[1..], o);
      SeenFirst(ops, o);
    }
  }

  // ---- the store ------------------------------------------------------------------------------------

  /** A batch continues the fold where the last one stopped. */
  lemma OneMoreBatch(alerts: seq<Alert>, audit: set<Event>, all: seq<Event>, k: nat, n: nat, settings: Settings,
      now: int)
    requires k + n <= |all|
    ensures Fold(Fold(alerts, audit, all[..k], settings, now), audit, all[k..][..n], settings, now)
      == Fold(alerts, audit, all[..k + n], settings, now)
  {
    Slices(all, k, n);
    FoldSplits(alerts, audit, all[..k], all[k..][..n], settings, now);
  }

  /** The evaluator on stored rows. Each method commits once or leaves everything as it was. */
  class AlertStore {
    var alerts: seq<Alert>
    var queue: seq<Event>

    constructor ()
      ensures alerts == [] && queue == []
    {
      alerts, queue := [], [];
    }

    method EvaluateBatch(audit: set<Event>, settings: Settings, now: int) returns (n: nat)
      modifies this
      ensures n == Least(BATCH, |old(queue)|)
      ensures alerts == Fold(old(alerts), audit, old(queue)[..n], settings, now) && queue == old(queue)[n..]
      ensures forall rule, key :: rule != LoginFailures ==>
        Total(alerts, rule, key) == Total(old(alerts), rule, key) + Calls(old(queue)[..n], rule, key)
    {
      var events := queue[..Least(BATCH, |queue|)];
      var tx, left := alerts, queue;
      forall rule, key | rule != LoginFailures
        ensures Total(Fold(alerts, audit, events, settings, now), rule, key) ==
          Total(alerts, rule, key) + Calls(events, rule, key)
      {
        FoldCounts(alerts, audit, events, settings, now, rule, key);
      }
      for i := 0 to |events|
        invariant tx == Fold(alerts, audit, events[..i], settings, now)
        invariant left == queue[i..]
        invariant alerts == old(alerts) && queue == old(queue)
      {
        var spec := Classify(tx, audit, events[i], settings, now);
        assert events[..i + 1][..i] == events[..i];
        if spec.Some? {
          tx := Raise(tx, spec.value);
        }
        left := left[1..];
      }
      assert events[..|events|] == events;
      alerts, queue := tx, left;
      n := |events|;
    }

    method EvaluateOutages(down: seq<Outage>)
      modifies this`alerts
      ensures alerts == OutagePass(old(alerts), down)
    {
      var tx := alerts;
      for i := 0 to |down|
        invariant tx == OpenOutages(alerts, down[..i])
        invariant alerts == old(alerts)
      {
        assert down[..i + 1][..i] == down[..i];
        if FindLive(tx, down[i].rule, down[i].key).None? {
          tx := tx + [Alert(down[i].rule, down[i].key, Open, 1)];
        }
      }
      assert down[..|down|] == down;
      ghost var marked := tx;
      for i := 0 to |tx|
        invariant |tx| == |marked|
        invariant forall k :: 0 <= k < i ==> tx[k] == Recovered(marked[k], down)
        invariant forall k :: i <= k < |tx| ==> tx[k] == marked[k]
      {
        if Live(tx[i]) && OutageRule(tx[i].rule) && Outage(tx[i].rule, tx[i].key) !in down {
          tx := tx[i := tx[i].(status := Resolved)];
        }
      }
      assert tx == ResolveRecovered(marked, down);
      alerts := tx;
    }

    /** A batch that continues a fold begun at `start`, `k` events ago. */
    method NextBatch(audit: set<Event>, settings: Settings, now: int, ghost start: seq<Alert>, ghost all: seq<Event>,
        ghost k: nat) returns (n: nat)
      requires k <= |all| && queue == all[k..] && alerts == Fold(start, audit, all[..k], settings, now)
      modifies this
      ensures n == Least(BATCH, |all| - k)
      ensures queue == all[k + n..] && alerts == Fold(start, audit, all[..k + n], settings, now)
    {
      n := EvaluateBatch(audit, settings, now);
      OneMoreBatch(start, audit, all, k, n, settings, now);
      Slices(all, k, n);
    }

    /** Up to ten batches; a short one is the last. */
    method EvaluateBatches(audit: set<Event>, settings: Settings, now: int)
      modifies this
      ensures var k := Least(MAX_BATCHES * BATCH, |old(queue)|);
        alerts == Fold(old(alerts), audit, old(queue)[..k], settings, now) && queue == old(queue)[k..]
    {
      ghost var start, all, k := alerts, queue, 0;
      var i := 0;
      while i < MAX_BATCHES
        invariant 0 <= i <= MAX_BATCHES && k == Least(i * BATCH, |all|)
        invariant queue == all[k..]
        invariant alerts == Fold(start, audit, all[..k], settings, now)
      {
        var n := NextBatch(audit, settings, now, start, all, k);
        k := k + n;
        i := i + 1;
        if n < BATCH {
          break;
        }
      }
    }

    /** Quiet sources first, then the batches, then the outages. */
    method EvaluateAlerts(audit: set<Event>, settings: Settings, now: int, down: seq<Outage>)
      modifies this
      ensures var k := Least(MAX_BATCHES * BATCH, |old(queue)|);
        && alerts == OutagePass(Fold(Quiet(old(alerts), audit, settings, now), audit, old(queue)[..k], settings,
           now), down)
        && queue == old(queue)[k..]
    {
      alerts := Quiet(alerts, audit, settings, now);
      EvaluateBatches(audit, settings, now);
      EvaluateOutages(down);
    }

    /** Exactly an open alert is acknowledged, and it stays live with its count. */
    method AcknowledgeAlert(row: nat) returns (r: Outcome)
      modifies this`alerts
      ensures (alerts, r) == Acknowledge(old(alerts), row)
      ensures Weaker(old(alerts), alerts) && Weaker(alerts, old(alerts))
      ensures r.Ok? <==> row < |old(alerts)| && old(alerts)[row].status == Open && alerts[row].status == Acknowledged
      ensures forall i :: 0 <= i < |alerts| && i != row ==> alerts[i] == old(alerts)[i]
    {
      if row >= |alerts| {
        return Missing;
      }
      if alerts[row].status != Open {
        return NotOpen;
      }
      alerts := alerts[row := alerts[row].(status := Acknowledged)];
      return Ok;
    }
  }
}
