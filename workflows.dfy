/** Validation workflows and alerts: the defaults of a new instance, step
    and alert; the steps `perform_create` lays out; the `transition`
    action; and the alert views (visibility, counts by severity, marking
    read). Timestamps are parameters. */
module Workflows {
  import opened Wrappers
  import opened Text
  import opened Accounts
  import Seqs
  import Json

  datatype WorkflowStatus = Draft | Submitted | UnderReview | Validated | Rejected | Published {
    function Value(): string {
      match this
      case Draft => "draft"
      case Submitted => "submitted"
      case UnderReview => "under_review"
      case Validated => "validated"
      case Rejected => "rejected"
      case Published => "published"
    }
  }

  datatype StepStatus = StepPending | InProgress | Completed | Skipped

  /** A `WorkflowInstance` row; `definition` and `initiatedBy` are ids. */
  datatype Instance = Instance(definition: nat, entityType: string, entityId: string, status: WorkflowStatus,
                               currentStep: nat, initiatedBy: nat, completedAt: Option<int>)

  /** A `WorkflowStep` row of the instance `workflow`. */
  datatype Step = Step(workflow: nat, name: string, order: nat, role: string, status: StepStatus,
                       completedBy: Option<nat>, completedAt: Option<int>, comments: string)

  /** One entry of a definition's `steps_config`: its optional name and role. */
  datatype StepConfig = StepConfig(name: Option<string>, role: Option<string>)

  /** A new instance as the create serializer saves it: status DRAFT, step 0. */
  function NewInstance(definition: nat, entityType: string, entityId: string, initiator: nat): (w: Instance)
    ensures w.status == Draft && w.currentStep == 0 && w.completedAt.None?
    ensures w.definition == definition && w.entityType == entityType && w.entityId == entityId && w.initiatedBy == initiator
  {
    Instance(definition, entityType, entityId, Draft, 0, initiator, None)
  }

  /** The name a step gets without one configured: "Étape" and its rank. */
  function DefaultStepName(i: nat): (r: string)
    ensures |r| >= 6 && r[..6] == "\U{c9}tape " && r[6..] == NatToString(i + 1)
  {
    "\U{c9}tape " + NatToString(i + 1)
  }

  /** The step created for entry `i` of the configuration: PENDING, with the
      configured name and role or their defaults. */
  function StepFor(workflow: nat, i: nat, c: StepConfig): (s: Step)
    ensures s.workflow == workflow && s.order == i && s.status == StepPending && s.completedBy.None? && s.completedAt.None?
    ensures s.name == c.name.GetOr(DefaultStepName(i)) && s.role == c.role.GetOr("contributor")
  {
    Step(workflow, c.name.GetOr(DefaultStepName(i)), i, c.role.GetOr("contributor"), StepPending, None, None, "")
  }

  /** The steps of a new instance, one per configuration entry, ordered 0..n-1. */
  function StepsFor(workflow: nat, config: seq<StepConfig>): (r: seq<Step>)
    ensures |r| == |config|
    ensures forall i :: 0 <= i < |r| ==> r[i] == StepFor(workflow, i, config[i])
  {
    seq(|config|, i requires 0 <= i < |config| => StepFor(workflow, i, config[i]))
  }

  /** The exceptions `perform_create` can raise while laying out the steps:
      an entry without `get`, a configuration that is not iterable, and a
      JSON null stored in a NOT NULL column. */
  datatype CreateError = AttributeError | TypeError | IntegrityError

  /** What `step_config.get(key, …)` stores in a text column: nothing
      configured, or `str()` of the value; a JSON null cannot be stored. */
  function ConfigText(v: Option<Json.Value>): (r: Result<Option<string>, CreateError>)
    ensures v.None? ==> r == Ok(None)
    ensures v == Some(Json.JNull) <==> r.Err?
    ensures v.Some? && v.value.JStr? ==> r == Ok(Some(v.value.s))
  {
    match v
    case None => Ok(None)
    case Some(x) => if x.JNull? then Err(IntegrityError) else Ok(Some(Json.Str(x)))
  }

  /** One entry of `steps_config`: an object, whose `name` and `role` are
      read with `get`. */
  function ParseEntry(v: Json.Value): (r: Result<StepConfig, CreateError>)
    ensures !v.JObject? ==> r == Err(AttributeError)
    ensures v.JObject? && r.Ok? ==>
      && r.value.name.None? == Json.Get(v.fields, "name").None?
      && r.value.role.None? == Json.Get(v.fields, "role").None?
    ensures v.JObject? ==>
      (r == Err(IntegrityError) <==> Json.Get(v.fields, "name") == Some(Json.JNull) || Json.Get(v.fields, "role") == Some(Json.JNull))
  {
    if !v.JObject? then Err(AttributeError)
    else
      match ConfigText(Json.Get(v.fields, "name"))
      case Err(e) => Err(e)
      case Ok(name) =>
        match ConfigText(Json.Get(v.fields, "role"))
        case Err(e) => Err(e)
        case Ok(role) => Ok(StepConfig(name, role))
  }

  /** The entries laid out before the first one that raises, and that
      exception. */
  datatype Parsed = Parsed(configs: seq<StepConfig>, error: Option<CreateError>)

  /** The entries of `steps_config` in order, until one raises. */
  function ParseEntries(entries: seq<Json.Value>): (r: Parsed)
    ensures |r.configs| <= |entries|
    ensures forall i :: 0 <= i < |r.configs| ==> ParseEntry(entries[i]) == Ok(r.configs[i])
    ensures r.error.None? ==> |r.configs| == |entries|
    ensures r.error.Some? ==> |r.configs| < |entries| && ParseEntry(entries[|r.configs|]) == Err(r.error.value)
  {
    if entries == [] then Parsed([], None)
    else
      var init := ParseEntries(entries[..|entries| - 1]);
      if init.error.Some? then init
      else
        match ParseEntry(entries[|entries| - 1])
        case Err(e) => Parsed(init.configs, Some(e))
        case Ok(c) => Parsed(init.configs + [c], None)
  }

  /** `for i, step_config in enumerate(steps_config)`: a configuration that is
      not iterable raises before any step is created. */
  function ConfigOf(config: Json.Value): (r: Parsed)
    ensures Json.Iterate(config).None? ==> r == Parsed([], Some(TypeError))
  {
    match Json.Iterate(config)
    case None => Parsed([], Some(TypeError))
    case Some(entries) => ParseEntries(entries)
  }

  /** One more entry after a prefix that did not raise. */
  lemma ParseStep(entries: seq<Json.Value>, i: nat)
    requires i < |entries| && ParseEntries(entries[..i]).error.None?
    ensures var done := ParseEntries(entries[..i]).configs;
      ParseEntries(entries[..i + 1]) == match ParseEntry(entries[i])
        case Err(e) => Parsed(done, Some(e))
        case Ok(c) => Parsed(done + [c], None)
  {
    assert entries[..i + 1][..i] == entries[..i];
  }

  /** Laying out one more configured step appends its step. */
  lemma StepsForSnoc(workflow: nat, configs: seq<StepConfig>, c: StepConfig)
    ensures StepsFor(workflow, configs + [c]) == StepsFor(workflow, configs) + [StepFor(workflow, |configs|, c)]
  {
  }

  /** Once an entry raises, later entries change nothing. */
  lemma {:induction false} ParseStop(entries: seq<Json.Value>, i: nat)
    requires i <= |entries| && ParseEntries(entries[..i]).error.Some?
    ensures ParseEntries(entries) == ParseEntries(entries[..i])
    decreases |entries| - i
  {
    if i == |entries| {
      assert entries[..i] == entries;
    } else {
      assert entries[..i + 1][..i] == entries[..i];
      ParseStop(entries, i + 1);
    }
  }

  /** The loop of `perform_create` over an iterable configuration: one
      pending step per entry, in order, until an entry raises. */
  method LayOutSteps(workflow: nat, entries: seq<Json.Value>) returns (created: seq<Step>, error: Option<CreateError>)
    ensures created == StepsFor(workflow, ParseEntries(entries).configs)
    ensures error == ParseEntries(entries).error
  {
    var done: seq<StepConfig> := [];
    created := [];
    error := None;
    var i := 0;
    while i < |entries| && error.None?
      invariant 0 <= i <= |entries|
      invariant ParseEntries(entries[..i]) == Parsed(done, error)
      invariant created == StepsFor(workflow, done)
    {
      ParseStep(entries, i);
      var c := ParseEntry(entries[i]);
      if c.Err? {
        error := Some(c.error);
      } else {
        StepsForSnoc(workflow, done, c.value);
        created := created + [StepFor(workflow, |done|, c.value)];
        done := done + [c.value];
      }
      i := i + 1;
    }
    if error.Some? {
      ParseStop(entries, i);
    } else {
      assert entries[..|entries|] == entries;
    }
  }


  /** The steps' orders are exactly 0..n-1, and each starts PENDING. */
  lemma StepsOrdered(workflow: nat, config: seq<StepConfig>)
    ensures forall i :: 0 <= i < |StepsFor(workflow, config)| ==>
      StepsFor(workflow, config)[i].order == i && StepsFor(workflow, config)[i].status == StepPending
    ensures forall i, j :: 0 <= i < j < |StepsFor(workflow, config)| ==>
      StepsFor(workflow, config)[i].order < StepsFor(workflow, config)[j].order
  {
  }

  // ---------------------------------------------------------------------------
  // transition
  // ---------------------------------------------------------------------------

  /** The action-to-status map of `transition`; `None` for any other action. */
  function StatusFor(action: string): (r: Option<WorkflowStatus>)
    ensures r.Some? <==> action in ["submit", "validate", "reject", "publish"]
    ensures action == "submit" ==> r == Some(Submitted)
    ensures action == "validate" ==> r == Some(Validated)
    ensures action == "reject" ==> r == Some(Rejected)
    ensures action == "publish" ==> r == Some(Published)
  {
    if action == "submit" then Some(Submitted)
    else if action == "validate" then Some(Validated)
    else if action == "reject" then Some(Rejected)
    else if action == "publish" then Some(Published)
    else None
  }

  /** The step `transition` completes: the first step of instance `pk`
      whose order is the current step and which is still PENDING. */
  function CurrentPendingStep(steps: seq<Step>, pk: nat, w: Instance): (r: Option<nat>)
    ensures r.Some? ==>
      && r.value < |steps| && steps[r.value].workflow == pk
      && steps[r.value].order == w.currentStep && steps[r.value].status == StepPending
    ensures r.None? ==> forall i :: 0 <= i < |steps| ==>
      !(steps[i].workflow == pk && steps[i].order == w.currentStep && steps[i].status == StepPending)
  {
    Seqs.FirstIndex(steps, (s: Step) => s.workflow == pk && s.order == w.currentStep && s.status == StepPending)
  }

  datatype Tables = Tables(instances: seq<Instance>, steps: seq<Step>)

  /** `transition` on instance `pk`: 404 for an unknown instance, 400 for
      an unknown action; otherwise the new tables. */
  function Transition(t: Tables, pk: nat, action: string, comments: string, user: nat, now: int): (r: Result<Tables, int>)
    ensures r.Err? <==> pk >= |t.instances| || StatusFor(action).None?
    ensures r.Err? ==> r.error == (if pk >= |t.instances| then 404 else 400)
    ensures r.Ok? ==> |r.value.instances| == |t.instances| && |r.value.steps| == |t.steps|
  {
    if pk >= |t.instances| then Err(404)
    else match StatusFor(action)
      case None => Err(400)
      case Some(status) =>
        var w := t.instances[pk];
        var found := CurrentPendingStep(t.steps, pk, w);
        var steps := if found.Some? then
          t.steps[found.value := t.steps[found.value].(status := Completed, completedBy := Some(user),
                                                       completedAt := Some(now), comments := comments)]
          else t.steps;
        var next := if found.Some? && action == "validate" then w.currentStep + 1 else w.currentStep;
        var done := if action == "reject" || action == "publish" then Some(now) else w.completedAt;
        Ok(Tables(t.instances[pk := w.(status := status, currentStep := next, completedAt := done)], steps))
  }

  /** The new status is the action's, whatever the old status was; no
      transition is refused; the other instances are untouched. */
  lemma TransitionStatus(t: Tables, pk: nat, action: string, comments: string, user: nat, now: int)
    requires pk < |t.instances| && StatusFor(action).Some?
    ensures var r := Transition(t, pk, action, comments, user, now).value;
      && r.instances[pk].status == StatusFor(action).value
      && (forall i :: 0 <= i < |t.instances| && i != pk ==> r.instances[i] == t.instances[i])
      && r.instances[pk].definition == t.instances[pk].definition
      && r.instances[pk].entityId == t.instances[pk].entityId
  {
  }

  /** The current step advances by exactly one when a pending current step
      was validated, and stays otherwise; `completed_at` is stamped only by
      reject and publish. */
  lemma TransitionStep(t: Tables, pk: nat, action: string, comments: string, user: nat, now: int)
    requires pk < |t.instances| && StatusFor(action).Some?
    ensures var r := Transition(t, pk, action, comments, user, now).value;
      var found := CurrentPendingStep(t.steps, pk, t.instances[pk]);
      && (r.instances[pk].currentStep == t.instances[pk].currentStep + 1 <==> action == "validate" && found.Some?)
      && (r.instances[pk].currentStep != t.instances[pk].currentStep ==> r.instances[pk].currentStep == t.instances[pk].currentStep + 1)
      && (action == "reject" || action == "publish" ==> r.instances[pk].completedAt == Some(now))
      && (action == "submit" || action == "validate" ==> r.instances[pk].completedAt == t.instances[pk].completedAt)
  {
  }

  /** Only the pending current step changes: it is completed by the user
      with the comments; every other step is kept. */
  lemma TransitionSteps(t: Tables, pk: nat, action: string, comments: string, user: nat, now: int)
    requires pk < |t.instances| && StatusFor(action).Some?
    ensures var r := Transition(t, pk, action, comments, user, now).value;
      var found := CurrentPendingStep(t.steps, pk, t.instances[pk]);
      && (found.None? ==> r.steps == t.steps)
      && (found.Some? ==>
            && r.steps[found.value].status == Completed && r.steps[found.value].completedBy == Some(user)
            && r.steps[found.value].completedAt == Some(now) && r.steps[found.value].comments == comments
            && r.steps[found.value].order == t.steps[found.value].order
            && forall i :: 0 <= i < |t.steps| && i != found.value ==> r.steps[i] == t.steps[i])
  {
  }

  /** Validating twice in a row moves past two pending steps, one each time. */
  lemma ValidateTwice(t: Tables, pk: nat, user: nat, now: int)
    requires pk < |t.instances|
    requires CurrentPendingStep(t.steps, pk, t.instances[pk]).Some?
    ensures var r := Transition(t, pk, "validate", "", user, now).value;
      r.instances[pk].currentStep == t.instances[pk].currentStep + 1
      && CurrentPendingStep(r.steps, pk, t.instances[pk]) != CurrentPendingStep(t.steps, pk, t.instances[pk])
  {
    var i := CurrentPendingStep(t.steps, pk, t.instances[pk]).value;
    var r := Transition(t, pk, "validate", "", user, now).value;
    assert r.steps[i].status == Completed;
  }

  /** The workflow instance and step tables, updated by the viewset. */
  class Engine {
    var instances: seq<Instance>
    var steps: seq<Step>

    constructor(instances: seq<Instance>, steps: seq<Step>)
      ensures this.instances == instances && this.steps == steps
    {
      this.instances := instances;
      this.steps := steps;
    }

    /** `perform_create`: save the new instance, then create one step per
        entry of the definition's `steps_config`. `pk` is the new instance.
        An entry that raises ends the action with `error`; the instance and
        the steps created before it stay. */
    method PerformCreate(definition: nat, entityType: string, entityId: string, initiator: nat, config: Json.Value)
      returns (pk: nat, error: Option<CreateError>)
      modifies this
      ensures pk == |old(instances)|
      ensures instances == old(instances) + [NewInstance(definition, entityType, entityId, initiator)]
      ensures steps == old(steps) + StepsFor(pk, ConfigOf(config).configs)
      ensures error == ConfigOf(config).error
    {
      pk := |instances|;
      instances := instances + [NewInstance(definition, entityType, entityId, initiator)];
      var iterated := Json.Iterate(config);
      if iterated.None? {
        return pk, Some(TypeError);
      }
      var created;
      created, error := LayOutSteps(pk, iterated.value);
      steps := steps + created;
    }

    /** `transition` on instance `pk`: 404 or 400 with nothing changed, or
        200 with the tables the transition rule gives. */
    method ApplyTransition(pk: nat, action: string, comments: string, user: nat, now: int) returns (code: int)
      modifies this
      ensures var r := Transition(Tables(old(instances), old(steps)), pk, action, comments, user, now);
        && (r.Err? ==> code == r.error && instances == old(instances) && steps == old(steps))
        && (r.Ok? ==> code == 200 && Tables(instances, steps) == r.value)
    {
      if pk >= |instances| {
        return 404;
      }
      var status := StatusFor(action);
      if status.None? {
        return 400;
      }
      var w := instances[pk];
      var found := CurrentPendingStep(steps, pk, w);
      var next := w.currentStep;
      if found.Some? {
        var i := found.value;
        steps := steps[i := steps[i].(status := Completed, completedBy := Some(user), completedAt := Some(now), comments := comments)];
        if action == "validate" {
          next := next + 1;
        }
      }
      var done := w.completedAt;
      if action == "reject" || action == "publish" {
        done := Some(now);
      }
      instances := instances[pk := w.(status := status.value, currentStep := next, completedAt := done)];
      code := 200;
    }
  }

  // ---------------------------------------------------------------------------
  // Alerts
  // ---------------------------------------------------------------------------

  datatype Severity = Critical | High | Medium | Low | Info {
    function Value(): string {
      match this
      case Critical => "critical"
      case High => "high"
      case Medium => "medium"
      case Low => "low"
      case Info => "info"
    }
  }

  /** `Alert.Severity.values`, in declaration order. */
  const Severities: seq<Severity> := [Critical, High, Medium, Low, Info]

  /** An `Alert` row; `recipients` are user ids. */
  datatype Alert = Alert(severity: Severity, region: Option<nat>, recipients: set<nat>,
                         isRead: bool, readAt: Option<int>, readBy: Option<nat>)

  /** A new alert: unread, never read by anyone. */
  function NewAlert(severity: Severity, region: Option<nat>, recipients: set<nat>): (a: Alert)
    ensures !a.isRead && a.readAt.None? && a.readBy.None?
    ensures a.severity == severity && a.region == region && a.recipients == recipients
  {
    Alert(severity, region, recipients, false, None, None)
  }

  /** `AlertViewSet.get_queryset`: a superuser sees every alert; anyone else
      the alerts addressed to them or attached to their assigned region. A
      user without an assigned region matches the alerts without one (a
      `NULL` comparison in the query). */
  predicate AlertVisible(u: User, a: Alert) {
    u.isSuperuser || u.id in a.recipients || a.region == u.region
  }

  function VisibleAlerts(u: User, alerts: seq<Alert>): (r: seq<Alert>)
    ensures forall i :: 0 <= i < |r| ==> r[i] in alerts && AlertVisible(u, r[i])
    ensures forall i :: 0 <= i < |alerts| && AlertVisible(u, alerts[i]) ==> alerts[i] in r
    ensures u.isSuperuser ==> r == alerts
  {
    if u.isSuperuser then alerts else Seqs.Where(alerts, (a: Alert) => AlertVisible(u, a))
  }

  /** The number of alerts of a severity. */
  function CountSeverity(alerts: seq<Alert>, s: Severity): (n: nat)
    ensures n <= |alerts|
  {
    if alerts == [] then 0
    else CountSeverity(alerts[..|alerts| - 1], s) + (if alerts[|alerts| - 1].severity == s then 1 else 0)
  }

  /** Every alert has exactly one severity: the five counts add up to the
      number of alerts. */
  lemma {:induction false} SeverityCountsCover(alerts: seq<Alert>)
    ensures CountSeverity(alerts, Critical) + CountSeverity(alerts, High) + CountSeverity(alerts, Medium)
          + CountSeverity(alerts, Low) + CountSeverity(alerts, Info) == |alerts|
  {
    if alerts != [] {
      SeverityCountsCover(alerts[..|alerts| - 1]);
    }
  }

  /** `queryset.filter(severity=severity).count()`. */
  method CountAlerts(alerts: seq<Alert>, severity: Severity) returns (count: nat)
    ensures count == CountSeverity(alerts, severity)
  {
    count := 0;
    var i := 0;
    while i < |alerts|
      invariant 0 <= i <= |alerts|
      invariant count == CountSeverity(alerts[..i], severity)
    {
      assert alerts[..i + 1][..i] == alerts[..i];
      if alerts[i].severity == severity {
        count := count + 1;
      }
      i := i + 1;
    }
    assert alerts[..|alerts|] == alerts;
  }

  /** `by_severity`: one count per severity value, for the visible alerts. */
  method BySeverity(u: User, alerts: seq<Alert>) returns (result: seq<(string, nat)>)
    ensures |result| == |Severities|
    ensures forall k :: 0 <= k < |result| ==>
      result[k] == (Severities[k].Value(), CountSeverity(VisibleAlerts(u, alerts), Severities[k]))
  {
    var visible := VisibleAlerts(u, alerts);
    result := [];
    var k := 0;
    while k < |Severities|
      invariant 0 <= k <= |Severities| && |result| == k
      invariant forall m :: 0 <= m < k ==> result[m] == (Severities[m].Value(), CountSeverity(visible, Severities[m]))
    {
      var severity := Severities[k];
      var count := CountAlerts(visible, severity);
      result := result + [(severity.Value(), count)];
      k := k + 1;
    }
  }

  /** The test of `get_queryset().filter(is_read=False)`. */
  function UnreadTest(u: User): Alert -> bool {
    (a: Alert) => AlertVisible(u, a) && !a.isRead
  }

  /** `unread`: the visible alerts not yet read. */
  function UnreadAlerts(u: User, alerts: seq<Alert>): (r: seq<Alert>)
    ensures forall i :: 0 <= i < |r| ==> r[i] in alerts && AlertVisible(u, r[i]) && !r[i].isRead
    ensures forall i :: 0 <= i < |alerts| && AlertVisible(u, alerts[i]) && !alerts[i].isRead ==> alerts[i] in r
  {
    Seqs.Where(alerts, UnreadTest(u))
  }

  /** An alert as `mark_as_read` leaves it: only the three read fields change. */
  function MarkedRead(a: Alert, user: nat, now: int): (r: Alert)
    ensures r.isRead && r.readAt == Some(now) && r.readBy == Some(user)
    ensures r.severity == a.severity && r.region == a.region && r.recipients == a.recipients
  {
    a.(isRead := true, readAt := Some(now), readBy := Some(user))
  }

  /** The alerts table. */
  class Alerts {
    var rows: seq<Alert>

    constructor(rows: seq<Alert>)
      ensures this.rows == rows
    {
      this.rows := rows;
    }

    /** `Alert.mark_as_read(user)` on the alert at position `i`. */
    method Mark(i: nat, user: nat, now: int)
      requires i < |rows|
      modifies this
      ensures rows == old(rows)[i := MarkedRead(old(rows)[i], user, now)]
    {
      rows := rows[i := rows[i].(isRead := true, readAt := Some(now), readBy := Some(user))];
    }

    /** The `mark_as_read` action: `get_object` answers 404 for an alert
      outside the requester's queryset (or none at `pk`); otherwise the
      alert is marked read by the requester. */
    method MarkAsRead(u: User, pk: nat, now: int) returns (code: int)
      modifies this
      ensures !(pk < |old(rows)| && AlertVisible(u, old(rows)[pk])) ==> code == 404 && rows == old(rows)
      ensures pk < |old(rows)| && AlertVisible(u, old(rows)[pk]) ==>
        code == 200 && rows == old(rows)[pk := MarkedRead(old(rows)[pk], u.id, now)]
    {
      if pk >= |rows| || !AlertVisible(u, rows[pk]) {
        return 404;
      }
      Mark(pk, u.id, now);
      code := 200;
    }

    /** `mark_all_read`: every visible unread alert is marked read by the
      requester; `count` is how many were. */
    method MarkAllRead(u: User, now: int) returns (count: nat)
      modifies this
      ensures |rows| == |old(rows)|
      ensures forall i :: 0 <= i < |rows| ==>
        rows[i] == (if AlertVisible(u, old(rows)[i]) && !old(rows)[i].isRead then MarkedRead(old(rows)[i], u.id, now) else old(rows)[i])
      ensures forall i :: 0 <= i < |rows| && AlertVisible(u, rows[i]) ==> rows[i].isRead
      ensures count == |UnreadAlertPositions(u, old(rows))|
    {
      ghost var before := rows;
      count := 0;
      var i := 0;
      while i < |rows|
        invariant 0 <= i <= |rows| && |rows| == |before|
        invariant forall j :: 0 <= j < |rows| ==>
          rows[j] == (if j < i && AlertVisible(u, before[j]) && !before[j].isRead then MarkedRead(before[j], u.id, now) else before[j])
        invariant count == |UnreadAlertPositions(u, before[..i])|
      {
        assert before[..i + 1][..i] == before[..i];
        if AlertVisible(u, rows[i]) && !rows[i].isRead {
          Mark(i, u.id, now);
          count := count + 1;
        }
        i := i + 1;
      }
      assert before[..|before|] == before;
    }
  }

  /** The positions of the visible unread alerts. */
  function UnreadAlertPositions(u: User, alerts: seq<Alert>): (r: seq<nat>)
    ensures |r| <= |alerts|
    ensures forall k :: 0 <= k < |r| ==> r[k] < |alerts| && AlertVisible(u, alerts[r[k]]) && !alerts[r[k]].isRead
  {
    if alerts == [] then []
    else
      var init := UnreadAlertPositions(u, alerts[..|alerts| - 1]);
      var last := alerts[|alerts| - 1];
      if AlertVisible(u, last) && !last.isRead then init + [|alerts| - 1] else init
  }

  /** `mark_all_read` marks as many alerts as `unread` lists. */
  lemma MarkedCountIsUnread(u: User, alerts: seq<Alert>)
    ensures |UnreadAlertPositions(u, alerts)| == |UnreadAlerts(u, alerts)|
  {
    UnreadPositionsCount(u, alerts, UnreadTest(u));
  }

  /** The positions of the visible unread alerts are as many as the alerts
      any equivalent filter keeps. */
  lemma {:induction false} UnreadPositionsCount(u: User, alerts: seq<Alert>, q: Alert -> bool)
    requires forall a :: q(a) == (AlertVisible(u, a) && !a.isRead)
    ensures |UnreadAlertPositions(u, alerts)| == |Seqs.Where(alerts, q)|
  {
    if alerts != [] {
      UnreadPositionsCount(u, alerts[..|alerts| - 1], q);
    }
  }
}
