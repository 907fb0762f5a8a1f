/** Administrators and the audit log of what is done to them (app/security/admin_service.py). */
module AdminService {
  import opened PyText
  import opened SafeJson

  /** A row of `telegram_admins`; the table is keyed by the user id. */
  datatype AdminRow = AdminRow(
    username: Option<string>,
    displayName: Option<string>,
    role: string,
    enabled: bool,
    note: Option<string>,
    createdBy: Option<int>,
    lastSeen: Option<int>,
    notifyFailures: bool
  )

  datatype Principal = Principal(userId: int, role: string, source: string)

  datatype AuditEntry =
    AuditEntry(actor: int, actorRole: string, action: string, target: Option<int>, before: Json, after: Json)

  datatype State = State(admins: map<int, AdminRow>, audit: seq<AuditEntry>)

  function OptText(t: Option<string>): Json {
    if t.None? then Null else Text(t.value)
  }

  /** `snapshot`, as it is logged. */
  function Snapshot(id: int, row: Option<AdminRow>): Json {
    if row.None? then Null else
      var r := row.value;
      Object(Field("telegram_user_id", Num(id as real),
             Field("username", OptText(r.username),
             Field("display_name", OptText(r.displayName),
             Field("role", Text(r.role),
             Field("enabled", Flag(r.enabled),
             Field("note", OptText(r.note),
             Field("receive_failure_notifications", Flag(r.notifyFailures), NoFields))))))))
  }

  lemma Harmless(name: string)
    requires forall c | c in name :: LowerChar(c) == c && c != 'k' && c != 'w' && c != 'h' && c != 'c'
    ensures !IsSecret(name)
  {
    PlainName(name);
    HarmlessText(name);
  }

  lemma ShortNames()
    ensures !IsSecret("username") && !IsSecret("role") && !IsSecret("enabled") && !IsSecret("note")
  {
    Harmless("username");
    Harmless("role");
    Harmless("enabled");
    Harmless("note");
  }

  lemma LongNames()
    ensures !IsSecret("telegram_user_id") && !IsSecret("display_name")
  {
    Harmless("telegram_user_id");
    Harmless("display_name");
  }

  /** Here the letters alone do not decide: an s comes too late for "secret". */
  lemma LateS(head: string, tail: string)
    requires forall c | c in head :: LowerChar(c) == c && c != 'k' && c != 'w' && c != 'h' && c != 'd' && c != 's'
    requires forall c | c in tail :: LowerChar(c) == c && c != 'k' && c != 'w' && c != 'h' && c != 'd'
    requires |tail| == 5
    ensures !IsSecret(head + tail)
  {
    var name := head + tail;
    assert name[..|name| - |"secret"| + 1] == head;
    MentionedStart(name, "secret");
    PlainName(name);
    HarmlessText(name);
  }

  lemma NotificationName()
    ensures !IsSecret("receive_failure_notifications")
  {
    LateS("receive_failure_notifica", "tions");
    assert "receive_failure_notifica" + "tions" == "receive_failure_notifications";
  }

  /** The sanitiser never alters a snapshot, so the log holds snapshots in full. */
  lemma SnapshotSafe(id: int, row: Option<AdminRow>)
    ensures SafeValue(Snapshot(id, row)) == Snapshot(id, row)
  {
    ShortNames();
    LongNames();
    NotificationName();
    if row.Some? {
      var r := row.value;
      var f6 := Field("receive_failure_notifications", Flag(r.notifyFailures), NoFields);
      var f5 := Field("note", OptText(r.note), f6);
      var f4 := Field("enabled", Flag(r.enabled), f5);
      var f3 := Field("role", Text(r.role), f4);
      var f2 := Field("display_name", OptText(r.displayName), f3);
      var f1 := Field("username", OptText(r.username), f2);
      var f0 := Field("telegram_user_id", Num(id as real), f1);
      assert CleanFields(f6);
      assert CleanFields(f5);
      assert CleanFields(f4);
      assert CleanFields(f3);
      assert CleanFields(f2);
      assert CleanFields(f1);
      assert CleanFields(f0);
      assert Snapshot(id, row) == Object(f0);
    }
    CleanIsKept(Snapshot(id, row));
  }

  // ---------- principal ----------

  function RowOf(s: State, id: int): Option<AdminRow> {
    if id in s.admins then Some(s.admins[id]) else None
  }

  /** Who a user acts as; `outage` says that the database query fails. */
  function PrincipalOf(s: State, fallback: Option<int>, user: Option<int>, outage: bool): Option<Principal> {
    if user.None? then None else
      var uid := user.value;
      var row := RowOf(s, uid);
      if fallback == Some(uid) then
        Some(Principal(uid, "OWNER", if outage || row.None? then "ADMIN_TG_ID_FALLBACK" else "database"))
      else if outage || row.None? || !row.value.enabled ||
        (row.value.role != "OWNER" && row.value.role != "ADMIN") then None
      else Some(Principal(uid, row.value.role, "database"))
  }

  /** Resolving a stored, non-fallback principal stamps its row. */
  function Stamped(s: State, fallback: Option<int>, user: Option<int>, outage: bool, now: int): State {
    if PrincipalOf(s, fallback, user, outage).Some? && fallback != user && user.value in s.admins then
      s.(admins := s.admins[user.value := s.admins[user.value].(lastSeen := Some(now))])
    else s
  }

  // ---------- add_admin, remove_admin, set_enabled ----------

  datatype Denial = OwnerRequired | OwnerCannotBeModified | AdminNotFound | StoreUnavailable

  datatype Outcome = Done | NothingToRemove | Denied(why: Denial)

  datatype Op =
    | Add(username: Option<string>, displayName: Option<string>, note: Option<string>)
    | Remove
    | SetEnabled(on: bool)

  datatype Request = Request(actor: int, target: int, op: Op, now: int, outage: bool)

  /** The row an allowed operation leaves behind. */
  function Result(r: Request, row: Option<AdminRow>): Option<AdminRow>
    requires r.op.SetEnabled? ==> row.Some?
  {
    match r.op
    case Add(username, displayName, note) =>
      if row.None? then Some(AdminRow(username, displayName, "ADMIN", true, note, Some(r.actor), Some(r.now), true))
      else
        var kept := row.value;
        Some(kept.(username := if username.Some? then username else kept.username,
                   displayName := if displayName.Some? then displayName else kept.displayName,
                   note := if note.Some? then note else kept.note,
                   lastSeen := Some(r.now)))
    case Remove => None
    case SetEnabled(on) => Some(row.value.(enabled := on))
  }

  function ActionName(op: Op): string {
    match op
    case Add(_, _, _) => "ADD_ADMIN"
    case Remove => "REMOVE_ADMIN"
    case SetEnabled(on) => if on then "ENABLE_ADMIN" else "DISABLE_ADMIN"
  }

  /** Everything that stops an operation of an owner, in the order it is tested.  The target is queried, and an outage
      noticed, only after the configured owner has been ruled out as someone to add. */
  function Obstacle(r: Request, row: Option<AdminRow>, fallback: Option<int>): Option<Outcome> {
    if r.op.Add? && fallback == Some(r.target) then Some(Denied(OwnerCannotBeModified))
    else if r.outage then Some(Denied(StoreUnavailable))
    else if r.op.Remove? && row.None? then Some(NothingToRemove)
    else if r.op.SetEnabled? && row.None? then Some(Denied(AdminNotFound))
    else if (row.Some? && row.value.role == "OWNER") || fallback == Some(r.target) then
      Some(Denied(OwnerCannotBeModified))
    else None
  }

  function WithRow(s: State, id: int, row: Option<AdminRow>): State {
    s.(admins := if row.Some? then s.admins[id := row.value] else s.admins - {id})
  }

  function EntryOf(r: Request, before: Option<AdminRow>, after: Option<AdminRow>): AuditEntry {
    AuditEntry(r.actor, "OWNER", ActionName(r.op), Some(r.target),
               SafeValue(Snapshot(r.target, before)), SafeValue(Snapshot(r.target, after)))
  }

  function Perform(s: State, fallback: Option<int>, r: Request): (State, Outcome) {
    var who := PrincipalOf(s, fallback, Some(r.actor), r.outage);
    var s1 := Stamped(s, fallback, Some(r.actor), r.outage, r.now);
    if who.None? || who.value.role != "OWNER" then (s1, Denied(OwnerRequired))
    else
      var row := RowOf(s1, r.target);
      var obstacle := Obstacle(r, row, fallback);
      if obstacle.Some? then (s1, obstacle.value) else
        var after := Result(r, row);
        var s2 := WithRow(s1, r.target, after);
        (s2.(audit := s2.audit + [EntryOf(r, row, after)]), Done)
  }

  // ---------- what one operation does ----------

  /** The logged state of one administrator. */
  function Snap(s: State, id: int): Json {
    Snapshot(id, RowOf(s, id))
  }

  predicate OwnerRow(s: State, id: int) {
    id in s.admins && s.admins[id].role == "OWNER"
  }

  /** Nothing of one administrator changed that a snapshot shows. */
  predicate SameFor(s: State, t: State, id: int) {
    Snap(t, id) == Snap(s, id) && (OwnerRow(t, id) <==> OwnerRow(s, id))
  }

  lemma StampedSame(s: State, fallback: Option<int>, user: Option<int>, outage: bool, now: int, id: int)
    ensures SameFor(s, Stamped(s, fallback, user, outage, now), id)
    ensures Stamped(s, fallback, user, outage, now).audit == s.audit
  {
  }

  /** An operation that is done is logged once, with the state of its target before and after, and changes no other
      administrator; an operation that is not done changes nothing and is not logged. */
  ghost predicate Effect(s: State, fallback: Option<int>, r: Request, t: State, outcome: Outcome) {
    && (forall id | id != r.target || outcome != Done :: SameFor(s, t, id))
    && (outcome != Done ==> t.audit == s.audit)
    && (outcome == Done ==>
         && !OwnerRow(s, r.target) && !OwnerRow(t, r.target) && fallback != Some(r.target)
         && t.audit == s.audit + [AuditEntry(r.actor, "OWNER", ActionName(r.op), Some(r.target), Snap(s, r.target),
                                             Snap(t, r.target))])
  }

  lemma PerformEffect(s: State, fallback: Option<int>, r: Request)
    ensures var (t, outcome) := Perform(s, fallback, r); Effect(s, fallback, r, t, outcome)
  {
    var (t, outcome) := Perform(s, fallback, r);
    var s1 := Stamped(s, fallback, Some(r.actor), r.outage, r.now);
    forall id
      ensures SameFor(s, s1, id)
    {
      StampedSame(s, fallback, Some(r.actor), r.outage, r.now, id);
    }
    assert s1.audit == s.audit;
    if outcome == Done {
      SnapshotSafe(r.target, RowOf(s1, r.target));
      SnapshotSafe(r.target, RowOf(t, r.target));
      forall id | id != r.target
        ensures SameFor(s, t, id)
      {
        assert RowOf(t, id) == RowOf(s1, id);
        assert SameFor(s, s1, id);
      }
      assert SameFor(s, s1, r.target);
      assert RowOf(t, r.target) == Result(r, RowOf(s1, r.target));
    }
  }

  // ---------- runs ----------

  datatype Step =
    | Asks(request: Request)
    // record_audit of anything but an administrator
    | Logs(actor: int, role: string, action: string, before: Json, after: Json)

  function Next(s: State, fallback: Option<int>, step: Step): State {
    match step
    case Asks(r) => Perform(s, fallback, r).0
    case Logs(actor, role, action, before, after) =>
      s.(audit := s.audit + [AuditEntry(actor, role, action, None, SafeValue(before), SafeValue(after))])
  }

  function Run(s: State, fallback: Option<int>, steps: seq<Step>): State {
    if steps == [] then s else Next(Run(s, fallback, steps[..|steps| - 1]), fallback, steps[|steps| - 1])
  }

  /** Replays a log for one administrator: the last state logged, or the initial one. */
  function Replay(log: seq<AuditEntry>, id: int, initial: Json): Json {
    if log == [] then initial
    else if log[|log| - 1].target == Some(id) then log[|log| - 1].after
    else Replay(log[..|log| - 1], id, initial)
  }

  /** Each entry about an administrator starts from the state the one before it ended in. */
  ghost predicate Chained(log: seq<AuditEntry>, id: int, initial: Json) {
    forall i | 0 <= i < |log| && log[i].target == Some(id) :: log[i].before == Replay(log[..i], id, initial)
  }

  lemma AppendEntry(log: seq<AuditEntry>, e: AuditEntry, id: int, initial: Json)
    ensures Replay(log + [e], id, initial) == if e.target == Some(id) then e.after else Replay(log, id, initial)
    ensures Chained(log, id, initial) && (e.target == Some(id) ==> e.before == Replay(log, id, initial)) ==>
              Chained(log + [e], id, initial)
  {
    var more := log + [e];
    assert more[..|log|] == log;
    if Chained(log, id, initial) && (e.target == Some(id) ==> e.before == Replay(log, id, initial)) {
      forall i | 0 <= i < |more| && more[i].target == Some(id)
        ensures more[i].before == Replay(more[..i], id, initial)
      {
        assert more[..i] == log[..i];
      }
    }
  }

  /** The log so far tells the whole story of one administrator. */
  ghost predicate Tracked(s0: State, s: State, id: int) {
    Replay(s.audit, id, Snap(s0, id)) == Snap(s, id) && Chained(s.audit, id, Snap(s0, id))
  }

  lemma TrackedEntry(s0: State, s: State, t: State, e: AuditEntry, id: int)
    requires Tracked(s0, s, id) && t.audit == s.audit + [e]
    requires if e.target == Some(id) then e.before == Snap(s, id) && e.after == Snap(t, id)
             else Snap(t, id) == Snap(s, id)
    ensures Tracked(s0, t, id)
  {
    AppendEntry(s.audit, e, id, Snap(s0, id));
  }

  lemma TrackedEffect(s0: State, s: State, fallback: Option<int>, r: Request, t: State, outcome: Outcome, id: int)
    requires Tracked(s0, s, id) && Effect(s, fallback, r, t, outcome)
    ensures Tracked(s0, t, id)
  {
    if outcome == Done {
      var e := AuditEntry(r.actor, "OWNER", ActionName(r.op), Some(r.target), Snap(s, r.target), Snap(t, r.target));
      assert id != r.target ==> SameFor(s, t, id);
      TrackedEntry(s0, s, t, e, id);
    } else {
      assert SameFor(s, t, id);
    }
  }

  lemma TrackedStep(s0: State, s: State, fallback: Option<int>, step: Step, id: int)
    requires Tracked(s0, s, id)
    ensures Tracked(s0, Next(s, fallback, step), id)
  {
    match step
    case Asks(r) =>
      PerformEffect(s, fallback, r);
      TrackedEffect(s0, s, fallback, r, Perform(s, fallback, r).0, Perform(s, fallback, r).1, id);
    case Logs(actor, role, action, before, after) =>
      TrackedEntry(s0, s, Next(s, fallback, step),
                   AuditEntry(actor, role, action, None, SafeValue(before), SafeValue(after)), id);
  }

  /** Over every run: replaying the log rebuilds the present state of every administrator, and consecutive entries
      about the same one fit together. */
  lemma {:induction false} ReplayRebuilds(s0: State, fallback: Option<int>, steps: seq<Step>, id: int)
    requires s0.audit == []
    ensures Tracked(s0, Run(s0, fallback, steps), id)
  {
    if steps != [] {
      ReplayRebuilds(s0, fallback, steps[..|steps| - 1], id);
      TrackedStep(s0, Run(s0, fallback, steps[..|steps| - 1]), fallback, steps[|steps| - 1], id);
    }
  }

  /** Over every run: no logged state names a secret at any depth. */
  lemma {:induction false} LogIsClean(s0: State, fallback: Option<int>, steps: seq<Step>)
    requires s0.audit == []
    ensures forall e | e in Run(s0, fallback, steps).audit :: Clean(e.before) && Clean(e.after)
  {
    if steps != [] {
      LogIsClean(s0, fallback, steps[..|steps| - 1]);
      CleanStep(Run(s0, fallback, steps[..|steps| - 1]), fallback, steps[|steps| - 1]);
    }
  }

  lemma CleanStep(s: State, fallback: Option<int>, step: Step)
    ensures forall e | e in Next(s, fallback, step).audit && e !in s.audit :: Clean(e.before) && Clean(e.after)
  {
    match step
    case Asks(r) =>
      var s1 := Stamped(s, fallback, Some(r.actor), r.outage, r.now);
      assert s1.audit == s.audit;
      if Perform(s, fallback, r).1 == Done {
        SafeIsClean(Snapshot(r.target, RowOf(s1, r.target)));
        SafeIsClean(Snapshot(r.target, Result(r, RowOf(s1, r.target))));
      }
    case Logs(actor, role, action, before, after) =>
      SafeIsClean(before);
      SafeIsClean(after);
  }

  // ---------- owners ----------

  predicate MayOwn(s: State, fallback: Option<int>, id: int, outage: bool) {
    var who := PrincipalOf(s, fallback, Some(id), outage);
    who.Some? && who.value.role == "OWNER"
  }

  /** The configured owner always resolves to OWNER, whatever its row says and whether or not the store answers. */
  lemma FallbackIsOwner(s: State, id: int, outage: bool)
    ensures MayOwn(s, Some(id), id, outage)
  {
  }

  /** Owner rows show the same snapshot as at the start, no owner is the target of an entry, and nobody became one. */
  ghost predicate OwnerUntouched(s0: State, s: State, fallback: Option<int>, id: int) {
    && (OwnerRow(s, id) <==> OwnerRow(s0, id))
    && (OwnerRow(s0, id) || fallback == Some(id) ==>
          Snap(s, id) == Snap(s0, id) && forall i | 0 <= i < |s.audit| :: s.audit[i].target != Some(id))
  }

  lemma OwnerEffect(s0: State, s: State, fallback: Option<int>, r: Request, t: State, outcome: Outcome, id: int)
    requires OwnerUntouched(s0, s, fallback, id) && Effect(s, fallback, r, t, outcome)
    ensures OwnerUntouched(s0, t, fallback, id)
  {
    assert id != r.target || outcome != Done ==> SameFor(s, t, id);
  }

  lemma OwnerStep(s0: State, s: State, fallback: Option<int>, step: Step, id: int)
    requires OwnerUntouched(s0, s, fallback, id)
    ensures OwnerUntouched(s0, Next(s, fallback, step), fallback, id)
  {
    if step.Asks? {
      var r := step.request;
      PerformEffect(s, fallback, r);
      OwnerEffect(s0, s, fallback, r, Perform(s, fallback, r).0, Perform(s, fallback, r).1, id);
    }
  }

  lemma {:induction false} OwnersNeverChange(s0: State, fallback: Option<int>, steps: seq<Step>, id: int)
    requires s0.audit == []
    ensures OwnerUntouched(s0, Run(s0, fallback, steps), fallback, id)
  {
    if steps != [] {
      OwnersNeverChange(s0, fallback, steps[..|steps| - 1], id);
      OwnerStep(s0, Run(s0, fallback, steps[..|steps| - 1]), fallback, steps[|steps| - 1], id);
    }
  }

  /** Who may act as an owner is the same after every run. */
  lemma AuthorityFixed(s0: State, fallback: Option<int>, steps: seq<Step>, id: int, outage: bool)
    requires s0.audit == []
    ensures MayOwn(Run(s0, fallback, steps), fallback, id, outage) <==> MayOwn(s0, fallback, id, outage)
  {
    var s := Run(s0, fallback, steps);
    OwnersNeverChange(s0, fallback, steps, id);
    if OwnerRow(s0, id) {
      SnapshotTells(id, s0.admins[id], s.admins[id]);
    }
  }

  lemma SnapshotTells(id: int, a: AdminRow, b: AdminRow)
    requires Snapshot(id, Some(a)) == Snapshot(id, Some(b))
    ensures a.enabled == b.enabled && a.role == b.role
  {
  }

  // ---------- disabled stays disabled ----------

  predicate Disabled(s: State, id: int) {
    id in s.admins && !s.admins[id].enabled
  }

  /** The only requests that can put a disabled administrator back: enabling, or removing before adding anew. */
  predicate Restores(step: Step, id: int) {
    step.Asks? && step.request.target == id && (step.request.op.Remove? || step.request.op == SetEnabled(true))
  }

  lemma {:induction false} ReAddingNeverEnables(s: State, fallback: Option<int>, steps: seq<Step>, id: int)
    requires Disabled(s, id) && forall i | 0 <= i < |steps| :: !Restores(steps[i], id)
    ensures Disabled(Run(s, fallback, steps), id)
  {
    if steps != [] {
      ReAddingNeverEnables(s, fallback, steps[..|steps| - 1], id);
      StaysDisabled(Run(s, fallback, steps[..|steps| - 1]), fallback, steps[|steps| - 1], id);
    }
  }

  lemma StaysDisabled(s: State, fallback: Option<int>, step: Step, id: int)
    requires Disabled(s, id) && !Restores(step, id)
    ensures Disabled(Next(s, fallback, step), id)
  {
  }

  // ---------- the service ----------

  class AdminService {
    const fallback: Option<int>
    var admins: map<int, AdminRow>
    var audit: seq<AuditEntry>

    ghost function Contents(): State
      reads this
    {
      State(admins, audit)
    }

    constructor (fallback: Option<int>, admins: map<int, AdminRow>)
      ensures this.fallback == fallback && Contents() == State(admins, [])
    {
      this.fallback := fallback;
      this.admins := admins;
      audit := [];
    }

    method ResolvePrincipal(user: Option<int>, outage: bool, now: int) returns (who: Option<Principal>)
      modifies this
      ensures who == PrincipalOf(old(Contents()), fallback, user, outage)
      ensures Contents() == Stamped(old(Contents()), fallback, user, outage, now)
    {
      if user.None? {
        return None;
      }
      var uid := user.value;
      if outage {
        if fallback == Some(uid) {
          return Some(Principal(uid, "OWNER", "ADMIN_TG_ID_FALLBACK"));
        }
        return None;
      }
      if uid in admins {
        if fallback == Some(uid) {
          return Some(Principal(uid, "OWNER", "database"));
        }
        var row := admins[uid];
        if !row.enabled || (row.role != "OWNER" && row.role != "ADMIN") {
          return None;
        }
        admins := admins[uid := row.(lastSeen := Some(now))];
        return Some(Principal(uid, row.role, "database"));
      }
      if fallback == Some(uid) {
        return Some(Principal(uid, "OWNER", "ADMIN_TG_ID_FALLBACK"));
      }
      who := None;
    }

    method RecordAudit(actor: int, role: string, action: string, target: Option<int>, before: Json, after: Json)
      modifies this`audit
      ensures audit == old(audit) + [AuditEntry(actor, role, action, target, SafeValue(before), SafeValue(after))]
      ensures target == None ==>
                Contents() == Next(old(Contents()), fallback, Logs(actor, role, action, before, after))
    {
      audit := audit + [AuditEntry(actor, role, action, target, SafeValue(before), SafeValue(after))];
    }

    method RequireOwner(user: int, outage: bool, now: int) returns (denied: Option<Denial>)
      modifies this
      ensures Contents() == Stamped(old(Contents()), fallback, Some(user), outage, now)
      ensures denied == if MayOwn(old(Contents()), fallback, user, outage) then None else Some(OwnerRequired)
    {
      var who := ResolvePrincipal(Some(user), outage, now);
      if who.None? || who.value.role != "OWNER" {
        return Some(OwnerRequired);
      }
      denied := None;
    }

    method AddAdmin(r: Request) returns (outcome: Outcome)
      requires r.op.Add?
      modifies this
      ensures (Contents(), outcome) == Perform(old(Contents()), fallback, r)
    {
      var denied := RequireOwner(r.actor, r.outage, r.now);
      if denied.Some? {
        return Denied(denied.value);
      }
      if fallback == Some(r.target) {
        return Denied(OwnerCannotBeModified);
      }
      if r.outage {
        return Denied(StoreUnavailable);
      }
      var before: Option<AdminRow> := if r.target in admins then Some(admins[r.target]) else None;
      var row;
      if before.None? {
        row := AdminRow(r.op.username, r.op.displayName, "ADMIN", true, r.op.note, Some(r.actor), Some(r.now), true);
      } else {
        row := before.value;
        if row.role == "OWNER" {
          return Denied(OwnerCannotBeModified);
        }
        if r.op.username.Some? {
          row := row.(username := r.op.username);
        }
        if r.op.displayName.Some? {
          row := row.(displayName := r.op.displayName);
        }
        if r.op.note.Some? {
          row := row.(note := r.op.note);
        }
        row := row.(lastSeen := Some(r.now));
      }
      admins := admins[r.target := row];
      RecordAudit(r.actor, "OWNER", "ADD_ADMIN", Some(r.target), Snapshot(r.target, before),
                  Snapshot(r.target, Some(row)));
      outcome := Done;
    }

    method RemoveAdmin(r: Request) returns (outcome: Outcome)
      requires r.op.Remove?
      modifies this
      ensures (Contents(), outcome) == Perform(old(Contents()), fallback, r)
    {
      var denied := RequireOwner(r.actor, r.outage, r.now);
      if denied.Some? {
        return Denied(denied.value);
      }
      if r.outage {
        return Denied(StoreUnavailable);
      }
      if r.target !in admins {
        return NothingToRemove;
      }
      var row := admins[r.target];
      if row.role == "OWNER" || fallback == Some(r.target) {
        return Denied(OwnerCannotBeModified);
      }
      admins := admins - {r.target};
      RecordAudit(r.actor, "OWNER", "REMOVE_ADMIN", Some(r.target), Snapshot(r.target, Some(row)), Null);
      outcome := Done;
    }

    method SetAdminEnabled(r: Request) returns (outcome: Outcome)
      requires r.op.SetEnabled?
      modifies this
      ensures (Contents(), outcome) == Perform(old(Contents()), fallback, r)
    {
      var denied := RequireOwner(r.actor, r.outage, r.now);
      if denied.Some? {
        return Denied(denied.value);
      }
      if r.outage {
        return Denied(StoreUnavailable);
      }
      if r.target !in admins {
        return Denied(AdminNotFound);
      }
      var row := admins[r.target];
      if row.role == "OWNER" || fallback == Some(r.target) {
        return Denied(OwnerCannotBeModified);
      }
      admins := admins[r.target := row.(enabled := r.op.on)];
      RecordAudit(r.actor, "OWNER", if r.op.on then "ENABLE_ADMIN" else "DISABLE_ADMIN", Some(r.target),
                  Snapshot(r.target, Some(row)), Snapshot(r.target, Some(admins[r.target])));
      outcome := Done;
    }
  }
}
