/** What each administration operation does to the table, field by field (app/security/admin_service.py). */
module AdminEffects {
  import opened PyText
  import opened SafeJson
  import opened AdminService

  /** The user acts as an owner: the configured one always does, others by an enabled owner row while the store
      answers. */
  predicate ActsAsOwner(s: State, fallback: Option<int>, user: int, outage: bool) {
    fallback == Some(user) ||
    (!outage && user in s.admins && s.admins[user].enabled && s.admins[user].role == "OWNER")
  }

  /** Who a user acts as, and where that comes from. */
  lemma ActsAs(s: State, fallback: Option<int>, user: int, outage: bool)
    ensures var who := PrincipalOf(s, fallback, Some(user), outage);
            && (who.Some? && who.value.role == "OWNER" <==> ActsAsOwner(s, fallback, user, outage))
            && (who.Some? && who.value.role == "ADMIN" <==>
                fallback != Some(user) && !outage && user in s.admins && s.admins[user].enabled &&
                s.admins[user].role == "ADMIN")
            && (who.Some? ==> who.value.userId == user && who.value.role in {"OWNER", "ADMIN"})
            && (who.Some? ==>
                  who.value.source == if !outage && user in s.admins then "database" else "ADMIN_TG_ID_FALLBACK")
    ensures PrincipalOf(s, fallback, None, outage) == None
  {
  }

  /** Acting stamps the row of an enabled administrator, the configured owner's aside, while the store answers. */
  predicate Stamps(s: State, fallback: Option<int>, user: int, outage: bool) {
    && fallback != Some(user) && !outage && user in s.admins && s.admins[user].enabled
    && s.admins[user].role in {"OWNER", "ADMIN"}
  }

  /** The row of the id is as it was, but for the stamp if the user is the one acting. */
  predicate StampedOnly(s: State, t: State, fallback: Option<int>, user: int, outage: bool, now: int, id: int) {
    if id in s.admins then
      id in t.admins &&
      t.admins[id] == if id == user && Stamps(s, fallback, user, outage) then s.admins[id].(lastSeen := Some(now))
                      else s.admins[id]
    else id !in t.admins
  }

  /** Resolving a user logs nothing, and changes nothing but that stamp. */
  lemma ResolvingStamps(s: State, fallback: Option<int>, user: int, outage: bool, now: int, id: int)
    ensures StampedOnly(s, Stamped(s, fallback, Some(user), outage, now), fallback, user, outage, now, id)
    ensures Stamped(s, fallback, Some(user), outage, now).audit == s.audit
    ensures Stamped(s, fallback, None, outage, now) == s
  {
  }

  lemma OthersKept(s: State, fallback: Option<int>, r: Request, id: int)
    requires id != r.target || Perform(s, fallback, r).1 != Done
    ensures StampedOnly(s, Perform(s, fallback, r).0, fallback, r.actor, r.outage, r.now, id)
  {
  }

  /** An operation is done for acting owners only, never to the configured owner or to an owner row; enabling and
      removing need a row. */
  lemma DoneIff(s: State, fallback: Option<int>, r: Request)
    ensures Perform(s, fallback, r).1 == Done <==>
            && ActsAsOwner(s, fallback, r.actor, r.outage) && !r.outage && fallback != Some(r.target)
            && (if r.target in s.admins then s.admins[r.target].role != "OWNER" else r.op.Add?)
  {
    ActsAs(s, fallback, r.actor, r.outage);
  }

  /** The reason of every refusal. */
  lemma RefusedIff(s: State, fallback: Option<int>, r: Request)
    ensures var outcome := Perform(s, fallback, r).1;
            var owner := ActsAsOwner(s, fallback, r.actor, r.outage);
            var stored := r.target in s.admins;
            var untouchable := fallback == Some(r.target) || (stored && s.admins[r.target].role == "OWNER");
            && (outcome == Denied(OwnerRequired) <==> !owner)
            && (outcome == Denied(StoreUnavailable) <==>
                owner && r.outage && !(r.op.Add? && fallback == Some(r.target)))
            && (outcome == NothingToRemove <==> owner && !r.outage && r.op.Remove? && !stored)
            && (outcome == Denied(AdminNotFound) <==> owner && !r.outage && r.op.SetEnabled? && !stored)
            && (outcome == Denied(OwnerCannotBeModified) <==>
                owner && untouchable &&
                if r.op.Add? then fallback == Some(r.target) || !r.outage else !r.outage && stored)
  {
    ActsAs(s, fallback, r.actor, r.outage);
  }

  /** Enabling and disabling do just that. */
  lemma EnabledAsAsked(s: State, fallback: Option<int>, r: Request)
    requires r.op.SetEnabled? && Perform(s, fallback, r).1 == Done
    ensures var t := Perform(s, fallback, r).0;
            && r.target in s.admins && r.target in t.admins
            && t.admins[r.target] == s.admins[r.target].(enabled := r.op.on)
  {
    DoneIff(s, fallback, r);
  }

  lemma RemovedIsGone(s: State, fallback: Option<int>, r: Request)
    requires r.op.Remove? && Perform(s, fallback, r).1 == Done
    ensures r.target in s.admins && r.target !in Perform(s, fallback, r).0.admins
  {
  }

  /** A new administrator is an enabled ADMIN with what was given; an existing row takes over only what was given, and
      the time. */
  lemma AddedAsGiven(s: State, fallback: Option<int>, r: Request)
    requires r.op.Add? && Perform(s, fallback, r).1 == Done
    ensures var t := Perform(s, fallback, r).0;
            && r.target in t.admins
            && var row := t.admins[r.target];
               && row.lastSeen == Some(r.now)
               && (r.op.username.Some? ==> row.username == r.op.username)
               && (r.op.displayName.Some? ==> row.displayName == r.op.displayName)
               && (r.op.note.Some? ==> row.note == r.op.note)
               && if r.target in s.admins then
                    var kept := s.admins[r.target];
                    && (r.op.username.None? ==> row.username == kept.username)
                    && (r.op.displayName.None? ==> row.displayName == kept.displayName)
                    && (r.op.note.None? ==> row.note == kept.note)
                    && (row.role, row.enabled, row.createdBy, row.notifyFailures) ==
                       (kept.role, kept.enabled, kept.createdBy, kept.notifyFailures)
                  else
                    && (row.username, row.displayName, row.note) == (r.op.username, r.op.displayName, r.op.note)
                    && row.role == "ADMIN" && row.enabled && row.createdBy == Some(r.actor) && row.notifyFailures
  {
    DoneIff(s, fallback, r);
  }

  /** The one entry of an operation that is done names the actor as OWNER, the operation and the target. */
  lemma EntryNames(s: State, fallback: Option<int>, r: Request)
    requires Perform(s, fallback, r).1 == Done
    ensures var log := Perform(s, fallback, r).0.audit;
            && |log| == |s.audit| + 1 && log[..|s.audit|] == s.audit
            && var e := log[|s.audit|];
               && (e.actor, e.actorRole, e.target) == (r.actor, "OWNER", Some(r.target))
               && e.action == (match r.op case Add(_, _, _) => "ADD_ADMIN" case Remove => "REMOVE_ADMIN"
                               case SetEnabled(on) => if on then "ENABLE_ADMIN" else "DISABLE_ADMIN")
  {
  }

  /** What a snapshot shows of a row. */
  lemma SnapshotShows(id: int, row: AdminRow)
    ensures var shown := Snapshot(id, Some(row));
            && shown.Object?
            && Holds(shown.fields, "telegram_user_id", Num(id as real))
            && Holds(shown.fields, "username", if row.username.Some? then Text(row.username.value) else Null)
            && Holds(shown.fields, "display_name", if row.displayName.Some? then Text(row.displayName.value) else Null)
            && Holds(shown.fields, "role", Text(row.role))
            && Holds(shown.fields, "enabled", Flag(row.enabled))
            && Holds(shown.fields, "note", if row.note.Some? then Text(row.note.value) else Null)
            && Holds(shown.fields, "receive_failure_notifications", Flag(row.notifyFailures))
            && FieldCount(shown.fields) == 7
    ensures Snapshot(id, None) == Null
  {
    var f6 := Field("receive_failure_notifications", Flag(row.notifyFailures), NoFields);
    var f5 := Field("note", OptText(row.note), f6);
    var f4 := Field("enabled", Flag(row.enabled), f5);
    var f3 := Field("role", Text(row.role), f4);
    var f2 := Field("display_name", OptText(row.displayName), f3);
    var f1 := Field("username", OptText(row.username), f2);
    var f0 := Field("telegram_user_id", Num(id as real), f1);
    assert Snapshot(id, Some(row)) == Object(f0);
    assert FieldCount(f6) == 1;
    More(f5, f6, "receive_failure_notifications", Flag(row.notifyFailures));
    More(f4, f5, "receive_failure_notifications", Flag(row.notifyFailures));
    More(f3, f4, "receive_failure_notifications", Flag(row.notifyFailures));
    More(f2, f3, "receive_failure_notifications", Flag(row.notifyFailures));
    More(f1, f2, "receive_failure_notifications", Flag(row.notifyFailures));
    More(f0, f1, "receive_failure_notifications", Flag(row.notifyFailures));
    More(f4, f5, "note", OptText(row.note));
    More(f3, f4, "note", OptText(row.note));
    More(f2, f3, "note", OptText(row.note));
    More(f1, f2, "note", OptText(row.note));
    More(f3, f4, "enabled", Flag(row.enabled));
    More(f2, f3, "enabled", Flag(row.enabled));
    More(f1, f2, "enabled", Flag(row.enabled));
    More(f2, f3, "role", Text(row.role));
    More(f1, f2, "role", Text(row.role));
    More(f1, f2, "display_name", OptText(row.displayName));
  }

  lemma More(a: Fields, b: Fields, key: string, value: Json)
    requires a.Field? && a.others == b
    ensures Holds(b, key, value) ==> Holds(a, key, value)
    ensures FieldCount(a) == 1 + FieldCount(b)
  {
  }
}
