/** Multi-factor authentication over whole runs (apis/record_helpers.go, core/mfa_model.go): a
    first attempt opens a session, a second one with another method closes it. Attempts are
    taken one at a time. */
module Mfa {
  import opened Wrappers

  datatype Owner = Owner(collection: string, record: string)

  datatype Session = Session(owner: Owner, factor: string, created: int)

  /** What the MFA rule of the collection says about the record. */
  datatype Rule = Wants | Exempt | Broken

  /** One authenticated attempt, with the settings of its collection at that time. `freshId` is
      the id a new session gets; `saves`, `deletes` and `finishes` tell whether the save or the
      delete of a session and the rest of the response go well. */
  datatype Attempt = Attempt(owner: Owner, factor: string, mfaId: string, now: int,
                             enabled: bool, rule: Rule, duration: int,
                             freshId: string, saves: bool, deletes: bool, finishes: bool)

  /** Besides attempts, sessions go when they have expired (the hourly job) or with the password
      of their owner. */
  datatype Event =
    | Try(attempt: Attempt)
    | DeleteExpired(collection: string, before: int)
    | DeleteAllOf(owner: Owner)

  /** What an event led to: a session to be completed, an auth response (which session it used,
      if any), or neither. */
  datatype Outcome =
    | Opened(id: string, session: Session)
    | Issued(attempt: Attempt, used: Option<string>)
    | Nothing

  datatype State = State(sessions: map<string, Session>, log: seq<Outcome>)

  // ---- the specification ------------------------------------------------------------------------------

  predicate Applies(a: Attempt) {
    a.enabled && a.factor != "" && !a.rule.Exempt?
  }

  predicate HasExpired(s: Session, now: int, maxElapsed: int) {
    now - s.created > maxElapsed
  }

  /** checkMFA: the session left to complete, an error, or consent. */
  datatype Verdict = Pass(used: Option<string>) | Pending(id: string) | Refused

  function Without(sessions: map<string, Session>, id: string, deletes: bool): map<string, Session> {
    if deletes then sessions - {id} else sessions
  }

  function Checked(sessions: map<string, Session>, a: Attempt): (map<string, Session>, Verdict) {
    if !a.enabled || a.factor == "" then (sessions, Pass(None))
    else
      match a.rule
      case Broken => (sessions, Refused)
      case Exempt => (sessions, Pass(None))
      case Wants =>
        if a.mfaId == "" then
          if a.saves && a.freshId !in sessions
          then (sessions[a.freshId := Session(a.owner, a.factor, a.now)], Pending(a.freshId))
          else (sessions, Refused)
        else if a.mfaId !in sessions then (sessions, Refused)
        else
          var s := sessions[a.mfaId];
          if HasExpired(s, a.now, a.duration) then (Without(sessions, a.mfaId, a.deletes), Refused)
          else if s.owner != a.owner || s.factor == a.factor then (sessions, Refused)
          else (Without(sessions, a.mfaId, a.deletes), Pass(Some(a.mfaId)))
  }

  function Exec(s: State, e: Event): State {
    match e
    case Try(a) =>
      var (sessions, verdict) := Checked(s.sessions, a);
      var outcome := match verdict
        case Pass(used) => if a.finishes then Issued(a, used) else Nothing
        case Pending(id) => Opened(id, sessions[id])
        case Refused => Nothing;
      State(sessions, s.log + [outcome])
    case DeleteExpired(collection, before) =>
      State(map id | id in s.sessions && !(s.sessions[id].owner.collection == collection
                                           && s.sessions[id].created < before)
              :: s.sessions[id],
            s.log + [Nothing])
    case DeleteAllOf(owner) =>
      State(map id | id in s.sessions && s.sessions[id].owner != owner :: s.sessions[id], s.log + [Nothing])
  }

  function ExecAll(s: State, run: seq<Event>): State {
    if run == [] then s else Exec(ExecAll(s, run[..|run| - 1]), run[|run| - 1])
  }

  /** Session ids are random: none is handed out twice. */
  predicate FreshIds(run: seq<Event>) {
    forall i, j :: 0 <= i < j < |run| && run[i].Try? && run[j].Try? ==> run[i].attempt.freshId != run[j].attempt.freshId
  }

  // ---- invariants -------------------------------------------------------------------------------------

  predicate OpenedBefore(log: seq<Outcome>, id: string, session: Session) {
    exists i :: 0 <= i < |log| && log[i] == Opened(id, session)
  }

  /** Every response for which MFA applies used a session that some attempt before it opened: for
      the same record, with another method, and not longer ago than the collection allows. */
  ghost predicate Preceded(log: seq<Outcome>, k: nat)
    requires k < |log|
  {
    log[k].Issued? && Applies(log[k].attempt) ==>
      var a := log[k].attempt;
      log[k].used.Some? &&
      exists i :: 0 <= i < k && log[i].Opened? && log[i].id == log[k].used.value
        && log[i].session.owner == a.owner && log[i].session.factor != a.factor
        && !HasExpired(log[i].session, a.now, a.duration)
  }

  ghost predicate Inv(s: State, run: seq<Event>) {
    && |s.log| == |run|
    && (forall id :: id in s.sessions ==> OpenedBefore(s.log, id, s.sessions[id]))
    && (forall i :: 0 <= i < |run| && s.log[i].Opened? ==> run[i].Try? && run[i].attempt.freshId == s.log[i].id)
    && (forall i :: 0 <= i < |run| && s.log[i].Issued? ==> run[i] == Try(s.log[i].attempt))
    && (forall k :: 0 <= k < |s.log| ==> Preceded(s.log, k))
  }

  lemma CheckedSessions(s: State, a: Attempt, id: string)
    ensures
      var (sessions, verdict) := Checked(s.sessions, a);
      && (id in sessions ==> (id in s.sessions && sessions[id] == s.sessions[id]) || verdict == Pending(id))
      && (verdict.Pass? && Applies(a) ==>
            && verdict.used == Some(a.mfaId) && a.mfaId in s.sessions
            && s.sessions[a.mfaId].owner == a.owner && s.sessions[a.mfaId].factor != a.factor
            && !HasExpired(s.sessions[a.mfaId], a.now, a.duration)
            && (a.deletes ==> a.mfaId !in sessions))
      && (verdict.Pass? && verdict.used.Some? ==> Applies(a))
      && (verdict.Pending? ==> verdict.id == a.freshId && a.freshId in sessions && a.freshId !in s.sessions)
  {
  }

  lemma OpenedStays(log: seq<Outcome>, next: Outcome, id: string, session: Session)
    requires OpenedBefore(log, id, session) || next == Opened(id, session)
    ensures OpenedBefore(log + [next], id, session)
  {
    if OpenedBefore(log, id, session) {
      var i :| 0 <= i < |log| && log[i] == Opened(id, session);
      assert (log + [next])[i] == Opened(id, session);
    } else {
      assert (log + [next])[|log|] == next;
    }
  }

  lemma PrecededStays(log: seq<Outcome>, next: Outcome, k: nat)
    requires k < |log| && Preceded(log, k)
    ensures Preceded(log + [next], k)
  {
    var longer := log + [next];
    assert longer[k] == log[k];
    if log[k].Issued? && Applies(log[k].attempt) {
      var a := log[k].attempt;
      var i :| 0 <= i < k && log[i].Opened? && log[i].id == log[k].used.value
        && log[i].session.owner == a.owner && log[i].session.factor != a.factor
        && !HasExpired(log[i].session, a.now, a.duration);
      assert longer[i] == log[i];
    }
  }

  lemma StepKeepsInv(s: State, run: seq<Event>, e: Event)
    requires Inv(s, run)
    ensures Inv(Exec(s, e), run + [e])
  {
    var t := Exec(s, e);
    var next := t.log[|s.log|];
    assert t.log == s.log + [next];
    forall id | id in t.sessions ensures OpenedBefore(t.log, id, t.sessions[id]) {
      if e.Try? {
        CheckedSessions(s, e.attempt, id);
      }
      OpenedStays(s.log, next, id, t.sessions[id]);
    }
    forall k | 0 <= k < |t.log| ensures Preceded(t.log, k) {
      if k < |s.log| {
        PrecededStays(s.log, next, k);
      } else if next.Issued? && Applies(next.attempt) {
        var a := e.attempt;
        CheckedSessions(s, a, "");
        var i :| 0 <= i < |s.log| && s.log[i] == Opened(a.mfaId, s.sessions[a.mfaId]);
        assert t.log[i] == s.log[i];
      }
    }
    if e.Try? {
      CheckedSessions(s, e.attempt, "");
    }
  }

  lemma {:induction false} Reachable(run: seq<Event>)
    ensures Inv(ExecAll(State(map[], []), run), run)
  {
    if run != [] {
      var init := run[..|run| - 1];
      Reachable(init);
      StepKeepsInv(ExecAll(State(map[], []), init), init, run[|run| - 1]);
      assert run == init + [run[|run| - 1]];
    }
  }

  /** Over any run of attempts, cleanups and password changes: an auth response for which MFA
      applies is always the second of two factors. */
  lemma ResponsesNeedTwoFactors(run: seq<Event>, k: nat)
    requires k < |run|
    ensures var log := ExecAll(State(map[], []), run).log;
      |log| == |run| && Preceded(log, k)
  {
    Reachable(run);
  }

  // ---- each session serves one response ---------------------------------------------------------------

  lemma {:induction false} LogGrows(run: seq<Event>, n: nat)
    requires n <= |run|
    ensures ExecAll(State(map[], []), run[..n]).log <= ExecAll(State(map[], []), run).log
    decreases |run|
  {
    if n == |run| {
      assert run[..n] == run;
    } else {
      LogGrows(run[..|run| - 1], n);
      assert run[..|run| - 1][..n] == run[..n];
    }
  }

  lemma {:induction false} StaysGone(run: seq<Event>, id: string, n: nat, m: nat)
    requires n <= m <= |run| && id !in ExecAll(State(map[], []), run[..n]).sessions
    requires forall j :: n <= j < m && run[j].Try? ==> run[j].attempt.freshId != id
    ensures id !in ExecAll(State(map[], []), run[..m]).sessions
    decreases m
  {
    if n < m {
      StaysGone(run, id, n, m - 1);
      assert run[..m][..m - 1] == run[..m - 1];
      if run[m - 1].Try? {
        CheckedSessions(ExecAll(State(map[], []), run[..m - 1]), run[m - 1].attempt, id);
      }
    }
  }

  /** The response at step k used the session, and what it left. */
  lemma UsedAt(run: seq<Event>, k: nat, id: string)
    requires k < |run|
    requires var log := ExecAll(State(map[], []), run).log;
      |log| == |run| && log[k].Issued? && log[k].used == Some(id)
    ensures run[k].Try? && id in ExecAll(State(map[], []), run[..k]).sessions
    ensures run[k].attempt.deletes ==> id !in ExecAll(State(map[], []), run[..k + 1]).sessions
  {
    Reachable(run[..k]);
    Reachable(run[..k + 1]);
    LogGrows(run, k + 1);
    assert run[..k + 1][..k] == run[..k];
    var before := ExecAll(State(map[], []), run[..k]);
    assert ExecAll(State(map[], []), run[..k + 1]) == Exec(before, run[k]);
    if run[k].Try? {
      CheckedSessions(before, run[k].attempt, id);
    }
  }

  /** A session that served one response never serves another, as long as its delete succeeded. */
  lemma SessionsServeOnce(run: seq<Event>, k: nat, m: nat, id: string)
    requires FreshIds(run) && k < m < |run|
    requires |ExecAll(State(map[], []), run).log| == |run|
    requires var o := ExecAll(State(map[], []), run).log[k];
      o.Issued? && o.used == Some(id) && o.attempt.deletes
    ensures var o := ExecAll(State(map[], []), run).log[m];
      !(o.Issued? && o.used == Some(id))
  {
    Reachable(run);
    var log := ExecAll(State(map[], []), run).log;
    UsedAt(run, k, id);
    assert run[k].attempt.deletes;
    OpenerOf(run, k, id);
    StaysGone(run, id, k + 1, m);
    if log[m].Issued? && log[m].used == Some(id) {
      UsedAt(run, m, id);
      assert false;
    }
  }

  /** The id of a session in use is not handed out again. */
  lemma OpenerOf(run: seq<Event>, k: nat, id: string)
    requires FreshIds(run) && k < |run| && id in ExecAll(State(map[], []), run[..k]).sessions
    ensures forall j :: k <= j < |run| && run[j].Try? ==> run[j].attempt.freshId != id
  {
    Reachable(run[..k]);
    var s := ExecAll(State(map[], []), run[..k]);
    var i :| 0 <= i < |s.log| && s.log[i] == Opened(id, s.sessions[id]);
    assert run[..k][i] == run[i];
    assert run[i].Try? && run[i].attempt.freshId == id;
  }

  /** When the delete fails, the session stays and serves a second response. */
  lemma FailedDeleteServesTwice()
    ensures
      var owner := Owner("users", "u1");
      var first := Attempt(owner, "password", "", 0, true, Wants, 60, "m1", true, true, true);
      var second := Attempt(owner, "otp", "m1", 1, true, Wants, 60, "m2", true, false, true);
      var third := second.(freshId := "m3");
      var log := ExecAll(State(map[], []), [Try(first), Try(second), Try(third)]).log;
      log == [Opened("m1", Session(owner, "password", 0)), Issued(second, Some("m1")), Issued(third, Some("m1"))]
  {
    var owner := Owner("users", "u1");
    var first := Attempt(owner, "password", "", 0, true, Wants, 60, "m1", true, true, true);
    var second := Attempt(owner, "otp", "m1", 1, true, Wants, 60, "m2", true, false, true);
    var third := second.(freshId := "m3");
    var run := [Try(first), Try(second), Try(third)];
    var session := Session(owner, "password", 0);
    assert "password"[0] != "otp"[0];
    assert run[..2][..1] == [Try(first)] && run[..2] == [Try(first), Try(second)];
    assert [Try(first)][..0] == [];
    assert ExecAll(State(map[], []), [Try(first)]) == State(map["m1" := session], [Opened("m1", session)]);
    assert ExecAll(State(map[], []), run[..2]).sessions == map["m1" := session];
  }

  /** In general: the same second factor sent again is let through exactly when the session it
      used could not be deleted. */
  lemma RepeatSucceedsExactlyWhenDeleteFailed(s: State, a: Attempt)
    requires Checked(s.sessions, a).1 == Pass(Some(a.mfaId)) && a.finishes
    ensures var t := Exec(s, Try(a));
      && t.log == s.log + [Issued(a, Some(a.mfaId))]
      && (Exec(t, Try(a)).log == t.log + [Issued(a, Some(a.mfaId))] <==> !a.deletes)
  {
    CheckedSessions(s, a, a.mfaId);
    var t := Exec(s, Try(a));
    var u := Exec(t, Try(a));
    assert u.log == t.log + [u.log[|t.log|]];
    assert u.log[|t.log|] == Issued(a, Some(a.mfaId)) <==> u.log == t.log + [Issued(a, Some(a.mfaId))];
  }

  /** The honest second factor is let through: the session is there, unexpired, of the same
      record, and was opened with another method. */
  lemma SecondFactorSucceeds(s: State, a: Attempt)
    requires a.enabled && a.rule.Wants? && a.factor != "" && a.mfaId != "" && a.finishes
    requires a.mfaId in s.sessions
    ensures Exec(s, Try(a)).log == s.log + [Issued(a, Some(a.mfaId))] <==>
            && s.sessions[a.mfaId].owner == a.owner && s.sessions[a.mfaId].factor != a.factor
            && a.now - s.sessions[a.mfaId].created <= a.duration
  {
    var t := Exec(s, Try(a));
    assert t.log == s.log + [t.log[|s.log|]];
    assert t.log[|s.log|] == Issued(a, Some(a.mfaId)) <==> t.log == s.log + [Issued(a, Some(a.mfaId))];
  }

  // ---- what each event does ---------------------------------------------------------------------------

  /** The attempt is to go through two steps. */
  predicate Asked(a: Attempt) {
    a.enabled && a.factor != "" && a.rule.Wants?
  }

  /** It completes an open session: of the same record, by another method, in time. */
  predicate Completes(s: State, a: Attempt) {
    && a.mfaId != "" && a.mfaId in s.sessions
    && s.sessions[a.mfaId].owner == a.owner && s.sessions[a.mfaId].factor != a.factor
    && a.now <= s.sessions[a.mfaId].created + a.duration
  }

  predicate Opens(s: State, a: Attempt) {
    Asked(a) && a.mfaId == "" && a.saves && a.freshId !in s.sessions
  }

  /** What an attempt leads to. With a rule that cannot be evaluated, or a factor that neither
      opens nor completes a session, to nothing. */
  lemma AttemptsLeadTo(s: State, a: Attempt)
    ensures
      var exempt := !a.enabled || a.factor == "" || a.rule.Exempt?;
      Exec(s, Try(a)).log == s.log + [
        if Opens(s, a) then Opened(a.freshId, Session(a.owner, a.factor, a.now))
        else if exempt && a.finishes then Issued(a, None)
        else if Asked(a) && Completes(s, a) && a.finishes then Issued(a, Some(a.mfaId))
        else Nothing]
  {
  }

  /** Which sessions there are after an event: a session comes with the attempt that opens it and
      goes with the one that completes it or finds it expired, with the cleanup of its
      collection, or with those of its owner; the others stay as they are. */
  lemma SessionsAfter(s: State, e: Event, id: string)
    ensures
      var t := Exec(s, e).sessions;
      var comes := e.Try? && Opens(s, e.attempt) && id == e.attempt.freshId;
      && (id in t && !comes ==> id in s.sessions && t[id] == s.sessions[id])
      && (comes ==> id in t && t[id] == Session(e.attempt.owner, e.attempt.factor, e.attempt.now))
      && (id in s.sessions ==>
            var was := s.sessions[id];
            (id !in t <==>
              match e
              case Try(a) =>
                && Asked(a) && a.mfaId == id && id != "" && a.deletes
                && (a.now > was.created + a.duration || (was.owner == a.owner && was.factor != a.factor))
              case DeleteExpired(collection, before) => was.owner.collection == collection && was.created < before
              case DeleteAllOf(owner) => was.owner == owner))
  {
  }

  // ---- the code ---------------------------------------------------------------------------------------

  /** The MFA records and the outcomes of the requests so far. */
  class Authenticator {
    var sessions: map<string, Session>
    var log: seq<Outcome>

    constructor ()
      ensures Snapshot() == State(map[], [])
    {
      sessions, log := map[], [];
    }

    function Snapshot(): State
      reads this
    {
      State(sessions, log)
    }

    method DeleteMfa(id: string, deletes: bool)
      modifies `sessions
      ensures sessions == Without(old(sessions), id, deletes)
    {
      if deletes {
        sessions := sessions - {id};
      }
    }

    method CheckMfa(a: Attempt) returns (verdict: Verdict)
      modifies `sessions
      ensures (sessions, verdict) == Checked(old(sessions), a)
    {
      if !a.enabled || a.factor == "" {
        return Pass(None);
      }
      if a.rule.Broken? {
        return Refused;
      }
      if a.rule.Exempt? {
        return Pass(None);
      }
      if a.mfaId == "" {
        if !a.saves || a.freshId in sessions {
          return Refused;
        }
        sessions := sessions[a.freshId := Session(a.owner, a.factor, a.now)];
        return Pending(a.freshId);
      }
      if a.mfaId !in sessions {
        return Refused;
      }
      var mfa := sessions[a.mfaId];
      if HasExpired(mfa, a.now, a.duration) {
        DeleteMfa(a.mfaId, a.deletes);
        return Refused;
      }
      if mfa.owner != a.owner {
        return Refused;
      }
      if mfa.factor == a.factor {
        return Refused;
      }
      DeleteMfa(a.mfaId, a.deletes);
      return Pass(Some(a.mfaId));
    }

    method RecordAuthResponse(a: Attempt)
      modifies this
      ensures Snapshot() == Exec(old(Snapshot()), Try(a))
    {
      var verdict := CheckMfa(a);
      match verdict
      case Pending(id) => log := log + [Opened(id, sessions[id])];
      case Refused => log := log + [Nothing];
      case Pass(used) => log := log + [if a.finishes then Issued(a, used) else Nothing];
    }
  }
}
