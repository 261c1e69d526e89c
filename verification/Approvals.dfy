/**
 * The human approval store: at most one open request per target, an
 * append-only decision log, and the transitions a decision may make.
 */
module Approvals {
  import opened Prelude

  datatype Kind = ApplicationSubmission | OutreachSend | RecruiterSignalReview

  datatype Status = Pending | Approved | Rejected | Snoozed | Cancelled

  datatype DecisionType = Approve | Reject | Edit | Snooze | Cancel

  datatype Target = Target(kind: Kind, targetType: string, targetId: nat)

  /** One approval row; its id is its position in the store. */
  datatype Approval = Approval(
    target: Target,
    status: Status,
    decisionType: Option<DecisionType>,
    decidedAt: Option<Time>,
    snoozedUntil: Option<Time>)

  datatype Decision = Decision(approval: nat, decision: DecisionType)

  datatype Store = Store(rows: seq<Approval>, log: seq<Decision>)

  datatype Error =
    | NotFound
    | MultipleOpenRows
    | AlreadyDecided
    | OnlyPendingCanBeSnoozed
    | SnoozeNeedsUntil
    | SnoozeNotInFuture
    | NotApplicable

  predicate IsOpen(status: Status) {
    status == Pending || status == Snoozed
  }

  /** The first open row for a target at position i or later. */
  function FirstOpen(rows: seq<Approval>, target: Target, i: nat): (r: Option<nat>)
    requires i <= |rows|
    ensures r.Some? ==> i <= r.value < |rows| && rows[r.value].target == target && IsOpen(rows[r.value].status)
    ensures forall k :: i <= k < (if r.Some? then r.value else |rows|) ==>
              !(rows[k].target == target && IsOpen(rows[k].status))
    decreases |rows| - i
  {
    if i == |rows| then None
    else if rows[i].target == target && IsOpen(rows[i].status) then Some(i)
    else FirstOpen(rows, target, i + 1)
  }

  /** The open approval of a target; the query raises when it finds more than one. */
  function GetOpen(rows: seq<Approval>, target: Target): Result<Option<nat>, Error> {
    match FirstOpen(rows, target, 0)
    case None => Ok(None)
    case Some(k) => if FirstOpen(rows, target, k + 1).Some? then Err(MultipleOpenRows) else Ok(Some(k))
  }

  /** What the query for an open approval answers about the rows of a target. */
  lemma OpenExactly(rows: seq<Approval>, target: Target)
    ensures GetOpen(rows, target) == Ok(None) <==>
            forall k :: 0 <= k < |rows| && rows[k].target == target ==> rows[k].status in {Approved, Rejected, Cancelled}
    ensures GetOpen(rows, target).Ok? && GetOpen(rows, target).value.Some? ==>
              exists k :: 0 <= k < |rows| && rows[k].target == target && rows[k].status in {Pending, Snoozed}
    ensures GetOpen(rows, target).Err? ==> !OneOpenPerTarget(rows)
  {
    var first := FirstOpen(rows, target, 0);
    if first.Some? {
      assert rows[first.value].status in {Pending, Snoozed};
    }
  }

  predicate DecidedAfter(a: Approval, b: Approval) {
    match (a.decidedAt, b.decidedAt)
    case (Some(s), Some(t)) => s > t
    case (Some(_), None) => true
    case (None, _) => false
  }

  /** The most recently decided APPROVED row of a target among the first n rows. */
  function LatestApproved(rows: seq<Approval>, target: Target, n: nat): (r: Option<nat>)
    requires n <= |rows|
    ensures r.Some? ==> r.value < n && rows[r.value].target == target && rows[r.value].status == Approved
    ensures r.None? ==> forall k :: 0 <= k < n ==> !(rows[k].target == target && rows[k].status == Approved)
    ensures r.Some? ==> forall k :: 0 <= k < n && rows[k].target == target && rows[k].status == Approved ==>
                          !DecidedAfter(rows[k], rows[r.value])
  {
    if n == 0 then None
    else
      var best := LatestApproved(rows, target, n - 1);
      var row := rows[n - 1];
      if row.target == target && row.status == Approved && (best.None? || DecidedAfter(row, rows[best.value]))
      then Some(n - 1) else best
  }

  function GetApproved(rows: seq<Approval>, target: Target): Option<nat> {
    LatestApproved(rows, target, |rows|)
  }

  /** Create an approval request, or return the one that is already open. */
  function Request(s: Store, target: Target): (Store, Result<nat, Error>) {
    match GetOpen(s.rows, target)
    case Err(e) => (s, Err(e))
    case Ok(Some(k)) => (s, Ok(k))
    case Ok(None) =>
      (s.(rows := s.rows + [Approval(target, Pending, None, None, None)]), Ok(|s.rows|))
  }

  /** The status a decision leads to, or the reason it is refused. */
  function Verdict(status: Status, d: DecisionType, until: Option<Time>, now: Time): Result<Status, Error> {
    if !IsOpen(status) then Err(AlreadyDecided)
    else match d
      case Snooze =>
        if status != Pending then Err(OnlyPendingCanBeSnoozed)
        else if until.None? then Err(SnoozeNeedsUntil)
        else if until.value <= now then Err(SnoozeNotInFuture)
        else Ok(Snoozed)
      case Approve => Ok(Approved)
      case Reject => Ok(Rejected)
      case Cancel => Ok(Cancelled)
      case Edit => Err(NotApplicable)
  }

  /**
   * Apply a human decision to an open approval and append it to the log. The
   * clock is read to check a snooze, and again `wait` seconds later to stamp the
   * decision.
   */
  function Decide(s: Store, id: nat, d: DecisionType, until: Option<Time>, now: Time, wait: nat): (Store, Result<(), Error>) {
    if id >= |s.rows| then (s, Err(NotFound))
    else match Verdict(s.rows[id].status, d, until, now)
      case Err(e) => (s, Err(e))
      case Ok(status) =>
        var row := s.rows[id].(
          status := status,
          decisionType := Some(d),
          decidedAt := Some(now + wait),
          snoozedUntil := if d == Snooze then until else None);
        (Store(s.rows[id := row], s.log + [Decision(id, d)]), Ok(()))
  }

  // ------------------------------------------------------------- exact outcomes

  /** An approval waits for a decision. */
  predicate Waits(status: Status) {
    status.Pending? || status.Snoozed?
  }

  /**
   * A decision is accepted exactly on a waiting approval: to approve, reject or
   * cancel it, or to snooze a pending one until a later time. The row gets its
   * new status, the decision and its time, and a snooze time only by a snooze;
   * the log gets the decision; no other row changes.
   */
  lemma DecidedExactly(s: Store, id: nat, d: DecisionType, until: Option<Time>, now: Time, wait: nat)
    ensures var (s', r) := Decide(s, id, d, until, now, wait);
            && (r.Ok? <==>
                  && id < |s.rows| && Waits(s.rows[id].status)
                  && (d.Approve? || d.Reject? || d.Cancel?
                      || (d.Snooze? && s.rows[id].status.Pending? && until.Some? && until.value > now)))
            && (r.Err? ==> s' == s)
            && (r.Ok? ==>
                  && s'.log == s.log + [Decision(id, d)]
                  && |s'.rows| == |s.rows|
                  && (forall i :: 0 <= i < |s.rows| && i != id ==> s'.rows[i] == s.rows[i])
                  && s'.rows[id].target == s.rows[id].target
                  && s'.rows[id].decisionType == Some(d)
                  && s'.rows[id].decidedAt == Some(now + wait)
                  && s'.rows[id].snoozedUntil == (if d.Snooze? then until else None)
                  && (s'.rows[id].status.Approved? <==> d.Approve?)
                  && (s'.rows[id].status.Rejected? <==> d.Reject?)
                  && (s'.rows[id].status.Cancelled? <==> d.Cancel?)
                  && (s'.rows[id].status.Snoozed? <==> d.Snooze?))
  {
  }

  /** A request names the waiting approval of the target, or adds one PENDING row when there is none. */
  lemma RequestedExactly(s: Store, target: Target)
    requires OneOpenPerTarget(s.rows)
    ensures var (s', r) := Request(s, target);
            && r.Ok?
            && (if exists k :: 0 <= k < |s.rows| && s.rows[k].target == target && Waits(s.rows[k].status)
                then s' == s && r.value < |s.rows| && s.rows[r.value].target == target && Waits(s.rows[r.value].status)
                else r.value == |s.rows| && s'.log == s.log
                     && s'.rows == s.rows + [Approval(target, Pending, None, None, None)])
  {
    OpenExactly(s.rows, target);
  }

  /** Why a decision is refused. */
  lemma DecisionRefusalIsTrue(s: Store, id: nat, d: DecisionType, until: Option<Time>, now: Time, wait: nat)
    requires Decide(s, id, d, until, now, wait).1.Err?
    ensures match Decide(s, id, d, until, now, wait).1.error
            case NotFound => id >= |s.rows|
            case AlreadyDecided => id < |s.rows| && !Waits(s.rows[id].status)
            case OnlyPendingCanBeSnoozed => d.Snooze? && id < |s.rows| && s.rows[id].status.Snoozed?
            case SnoozeNeedsUntil => d.Snooze? && until.None?
            case SnoozeNotInFuture => d.Snooze? && until.Some? && until.value <= now
            case NotApplicable => d.Edit?
            case _ => false
  {
  }

  /**
   * A snooze ends after the time it was checked at, but it ends after the time
   * stamped on the decision exactly when it outlasts the second clock reading.
   */
  lemma SnoozeIsLaterExactly(s: Store, id: nat, until: Option<Time>, now: Time, wait: nat)
    requires Decide(s, id, Snooze, until, now, wait).1.Ok?
    ensures var row := Decide(s, id, Snooze, until, now, wait).0.rows[id];
            && row.snoozedUntil.Some? && row.decidedAt.Some?
            && row.snoozedUntil.value > now
            && (row.snoozedUntil.value > row.decidedAt.value <==> until.value > now + wait)
  {
  }

  /** A snooze of one second, checked at time 0 and stamped at time 1, is over as soon as it is stored. */
  lemma SnoozeOverAtOnce(target: Target)
    ensures var s := Store([Approval(target, Pending, None, None, None)], []);
            var (s', r) := Decide(s, 0, Snooze, Some(1), 0, 1);
            r.Ok? && s'.rows[0].snoozedUntil == s'.rows[0].decidedAt == Some(1)
  {
  }

  // ------------------------------------------------------------ replaying the log

  /** The decisions logged for one approval, oldest first. */
  function LogOf(log: seq<Decision>, id: nat): seq<DecisionType> {
    if log == [] then []
    else
      var last := log[|log| - 1];
      LogOf(log[..|log| - 1], id) + if last.approval == id then [last.decision] else []
  }

  /** The documented transitions: an open approval is settled, a pending one may be snoozed. */
  function Next(status: Status, d: DecisionType): Option<Status> {
    match d
    case Snooze => if status == Pending then Some(Snoozed) else None
    case Approve => if IsOpen(status) then Some(Approved) else None
    case Reject => if IsOpen(status) then Some(Rejected) else None
    case Cancel => if IsOpen(status) then Some(Cancelled) else None
    case Edit => None
  }

  /** Replay a decision log from PENDING; None when some entry was not allowed. */
  function Replay(ds: seq<DecisionType>): Option<Status> {
    if ds == [] then Some(Pending)
    else match Replay(ds[..|ds| - 1])
      case None => None
      case Some(status) => Next(status, ds[|ds| - 1])
  }

  ghost predicate OneOpenPerTarget(rows: seq<Approval>) {
    forall i, j :: 0 <= i < j < |rows| && rows[i].target == rows[j].target ==>
      !(IsOpen(rows[i].status) && IsOpen(rows[j].status))
  }

  ghost predicate LogExplains(s: Store, id: nat)
    requires id < |s.rows|
  {
    && Replay(LogOf(s.log, id)) == Some(s.rows[id].status)
    && (s.rows[id].snoozedUntil.Some? <==> s.rows[id].status == Snoozed)
  }

  ghost predicate Sound(s: Store) {
    && OneOpenPerTarget(s.rows)
    && (forall i :: 0 <= i < |s.rows| ==> LogExplains(s, i))
    && (forall k :: 0 <= k < |s.log| ==> s.log[k].approval < |s.rows|)
  }

  lemma LogOfAppend(log: seq<Decision>, e: Decision, id: nat)
    ensures LogOf(log + [e], id) == LogOf(log, id) + if e.approval == id then [e.decision] else []
  {
    assert (log + [e])[..|log|] == log;
  }

  /** An approval without log entries has an empty history. */
  lemma {:induction false} LogOfAbsent(log: seq<Decision>, id: nat)
    requires forall k :: 0 <= k < |log| ==> log[k].approval != id
    ensures LogOf(log, id) == []
  {
    if log != [] {
      assert forall k :: 0 <= k < |log| - 1 ==> log[..|log| - 1][k] == log[k];
      LogOfAbsent(log[..|log| - 1], id);
    }
  }

  lemma RequestSound(s: Store, target: Target)
    requires Sound(s)
    ensures Sound(Request(s, target).0)
    ensures Request(s, target).1.Ok?
  {
    var s' := Request(s, target).0;
    if |s'.rows| > |s.rows| {
      LogOfAbsent(s.log, |s.rows|);
      forall i | 0 <= i < |s'.rows| ensures LogExplains(s', i) {
        if i < |s.rows| {
          assert LogExplains(s, i);
        }
      }
    }
  }

  lemma DecideSound(s: Store, id: nat, d: DecisionType, until: Option<Time>, now: Time, wait: nat)
    requires Sound(s)
    ensures Sound(Decide(s, id, d, until, now, wait).0)
  {
    var s' := Decide(s, id, d, until, now, wait).0;
    if s' != s {
      forall i | 0 <= i < |s'.rows| ensures LogExplains(s', i) {
        assert LogExplains(s, i);
        LogOfAppend(s.log, Decision(id, d), i);
        if i == id {
          var ds := LogOf(s.log, i);
          assert (ds + [d])[..|ds|] == ds;
          assert LogOf(s'.log, i) == ds + [d];
          assert Replay(ds + [d]) == Next(s.rows[i].status, d);
        } else {
          assert LogOf(s'.log, i) == LogOf(s.log, i);
        }
      }
    }
  }

  // ------------------------------------------------------------------- whole runs

  datatype Op =
    | RequestOp(target: Target)
    | DecideOp(id: nat, decision: DecisionType, until: Option<Time>, now: Time, wait: nat)

  function Apply(s: Store, op: Op): Store {
    match op
    case RequestOp(target) => Request(s, target).0
    case DecideOp(id, d, until, now, wait) => Decide(s, id, d, until, now, wait).0
  }

  function Run(s: Store, ops: seq<Op>): Store {
    if ops == [] then s else Apply(Run(s, ops[..|ops| - 1]), ops[|ops| - 1])
  }

  /** What a legal log looks like: nothing, a snooze, one settlement, or a snooze then a settlement. */
  lemma ReplayShape(ds: seq<DecisionType>)
    requires Replay(ds).Some?
    ensures |ds| <= 2
    ensures |ds| == 2 ==> ds[0] == Snooze && ds[1] != Snooze
    ensures Replay(ds) == Some(Pending) <==> ds == []
    ensures Replay(ds) == Some(Snoozed) <==> ds == [Snooze]
    ensures ds != [] ==> Replay(ds) == Next(if |ds| == 1 then Pending else Snoozed, ds[|ds| - 1])
  {
    if |ds| > 1 {
      ReplayShape(ds[..|ds| - 1]);
    }
  }

  /**
   * Over any run of requests and decisions: one open approval per target, the
   * log replayed from PENDING gives the stored status after at most two
   * decisions, and a snooze time is stored exactly on snoozed rows.
   */
  lemma {:induction false} EveryRunIsSound(ops: seq<Op>)
    ensures var s := Run(Store([], []), ops);
            && OneOpenPerTarget(s.rows)
            && forall i :: 0 <= i < |s.rows| ==> LogExplains(s, i) && |LogOf(s.log, i)| <= 2
  {
    RunSound(ops);
    var s := Run(Store([], []), ops);
    forall i | 0 <= i < |s.rows| ensures |LogOf(s.log, i)| <= 2 {
      assert LogExplains(s, i);
      ReplayShape(LogOf(s.log, i));
    }
  }

  lemma {:induction false} RunSound(ops: seq<Op>)
    ensures Sound(Run(Store([], []), ops))
  {
    if ops != [] {
      RunSound(ops[..|ops| - 1]);
      var s := Run(Store([], []), ops[..|ops| - 1]);
      match ops[|ops| - 1]
      case RequestOp(target) => RequestSound(s, target);
      case DecideOp(id, d, until, now, wait) => DecideSound(s, id, d, until, now, wait);
    }
  }

  /** A settled approval never changes again, whatever is asked of the store. */
  lemma SettledIsFinal(s: Store, op: Op, id: nat)
    requires id < |s.rows| && !IsOpen(s.rows[id].status)
    ensures id < |Apply(s, op).rows| && Apply(s, op).rows[id] == s.rows[id]
  {
  }

  // ---------------------------------------------------------------------- service

  /** The approval service of one candidate, updating its rows in place. */
  class ApprovalService {
    var rows: seq<Approval>
    var log: seq<Decision>

    ghost function Contents(): Store
      reads this
    {
      Store(rows, log)
    }

    constructor ()
      ensures Contents() == Store([], [])
    {
      rows, log := [], [];
    }

    method RequestApproval(target: Target) returns (r: Result<nat, Error>)
      modifies this
      ensures (Contents(), r) == Request(old(Contents()), target)
    {
      var existing := GetOpen(rows, target);
      match existing
      case Err(e) => return Err(e);
      case Ok(Some(k)) => return Ok(k);
      case Ok(None) =>
        r := Ok(|rows|);
        rows := rows + [Approval(target, Pending, None, None, None)];
    }

    method DecideApproval(id: nat, d: DecisionType, until: Option<Time>, now: Time, wait: nat) returns (r: Result<(), Error>)
      modifies this
      ensures (Contents(), r) == Decide(old(Contents()), id, d, until, now, wait)
    {
      if id >= |rows| {
        return Err(NotFound);
      }
      var row := rows[id];
      if !IsOpen(row.status) {
        return Err(AlreadyDecided);
      }
      match d {
        case Snooze =>
          if row.status != Pending {
            return Err(OnlyPendingCanBeSnoozed);
          } else if until.None? {
            return Err(SnoozeNeedsUntil);
          } else if until.value <= now {
            return Err(SnoozeNotInFuture);
          }
          row := row.(status := Snoozed, snoozedUntil := until);
        case Approve => row := row.(status := Approved, snoozedUntil := None);
        case Reject => row := row.(status := Rejected, snoozedUntil := None);
        case Cancel => row := row.(status := Cancelled, snoozedUntil := None);
        case Edit => return Err(NotApplicable);
      }
      rows := rows[id := row.(decisionType := Some(d), decidedAt := Some(now + wait))];
      log := log + [Decision(id, d)];
      r := Ok(());
    }
  }
}
