/** Webhook delivery: emit and deliver_pending of backend/app/webhooks/service.py. */
module Webhooks {
  const MAX_ATTEMPTS: nat := 5
  const PASS_LIMIT: nat := 100

  datatype Status = Pending | Delivered | Failed

  datatype Delivery = Delivery(hook: nat, event: string, status: Status, attempts: nat)

  datatype Hook = Hook(id: nat, enabled: bool, events: set<string>)

  /** What happens to one picked row: its hook is gone or disabled, or the POST was answered or not. */
  datatype Attempt = NoHook | Success | Refused | Raised

  const EVENTS := {"shift.started", "shift.paused", "shift.resumed", "shift.ended",
                   "attendance.late", "attendance.absent", "timesheet.approved", "alert.created"}

  predicate IsKnown(event: string) {
    event == "shift.started" || event == "shift.paused" || event == "shift.resumed" || event == "shift.ended" ||
    event == "attendance.late" || event == "attendance.absent" || event == "timesheet.approved" ||
    event == "alert.created"
  }

  // ---------- emission ----------

  predicate Subscribed(h: Hook, event: string) {
    h.enabled && event in h.events
  }

  function Emitted(hooks: seq<Hook>, event: string): seq<Delivery> {
    if hooks == [] then []
    else Emitted(hooks[..|hooks| - 1], event) +
         (if Subscribed(hooks[|hooks| - 1], event) then [Delivery(hooks[|hooks| - 1].id, event, Pending, 0)] else [])
  }

  /** An emission queues one fresh pending row for each enabled subscriber, and only for known events. */
  lemma {:induction false} EmissionReachesSubscribers(hooks: seq<Hook>, event: string, id: nat)
    ensures forall d :: d in Emitted(hooks, event) ==> d.event == event && d.status == Pending && d.attempts == 0
    ensures (exists h :: h in hooks && h.enabled && event in h.events && h.id == id) <==>
            (exists d :: d in Emitted(hooks, event) && d.hook == id)
    ensures |Emitted(hooks, event)| <= |hooks|
  {
    if hooks != [] {
      var n := |hooks| - 1;
      EmissionReachesSubscribers(hooks[..n], event, id);
      assert hooks == hooks[..n] + [hooks[n]];
      var before, after := Emitted(hooks[..n], event), Emitted(hooks, event);
      if h :| h in hooks && Subscribed(h, event) && h.id == id {
        if h in hooks[..n] {
          var d :| d in before && d.hook == id;
          assert d in after;
        } else {
          assert Delivery(id, event, Pending, 0) in after;
        }
      }
    }
  }

  // ---------- one pass ----------

  function Try(d: Delivery, a: Attempt): Delivery {
    match a
    case NoHook => d.(status := Failed)
    case Success => d.(attempts := d.attempts + 1, status := Delivered)
    case Refused | Raised =>
      d.(attempts := d.attempts + 1, status := if d.attempts + 1 >= MAX_ATTEMPTS then Failed else d.status)
  }

  /** A row the query returned and what became of it. */
  datatype Pick = Pick(row: nat, attempt: Attempt)

  /** The number of pending rows. */
  function Open(ds: seq<Delivery>): nat {
    if ds == [] then 0 else Open(ds[..|ds| - 1]) + (if ds[|ds| - 1].status.Pending? then 1 else 0)
  }

  /** The picked rows are pending ones, each once. */
  ghost predicate PicksPending(ds: seq<Delivery>, picks: seq<Pick>) {
    (forall i :: 0 <= i < |picks| ==> picks[i].row < |ds| && ds[picks[i].row].status.Pending?) &&
    (forall i, j :: 0 <= i < j < |picks| ==> picks[i].row != picks[j].row)
  }

  /** One pass of the worker: any 100 of the pending rows, or all of them if there are fewer. */
  ghost predicate IsPass(ds: seq<Delivery>, picks: seq<Pick>) {
    PicksPending(ds, picks) && |picks| == if Open(ds) <= 100 then Open(ds) else 100
  }

  function Pass(ds: seq<Delivery>, picks: seq<Pick>): (r: seq<Delivery>)
    ensures |r| == |ds|
  {
    if picks == [] then ds
    else
      var before, p := Pass(ds, picks[..|picks| - 1]), picks[|picks| - 1];
      if p.row < |ds| then before[p.row := Try(before[p.row], p.attempt)] else before
  }

  /** How many of the picked rows were answered with success. */
  function Successes(picks: seq<Pick>): nat {
    if picks == [] then 0 else Successes(picks[..|picks| - 1]) + (if picks[|picks| - 1].attempt.Success? then 1 else 0)
  }

  function CountDelivered(ds: seq<Delivery>): nat {
    if ds == [] then 0 else CountDelivered(ds[..|ds| - 1]) + (if ds[|ds| - 1].status.Delivered? then 1 else 0)
  }

  lemma {:induction false} DeliveredAfterUpdate(ds: seq<Delivery>, i: nat, d: Delivery)
    requires i < |ds|
    ensures CountDelivered(ds[i := d]) + (if ds[i].status.Delivered? then 1 else 0) ==
            CountDelivered(ds) + (if d.status.Delivered? then 1 else 0)
  {
    var n := |ds| - 1;
    if i < n {
      DeliveredAfterUpdate(ds[..n], i, d);
      assert ds[i := d][..n] == ds[..n][i := d];
    } else {
      assert ds[i := d][..n] == ds[..n];
    }
  }

  /** The successes of a pass are the rows that it newly turns to delivered. */
  lemma {:induction false} SuccessesAreDelivered(ds: seq<Delivery>, picks: seq<Pick>)
    requires PicksPending(ds, picks)
    ensures CountDelivered(Pass(ds, picks)) == CountDelivered(ds) + Successes(picks)
  {
    if picks != [] {
      var n := |picks| - 1;
      var before, p := Pass(ds, picks[..n]), picks[n];
      SuccessesAreDelivered(ds, picks[..n]);
      PassIsPointwise(ds, picks[..n], p.row);
      assert before[p.row] == ds[p.row];
      DeliveredAfterUpdate(before, p.row, Try(before[p.row], p.attempt));
    }
  }

  function Passes(ds: seq<Delivery>, rounds: seq<seq<Pick>>): (r: seq<Delivery>)
    ensures |r| == |ds|
  {
    if rounds == [] then ds else Pass(Passes(ds, rounds[..|rounds| - 1]), rounds[|rounds| - 1])
  }

  /** Successive passes with no emission in between, whatever they pick and whatever is answered. */
  ghost predicate ArePasses(ds: seq<Delivery>, rounds: seq<seq<Pick>>) {
    rounds == [] ||
    (ArePasses(ds, rounds[..|rounds| - 1]) && IsPass(Passes(ds, rounds[..|rounds| - 1]), rounds[|rounds| - 1]))
  }

  /** Attempts stay below the limit as long as a row is pending. */
  ghost predicate Bounded(ds: seq<Delivery>) {
    forall i :: 0 <= i < |ds| && ds[i].status.Pending? ==> ds[i].attempts < MAX_ATTEMPTS
  }

  lemma {:induction false} PassIsPointwise(ds: seq<Delivery>, picks: seq<Pick>, i: nat)
    requires PicksPending(ds, picks) && i < |ds|
    ensures (forall k :: 0 <= k < |picks| ==> picks[k].row != i) ==> Pass(ds, picks)[i] == ds[i]
    ensures forall k :: 0 <= k < |picks| && picks[k].row == i ==> Pass(ds, picks)[i] == Try(ds[i], picks[k].attempt)
  {
    if picks != [] {
      var n := |picks| - 1;
      PassIsPointwise(ds, picks[..n], i);
      assert forall k :: 0 <= k < n ==> picks[..n][k] == picks[k];
    }
  }

  // ---------- what passes keep ----------

  /** A settled row never changes; a pending one is either untouched or tried. */
  ghost predicate Advances(ds: seq<Delivery>, later: seq<Delivery>) {
    |later| == |ds| &&
    forall i :: 0 <= i < |ds| ==>
      later[i] == ds[i] || (ds[i].status.Pending? && exists a :: later[i] == Try(ds[i], a))
  }

  lemma PassAdvances(ds: seq<Delivery>, picks: seq<Pick>)
    requires PicksPending(ds, picks)
    ensures Advances(ds, Pass(ds, picks))
  {
    var later := Pass(ds, picks);
    forall i | 0 <= i < |ds|
      ensures later[i] == ds[i] || (ds[i].status.Pending? && exists a :: later[i] == Try(ds[i], a))
    {
      PassIsPointwise(ds, picks, i);
      if k :| 0 <= k < |picks| && picks[k].row == i {
        assert later[i] == Try(ds[i], picks[k].attempt);
      }
    }
  }

  lemma AdvancingKeepsBounds(ds: seq<Delivery>, later: seq<Delivery>)
    requires Advances(ds, later) && Bounded(ds)
    ensures Bounded(later)
    ensures forall i :: 0 <= i < |ds| && !ds[i].status.Pending? ==> later[i] == ds[i]
  {
  }

  /** Over any passes: delivered and failed are final, and pending means fewer than five attempts. */
  lemma {:induction false} SettledIsFinal(ds: seq<Delivery>, rounds: seq<seq<Pick>>)
    requires Bounded(ds) && ArePasses(ds, rounds)
    ensures Bounded(Passes(ds, rounds))
    ensures forall i :: 0 <= i < |ds| && !ds[i].status.Pending? ==> Passes(ds, rounds)[i] == ds[i]
  {
    if rounds != [] {
      var n := |rounds| - 1;
      SettledIsFinal(ds, rounds[..n]);
      var mid := Passes(ds, rounds[..n]);
      PassAdvances(mid, rounds[n]);
      AdvancingKeepsBounds(mid, Pass(mid, rounds[n]));
    }
  }

  // ---------- one row over many passes ----------

  /** What happened to row i in the passes, in order; a pass that does not pick it adds nothing. */
  function Fate(rounds: seq<seq<Pick>>, i: nat): seq<Attempt> {
    if rounds == [] then [] else Fate(rounds[..|rounds| - 1], i) + FateIn(rounds[|rounds| - 1], i)
  }

  function FateIn(picks: seq<Pick>, i: nat): seq<Attempt> {
    if picks == [] then []
    else FateIn(picks[..|picks| - 1], i) + (if picks[|picks| - 1].row == i then [picks[|picks| - 1].attempt] else [])
  }

  predicate IsAnswer(a: Attempt) {
    a.Refused? || a.Raised?
  }

  /**
    A fresh row is delivered exactly when its last attempt succeeded, failed exactly when its hook
    was missing or its fifth attempt was refused too, and is pending otherwise; it counts the
    attempts that were really sent.
  */
  ghost predicate FollowsFate(d: Delivery, fate: seq<Attempt>) {
    |fate| <= MAX_ATTEMPTS &&
    (forall k :: 0 <= k < |fate| - 1 ==> IsAnswer(fate[k])) &&
    (d.status.Delivered? <==> fate != [] && fate[|fate| - 1].Success?) &&
    (d.status.Failed? <==> fate != [] && (fate[|fate| - 1].NoHook? || (IsAnswer(fate[|fate| - 1]) && |fate| == 5))) &&
    d.attempts == |fate| - (if fate != [] && fate[|fate| - 1].NoHook? then 1 else 0)
  }

  lemma {:induction false} FateInOnce(ds: seq<Delivery>, picks: seq<Pick>, i: nat)
    requires PicksPending(ds, picks) && i < |ds|
    ensures (forall k :: 0 <= k < |picks| ==> picks[k].row != i) ==> FateIn(picks, i) == []
    ensures forall k :: 0 <= k < |picks| && picks[k].row == i ==> FateIn(picks, i) == [picks[k].attempt]
  {
    if picks != [] {
      var n := |picks| - 1;
      FateInOnce(ds, picks[..n], i);
      assert forall k :: 0 <= k < n ==> picks[..n][k] == picks[k];
    }
  }

  lemma FateGrows(d: Delivery, fate: seq<Attempt>, a: Attempt)
    requires FollowsFate(d, fate) && d.status.Pending?
    ensures FollowsFate(Try(d, a), fate + [a])
  {
  }

  lemma {:induction false} RowFollowsItsFate(ds: seq<Delivery>, rounds: seq<seq<Pick>>, i: nat)
    requires ArePasses(ds, rounds) && i < |ds| && ds[i].status.Pending? && ds[i].attempts == 0
    ensures FollowsFate(Passes(ds, rounds)[i], Fate(rounds, i))
  {
    if rounds != [] {
      var n := |rounds| - 1;
      var mid, picks := Passes(ds, rounds[..n]), rounds[n];
      RowFollowsItsFate(ds, rounds[..n], i);
      PassIsPointwise(mid, picks, i);
      FateInOnce(mid, picks, i);
      if k :| 0 <= k < |picks| && picks[k].row == i {
        FateGrows(mid[i], Fate(rounds[..n], i), picks[k].attempt);
      } else {
        assert Fate(rounds[..n], i) + [] == Fate(rounds[..n], i);
      }
    }
  }

  // ---------- settlement ----------

  /** Attempts the row can still use. */
  function Budget(d: Delivery): nat {
    if d.status.Pending? && d.attempts < MAX_ATTEMPTS then MAX_ATTEMPTS - d.attempts else 0
  }

  function TotalBudget(ds: seq<Delivery>): nat {
    if ds == [] then 0 else TotalBudget(ds[..|ds| - 1]) + Budget(ds[|ds| - 1])
  }

  lemma TrySpends(d: Delivery, a: Attempt)
    requires d.status.Pending? && d.attempts < MAX_ATTEMPTS
    ensures Budget(Try(d, a)) + 1 <= Budget(d)
  {
  }

  lemma {:induction false} UpdateBudget(ds: seq<Delivery>, i: nat, d: Delivery)
    requires i < |ds|
    ensures TotalBudget(ds[i := d]) == TotalBudget(ds) - Budget(ds[i]) + Budget(d)
  {
    var n := |ds| - 1;
    if i < n {
      UpdateBudget(ds[..n], i, d);
      assert ds[i := d][..n] == ds[..n][i := d];
    } else {
      assert ds[i := d][..n] == ds[..n];
    }
  }

  /** Every pick of a pass uses up at least one attempt of the total budget. */
  lemma {:induction false} PassSpends(ds: seq<Delivery>, picks: seq<Pick>)
    requires Bounded(ds) && PicksPending(ds, picks)
    ensures TotalBudget(Pass(ds, picks)) + |picks| <= TotalBudget(ds)
  {
    if picks != [] {
      var n := |picks| - 1;
      var before, p := Pass(ds, picks[..n]), picks[n];
      PassSpends(ds, picks[..n]);
      PassIsPointwise(ds, picks[..n], p.row);
      assert before[p.row] == ds[p.row];
      TrySpends(ds[p.row], p.attempt);
      UpdateBudget(before, p.row, Try(ds[p.row], p.attempt));
    }
  }

  lemma {:induction false} BudgetPerRow(ds: seq<Delivery>)
    requires Bounded(ds)
    ensures TotalBudget(ds) <= MAX_ATTEMPTS * Open(ds)
  {
    if ds != [] {
      assert forall i :: 0 <= i < |ds| - 1 ==> ds[..|ds| - 1][i] == ds[i];
      BudgetPerRow(ds[..|ds| - 1]);
    }
  }

  lemma {:induction false} OpenShrinks(ds: seq<Delivery>, later: seq<Delivery>)
    requires Advances(ds, later)
    ensures Open(later) <= Open(ds)
  {
    if ds != [] {
      var n := |ds| - 1;
      assert forall i :: 0 <= i < n ==> ds[..n][i] == ds[i] && later[..n][i] == later[i];
      OpenShrinks(ds[..n], later[..n]);
    }
  }

  function PendingRows(ds: seq<Delivery>): set<nat> {
    set i: nat | i < |ds| && ds[i].status.Pending?
  }

  lemma {:induction false} OpenCounts(ds: seq<Delivery>)
    ensures Open(ds) == |PendingRows(ds)|
  {
    if ds != [] {
      var n := |ds| - 1;
      OpenCounts(ds[..n]);
      assert PendingRows(ds) == PendingRows(ds[..n]) + (if ds[n].status.Pending? then {n} else {});
    }
  }

  function Rows(picks: seq<Pick>): set<nat> {
    set p | p in picks :: p.row
  }

  lemma LastPickIsNew(ds: seq<Delivery>, picks: seq<Pick>, p: Pick)
    requires PicksPending(ds, picks + [p])
    ensures PicksPending(ds, picks) && p.row !in Rows(picks) && p.row in PendingRows(ds)
  {
    var all := picks + [p];
    assert all[|picks|] == p && forall i :: 0 <= i < |picks| ==> all[i] == picks[i];
  }

  lemma NoRows()
    ensures Rows([]) == {}
  {
  }

  lemma RowsMore(picks: seq<Pick>, p: Pick)
    ensures Rows(picks + [p]) == Rows(picks) + {p.row}
  {
  }

  lemma {:induction false} PicksCount(ds: seq<Delivery>, picks: seq<Pick>)
    requires PicksPending(ds, picks)
    ensures |Rows(picks)| == |picks| && Rows(picks) <= PendingRows(ds)
  {
    NoRows();
    hide *;
    if picks != [] {
      var n := |picks| - 1;
      var rest, last := picks[..n], picks[n];
      assert picks == rest + [last];
      LastPickIsNew(ds, rest, last);
      PicksCount(ds, rest);
      RowsMore(rest, last);
    }
  }

  lemma SameSizeSubset(a: set<nat>, b: set<nat>)
    requires a <= b && |a| == |b|
    ensures a == b
  {
    assert b == a + (b - a);
  }

  /** Every row has at most m attempts left. */
  ghost predicate Near(ds: seq<Delivery>, m: nat) {
    forall i :: 0 <= i < |ds| ==> Budget(ds[i]) <= m
  }

  /** When at most 100 rows are pending a pass tries all of them. */
  lemma SmallPassBringsAllNearer(ds: seq<Delivery>, picks: seq<Pick>, m: nat)
    requires Bounded(ds) && IsPass(ds, picks) && Open(ds) <= PASS_LIMIT && Near(ds, m)
    ensures Near(Pass(ds, picks), if m == 0 then 0 else m - 1)
  {
    OpenCounts(ds);
    PicksCount(ds, picks);
    SameSizeSubset(Rows(picks), PendingRows(ds));
    forall i | 0 <= i < |ds| ensures Budget(Pass(ds, picks)[i]) <= if m == 0 then 0 else m - 1 {
      PassIsPointwise(ds, picks, i);
      if ds[i].status.Pending? {
        assert i in Rows(picks);
        var p :| p in picks && p.row == i;
        var k :| 0 <= k < |picks| && picks[k] == p;
        TrySpends(ds[i], p.attempt);
      }
    }
  }

  /** After k passes: still over 100 rows and 100k attempts spent, or all rows within 5 passes of settling. */
  lemma {:induction false} PassesProgress(ds: seq<Delivery>, rounds: seq<seq<Pick>>)
    requires Bounded(ds) && ArePasses(ds, rounds)
    ensures var later := Passes(ds, rounds);
            var busy := TotalBudget(ds) / PASS_LIMIT;
            Bounded(later) &&
            if Open(later) > PASS_LIMIT then TotalBudget(later) + PASS_LIMIT * |rounds| <= TotalBudget(ds)
            else Near(later, if |rounds| <= busy then MAX_ATTEMPTS
                             else if |rounds| - busy >= MAX_ATTEMPTS then 0
                             else MAX_ATTEMPTS - (|rounds| - busy))
  {
    hide Bounded, Near, Advances, PicksPending, Pass, TotalBudget, Open;
    SettledIsFinal(ds, rounds);
    if rounds == [] {
      FiveIsEnough(ds);
    } else {
      var n := |rounds| - 1;
      PassesProgress(ds, rounds[..n]);
      var mid := Passes(ds, rounds[..n]);
      SettledIsFinal(ds, rounds[..n]);
      PassAdvances(mid, rounds[n]);
      OpenShrinks(mid, Pass(mid, rounds[n]));
      PassSpends(mid, rounds[n]);
      FiveIsEnough(Pass(mid, rounds[n]));
      if Open(mid) <= PASS_LIMIT {
        var busy := TotalBudget(ds) / PASS_LIMIT;
        SmallPassBringsAllNearer(mid, rounds[n],
          if n <= busy then MAX_ATTEMPTS else if n - busy >= MAX_ATTEMPTS then 0 else MAX_ATTEMPTS - (n - busy));
      }
    }
  }

  lemma FiveIsEnough(ds: seq<Delivery>)
    ensures Near(ds, MAX_ATTEMPTS)
  {
  }

  lemma {:induction false} NearZeroIsSettled(ds: seq<Delivery>)
    requires Bounded(ds) && Near(ds, 0)
    ensures Open(ds) == 0
  {
    if ds != [] {
      assert forall i :: 0 <= i < |ds| - 1 ==> ds[..|ds| - 1][i] == ds[i];
      assert Budget(ds[|ds| - 1]) == 0;
      NearZeroIsSettled(ds[..|ds| - 1]);
    }
  }

  /**
    With no new emissions, n pending deliveries are all settled after n/20 + 5 passes, whichever
    rows each pass picks and whatever every POST returns.
  */
  lemma AllSettle(ds: seq<Delivery>, rounds: seq<seq<Pick>>)
    requires Bounded(ds) && ArePasses(ds, rounds) && |rounds| >= Open(ds) / 20 + 5
    ensures Open(Passes(ds, rounds)) == 0
  {
    PassesProgress(ds, rounds);
    BudgetPerRow(ds);
    var later := Passes(ds, rounds);
    OpenWithinBudget(later);
    if Open(later) <= PASS_LIMIT { NearZeroIsSettled(later); }
  }

  lemma {:induction false} OpenWithinBudget(ds: seq<Delivery>)
    requires Bounded(ds)
    ensures Open(ds) <= TotalBudget(ds)
  {
    if ds != [] {
      assert forall i :: 0 <= i < |ds| - 1 ==> ds[..|ds| - 1][i] == ds[i];
      OpenWithinBudget(ds[..|ds| - 1]);
    }
  }

  // ---------- the worker ----------

  lemma NoPicksYet(ds: seq<Delivery>)
    ensures forall picks: seq<Pick> :: picks == [] ==> Pass(ds, picks) == ds && Successes(picks) == 0
  {
  }

  lemma OneMorePick(ds: seq<Delivery>, picks: seq<Pick>, p: Pick)
    requires p.row < |ds|
    ensures Pass(ds, picks + [p]) == Pass(ds, picks)[p.row := Try(Pass(ds, picks)[p.row], p.attempt)]
    ensures Successes(picks + [p]) == Successes(picks) + (if p.attempt.Success? then 1 else 0)
  {
    assert (picks + [p])[..|picks|] == picks;
  }

  class WebhookQueue {
    var deliveries: seq<Delivery>

    constructor ()
      ensures deliveries == []
    {
      deliveries := [];
    }

    /** Queues a row per enabled subscriber of a known event and returns how many. */
    method Emit(hooks: seq<Hook>, event: string) returns (queued: nat)
      requires Bounded(deliveries)
      modifies this
      ensures Bounded(deliveries)
      ensures deliveries == old(deliveries) + if IsKnown(event) then Emitted(hooks, event) else []
      ensures queued == |deliveries| - |old(deliveries)|
    {
      queued := 0;
      if event !in EVENTS { return; }
      for i := 0 to |hooks|
        invariant deliveries == old(deliveries) + Emitted(hooks[..i], event)
        invariant queued == |deliveries| - |old(deliveries)|
        invariant Bounded(deliveries)
      {
        assert hooks[..i + 1][..i] == hooks[..i];
        if !hooks[i].enabled || event !in hooks[i].events { continue; }
        deliveries := deliveries + [Delivery(hooks[i].id, event, Pending, 0)];
        queued := queued + 1;
      }
      assert hooks[..|hooks|] == hooks;
    }

    /** One picked row: a missing hook fails it, a 2xx settles it, the fifth other answer fails it. */
    method TryOnce(d: Delivery, attempt: Attempt) returns (r: Delivery, ok: bool)
      ensures r == Try(d, attempt) && (ok <==> attempt.Success?)
    {
      if attempt.NoHook? { return d.(status := Failed), false; }
      r, ok := d.(attempts := d.attempts + 1), false;
      if attempt.Success? {
        r, ok := r.(status := Delivered), true;
      } else if r.attempts >= MAX_ATTEMPTS {
        r := r.(status := Failed);
      }
    }

    /** One pass over the rows the query returned, with what became of each. */
    method DeliverPending(picks: seq<Pick>) returns (delivered: nat)
      requires Bounded(deliveries) && IsPass(deliveries, picks)
      modifies this
      ensures Bounded(deliveries) && deliveries == Pass(old(deliveries), picks)
      ensures Advances(old(deliveries), deliveries)
      ensures delivered == Successes(picks) == CountDelivered(deliveries) - CountDelivered(old(deliveries))
    {
      delivered := 0;
      PassAdvances(deliveries, picks);
      SuccessesAreDelivered(deliveries, picks);
      AdvancingKeepsBounds(deliveries, Pass(deliveries, picks));
      assert forall i :: 0 <= i < |picks| ==> picks[i].row < |deliveries|;
      hide Bounded, Advances, IsPass, PicksPending, Pass, Successes, Try, CountDelivered;
      NoPicksYet(deliveries);
      for i := 0 to |picks|
        invariant deliveries == Pass(old(deliveries), picks[..i]) && delivered == Successes(picks[..i])
      {
        assert picks[..i + 1] == picks[..i] + [picks[i]];
        OneMorePick(old(deliveries), picks[..i], picks[i]);
        var d, ok := TryOnce(deliveries[picks[i].row], picks[i].attempt);
        deliveries := deliveries[picks[i].row := d];
        if ok { delivered := delivered + 1; }
      }
      assert picks[..|picks|] == picks;
    }
  }
}
