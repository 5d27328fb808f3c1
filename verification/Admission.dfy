/** Admission under a concurrency limit: counts per binding and the leases that hold them (execution/control.py). */
module Admission {
  import opened Collections
  import opened PlanModel

  // ----- The ledger: what the controller and its leases amount to -----

  datatype LeaseState = LeaseState(bindingId: string, released: bool)

  datatype Ledger = Ledger(active: map<string, nat>, leases: seq<LeaseState>)

  /** One atomic step of some thread; a lease may be released any number of times. */
  datatype Step = Acquire(binding: ServiceBinding) | Release(lease: nat)

  const EMPTY := Ledger(map[], [])

  function ActiveCount(l: Ledger, id: string): nat {
    if id in l.active then l.active[id] else 0
  }

  /** A binding without a limit gets a lease that counts nothing. */
  predicate Counted(l: Ledger, b: ServiceBinding) {
    b.maxConcurrency.Some? && ActiveCount(l, b.Id()) < b.maxConcurrency.value
  }

  function AfterAcquire(l: Ledger, b: ServiceBinding): Ledger {
    if Counted(l, b) then Ledger(l.active[b.Id() := ActiveCount(l, b.Id()) + 1], l.leases + [LeaseState(b.Id(), false)])
    else l
  }

  function AfterRelease(l: Ledger, i: nat): Ledger {
    if i >= |l.leases| || l.leases[i].released then l
    else
      var id := l.leases[i].bindingId;
      Ledger(if ActiveCount(l, id) <= 1 then l.active - {id} else l.active[id := ActiveCount(l, id) - 1],
             l.leases[i := LeaseState(id, true)])
  }

  function After(l: Ledger, s: Step): Ledger {
    match s
    case Acquire(b) => AfterAcquire(l, b)
    case Release(i) => AfterRelease(l, i)
  }

  function Run(steps: seq<Step>): Ledger {
    if steps == [] then EMPTY else After(Run(steps[..|steps| - 1]), steps[|steps| - 1])
  }

  // ----- What every run keeps -----

  /** The leases on a binding that nobody has released yet. */
  function Outstanding(leases: seq<LeaseState>, id: string): nat {
    if leases == [] then 0
    else Outstanding(leases[..|leases| - 1], id)
         + (if leases[|leases| - 1] == LeaseState(id, false) then 1 else 0)
  }

  ghost predicate Balanced(l: Ledger) {
    forall id :: BalancedAt(l, id)
  }

  lemma {:induction false} OutstandingAfterRelease(leases: seq<LeaseState>, i: nat, id: string)
    requires i < |leases| && !leases[i].released
    ensures Outstanding(leases, leases[i].bindingId) > 0
    ensures Outstanding(leases[i := LeaseState(leases[i].bindingId, true)], id)
         == Outstanding(leases, id) - (if id == leases[i].bindingId then 1 else 0)
  {
    var n := |leases| - 1;
    var updated := leases[i := LeaseState(leases[i].bindingId, true)];
    if i == n {
      assert updated[..n] == leases[..n];
    } else {
      OutstandingAfterRelease(leases[..n], i, id);
      assert updated[..n] == leases[..n][i := LeaseState(leases[i].bindingId, true)];
    }
  }

  ghost predicate BalancedAt(l: Ledger, id: string) {
    ActiveCount(l, id) == Outstanding(l.leases, id) && (id in l.active <==> Outstanding(l.leases, id) > 0)
  }

  lemma AcquireBalanced(l: Ledger, b: ServiceBinding, id: string)
    requires BalancedAt(l, id)
    ensures BalancedAt(AfterAcquire(l, b), id)
  {
    hide ServiceBinding.Id;
    if Counted(l, b) {
      assert AfterAcquire(l, b).leases[..|l.leases|] == l.leases;
    }
  }

  lemma ReleaseBalanced(l: Ledger, i: nat, id: string)
    requires BalancedAt(l, id)
    ensures BalancedAt(AfterRelease(l, i), id)
  {
    hide Outstanding;
    if i < |l.leases| && !l.leases[i].released {
      OutstandingAfterRelease(l.leases, i, id);
      if id != l.leases[i].bindingId {
        assert AfterRelease(l, i).active - {l.leases[i].bindingId} == l.active - {l.leases[i].bindingId};
      }
    }
  }

  lemma StepBalanced(l: Ledger, s: Step)
    requires Balanced(l)
    ensures Balanced(After(l, s))
  {
    hide AfterAcquire, AfterRelease, Outstanding;
    forall id ensures BalancedAt(After(l, s), id) {
      assert BalancedAt(l, id);
      match s
      case Acquire(b) => AcquireBalanced(l, b, id);
      case Release(i) => ReleaseBalanced(l, i, id);
    }
  }

  /** The limits a binding id was acquired under never exceed `m`. */
  predicate LimitedTo(steps: seq<Step>, id: string, m: nat) {
    forall s :: s in steps && s.Acquire? && s.binding.Id() == id && s.binding.maxConcurrency.Some? ==>
      s.binding.maxConcurrency.value <= m
  }

  /**
   * Over every interleaving of acquire and release steps the count kept for a binding is the number of its outstanding
   * leases, the binding is listed exactly while it has any, and the count never passes the binding's limit.
   */
  lemma {:induction false} LedgerBalances(steps: seq<Step>)
    ensures Balanced(Run(steps))
    ensures forall id, m: nat :: LimitedTo(steps, id, m) ==> Outstanding(Run(steps).leases, id) <= m
  {
    if steps != [] {
      var n := |steps| - 1;
      var l, s := Run(steps[..n]), steps[n];
      LedgerBalances(steps[..n]);
      StepBalanced(l, s);
      forall id, m: nat | LimitedTo(steps, id, m) ensures Outstanding(Run(steps).leases, id) <= m {
        assert LimitedTo(steps[..n], id, m) && BalancedAt(l, id);
        assert s in steps;
        if s.Acquire? && Counted(l, s.binding) {
          assert After(l, s).leases[..|l.leases|] == l.leases;
        }
        if s.Release? && s.lease < |l.leases| && !l.leases[s.lease].released {
          OutstandingAfterRelease(l.leases, s.lease, id);
        }
      }
    }
  }

  lemma {:induction false} NoneOutstanding(leases: seq<LeaseState>, id: string)
    requires forall i :: 0 <= i < |leases| ==> leases[i].released
    ensures Outstanding(leases, id) == 0
  {
    if leases != [] { NoneOutstanding(leases[..|leases| - 1], id); }
  }

  /** Once every lease has been released the controller is back where it started, so the full limit is available again. */
  lemma DrainedIsEmpty(steps: seq<Step>)
    requires forall i :: 0 <= i < |Run(steps).leases| ==> Run(steps).leases[i].released
    ensures Run(steps).active == map[]
  {
    LedgerBalances(steps);
    forall id ensures id !in Run(steps).active {
      assert BalancedAt(Run(steps), id);
      NoneOutstanding(Run(steps).leases, id);
    }
  }

  /** A refusal means exactly that the limit's worth of leases is outstanding. */
  lemma RefusedIffFull(steps: seq<Step>, b: ServiceBinding)
    requires b.maxConcurrency.Some?
    ensures Counted(Run(steps), b) <==> Outstanding(Run(steps).leases, b.Id()) < b.maxConcurrency.value
  {
    LedgerBalances(steps);
    assert BalancedAt(Run(steps), b.Id());
  }

  /** Releasing a lease again, at any later time, changes nothing. */
  lemma {:induction false} ReleaseOnce(steps: seq<Step>, later: seq<Step>, i: nat)
    requires i < |Run(steps).leases|
    ensures i < |Run(steps + [Release(i)] + later).leases| && Run(steps + [Release(i)] + later).leases[i].released
    ensures Run(steps + [Release(i)] + later + [Release(i)]) == Run(steps + [Release(i)] + later)
  {
    var all := steps + [Release(i)] + later;
    if later == [] {
      assert all[..|all| - 1] == steps;
    } else {
      var front := later[..|later| - 1];
      ReleaseOnce(steps, front, i);
      assert all[..|all| - 1] == steps + [Release(i)] + front;
      assert all[|all| - 1] == later[|later| - 1];
    }
    assert (all + [Release(i)])[..|all|] == all;
  }

  // ----- The controller -----

  datatype Reply = Refused | Unlimited | Leased(lease: ConcurrencyLease)

  class ConcurrencyLease {
    const controller: Controller
    const bindingId: string
    var released: bool

    constructor (controller: Controller, bindingId: string)
      ensures this.controller == controller && this.bindingId == bindingId && !released
    {
      this.controller, this.bindingId, released := controller, bindingId, false;
    }

    method Release()
      requires controller.Valid() && this in controller.issued
      modifies this, controller
      ensures controller.Valid() && controller.issued == old(controller.issued)
      ensures controller.View() == AfterRelease(old(controller.View()), controller.Position(this))
    {
      ghost var before, i := controller.View(), controller.Position(this);
      if released {
        return;
      }
      released := true;
      controller.ReleaseCount(bindingId);
      assert controller.View().leases == before.leases[i := LeaseState(bindingId, true)];
    }
  }

  class Controller {
    var active: map<string, nat>
    ghost var issued: seq<ConcurrencyLease>

    ghost predicate Valid()
      reads this, issued
    {
      Distinct(issued) && forall l :: l in issued ==> l.controller == this
    }

    ghost function View(): Ledger
      reads this, issued
    {
      Ledger(active, seq(|issued|, i requires 0 <= i < |issued| reads this, issued => LeaseState(issued[i].bindingId, issued[i].released)))
    }

    ghost function Position(lease: ConcurrencyLease): (i: nat)
      requires lease in issued
      reads this
      ensures i < |issued| && issued[i] == lease
    {
      IndexOf(issued, lease)
    }

    constructor ()
      ensures Valid() && View() == EMPTY && fresh(issued)
    {
      active, issued := map[], [];
    }

    method TryAcquire(b: ServiceBinding) returns (reply: Reply)
      requires Valid()
      modifies this
      ensures Valid()
      ensures reply.Unlimited? <==> b.maxConcurrency.None?
      ensures reply.Leased? <==> Counted(old(View()), b)
      ensures reply.Leased? ==> fresh(reply.lease) && issued == old(issued) + [reply.lease] && reply.lease.controller == this
      ensures !reply.Leased? ==> issued == old(issued)
      ensures View() == AfterAcquire(old(View()), b)
    {
      if b.maxConcurrency.None? {
        return Unlimited;
      }
      var count := if b.Id() in active then active[b.Id()] else 0;
      if count >= b.maxConcurrency.value {
        return Refused;
      }
      ghost var before := View();
      active := active[b.Id() := count + 1];
      var lease := new ConcurrencyLease(this, b.Id());
      issued := issued + [lease];
      assert View().leases == before.leases + [LeaseState(b.Id(), false)];
      return Leased(lease);
    }

    /** Gives back one unit of a binding's count. */
    method ReleaseCount(id: string)
      modifies this`active
      ensures active == var count := if id in old(active) then old(active)[id] else 0;
                        if count <= 1 then old(active) - {id} else old(active)[id := count - 1]
    {
      var count := if id in active then active[id] else 0;
      if count <= 1 {
        active := active - {id};
      } else {
        active := active[id := count - 1];
      }
    }
  }
}
