// Billing: the service's subscription rows and invoices against the mock provider's own
// in-memory state, and the plan that quota checks enforce.
module Billing {
  import opened Wrappers

  // ---------- Plans ----------

  datatype PlanTier = Free | Pro | Business | Enterprise

  function PriceCents(p: PlanTier): nat {
    match p case Free => 0 case Pro => 4_900 case Business => 19_900 case Enterprise => 99_900
  }

  /** -1 is unlimited. */
  function MonthlyRequestLimit(p: PlanTier): int {
    match p case Free => 1_000 case Pro => 50_000 case Business => 500_000 case Enterprise => -1
  }

  datatype Status = Active | Trialing | PastDue | Cancelled

  datatype BillingError =
    | UnknownCheckoutSession
    | ProviderSubscriptionNotFound
    | SubscriptionNotFound
    | NoProviderSubscription

  // ---------- State ----------

  /** The provider's record of a subscription. */
  datatype Info = Info(plan: PlanTier, status: Status, cancelAtPeriodEnd: bool, start: int, end: int, customer: nat)

  datatype ProviderInvoice = ProviderInvoice(id: nat, amountCents: nat)

  /** `nextId` idealises uuid4: every id handed out is new. */
  datatype Provider = Provider(
    subscriptions: map<nat, Info>, invoices: map<nat, seq<ProviderInvoice>>, sessions: set<string>, nextId: nat)

  datatype Row = Row(tenant: nat, info: Info, providerId: Option<nat>, createdAt: int)

  datatype Invoice = Invoice(tenant: nat, providerInvoice: ProviderInvoice)

  datatype State = State(provider: Provider, rows: seq<Row>, invoices: seq<Invoice>)

  const EMPTY := State(Provider(map[], map[], {}, 0), [], [])

  const PERIOD_DAYS: int := 30

  predicate IsOpen(s: Status) {
    s.Active? || s.Trialing? || s.PastDue?
  }

  /** SELECT ... WHERE tenant AND accepted(status) ORDER BY created_at DESC LIMIT 1 */
  function Latest(rows: seq<Row>, tenant: nat, accepted: Status -> bool): (i: Option<nat>)
    ensures i.Some? ==> i.value < |rows| && rows[i.value].tenant == tenant && accepted(rows[i.value].info.status)
    ensures i.None? ==> forall k :: 0 <= k < |rows| ==> !(rows[k].tenant == tenant && accepted(rows[k].info.status))
    ensures i.Some? ==> forall k :: 0 <= k < |rows| && rows[k].tenant == tenant && accepted(rows[k].info.status) ==>
                          rows[k].createdAt <= rows[i.value].createdAt
  {
    if rows == [] then None
    else
      var n := |rows| - 1;
      var best := Latest(rows[..n], tenant, accepted);
      if !(rows[n].tenant == tenant && accepted(rows[n].info.status)) then best
      else if best.Some? && rows[best.value].createdAt > rows[n].createdAt then best
      else Some(n)
  }

  // ---------- Operations ----------

  const PREFIX := "mock_cs_"

  function Checkout(s: State, token: string): State {
    s.(provider := s.provider.(sessions := s.provider.sessions + {PREFIX + token}))
  }

  function Activate(s: State, tenant: nat, plan: PlanTier, session: string, now: int): Result<State, BillingError> {
    if session !in s.provider.sessions && !(PREFIX <= session) then Err(UnknownCheckoutSession)
    else
      var id := s.provider.nextId;
      var info := Info(plan, Active, false, now, now + PERIOD_DAYS, tenant);
      var provider := s.provider.(subscriptions := s.provider.subscriptions[id := info],
                                  invoices := s.provider.invoices[id := []], nextId := id + 1);
      Ok(State(provider, Upserted(s.rows, tenant, info, id, now), s.invoices))
  }

  function Upserted(rows: seq<Row>, tenant: nat, info: Info, id: nat, now: int): seq<Row> {
    match Latest(rows, tenant, _ => true)
    case Some(i) => rows[i := rows[i].(info := info, providerId := Some(id))]
    case None => rows + [Row(tenant, info, Some(id), now)]
  }

  function Cancel(s: State, tenant: nat): Result<State, BillingError> {
    match Latest(s.rows, tenant, IsOpen)
    case None => Err(SubscriptionNotFound)
    case Some(i) =>
      var row := s.rows[i];
      if row.providerId.None? then Err(NoProviderSubscription)
      else if row.providerId.value !in s.provider.subscriptions then Err(ProviderSubscriptionNotFound)
      else
        var id := row.providerId.value;
        var updated := s.provider.subscriptions[id].(status := Cancelled, cancelAtPeriodEnd := true);
        Ok(s.(provider := s.provider.(subscriptions := s.provider.subscriptions[id := updated]),
              rows := s.rows[i := row.(info := row.info.(status := updated.status,
                                                         cancelAtPeriodEnd := updated.cancelAtPeriodEnd))]))
  }

  function GenerateInvoice(s: State, tenant: nat): Result<State, BillingError> {
    match Latest(s.rows, tenant, IsOpen)
    case None => Err(SubscriptionNotFound)
    case Some(i) =>
      var row := s.rows[i];
      if row.providerId.None? then Err(NoProviderSubscription)
      else if row.providerId.value !in s.provider.subscriptions || row.providerId.value !in s.provider.invoices then
        Err(ProviderSubscriptionNotFound)
      else
        var id := row.providerId.value;
        var invoice := ProviderInvoice(s.provider.nextId, PriceCents(row.info.plan));
        Ok(s.(provider := s.provider.(invoices := s.provider.invoices[id := s.provider.invoices[id] + [invoice]],
                                      nextId := s.provider.nextId + 1),
              invoices := s.invoices + [Invoice(tenant, invoice)]))
  }

  /** QuotaEnforcer._get_plan */
  function EnforcedPlan(rows: seq<Row>, tenant: nat): PlanTier {
    match Latest(rows, tenant, s => s == Active)
    case Some(i) => rows[i].info.plan
    case None => Free
  }

  // ---------- The provider and the service, with their fields ----------

  class MockBillingProvider {
    var subscriptions: map<nat, Info>
    var invoices: map<nat, seq<ProviderInvoice>>
    var sessions: set<string>
    var nextId: nat

    constructor ()
      ensures View() == EMPTY.provider
    {
      subscriptions, invoices, sessions, nextId := map[], map[], {}, 0;
    }

    ghost function View(): Provider
      reads this
    {
      Provider(subscriptions, invoices, sessions, nextId)
    }

    method CreateCheckoutSession(token: string) returns (session: string)
      modifies this
      ensures session == "mock_cs_" + token
      ensures View() == old(View()).(sessions := old(sessions) + {session})
    {
      session := PREFIX + token;
      sessions := sessions + {session};
    }

    method ActivateSubscription(tenant: nat, plan: PlanTier, session: string, now: int)
      returns (result: Result<(nat, Info), BillingError>)
      modifies this
      ensures result.Err? <==> session !in old(sessions) && !("mock_cs_" <= session)
      ensures result.Err? ==> result.error == UnknownCheckoutSession && View() == old(View())
      ensures result.Ok? ==>
                var (id, info) := result.value;
                && id == old(nextId) && info == Info(plan, Active, false, now, now + 30, tenant)
                && View() == old(View()).(subscriptions := old(subscriptions)[id := info],
                                          invoices := old(invoices)[id := []], nextId := id + 1)
    {
      if session !in sessions && !(PREFIX <= session) {
        return Err(UnknownCheckoutSession);
      }
      var id := nextId;
      var info := Info(plan, Active, false, now, now + PERIOD_DAYS, tenant);
      nextId := nextId + 1;
      subscriptions := subscriptions[id := info];
      invoices := invoices[id := []];
      return Ok((id, info));
    }

    method CancelSubscription(id: nat) returns (result: Result<Info, BillingError>)
      modifies this
      ensures result.Err? <==> id !in old(subscriptions)
      ensures result.Err? ==> result.error == ProviderSubscriptionNotFound && View() == old(View())
      ensures result.Ok? ==>
                && result.value == old(subscriptions)[id].(status := Cancelled, cancelAtPeriodEnd := true)
                && View() == old(View()).(subscriptions := old(subscriptions)[id := result.value])
    {
      if id !in subscriptions {
        return Err(ProviderSubscriptionNotFound);
      }
      var updated := subscriptions[id].(status := Cancelled, cancelAtPeriodEnd := true);
      subscriptions := subscriptions[id := updated];
      return Ok(updated);
    }

    method CreateInvoice(id: nat, amountCents: nat) returns (result: Result<ProviderInvoice, BillingError>)
      modifies this
      ensures result.Err? <==> id !in old(subscriptions) || id !in old(invoices)
      ensures result.Err? ==> result.error == ProviderSubscriptionNotFound && View() == old(View())
      ensures result.Ok? ==>
                && result.value == ProviderInvoice(old(nextId), amountCents)
                && View() == old(View()).(invoices := old(invoices)[id := old(invoices)[id] + [result.value]],
                                          nextId := old(nextId) + 1)
    {
      if id !in subscriptions || id !in invoices {
        return Err(ProviderSubscriptionNotFound);
      }
      var invoice := ProviderInvoice(nextId, amountCents);
      nextId := nextId + 1;
      invoices := invoices[id := invoices[id] + [invoice]];
      return Ok(invoice);
    }
  }

  class BillingService {
    const provider: MockBillingProvider
    var rows: seq<Row>
    var invoices: seq<Invoice>
    ghost var log: seq<Event>

    constructor ()
      ensures fresh(provider) && Valid() && log == []
    {
      provider := new MockBillingProvider();
      rows, invoices, log := [], [], [];
      new;
      EmptyStateIsConsistent();
    }

    ghost function View(): State
      reads this, provider
    {
      State(provider.View(), rows, invoices)
    }

    ghost predicate Valid()
      reads this, provider
    {
      Consistent(View(), log)
    }

    method CreateCheckout(token: string) returns (session: string)
      requires Valid()
      modifies provider
      ensures Valid() && session == PREFIX + token && View() == Checkout(old(View()), token)
    {
      session := provider.CreateCheckoutSession(token);
      CheckoutKeepsConsistent(old(View()), log, token);
    }

    method ActivateSubscription(tenant: nat, plan: PlanTier, session: string, now: int)
      returns (result: Result<(), BillingError>)
      requires Valid()
      modifies this, provider
      ensures Valid()
      ensures match Activate(old(View()), tenant, plan, session, now)
              case Ok(after) => result.Ok? && View() == after
                                && log == old(log) + [Activated(tenant, plan, old(provider.nextId))]
              case Err(e) => result == Err(e) && View() == old(View()) && log == old(log)
    {
      hide Consistent;
      ghost var before := View();
      var activated := provider.ActivateSubscription(tenant, plan, session, now);
      if activated.Err? {
        return Err(activated.error);
      }
      var (id, info) := activated.value;
      var existing := Latest(rows, tenant, _ => true);
      if existing.Some? {
        rows := rows[existing.value := rows[existing.value].(info := info, providerId := Some(id))];
      } else {
        rows := rows + [Row(tenant, info, Some(id), now)];
      }
      ActivateKeepsConsistent(before, log, tenant, plan, session, now);
      log := log + [Activated(tenant, plan, id)];
      return Ok(());
    }

    method CancelSubscription(tenant: nat) returns (result: Result<(), BillingError>)
      requires Valid()
      modifies this, provider
      ensures Valid()
      ensures match Cancel(old(View()), tenant)
              case Ok(after) => result.Ok? && View() == after && log == old(log) + [Ended(tenant)]
              case Err(e) => result == Err(e) && View() == old(View()) && log == old(log)
    {
      hide Consistent;
      ghost var before := View();
      var found := Latest(rows, tenant, IsOpen);
      if found.None? {
        return Err(SubscriptionNotFound);
      }
      var row := rows[found.value];
      if row.providerId.None? {
        return Err(NoProviderSubscription);
      }
      var info := provider.CancelSubscription(row.providerId.value);
      if info.Err? {
        return Err(info.error);
      }
      rows := rows[found.value := row.(info := row.info.(status := info.value.status,
                                                         cancelAtPeriodEnd := info.value.cancelAtPeriodEnd))];
      CancelKeepsConsistent(before, log, tenant);
      log := log + [Ended(tenant)];
      return Ok(());
    }

    method InvoiceTenant(tenant: nat) returns (result: Result<(), BillingError>)
      requires Valid()
      modifies this, provider
      ensures Valid()
      ensures match GenerateInvoice(old(View()), tenant)
              case Ok(after) => result.Ok? && View() == after && log == old(log) + [Invoiced(tenant)]
              case Err(e) => result == Err(e) && View() == old(View()) && log == old(log)
    {
      hide Consistent;
      ghost var before := View();
      var found := Latest(rows, tenant, IsOpen);
      if found.None? {
        return Err(SubscriptionNotFound);
      }
      var row := rows[found.value];
      if row.providerId.None? {
        return Err(NoProviderSubscription);
      }
      var invoice := provider.CreateInvoice(row.providerId.value, PriceCents(row.info.plan));
      if invoice.Err? {
        return Err(invoice.error);
      }
      invoices := invoices + [Invoice(tenant, invoice.value)];
      InvoiceKeepsConsistent(before, log, tenant);
      log := log + [Invoiced(tenant)];
      return Ok(());
    }
  }

  // ---------- The log of successful calls, and what it determines ----------

  datatype Event = Activated(tenant: nat, plan: PlanTier, id: nat) | Ended(tenant: nat) | Invoiced(tenant: nat)

  /** The tenant's current subscription according to the log: plan and provider id of its
      last activation, if no cancellation followed. */
  function Current(log: seq<Event>, tenant: nat): Option<Event> {
    if log == [] then None
    else
      var last := log[|log| - 1];
      if last.tenant != tenant || last.Invoiced? then Current(log[..|log| - 1], tenant)
      else if last.Activated? then Some(last)
      else None
  }

  function LoggedPlan(log: seq<Event>, tenant: nat): PlanTier {
    match Current(log, tenant)
    case Some(Activated(_, plan, _)) => plan
    case _ => Free
  }

  /** The tenant's provider subscriptions, in activation order. */
  function SubscriptionsOf(log: seq<Event>, tenant: nat): seq<nat> {
    if log == [] then []
    else
      var last := log[|log| - 1];
      SubscriptionsOf(log[..|log| - 1], tenant)
      + if last.Activated? && last.tenant == tenant then [last.id] else []
  }

  /** What the log says the tenant was billed: at each invoice, the price of its plan then. */
  function BilledAmounts(log: seq<Event>, tenant: nat): seq<nat> {
    if log == [] then []
    else
      var before := log[..|log| - 1];
      BilledAmounts(before, tenant)
      + if log[|log| - 1] == Invoiced(tenant) then [PriceCents(LoggedPlan(before, tenant))] else []
  }

  function InvoicesOf(invoices: seq<Invoice>, tenant: nat): seq<ProviderInvoice> {
    if invoices == [] then []
    else
      var last := invoices[|invoices| - 1];
      InvoicesOf(invoices[..|invoices| - 1], tenant) + if last.tenant == tenant then [last.providerInvoice] else []
  }

  function Amounts(invoices: seq<ProviderInvoice>): seq<nat> {
    if invoices == [] then [] else Amounts(invoices[..|invoices| - 1]) + [invoices[|invoices| - 1].amountCents]
  }

  /** The provider's invoice lists of the given subscriptions, one after another. */
  function Lists(provider: Provider, ids: seq<nat>): seq<ProviderInvoice> {
    if ids == [] then []
    else
      var last := ids[|ids| - 1];
      Lists(provider, ids[..|ids| - 1]) + if last in provider.invoices then provider.invoices[last] else []
  }

  // ---------- The invariant ----------

  ghost predicate OneRowPerTenant(rows: seq<Row>) {
    forall i, j :: 0 <= i < j < |rows| ==> rows[i].tenant != rows[j].tenant
  }

  ghost predicate Activates(log: seq<Event>, tenant: nat, id: nat) {
    id in SubscriptionsOf(log, tenant)
  }

  /** The provider knows exactly the ids the log activated, all below nextId, each by one tenant. */
  ghost predicate IdsAgree(p: Provider, log: seq<Event>) {
    && p.subscriptions.Keys == p.invoices.Keys
    && (forall id :: id in p.subscriptions ==> id < p.nextId)
    && (forall t, id :: Activates(log, t, id) ==> id in p.subscriptions)
    && (forall t, u, id :: Activates(log, t, id) && Activates(log, u, id) ==> t == u)
    && (forall t :: NoRepeats(SubscriptionsOf(log, t)))
  }

  ghost predicate NoRepeats(ids: seq<nat>) {
    forall i, j :: 0 <= i < j < |ids| ==> ids[i] != ids[j]
  }

  /** A row names its tenant's latest provider subscription and repeats its data. */
  ghost predicate RowMirrors(p: Provider, log: seq<Event>, row: Row) {
    var ids := SubscriptionsOf(log, row.tenant);
    && ids != [] && row.providerId == Some(ids[|ids| - 1])
    && row.providerId.value in p.subscriptions && row.info == p.subscriptions[row.providerId.value]
    && (row.info.status == if Current(log, row.tenant).Some? then Active else Cancelled)
    && (Current(log, row.tenant).Some? ==> row.info.plan == LoggedPlan(log, row.tenant))
  }

  ghost predicate HasRow(rows: seq<Row>, tenant: nat) {
    exists i :: 0 <= i < |rows| && rows[i].tenant == tenant
  }

  ghost predicate RowsAgree(s: State, log: seq<Event>) {
    && OneRowPerTenant(s.rows)
    && (forall i :: 0 <= i < |s.rows| ==> RowMirrors(s.provider, log, s.rows[i]))
    && (forall t :: SubscriptionsOf(log, t) != [] ==> HasRow(s.rows, t))
  }

  /** A tenant's stored invoices are the provider's lists, and bill what the log says. */
  ghost predicate InvoicesAgree(s: State, log: seq<Event>, tenant: nat) {
    && InvoicesOf(s.invoices, tenant) == Lists(s.provider, SubscriptionsOf(log, tenant))
    && Amounts(InvoicesOf(s.invoices, tenant)) == BilledAmounts(log, tenant)
  }

  ghost predicate Consistent(s: State, log: seq<Event>) {
    IdsAgree(s.provider, log) && RowsAgree(s, log) && forall t :: InvoicesAgree(s, log, t)
  }

  lemma EmptyStateIsConsistent()
    ensures Consistent(EMPTY, [])
  {
  }

  // ---------- Each operation keeps it ----------

  lemma {:induction false} ListsUnchanged(p: Provider, q: Provider, ids: seq<nat>)
    requires forall id :: id in ids && id in p.invoices ==> id in q.invoices && q.invoices[id] == p.invoices[id]
    requires forall id :: id in ids && id in q.invoices ==> id in p.invoices
    ensures Lists(p, ids) == Lists(q, ids)
  {
    if ids != [] {
      assert ids == ids[..|ids| - 1] + [ids[|ids| - 1]];
      ListsUnchanged(p, q, ids[..|ids| - 1]);
    }
  }

  lemma LogStep(log: seq<Event>, e: Event, tenant: nat)
    ensures SubscriptionsOf(log + [e], tenant) ==
            SubscriptionsOf(log, tenant) + if e.Activated? && e.tenant == tenant then [e.id] else []
    ensures Current(log + [e], tenant) ==
            if e.tenant != tenant || e.Invoiced? then Current(log, tenant) else if e.Activated? then Some(e) else None
    ensures BilledAmounts(log + [e], tenant) ==
            BilledAmounts(log, tenant) + if e == Invoiced(tenant) then [PriceCents(LoggedPlan(log, tenant))] else []
  {
    assert (log + [e])[..|log|] == log;
  }

  lemma CheckoutKeepsConsistent(s: State, log: seq<Event>, token: string)
    requires Consistent(s, log)
    ensures Consistent(Checkout(s, token), log)
  {
    var p, q := s.provider, Checkout(s, token).provider;
    forall t
      ensures InvoicesAgree(Checkout(s, token), log, t)
    {
      assert InvoicesAgree(s, log, t);
      ListsUnchanged(p, q, SubscriptionsOf(log, t));
    }
    forall i | 0 <= i < |s.rows|
      ensures RowMirrors(q, log, s.rows[i])
    {
      assert RowMirrors(p, log, s.rows[i]);
    }
  }

  lemma ActivateKeepsConsistent(s: State, log: seq<Event>, tenant: nat, plan: PlanTier, session: string, now: int)
    requires Consistent(s, log) && Activate(s, tenant, plan, session, now).Ok?
    ensures Consistent(Activate(s, tenant, plan, session, now).value,
                       log + [Activated(tenant, plan, s.provider.nextId)])
  {
    var after := Activate(s, tenant, plan, session, now).value;
    var id := s.provider.nextId;
    var log' := log + [Activated(tenant, plan, id)];
    forall t
      ensures SubscriptionsOf(log', t) == SubscriptionsOf(log, t) + if t == tenant then [id] else []
      ensures Current(log', t) == if t == tenant then Some(Activated(tenant, plan, id)) else Current(log, t)
      ensures BilledAmounts(log', t) == BilledAmounts(log, t)
    {
      LogStep(log, Activated(tenant, plan, id), t);
    }
    ActivateKeepsIds(s, log, after, log', tenant, id);
    ActivateKeepsRows(s, log, after, log', tenant, plan, id, now);
    forall t
      ensures InvoicesAgree(after, log', t)
    {
      assert InvoicesAgree(s, log, t);
      ActivateKeepsInvoices(s, log, after, log', t, tenant, id);
    }
  }

  lemma ActivateKeepsIds(s: State, log: seq<Event>, after: State, log': seq<Event>, tenant: nat, id: nat)
    requires IdsAgree(s.provider, log) && id == s.provider.nextId && after.provider.nextId == id + 1
    requires after.provider.subscriptions.Keys == s.provider.subscriptions.Keys + {id}
    requires after.provider.invoices.Keys == s.provider.invoices.Keys + {id}
    requires forall t :: SubscriptionsOf(log', t) == SubscriptionsOf(log, t) + if t == tenant then [id] else []
    ensures IdsAgree(after.provider, log')
  {
    forall t, x
      ensures Activates(log', t, x) <==> Activates(log, t, x) || (t == tenant && x == id)
    {
      assert x in SubscriptionsOf(log', t) <==> x in SubscriptionsOf(log, t) || (t == tenant && x == id);
    }
    forall t
      ensures !Activates(log, t, id)
    {
      ActivatedIdsAreOld(s.provider, log, t);
    }
    forall t
      ensures NoRepeats(SubscriptionsOf(log', t))
    {
      assert NoRepeats(SubscriptionsOf(log, t));
      ActivatedIdsAreOld(s.provider, log, t);
    }
  }

  lemma ActivatedIdsAreOld(p: Provider, log: seq<Event>, t: nat)
    requires IdsAgree(p, log)
    ensures forall i :: 0 <= i < |SubscriptionsOf(log, t)| ==>
              SubscriptionsOf(log, t)[i] < p.nextId && SubscriptionsOf(log, t)[i] in p.subscriptions
    ensures !Activates(log, t, p.nextId)
  {
    var ids := SubscriptionsOf(log, t);
    forall i | 0 <= i < |ids|
      ensures ids[i] < p.nextId && ids[i] in p.subscriptions
    {
      assert Activates(log, t, ids[i]);
    }
  }

  lemma ActivateKeepsRows(s: State, log: seq<Event>, after: State, log': seq<Event>, tenant: nat, plan: PlanTier,
                          id: nat, now: int)
    requires IdsAgree(s.provider, log) && RowsAgree(s, log) && id == s.provider.nextId
    requires var info := Info(plan, Active, false, now, now + PERIOD_DAYS, tenant);
             && after.provider.subscriptions == s.provider.subscriptions[id := info]
             && after.rows == Upserted(s.rows, tenant, info, id, now)
    requires forall t :: SubscriptionsOf(log', t) == SubscriptionsOf(log, t) + if t == tenant then [id] else []
    requires forall t :: Current(log', t) == if t == tenant then Some(Activated(tenant, plan, id)) else Current(log, t)
    ensures RowsAgree(after, log')
  {
    hide RowMirrors, IdsAgree, Upserted;
    var info := Info(plan, Active, false, now, now + PERIOD_DAYS, tenant);
    var k := UpsertedRows(s.rows, tenant, info, id, now);
    forall i | 0 <= i < |after.rows|
      ensures RowMirrors(after.provider, log', after.rows[i])
    {
      if i == k {
        ActivatedRowMirrors(after.provider, log', after.rows[k], plan, id);
      } else {
        var row := after.rows[i];
        assert row == s.rows[i] && RowMirrors(s.provider, log, row);
        MirroredIdIsOld(s.provider, log, row);
        assert SubscriptionsOf(log', row.tenant) == SubscriptionsOf(log, row.tenant) + [];
        RowKept(s.provider, after.provider, log, log', row);
      }
    }
    forall t | SubscriptionsOf(log', t) != []
      ensures HasRow(after.rows, t)
    {
      assert t != tenant ==> SubscriptionsOf(log', t) == SubscriptionsOf(log, t) + [];
      assert t != tenant ==> HasRow(s.rows, t);
    }
  }

  /** An upsert changes one row, the tenant's, and keeps one row per tenant. */
  lemma UpsertedRows(rows: seq<Row>, tenant: nat, info: Info, id: nat, now: int) returns (k: nat)
    requires OneRowPerTenant(rows)
    ensures var after := Upserted(rows, tenant, info, id, now);
            && k < |after| && after[k].tenant == tenant && after[k].info == info && after[k].providerId == Some(id)
            && |rows| <= |after|
            && (forall i :: 0 <= i < |after| && i != k ==>
                  i < |rows| && after[i] == rows[i] && rows[i].tenant != tenant)
            && OneRowPerTenant(after)
            && forall t :: HasRow(after, t) <==> t == tenant || HasRow(rows, t)
  {
    var after := Upserted(rows, tenant, info, id, now);
    var slot := Latest(rows, tenant, _ => true);
    k := if slot.Some? then slot.value else |rows|;
    forall t
      ensures HasRow(after, t) <==> t == tenant || HasRow(rows, t)
    {
      assert after[k].tenant == tenant;
      if t != tenant && HasRow(rows, t) {
        var i :| 0 <= i < |rows| && rows[i].tenant == t;
        assert after[i].tenant == t;
      }
    }
  }

  lemma ActivatedRowMirrors(p: Provider, log: seq<Event>, row: Row, plan: PlanTier, id: nat)
    requires var ids := SubscriptionsOf(log, row.tenant); ids != [] && ids[|ids| - 1] == id
    requires row.providerId == Some(id) && id in p.subscriptions && row.info == p.subscriptions[id]
    requires row.info.status.Active? && row.info.plan == plan
    requires Current(log, row.tenant) == Some(Activated(row.tenant, plan, id))
    ensures RowMirrors(p, log, row)
  {
  }

  lemma MirroredIdIsOld(p: Provider, log: seq<Event>, row: Row)
    requires IdsAgree(p, log) && RowMirrors(p, log, row)
    ensures row.providerId.Some? && row.providerId.value in p.subscriptions && row.providerId.value < p.nextId
  {
  }

  lemma RowKept(p: Provider, q: Provider, log: seq<Event>, log': seq<Event>, row: Row)
    requires RowMirrors(p, log, row)
    requires SubscriptionsOf(log', row.tenant) == SubscriptionsOf(log, row.tenant)
    requires Current(log', row.tenant) == Current(log, row.tenant)
    requires row.providerId.Some? && row.providerId.value in p.subscriptions ==>
               && row.providerId.value in q.subscriptions
               && q.subscriptions[row.providerId.value] == p.subscriptions[row.providerId.value]
    ensures RowMirrors(q, log', row)
  {
  }

  lemma ActivateKeepsInvoices(s: State, log: seq<Event>, after: State, log': seq<Event>, t: nat, tenant: nat, id: nat)
    requires IdsAgree(s.provider, log) && InvoicesAgree(s, log, t) && id == s.provider.nextId
    requires after.provider.invoices == s.provider.invoices[id := []] && after.invoices == s.invoices
    requires SubscriptionsOf(log', t) == SubscriptionsOf(log, t) + if t == tenant then [id] else []
    requires BilledAmounts(log', t) == BilledAmounts(log, t)
    ensures InvoicesAgree(after, log', t)
  {
    hide IdsAgree;
    ActivatedIdsAreOld(s.provider, log, t);
    var ids := SubscriptionsOf(log, t);
    FreshListIsEmpty(s.provider, after.provider, ids, id);
    assert ids + [] == ids;
  }

  lemma FreshListIsEmpty(p: Provider, q: Provider, ids: seq<nat>, id: nat)
    requires id !in ids && q.invoices == p.invoices[id := []]
    ensures Lists(q, ids) == Lists(p, ids) && Lists(q, ids + [id]) == Lists(p, ids)
  {
    ListsUnchanged(p, q, ids);
    assert (ids + [id])[..|ids|] == ids;
  }

  lemma OpenRowIsCurrent(s: State, log: seq<Event>, tenant: nat)
    requires RowsAgree(s, log)
    ensures var found := Latest(s.rows, tenant, IsOpen);
            && (found.Some? <==> Current(log, tenant).Some?)
            && (found.Some? ==> RowMirrors(s.provider, log, s.rows[found.value]))
  {
    CurrentHasSubscription(log, tenant);
    var found := Latest(s.rows, tenant, IsOpen);
    if SubscriptionsOf(log, tenant) != [] {
      assert HasRow(s.rows, tenant);
      var i :| 0 <= i < |s.rows| && s.rows[i].tenant == tenant;
      assert RowMirrors(s.provider, log, s.rows[i]);
    }
    if found.Some? {
      assert RowMirrors(s.provider, log, s.rows[found.value]);
    }
  }

  lemma {:induction false} CurrentHasSubscription(log: seq<Event>, tenant: nat)
    ensures Current(log, tenant).Some? ==> SubscriptionsOf(log, tenant) != []
  {
    if log != [] {
      CurrentHasSubscription(log[..|log| - 1], tenant);
    }
  }

  lemma CancelKeepsConsistent(s: State, log: seq<Event>, tenant: nat)
    requires Consistent(s, log) && Cancel(s, tenant).Ok?
    ensures Consistent(Cancel(s, tenant).value, log + [Ended(tenant)])
  {
    var after := Cancel(s, tenant).value;
    var log' := log + [Ended(tenant)];
    forall t
      ensures SubscriptionsOf(log', t) == SubscriptionsOf(log, t)
      ensures Current(log', t) == if t == tenant then None else Current(log, t)
      ensures BilledAmounts(log', t) == BilledAmounts(log, t)
    {
      LogStep(log, Ended(tenant), t);
    }
    var k := Latest(s.rows, tenant, IsOpen).value;
    CancelKeepsRows(s, log, after, log', tenant, k);
    assert IdsAgree(after.provider, log') by {
      forall t, x
        ensures Activates(log', t, x) <==> Activates(log, t, x)
      {
      }
    }
    forall t
      ensures InvoicesAgree(after, log', t)
    {
      assert InvoicesAgree(s, log, t);
      ListsUnchanged(s.provider, after.provider, SubscriptionsOf(log, t));
    }
  }

  lemma CancelKeepsRows(s: State, log: seq<Event>, after: State, log': seq<Event>, tenant: nat, k: nat)
    requires IdsAgree(s.provider, log) && RowsAgree(s, log)
    requires Latest(s.rows, tenant, IsOpen) == Some(k) && Cancel(s, tenant) == Ok(after)
    requires forall t :: SubscriptionsOf(log', t) == SubscriptionsOf(log, t)
    requires forall t :: Current(log', t) == if t == tenant then None else Current(log, t)
    ensures RowsAgree(after, log')
  {
    hide RowMirrors, IdsAgree;
    assert RowMirrors(s.provider, log, s.rows[k]);
    CancelledRowMirrors(s, log, after, log', k);
    forall i | 0 <= i < |after.rows|
      ensures RowMirrors(after.provider, log', after.rows[i])
    {
      if i != k {
        assert RowMirrors(s.provider, log, s.rows[i]);
        RowsNameDifferentIds(s, log, i, k);
        RowKept(s.provider, after.provider, log, log', s.rows[i]);
      }
    }
    forall t | SubscriptionsOf(log', t) != []
      ensures HasRow(after.rows, t)
    {
      assert HasRow(s.rows, t);
      var i :| 0 <= i < |s.rows| && s.rows[i].tenant == t;
      assert after.rows[i].tenant == t;
    }
  }

  lemma CancelledRowMirrors(s: State, log: seq<Event>, after: State, log': seq<Event>, k: nat)
    requires k < |s.rows| && RowMirrors(s.provider, log, s.rows[k])
    requires Latest(s.rows, s.rows[k].tenant, IsOpen) == Some(k) && Cancel(s, s.rows[k].tenant) == Ok(after)
    requires SubscriptionsOf(log', s.rows[k].tenant) == SubscriptionsOf(log, s.rows[k].tenant)
    requires Current(log', s.rows[k].tenant) == None
    ensures RowMirrors(after.provider, log', after.rows[k])
  {
  }

  lemma RowsNameDifferentIds(s: State, log: seq<Event>, i: nat, k: nat)
    requires IdsAgree(s.provider, log) && RowsAgree(s, log) && i < |s.rows| && k < |s.rows| && i != k
    ensures s.rows[i].providerId != s.rows[k].providerId
  {
    assert RowMirrors(s.provider, log, s.rows[i]) && RowMirrors(s.provider, log, s.rows[k]);
    assert Activates(log, s.rows[i].tenant, s.rows[i].providerId.value);
    assert Activates(log, s.rows[k].tenant, s.rows[k].providerId.value);
    assert s.rows[i].tenant != s.rows[k].tenant;
  }

  lemma InvoiceKeepsConsistent(s: State, log: seq<Event>, tenant: nat)
    requires Consistent(s, log) && GenerateInvoice(s, tenant).Ok?
    ensures Consistent(GenerateInvoice(s, tenant).value, log + [Invoiced(tenant)])
  {
    var after := GenerateInvoice(s, tenant).value;
    var log' := log + [Invoiced(tenant)];
    forall t
      ensures SubscriptionsOf(log', t) == SubscriptionsOf(log, t) && Current(log', t) == Current(log, t)
    {
      LogStep(log, Invoiced(tenant), t);
    }
    forall i | 0 <= i < |s.rows|
      ensures RowMirrors(after.provider, log', s.rows[i])
    {
      assert RowMirrors(s.provider, log, s.rows[i]);
    }
    assert RowsAgree(after, log') by {
      forall t | SubscriptionsOf(log', t) != []
        ensures HasRow(after.rows, t)
      {
        assert HasRow(s.rows, t);
      }
    }
    assert IdsAgree(after.provider, log') by {
      forall t, x
        ensures Activates(log', t, x) <==> Activates(log, t, x)
      {
      }
    }
    forall t
      ensures InvoicesAgree(after, log', t)
    {
      assert InvoicesAgree(s, log, t);
      InvoiceKeepsInvoices(s, log, after, log', t, tenant);
    }
  }

  /** What invoicing changes: the list of the tenant's last subscription, and the table. */
  lemma InvoicedState(s: State, log: seq<Event>, after: State, tenant: nat) returns (id: nat, invoice: ProviderInvoice)
    requires RowsAgree(s, log) && GenerateInvoice(s, tenant) == Ok(after)
    ensures var ids := SubscriptionsOf(log, tenant); ids != [] && id == ids[|ids| - 1] && id in s.provider.invoices
    ensures after.provider.invoices == s.provider.invoices[id := s.provider.invoices[id] + [invoice]]
    ensures after.invoices == s.invoices + [Invoice(tenant, invoice)]
    ensures invoice.amountCents == PriceCents(LoggedPlan(log, tenant))
  {
    hide RowsAgree, SubscriptionsOf, PriceCents, Latest;
    OpenRowIsCurrent(s, log, tenant);
    id := s.rows[Latest(s.rows, tenant, IsOpen).value].providerId.value;
    invoice := after.invoices[|s.invoices|].providerInvoice;
  }

  lemma InvoiceKeepsInvoices(s: State, log: seq<Event>, after: State, log': seq<Event>, t: nat, tenant: nat)
    requires IdsAgree(s.provider, log) && RowsAgree(s, log) && InvoicesAgree(s, log, t)
    requires GenerateInvoice(s, tenant) == Ok(after) && log' == log + [Invoiced(tenant)]
    ensures InvoicesAgree(after, log', t)
  {
    hide IdsAgree, RowsAgree, InvoicesAgree, GenerateInvoice, SubscriptionsOf, LoggedPlan;
    var id, invoice := InvoicedState(s, log, after, tenant);
    if t == tenant {
      IdIsLast(s.provider, log, t, id);
      OwnInvoiceAgrees(s, log, after, t, invoice);
    } else {
      IdIsNotAnothers(s.provider, log, t, tenant, id);
      OthersInvoicesAgree(s, log, after, t, tenant, id, invoice);
    }
  }

  lemma OwnInvoiceAgrees(s: State, log: seq<Event>, after: State, t: nat, invoice: ProviderInvoice)
    requires InvoicesAgree(s, log, t) && invoice.amountCents == PriceCents(LoggedPlan(log, t))
    requires var ids := SubscriptionsOf(log, t);
             && ids != [] && ids[|ids| - 1] in s.provider.invoices && ids[|ids| - 1] !in ids[..|ids| - 1]
             && after.provider.invoices ==
                s.provider.invoices[ids[|ids| - 1] := s.provider.invoices[ids[|ids| - 1]] + [invoice]]
    requires after.invoices == s.invoices + [Invoice(t, invoice)]
    ensures InvoicesAgree(after, log + [Invoiced(t)], t)
  {
    LogStep(log, Invoiced(t), t);
    InvoicesOfStep(s.invoices, Invoice(t, invoice), t);
    OnlyLastListGrows(s.provider, after.provider, SubscriptionsOf(log, t), invoice);
    AmountsAppend(InvoicesOf(s.invoices, t), invoice);
    hide SubscriptionsOf, Lists, InvoicesOf, Amounts, BilledAmounts, LoggedPlan, PriceCents;
    assert SubscriptionsOf(log, t) + [] == SubscriptionsOf(log, t);
  }

  lemma OthersInvoicesAgree(s: State, log: seq<Event>, after: State, t: nat, tenant: nat, id: nat,
                            invoice: ProviderInvoice)
    requires InvoicesAgree(s, log, t) && t != tenant && id !in SubscriptionsOf(log, t) && id in s.provider.invoices
    requires after.provider.invoices == s.provider.invoices[id := s.provider.invoices[id] + [invoice]]
    requires after.invoices == s.invoices + [Invoice(tenant, invoice)]
    ensures InvoicesAgree(after, log + [Invoiced(tenant)], t)
  {
    LogStep(log, Invoiced(tenant), t);
    InvoicesOfStep(s.invoices, Invoice(tenant, invoice), t);
    ListsUnchanged(s.provider, after.provider, SubscriptionsOf(log, t));
    hide SubscriptionsOf, Lists, InvoicesOf, Amounts, BilledAmounts, LoggedPlan, PriceCents;
    assert SubscriptionsOf(log, t) + [] == SubscriptionsOf(log, t);
    assert InvoicesOf(s.invoices, t) + [] == InvoicesOf(s.invoices, t);
    assert BilledAmounts(log, t) + [] == BilledAmounts(log, t);
  }

  lemma InvoicesOfStep(invoices: seq<Invoice>, invoice: Invoice, t: nat)
    ensures InvoicesOf(invoices + [invoice], t) ==
            InvoicesOf(invoices, t) + if invoice.tenant == t then [invoice.providerInvoice] else []
  {
    assert (invoices + [invoice])[..|invoices|] == invoices;
  }

  lemma IdIsLast(p: Provider, log: seq<Event>, t: nat, id: nat)
    requires IdsAgree(p, log)
    requires var ids := SubscriptionsOf(log, t); ids != [] && id == ids[|ids| - 1]
    ensures var ids := SubscriptionsOf(log, t); id !in ids[..|ids| - 1]
  {
    assert NoRepeats(SubscriptionsOf(log, t));
  }

  lemma IdIsNotAnothers(p: Provider, log: seq<Event>, t: nat, tenant: nat, id: nat)
    requires IdsAgree(p, log) && t != tenant && id in SubscriptionsOf(log, tenant)
    ensures id !in SubscriptionsOf(log, t)
  {
    assert Activates(log, tenant, id);
    assert Activates(log, t, id) <==> id in SubscriptionsOf(log, t);
  }

  lemma AmountsAppend(invoices: seq<ProviderInvoice>, invoice: ProviderInvoice)
    ensures Amounts(invoices + [invoice]) == Amounts(invoices) + [invoice.amountCents]
  {
    assert (invoices + [invoice])[..|invoices|] == invoices;
  }

  lemma OnlyLastListGrows(p: Provider, q: Provider, ids: seq<nat>, invoice: ProviderInvoice)
    requires ids != [] && ids[|ids| - 1] in p.invoices
    requires q.invoices == p.invoices[ids[|ids| - 1] := p.invoices[ids[|ids| - 1]] + [invoice]]
    requires ids[|ids| - 1] !in ids[..|ids| - 1]
    ensures Lists(q, ids) == Lists(p, ids) + [invoice]
  {
    ListsUnchanged(p, q, ids[..|ids| - 1]);
  }

  // ---------- Whole runs ----------

  /** Checking a consistent state reveals nothing the log does not: the enforced plan is that
      of the tenant's last activation unless a cancellation followed, and a tenant can cancel
      or be invoiced exactly while it has such an activation. */
  lemma ConsistentStateFollowsTheLog(s: State, log: seq<Event>, tenant: nat)
    requires Consistent(s, log)
    ensures EnforcedPlan(s.rows, tenant) == LoggedPlan(log, tenant)
    ensures Current(log, tenant).Some? <==> Cancel(s, tenant).Ok?
    ensures Current(log, tenant).Some? <==> GenerateInvoice(s, tenant).Ok?
    ensures Current(log, tenant).None? ==>
              Cancel(s, tenant) == Err(SubscriptionNotFound) && GenerateInvoice(s, tenant) == Err(SubscriptionNotFound)
  {
    hide IdsAgree, InvoicesAgree;
    OpenRowIsCurrent(s, log, tenant);
    var active := Latest(s.rows, tenant, x => x == Active);
    if active.Some? {
      assert RowMirrors(s.provider, log, s.rows[active.value]);
    }
    assert IdsAgree(s.provider, log) ==> s.provider.subscriptions.Keys == s.provider.invoices.Keys by {
      KeysAgree(s.provider, log);
    }
  }

  lemma KeysAgree(p: Provider, log: seq<Event>)
    ensures IdsAgree(p, log) ==> p.subscriptions.Keys == p.invoices.Keys
  {
  }

  datatype Op =
    | DoCheckout(token: string)
    | DoActivate(tenant: nat, plan: PlanTier, session: string, now: int)
    | DoCancel(tenant: nat)
    | DoInvoice(tenant: nat)

  datatype Books = Books(state: State, log: seq<Event>)

  /** One call; a call that raises changes nothing and is not logged. */
  function Step(b: Books, op: Op): Books {
    match op
    case DoCheckout(token) => b.(state := Checkout(b.state, token))
    case DoActivate(tenant, plan, session, now) =>
      (match Activate(b.state, tenant, plan, session, now)
       case Ok(after) => Books(after, b.log + [Activated(tenant, plan, b.state.provider.nextId)])
       case Err(_) => b)
    case DoCancel(tenant) =>
      (match Cancel(b.state, tenant)
       case Ok(after) => Books(after, b.log + [Ended(tenant)])
       case Err(_) => b)
    case DoInvoice(tenant) =>
      (match GenerateInvoice(b.state, tenant)
       case Ok(after) => Books(after, b.log + [Invoiced(tenant)])
       case Err(_) => b)
  }

  function RunAll(ops: seq<Op>): Books {
    if ops == [] then Books(EMPTY, []) else Step(RunAll(ops[..|ops| - 1]), ops[|ops| - 1])
  }

  lemma {:induction false} EveryRunIsConsistent(ops: seq<Op>)
    ensures Consistent(RunAll(ops).state, RunAll(ops).log)
  {
    hide Consistent, Activate, Cancel, GenerateInvoice, Checkout;
    if ops == [] {
      EmptyStateIsConsistent();
    } else {
      EveryRunIsConsistent(ops[..|ops| - 1]);
      var b := RunAll(ops[..|ops| - 1]);
      match ops[|ops| - 1] {
        case DoCheckout(token) => CheckoutKeepsConsistent(b.state, b.log, token);
        case DoActivate(tenant, plan, session, now) =>
          if Activate(b.state, tenant, plan, session, now).Ok? {
            ActivateKeepsConsistent(b.state, b.log, tenant, plan, session, now);
          }
        case DoCancel(tenant) =>
          if Cancel(b.state, tenant).Ok? {
            CancelKeepsConsistent(b.state, b.log, tenant);
          }
        case DoInvoice(tenant) =>
          if GenerateInvoice(b.state, tenant).Ok? {
            InvoiceKeepsConsistent(b.state, b.log, tenant);
          }
      }
    }
  }

  ghost predicate RepeatsItsEntry(p: Provider, row: Row) {
    row.providerId.Some? && row.providerId.value in p.subscriptions && row.info == p.subscriptions[row.providerId.value]
  }

  /** After any sequence of calls: at most one row per tenant; each row repeats the provider
      entry it names; a tenant's stored invoices are the provider's lists of its subscriptions
      in activation order, billed at the plan of the moment; and the enforced plan is that of
      the last activation not followed by a cancellation, else Free. */
  lemma BooksBalance(ops: seq<Op>, tenant: nat)
    ensures var (s, log) := (RunAll(ops).state, RunAll(ops).log);
            && (forall i, j :: 0 <= i < j < |s.rows| ==> s.rows[i].tenant != s.rows[j].tenant)
            && (forall i :: 0 <= i < |s.rows| ==> RepeatsItsEntry(s.provider, s.rows[i]))
            && InvoicesOf(s.invoices, tenant) == Lists(s.provider, SubscriptionsOf(log, tenant))
            && Amounts(InvoicesOf(s.invoices, tenant)) == BilledAmounts(log, tenant)
            && EnforcedPlan(s.rows, tenant) == LoggedPlan(log, tenant)
  {
    hide Activate, Cancel, GenerateInvoice, Checkout, RunAll, IdsAgree, Current, SubscriptionsOf;
    EveryRunIsConsistent(ops);
    var s, log := RunAll(ops).state, RunAll(ops).log;
    ConsistentStateFollowsTheLog(s, log, tenant);
    assert InvoicesAgree(s, log, tenant);
    forall i | 0 <= i < |s.rows|
      ensures RepeatsItsEntry(s.provider, s.rows[i])
    {
      assert RowMirrors(s.provider, log, s.rows[i]);
    }
  }

  // ---------- Replaced subscriptions ----------

  function CurrentId(log: seq<Event>, tenant: nat): set<nat> {
    match Current(log, tenant)
    case Some(Activated(_, _, id)) => {id}
    case _ => {}
  }

  /** The subscriptions that were current when a cancellation came. */
  function EndedIds(log: seq<Event>, tenant: nat): set<nat> {
    if log == [] then {}
    else
      var before := log[..|log| - 1];
      EndedIds(before, tenant) + if log[|log| - 1] == Ended(tenant) then CurrentId(before, tenant) else {}
  }

  /** How many activations replaced a subscription that was still current. */
  function Replacements(log: seq<Event>, tenant: nat): nat {
    if log == [] then 0
    else
      var before, last := log[..|log| - 1], log[|log| - 1];
      Replacements(before, tenant)
      + if last.Activated? && last.tenant == tenant && Current(before, tenant).Some? then 1 else 0
  }

  ghost function NeverEnded(log: seq<Event>, tenant: nat): set<nat> {
    (set id | id in SubscriptionsOf(log, tenant)) - EndedIds(log, tenant)
  }

  /** The tenant's entries that the provider holds as active. */
  ghost function ActiveEntries(p: Provider, tenant: nat): set<nat> {
    set id | id in p.subscriptions && p.subscriptions[id].customer == tenant && p.subscriptions[id].status.Active?
  }

  ghost predicate EntryAgrees(p: Provider, log: seq<Event>, tenant: nat, id: nat) {
    && id in p.subscriptions && p.subscriptions[id].customer == tenant
    && p.subscriptions[id].status == if id in EndedIds(log, tenant) then Cancelled else Active
  }

  /** Every provider entry was activated by its customer, and is active unless ended. */
  ghost predicate EntriesAgree(p: Provider, log: seq<Event>) {
    && (forall t, id :: Activates(log, t, id) ==> EntryAgrees(p, log, t, id))
    && (forall id :: id in p.subscriptions ==> Activates(log, p.subscriptions[id].customer, id))
  }

  lemma {:induction false} CurrentIsLast(log: seq<Event>, tenant: nat)
    ensures var ids := SubscriptionsOf(log, tenant);
            Current(log, tenant).Some? ==> ids != [] && CurrentId(log, tenant) == {ids[|ids| - 1]}
    ensures Current(log, tenant).None? ==> CurrentId(log, tenant) == {}
    ensures Current(log, tenant).Some? ==> Current(log, tenant).value.Activated?
  {
    if log != [] {
      CurrentIsLast(log[..|log| - 1], tenant);
    }
  }

  lemma {:induction false} EndedWereActivated(log: seq<Event>, tenant: nat)
    ensures forall id :: id in EndedIds(log, tenant) ==> id in SubscriptionsOf(log, tenant)
  {
    if log != [] {
      EndedWereActivated(log[..|log| - 1], tenant);
      CurrentIsLast(log[..|log| - 1], tenant);
    }
  }

  lemma EndedStep(log: seq<Event>, e: Event, tenant: nat)
    ensures EndedIds(log + [e], tenant) ==
            EndedIds(log, tenant) + if e == Ended(tenant) then CurrentId(log, tenant) else {}
  {
    assert (log + [e])[..|log|] == log;
  }

  lemma ActivatesStep(log: seq<Event>, e: Event, tenant: nat, id: nat)
    ensures Activates(log + [e], tenant, id) <==>
            Activates(log, tenant, id) || (e.Activated? && e.tenant == tenant && e.id == id)
  {
    LogStep(log, e, tenant);
  }

  /** An entry the call leaves alone, unless the call ends it. */
  lemma EntryKept(p: Provider, q: Provider, log: seq<Event>, e: Event, tenant: nat, id: nat)
    requires EntryAgrees(p, log, tenant, id)
    requires id in q.subscriptions && q.subscriptions[id] == p.subscriptions[id]
    requires e == Ended(tenant) ==> id !in CurrentId(log, tenant)
    ensures EntryAgrees(q, log + [e], tenant, id)
  {
    EndedStep(log, e, tenant);
  }

  /** Entries still agree after a call that changed only the entry `changed`. */
  lemma OtherEntriesAgree(p: Provider, q: Provider, log: seq<Event>, e: Event, changed: nat, owner: nat)
    requires EntriesAgree(p, log) && EntryAgrees(q, log + [e], owner, changed)
    requires Activates(log + [e], owner, changed) && q.subscriptions.Keys == p.subscriptions.Keys + {changed}
    requires forall id :: id in p.subscriptions && id != changed ==> q.subscriptions[id] == p.subscriptions[id]
    requires forall t :: Activates(log, t, changed) ==> t == owner
    requires e.Activated? ==> e.id == changed && e.tenant == owner
    requires e.Ended? ==> CurrentId(log, e.tenant) == {changed}
    ensures EntriesAgree(q, log + [e])
  {
    hide Activates, EntryAgrees, CurrentId;
    forall t, id | Activates(log + [e], t, id)
      ensures EntryAgrees(q, log + [e], t, id)
    {
      ActivatesStep(log, e, t, id);
      if id != changed {
        assert EntryAgrees(p, log, t, id);
        EntryIsKnown(p, log, t, id);
        EntryKept(p, q, log, e, t, id);
      }
    }
    forall id | id in q.subscriptions
      ensures Activates(log + [e], q.subscriptions[id].customer, id)
    {
      ActivatesStep(log, e, q.subscriptions[id].customer, id);
      EntryIsKnown(q, log + [e], owner, changed);
    }
  }

  lemma EntryIsKnown(p: Provider, log: seq<Event>, tenant: nat, id: nat)
    requires EntryAgrees(p, log, tenant, id)
    ensures id in p.subscriptions && p.subscriptions[id].customer == tenant
  {
  }

  lemma ActivateKeepsEntries(s: State, log: seq<Event>, tenant: nat, plan: PlanTier, session: string, now: int)
    requires IdsAgree(s.provider, log) && EntriesAgree(s.provider, log)
    requires Activate(s, tenant, plan, session, now).Ok?
    ensures EntriesAgree(Activate(s, tenant, plan, session, now).value.provider,
                         log + [Activated(tenant, plan, s.provider.nextId)])
  {
    hide EntriesAgree;
    var p, q := s.provider, Activate(s, tenant, plan, session, now).value.provider;
    var e := Activated(tenant, plan, p.nextId);
    forall t
      ensures !Activates(log, t, p.nextId)
    {
      ActivatedIdsAreOld(p, log, t);
    }
    hide IdsAgree;
    ActivatesStep(log, e, tenant, p.nextId);
    EndedStep(log, e, tenant);
    EndedWereActivated(log, tenant);
    assert !Activates(log, tenant, p.nextId);
    assert EndedIds(log + [e], tenant) == EndedIds(log, tenant);
    OtherEntriesAgree(p, q, log, e, p.nextId, tenant);
  }

  /** A cancellation ends the entry of the tenant's current subscription, and no other. */
  lemma CancelledProvider(s: State, log: seq<Event>, tenant: nat) returns (id: nat)
    requires RowsAgree(s, log) && Cancel(s, tenant).Ok?
    ensures var (p, q) := (s.provider.subscriptions, Cancel(s, tenant).value.provider.subscriptions);
            id in p && q == p[id := p[id].(status := Cancelled, cancelAtPeriodEnd := true)]
    ensures CurrentId(log, tenant) == {id} && Activates(log, tenant, id)
  {
    OpenRowIsCurrent(s, log, tenant);
    CurrentIsLast(log, tenant);
    var ids := SubscriptionsOf(log, tenant);
    id := ids[|ids| - 1];
  }

  lemma CancelKeepsEntries(s: State, log: seq<Event>, tenant: nat)
    requires IdsAgree(s.provider, log) && RowsAgree(s, log) && EntriesAgree(s.provider, log) && Cancel(s, tenant).Ok?
    ensures EntriesAgree(Cancel(s, tenant).value.provider, log + [Ended(tenant)])
  {
    hide RowsAgree, Cancel, Activates, CurrentId;
    var p, q, e := s.provider, Cancel(s, tenant).value.provider, Ended(tenant);
    var id := CancelledProvider(s, log, tenant);
    assert EntryAgrees(p, log, tenant, id);
    ActivatesStep(log, e, tenant, id);
    EndedStep(log, e, tenant);
    OtherEntriesAgree(p, q, log, e, id, tenant);
  }

  lemma SameEntriesAgree(p: Provider, q: Provider, log: seq<Event>, tenant: nat)
    requires EntriesAgree(p, log) && q.subscriptions == p.subscriptions
    ensures EntriesAgree(q, log) && EntriesAgree(q, log + [Invoiced(tenant)])
  {
    hide Activates;
    forall t, id | Activates(log, t, id)
      ensures EntryAgrees(q, log, t, id)
    {
      assert EntryAgrees(p, log, t, id);
    }
    forall t, id
      ensures Activates(log + [Invoiced(tenant)], t, id) <==> Activates(log, t, id)
      ensures EntryAgrees(q, log, t, id) ==> EntryAgrees(q, log + [Invoiced(tenant)], t, id)
    {
      ActivatesStep(log, Invoiced(tenant), t, id);
      EndedStep(log, Invoiced(tenant), t);
    }
  }

  lemma {:induction false} EveryRunAgreesOnEntries(ops: seq<Op>)
    ensures EntriesAgree(RunAll(ops).state.provider, RunAll(ops).log)
  {
    hide IdsAgree, RowsAgree, InvoicesAgree, Activate, Cancel;
    if ops != [] {
      hide EntriesAgree;
      EveryRunAgreesOnEntries(ops[..|ops| - 1]);
      EveryRunIsConsistent(ops[..|ops| - 1]);
      var b := RunAll(ops[..|ops| - 1]);
      match ops[|ops| - 1] {
        case DoCheckout(token) => SameEntriesAgree(b.state.provider, Checkout(b.state, token).provider, b.log, 0);
        case DoActivate(tenant, plan, session, now) =>
          if Activate(b.state, tenant, plan, session, now).Ok? {
            ActivateKeepsEntries(b.state, b.log, tenant, plan, session, now);
          }
        case DoCancel(tenant) =>
          if Cancel(b.state, tenant).Ok? {
            CancelKeepsEntries(b.state, b.log, tenant);
          }
        case DoInvoice(tenant) =>
          if GenerateInvoice(b.state, tenant).Ok? {
            SameEntriesAgree(b.state.provider, GenerateInvoice(b.state, tenant).value.provider, b.log, tenant);
          }
      }
    }
  }

  lemma FrontHasNoRepeats(front: seq<nat>, ids: seq<nat>)
    requires NoRepeats(ids) && front <= ids
    ensures NoRepeats(front)
    ensures |front| < |ids| ==> ids[|front|] !in front
  {
  }

  lemma NeverEndedStep(before: seq<Event>, last: Event, tenant: nat)
    requires NoRepeats(SubscriptionsOf(before + [last], tenant))
    ensures NoRepeats(SubscriptionsOf(before, tenant))
    ensures var (was, now) := (NeverEnded(before, tenant), NeverEnded(before + [last], tenant));
            if last.tenant != tenant || last.Invoiced? then now == was
            else if last.Activated? then last.id !in was && now == was + {last.id}
            else now == was - CurrentId(before, tenant)
  {
    var ids := SubscriptionsOf(before, tenant);
    LogStep(before, last, tenant);
    EndedStep(before, last, tenant);
    EndedWereActivated(before, tenant);
    FrontHasNoRepeats(ids, SubscriptionsOf(before + [last], tenant));
    hide Current, SubscriptionsOf, EndedIds, CurrentId, NoRepeats;
  }

  lemma {:induction false} CountNeverEnded(log: seq<Event>, tenant: nat)
    requires NoRepeats(SubscriptionsOf(log, tenant))
    ensures |NeverEnded(log, tenant)| == Replacements(log, tenant) + if Current(log, tenant).Some? then 1 else 0
    ensures CurrentId(log, tenant) <= NeverEnded(log, tenant)
  {
    hide NeverEnded, SubscriptionsOf, NoRepeats;
    if log == [] {
      NothingNeverEnded(tenant);
    } else {
      var before, last := log[..|log| - 1], log[|log| - 1];
      assert log == before + [last];
      NeverEndedStep(before, last, tenant);
      CountNeverEnded(before, tenant);
      CurrentIsLast(before, tenant);
    }
  }

  lemma NothingNeverEnded(tenant: nat)
    ensures NeverEnded([], tenant) == {}
  {
  }

  /** After any sequence of calls the tenant's active provider entries are exactly its
      subscriptions that no cancellation ended: the current one, and one more for every
      activation that replaced a current one, since nothing ever cancels those. */
  lemma ReplacedSubscriptionsStayActive(ops: seq<Op>, tenant: nat)
    ensures var (s, log) := (RunAll(ops).state, RunAll(ops).log);
            && ActiveEntries(s.provider, tenant) == NeverEnded(log, tenant)
            && |ActiveEntries(s.provider, tenant)| ==
               Replacements(log, tenant) + (if Current(log, tenant).Some? then 1 else 0)
  {
    hide RunAll, Current, SubscriptionsOf, EndedIds, Replacements, RowsAgree, InvoicesAgree;
    var s, log := RunAll(ops).state, RunAll(ops).log;
    EveryRunIsConsistent(ops);
    EveryRunAgreesOnEntries(ops);
    forall id
      ensures id in ActiveEntries(s.provider, tenant) <==> id in NeverEnded(log, tenant)
    {
      assert Activates(log, tenant, id) ==> EntryAgrees(s.provider, log, tenant, id);
      if id in s.provider.subscriptions {
        var owner := s.provider.subscriptions[id].customer;
        assert Activates(log, owner, id);
      }
    }
    assert NoRepeats(SubscriptionsOf(log, tenant));
    CountNeverEnded(log, tenant);
  }

  /** A tenant that has cancelled has no active provider entry left if and only if none of its
      activations replaced a subscription that was still current. */
  lemma CancellationIsCompleteIff(ops: seq<Op>, tenant: nat)
    requires Current(RunAll(ops).log, tenant).None?
    ensures ActiveEntries(RunAll(ops).state.provider, tenant) == {} <==> Replacements(RunAll(ops).log, tenant) == 0
  {
    ReplacedSubscriptionsStayActive(ops, tenant);
  }

  lemma RunAllStep(ops: seq<Op>, op: Op)
    ensures RunAll(ops + [op]) == Step(RunAll(ops), op)
  {
    assert (ops + [op])[..|ops|] == ops;
  }

  function FirstPlan(tenant: nat): Books {
    var info := Info(Pro, Active, false, 0, PERIOD_DAYS, tenant);
    Books(State(Provider(map[0 := info], map[0 := []], {}, 1), [Row(tenant, info, Some(0), 0)], []),
          [Activated(tenant, Pro, 0)])
  }

  /** The books after a first activation and an upgrade. */
  function Upgraded(tenant: nat): Books {
    var first, second := Info(Pro, Active, false, 0, PERIOD_DAYS, tenant),
                         Info(Business, Active, false, 1, 1 + PERIOD_DAYS, tenant);
    Books(State(Provider(map[0 := first, 1 := second], map[0 := [], 1 := []], {}, 2),
                [Row(tenant, second, Some(1), 0)], []),
          [Activated(tenant, Pro, 0)] + [Activated(tenant, Business, 1)])
  }

  lemma FirstActivation(tenant: nat, session: string)
    requires PREFIX <= session
    ensures Step(Books(EMPTY, []), DoActivate(tenant, Pro, session, 0)) == FirstPlan(tenant)
  {
  }

  lemma SecondActivation(tenant: nat, session: string)
    requires PREFIX <= session
    ensures Step(FirstPlan(tenant), DoActivate(tenant, Business, session, 1)) == Upgraded(tenant)
  {
  }

  lemma UpgradeRuns(tenant: nat, session: string)
    requires PREFIX <= session
    ensures RunAll([DoActivate(tenant, Pro, session, 0), DoActivate(tenant, Business, session, 1)]) == Upgraded(tenant)
  {
    var first, second := DoActivate(tenant, Pro, session, 0), DoActivate(tenant, Business, session, 1);
    RunAllStep([], first);
    RunAllStep([first], second);
    assert RunAll([]) == Books(EMPTY, []);
    assert [] + [first] == [first] && [first] + [second] == [first, second];
    FirstActivation(tenant, session);
    SecondActivation(tenant, session);
    hide RunAll, Step, FirstPlan, Upgraded;
  }

  function UpgradeCancelled(tenant: nat): Books {
    var first, second := Info(Pro, Active, false, 0, PERIOD_DAYS, tenant),
                         Info(Business, Cancelled, true, 1, 1 + PERIOD_DAYS, tenant);
    Books(State(Provider(map[0 := first, 1 := second], map[0 := [], 1 := []], {}, 2),
                [Row(tenant, second, Some(1), 0)], []),
          Upgraded(tenant).log + [Ended(tenant)])
  }

  lemma CancellingTheUpgrade(tenant: nat)
    ensures Step(Upgraded(tenant), DoCancel(tenant)) == UpgradeCancelled(tenant)
  {
  }

  lemma OneEntryIsLeft(tenant: nat)
    ensures var books := UpgradeCancelled(tenant);
            && Current(books.log, tenant).None?
            && EnforcedPlan(books.state.rows, tenant) == Free
            && ActiveEntries(books.state.provider, tenant) == {0}
  {
    LogStep(Upgraded(tenant).log, Ended(tenant), tenant);
    hide Current;
  }

  /** Upgrading and then cancelling: the tenant has no subscription left, yet the provider
      keeps the first one active. */
  lemma UpgradeThenCancelLeavesOneActive(tenant: nat, token: string)
    ensures var session := PREFIX + token;
            var upgrade := [DoActivate(tenant, Pro, session, 0), DoActivate(tenant, Business, session, 1)];
            var books := RunAll(upgrade + [DoCancel(tenant)]);
            && Current(books.log, tenant).None?
            && EnforcedPlan(books.state.rows, tenant) == Free
            && ActiveEntries(books.state.provider, tenant) == {0}
  {
    hide RunAll, Step, Upgraded, UpgradeCancelled, Current, EnforcedPlan, ActiveEntries;
    var session := PREFIX + token;
    var upgrade := [DoActivate(tenant, Pro, session, 0), DoActivate(tenant, Business, session, 1)];
    UpgradeRuns(tenant, session);
    RunAllStep(upgrade, DoCancel(tenant));
    CancellingTheUpgrade(tenant);
    OneEntryIsLeft(tenant);
  }

  // ---------- Figures and statuses ----------

  /** A subscription can be cancelled or invoiced in every status but cancelled, whatever put
      the provider's entry into it. */
  lemma CancellableUnlessCancelled(s: State, tenant: nat, i: nat, id: nat)
    requires OneRowPerTenant(s.rows) && i < |s.rows| && s.rows[i].tenant == tenant && s.rows[i].providerId == Some(id)
    requires id in s.provider.subscriptions && id in s.provider.invoices
    ensures Cancel(s, tenant).Ok? <==> s.rows[i].info.status != Cancelled
    ensures GenerateInvoice(s, tenant).Ok? <==> s.rows[i].info.status != Cancelled
    ensures EnforcedPlan(s.rows, tenant) == if s.rows[i].info.status == Active then s.rows[i].info.plan else Free
  {
    forall k | 0 <= k < |s.rows| && s.rows[k].tenant == tenant
      ensures k == i
    {
    }
  }

  lemma FreshActivation(tenant: nat, plan: PlanTier, session: string, now: int)
    requires PREFIX <= session
    ensures Step(Books(EMPTY, []), DoActivate(tenant, plan, session, now)).log == [Activated(tenant, plan, 0)]
  {
  }

  lemma ActivationIsLogged(tenant: nat, plan: PlanTier, session: string, now: int)
    requires PREFIX <= session
    ensures RunAll([DoActivate(tenant, plan, session, now)]).log == [Activated(tenant, plan, 0)]
  {
    var activate := DoActivate(tenant, plan, session, now);
    RunAllStep([], activate);
    assert [] + [activate] == [activate];
    assert RunAll([]) == Books(EMPTY, []);
    hide RunAll, Step;
    FreshActivation(tenant, plan, session, now);
  }

  lemma FirstInvoiceIsLogged(tenant: nat, plan: PlanTier, session: string, now: int)
    requires PREFIX <= session
    ensures RunAll([DoActivate(tenant, plan, session, now)] + [DoInvoice(tenant)]).log ==
            [Activated(tenant, plan, 0)] + [Invoiced(tenant)]
  {
    hide RunAll, Consistent, GenerateInvoice;
    var ops := [DoActivate(tenant, plan, session, now)];
    ActivationIsLogged(tenant, plan, session, now);
    RunAllStep(ops, DoInvoice(tenant));
    EveryRunIsConsistent(ops);
    ConsistentStateFollowsTheLog(RunAll(ops).state, RunAll(ops).log, tenant);
    CurrentAfterActivation(tenant, plan);
  }

  lemma CurrentAfterActivation(tenant: nat, plan: PlanTier)
    ensures Current([Activated(tenant, plan, 0)], tenant) == Some(Activated(tenant, plan, 0))
    ensures BilledAmounts([Activated(tenant, plan, 0)], tenant) == []
  {
    assert [Activated(tenant, plan, 0)][..0] == [];
  }

  /** A row that names no provider subscription, or one the provider does not know, can be
      neither cancelled nor invoiced. */
  lemma DanglingRowIsRefused(s: State, tenant: nat, i: nat)
    requires OneRowPerTenant(s.rows) && i < |s.rows| && s.rows[i].tenant == tenant
    requires s.rows[i].info.status != Cancelled
    ensures s.rows[i].providerId == None ==>
              && Cancel(s, tenant) == Err(NoProviderSubscription)
              && GenerateInvoice(s, tenant) == Err(NoProviderSubscription)
    ensures s.rows[i].providerId.Some? && s.rows[i].providerId.value !in s.provider.subscriptions ==>
              && Cancel(s, tenant) == Err(ProviderSubscriptionNotFound)
              && GenerateInvoice(s, tenant) == Err(ProviderSubscriptionNotFound)
  {
    forall k | 0 <= k < |s.rows| && s.rows[k].tenant == tenant
      ensures k == i
    {
    }
  }

  /** The first invoice of a new subscription bills the plan's price. */
  lemma FirstInvoice(tenant: nat, plan: PlanTier, token: string, now: int)
    ensures var books := RunAll([DoActivate(tenant, plan, PREFIX + token, now)] + [DoInvoice(tenant)]);
            Amounts(InvoicesOf(books.state.invoices, tenant)) ==
            [match plan case Free => 0 case Pro => 4_900 case Business => 19_900 case Enterprise => 99_900]
  {
    hide RunAll, Current, BilledAmounts, Amounts, InvoicesOf;
    var ops := [DoActivate(tenant, plan, PREFIX + token, now)] + [DoInvoice(tenant)];
    FirstInvoiceIsLogged(tenant, plan, PREFIX + token, now);
    BooksBalance(ops, tenant);
    CurrentAfterActivation(tenant, plan);
    LogStep([Activated(tenant, plan, 0)], Invoiced(tenant), tenant);
  }
}
