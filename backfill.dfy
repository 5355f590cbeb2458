/**
 * The backfill run: fetch every person and every donation of the account,
 * index them, parse the collection report, then reconcile the report record
 * by record. A record whose email matches no person creates that person; a
 * matched record brings the person's adjustments in line with the report and
 * may record a catch-up donation. Every failed create is filed in a ledger
 * under its error message; the run itself goes on.
 */
module Backfill {
  import opened Results
  import opened Text
  import opened Domain
  import opened Remote
  import opened Report
  import opened Fetch
  import opened Index

  /** The tolerance of the "pledge already met" comparison. */
  const Epsilon: real := 0.000000001

  /** Integer division as Go does it: the quotient is truncated toward zero. */
  function Quot(a: int, b: int): int
    requires b > 0
  {
    if a >= 0 then a / b else -((-a) / b)
  }

  /** The remainder left by `Quot` has the sign of the dividend and is smaller than the divisor. */
  lemma QuotRemainder(a: int, b: int)
    requires b > 0
    ensures a >= 0 ==> 0 <= a - b * Quot(a, b) < b
    ensures a < 0 ==> -b < a - b * Quot(a, b) <= 0
  {
  }

  /** The sum of the donations' amounts, in cents. */
  function TotalCents(ds: seq<Donation>): int {
    if ds == [] then 0 else TotalCents(ds[..|ds| - 1]) + ds[|ds| - 1].amountInCents
  }

  lemma {:induction false} TotalCentsAppend(a: seq<Donation>, b: seq<Donation>)
    ensures TotalCents(a + b) == TotalCents(a) + TotalCents(b)
    decreases |b|
  {
    if b != [] {
      assert (a + b)[..|a + b| - 1] == a + b[..|b| - 1];
      TotalCentsAppend(a, b[..|b| - 1]);
    } else {
      assert a + b == a;
    }
  }

  /** The loop that adds up a person's donation history. */
  method SumCents(ds: seq<Donation>) returns (total: int)
    ensures total == TotalCents(ds)
  {
    total := 0;
    for i := 0 to |ds|
      invariant total == TotalCents(ds[..i])
    {
      assert ds[..i + 1][..i] == ds[..i];
      total := total + ds[i].amountInCents;
    }
    assert ds[..|ds|] == ds;
  }

  /** What a matched record calls for. */
  datatype Assessment =
    | PledgeMet        // nothing remains due: no donation
    | NothingOwed      // the report shows less than half a unit more than the history
    | Owed(cents: int) // a catch-up donation of this many cents

  /**
   * The decision for record `c` given the person's donation history in cents:
   * the history counts in whole units (cents divided by 100, truncated).
   */
  function Assess(c: CollectionRecord, historyCents: int): Assessment {
    var cumulative := Quot(historyCents, 100);
    var expectedBalanceDue := c.amountPledged - cumulative as real;
    if expectedBalanceDue - c.amountDue < Epsilon || c.amountDue == 0.0 then PledgeMet
    else
      var delta := c.amountDonated - cumulative as real;
      if delta > 0.0 && delta >= 0.5 then Owed((delta * 100.0).Floor)
      else NothingOwed
  }

  /**
   * The pledge counts as met when the balance the history leaves exceeds the
   * amount due by less than the tolerance, or nothing is due; otherwise a
   * donation is owed exactly when the report shows at least half a unit more
   * than the history, and it is that difference in whole cents, rounded down.
   */
  lemma AssessSpec(c: CollectionRecord, historyCents: int)
    ensures var a := Assess(c, historyCents);
      var cumulative := Quot(historyCents, 100) as real;
      && (a == PledgeMet <==> c.amountPledged - cumulative - c.amountDue < Epsilon || c.amountDue == 0.0)
      && (a.Owed? <==> a != PledgeMet && c.amountDonated - cumulative >= 0.5)
      && (a.Owed? ==>
            && a.cents >= 50
            && a.cents as real <= (c.amountDonated - cumulative) * 100.0 < a.cents as real + 1.0)
  {
  }

  /** What the reconciliation of every record works from. */
  datatype Context = Context(
    account: Account,
    campaign: Campaign,
    byEmail: map<string, Person>,
    groups: map<string, seq<Donation>>)

  /** The person created for a record that matches nobody. */
  function Newcomer(account: Account, c: CollectionRecord): (p: Person)
    ensures p.accounts == [account] && p.id == []
    ensures p.firstName == c.firstName && p.lastName == c.lastName && p.email == c.email
  {
    Person("", c.email, c.firstName, c.lastName, [account])
  }

  /** The catch-up donation recorded for a matched person. */
  function CatchUp(ctx: Context, person: Person, cents: int): (d: Donation)
    ensures d.account == ctx.account && d.person == person && d.campaign == ctx.campaign
    ensures d.donationType == "cash" && d.status == "processed" && d.amountInCents == cents
  {
    Donation("", ctx.account, person, ctx.campaign, "cash", "processed", cents)
  }

  /**
   * The run always names its account on the person it creates, so the client
   * refuses the create only when that account has no id.
   */
  lemma NewcomerAccepted(client: Client, account: Account, c: CollectionRecord)
    ensures account.id == [] ==> client.SavePersonOutcome(Newcomer(account, c)) == Failure(MissingAccount)
    ensures account.id != [] ==> client.SavePersonOutcome(Newcomer(account, c)) == client.personReply(Newcomer(account, c))
  {
  }

  /** Likewise the catch-up donation is refused by the client only when the run's account has no id. */
  lemma CatchUpAccepted(client: Client, ctx: Context, person: Person, cents: int)
    ensures ctx.account.id == [] ==> client.SaveDonationOutcome(CatchUp(ctx, person, cents)) == Failure(MissingAccount)
    ensures ctx.account.id != [] ==>
      client.SaveDonationOutcome(CatchUp(ctx, person, cents)) == client.donationReply(CatchUp(ctx, person, cents))
  {
  }

  /** The requests, store requests and ledger entry one record gives rise to. */
  datatype Outcome = Outcome(calls: seq<Call>, storeCalls: seq<StoreCall>, failure: Option<string>)

  function FailureOf<T>(r: Result<T, string>): Option<string> {
    match r
    case Success(_) => None
    case Failure(e) => Some(e)
  }

  /** The store requests of the adjustment sync: read, then overwrite when the counts differ. */
  function SyncCalls(store: AdjustmentStore, person: Person, declared: seq<Adjustment>): seq<StoreCall> {
    var known := store.stored(person);
    [GetRequest(person)] +
      (if known.Success? && |known.value| != |declared| then [SaveRequest(person, declared)] else [])
  }

  /** How the run reconciles one record. */
  function Reconcile(client: Client, store: AdjustmentStore, ctx: Context, c: CollectionRecord): Outcome
  {
    var key := Lower(c.email);
    if key !in ctx.byEmail then
      var p := Newcomer(ctx.account, c);
      Outcome([SavePersonRequest(p)], [], FailureOf(client.SavePersonOutcome(p)))
    else
      var person := ctx.byEmail[key];
      var sync := SyncCalls(store, person, c.adjustments);
      match Assess(c, TotalCents(GroupOf(ctx.groups, person.id)))
      case Owed(cents) =>
        var d := CatchUp(ctx, person, cents);
        Outcome([SaveDonationRequest(d)], sync, FailureOf(client.SaveDonationOutcome(d)))
      case _ => Outcome([], sync, None)
  }

  /**
   * What reconciling one record does. A record whose lower-cased email
   * matches nobody creates that person and touches nothing else; a matched
   * record reads the person's adjustments, overwrites them only when the
   * store answered and the counts differ, and creates at most a catch-up
   * donation. A record is filed in the ledger exactly when its one create
   * failed, under that failure's message: store errors are never filed.
   */
  lemma ReconcileContract(client: Client, store: AdjustmentStore, ctx: Context, c: CollectionRecord)
    ensures |Reconcile(client, store, ctx, c).calls| <= 1
    ensures Lower(c.email) !in ctx.byEmail ==>
      var o := Reconcile(client, store, ctx, c);
      && |o.calls| == 1 && o.calls[0].SavePersonRequest?
      && o.calls[0].person.id == [] && o.calls[0].person.email == c.email
      && o.calls[0].person.firstName == c.firstName && o.calls[0].person.lastName == c.lastName
      && o.calls[0].person.accounts == [ctx.account]
      && o.storeCalls == []
    ensures Lower(c.email) in ctx.byEmail ==>
      var o := Reconcile(client, store, ctx, c);
      var person := ctx.byEmail[Lower(c.email)];
      var known := store.stored(person);
      && (forall call | call in o.calls :: call.SaveDonationRequest?)
      && |o.storeCalls| >= 1 && o.storeCalls[0] == GetRequest(person)
      && (|o.storeCalls| == 2 <==> known.Success? && |known.value| != |c.adjustments|)
      && (|o.storeCalls| == 2 ==> o.storeCalls[1] == SaveRequest(person, c.adjustments))
      && |o.storeCalls| <= 2
      && (o.calls != [] <==> Assess(c, TotalCents(GroupOf(ctx.groups, person.id))).Owed?)
    ensures forall d | SaveDonationRequest(d) in Reconcile(client, store, ctx, c).calls ::
      var person := ctx.byEmail[Lower(c.email)];
      && d.id == [] && d.account == ctx.account && d.person == person && d.campaign == ctx.campaign
      && d.donationType == "cash" && d.status == "processed"
      && d.amountInCents == Assess(c, TotalCents(GroupOf(ctx.groups, person.id))).cents
    ensures var o := Reconcile(client, store, ctx, c);
      o.failure.Some? ==>
        || (exists p | SavePersonRequest(p) in o.calls :: client.SavePersonOutcome(p) == Failure(o.failure.value))
        || (exists d | SaveDonationRequest(d) in o.calls :: client.SaveDonationOutcome(d) == Failure(o.failure.value))
    ensures var o := Reconcile(client, store, ctx, c);
      o.failure.None? ==>
        && (forall p | SavePersonRequest(p) in o.calls :: client.SavePersonOutcome(p).Success?)
        && (forall d | SaveDonationRequest(d) in o.calls :: client.SaveDonationOutcome(d).Success?)
  {
  }

  /** The client requests for all records, record after record. */
  function Calls(client: Client, store: AdjustmentStore, ctx: Context, rs: seq<CollectionRecord>): seq<Call> {
    if rs == [] then []
    else Calls(client, store, ctx, rs[..|rs| - 1]) + Reconcile(client, store, ctx, rs[|rs| - 1]).calls
  }

  /** The store requests for all records, record after record. */
  function StoreCalls(client: Client, store: AdjustmentStore, ctx: Context, rs: seq<CollectionRecord>): seq<StoreCall> {
    if rs == [] then []
    else StoreCalls(client, store, ctx, rs[..|rs| - 1]) + Reconcile(client, store, ctx, rs[|rs| - 1]).storeCalls
  }

  /** The ledger after filing record `c` under `reason`. */
  function File(ledger: map<string, seq<CollectionRecord>>, reason: string, c: CollectionRecord): map<string, seq<CollectionRecord>> {
    ledger[reason := GroupOf(ledger, reason) + [c]]
  }

  /** The reason, if any, a record is filed under. */
  function FailureKey(client: Client, store: AdjustmentStore, ctx: Context): CollectionRecord -> Option<string> {
    c => Reconcile(client, store, ctx, c).failure
  }

  /** The failure ledger: the records whose create failed, grouped by the error message. */
  function Ledger(client: Client, store: AdjustmentStore, ctx: Context, rs: seq<CollectionRecord>): map<string, seq<CollectionRecord>> {
    Group(rs, FailureKey(client, store, ctx))
  }

  /** Records are reconciled one after the other: the requests of a longer report extend those of its prefix. */
  lemma {:induction false} CallsAppend(client: Client, store: AdjustmentStore, ctx: Context,
                                       rs: seq<CollectionRecord>, more: seq<CollectionRecord>)
    ensures Calls(client, store, ctx, rs + more) == Calls(client, store, ctx, rs) + Calls(client, store, ctx, more)
    ensures StoreCalls(client, store, ctx, rs + more) == StoreCalls(client, store, ctx, rs) + StoreCalls(client, store, ctx, more)
    decreases |more|
  {
    if more == [] {
      assert rs + more == rs;
    } else {
      var front := more[..|more| - 1];
      assert (rs + more)[..|rs + more| - 1] == rs + front;
      assert (rs + more)[|rs + more| - 1] == more[|more| - 1];
      CallsAppend(client, store, ctx, rs, front);
    }
  }

  /**
   * Failure isolation: a reason is in the ledger exactly when some record's
   * create failed with it, and its entry is every such record, in report order.
   */
  lemma LedgerSpec(client: Client, store: AdjustmentStore, ctx: Context, rs: seq<CollectionRecord>, reason: string)
    ensures reason in Ledger(client, store, ctx, rs) <==>
      exists i :: 0 <= i < |rs| && Reconcile(client, store, ctx, rs[i]).failure == Some(reason)
    ensures forall c :: c in GroupOf(Ledger(client, store, ctx, rs), reason) <==>
      c in rs && Reconcile(client, store, ctx, c).failure == Some(reason)
    ensures GroupOf(Ledger(client, store, ctx, rs), reason) == Having(rs, FailureKey(client, store, ctx), reason)
  {
    var key := FailureKey(client, store, ctx);
    GroupSpec(rs, key, reason);
    HavingMembers(rs, key, reason);
    assert forall i :: 0 <= i < |rs| ==> key(rs[i]) == Reconcile(client, store, ctx, rs[i]).failure;
  }

  /** `Floor` moves past a whole number. */
  lemma FloorShift(x: real, n: int)
    ensures (x - n as real).Floor == x.Floor - n
  {
    var f := x.Floor;
    assert (f - n) as real <= x - n as real < (f - n) as real + 1.0;
  }

  /**
   * A second run after the catch-up donation has been recorded owes nothing
   * when the reported amount's cents are below one half: the donation brings
   * the history up to the reported amount, and the truncated whole-unit
   * cumulative then falls short of it by less than half a unit.
   */
  lemma RerunOwesNothing(c: CollectionRecord, historyCents: int)
    requires historyCents >= 0
    requires Assess(c, historyCents).Owed?
    requires (c.amountDonated * 100.0).Floor % 100 < 50
    ensures !Assess(c, historyCents + Assess(c, historyCents).cents).Owed?
  {
    var cumulative := Quot(historyCents, 100);
    var k := Assess(c, historyCents).cents;
    var f := (c.amountDonated * 100.0).Floor;
    assert (c.amountDonated - cumulative as real) * 100.0 == c.amountDonated * 100.0 - (100 * cumulative) as real;
    FloorShift(c.amountDonated * 100.0, 100 * cumulative);
    assert k == f - 100 * cumulative;
    var later := historyCents + k;
    assert later >= 0;
    var cumulative' := Quot(later, 100);
    assert later == historyCents - 100 * cumulative + f;
    assert cumulative' >= f / 100;
    assert c.amountDonated * 100.0 < (f + 1) as real;
    assert (f / 100) as real * 100.0 + 50.0 >= (f + 1) as real;
    assert c.amountDonated - cumulative' as real < 0.5;
  }

  /** A report whose cents are half a unit or more owes the cents again on the second run. */
  lemma RerunOwesAgain()
    ensures var c := CollectionRecord("Jane", "Doe", "jane@x.com", 150.75, 49.25, 200.0, []);
      Assess(c, 0) == Owed(15075) && Assess(c, 15075) == Owed(75)
  {
    var c := CollectionRecord("Jane", "Doe", "jane@x.com", 150.75, 49.25, 200.0, []);
    assert Quot(15075, 100) == 150;
    assert ((150.75 - 150.0) * 100.0).Floor == 75 by {
      assert (150.75 - 150.0) * 100.0 == 75.0;
    }
    assert ((150.75 - 0.0) * 100.0).Floor == 15075 by {
      assert (150.75 - 0.0) * 100.0 == 15075.0;
    }
  }

  /**
   * A second run after the catch-up donation has been recorded, in general.
   * With `b` the reported amount's cents, the history then holds its own
   * sub-unit cents plus the reported amount. When those cents and `b` stay
   * below one unit, the truncated cumulative falls `b` cents short of the
   * report, so a record that is not a met pledge owes `b` cents again when
   * `b` is at least one half. When they reach a whole unit, the cumulative
   * passes the report and nothing is owed.
   */
  lemma RerunOwes(c: CollectionRecord, historyCents: int)
    requires historyCents >= 0
    requires Assess(c, historyCents).Owed?
    ensures var b := (c.amountDonated * 100.0).Floor % 100;
      var second := Assess(c, historyCents + Assess(c, historyCents).cents);
      && (historyCents % 100 + b < 100 && b >= 50 && second != PledgeMet ==> second == Owed(b))
      && (historyCents % 100 + b >= 100 ==> !second.Owed?)
  {
    var cumulative := Quot(historyCents, 100);
    var k := Assess(c, historyCents).cents;
    var f := (c.amountDonated * 100.0).Floor;
    var b := f % 100;
    assert (c.amountDonated - cumulative as real) * 100.0 == c.amountDonated * 100.0 - (100 * cumulative) as real;
    FloorShift(c.amountDonated * 100.0, 100 * cumulative);
    assert k == f - 100 * cumulative;
    var later := historyCents + k;
    assert later == 100 * (f / 100) + (historyCents % 100 + b);
    var cumulative' := Quot(later, 100);
    var delta' := c.amountDonated - cumulative' as real;
    assert delta' * 100.0 == c.amountDonated * 100.0 - (100 * cumulative') as real;
    if historyCents % 100 + b < 100 {
      assert cumulative' == f / 100;
      FloorShift(c.amountDonated * 100.0, 100 * cumulative');
      assert (delta' * 100.0).Floor == b;
      if b >= 50 {
        assert delta' * 100.0 >= 50.0;
      }
    } else {
      assert cumulative' == f / 100 + 1;
      assert c.amountDonated * 100.0 < (f + 1) as real;
      assert delta' < 0.0;
    }
  }

  /**
   * A history of 10060 cents: the first run owes 5075 cents, and its 60
   * sub-unit cents with the report's 75 pass a whole unit, so the second run
   * finds the pledge met.
   */
  lemma RerunHistoryCentsExample()
    ensures var c := CollectionRecord("Jane", "Doe", "jane@x.com", 150.75, 49.25, 200.0, []);
      Assess(c, 10060) == Owed(5075) && Assess(c, 15135) == PledgeMet
  {
    assert Quot(10060, 100) == 100;
    assert Quot(15135, 100) == 151;
    assert ((150.75 - 100.0) * 100.0).Floor == 5075 by {
      assert (150.75 - 100.0) * 100.0 == 5075.0;
    }
  }

  /**
   * A history of 10000 cents against a report of 150 donated, 200 pledged
   * and 50 due owes a donation of 5000 cents.
   */
  lemma CatchUpExample()
    ensures Assess(CollectionRecord("Jane", "Doe", "jane@x.com", 150.0, 50.0, 200.0, []), 10000) == Owed(5000)
  {
    assert Quot(10000, 100) == 100;
    assert ((150.0 - 100.0) * 100.0).Floor == 5000 by {
      assert (150.0 - 100.0) * 100.0 == 5000.0;
    }
  }

  /** With nothing due, the same record is taken as a met pledge and owes nothing. */
  lemma NothingDueExample()
    ensures Assess(CollectionRecord("Jane", "Doe", "jane@x.com", 150.0, 0.0, 200.0, []), 10000) == PledgeMet
  {
  }

  /** Why a run stopped early. */
  datatype RunError =
    | PageFailed(message: string)  // a list request failed
    | ReportFailed(error: ParseError)

  /** The indices the run builds from what it fetched. */
  function ContextOf(account: Account, campaign: Campaign, people: seq<Person>, donations: seq<Donation>): Context {
    Context(account, campaign, LastWins(people, EmailKey, Itself), Group(donations, PersonKey))
  }

  /** The body of the record loop. */
  method ReconcileRecord(client: Client, store: AdjustmentStore, ctx: Context, c: CollectionRecord,
                         ledger: map<string, seq<CollectionRecord>>)
    returns (ledger': map<string, seq<CollectionRecord>>)
    modifies client, store
    ensures client.calls == old(client.calls) + Reconcile(client, store, ctx, c).calls
    ensures store.calls == old(store.calls) + Reconcile(client, store, ctx, c).storeCalls
    ensures ledger' == match Reconcile(client, store, ctx, c).failure
                       case None => ledger
                       case Some(reason) => File(ledger, reason, c)
  {
    var key := Lower(c.email);
    if key !in ctx.byEmail {
      ledger' := AddMissingPerson(client, ctx.account, c, ledger);
    } else {
      ledger' := Settle(client, store, ctx, c, ctx.byEmail[key], ledger);
    }
  }

  /** A record that matches nobody: create the person, filing the record if that fails. */
  method AddMissingPerson(client: Client, account: Account, c: CollectionRecord,
                          ledger: map<string, seq<CollectionRecord>>)
    returns (ledger': map<string, seq<CollectionRecord>>)
    modifies client
    ensures client.calls == old(client.calls) + [SavePersonRequest(Newcomer(account, c))]
    ensures ledger' == match client.SavePersonOutcome(Newcomer(account, c))
                       case Success(_) => ledger
                       case Failure(reason) => File(ledger, reason, c)
  {
    ledger' := ledger;
    var p := Person("", c.email, c.firstName, c.lastName, [account]);
    var saved := client.SavePerson(p);
    if saved.Failure? {
      if saved.error !in ledger' {
        ledger' := ledger'[saved.error := []];
      }
      ledger' := ledger'[saved.error := ledger'[saved.error] + [c]];
    }
  }

  /** The adjustment sync: read the stored adjustments, overwrite them when the counts differ. */
  method SyncAdjustments(store: AdjustmentStore, person: Person, declared: seq<Adjustment>)
    modifies store
    ensures store.calls == old(store.calls) + SyncCalls(store, person, declared)
  {
    var adjustments := store.GetAdjustmentsByPerson(person);
    if adjustments.Success? && |adjustments.value| != |declared| {
      var err := store.SaveAdjustments(person, declared);
    }
  }

  /** A matched record: sync the adjustments, then create the catch-up donation if one is owed. */
  method Settle(client: Client, store: AdjustmentStore, ctx: Context, c: CollectionRecord, person: Person,
                ledger: map<string, seq<CollectionRecord>>)
    returns (ledger': map<string, seq<CollectionRecord>>)
    modifies client, store
    ensures store.calls == old(store.calls) + SyncCalls(store, person, c.adjustments)
    ensures match Assess(c, TotalCents(GroupOf(ctx.groups, person.id)))
            case Owed(cents) =>
              && client.calls == old(client.calls) + [SaveDonationRequest(CatchUp(ctx, person, cents))]
              && ledger' == (match client.SaveDonationOutcome(CatchUp(ctx, person, cents))
                             case Success(_) => ledger
                             case Failure(reason) => File(ledger, reason, c))
            case _ => client.calls == old(client.calls) && ledger' == ledger
  {
    ledger' := ledger;
    var donations := if person.id in ctx.groups then ctx.groups[person.id] else [];
    SyncAdjustments(store, person, c.adjustments);
    var cumulativeDonationInCents := SumCents(donations);
    var cumulativeDonation := Quot(cumulativeDonationInCents, 100);
    var expectedBalanceDue := c.amountPledged - cumulativeDonation as real;
    if expectedBalanceDue - c.amountDue < Epsilon || c.amountDue == 0.0 {
      return;
    }
    var delta := c.amountDonated - cumulativeDonation as real;
    if delta > 0.0 && delta >= 0.5 {
      var donation := Donation("", ctx.account, person, ctx.campaign, "cash", "processed", (delta * 100.0).Floor);
      var saved := client.SaveDonation(donation);
      if saved.Failure? {
        ledger' := ledger'[saved.error := GroupOf(ledger', saved.error) + [c]];
      }
    }
  }

  /** The loop's invariants across one more record. */
  lemma RecordStep(client: Client, store: AdjustmentStore, ctx: Context, records: seq<CollectionRecord>, i: nat)
    requires i < |records|
    ensures var o := Reconcile(client, store, ctx, records[i]);
      && Calls(client, store, ctx, records[..i + 1]) == Calls(client, store, ctx, records[..i]) + o.calls
      && StoreCalls(client, store, ctx, records[..i + 1]) == StoreCalls(client, store, ctx, records[..i]) + o.storeCalls
      && Ledger(client, store, ctx, records[..i + 1]) ==
           match o.failure
           case None => Ledger(client, store, ctx, records[..i])
           case Some(reason) => File(Ledger(client, store, ctx, records[..i]), reason, records[i])
  {
    assert records[..i + 1][..i] == records[..i];
  }

  /** The record loop: every record in report order, failures filed in the ledger. */
  method ReconcileAll(client: Client, store: AdjustmentStore, ctx: Context, records: seq<CollectionRecord>)
    returns (ledger: map<string, seq<CollectionRecord>>)
    modifies client, store
    ensures ledger == Ledger(client, store, ctx, records)
    ensures client.calls == old(client.calls) + Calls(client, store, ctx, records)
    ensures store.calls == old(store.calls) + StoreCalls(client, store, ctx, records)
  {
    ledger := map[];
    for i := 0 to |records|
      invariant ledger == Ledger(client, store, ctx, records[..i])
      invariant client.calls == old(client.calls) + Calls(client, store, ctx, records[..i])
      invariant store.calls == old(store.calls) + StoreCalls(client, store, ctx, records[..i])
    {
      RecordStep(client, store, ctx, records, i);
      ledger := ReconcileRecord(client, store, ctx, records[i], ledger);
    }
    assert records[..|records|] == records;
  }

  /**
   * The whole run. A failed list request ends it with that request's error
   * before the report is read; a bad report ends it before any write; otherwise
   * every record is reconciled in report order and the ledger is the result.
   */
  method Run(client: Client, store: AdjustmentStore, account: Account, campaign: Campaign,
             header: seq<string>, rows: seq<seq<string>>)
    returns (r: Result<map<string, seq<CollectionRecord>>, RunError>)
    requires Rectangular(header, rows)
    modifies client, store
    ensures var people := Walk(client.people(account), 0);
      var peopleCalls := PeopleRequests(account, Offsets(client.people(account), 0));
      var donations := Walk(client.donations(account), 0);
      var donationCalls := DonationsRequests(account, Offsets(client.donations(account), 0));
      var report := ParseReport(header, rows);
      && (people.Failure? ==>
            r == Failure(PageFailed(people.error)) &&
            client.calls == old(client.calls) + peopleCalls && store.calls == old(store.calls))
      && (people.Success? && donations.Failure? ==>
            r == Failure(PageFailed(donations.error)) &&
            client.calls == old(client.calls) + peopleCalls + donationCalls && store.calls == old(store.calls))
      && (people.Success? && donations.Success? && report.Failure? ==>
            r == Failure(ReportFailed(report.error)) &&
            client.calls == old(client.calls) + peopleCalls + donationCalls && store.calls == old(store.calls))
      && (people.Success? && donations.Success? && report.Success? ==>
            var ctx := ContextOf(account, campaign, people.value, donations.value);
            r == Success(Ledger(client, store, ctx, report.value)) &&
            client.calls == old(client.calls) + peopleCalls + donationCalls + Calls(client, store, ctx, report.value) &&
            store.calls == old(store.calls) + StoreCalls(client, store, ctx, report.value))
  {
    var allDonors := FetchPeople(client, account);
    if allDonors.Failure? {
      return Failure(PageFailed(allDonors.error));
    }
    var donorsByEmailAddress := IndexByEmail(allDonors.value);
    var allDonations := FetchDonations(client, account);
    if allDonations.Failure? {
      return Failure(PageFailed(allDonations.error));
    }
    var donationsByPersonId := GroupByPerson(allDonations.value);
    var collectionRecords := ParseCollectionReport(header, rows);
    if collectionRecords.Failure? {
      return Failure(ReportFailed(collectionRecords.error));
    }
    var ctx := Context(account, campaign, donorsByEmailAddress, donationsByPersonId);
    var recordsByFailureReason := ReconcileAll(client, store, ctx, collectionRecords.value);
    return Success(recordsByFailureReason);
  }
}
