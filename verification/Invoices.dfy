/** Invoice webhooks: the table is a fold over the events, whatever order the invoices are interleaved in. */
module Invoices {
  import opened Base
  import opened Tables

  datatype InvoiceStatus = Draft | Open | Paid

  /** Amounts are in cents. */
  datatype Invoice = Invoice(
    stripeId: string,
    customer: Id,
    subscription: Option<Id>,
    amountDue: int,
    amountPaid: int,
    status: InvoiceStatus,
    pdf: Option<string>,
    paidAt: Option<Instant>
  )

  datatype Kind = InvoicePaid | PaymentFailed

  /** An event with the subscription it resolves to, its instant, and the id drawn should it create a row. */
  datatype Webhook = Webhook(
    kind: Kind,
    invoice: string,
    customer: string,
    subscription: Option<Id>,
    amountDue: int,
    amountPaid: int,
    pdf: Option<string>,
    at: Instant,
    newId: Id
  )

  function RowsFor(invoices: map<Id, Invoice>, stripeId: string): set<Id> {
    set i | i in invoices && invoices[i].stripeId == stripeId
  }

  /** The event names an invoice and a customer that is known. */
  predicate Heeded(customers: map<string, Id>, e: Webhook) {
    e.invoice != "" && e.customer != "" && e.customer in customers
  }

  /** The row an event makes of an existing one. */
  function Updated(row: Invoice, e: Webhook): Invoice {
    if e.kind.InvoicePaid? then
      row.(status := Paid, amountPaid := e.amountPaid, paidAt := Some(e.at), pdf := e.pdf)
    else row.(status := Open)
  }

  /** The row an event creates. */
  function Fresh(customers: map<string, Id>, e: Webhook): Invoice
    requires Heeded(customers, e)
  {
    if e.kind.InvoicePaid? then
      Invoice(e.invoice, customers[e.customer], e.subscription, e.amountDue, e.amountPaid, Paid, e.pdf, Some(e.at))
    else Invoice(e.invoice, customers[e.customer], None, e.amountDue, 0, Open, e.pdf, None)
  }

  /** The row with the event's invoice id is updated, or one is created under a new id. */
  function Handle(customers: map<string, Id>, invoices: map<Id, Invoice>, e: Webhook): map<Id, Invoice> {
    if !Heeded(customers, e) then invoices
    else
      var found := Sole(RowsFor(invoices, e.invoice));
      if found.One? then
        if found.id in invoices then invoices[found.id := Updated(invoices[found.id], e)] else invoices
      else if found.Many? || e.newId in invoices then invoices
      else invoices[e.newId := Fresh(customers, e)]
  }

  function HandleAll(customers: map<string, Id>, invoices: map<Id, Invoice>, es: seq<Webhook>): map<Id, Invoice> {
    if es == [] then invoices
    else Handle(customers, HandleAll(customers, invoices, es[..|es| - 1]), es[|es| - 1])
  }

  /** At most one invoice per Stripe id. */
  ghost predicate OnePerStripeId(invoices: map<Id, Invoice>) {
    forall i <- invoices, j <- invoices :: invoices[i].stripeId == invoices[j].stripeId ==> i == j
  }

  lemma FoundRow(invoices: map<Id, Invoice>, stripeId: string)
    requires OnePerStripeId(invoices)
    ensures var found := Sole(RowsFor(invoices, stripeId));
      && !found.Many?
      && (found.One? ==> found.id in invoices && invoices[found.id].stripeId == stripeId)
      && (found.Missing? ==> forall i <- invoices :: invoices[i].stripeId != stripeId)
  {
    var rows := RowsFor(invoices, stripeId);
    if rows != {} {
      var i :| i in rows;
      assert rows == {i};
      SoleIs(rows, i);
    } else {
      forall i | i in invoices ensures invoices[i].stripeId != stripeId {
        assert i !in rows;
      }
    }
  }

  lemma HandlingKeepsOnePerId(customers: map<string, Id>, invoices: map<Id, Invoice>, e: Webhook)
    requires OnePerStripeId(invoices)
    ensures OnePerStripeId(Handle(customers, invoices, e))
  {
    FoundRow(invoices, e.invoice);
  }

  // ---------------------------------------------------------------- what the fold amounts to

  /** The events that name one invoice and a known customer, in order, paid or failed. */
  function For(customers: map<string, Id>, es: seq<Webhook>, stripeId: string): seq<Webhook> {
    if es == [] then []
    else
      var last := es[|es| - 1];
      For(customers, es[..|es| - 1], stripeId)
      + if stripeId != "" && last.invoice == stripeId && last.customer != "" && last.customer in customers then [last]
        else []
  }

  function LastPaid(es: seq<Webhook>): Option<Webhook> {
    if es == [] then None
    else if es[|es| - 1].kind.InvoicePaid? then Some(es[|es| - 1])
    else LastPaid(es[..|es| - 1])
  }

  /**
   Who it is for and what is due come from the first event, the payment from the last paid one, the status
   from the last.
   */
  function Outcome(customers: map<string, Id>, es: seq<Webhook>): Invoice
    requires es != [] && es[0].customer in customers
  {
    var first, last, paid := es[0], es[|es| - 1], LastPaid(es);
    Invoice(
      first.invoice, customers[first.customer], if first.kind.InvoicePaid? then first.subscription else None,
      first.amountDue,
      if paid.Some? then paid.value.amountPaid else 0,
      if last.kind.InvoicePaid? then Paid else Open,
      if paid.Some? then paid.value.pdf else first.pdf,
      if paid.Some? then Some(paid.value.at) else None)
  }

  lemma {:induction false} CountingEventsAreHeeded(customers: map<string, Id>, es: seq<Webhook>, stripeId: string)
    ensures forall e <- For(customers, es, stripeId) :: Heeded(customers, e) && e.invoice == stripeId && e in es
  {
    if es == [] {
    } else {
      CountingEventsAreHeeded(customers, es[..|es| - 1], stripeId);
    }
  }

  ghost predicate DistinctIds(es: seq<Webhook>) {
    forall i, j :: 0 <= i < j < |es| ==> es[i].newId != es[j].newId
  }

  /** No event leaves no row; otherwise exactly one row shows their outcome. */
  ghost predicate Shows(customers: map<string, Id>, invoices: map<Id, Invoice>, stripeId: string, es: seq<Webhook>) {
    if es == [] then RowsFor(invoices, stripeId) == {}
    else
      && es[0].customer in customers && RowsFor(invoices, stripeId) == {es[0].newId}
      && es[0].newId in invoices && invoices[es[0].newId] == Outcome(customers, es)
  }

  lemma {:induction false} OnlyDrawnIds(customers: map<string, Id>, es: seq<Webhook>)
    ensures forall i <- HandleAll(customers, map[], es) :: exists e <- es :: e.newId == i
  {
    if es == [] {
    } else {
      var init, last := es[..|es| - 1], es[|es| - 1];
      OnlyDrawnIds(customers, init);
      forall i | i in HandleAll(customers, map[], es) ensures exists e <- es :: e.newId == i {
        if i in HandleAll(customers, map[], init) {
          var e :| e in init && e.newId == i;
          assert e in es;
        } else {
          assert last in es;
        }
      }
    }
  }

  /** One more event for the invoice. */
  lemma OneMoreShown(customers: map<string, Id>, invoices: map<Id, Invoice>, es: seq<Webhook>, e: Webhook)
    requires Heeded(customers, e) && Shows(customers, invoices, e.invoice, es) && e.newId !in invoices
    requires es != [] ==> es[0].invoice == e.invoice
    ensures Shows(customers, Handle(customers, invoices, e), e.invoice, es + [e])
  {
    var after := Handle(customers, invoices, e);
    assert (es + [e])[..|es + [e]| - 1] == es;
    if es == [] {
      assert es + [e] == [e] && [e][0] == e;
      assert RowsFor(after, e.invoice) == {e.newId};
      assert LastPaid([e]) == if e.kind.InvoicePaid? then Some(e) else None;
      assert Outcome(customers, [e]) == Fresh(customers, e);
    } else {
      assert (es + [e])[0] == es[0];
      SoleIs(RowsFor(invoices, e.invoice), es[0].newId);
      assert RowsFor(after, e.invoice) == RowsFor(invoices, e.invoice);
    }
  }

  /** An event for another invoice. */
  lemma OthersStayShown(customers: map<string, Id>, invoices: map<Id, Invoice>, stripeId: string,
                        es: seq<Webhook>, e: Webhook)
    requires OnePerStripeId(invoices) && e.newId !in invoices && (Heeded(customers, e) ==> e.invoice != stripeId)
    requires Shows(customers, invoices, stripeId, es)
    ensures Shows(customers, Handle(customers, invoices, e), stripeId, es)
  {
    FoundRow(invoices, e.invoice);
    assert es != [] ==> es[0].newId in RowsFor(invoices, stripeId);
    assert RowsFor(Handle(customers, invoices, e), stripeId) == RowsFor(invoices, stripeId);
  }

  /**
   After any sequence of invoice events over a fixed customer table there is at most one row per Stripe id.
   It exists exactly when some heeded event names it, its status is that of the last such event, the amount
   paid, the document and the payment time are those of the last paid one, and the amount due is the first's.
   */
  lemma {:induction false} TableIsTheFold(customers: map<string, Id>, es: seq<Webhook>, stripeId: string)
    requires DistinctIds(es)
    ensures var invoices := HandleAll(customers, map[], es);
      OnePerStripeId(invoices) && Shows(customers, invoices, stripeId, For(customers, es, stripeId))
  {
    hide Handle;
    if es == [] {
      assert RowsFor(map[], stripeId) == {};
    } else {
      var init, last := es[..|es| - 1], es[|es| - 1];
      TableIsTheFold(customers, init, stripeId);
      CountingEventsAreHeeded(customers, init, stripeId);
      OnlyDrawnIds(customers, init);
      FoldStep(customers, HandleAll(customers, map[], init), stripeId, For(customers, init, stripeId), last);
    }
  }

  lemma FoldStep(customers: map<string, Id>, invoices: map<Id, Invoice>, stripeId: string, es: seq<Webhook>, e: Webhook)
    requires OnePerStripeId(invoices) && Shows(customers, invoices, stripeId, es) && e.newId !in invoices
    requires forall e' <- es :: e'.invoice == stripeId
    ensures var after := Handle(customers, invoices, e);
      && OnePerStripeId(after)
      && Shows(customers, after, stripeId, es + if Heeded(customers, e) && e.invoice == stripeId then [e] else [])
  {
    hide Handle, OnePerStripeId, Shows, Heeded;
    HandlingKeepsOnePerId(customers, invoices, e);
    if Heeded(customers, e) && e.invoice == stripeId {
      OneMoreShown(customers, invoices, es, e);
    } else {
      OthersStayShown(customers, invoices, stripeId, es, e);
      assert es + [] == es;
    }
  }

  // ---------------------------------------------------------------- order and repetition

  /** Events for different invoices commute. */
  lemma DifferentInvoicesCommute(customers: map<string, Id>, invoices: map<Id, Invoice>, a: Webhook, b: Webhook)
    requires OnePerStripeId(invoices) && a.invoice != b.invoice
    requires a.newId !in invoices && b.newId !in invoices && a.newId != b.newId
    ensures Handle(customers, Handle(customers, invoices, a), b) == Handle(customers, Handle(customers, invoices, b), a)
  {
    RowsOfOther(customers, invoices, a, b.invoice);
    RowsOfOther(customers, invoices, b, a.invoice);
    FoundRow(invoices, a.invoice);
    FoundRow(invoices, b.invoice);
  }

  lemma RowsOfOther(customers: map<string, Id>, invoices: map<Id, Invoice>, e: Webhook, stripeId: string)
    requires OnePerStripeId(invoices) && e.invoice != stripeId && e.newId !in invoices
    ensures RowsFor(Handle(customers, invoices, e), stripeId) == RowsFor(invoices, stripeId)
  {
    FoundRow(invoices, e.invoice);
  }

  predicate SameButPaidAt(invoices: map<Id, Invoice>, invoices': map<Id, Invoice>) {
    && invoices'.Keys == invoices.Keys
    && forall i <- invoices :: invoices'[i] == invoices[i].(paidAt := invoices'[i].paidAt)
  }

  /** Delivering the last event once more changes nothing but, for a payment, the time it is said to be paid at. */
  lemma RepetitionChangesOnlyPaidAt(customers: map<string, Id>, invoices: map<Id, Invoice>, e: Webhook, again: Webhook)
    requires OnePerStripeId(invoices) && e.newId !in invoices
    requires again == e.(at := again.at, newId := again.newId)
    ensures var once := Handle(customers, invoices, e);
            var twice := Handle(customers, once, again);
      SameButPaidAt(once, twice) && (e.kind.PaymentFailed? ==> twice == once)
  {
    FoundRow(invoices, e.invoice);
    var once := Handle(customers, invoices, e);
    HandlingKeepsOnePerId(customers, invoices, e);
    FoundRow(once, e.invoice);
    if Heeded(customers, e) {
      var found := Sole(RowsFor(invoices, e.invoice));
      var i := if found.One? then found.id else e.newId;
      assert i in once && once[i].stripeId == e.invoice;
      assert Sole(RowsFor(once, e.invoice)) == One(i);
      assert once[i := once[i]] == once;
    }
  }

  // ---------------------------------------------------------------- the service

  class InvoiceWebhooks {
    const customers: map<string, Id>
    var invoices: map<Id, Invoice>

    /** The events handled so far. */
    ghost var log: seq<Webhook>

    ghost predicate Valid()
      reads this
    {
      DistinctIds(log) && invoices == HandleAll(customers, map[], log)
    }

    constructor (customers: map<string, Id>)
      ensures this.customers == customers && invoices == map[]
      ensures Valid() && log == []
    {
      this.customers := customers;
      invoices := map[];
      log := [];
    }

    /** InvoiceRepository.create: rejected when the key or the Stripe id is taken. */
    method Create(id: Id, row: Invoice)
      modifies this`invoices
      ensures invoices == if id in old(invoices) || RowsFor(old(invoices), row.stripeId) != {} then old(invoices)
                          else old(invoices)[id := row]
    {
      if id !in invoices && RowsFor(invoices, row.stripeId) == {} {
        invoices := invoices[id := row];
      }
    }

    /** InvoiceRepository.update: what the invoice stands at is written, whose it is and for what stays. */
    method Update(id: Id, entity: Invoice)
      modifies this`invoices
      ensures invoices.Keys == old(invoices).Keys
      ensures forall i <- invoices :: i != id ==> invoices[i] == old(invoices)[i]
      ensures id in invoices ==>
                var row, was := invoices[id], old(invoices)[id];
                && row.stripeId == was.stripeId && row.customer == was.customer && row.subscription == was.subscription
                && row.amountDue == entity.amountDue && row.amountPaid == entity.amountPaid
                && row.status == entity.status && row.pdf == entity.pdf && row.paidAt == entity.paidAt
      ensures forall s :: RowsFor(invoices, s) == RowsFor(old(invoices), s)
    {
      if id in invoices {
        invoices := invoices[id := invoices[id].(amountDue := entity.amountDue, amountPaid := entity.amountPaid,
                                                 status := entity.status, pdf := entity.pdf, paidAt := entity.paidAt)];
      }
    }

    method HandleInvoicePaid(e: Webhook)
      requires e.kind.InvoicePaid?
      modifies this`invoices
      ensures invoices == Handle(customers, old(invoices), e)
    {
      if e.invoice == "" || e.customer == "" || e.customer !in customers {
        return;
      }
      var found := Sole(RowsFor(invoices, e.invoice));
      if found.One? {
        var entity := invoices[found.id].(status := Paid, amountPaid := e.amountPaid, paidAt := Some(e.at),
                                             pdf := e.pdf);
        Update(found.id, entity);
      } else {
        Create(e.newId, Invoice(e.invoice, customers[e.customer], e.subscription, e.amountDue, e.amountPaid, Paid,
                                e.pdf, Some(e.at)));
      }
    }

    method HandleInvoicePaymentFailed(e: Webhook)
      requires e.kind.PaymentFailed?
      modifies this`invoices
      ensures invoices == Handle(customers, old(invoices), e)
    {
      if e.invoice == "" || e.customer == "" || e.customer !in customers {
        return;
      }
      var found := Sole(RowsFor(invoices, e.invoice));
      if found.One? {
        Update(found.id, invoices[found.id].(status := Open));
      } else {
        Create(e.newId, Invoice(e.invoice, customers[e.customer], None, e.amountDue, 0, Open, e.pdf, None));
      }
    }

    /**
     The dispatch of one webhook. Whatever was handled before, there is one row per Stripe id, and it shows
     the outcome of all the events for that invoice.
     */
    method HandleStripeWebhook(e: Webhook)
      requires Valid() && forall e' <- log :: e'.newId != e.newId
      modifies this
      ensures Valid() && log == old(log) + [e]
      ensures OnePerStripeId(invoices)
      ensures forall s :: Shows(customers, invoices, s, For(customers, log, s))
    {
      if e.kind.InvoicePaid? {
        HandleInvoicePaid(e);
      } else {
        HandleInvoicePaymentFailed(e);
      }
      log := log + [e];
      assert log[..|log| - 1] == old(log);
      TableIsTheFold(customers, log, e.invoice);
      forall s ensures Shows(customers, invoices, s, For(customers, log, s)) {
        TableIsTheFold(customers, log, s);
      }
    }
  }
}
