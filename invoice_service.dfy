/** The invoice lifecycle (`InvoiceService` in app/services/invoice_service.py): drafts
    are created and edited from catalogue products, issued with a frozen company and
    client snapshot, marked paid, or deleted while still drafts. Each operation checks
    everything up front and writes at most one invoice record. */
module InvoiceService {

  import opened Common
  import opened AppConfig
  import opened SnapshotService
  import opened TaxService
  import opened InvoiceModel
  import ProductModel
  import ClientModel

  /** One entry of `items_data`. */
  datatype ItemRequest = ItemRequest(productId: string, quantity: real)

  /** The `ValueError`s the service raises, and the two failures it does not catch:
      issuing an invoice whose client record is gone (the snapshot builder is handed
      `None`) and an insert the unique index on `invoice_no` refuses. */
  datatype ServiceError =
    | ClientNotFound
    | ProductNotFound(productId: string)
    | InvoiceNotFound
    | OnlyDraftsCanBeIssued
    | OnlyIssuedCanBePaid
    | OnlyDraftsCanBeUpdated
    | OnlyDraftsCanBeDeleted
    | ClientOfInvoiceMissing
    | InvoiceNoTaken

  // ---------------------------------------------------------------- items

  predicate Found(products: map<string, ProductModel.Product>, request: ItemRequest)
  {
    GetById(products, request.productId).Some?
  }

  predicate AllFound(products: map<string, ProductModel.Product>, requests: seq<ItemRequest>)
  {
    forall i :: 0 <= i < |requests| ==> Found(products, requests[i])
  }

  /** One line per request, in request order, each copied from its product. */
  function Items(products: map<string, ProductModel.Product>, requests: seq<ItemRequest>): (items: seq<ItemSnapshot>)
    requires AllFound(products, requests)
    ensures |items| == |requests|
    ensures forall i :: 0 <= i < |requests| ==>
              items[i] == CreateItemSnapshot(products[requests[i].productId], requests[i].quantity)
  {
    seq(|requests|, i requires 0 <= i < |requests| =>
      CreateItemSnapshot(products[requests[i].productId], requests[i].quantity))
  }

  /** The position of the first request whose product does not exist. */
  function FirstMissing(products: map<string, ProductModel.Product>, requests: seq<ItemRequest>): (j: nat)
    requires !AllFound(products, requests)
    ensures j < |requests| && !Found(products, requests[j])
    ensures forall i :: 0 <= i < j ==> Found(products, requests[i])
  {
    if !Found(products, requests[0]) then 0
    else
      var j := 1 + FirstMissing(products, requests[1..]);
      assert forall i :: 1 <= i < j ==> requests[i] == requests[1..][i - 1];
      j
  }

  /** What the loop over `items_data` produces: the lines, or the error for the first
      unknown product. */
  function ItemsResult(products: map<string, ProductModel.Product>, requests: seq<ItemRequest>)
    : Result<seq<ItemSnapshot>, ServiceError>
  {
    if AllFound(products, requests) then Ok(Items(products, requests))
    else Err(ProductNotFound(requests[FirstMissing(products, requests)].productId))
  }

  /** The loop of lines 25-35 and 119-129: stops at the first unknown product. */
  method BuildItems(products: map<string, ProductModel.Product>, requests: seq<ItemRequest>)
    returns (r: Result<seq<ItemSnapshot>, ServiceError>)
    ensures r.Ok? <==> AllFound(products, requests)
    ensures r.Ok? ==> r.value == Items(products, requests)
    ensures r.Err? ==> exists j :: 0 <= j < |requests| && !Found(products, requests[j])
                                   && (forall i :: 0 <= i < j ==> Found(products, requests[i]))
                                   && r.error == ProductNotFound(requests[j].productId)
    ensures r == ItemsResult(products, requests)
  {
    var items: seq<ItemSnapshot> := [];
    var i := 0;
    while i < |requests|
      invariant 0 <= i <= |requests|
      invariant forall k :: 0 <= k < i ==> Found(products, requests[k])
      invariant |items| == i
      invariant forall k :: 0 <= k < i ==>
                  items[k] == CreateItemSnapshot(products[requests[k].productId], requests[k].quantity)
    {
      var product := GetById(products, requests[i].productId);
      if product.None? {
        assert FirstMissing(products, requests) == i;
        return Err(ProductNotFound(requests[i].productId));
      }
      items := items + [CreateItemSnapshot(product.value, requests[i].quantity)];
      i := i + 1;
    }
    return Ok(items);
  }

  // ---------------------------------------------------------------- the records the service writes

  /** The draft `create_draft_invoice` inserts. */
  function NewDraft(id: string, invoiceNo: string, clientId: string, items: seq<ItemSnapshot>,
                    round: real -> real, now: Instant): (inv: Invoice)
    ensures inv.status == Draft && inv.snapshot == None && inv.paidOn == None
    ensures inv.issueDate == None && inv.dueDate == None
    ensures inv.id == id && inv.invoiceNo == invoiceNo && inv.clientId == clientId && inv.items == items
    ensures TotalsOf(InvoiceTotals(inv.subtotal, inv.taxBreakup, round(RawTotalTax(items)), inv.total), items, round)
  {
    var t := ExpectedTotals(items, round);
    NewInvoice(id, invoiceNo, clientId, items, t.subtotal, t.taxBreakup, t.total,
               Some(Draft), None, None, None, now)
  }

  /** Payment terms: a due date not given is 30 days after the issue date. */
  const PaymentTermDays: int := 30

  function IssuedOn(issueDate: Option<Instant>, now: Instant): Instant
  {
    if issueDate.Some? then issueDate.value else now
  }

  function DueOn(issue: Instant, dueDate: Option<Instant>): Instant
  {
    if dueDate.Some? then dueDate.value else issue + PaymentTermDays * SecondsPerDay
  }

  /** The company snapshot with the client snapshot added. */
  function IssueSnapshot(config: Config, client: ClientModel.Client, now: Instant): (s: Snapshot)
    ensures s.client == Some(CreateClientSnapshot(client))
    ensures s.(client := None) == CreateSnapshot(config, now)
  {
    CreateSnapshot(config, now).(client := Some(CreateClientSnapshot(client)))
  }

  /** The record after `issue_invoice`'s `update`. */
  function IssueRecord(inv: Invoice, client: ClientModel.Client, config: Config,
                       issueDate: Option<Instant>, dueDate: Option<Instant>, now: Instant): (r: Invoice)
    ensures r.status == Issued && r.updatedAt == now
    ensures r.snapshot == Some(IssueSnapshot(config, client, now))
    ensures r.issueDate == Some(IssuedOn(issueDate, now))
    ensures r.dueDate == Some(DueOn(IssuedOn(issueDate, now), dueDate))
    ensures r.(status := inv.status, snapshot := inv.snapshot, issueDate := inv.issueDate,
               dueDate := inv.dueDate, updatedAt := inv.updatedAt) == inv
  {
    var issue := IssuedOn(issueDate, now);
    ApplyUpdate(inv, InvoiceUpdate(None, None, None, None, Some(Issued), Some(Some(IssueSnapshot(config, client, now))),
                                   Some(Some(issue)), Some(Some(DueOn(issue, dueDate))), None), now)
  }

  /** Without dates, an invoice is issued now and due 30 days from now. */
  lemma DefaultDates(inv: Invoice, client: ClientModel.Client, config: Config, now: Instant)
    ensures IssueRecord(inv, client, config, None, None, now).issueDate == Some(now)
    ensures IssueRecord(inv, client, config, None, None, now).dueDate == Some(now + 30 * 86400)
  {
  }

  /** The record after `update_draft_invoice`'s `update`: new lines and their totals. */
  function RedraftRecord(inv: Invoice, items: seq<ItemSnapshot>, round: real -> real, now: Instant): (r: Invoice)
    ensures r.items == items && r.updatedAt == now
    ensures TotalsOf(InvoiceTotals(r.subtotal, r.taxBreakup, round(RawTotalTax(items)), r.total), items, round)
    ensures r.status == inv.status && r.snapshot == inv.snapshot
    ensures r.issueDate == inv.issueDate && r.dueDate == inv.dueDate && r.paidOn == inv.paidOn
    ensures r.id == inv.id && r.invoiceNo == inv.invoiceNo && r.clientId == inv.clientId
  {
    var t := ExpectedTotals(items, round);
    ApplyUpdate(inv, InvoiceUpdate(Some(items), Some(t.subtotal), Some(t.taxBreakup), Some(t.total),
                                   None, None, None, None, None), now)
  }

  // ---------------------------------------------------------------- lifecycle invariants

  /** An issued or paid invoice carries its snapshot (with the client) and its dates; a
      paid one also its payment date. */
  ghost predicate Lifecycle(inv: Invoice)
  {
    && (inv.status != Draft ==>
          inv.snapshot.Some? && inv.snapshot.value.client.Some? && inv.issueDate.Some? && inv.dueDate.Some?)
    && (inv.status == Paid ==> inv.paidOn.Some?)
  }

  ghost predicate AllLifecycle(records: map<string, Invoice>)
  {
    forall k :: k in records ==> Lifecycle(records[k])
  }

  /** What an issued invoice keeps for good: number, client, lines, totals, snapshot and
      dates. */
  ghost predicate Frozen(before: Invoice, after: Invoice)
  {
    && after.invoiceNo == before.invoiceNo && after.clientId == before.clientId
    && after.items == before.items && after.subtotal == before.subtotal
    && after.taxBreakup == before.taxBreakup && after.total == before.total
    && after.snapshot == before.snapshot
    && after.issueDate == before.issueDate && after.dueDate == before.dueDate
  }

  /** What every service operation guarantees about the whole collection: no status
      goes back, nothing issued is removed or edited, and the lifecycle invariant is
      kept. */
  ghost predicate SafeStep(before: map<string, Invoice>, after: map<string, Invoice>)
  {
    && (forall k :: k in before && k in after ==> Rank(before[k].status) <= Rank(after[k].status))
    && (forall k :: k in before && before[k].status != Draft ==> k in after && Frozen(before[k], after[k]))
    && (AllLifecycle(before) ==> AllLifecycle(after))
  }

  /** Any sequence of service operations is a safe step as a whole. */
  lemma SafeStepTransitive(a: map<string, Invoice>, b: map<string, Invoice>, c: map<string, Invoice>)
    requires SafeStep(a, b) && SafeStep(b, c)
    ensures SafeStep(a, c)
  {
    forall k | k in a && k in c
      ensures Rank(a[k].status) <= Rank(c[k].status)
    {
      if k !in b {
        assert a[k].status == Draft;
      }
    }
    forall k | k in a && a[k].status != Draft
      ensures k in c && Frozen(a[k], c[k])
    {
      assert k in b && Rank(a[k].status) <= Rank(b[k].status);
      assert b[k].status != Draft;
    }
  }

  /** Inserting a draft is a safe step. */
  lemma AddDraftIsSafe(before: map<string, Invoice>, id: string, inv: Invoice)
    requires id !in before && inv.status == Draft
    ensures SafeStep(before, before[id := inv])
  {
  }

  /** Replacing a record is a safe step when its status does not go back, an issued
      record keeps its frozen part, and the new record keeps the lifecycle invariant. */
  lemma ReplaceIsSafe(before: map<string, Invoice>, id: string, inv: Invoice)
    requires id in before
    requires Rank(before[id].status) <= Rank(inv.status)
    requires before[id].status != Draft ==> Frozen(before[id], inv)
    requires Lifecycle(before[id]) ==> Lifecycle(inv)
    ensures SafeStep(before, before[id := inv])
  {
    var after := before[id := inv];
    if AllLifecycle(before) {
      forall k | k in after
        ensures Lifecycle(after[k])
      {
        if k != id {
          assert after[k] == before[k];
        }
      }
    }
  }

  /** Removing a draft is a safe step. */
  lemma RemoveDraftIsSafe(before: map<string, Invoice>, id: string)
    requires id in before && before[id].status == Draft
    ensures SafeStep(before, before - {id})
  {
  }

  // ---------------------------------------------------------------- the operations

  /** `Invoice.create` of a draft with the computed totals under a given number: the
      unique index on `invoice_no` refuses a number already stored. */
  method InsertDraft(invoices: Invoices, clientId: string, items: seq<ItemSnapshot>, invoiceNo: string,
                     round: real -> real, freshId: string, now: Instant)
    returns (r: Result<string, ServiceError>)
    requires invoices.Valid()
    requires freshId != "" && freshId !in invoices.records
    modifies invoices
    ensures invoices.Valid()
    ensures invoiceNo in Numbers(old(invoices.records)) ==>
              r == Err(InvoiceNoTaken) && invoices.records == old(invoices.records)
    ensures invoiceNo !in Numbers(old(invoices.records)) ==>
              && r == Ok(freshId)
              && invoices.records == old(invoices.records)[freshId := NewDraft(freshId, invoiceNo, clientId,
                                                                                items, round, now)]
    ensures SafeStep(old(invoices.records), invoices.records)
  {
    var totals := CalculateInvoiceTotals(items, round);
    TotalsOfUnique(totals, items, round);
    ghost var before := invoices.records;
    var created := invoices.Create(freshId, invoiceNo, clientId, items, totals.subtotal, totals.taxBreakup,
                                   totals.total, Some(Draft), None, None, None, now);
    if created.Err? {
      return Err(InvoiceNoTaken);
    }
    AddDraftIsSafe(before, freshId, invoices.records[freshId]);
    return Ok(freshId);
  }

  /** `create_draft_invoice` as written: the number comes from `get_next_invoice_no`,
      and the insert fails exactly when that number is already stored.
      `freshId` is the id the database assigns. */
  method CreateDraftInvoice(invoices: Invoices, clients: ClientModel.Clients, products: ProductModel.Products,
                            config: Config, clientId: string, requests: seq<ItemRequest>,
                            round: real -> real, freshId: string, now: Instant)
    returns (r: Result<string, ServiceError>)
    requires invoices.Valid()
    requires freshId != "" && freshId !in invoices.records
    modifies invoices
    ensures invoices.Valid()
    ensures GetById(clients.records, clientId).None? ==> r == Err(ClientNotFound)
    ensures GetById(clients.records, clientId).Some? && !AllFound(products.records, requests) ==>
              r == Err(ItemsResult(products.records, requests).error)
    ensures r == Err(InvoiceNoTaken) <==>
              && GetById(clients.records, clientId).Some? && AllFound(products.records, requests)
              && NextInvoiceNoAsWritten(Numbers(old(invoices.records)), config.invoicePrefix)
                   in Numbers(old(invoices.records))
    ensures (&& GetById(clients.records, clientId).Some? && AllFound(products.records, requests)
             && NextInvoiceNoAsWritten(Numbers(old(invoices.records)), config.invoicePrefix)
                  !in Numbers(old(invoices.records))) ==> r.Ok?
    ensures r.Err? ==> invoices.records == old(invoices.records)
    ensures r.Ok? ==>
              && r.value == freshId
              && GetById(clients.records, clientId).Some? && AllFound(products.records, requests)
              && invoices.records == old(invoices.records)[freshId := NewDraft(freshId,
                   NextInvoiceNoAsWritten(Numbers(old(invoices.records)), config.invoicePrefix), clientId,
                   Items(products.records, requests), round, now)]
    ensures SafeStep(old(invoices.records), invoices.records)
  {
    var client := GetById(clients.records, clientId);
    if client.None? {
      return Err(ClientNotFound);
    }
    var built := BuildItems(products.records, requests);
    if built.Err? {
      return Err(built.error);
    }
    var invoiceNo := NextInvoiceNoAsWritten(Numbers(invoices.records), config.invoicePrefix);
    r := InsertDraft(invoices, clientId, built.value, invoiceNo, round, freshId, now);
  }

  /** `create_draft_invoice` with the corrected number allocator: for a prefix the
      stored numbers can be read back from, the insert always succeeds. */
  method CreateDraftInvoiceCorrected(invoices: Invoices, clients: ClientModel.Clients,
                                     products: ProductModel.Products, config: Config, clientId: string,
                                     requests: seq<ItemRequest>, round: real -> real, freshId: string,
                                     now: Instant)
    returns (r: Result<string, ServiceError>)
    requires invoices.Valid()
    requires freshId != "" && freshId !in invoices.records
    modifies invoices
    ensures invoices.Valid()
    ensures GetById(clients.records, clientId).None? ==> r == Err(ClientNotFound)
    ensures GetById(clients.records, clientId).Some? && !AllFound(products.records, requests) ==>
              r == Err(ItemsResult(products.records, requests).error)
    ensures r.Err? ==> invoices.records == old(invoices.records)
    ensures r.Ok? ==>
              && r.value == freshId
              && GetById(clients.records, clientId).Some? && AllFound(products.records, requests)
              && invoices.records == old(invoices.records)[freshId := NewDraft(freshId,
                   NextInvoiceNo(Numbers(old(invoices.records)), config.invoicePrefix), clientId,
                   Items(products.records, requests), round, now)]
    ensures (&& GetById(clients.records, clientId).Some?
             && AllFound(products.records, requests)
             && SeparablePrefix(config.invoicePrefix)) ==> r.Ok?
    ensures SafeStep(old(invoices.records), invoices.records)
  {
    var client := GetById(clients.records, clientId);
    if client.None? {
      return Err(ClientNotFound);
    }
    var built := BuildItems(products.records, requests);
    if built.Err? {
      return Err(built.error);
    }
    var invoiceNo := NextInvoiceNo(Numbers(invoices.records), config.invoicePrefix);
    if SeparablePrefix(config.invoicePrefix) {
      NextInvoiceNoIsFresh(Numbers(invoices.records), config.invoicePrefix);
    }
    r := InsertDraft(invoices, clientId, built.value, invoiceNo, round, freshId, now);
  }

  /** `issue_invoice`. */
  method IssueInvoice(invoices: Invoices, clients: ClientModel.Clients, config: Config, id: string,
                      issueDate: Option<Instant>, dueDate: Option<Instant>, now: Instant)
    returns (r: Result<string, ServiceError>)
    requires invoices.Valid()
    modifies invoices
    ensures invoices.Valid()
    ensures GetById(old(invoices.records), id).None? ==> r == Err(InvoiceNotFound)
    ensures GetById(old(invoices.records), id).Some? && old(invoices.records)[id].status != Draft ==>
              r == Err(OnlyDraftsCanBeIssued)
    ensures (&& GetById(old(invoices.records), id).Some? && old(invoices.records)[id].status == Draft
             && GetById(clients.records, old(invoices.records)[id].clientId).None?) ==>
              r == Err(ClientOfInvoiceMissing)
    ensures (&& GetById(old(invoices.records), id).Some? && old(invoices.records)[id].status == Draft
             && GetById(clients.records, old(invoices.records)[id].clientId).Some?) ==> r.Ok?
    ensures r.Err? ==> invoices.records == old(invoices.records)
    ensures r.Ok? ==>
              && r.value == id && id in old(invoices.records) && old(invoices.records)[id].status == Draft
              && old(invoices.records)[id].clientId in clients.records
              && invoices.records == old(invoices.records)[id := IssueRecord(old(invoices.records)[id],
                   clients.records[old(invoices.records)[id].clientId], config, issueDate, dueDate, now)]
    ensures SafeStep(old(invoices.records), invoices.records)
  {
    var invoice := GetById(invoices.records, id);
    if invoice.None? {
      return Err(InvoiceNotFound);
    }
    if invoice.value.status != Draft {
      return Err(OnlyDraftsCanBeIssued);
    }
    var client := GetById(clients.records, invoice.value.clientId);
    if client.None? {
      return Err(ClientOfInvoiceMissing);
    }
    var snapshot := CreateSnapshot(config, now).(client := Some(CreateClientSnapshot(client.value)));
    var issue := if issueDate.Some? then issueDate.value else now;
    var due := if dueDate.Some? then dueDate.value else issue + PaymentTermDays * SecondsPerDay;
    ghost var before := invoices.records;
    invoices.Update(id, InvoiceUpdate(None, None, None, None, Some(Issued), Some(Some(snapshot)),
                                      Some(Some(issue)), Some(Some(due)), None), now);
    ReplaceIsSafe(before, id, invoices.records[id]);
    return Ok(id);
  }

  /** `mark_as_paid`. */
  method MarkAsPaid(invoices: Invoices, id: string, paidOn: Option<Instant>, now: Instant)
    returns (r: Result<string, ServiceError>)
    requires invoices.Valid()
    modifies invoices
    ensures invoices.Valid()
    ensures GetById(old(invoices.records), id).None? ==> r == Err(InvoiceNotFound)
    ensures GetById(old(invoices.records), id).Some? && old(invoices.records)[id].status != Issued ==>
              r == Err(OnlyIssuedCanBePaid)
    ensures GetById(old(invoices.records), id).Some? && old(invoices.records)[id].status == Issued ==> r.Ok?
    ensures r.Err? ==> invoices.records == old(invoices.records)
    ensures r.Ok? ==>
              && r.value == id && id in old(invoices.records) && old(invoices.records)[id].status == Issued
              && invoices.records == old(invoices.records)[id := WithStatus(old(invoices.records)[id], Paid,
                   Some(if paidOn.Some? then paidOn.value else now), now)]
    ensures SafeStep(old(invoices.records), invoices.records)
  {
    var invoice := GetById(invoices.records, id);
    if invoice.None? {
      return Err(InvoiceNotFound);
    }
    if invoice.value.status != Issued {
      return Err(OnlyIssuedCanBePaid);
    }
    var paid := if paidOn.Some? then paidOn.value else now;
    ghost var before := invoices.records;
    invoices.UpdateStatus(id, Paid, Some(paid), now);
    ReplaceIsSafe(before, id, invoices.records[id]);
    return Ok(id);
  }

  /** `update_draft_invoice`. */
  method UpdateDraftInvoice(invoices: Invoices, products: ProductModel.Products, id: string,
                            requests: seq<ItemRequest>, round: real -> real, now: Instant)
    returns (r: Result<string, ServiceError>)
    requires invoices.Valid()
    modifies invoices
    ensures invoices.Valid()
    ensures GetById(old(invoices.records), id).None? ==> r == Err(InvoiceNotFound)
    ensures GetById(old(invoices.records), id).Some? && old(invoices.records)[id].status != Draft ==>
              r == Err(OnlyDraftsCanBeUpdated)
    ensures (&& GetById(old(invoices.records), id).Some? && old(invoices.records)[id].status == Draft
             && !AllFound(products.records, requests)) ==> r == Err(ItemsResult(products.records, requests).error)
    ensures (&& GetById(old(invoices.records), id).Some? && old(invoices.records)[id].status == Draft
             && AllFound(products.records, requests)) ==> r.Ok?
    ensures r.Err? ==> invoices.records == old(invoices.records)
    ensures r.Ok? ==>
              && r.value == id && id in old(invoices.records) && old(invoices.records)[id].status == Draft
              && AllFound(products.records, requests)
              && invoices.records == old(invoices.records)[id := RedraftRecord(old(invoices.records)[id],
                   Items(products.records, requests), round, now)]
    ensures SafeStep(old(invoices.records), invoices.records)
  {
    var invoice := GetById(invoices.records, id);
    if invoice.None? {
      return Err(InvoiceNotFound);
    }
    if invoice.value.status != Draft {
      return Err(OnlyDraftsCanBeUpdated);
    }
    var built := BuildItems(products.records, requests);
    if built.Err? {
      return Err(built.error);
    }
    var items := built.value;
    var totals := CalculateInvoiceTotals(items, round);
    TotalsOfUnique(totals, items, round);
    ghost var before := invoices.records;
    invoices.Update(id, InvoiceUpdate(Some(items), Some(totals.subtotal), Some(totals.taxBreakup),
                                      Some(totals.total), None, None, None, None, None), now);
    ReplaceIsSafe(before, id, invoices.records[id]);
    return Ok(id);
  }

  /** `delete_draft_invoice`. */
  method DeleteDraftInvoice(invoices: Invoices, id: string) returns (r: Result<bool, ServiceError>)
    requires invoices.Valid()
    modifies invoices
    ensures invoices.Valid()
    ensures GetById(old(invoices.records), id).None? ==> r == Err(InvoiceNotFound)
    ensures GetById(old(invoices.records), id).Some? && old(invoices.records)[id].status != Draft ==>
              r == Err(OnlyDraftsCanBeDeleted)
    ensures GetById(old(invoices.records), id).Some? && old(invoices.records)[id].status == Draft ==> r.Ok?
    ensures r.Err? ==> invoices.records == old(invoices.records)
    ensures r.Ok? ==> && r.value && id in old(invoices.records) && old(invoices.records)[id].status == Draft
                      && invoices.records == old(invoices.records) - {id}
                      && GetById(invoices.records, id).None?
    ensures SafeStep(old(invoices.records), invoices.records)
  {
    var invoice := GetById(invoices.records, id);
    if invoice.None? {
      return Err(InvoiceNotFound);
    }
    if invoice.value.status != Draft {
      return Err(OnlyDraftsCanBeDeleted);
    }
    RemoveDraftIsSafe(invoices.records, id);
    invoices.Delete(id);
    return Ok(true);
  }

  /** An issued invoice keeps the client details it was issued with, whatever edits the
      client record gets afterwards: issue the invoice, then edit its client. */
  method SnapshotOutlivesClientEdit(invoices: Invoices, clients: ClientModel.Clients, config: Config,
                                    id: string, edit: ClientModel.ClientUpdate, now: Instant)
    returns (issued: Result<string, ServiceError>)
    requires invoices.Valid() && clients.Valid()
    requires invoices != clients as object
    modifies invoices, clients
    ensures invoices.Valid() && clients.Valid()
    ensures (&& GetById(old(invoices.records), id).Some? && old(invoices.records)[id].status == Draft
             && GetById(old(clients.records), old(invoices.records)[id].clientId).Some?) ==> issued.Ok?
    ensures issued.Ok? ==> id in old(invoices.records)
    ensures issued.Ok? && id in old(invoices.records) ==>
              var clientId := old(invoices.records)[id].clientId;
              && clientId in old(clients.records)
              && clients.records == old(clients.records)[clientId := ClientModel.ApplyUpdate(old(clients.records)[clientId], edit)]
              && id in invoices.records && invoices.records[id].status == Issued
              && invoices.records[id].snapshot.Some?
              && invoices.records[id].snapshot.value.client == Some(CreateClientSnapshot(old(clients.records)[clientId]))
    ensures issued.Err? ==> invoices.records == old(invoices.records) && clients.records == old(clients.records)
  {
    issued := IssueInvoice(invoices, clients, config, id, None, None, now);
    if issued.Ok? {
      var clientId := invoices.records[id].clientId;
      clients.Update(clientId, edit);
    }
  }
}
