/** Invoice records (`Invoice` in app/models/invoice.py): a collection keyed by id that
    `create`, `update`, `update_status` and `delete` change in place, with a unique index
    on the invoice number, and the allocator of the next invoice number. */
module InvoiceModel {

  import opened Common
  import opened Text
  import opened SnapshotService

  /** `STATUS_DRAFT`, `STATUS_ISSUED`, `STATUS_PAID`. */
  datatype Status = Draft | Issued | Paid

  /** Position in the lifecycle DRAFT -> ISSUED -> PAID. */
  function Rank(s: Status): nat
  {
    match s
    case Draft => 0
    case Issued => 1
    case Paid => 2
  }

  datatype Invoice = Invoice(
    id: string,
    invoiceNo: string,
    clientId: string,
    items: seq<ItemSnapshot>,
    subtotal: real,
    taxBreakup: map<real, real>,
    total: real,
    status: Status,
    snapshot: Option<Snapshot>,
    issueDate: Option<Instant>,
    dueDate: Option<Instant>,
    paidOn: Option<Instant>,
    createdAt: Instant,
    updatedAt: Instant)

  /** The invoice numbers in use. */
  function Numbers(records: map<string, Invoice>): set<string>
  {
    set k | k in records :: records[k].invoiceNo
  }

  /** Every record is stored under its own non-empty id, and no two records share an
      invoice number (the unique index on `invoice_no`). */
  ghost predicate WellFormed(records: map<string, Invoice>)
  {
    && (forall k :: k in records ==> k != "" && records[k].id == k)
    && (forall k, l :: k in records && l in records && records[k].invoiceNo == records[l].invoiceNo ==> k == l)
  }

  /** The keyword arguments of `update` that callers pass; `None` is a keyword not
      passed. `_id` is never written, and `updated_at` is always overwritten. */
  datatype InvoiceUpdate = InvoiceUpdate(
    items: Option<seq<ItemSnapshot>>,
    subtotal: Option<real>,
    taxBreakup: Option<map<real, real>>,
    total: Option<real>,
    status: Option<Status>,
    snapshot: Option<Option<Snapshot>>,
    issueDate: Option<Option<Instant>>,
    dueDate: Option<Option<Instant>>,
    paidOn: Option<Option<Instant>>)

  function Override<T>(v: Option<T>, current: T): T
  {
    if v.Some? then v.value else current
  }

  /** The record after `$set` of `update_data`. */
  function ApplyUpdate(inv: Invoice, u: InvoiceUpdate, now: Instant): (r: Invoice)
    ensures r.id == inv.id && r.invoiceNo == inv.invoiceNo && r.clientId == inv.clientId
    ensures r.createdAt == inv.createdAt && r.updatedAt == now
    ensures r.items == (if u.items.Some? then u.items.value else inv.items)
    ensures r.subtotal == (if u.subtotal.Some? then u.subtotal.value else inv.subtotal)
    ensures r.taxBreakup == (if u.taxBreakup.Some? then u.taxBreakup.value else inv.taxBreakup)
    ensures r.total == (if u.total.Some? then u.total.value else inv.total)
    ensures r.status == (if u.status.Some? then u.status.value else inv.status)
    ensures r.snapshot == (if u.snapshot.Some? then u.snapshot.value else inv.snapshot)
    ensures r.issueDate == (if u.issueDate.Some? then u.issueDate.value else inv.issueDate)
    ensures r.dueDate == (if u.dueDate.Some? then u.dueDate.value else inv.dueDate)
    ensures r.paidOn == (if u.paidOn.Some? then u.paidOn.value else inv.paidOn)
  {
    inv.(items := Override(u.items, inv.items),
         subtotal := Override(u.subtotal, inv.subtotal),
         taxBreakup := Override(u.taxBreakup, inv.taxBreakup),
         total := Override(u.total, inv.total),
         status := Override(u.status, inv.status),
         snapshot := Override(u.snapshot, inv.snapshot),
         issueDate := Override(u.issueDate, inv.issueDate),
         dueDate := Override(u.dueDate, inv.dueDate),
         paidOn := Override(u.paidOn, inv.paidOn),
         updatedAt := now)
  }

  /** An update that passes no keyword only refreshes `updated_at`. */
  lemma EmptyUpdateOnlyTouches(inv: Invoice, now: Instant)
    ensures ApplyUpdate(inv, InvoiceUpdate(None, None, None, None, None, None, None, None, None), now)
            == inv.(updatedAt := now)
  {
  }

  /** The record after `update_status`: `paid_on` is written only for PAID with a
      `paid_on` given. */
  function WithStatus(inv: Invoice, status: Status, paidOn: Option<Instant>, now: Instant): (r: Invoice)
    ensures r.status == status && r.updatedAt == now
    ensures r.paidOn == (if status == Paid && paidOn.Some? then paidOn else inv.paidOn)
    ensures r.(status := inv.status, paidOn := inv.paidOn, updatedAt := inv.updatedAt) == inv
  {
    if status == Paid && paidOn.Some? then inv.(status := status, paidOn := paidOn, updatedAt := now)
    else inv.(status := status, updatedAt := now)
  }

  /** Errors of the store itself. */
  datatype StoreError = DuplicateInvoiceNo

  /** The record `create` inserts: never paid, created and updated now. */
  function NewInvoice(id: string, invoiceNo: string, clientId: string, items: seq<ItemSnapshot>,
                      subtotal: real, taxBreakup: map<real, real>, total: real,
                      status: Option<Status>, snapshot: Option<Snapshot>,
                      issueDate: Option<Instant>, dueDate: Option<Instant>, now: Instant): (r: Invoice)
    ensures r.id == id && r.invoiceNo == invoiceNo && r.clientId == clientId && r.items == items
    ensures r.subtotal == subtotal && r.taxBreakup == taxBreakup && r.total == total
    ensures r.status == (if status.Some? then status.value else Draft)
    ensures r.snapshot == snapshot && r.issueDate == issueDate && r.dueDate == dueDate
    ensures r.paidOn == None && r.createdAt == now && r.updatedAt == now
  {
    Invoice(id, invoiceNo, clientId, items, subtotal, taxBreakup, total,
            Override(status, Draft), snapshot, issueDate, dueDate, None, now, now)
  }

  // ---------------------------------------------------------------- the collection

  /** The invoices collection. */
  class Invoices {
    var records: map<string, Invoice>

    ghost predicate Valid()
      reads this
    {
      WellFormed(records)
    }

    constructor ()
      ensures Valid() && records == map[]
    {
      records := map[];
    }

    /** `create`: inserts under a fresh id; the unique index refuses a number in use. */
    method Create(freshId: string, invoiceNo: string, clientId: string, items: seq<ItemSnapshot>,
                  subtotal: real, taxBreakup: map<real, real>, total: real,
                  status: Option<Status>, snapshot: Option<Snapshot>,
                  issueDate: Option<Instant>, dueDate: Option<Instant>, now: Instant)
      returns (r: Result<string, StoreError>)
      requires Valid()
      requires freshId != "" && freshId !in records
      modifies this
      ensures Valid()
      ensures invoiceNo in Numbers(old(records)) ==> r == Err(DuplicateInvoiceNo) && records == old(records)
      ensures invoiceNo !in Numbers(old(records)) ==>
                && r == Ok(freshId)
                && records == old(records)[freshId := NewInvoice(freshId, invoiceNo, clientId, items, subtotal,
                                                                 taxBreakup, total, status, snapshot,
                                                                 issueDate, dueDate, now)]
    {
      if invoiceNo in Numbers(records) {
        return Err(DuplicateInvoiceNo);
      }
      records := records[freshId := NewInvoice(freshId, invoiceNo, clientId, items, subtotal,
                                               taxBreakup, total, status, snapshot, issueDate, dueDate, now)];
      r := Ok(freshId);
    }

    /** `update`: `$set` of the passed keywords and `updated_at` on the record with this
        id, if there is one. */
    method Update(id: string, u: InvoiceUpdate, now: Instant)
      requires Valid()
      modifies this
      ensures Valid()
      ensures id in old(records) ==> records == old(records)[id := ApplyUpdate(old(records)[id], u, now)]
      ensures id !in old(records) ==> records == old(records)
    {
      if id in records {
        records := records[id := ApplyUpdate(records[id], u, now)];
      }
    }

    /** `update_status`. */
    method UpdateStatus(id: string, status: Status, paidOn: Option<Instant>, now: Instant)
      requires Valid()
      modifies this
      ensures Valid()
      ensures id in old(records) ==> records == old(records)[id := WithStatus(old(records)[id], status, paidOn, now)]
      ensures id !in old(records) ==> records == old(records)
    {
      if id in records {
        records := records[id := WithStatus(records[id], status, paidOn, now)];
      }
    }

    /** `delete`: removes the record only while it is a draft. */
    method Delete(id: string)
      requires Valid()
      modifies this
      ensures Valid()
      ensures id in old(records) && old(records)[id].status == Draft ==> records == old(records) - {id}
      ensures !(id in old(records) && old(records)[id].status == Draft) ==> records == old(records)
      ensures forall k :: k in old(records) && old(records)[k].status != Draft ==> k in records && records[k] == old(records)[k]
    {
      if id in records && records[id].status == Draft {
        records := records - {id};
      }
    }
  }

  // ---------------------------------------------------------------- next invoice number

  /** The width `get_next_invoice_no` pads numbers to. */
  const NumberWidth: nat := 5

  /** The existing numbers the `^prefix` query matches. */
  function Matching(existing: set<string>, prefix: string): set<string>
  {
    set no | no in existing && StartsWith(no, prefix)
  }

  /** The number `int()` reads from an invoice number once every copy of the prefix is
      removed, if it reads one. */
  function SuffixValue(no: string, prefix: string): Option<int>
  {
    ParseInt(RemoveAll(no, prefix))
  }

  /** The next number as `get_next_invoice_no` computes it: one more than the number
      read from the lexicographically greatest matching invoice number, or 1 when nothing
      matches or nothing can be read. */
  function NextNumberAsWritten(existing: set<string>, prefix: string): (n: int)
    ensures Matching(existing, prefix) == {} ==> n == 1
    ensures Matching(existing, prefix) != {} ==>
              var last := Greatest(Matching(existing, prefix));
              n == (if SuffixValue(last, prefix).Some? then SuffixValue(last, prefix).value + 1 else 1)
  {
    var matching := Matching(existing, prefix);
    if matching == {} then 1
    else
      match SuffixValue(Greatest(matching), prefix)
      case Some(v) => v + 1
      case None => 1
  }

  /** `get_next_invoice_no` as written. */
  function NextInvoiceNoAsWritten(existing: set<string>, prefix: string): (r: string)
    ensures r == prefix + FormatPadded(NextNumberAsWritten(existing, prefix), NumberWidth)
  {
    prefix + FormatPadded(NextNumberAsWritten(existing, prefix), NumberWidth)
  }

  /** With 100000 invoices numbered, the lexicographic maximum is "INV99999", not
      "INV100000", so the number handed out is one that is already taken, and the
      unique index refuses the insert. */
  lemma AsWrittenRepeatsNumber()
    ensures var existing := {"INV99999", "INV100000"};
            NextInvoiceNoAsWritten(existing, "INV") == "INV100000"
            && NextInvoiceNoAsWritten(existing, "INV") in existing
  {
    NextAfterNines();
    FormatHundredThousand();
    assert NextInvoiceNoAsWritten({"INV99999", "INV100000"}, "INV") == "INV" + "100000";
  }

  /** The number read after "INV99999" is 100000. */
  lemma NextAfterNines()
    ensures NextNumberAsWritten({"INV99999", "INV100000"}, "INV") == 100000
  {
    NinesAreLast();
    ReadNines();
  }

  lemma NinesAreLast()
    ensures Matching({"INV99999", "INV100000"}, "INV") == {"INV99999", "INV100000"}
    ensures Greatest({"INV99999", "INV100000"}) == "INV99999"
  {
    assert "INV99999"[..3] == "INV" && "INV100000"[..3] == "INV";
    NinesAfterTenThousands();
    GreatestOfPair("INV99999", "INV100000");
  }

  /** Of two strings, the one the other does not precede is the greatest. */
  lemma GreatestOfPair(a: string, b: string)
    requires !LexLeq(a, b)
    ensures Greatest({a, b}) == a
  {
  }

  lemma NinesAfterTenThousands()
    ensures !LexLeq("INV99999", "INV100000")
  {
    assert "INV99999"[1..] == "NV99999" && "INV100000"[1..] == "NV100000";
    assert "NV99999"[1..] == "V99999" && "NV100000"[1..] == "V100000";
    assert "V99999"[1..] == "99999" && "V100000"[1..] == "100000";
  }

  lemma ReadNines()
    ensures SuffixValue("INV99999", "INV") == Some(99999)
  {
    assert "INV99999" == "INV" + "99999";
    StripInvPrefix("99999");
    NinesValue();
  }

  /** Removing every "INV" from "INV" followed by text without an 'I' leaves that text. */
  lemma StripInvPrefix(d: string)
    requires forall i :: 0 <= i < |d| ==> d[i] != 'I'
    ensures RemoveAll("INV" + d, "INV") == d
  {
    RemoveAllLeading("INV", d);
    RemoveAllAbsent(d, "INV");
  }

  lemma NinesValue()
    ensures ParseInt("99999") == Some(99999)
  {
    ParseUnsigned("99999");
    assert DecimalValue("99999") == 99999 by {
      assert "99999"[..4] == "9999" && "9999"[..3] == "999" && "999"[..2] == "99" && "99"[..1] == "9";
    }
  }

  lemma FormatHundredThousand()
    ensures FormatPadded(100000, NumberWidth) == "100000"
  {
    assert NatToDecimal(100000) == "100000";
  }

  /** A greatest matching number that `int()` cannot read restarts numbering at 1, even
      when "INV00001" is taken. */
  lemma AsWrittenRestartsAfterUnreadable()
    ensures var existing := {"INV00001", "INVX"};
            NextInvoiceNoAsWritten(existing, "INV") == "INV00001"
            && NextInvoiceNoAsWritten(existing, "INV") in existing
  {
    RestartAfterX();
    assert FormatPadded(1, NumberWidth) == "00001" by {
      assert Zeros(4) == "0000";
    }
  }

  /** "INVX" is the greatest and reads as nothing, so the next number is 1. */
  lemma RestartAfterX()
    ensures NextNumberAsWritten({"INV00001", "INVX"}, "INV") == 1
  {
    var existing := {"INV00001", "INVX"};
    assert "INV00001"[..3] == "INV" && "INVX"[..3] == "INV";
    assert Matching(existing, "INV") == existing;
    assert !LexLeq("INVX", "INV00001") by {
      assert "INVX"[1..] == "NVX" && "INV00001"[1..] == "NV00001";
      assert "NVX"[1..] == "VX" && "NV00001"[1..] == "V00001";
      assert "VX"[1..] == "X" && "V00001"[1..] == "00001";
    }
    GreatestOfPair("INVX", "INV00001");
    assert {"INVX", "INV00001"} == existing;
    UnreadableX();
  }

  /** `int()` reads nothing from what is left of "INVX". */
  lemma UnreadableX()
    ensures SuffixValue("INVX", "INV") == None
  {
    assert "INVX" == "INV" + "X";
    StripInvPrefix("X");
    assert TrimEnd(TrimStart("X")) == "X";
  }

  /** The numbers `int()` reads from the matching invoice numbers. */
  function ReadableNumbers(existing: set<string>, prefix: string): set<int>
  {
    set no | no in Matching(existing, prefix) && SuffixValue(no, prefix).Some? :: SuffixValue(no, prefix).value
  }

  lemma EmptyOrMember(s: set<int>)
    ensures s == {} || exists x :: x in s
  {
    if !(exists x :: x in s) {
      assert s == {};
    }
  }

  lemma {:induction false} MaxExists(s: set<int>)
    requires s != {}
    ensures exists m :: m in s && forall x :: x in s ==> x <= m
    decreases |s|
  {
    EmptyOrMember(s);
    var y :| y in s;
    var rest := s - {y};
    if rest == {} {
      forall x | x in s
        ensures x <= y
      {
        assert x !in rest;
      }
    } else {
      MaxExists(rest);
      var m :| m in rest && forall x :: x in rest ==> x <= m;
      var w := if y <= m then m else y;
      forall x | x in s
        ensures x <= w
      {
        if x != y {
          assert x in rest;
        }
      }
      assert w in s;
    }
  }

  function Max(s: set<int>): (m: int)
    requires s != {}
    ensures m in s && forall x :: x in s ==> x <= m
  {
    MaxExists(s);
    var m :| m in s && forall x :: x in s ==> x <= m;
    m
  }

  /** The intended next number: one more than the numerically greatest number in use
      under the prefix, or 1 when there is none. */
  function NextNumber(existing: set<string>, prefix: string): (n: int)
    ensures forall x :: x in ReadableNumbers(existing, prefix) ==> x < n
    ensures ReadableNumbers(existing, prefix) == {} ==> n == 1
    ensures ReadableNumbers(existing, prefix) != {} ==> n - 1 in ReadableNumbers(existing, prefix)
  {
    var numbers := ReadableNumbers(existing, prefix);
    if numbers == {} then 1 else Max(numbers) + 1
  }

  /** The corrected allocator. */
  function NextInvoiceNo(existing: set<string>, prefix: string): (r: string)
    ensures r == prefix + FormatPadded(NextNumber(existing, prefix), NumberWidth)
  {
    prefix + FormatPadded(NextNumber(existing, prefix), NumberWidth)
  }

  /** A prefix that cannot be confused with the number after it: non-empty, and not
      starting with a digit or a minus sign ("INV" by default). */
  predicate SeparablePrefix(prefix: string)
  {
    prefix != [] && !IsDigit(prefix[0]) && prefix[0] != '-'
  }

  /** Stripping the prefix from a formatted number gives back the number. */
  lemma ReadBack(prefix: string, n: int)
    requires SeparablePrefix(prefix)
    ensures StartsWith(prefix + FormatPadded(n, NumberWidth), prefix)
    ensures SuffixValue(prefix + FormatPadded(n, NumberWidth), prefix) == Some(n)
  {
    var d := FormatPadded(n, NumberWidth);
    assert (prefix + d)[..|prefix|] == prefix;
    RemoveAllLeading(prefix, d);
    RemoveAllAbsent(d, prefix);
    FormatPaddedRoundTrip(n, NumberWidth);
  }

  /** The corrected allocator never hands out a number already in use. */
  lemma NextInvoiceNoIsFresh(existing: set<string>, prefix: string)
    requires SeparablePrefix(prefix)
    ensures NextInvoiceNo(existing, prefix) !in existing
  {
    var n := NextNumber(existing, prefix);
    ReadBack(prefix, n);
    assert NextInvoiceNo(existing, prefix) in existing ==> n in ReadableNumbers(existing, prefix);
  }

  /** The allocated number reads back as the next number. */
  lemma NextInvoiceNoReadsBack(existing: set<string>, prefix: string)
    requires SeparablePrefix(prefix)
    ensures StartsWith(NextInvoiceNo(existing, prefix), prefix)
    ensures SuffixValue(NextInvoiceNo(existing, prefix), prefix) == Some(NextNumber(existing, prefix))
  {
    ReadBack(prefix, NextNumber(existing, prefix));
  }

  /** The first invoice under a prefix is number 1, padded to five digits. */
  lemma FirstInvoiceNo(prefix: string)
    ensures NextInvoiceNo({}, prefix) == prefix + "00001"
    ensures NextInvoiceNoAsWritten({}, prefix) == prefix + "00001"
  {
    assert Matching({}, prefix) == {};
    assert ReadableNumbers({}, prefix) == {};
    assert FormatPadded(1, NumberWidth) == "00001" by {
      assert Zeros(4) == "0000";
    }
  }

  /** Once the allocated number is stored, the next allocation is one higher. */
  lemma NextInvoiceNoAdvances(existing: set<string>, prefix: string)
    requires SeparablePrefix(prefix)
    ensures NextNumber(existing + {NextInvoiceNo(existing, prefix)}, prefix) == NextNumber(existing, prefix) + 1
  {
    var r := NextInvoiceNo(existing, prefix);
    var n := NextNumber(existing, prefix);
    ReadBack(prefix, n);
    var after := ReadableNumbers(existing + {r}, prefix);
    assert after == ReadableNumbers(existing, prefix) + {n} by {
      assert Matching(existing + {r}, prefix) == Matching(existing, prefix) + {r};
    }
    assert n in after;
    assert Max(after) == n;
  }
}
