/** Who may see and change what (app/utils/permissions.py): role and status rules over
    a possibly absent signed-in user, and the list of invoices a user is shown. */
module Permissions {

  import opened Common
  import opened InvoiceModel

  /** `ROLE_OWNER`, `ROLE_CLIENT`, or any other stored role (or none). */
  datatype Role = Owner | ClientRole | OtherRole

  /** A signed-in user: its role and, for a client, the client it belongs to. */
  datatype User = User(role: Role, clientId: Option<string>)

  /** `User.is_owner`: a user is present and its role is the owner's. */
  predicate IsOwner(user: Option<User>)
  {
    user.Some? && user.value.role == Owner
  }

  /** `User.is_client`. */
  predicate IsClient(user: Option<User>)
  {
    user.Some? && user.value.role == ClientRole
  }

  /** `str(invoice['client_id']) == str(user.get('client_id'))`: an absent client id
      prints as "None". */
  predicate OwnsInvoice(user: User, invoice: Invoice)
  {
    invoice.clientId == Str(user.clientId)
  }

  /** `can_view_invoice`. */
  predicate CanViewInvoice(user: Option<User>, invoice: Invoice)
  {
    if IsOwner(user) then true
    else if IsClient(user) then OwnsInvoice(user.value, invoice)
    else false
  }

  /** `can_edit_invoice`: owners, and only while the invoice is neither issued nor paid. */
  predicate CanEditInvoice(user: Option<User>, invoice: Invoice)
  {
    IsOwner(user) && !(invoice.status == Issued || invoice.status == Paid)
  }

  /** `can_delete_invoice`: owners, and only for drafts. */
  predicate CanDeleteInvoice(user: Option<User>, invoice: Invoice)
  {
    IsOwner(user) && invoice.status == Draft
  }

  /** `can_manage_clients`. */
  predicate CanManageClients(user: Option<User>)
  {
    IsOwner(user)
  }

  /** `can_manage_products`. */
  predicate CanManageProducts(user: Option<User>)
  {
    IsOwner(user)
  }

  /** Viewing is granted to an owner on every invoice, to a client on exactly its own,
      and to nobody else. */
  lemma ViewRule(user: Option<User>, invoice: Invoice)
    ensures CanViewInvoice(user, invoice) <==>
              || (user.Some? && user.value.role == Owner)
              || (user.Some? && user.value.role == ClientRole && invoice.clientId == Str(user.value.clientId))
  {
  }

  /** With only three statuses, "neither issued nor paid" is "draft": the edit and the
      delete rules grant the same invoices. */
  lemma EditIsDelete(user: Option<User>, invoice: Invoice)
    ensures CanEditInvoice(user, invoice) <==> CanDeleteInvoice(user, invoice)
  {
  }

  /** Managing the catalogue, editing and deleting are owner-only. */
  lemma ChangesAreOwnerOnly(user: Option<User>, invoice: Invoice)
    requires !IsOwner(user)
    ensures !CanEditInvoice(user, invoice) && !CanDeleteInvoice(user, invoice)
    ensures !CanManageClients(user) && !CanManageProducts(user)
  {
  }

  /** `require_invoice_access`: `true` where the request goes on, `false` where it is
      aborted with 403. */
  function RequireInvoiceAccess(user: Option<User>, invoice: Invoice, edit: bool): (granted: bool)
    ensures granted ==> CanViewInvoice(user, invoice)
    ensures edit ==> (granted <==> IsOwner(user) && invoice.status == Draft)
    ensures !edit ==> (granted <==> CanViewInvoice(user, invoice))
  {
    if edit then CanEditInvoice(user, invoice) else CanViewInvoice(user, invoice)
  }

  // ---------------------------------------------------------------- filter_client_invoices

  /** The invoices of one client, in the order given (the list comprehension). */
  function OfClient(invoices: seq<Invoice>, clientId: string): (r: seq<Invoice>)
    ensures |r| <= |invoices|
    ensures forall inv :: inv in r <==> inv in invoices && inv.clientId == clientId
  {
    if invoices == [] then []
    else if invoices[0].clientId == clientId then [invoices[0]] + OfClient(invoices[1..], clientId)
    else OfClient(invoices[1..], clientId)
  }

  /** `filter_client_invoices`. */
  function FilterClientInvoices(user: Option<User>, invoices: seq<Invoice>): (r: seq<Invoice>)
    ensures IsOwner(user) ==> r == invoices
    ensures !IsOwner(user) && !IsClient(user) ==> r == []
    ensures forall inv :: inv in r <==> inv in invoices && CanViewInvoice(user, inv)
  {
    if IsOwner(user) then invoices
    else if IsClient(user) then OfClient(invoices, Str(user.value.clientId))
    else []
  }

  /** Reference definition: the invoices the user may view, in the order given. */
  function Visible(user: Option<User>, invoices: seq<Invoice>): seq<Invoice>
  {
    if invoices == [] then []
    else if CanViewInvoice(user, invoices[0]) then [invoices[0]] + Visible(user, invoices[1..])
    else Visible(user, invoices[1..])
  }

  /** `sub` is `s` with some elements dropped, the rest kept in order. */
  predicate Subsequence(sub: seq<Invoice>, s: seq<Invoice>)
    decreases |s|
  {
    if sub == [] then true
    else if s == [] then false
    else if sub[0] == s[0] then Subsequence(sub[1..], s[1..])
    else Subsequence(sub, s[1..])
  }

  /** The reference list keeps the original order. */
  lemma {:induction false} VisibleIsSubsequence(user: Option<User>, invoices: seq<Invoice>)
    ensures Subsequence(Visible(user, invoices), invoices)
    decreases |invoices|
  {
    if invoices != [] {
      VisibleIsSubsequence(user, invoices[1..]);
      var v := Visible(user, invoices[1..]);
      if CanViewInvoice(user, invoices[0]) {
        assert ([invoices[0]] + v)[1..] == v;
      } else if v != [] {
        SubsequenceSkips(v, invoices);
      }
    }
  }

  /** Dropping the head of the larger sequence keeps a subsequence relation that
      already held for its tail. */
  lemma SubsequenceSkips(sub: seq<Invoice>, s: seq<Invoice>)
    requires s != [] && Subsequence(sub, s[1..])
    ensures Subsequence(sub, s)
    decreases |s|, 0
  {
    if sub != [] && sub[0] == s[0] {
      SubsequenceTail(sub, s[1..]);
    }
  }

  /** A subsequence's tail is a subsequence too. */
  lemma {:induction false} SubsequenceTail(sub: seq<Invoice>, s: seq<Invoice>)
    requires sub != [] && Subsequence(sub, s)
    ensures Subsequence(sub[1..], s)
    decreases |s|, 1
  {
    if s != [] && sub[0] != s[0] {
      SubsequenceTail(sub, s[1..]);
      SubsequenceSkips(sub[1..], s);
    } else if s != [] && sub[1..] != [] {
      SubsequenceSkips(sub[1..], s);
    }
  }

  /** For a client, the comprehension keeps exactly the invoices the client may view. */
  lemma {:induction false} OfClientIsVisible(user: Option<User>, invoices: seq<Invoice>)
    requires IsClient(user)
    ensures OfClient(invoices, Str(user.value.clientId)) == Visible(user, invoices)
    decreases |invoices|
  {
    if invoices != [] {
      OfClientIsVisible(user, invoices[1..]);
    }
  }

  /** The filter shows a user exactly the invoices the user may view, in their original
      order, and nothing else. */
  lemma {:induction false} FilterIsVisible(user: Option<User>, invoices: seq<Invoice>)
    ensures FilterClientInvoices(user, invoices) == Visible(user, invoices)
    ensures Subsequence(FilterClientInvoices(user, invoices), invoices)
  {
    if IsOwner(user) {
      OwnerSeesAll(user, invoices);
    } else if IsClient(user) {
      OfClientIsVisible(user, invoices);
    } else {
      NobodySeesNothing(user, invoices);
    }
    VisibleIsSubsequence(user, invoices);
  }

  /** An owner's reference list is the whole list. */
  lemma {:induction false} OwnerSeesAll(user: Option<User>, invoices: seq<Invoice>)
    requires IsOwner(user)
    ensures Visible(user, invoices) == invoices
    decreases |invoices|
  {
    if invoices != [] {
      OwnerSeesAll(user, invoices[1..]);
      assert [invoices[0]] + invoices[1..] == invoices;
    }
  }

  /** Neither owner nor client: the reference list is empty. */
  lemma {:induction false} NobodySeesNothing(user: Option<User>, invoices: seq<Invoice>)
    requires !IsOwner(user) && !IsClient(user)
    ensures Visible(user, invoices) == []
    decreases |invoices|
  {
    if invoices != [] {
      NobodySeesNothing(user, invoices[1..]);
    }
  }
}
