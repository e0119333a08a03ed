/** Client records (`Client` in app/models/client.py): a collection keyed by id that
    `create`, `update` and `deactivate` change in place. GSTINs are stored upper-cased
    and contact e-mails lower-cased. */
module ClientModel {

  import opened Common
  import opened Text

  datatype Client = Client(
    id: string,
    companyName: string,
    gstin: Option<string>,
    billingAddress: string,
    contactPerson: Option<string>,
    contactEmail: Option<string>,
    contactPhone: Option<string>,
    isActive: bool,
    createdAt: Instant)

  /** `gstin.upper() if gstin else None`. */
  function NormalizeGstin(gstin: Option<string>): (r: Option<string>)
    ensures r.Some? <==> Truthy(gstin)
    ensures r.Some? ==> r.value == Upper(gstin.value)
  {
    if Truthy(gstin) then Some(Upper(gstin.value)) else None
  }

  /** `contact_email.lower() if contact_email else None`. */
  function NormalizeEmail(email: Option<string>): (r: Option<string>)
    ensures r.Some? <==> Truthy(email)
    ensures r.Some? ==> r.value == Lower(email.value)
  {
    if Truthy(email) then Some(Lower(email.value)) else None
  }

  /** A stored GSTIN is already normal: normalising it again changes nothing. */
  lemma NormalizeGstinIdempotent(gstin: Option<string>)
    ensures NormalizeGstin(NormalizeGstin(gstin)) == NormalizeGstin(gstin)
  {
    if Truthy(gstin) {
      UpperIdempotent(gstin.value);
    }
  }

  lemma NormalizeEmailIdempotent(email: Option<string>)
    ensures NormalizeEmail(NormalizeEmail(email)) == NormalizeEmail(email)
  {
    if Truthy(email) {
      LowerIdempotent(email.value);
    }
  }

  /** The record `create` inserts. */
  function NewClient(id: string, companyName: string, gstin: Option<string>, billingAddress: string,
                     contactPerson: Option<string>, contactEmail: Option<string>,
                     contactPhone: Option<string>, now: Instant): (c: Client)
    ensures c.id == id && c.companyName == companyName && c.billingAddress == billingAddress
    ensures c.gstin == NormalizeGstin(gstin)
    ensures c.contactEmail == NormalizeEmail(contactEmail)
    ensures c.contactPerson == contactPerson && c.contactPhone == contactPhone
    ensures c.isActive && c.createdAt == now
  {
    Client(id, companyName, NormalizeGstin(gstin), billingAddress, contactPerson,
           NormalizeEmail(contactEmail), contactPhone, true, now)
  }

  /** The keyword arguments of `update`, one per editable field. `None` is a keyword
      that was not passed or was passed as `None`: both are dropped from `update_data`. */
  datatype ClientUpdate = ClientUpdate(
    companyName: Option<string>,
    gstin: Option<string>,
    billingAddress: Option<string>,
    contactPerson: Option<string>,
    contactEmail: Option<string>,
    contactPhone: Option<string>)

  /** A passed GSTIN after `update`'s rewrite: upper-cased when non-empty, kept as
      given (the empty string) otherwise. */
  function UpdatedGstin(v: string): (r: string)
    ensures v != "" ==> r == Upper(v)
    ensures v == "" ==> r == ""
  {
    if v != "" then Upper(v) else v
  }

  function UpdatedEmail(v: string): (r: string)
    ensures v != "" ==> r == Lower(v)
    ensures v == "" ==> r == ""
  {
    if v != "" then Lower(v) else v
  }

  /** The record after `$set` of `update_data`. */
  function ApplyUpdate(c: Client, u: ClientUpdate): (d: Client)
    ensures d.id == c.id && d.isActive == c.isActive && d.createdAt == c.createdAt
    ensures d.companyName == (if u.companyName.Some? then u.companyName.value else c.companyName)
    ensures d.billingAddress == (if u.billingAddress.Some? then u.billingAddress.value else c.billingAddress)
    ensures u.gstin.Some? ==> d.gstin == Some(UpdatedGstin(u.gstin.value))
    ensures u.gstin.None? ==> d.gstin == c.gstin
    ensures u.contactEmail.Some? ==> d.contactEmail == Some(UpdatedEmail(u.contactEmail.value))
    ensures u.contactEmail.None? ==> d.contactEmail == c.contactEmail
    ensures u.contactPerson.Some? ==> d.contactPerson == u.contactPerson
    ensures u.contactPerson.None? ==> d.contactPerson == c.contactPerson
    ensures u.contactPhone.Some? ==> d.contactPhone == u.contactPhone
    ensures u.contactPhone.None? ==> d.contactPhone == c.contactPhone
  {
    Client(c.id,
           if u.companyName.Some? then u.companyName.value else c.companyName,
           if u.gstin.Some? then Some(UpdatedGstin(u.gstin.value)) else c.gstin,
           if u.billingAddress.Some? then u.billingAddress.value else c.billingAddress,
           if u.contactPerson.Some? then u.contactPerson else c.contactPerson,
           if u.contactEmail.Some? then Some(UpdatedEmail(u.contactEmail.value)) else c.contactEmail,
           if u.contactPhone.Some? then u.contactPhone else c.contactPhone,
           c.isActive, c.createdAt)
  }

  /** An update whose every keyword is `None` leaves the record as it was. */
  lemma NoneUpdateIsIdentity(c: Client)
    ensures ApplyUpdate(c, ClientUpdate(None, None, None, None, None, None)) == c
  {
  }

  /** On a non-empty value, `update` stores the GSTIN and e-mail exactly as `create` does. */
  lemma UpdateNormalizesLikeCreate(c: Client, u: ClientUpdate)
    requires Truthy(u.gstin) && Truthy(u.contactEmail)
    ensures ApplyUpdate(c, u).gstin == NormalizeGstin(u.gstin)
    ensures ApplyUpdate(c, u).contactEmail == NormalizeEmail(u.contactEmail)
  {
  }

  /** Re-submitting the same edit changes nothing more. */
  lemma UpdateIdempotent(c: Client, u: ClientUpdate)
    ensures ApplyUpdate(ApplyUpdate(c, u), u) == ApplyUpdate(c, u)
  {
  }

  predicate Listed(c: Client, activeOnly: bool)
  {
    !activeOnly || c.isActive
  }

  /** `get_all(active_only)`: the (active) clients, ascending by company name. */
  ghost function GetAll(records: map<string, Client>, activeOnly: bool): (r: seq<Client>)
    ensures forall c :: c in r <==> c in records.Values && Listed(c, activeOnly)
    ensures forall i, j :: 0 <= i < j < |r| ==> LexLeq(r[i].companyName, r[j].companyName)
    ensures forall i, j :: 0 <= i < j < |r| ==> r[i] != r[j]
  {
    var listed := set c | c in records.Values && Listed(c, activeOnly);
    SortedBy(listed, (c: Client) => c.companyName)
  }

  /** The clients collection. */
  class Clients {
    var records: map<string, Client>

    /** Every record is stored under its own non-empty id. */
    ghost predicate Valid()
      reads this
    {
      forall k :: k in records ==> k != "" && records[k].id == k
    }

    constructor ()
      ensures Valid() && records == map[]
    {
      records := map[];
    }

    /** `create`: a new active client under a fresh id (the id the database assigns). */
    method Create(freshId: string, companyName: string, gstin: Option<string>, billingAddress: string,
                  contactPerson: Option<string>, contactEmail: Option<string>,
                  contactPhone: Option<string>, now: Instant) returns (id: string)
      requires Valid()
      requires freshId != "" && freshId !in records
      modifies this
      ensures Valid()
      ensures id == freshId
      ensures records == old(records)[id := NewClient(id, companyName, gstin, billingAddress,
                                                      contactPerson, contactEmail, contactPhone, now)]
    {
      id := freshId;
      records := records[id := NewClient(id, companyName, gstin, billingAddress,
                                         contactPerson, contactEmail, contactPhone, now)];
    }

    /** `update`: `$set` of the non-`None` keywords, after normalisation. */
    method Update(id: string, u: ClientUpdate)
      requires Valid()
      modifies this
      ensures Valid()
      ensures id in old(records) ==> records == old(records)[id := ApplyUpdate(old(records)[id], u)]
      ensures id !in old(records) ==> records == old(records)
    {
      if id in records {
        records := records[id := ApplyUpdate(records[id], u)];
      }
    }

    /** `deactivate`: clears `is_active` and nothing else. */
    method Deactivate(id: string)
      requires Valid()
      modifies this
      ensures Valid()
      ensures id in old(records) ==> records == old(records)[id := old(records)[id].(isActive := false)]
      ensures id !in old(records) ==> records == old(records)
    {
      if id in records {
        records := records[id := records[id].(isActive := false)];
      }
    }
  }
}
