/** The product catalogue (`Product` in app/models/product.py): records keyed by id in
    a collection that `create`, `update` and `deactivate` change in place. */
module ProductModel {

  import opened Common
  import opened Text

  datatype Product = Product(
    id: string,
    name: string,
    description: string,
    hsn: string,
    rate: real,
    taxRate: real,
    isActive: bool,
    createdAt: Instant)

  /** The keyword arguments `update` looks at; `Some(v)` is a key the caller passed.
      Any other keyword is ignored by `update`, so it has no place here. */
  datatype ProductUpdate = ProductUpdate(
    name: Option<string>,
    description: Option<string>,
    hsn: Option<string>,
    rate: Option<real>,
    taxRate: Option<real>)

  /** `update_data` is non-empty. */
  predicate HasFields(u: ProductUpdate)
  {
    u.name.Some? || u.description.Some? || u.hsn.Some? || u.rate.Some? || u.taxRate.Some?
  }

  function Pick<T>(v: Option<T>, current: T): T
  {
    if v.Some? then v.value else current
  }

  /** The record after `$set` of the whitelisted fields that were passed. */
  function ApplyUpdate(p: Product, u: ProductUpdate): (q: Product)
    ensures q.id == p.id && q.isActive == p.isActive && q.createdAt == p.createdAt
    ensures u.name.Some? ==> q.name == u.name.value
    ensures u.name.None? ==> q.name == p.name
    ensures u.description.Some? ==> q.description == u.description.value
    ensures u.description.None? ==> q.description == p.description
    ensures u.hsn.Some? ==> q.hsn == u.hsn.value
    ensures u.hsn.None? ==> q.hsn == p.hsn
    ensures u.rate.Some? ==> q.rate == u.rate.value
    ensures u.rate.None? ==> q.rate == p.rate
    ensures u.taxRate.Some? ==> q.taxRate == u.taxRate.value
    ensures u.taxRate.None? ==> q.taxRate == p.taxRate
  {
    p.(name := Pick(u.name, p.name),
       description := Pick(u.description, p.description),
       hsn := Pick(u.hsn, p.hsn),
       rate := Pick(u.rate, p.rate),
       taxRate := Pick(u.taxRate, p.taxRate))
  }

  /** An update that passes none of the whitelisted keys leaves the record as it was. */
  lemma EmptyUpdateIsIdentity(p: Product, u: ProductUpdate)
    requires !HasFields(u)
    ensures ApplyUpdate(p, u) == p
  {
  }

  /** Re-submitting the same edit changes nothing more. */
  lemma UpdateIdempotent(p: Product, u: ProductUpdate)
    ensures ApplyUpdate(ApplyUpdate(p, u), u) == ApplyUpdate(p, u)
  {
  }

  predicate Listed(p: Product, activeOnly: bool)
  {
    !activeOnly || p.isActive
  }

  /** `get_all(active_only)`: the (active) products, ascending by name. */
  ghost function GetAll(records: map<string, Product>, activeOnly: bool): (r: seq<Product>)
    ensures forall p :: p in r <==> p in records.Values && Listed(p, activeOnly)
    ensures forall i, j :: 0 <= i < j < |r| ==> LexLeq(r[i].name, r[j].name)
    ensures forall i, j :: 0 <= i < j < |r| ==> r[i] != r[j]
  {
    var listed := set p | p in records.Values && Listed(p, activeOnly);
    SortedBy(listed, (p: Product) => p.name)
  }

  /** The products collection. */
  class Products {
    var records: map<string, Product>

    /** Every record is stored under its own non-empty id. */
    ghost predicate Valid()
      reads this
    {
      forall k :: k in records ==> k != "" && records[k].id == k
    }

    constructor ()
      ensures Valid() && records == map[]
    {
      records := map[];
    }

    /** `create`: a new active product under a fresh id (the id the database assigns). */
    method Create(freshId: string, name: string, description: string, hsn: string,
                  rate: real, taxRate: real, now: Instant) returns (id: string)
      requires Valid()
      requires freshId != "" && freshId !in records
      modifies this
      ensures Valid()
      ensures id == freshId
      ensures records == old(records)[id := Product(id, name, description, hsn, rate, taxRate, true, now)]
    {
      id := freshId;
      records := records[id := Product(id, name, description, hsn, rate, taxRate, true, now)];
    }

    /** `update`: writes only when a whitelisted key was passed; `wrote` tells whether
        a write was issued. */
    method Update(id: string, u: ProductUpdate) returns (wrote: bool)
      requires Valid()
      modifies this
      ensures Valid()
      ensures wrote <==> HasFields(u)
      ensures wrote && id in old(records) ==> records == old(records)[id := ApplyUpdate(old(records)[id], u)]
      ensures !(wrote && id in old(records)) ==> records == old(records)
    {
      wrote := HasFields(u);
      if wrote && id in records {
        records := records[id := ApplyUpdate(records[id], u)];
      }
    }

    /** `deactivate`: clears `is_active` and nothing else. */
    method Deactivate(id: string)
      requires Valid()
      modifies this
      ensures Valid()
      ensures id in old(records) ==> records == old(records)[id := old(records)[id].(isActive := false)]
      ensures id !in old(records) ==> records == old(records)
    {
      if id in records {
        records := records[id := records[id].(isActive := false)];
      }
    }
  }
}
