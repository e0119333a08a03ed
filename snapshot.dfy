/** By-value copies frozen into invoices (`SnapshotService` in
    app/services/snapshot_service.py). Every builder only reads its inputs and returns a
    new value, so later edits to the product, the client or the settings cannot reach a
    snapshot that has already been built. */
module SnapshotService {

  import opened Common
  import opened AppConfig
  import opened ProductModel
  import opened ClientModel

  /** An invoice line: the product's descriptive and pricing fields at the time the line
      was added, and the quantity. */
  datatype ItemSnapshot = ItemSnapshot(
    productId: string,
    name: string,
    description: string,
    hsn: string,
    rate: real,
    taxRate: real,
    quantity: real)

  datatype ClientSnapshot = ClientSnapshot(
    clientId: string,
    companyName: string,
    gstin: Option<string>,
    billingAddress: string,
    contactPerson: Option<string>,
    contactEmail: Option<string>,
    contactPhone: Option<string>)

  /** The company block; `client` is added by the issuer after `create_snapshot`. */
  datatype Snapshot = Snapshot(
    companyName: string,
    companyGstin: string,
    companyAddress: string,
    companyEmail: string,
    companyPhone: string,
    templateVersion: string,
    snapshotAt: Instant,
    client: Option<ClientSnapshot>)

  /** `create_snapshot`: the five company settings, the template version and the time. */
  function CreateSnapshot(config: Config, now: Instant): (s: Snapshot)
    ensures s.companyName == config.companyName && s.companyGstin == config.companyGstin
    ensures s.companyAddress == config.companyAddress
    ensures s.companyEmail == config.companyEmail && s.companyPhone == config.companyPhone
    ensures s.templateVersion == config.templateVersion && s.snapshotAt == now
    ensures s.client.None?
  {
    Snapshot(config.companyName, config.companyGstin, config.companyAddress,
             config.companyEmail, config.companyPhone, config.templateVersion, now, None)
  }

  /** `create_item_snapshot`. */
  function CreateItemSnapshot(product: Product, quantity: real): (s: ItemSnapshot)
    ensures s.productId == product.id && s.quantity == quantity
    ensures s.name == product.name && s.description == product.description && s.hsn == product.hsn
    ensures s.rate == product.rate && s.taxRate == product.taxRate
  {
    ItemSnapshot(product.id, product.name, product.description, product.hsn,
                 product.rate, product.taxRate, quantity)
  }

  /** `create_client_snapshot`: optional fields are copied as they are, `None` included. */
  function CreateClientSnapshot(client: Client): (s: ClientSnapshot)
    ensures s.clientId == client.id && s.companyName == client.companyName
    ensures s.billingAddress == client.billingAddress && s.gstin == client.gstin
    ensures s.contactPerson == client.contactPerson && s.contactEmail == client.contactEmail
    ensures s.contactPhone == client.contactPhone
  {
    ClientSnapshot(client.id, client.companyName, client.gstin, client.billingAddress,
                   client.contactPerson, client.contactEmail, client.contactPhone)
  }

  /** Deactivating a product does not change the line a draft would copy from it. */
  lemma ItemSnapshotIgnoresDeactivation(product: Product, quantity: real)
    ensures CreateItemSnapshot(product.(isActive := false), quantity) == CreateItemSnapshot(product, quantity)
  {
  }

  /** An edit to a product shows in a line built afterwards exactly where it set a field. */
  lemma ItemSnapshotAfterUpdate(product: Product, u: ProductUpdate, quantity: real)
    ensures var s := CreateItemSnapshot(ProductModel.ApplyUpdate(product, u), quantity);
            && s.productId == product.id
            && s.rate == (if u.rate.Some? then u.rate.value else product.rate)
            && s.taxRate == (if u.taxRate.Some? then u.taxRate.value else product.taxRate)
            && s.name == (if u.name.Some? then u.name.value else product.name)
  {
  }

  /** Deactivating a client does not change its snapshot. */
  lemma ClientSnapshotIgnoresDeactivation(client: Client)
    ensures CreateClientSnapshot(client.(isActive := false)) == CreateClientSnapshot(client)
  {
  }

  /** A client snapshot built from an edited record carries the edited values, and
      every field the edit left out is the one the snapshot had before. */
  lemma ClientSnapshotAfterUpdate(client: Client, u: ClientUpdate)
    ensures var before := CreateClientSnapshot(client);
            var after := CreateClientSnapshot(ClientModel.ApplyUpdate(client, u));
            && after.clientId == before.clientId
            && (u.companyName.None? ==> after.companyName == before.companyName)
            && (u.gstin.None? ==> after.gstin == before.gstin)
            && (u.billingAddress.None? ==> after.billingAddress == before.billingAddress)
            && (u.contactPerson.None? ==> after.contactPerson == before.contactPerson)
            && (u.contactEmail.None? ==> after.contactEmail == before.contactEmail)
            && (u.contactPhone.None? ==> after.contactPhone == before.contactPhone)
            && (u.companyName.Some? ==> after.companyName == u.companyName.value)
            && (u.gstin.Some? ==> after.gstin == Some(ClientModel.UpdatedGstin(u.gstin.value)))
            && (u.billingAddress.Some? ==> after.billingAddress == u.billingAddress.value)
            && (u.contactPerson.Some? ==> after.contactPerson == u.contactPerson)
            && (u.contactEmail.Some? ==> after.contactEmail == Some(ClientModel.UpdatedEmail(u.contactEmail.value)))
            && (u.contactPhone.Some? ==> after.contactPhone == u.contactPhone)
            && (u == ClientUpdate(None, None, None, None, None, None) ==> after == before)
  {
  }
}
