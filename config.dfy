/** The application settings the core reads (`Config` in config.py). */
module AppConfig {

  datatype Config = Config(
    companyName: string,
    companyGstin: string,
    companyAddress: string,
    companyEmail: string,
    companyPhone: string,
    invoicePrefix: string,
    templateVersion: string)

  /** The defaults used when no environment variable overrides them. */
  const Defaults: Config := Config("Qupr Digital", "", "", "", "", "INV", "v1")
}
