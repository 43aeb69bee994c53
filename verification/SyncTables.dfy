/** The tables that clients sync, and how a row of them is named. */
module SyncTables {

  /** `OtherTable` stands for every name the service does not know. */
  datatype Table = Properties | Tenants | Payments | OtherTable

  datatype Key = Key(table: Table, id: string)

  const SYNCED_TABLES := {Properties, Tenants, Payments}
}
