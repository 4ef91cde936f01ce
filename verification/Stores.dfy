/** The stores table row, as db/sqlc/models.go and the migrations declare it. */
module Stores {
  import opened Text

  datatype Status = Draft | Pending | Approved | Rejected

  datatype GfStatus = Certified | OnRequest | HiddenGluten

  /** The columns an insert or an operator edit writes. */
  datatype Fields = Fields(
    ward: int,
    name: string,
    address: string,
    latitude: real,
    longitude: real,
    gfOriented: bool,
    status: Status,
    cuisine: string,
    priceLevel: int,
    gfStatus: GfStatus,
    photoUrl: Option<string>,
    nameEn: string,
    phone: string,
    sourceUrl: string,
    notes: string)

  /** The columns a store partner may edit; note: no ward, status or source. */
  datatype Profile = Profile(
    name: string,
    address: string,
    latitude: real,
    longitude: real,
    gfOriented: bool,
    cuisine: string,
    priceLevel: int,
    gfStatus: GfStatus,
    photoUrl: Option<string>)

  /** Go's textOrNull: an empty string is stored as NULL. */
  function TextOrNull(s: string): Option<string> {
    if s == "" then None else Some(s)
  }

  datatype Store = Store(fields: Fields, rejection: Option<string>, approvedAt: Option<int>)

  datatype Ward = Ward(id: int, nameEn: string, nameJa: string)

  /** A committed row; ids number the rows in creation order. */
  datatype Row = Row(id: nat, store: Store)

  /** How one database call ends: done, refused, or done although it reported an error. */
  datatype Fault = Fine | Lost | Committed
}
