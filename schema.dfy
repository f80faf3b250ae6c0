/**
 * Row and insert shapes of the five tables declared in shared/schema.ts.
 * A nullable column, and an insert field that may be omitted, is an Option:
 * `undefined` and `null` both end up as None, which is what `?? null` does.
 */
module Schema {
  import opened Wrappers

  /** Text produced by `new Date().toISOString()`; the model never inspects it. */
  type Timestamp = string

  datatype User = User(
    id: int,
    username: string,
    password: string,   // an opaque `hash.salt` credential string
    email: string,
    name: string,
    role: string,
    createdAt: Timestamp)

  /** insertUserSchema: every column except id and createdAt; role has a default, so it may be omitted. */
  datatype InsertUser = InsertUser(
    username: string,
    password: string,
    email: string,
    name: string,
    role: Option<string>)

  datatype WaitlistEntry = WaitlistEntry(
    id: int,
    name: string,
    email: string,
    company: Option<string>,
    joinedAt: Timestamp)

  datatype InsertWaitlistEntry = InsertWaitlistEntry(
    name: string,
    email: string,
    company: Option<string>)

  datatype Maid = Maid(
    id: int,
    name: string,
    email: string,
    phone: string,
    city: string,
    locality: string,
    address: Option<string>,
    experience: Option<string>,
    services: Option<seq<string>>,
    joinedAt: Timestamp,
    isAvailable: Option<bool>)

  datatype InsertMaid = InsertMaid(
    name: string,
    email: string,
    phone: string,
    city: string,
    locality: string,
    address: Option<string>,
    experience: Option<string>,
    services: Option<seq<string>>)

  datatype Booking = Booking(
    id: int,
    userId: int,
    maidId: int,
    serviceType: string,
    bookingDate: string,
    bookingTime: string,
    address: string,
    status: string,
    notes: Option<string>,
    createdAt: Timestamp)

  /** insertBookingSchema: every column except id, createdAt and status. */
  datatype InsertBooking = InsertBooking(
    userId: int,
    maidId: int,
    serviceType: string,
    bookingDate: string,
    bookingTime: string,
    address: string,
    notes: Option<string>)

  datatype CompanySettings = CompanySettings(
    id: int,
    companyName: string,
    contactEmail: string,
    contactPhone: string,
    address: string,
    logo: Option<string>,
    servicesOffered: Option<seq<string>>,
    operatingHours: Option<string>,
    updatedAt: Timestamp)

  datatype InsertCompanySettings = InsertCompanySettings(
    companyName: string,
    contactEmail: string,
    contactPhone: string,
    address: string,
    logo: Option<string>,
    servicesOffered: Option<seq<string>>,
    operatingHours: Option<string>)
}
