/** The driver record and its coordinates. */
module Models {
  import opened ObjectIds

  /** An instant, as a count of clock ticks; the store's callers supply it. */
  type Time = int

  /** Degrees of latitude and longitude; no range is enforced. */
  datatype Location = Location(lat: real, lon: real)

  /**
   * One taxi driver. `id` is `NIL_OBJECT_ID` until the store assigns one;
   * `createdAt` and `updatedAt` are stamped by the store.
   */
  datatype Driver = Driver(
    id: ObjectId,
    firstName: string,
    lastName: string,
    plate: string,
    taxiType: string,
    carBrand: string,
    carModel: string,
    location: Location,
    createdAt: Time,
    updatedAt: Time)
}
