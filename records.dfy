/**
 * The records the front end handles. Every text field is a plain string
 * here, `""` standing for a field that is missing, null or empty. That is
 * exact wherever the source reads the field with `field || ''`; where it
 * interpolates the raw field (the room header's project code and unit
 * number), a missing or null field would print as `undefined` or `null`,
 * which this representation cannot express.
 */
module Records {
  import opened Wrappers

  /**
   * One row of `/api/data`: a single installed item. The fields are the
   * JSON keys `project_code`, `unit_no`, `contact_name`, `house_number`,
   * `product_detail`, `items_group`, `color`, `room_type`, `install_point`,
   * `install_date`, `brand` and `install_status`.
   */
  datatype RawRecord = RawRecord(
    projectCode: string,
    unitNo: string,
    contactName: string,
    houseNumber: string,
    productDetail: string,
    itemsGroup: string,
    color: string,
    roomType: string,
    installPoint: string,
    installDate: string,
    brand: string,
    installStatus: string)

  /**
   * One entry of the room list. `color`, `roomType` and `installPoint` are
   * the entries the source keys by the Thai labels for installed colour,
   * room and installation point.
   */
  datatype RoomSummary = RoomSummary(
    roomNumber: string,
    customerName: string,
    addressNo: string,
    items: string,
    color: string,
    roomType: string,
    installPoint: string,
    installedDate: string,
    id: string)

  /** The header of the room detail view. */
  datatype RoomInfo = RoomInfo(roomNumber: string, customerName: string, addressNo: string)

  /** One installed item of the room detail view. */
  datatype DetailItem = DetailItem(
    itemsGroup: string,
    items: string,
    color: string,
    roomType: string,
    installPoint: string,
    installedDate: string,
    brand: string,
    status: string,
    id: string)

  /** `{ roomInfo, items }`; `roomInfo` is `None` for `null`. */
  datatype RoomDetails = RoomDetails(roomInfo: Option<RoomInfo>, items: seq<DetailItem>)

  /** `{ roomInfo: null, items: [] }`, what every "no such room" path returns. */
  const NoRoom: RoomDetails := RoomDetails(None, [])
}
