/** The names the sidebar script works with: the payload fields it reads and
    reports, and the element ids of the form's controls. Both are closed
    sets in the script, so they are enumerations here; each constructor is
    spelled as the script spells the name. */
module Page {

  /** The payload fields the script reads or reports, by their JSON names. */
  datatype Field =
    | Number | OrderNumber | Date | DateApproved | DeliveryRequired | Firm
    | PlacedBy | PlacedWith | ShipVia | Terms | FOB | Vendor_ID | Email
    | ApprovalAccount | ApprovalTS

  /** The JSON name of a field, as it appears in the payload and in the
      `fieldName` of a notification. */
  function FieldName(f: Field): string {
    match f
    case Number => "Number"
    case OrderNumber => "OrderNumber"
    case Date => "Date"
    case DateApproved => "DateApproved"
    case DeliveryRequired => "DeliveryRequired"
    case Firm => "Firm"
    case PlacedBy => "PlacedBy"
    case PlacedWith => "PlacedWith"
    case ShipVia => "ShipVia"
    case Terms => "Terms"
    case FOB => "FOB"
    case Vendor_ID => "Vendor_ID"
    case Email => "Email"
    case ApprovalAccount => "ApprovalAccount"
    case ApprovalTS => "ApprovalTS"
  }

  /** The element ids of the form's controls: the purchase-order inputs, the
      vendor search box and the vendor detail panel's inputs. */
  datatype ElementId =
    | PoNumberInput | OrderNumberInput | DateInput | DateApprovedInput | DeliveryRequiredInput
    | PlacedByInput | PlacedWithInput | ShipViaInput | TermsInput | FobInput | FirmCheckbox
    | VendorSearchInput
    | VendorAddressInput | VendorPhoneInput | VendorEmailInput | VendorFaxInput
    | VendorPaymentInput | VendorAccountingInput | VendorAccountingPhoneInput

  /** The element id as written in the page (`document.getElementById`). */
  function IdName(e: ElementId): string {
    match e
    case PoNumberInput => "poNumber"
    case OrderNumberInput => "orderNumber"
    case DateInput => "date"
    case DateApprovedInput => "dateApproved"
    case DeliveryRequiredInput => "deliveryRequired"
    case PlacedByInput => "placedBy"
    case PlacedWithInput => "placedWith"
    case ShipViaInput => "shipVia"
    case TermsInput => "terms"
    case FobInput => "fob"
    case FirmCheckbox => "firm"
    case VendorSearchInput => "vendorSearch"
    case VendorAddressInput => "vendorAddress"
    case VendorPhoneInput => "vendorPhone"
    case VendorEmailInput => "vendorEmail"
    case VendorFaxInput => "vendorFax"
    case VendorPaymentInput => "vendorPayment"
    case VendorAccountingInput => "vendorAccounting"
    case VendorAccountingPhoneInput => "vendorAccountingPhone"
  }
}
