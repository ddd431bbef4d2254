/** The per-user registration record that the handlers keep in the state store
    (the JSON dictionary of handlers.py and db.py). Every key of the dictionary is a
    field that is `None` while the key is absent; the record is "empty" (Python's
    `not user_state`) exactly when no key is present. */
module Registration {
  import opened Strings
  import opened Payment

  /** The values the `"stage"` key takes. */
  datatype Stage =
    | AwaitingName | AwaitingEmail | AwaitingEmailConfirmation | AwaitingWhatsapp
    | AwaitingKidsCount | AwaitingHsCount | AwaitingKidsNames | AwaitingHsNames
    | ConfirmKidsNames | ConfirmHsNames
    | AwaitingPaymentChoice | AwaitingCoupon | AwaitingReceipt
    | AwaitingAmount | AwaitingWuDetails | AwaitingVodafoneDetails
    | Completed

  /** The text stored under `"stage"`. */
  function StageName(s: Stage): (name: string)
    ensures name != ""
  {
    match s
    case AwaitingName => "awaiting_name"
    case AwaitingEmail => "awaiting_email"
    case AwaitingEmailConfirmation => "awaiting_email_confirmation"
    case AwaitingWhatsapp => "awaiting_whatsapp"
    case AwaitingKidsCount => "awaiting_kids_count"
    case AwaitingHsCount => "awaiting_hs_count"
    case AwaitingKidsNames => "awaiting_kids_names"
    case AwaitingHsNames => "awaiting_hs_names"
    case ConfirmKidsNames => "confirm_kids_names"
    case ConfirmHsNames => "confirm_hs_names"
    case AwaitingPaymentChoice => "awaiting_payment_choice"
    case AwaitingCoupon => "awaiting_coupon"
    case AwaitingReceipt => "awaiting_receipt"
    case AwaitingAmount => "awaiting_amount"
    case AwaitingWuDetails => "awaiting_wu_details"
    case AwaitingVodafoneDetails => "awaiting_vodafone_details"
    case Completed => "completed"
  }

  /** The `"payment_method_info"` entry: the payment message and whether the method
      asks for transfer details after the receipt. */
  datatype MethodInfo = MethodInfo(text: PaymentText, requiresExtraInfo: bool)

  /** The state dictionary. `username` is `Some(None)` when the key is present with
      the value `None` (a Telegram user without a username). */
  datatype Record = Record(
    username: Option<Option<string>>,
    stage: Option<Stage>,
    course: Option<string>,
    name: Option<string>,
    email: Option<string>,
    tempEmail: Option<string>,
    whatsapp: Option<string>,
    kidsCount: Option<int>,
    hsCount: Option<int>,
    kidsNames: Option<string>,
    hsNames: Option<string>,
    amountPaid: Option<string>,
    wuDetails: Option<string>,
    vodafoneDetails: Option<string>,
    discountPercent: Option<int>,
    couponCode: Option<string>,
    paymentMethod: Option<string>,
    paymentMethodInfo: Option<MethodInfo>,
    receiptFileId: Option<string>,
    receiptIsPhoto: Option<bool>,
    sheetRow: Option<int>)

  /** `{}` */
  const EmptyRecord: Record := Record(None, None, None, None, None, None, None, None, None, None, None,
                                      None, None, None, None, None, None, None, None, None, None)

  /** `not user_state`: no key is present. */
  predicate IsEmpty(r: Record) {
    r == EmptyRecord
  }

  /** `{"telegram_username": username}`, the record `/start` writes. */
  function Fresh(username: Option<string>): (r: Record)
    ensures !IsEmpty(r) && r.username == Some(username) && r.stage.None?
  {
    EmptyRecord.(username := Some(username))
  }
}
