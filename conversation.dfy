/** The registration stage machine of handlers.py as pure transitions over the stored
    record. Each handler loads the record, branches on its stage (and course), checks
    the input, changes some fields and the stage, and writes the record back; here a
    transition yields the record written (`Some`) or no write at all (`None`). The
    replies and keyboards the handlers send are not modelled. */
module Conversation {
  import opened Strings
  import opened Payment
  import opened Registration

  // ---------------------------------------------------------------------------
  // Input checks

  /** The answers that accept a names list whose length differs from the count. */
  const AffirmativeTokens: seq<string> := ["موافق", "ok", "تمام", "نعم", "yes"]

  /** The text that skips the coupon question. */
  const SkipToken: string := "تخطي"

  predicate Affirmative(text: string) {
    Lower(Strip(text)) in AffirmativeTokens
  }

  /** The courses whose e-mail must be a Gmail address entered twice. */
  predicate NeedsGmail(course: Option<string>) {
    course == Some("expert") || course == Some("highschool")
  }

  /** `int(text)` accepted only when it is greater than zero. */
  function PositiveCount(text: string): (k: Option<int>)
    ensures k.Some? <==> ParseInt(text).Some? && ParseInt(text).value > 0
    ensures k.Some? ==> k.value == ParseInt(text).value
  {
    match ParseInt(text)
    case None => None
    case Some(n) => if n > 0 then Some(n) else None
  }

  /** `[n.strip() for n in pieces if n.strip()]` */
  function CleanNames(pieces: seq<string>): (names: seq<string>)
    ensures |names| <= |pieces|
    ensures forall i :: 0 <= i < |names| ==> names[i] != ""
  {
    if pieces == [] then []
    else (if Strip(pieces[0]) != "" then [Strip(pieces[0])] else []) + CleanNames(pieces[1..])
  }

  /** The names of a comma-separated list, stripped, without the blank ones. */
  function Names(text: string): seq<string> {
    CleanNames(Split(text, ','))
  }

  /** `expected and len(names) != expected` */
  predicate CountMismatch(expected: Option<int>, names: seq<string>) {
    expected.Some? && expected.value != 0 && |names| != expected.value
  }

  /** Where a names list leads: to the payment choice, or to the confirmation stage
      when it does not match a non-zero count. */
  function AfterNames(expected: Option<int>, names: seq<string>, confirm: Stage): Stage {
    if CountMismatch(expected, names) then confirm else AwaitingPaymentChoice
  }

  // ---------------------------------------------------------------------------
  // handle_text (handlers.py:98-324)

  function OnEmail(r: Record, text: string): Option<Record> {
    if '@' !in text || '.' !in text then None
    else if NeedsGmail(r.course) then
      if !EndsWith(Lower(text), "@gmail.com") then None
      else Some(r.(tempEmail := Some(text), stage := Some(AwaitingEmailConfirmation)))
    else Some(r.(email := Some(text), stage := Some(AwaitingWhatsapp)))
  }

  function OnEmailConfirmation(r: Record, text: string): Record {
    var first := r.tempEmail.GetOr("");
    if Lower(Strip(text)) == Lower(Strip(first))
    then r.(email := Some(first), tempEmail := None, stage := Some(AwaitingWhatsapp))
    else r.(tempEmail := None, stage := Some(AwaitingEmail))
  }

  function OnWhatsapp(r: Record, text: string): Record {
    var next := if r.course == Some("kids") then AwaitingKidsCount
                else if r.course == Some("highschool") then AwaitingHsCount
                else AwaitingPaymentChoice;
    r.(whatsapp := Some(text), stage := Some(next))
  }

  function OnKidsNames(r: Record, text: string): Record {
    var names := Names(text);
    r.(kidsNames := Some(Join(names, ", ")), stage := Some(AfterNames(r.kidsCount, names, ConfirmKidsNames)))
  }

  function OnHsNames(r: Record, text: string): Record {
    var names := Names(text);
    r.(hsNames := Some(Join(names, ", ")), stage := Some(AfterNames(r.hsCount, names, ConfirmHsNames)))
  }

  /** `discount` is what `get_coupon(text, course)` answered. */
  function OnCoupon(r: Record, text: string, discount: Option<int>): Option<Record> {
    if text == SkipToken then Some(r.(stage := Some(AwaitingPaymentChoice)))
    else if discount.Some? && discount.value != 0 then
      Some(r.(discountPercent := discount, couponCode := Some(Upper(text)), stage := Some(AwaitingPaymentChoice)))
    else None
  }

  function OnKidsCount(r: Record, text: string): Option<Record> {
    match PositiveCount(text)
    case None => None
    case Some(k) => Some(r.(kidsCount := Some(k), stage := Some(AwaitingKidsNames)))
  }

  function OnHsCount(r: Record, text: string): Option<Record> {
    match PositiveCount(text)
    case None => None
    case Some(k) => Some(r.(hsCount := Some(k), stage := Some(AwaitingHsNames)))
  }

  function OnConfirmKidsNames(r: Record, text: string): Record {
    if Affirmative(text) then r.(stage := Some(AwaitingPaymentChoice)) else OnKidsNames(r, text)
  }

  function OnConfirmHsNames(r: Record, text: string): Record {
    if Affirmative(text) then r.(stage := Some(AwaitingPaymentChoice)) else OnHsNames(r, text)
  }

  /** The record `handle_text` writes for the stripped message `text`, given what the
      coupon table answers for it; `None` when it writes nothing. */
  function TextStep(r: Record, text: string, discount: Option<int>): (w: Option<Record>)
    ensures w.Some? ==> r.stage.Some? && w.value.stage.Some?
    ensures w.Some? ==> w.value.username == r.username && w.value.course == r.course
  {
    if IsEmpty(r) || r.stage.None? then None
    else match r.stage.value
      case AwaitingName => Some(r.(name := Some(text), stage := Some(AwaitingEmail)))
      case AwaitingEmail => OnEmail(r, text)
      case AwaitingEmailConfirmation => Some(OnEmailConfirmation(r, text))
      case AwaitingWhatsapp => Some(OnWhatsapp(r, text))
      case AwaitingKidsCount => OnKidsCount(r, text)
      case AwaitingHsCount => OnHsCount(r, text)
      case AwaitingKidsNames => Some(OnKidsNames(r, text))
      case AwaitingHsNames => Some(OnHsNames(r, text))
      case ConfirmKidsNames => Some(OnConfirmKidsNames(r, text))
      case ConfirmHsNames => Some(OnConfirmHsNames(r, text))
      case AwaitingAmount => Some(r.(amountPaid := Some(text), stage := Some(Completed)))
      case AwaitingWuDetails => Some(r.(wuDetails := Some(text), stage := Some(Completed)))
      case AwaitingVodafoneDetails => Some(r.(vodafoneDetails := Some(text), stage := Some(Completed)))
      case AwaitingCoupon => OnCoupon(r, text, discount)
      case _ => None
  }

  /** The stages after which `handle_text` hands the registration to the admins. */
  predicate Forwards(s: Stage) {
    s == AwaitingAmount || s == AwaitingWuDetails || s == AwaitingVodafoneDetails
  }

  // ---------------------------------------------------------------------------
  // handle_callback (handlers.py:589-692)

  const WesternUnionName: string := "Western Union / MoneyGram"

  /** `friendly_map` */
  const FriendlyNames: map<string, string> := map[
    "paypal" := "PayPal",
    "bankak" := "بنكك (السودان)",
    "saudi" := "تحويل بنكي (السعودية)",
    "uae" := "تحويل بنكي (الإمارات)",
    "wu_mg" := WesternUnionName,
    "rwanda" := "محفظة الهاتف (رواندا)",
    "vodafone_eg" := "فودافون كاش / انستا باي (مصر)",
    "iban" := "تحويل بنكي (IBAN)"]

  /** `friendly_map.get(method_key, method_key)` */
  function FriendlyName(methodKey: string): (name: string)
    ensures methodKey !in FriendlyNames ==> name == methodKey
  {
    if methodKey in FriendlyNames then FriendlyNames[methodKey] else methodKey
  }

  /** The methods that ask for transfer details after the receipt. */
  predicate RequiresExtraInfo(methodKey: string) {
    methodKey == "wu_mg" || methodKey == "vodafone_eg"
  }

  /** `data.split("_")[1]` for a `course_` button. */
  function CourseOf(data: string): string
    requires StartsWith(data, "course_")
  {
    assert data[6] == "course_"[6];
    Split(data, '_')[1]
  }

  /** `data.replace("pay_", "")` */
  function MethodKeyOf(data: string): string {
    RemoveAll(data, "pay_")
  }

  /** The `pay_` branch: nothing without a course, nothing when the price table raises,
      otherwise the method, its message and the receipt stage. */
  function OnPay(r: Record, methodKey: string, prices: map<string, PriceMap>): Option<Record> {
    if !Truthy(r.course) then None
    else
      var text := BuildPaymentText(prices, methodKey, r.course.value, r.kidsCount, r.hsCount,
                                   r.discountPercent.GetOr(0));
      if text.KeyError? then None
      else Some(r.(paymentMethod := Some(FriendlyName(methodKey)),
                   paymentMethodInfo := Some(MethodInfo(text, RequiresExtraInfo(methodKey))),
                   stage := Some(AwaitingReceipt)))
  }

  /** The write a button's own branch makes. */
  function OnButton(r: Record, data: string, prices: map<string, PriceMap>): Option<Record> {
    if StartsWith(data, "course_") then Some(r.(course := Some(CourseOf(data))))
    else if StartsWith(data, "join_") then Some(r.(stage := Some(AwaitingName)))
    else if data == "coupon_request" then Some(r.(stage := Some(AwaitingCoupon)))
    else if data == "skip_coupon" then Some(r.(stage := Some(AwaitingPaymentChoice)))
    else if StartsWith(data, "pay_") then OnPay(r, MethodKeyOf(data), prices)
    else None
  }

  /** The record `handle_callback` leaves for the user who pressed button `data`: an
      empty record is first replaced by `{"telegram_username": username}`, then the
      button's branch writes. `None` when nothing is written. The admin decision and
      `start_over` buttons act after this step. */
  function CallbackStep(r: Record, username: Option<string>, data: string,
                        prices: map<string, PriceMap>): (w: Option<Record>)
    ensures IsEmpty(r) ==> w.Some?
    ensures w.Some? ==> !IsEmpty(w.value)
  {
    var r0 := if IsEmpty(r) then Fresh(username) else r;
    match OnButton(r0, data, prices)
    case Some(r1) => assert !IsEmpty(r1) by { assert r1.username == r0.username || r1.stage.Some?; } Some(r1)
    case None => if IsEmpty(r) then Some(r0) else None
  }

  // ---------------------------------------------------------------------------
  // handle_receipt (handlers.py:424-476)

  /** The attachments of a message: the file ids of the photo's sizes, smallest first,
      and the document, if any. */
  datatype Upload = Upload(photoSizes: seq<string>, document: Option<string>)

  /** The receipt file and whether it is a photo: the largest photo size when there is
      a photo, else the document. */
  function ReceiptFile(u: Upload): (f: Option<(string, bool)>)
    ensures u.photoSizes != [] ==> f == Some((u.photoSizes[|u.photoSizes| - 1], true))
    ensures u.photoSizes == [] ==> f == if u.document.Some? then Some((u.document.value, false)) else None
  {
    if u.photoSizes != [] then Some((u.photoSizes[|u.photoSizes| - 1], true))
    else if u.document.Some? then Some((u.document.value, false))
    else None
  }

  /** The stage after the receipt: the transfer details for methods that need them
      (Vodafone Cash when the method's name mentions Vodafone, Western Union otherwise),
      the end of the registration for the others. */
  function AfterReceipt(r: Record): Stage {
    if r.paymentMethodInfo.Some? && r.paymentMethodInfo.value.requiresExtraInfo then
      var m := r.paymentMethod.GetOr("");
      if ContainsSub(m, "فودافون") || ContainsSub(Lower(m), "vodafone") then AwaitingVodafoneDetails
      else AwaitingWuDetails
    else Completed
  }

  function ReceiptStep(r: Record, u: Upload): (w: Option<Record>)
    ensures w.Some? ==> r.stage == Some(AwaitingReceipt) && ReceiptFile(u).Some?
    ensures w.Some? ==> w.value == r.(receiptFileId := Some(ReceiptFile(u).value.0),
                                      receiptIsPhoto := Some(ReceiptFile(u).value.1),
                                      stage := Some(AfterReceipt(r)))
  {
    if IsEmpty(r) || r.stage != Some(AwaitingReceipt) then None
    else match ReceiptFile(u)
      case None => None
      case Some(f) => Some(r.(receiptFileId := Some(f.0), receiptIsPhoto := Some(f.1), stage := Some(AfterReceipt(r))))
  }

  // ---------------------------------------------------------------------------
  // Properties of the text stages

  /** The name is taken as typed. */
  lemma NameStored(r: Record, text: string)
    requires r.stage == Some(AwaitingName)
    ensures TextStep(r, text, None) == Some(r.(name := Some(text), stage := Some(AwaitingEmail)))
  {
    assert r.stage.value == AwaitingName;
  }

  /** An e-mail needs an `@` and a dot, and a Gmail address for expert and highschool;
      those are kept aside for confirmation, the others are stored at once. */
  lemma EmailRules(r: Record, text: string)
    requires r.stage == Some(AwaitingEmail)
    ensures TextStep(r, text, None).Some? <==>
            '@' in text && '.' in text && (NeedsGmail(r.course) ==> EndsWith(Lower(text), "@gmail.com"))
    ensures TextStep(r, text, None).Some? && NeedsGmail(r.course) ==>
            TextStep(r, text, None).value == r.(tempEmail := Some(text), stage := Some(AwaitingEmailConfirmation))
    ensures TextStep(r, text, None).Some? && !NeedsGmail(r.course) ==>
            TextStep(r, text, None).value == r.(email := Some(text), stage := Some(AwaitingWhatsapp))
  {
  }

  /** Confirmation compares the two entries ignoring surrounding spaces and ASCII
      case, keeps the first entry, and drops the pending entry either way. */
  lemma EmailConfirmationRules(r: Record, text: string)
    requires r.stage == Some(AwaitingEmailConfirmation)
    ensures var w := TextStep(r, text, None);
            w.Some? && w.value.tempEmail.None? &&
            (w.value.stage == Some(AwaitingWhatsapp) <==> Lower(Strip(text)) == Lower(Strip(r.tempEmail.GetOr("")))) &&
            (w.value.stage != Some(AwaitingWhatsapp) ==> w.value.stage == Some(AwaitingEmail) && w.value.email == r.email) &&
            (w.value.stage == Some(AwaitingWhatsapp) ==> w.value.email == Some(r.tempEmail.GetOr("")))
  {
  }

  lemma SameEmailConfirmed(r: Record, text: string)
    requires r.stage == Some(AwaitingEmailConfirmation) && r.tempEmail == Some(text)
    ensures TextStep(r, text, None) == Some(r.(email := Some(text), tempEmail := None, stage := Some(AwaitingWhatsapp)))
  {
    assert r.stage.value == AwaitingEmailConfirmation;
    assert TextStep(r, text, None) == Some(OnEmailConfirmation(r, text));
  }

  /** The WhatsApp number is stored and the course decides the next question. */
  lemma WhatsappRouting(r: Record, text: string)
    requires r.stage == Some(AwaitingWhatsapp)
    ensures var w := TextStep(r, text, None);
            w.Some? && w.value.whatsapp == Some(text) &&
            w.value.stage == Some(if r.course == Some("kids") then AwaitingKidsCount
                                  else if r.course == Some("highschool") then AwaitingHsCount
                                  else AwaitingPaymentChoice)
  {
  }

  /** A count is accepted exactly when it is an integer greater than zero; anything
      else leaves the record as it is. */
  lemma KidsCountRules(r: Record, text: string)
    requires r.stage == Some(AwaitingKidsCount)
    ensures var w := TextStep(r, text, None);
            (w.Some? <==> ParseInt(text).Some? && ParseInt(text).value > 0) &&
            (w.Some? ==> w.value == r.(kidsCount := ParseInt(text), stage := Some(AwaitingKidsNames)))
  {
    assert TextStep(r, text, None).Some? ==> TextStep(r, text, None) == OnKidsCount(r, text);
    assert TextStep(r, text, None).None? ==> OnKidsCount(r, text).None?;
  }

  lemma HsCountRules(r: Record, text: string)
    requires r.stage == Some(AwaitingHsCount)
    ensures var w := TextStep(r, text, None);
            (w.Some? <==> ParseInt(text).Some? && ParseInt(text).value > 0) &&
            (w.Some? ==> w.value == r.(hsCount := ParseInt(text), stage := Some(AwaitingHsNames)))
  {
    assert TextStep(r, text, None).Some? ==> TextStep(r, text, None) == OnHsCount(r, text);
    assert TextStep(r, text, None).None? ==> OnHsCount(r, text).None?;
  }

  /** Every positive number typed in decimal is accepted as the count it denotes. */
  lemma CountOfDecimal(r: Record, n: int)
    requires r.stage == Some(AwaitingKidsCount) && n > 0
    ensures TextStep(r, IntToString(n), None) == Some(r.(kidsCount := Some(n), stage := Some(AwaitingKidsNames)))
  {
    ParseIntToString(n);
    KidsCountRules(r, IntToString(n));
  }

  /** The cleaned names are stored joined by ", "; a list that does not match a
      non-zero count asks for confirmation, any other goes on to the payment choice. */
  lemma NamesRules(r: Record, text: string)
    requires r.stage == Some(AwaitingKidsNames)
    ensures var w := TextStep(r, text, None);
            w.Some? && w.value.kidsNames == Some(Join(Names(text), ", ")) &&
            (w.value.stage == Some(ConfirmKidsNames) <==> CountMismatch(r.kidsCount, Names(text))) &&
            (w.value.stage != Some(ConfirmKidsNames) ==> w.value.stage == Some(AwaitingPaymentChoice))
  {
    assert r.stage.value == AwaitingKidsNames;
    assert TextStep(r, text, None) == Some(OnKidsNames(r, text));
  }

  /** Any other answer to the confirmation question is a new names list, handled as
      the first one was (and asking again while it still does not match). */
  lemma RetypedNames(r: Record, text: string)
    requires r.stage == Some(ConfirmKidsNames) && !Affirmative(text)
    ensures TextStep(r, text, None) == TextStep(r.(stage := Some(AwaitingKidsNames)), text, None)
  {
    ConfirmKidsStep(r, text);
    RetypeIsNames(r, text);
    KidsNamesStep(r.(stage := Some(AwaitingKidsNames)), text);
  }

  lemma KidsNamesStep(r: Record, text: string)
    requires r.stage == Some(AwaitingKidsNames)
    ensures TextStep(r, text, None) == Some(OnKidsNames(r, text))
  {
    assert r.stage.value == AwaitingKidsNames;
  }

  lemma ConfirmKidsStep(r: Record, text: string)
    requires r.stage == Some(ConfirmKidsNames)
    ensures TextStep(r, text, None) == Some(OnConfirmKidsNames(r, text))
  {
    assert r.stage.value == ConfirmKidsNames;
  }

  lemma RetypeIsNames(r: Record, text: string)
    requires !Affirmative(text)
    ensures OnConfirmKidsNames(r, text) == OnKidsNames(r.(stage := Some(AwaitingKidsNames)), text)
  {
  }

  /** Without a count every list is accepted. */
  lemma NamesWithoutCount(r: Record, text: string)
    requires r.stage == Some(AwaitingHsNames) && (r.hsCount.None? || r.hsCount == Some(0))
    ensures TextStep(r, text, None) == Some(r.(hsNames := Some(Join(Names(text), ", ")), stage := Some(AwaitingPaymentChoice)))
  {
    assert r.stage.value == AwaitingHsNames;
    assert TextStep(r, text, None) == Some(OnHsNames(r, text));
  }

  /** An affirmative answer accepts the names already stored and moves on. */
  lemma AffirmativeKeepsNames(r: Record, text: string)
    requires r.stage == Some(ConfirmKidsNames) || r.stage == Some(ConfirmHsNames)
    requires Affirmative(text)
    ensures TextStep(r, text, None) == Some(r.(stage := Some(AwaitingPaymentChoice)))
  {
  }

  /** The coupon stage: the skip word moves on, a code the table accepts stores its
      percentage and the upper-cased code, any other text changes nothing. */
  lemma CouponRules(r: Record, text: string, discount: Option<int>)
    requires r.stage == Some(AwaitingCoupon)
    ensures text == SkipToken ==> TextStep(r, text, discount) == Some(r.(stage := Some(AwaitingPaymentChoice)))
    ensures text != SkipToken ==>
              (TextStep(r, text, discount).Some? <==> discount.Some? && discount.value != 0)
    ensures text != SkipToken && TextStep(r, text, discount).Some? ==>
              TextStep(r, text, discount).value ==
              r.(discountPercent := discount, couponCode := Some(Upper(text)), stage := Some(AwaitingPaymentChoice))
  {
  }

  /** Text sent while the bot waits for a button, a receipt, or after the registration
      is complete changes nothing. */
  lemma TextIgnoredOutsideTextStages(r: Record, text: string, discount: Option<int>)
    requires r.stage.None? || r.stage == Some(AwaitingPaymentChoice) ||
             r.stage == Some(AwaitingReceipt) || r.stage == Some(Completed)
    ensures TextStep(r, text, discount).None?
  {
  }

  /** The last answers complete the registration. */
  lemma LastAnswerCompletes(r: Record, text: string, discount: Option<int>)
    requires r.stage.Some? && Forwards(r.stage.value)
    ensures var w := TextStep(r, text, discount);
            w.Some? && w.value.stage == Some(Completed)
  {
  }

  /** A Gmail user of the expert course who types the same address twice reaches the
      payment choice with name, e-mail and WhatsApp stored. */
  lemma ExpertRegistration(r: Record, name: string, mail: string, phone: string)
    requires r.stage == Some(AwaitingName) && r.course == Some("expert")
    requires '@' in mail && '.' in mail && EndsWith(Lower(mail), "@gmail.com")
    ensures var r1 := r.(name := Some(name), stage := Some(AwaitingEmail));
            var r2 := r1.(tempEmail := Some(mail), stage := Some(AwaitingEmailConfirmation));
            var r3 := r2.(email := Some(mail), tempEmail := None, stage := Some(AwaitingWhatsapp));
            TextStep(r, name, None) == Some(r1) &&
            TextStep(r1, mail, None) == Some(r2) &&
            TextStep(r2, mail, None) == Some(r3) &&
            TextStep(r3, phone, None) == Some(r3.(whatsapp := Some(phone), stage := Some(AwaitingPaymentChoice)))
  {
    var r1 := r.(name := Some(name), stage := Some(AwaitingEmail));
    var r2 := r1.(tempEmail := Some(mail), stage := Some(AwaitingEmailConfirmation));
    var r3 := r2.(email := Some(mail), tempEmail := None, stage := Some(AwaitingWhatsapp));
    NameStored(r, name);
    EmailRules(r1, mail);
    SameEmailConfirmed(r2, mail);
    WhatsappRouting(r3, phone);
  }

  // ---------------------------------------------------------------------------
  // Properties of the buttons and the receipt

  /** A course button stores the course named after `course_`. */
  lemma CourseButton(r: Record, username: Option<string>, course: string, prices: map<string, PriceMap>)
    requires '_' !in course
    ensures var w := CallbackStep(r, username, "course_" + course, prices);
            w.Some? && w.value.course == Some(course) &&
            w.value.stage == (if IsEmpty(r) then None else r.stage)
  {
    var data := "course_" + course;
    assert data == "course" + ['_'] + course;
    SplitAfterPrefix("course", '_', course);
    assert StartsWith(data, "course_") by { assert data[..7] == "course_"; }
    assert Split(course, '_') == [course];
    assert CourseOf(data) == course;
    var r0 := if IsEmpty(r) then Fresh(username) else r;
    assert OnButton(r0, data, prices) == Some(r0.(course := Some(course)));
  }

  /** Every join button, whatever course it names, and the coupon and skip buttons set
      their stage and nothing else. */
  lemma StageButtons(r: Record, username: Option<string>, c: string, prices: map<string, PriceMap>)
    requires !IsEmpty(r)
    ensures CallbackStep(r, username, "join_" + c, prices) == Some(r.(stage := Some(AwaitingName)))
    ensures CallbackStep(r, username, "coupon_request", prices) == Some(r.(stage := Some(AwaitingCoupon)))
    ensures CallbackStep(r, username, "skip_coupon", prices) == Some(r.(stage := Some(AwaitingPaymentChoice)))
  {
    var join := "join_" + c;
    assert join[0] == 'j' && join[..5] == "join_";
    NotStartsWith(join, "course_", 0);
    NotStartsWith("coupon_request", "course_", 3);
    NotStartsWith("coupon_request", "join_", 0);
    NotStartsWith("skip_coupon", "course_", 0);
    NotStartsWith("skip_coupon", "join_", 0);
  }

  /** The buttons that only show information (support, a course's questions, one
      answer) write nothing for a known user, and an unknown user gets the fresh
      record. */
  lemma InformationButtons(r: Record, username: Option<string>, c: string, prices: map<string, PriceMap>)
    ensures CallbackStep(r, username, "support", prices) == if IsEmpty(r) then Some(Fresh(username)) else None
    ensures CallbackStep(r, username, "faq_" + c, prices) == if IsEmpty(r) then Some(Fresh(username)) else None
    ensures CallbackStep(r, username, "question_" + c, prices) == if IsEmpty(r) then Some(Fresh(username)) else None
  {
    NotStartsWith("support", "course_", 0);
    NotStartsWith("support", "join_", 0);
    NotStartsWith("support", "pay_", 0);
    var faq := "faq_" + c;
    assert faq[0] == 'f';
    NotStartsWith(faq, "course_", 0);
    NotStartsWith(faq, "join_", 0);
    NotStartsWith(faq, "pay_", 0);
    var question := "question_" + c;
    assert question[0] == 'q';
    NotStartsWith(question, "course_", 0);
    NotStartsWith(question, "join_", 0);
    NotStartsWith(question, "pay_", 0);
  }

  /** A payment button without a chosen course writes nothing; with one, it records
      the method, asks for extra details exactly for Western Union and Vodafone Cash,
      and waits for the receipt. */
  lemma PayRules(r: Record, methodKey: string, prices: map<string, PriceMap>)
    requires !IsEmpty(r)
    ensures !Truthy(r.course) ==> OnPay(r, methodKey, prices).None?
    ensures var w := OnPay(r, methodKey, prices);
            w.Some? ==> w.value.stage == Some(AwaitingReceipt) &&
                        w.value.paymentMethod == Some(FriendlyName(methodKey)) &&
                        w.value.paymentMethodInfo.Some? &&
                        (w.value.paymentMethodInfo.value.requiresExtraInfo <==>
                           methodKey == "wu_mg" || methodKey == "vodafone_eg")
    ensures (Truthy(r.course) && methodKey in prices && prices[methodKey].currency.Some? &&
             r.course.value != "kids") ==> OnPay(r, methodKey, prices).Some?
  {
  }

  /** The payment buttons carry the method key after `pay_`. */
  lemma PayButtonKey(methodKey: string)
    requires !ContainsSub(methodKey, "pay_")
    ensures MethodKeyOf("pay_" + methodKey) == methodKey
  {
    RemoveAllPrefix("pay_", methodKey);
  }

  /** A receipt is taken only while the bot waits for one, and only as a photo or a
      document. */
  lemma ReceiptOnlyWhenAwaited(r: Record, u: Upload)
    ensures ReceiptStep(r, u).Some? <==> r.stage == Some(AwaitingReceipt) && (u.photoSizes != [] || u.document.Some?)
    ensures ReceiptStep(r, u).Some? && u.photoSizes != [] ==> ReceiptStep(r, u).value.receiptIsPhoto == Some(true)
  {
  }

  lemma VodafoneNamed()
    ensures ContainsSub(FriendlyNames["vodafone_eg"], "فودافون")
  {
    ContainsSubAt(FriendlyNames["vodafone_eg"], "فودافون", 0);
  }

  lemma WesternUnionNotVodafone()
    ensures !ContainsSub(FriendlyNames["wu_mg"], "فودافون")
    ensures !ContainsSub(Lower(FriendlyNames["wu_mg"]), "vodafone")
  {
    WesternUnionLetters();
    NotContainsSub(WesternUnionName, "فودافون");
    LowerAvoids(WesternUnionName, 'v');
    NotContainsSub(Lower(WesternUnionName), "vodafone");
  }

  lemma WesternUnionLetters()
    ensures FriendlyNames["wu_mg"] == WesternUnionName
    ensures 'ف' !in WesternUnionName && 'v' !in WesternUnionName && 'V' !in WesternUnionName
  {
  }

  /** After a payment button, the receipt leads to the Vodafone details for Vodafone
      Cash, to the Western Union details for Western Union / MoneyGram, and completes
      the registration for every other method. */
  lemma ReceiptAfterPay(r: Record, methodKey: string, prices: map<string, PriceMap>, u: Upload)
    requires OnPay(r, methodKey, prices).Some? && ReceiptFile(u).Some?
    ensures var w := ReceiptStep(OnPay(r, methodKey, prices).value, u);
            w.Some? &&
            w.value.stage == Some(if methodKey == "vodafone_eg" then AwaitingVodafoneDetails
                                  else if methodKey == "wu_mg" then AwaitingWuDetails
                                  else Completed)
  {
    if methodKey == "vodafone_eg" {
      VodafoneNamed();
    } else if methodKey == "wu_mg" {
      WesternUnionNotVodafone();
    }
  }
}
