/** The handlers of handlers.py as steps on the state store: each loads the record of
    the chat, applies the transition of the Conversation module, and writes the result
    back. The outside world enters as parameters: the text or attachments of the
    message, the clock reading `now`, the row number the registration sheet answers
    (`None` when saving to it fails), and which send to the user raises, if any
    (`failAt`). */
module Handlers {
  import opened Strings
  import opened Payment
  import opened Registration
  import opened StateStore
  import opened Utils
  import opened Conversation

  /** The user table after `update_user_state(id, w)` when `w` is a record, and as it
      was when nothing is written. */
  function Stored(users: map<int, UserRow>, online: bool, id: int, w: Option<Record>, now: int): (u: map<int, UserRow>)
    ensures forall x :: x != id ==> (x in u <==> x in users) && (x in users ==> u[x] == users[x])
    ensures online && w.Some? ==> id in u && u[id] == UserRow(w.value, now, false)
    ensures !online || w.None? ==> u == users
  {
    if online && w.Some? then users[id := UserRow(w.value, now, false)] else users
  }

  // ---------------------------------------------------------------------------
  // forward_to_admin (handlers.py:327-421)

  /** The record after the registration is handed to the admins: the sheet row is
      stored when the sheet answered one; nothing happens for an empty record or when
      the sheet failed. */
  function Forwarded(r: Record, ledgerRow: Option<int>): (w: Option<Record>)
    ensures w.Some? <==> !IsEmpty(r) && ledgerRow.Some?
    ensures w.Some? ==> w.value == r.(sheetRow := ledgerRow)
  {
    if IsEmpty(r) || ledgerRow.None? then None else Some(r.(sheetRow := ledgerRow))
  }

  method ForwardToAdmin(db: Database, chatId: int, ledgerRow: Option<int>, now: int)
    modifies db
    ensures db.online == old(db.online) && db.coupons == old(db.coupons)
    ensures db.users == Stored(old(db.users), db.online, chatId, Forwarded(old(db.GetUserState(chatId)), ledgerRow), now)
  {
    var r := db.GetUserState(chatId);
    if IsEmpty(r) {
      return;
    }
    if ledgerRow.Some? {
      db.UpdateUserState(chatId, r.(sheetRow := ledgerRow), now);
    }
  }

  /** A written record, followed by the hand-over when `forward` holds. */
  function ThenForward(w: Option<Record>, forward: bool, ledgerRow: Option<int>): Option<Record> {
    match w
    case None => None
    case Some(r) =>
      if forward && Forwarded(r, ledgerRow).Some? then Forwarded(r, ledgerRow) else w
  }

  // ---------------------------------------------------------------------------
  // handle_text, handle_receipt and /start

  /** What `handle_text` leaves in the user table for a message whose stripped text is
      `text`. */
  function TextOutcome(r: Record, text: string, discount: Option<int>, ledgerRow: Option<int>): Option<Record> {
    ThenForward(TextStep(r, text, discount), r.stage.Some? && Forwards(r.stage.value), ledgerRow)
  }

  /** `handle_text`; `get_coupon` only reads, so asking it before the stage is known
      changes nothing. */
  method HandleText(db: Database, chatId: int, message: string, now: int, ledgerRow: Option<int>)
    modifies db
    ensures db.online == old(db.online) && db.coupons == old(db.coupons)
    ensures db.users == Stored(old(db.users), db.online, chatId,
                               TextOutcome(old(db.GetUserState(chatId)), Strip(message),
                                           old(db.GetCoupon(Strip(message), db.GetUserState(chatId).course)),
                                           ledgerRow), now)
  {
    var text := Strip(message);
    var r := db.GetUserState(chatId);
    var discount := db.GetCoupon(text, r.course);
    var w := TextStep(r, text, discount);
    ghost var users0 := db.users;
    ghost var outcome := TextOutcome(r, text, discount, ledgerRow);
    assert outcome == ThenForward(w, r.stage.Some? && Forwards(r.stage.value), ledgerRow);
    if IsEmpty(r) {
      assert w.None? && outcome.None?;
      return;
    }
    if w.Some? {
      db.UpdateUserState(chatId, w.value, now);
      if Forwards(r.stage.value) {
        ForwardToAdmin(db, chatId, ledgerRow, now);
        ForwardAfterWrite(users0, db.online, chatId, w.value, ledgerRow, now);
        assert outcome == ThenForward(w, true, ledgerRow);
      } else {
        assert outcome == w;
      }
    } else {
      assert outcome.None?;
    }
  }

  /** Writing a record and then handing it over leaves the table `ThenForward`
      describes. */
  lemma ForwardAfterWrite(users: map<int, UserRow>, online: bool, id: int, r: Record, ledgerRow: Option<int>, now: int)
    ensures var u1 := Stored(users, online, id, Some(r), now);
            Stored(u1, online, id, Forwarded(StoredState(u1, online, id), ledgerRow), now) ==
            Stored(users, online, id, ThenForward(Some(r), true, ledgerRow), now)
  {
    var u1 := Stored(users, online, id, Some(r), now);
    if online {
      assert StoredState(u1, online, id) == r;
    }
  }

  /** What `handle_receipt` leaves in the user table. */
  function ReceiptOutcome(r: Record, u: Upload, ledgerRow: Option<int>): Option<Record> {
    var w := ReceiptStep(r, u);
    ThenForward(w, w.Some? && w.value.stage == Some(Completed), ledgerRow)
  }

  /** `handle_receipt`. The source writes the receipt fields and then the stage; the
      second write replaces the whole row, record and clock reading, so one write of the
      final record at the second write's reading `now` leaves the same table. */
  method HandleReceipt(db: Database, chatId: int, u: Upload, now: int, ledgerRow: Option<int>)
    modifies db
    ensures db.online == old(db.online) && db.coupons == old(db.coupons)
    ensures db.users == Stored(old(db.users), db.online, chatId, ReceiptOutcome(old(db.GetUserState(chatId)), u, ledgerRow), now)
  {
    var r := db.GetUserState(chatId);
    var w := ReceiptStep(r, u);
    if w.Some? {
      db.UpdateUserState(chatId, w.value, now);
      if w.value.stage == Some(Completed) {
        ForwardToAdmin(db, chatId, ledgerRow, now);
      }
    }
  }

  /** `/start`: the user becomes known and the record is reset to the username. */
  method StartCommand(db: Database, known: KnownUsers, chatId: int, username: Option<string>, now: int)
    modifies db, known
    ensures known.file == SavedFile(old(known.file), chatId)
    ensures db.online == old(db.online) && db.coupons == old(db.coupons)
    ensures db.users == Stored(old(db.users), db.online, chatId, Some(Fresh(username)), now)
  {
    known.Save(chatId);
    db.UpdateUserState(chatId, Fresh(username), now);
  }

  // ---------------------------------------------------------------------------
  // handle_admin_decision (handlers.py:479-586)

  datatype Tables = Tables(users: map<int, UserRow>, coupons: map<string, Coupon>)

  /** The decision as the source performs it: for a stored record, approval redeems
      the coupon the user entered; the record is deleted only when every message to
      the user went out (`delivered`), because a failed send raises before the
      deletion. */
  function DecideAsWritten(t: Tables, online: bool, target: int, approve: bool, delivered: bool): (t': Tables)
    ensures delivered ==> t' == Decide(t, online, target, approve)
    ensures !delivered ==> t'.users == t.users && t'.coupons == Decide(t, online, target, approve).coupons
  {
    var r := StoredState(t.users, online, target);
    if IsEmpty(r) then t
    else
      var coupons := if approve && Truthy(r.couponCode) then Redeemed(t.coupons, r.couponCode.value) else t.coupons;
      Tables(if delivered then t.users - {target} else t.users, coupons)
  }

  /** The decision as intended: the record is deleted whatever happens to the
      messages, so a decision is taken once per registration. */
  function Decide(t: Tables, online: bool, target: int, approve: bool): (t': Tables)
    ensures IsEmpty(StoredState(t.users, online, target)) ==> t' == t
    ensures !IsEmpty(StoredState(t.users, online, target)) ==>
              target !in t'.users &&
              (forall x :: x != target ==> (x in t'.users <==> x in t.users))
  {
    var r := StoredState(t.users, online, target);
    if IsEmpty(r) then t
    else
      var coupons := if approve && Truthy(r.couponCode) then Redeemed(t.coupons, r.couponCode.value) else t.coupons;
      Tables(t.users - {target}, coupons)
  }

  /** The messages the user receives: the approval messages of the course
      (`"expert"` when none is stored), or the rejection notice. */
  function DecisionMessages(r: Record, approve: bool, tpl: Templates): seq<string> {
    if IsEmpty(r) then []
    else if approve then NonEmpty(ApprovalMessages(r.course.GetOr("expert"), r, tpl))
    else [tpl.rejection]
  }

  /** Whether the decision runs to its end when the step numbered `failAt` raises. The
      steps are the sends to the user, in order, and then the answer to the admin's
      button press; neither is guarded. */
  predicate DecisionDelivered(r: Record, approve: bool, tpl: Templates, failAt: Option<nat>) {
    Delivers(failAt, |DecisionMessages(r, approve, tpl)| + 1)
  }

  /** `handle_admin_decision`: the coupon is redeemed before the messages go out, and a
      send or an answer to the admin that raises (`failAt`) skips the deletion of the
      record. */
  method HandleAdminDecision(db: Database, target: int, approve: bool, tpl: Templates, failAt: Option<nat>)
    returns (sent: seq<string>)
    modifies db
    ensures db.online == old(db.online)
    ensures var r := old(db.GetUserState(target));
            Tables(db.users, db.coupons) ==
              DecideAsWritten(Tables(old(db.users), old(db.coupons)), db.online, target, approve,
                              DecisionDelivered(r, approve, tpl, failAt))
    ensures var r := old(db.GetUserState(target));
            var msgs := DecisionMessages(r, approve, tpl);
            sent == if DecisionDelivered(r, approve, tpl, failAt) then msgs else msgs[..failAt.value]
  {
    var r := db.GetUserState(target);
    sent := [];
    if IsEmpty(r) {
      return;
    }
    var delivered := true;
    var answerAt: nat := 1;
    if approve {
      if Truthy(r.couponCode) {
        db.RedeemCoupon(r.couponCode.value);
      }
      var msgs := ApprovalMessages(r.course.GetOr("expert"), r, tpl);
      sent, delivered := SendMessagesSequence(msgs, failAt);
      answerAt := |NonEmpty(msgs)|;
    } else if failAt == Some(0) {
      delivered := false;
    } else {
      sent := [tpl.rejection];
    }
    // `query.answer(...)` to the admin
    if delivered && failAt == Some(answerAt) {
      delivered := false;
    }
    if delivered {
      db.DeleteUserState(target);
    }
  }

  // ---------------------------------------------------------------------------
  // handle_callback (handlers.py:589-692)

  predicate IsDecisionButton(data: string) {
    StartsWith(data, "approve_") || StartsWith(data, "reject_")
  }

  /** `int(data.split("_", 1)[1])`; `None` when `int()` raises. */
  function DecisionTarget(data: string): Option<int>
    requires IsDecisionButton(data)
  {
    assert data[if StartsWith(data, "approve_") then 7 else 6] == '_';
    ParseInt(data[IndexOf(data, '_') + 1..])
  }

  /** The tables after the admin decision a button asks for, once the presser's own
      record has been written. */
  function DecisionTables(t: Tables, online: bool, data: string, tpl: Templates, failAt: Option<nat>): Tables
    requires IsDecisionButton(data)
  {
    match DecisionTarget(data)
    case None => t
    case Some(target) =>
      var approve := StartsWith(data, "approve_");
      DecideAsWritten(t, online, target, approve,
                      DecisionDelivered(StoredState(t.users, online, target), approve, tpl, failAt))
  }

  /** The user table once `handle_callback` has written the presser's own record. */
  function PressedTable(users: map<int, UserRow>, online: bool, chatId: int, username: Option<string>,
                        data: string, prices: map<string, PriceMap>, now: int): map<int, UserRow> {
    Stored(users, online, chatId, CallbackStep(StoredState(users, online, chatId), username, data, prices), now)
  }

  /** The admin half of `handle_callback`: an approve or reject button with a target id
      that parses applies the decision, any other target is ignored. */
  method HandleDecisionButton(db: Database, data: string, tpl: Templates, failAt: Option<nat>) returns (sent: seq<string>)
    requires IsDecisionButton(data)
    modifies db
    ensures db.online == old(db.online)
    ensures Tables(db.users, db.coupons) ==
            DecisionTables(Tables(old(db.users), old(db.coupons)), db.online, data, tpl, failAt)
  {
    sent := [];
    var target := DecisionTarget(data);
    if target.Some? {
      sent := HandleAdminDecision(db, target.value, StartsWith(data, "approve_"), tpl, failAt);
    }
  }

  /** The first half of `handle_callback`: the presser's record, or a fresh one, is
      written with the change the button's branch makes. */
  method StorePressed(db: Database, chatId: int, username: Option<string>, data: string,
                      prices: map<string, PriceMap>, now: int)
    modifies db
    ensures db.online == old(db.online) && db.coupons == old(db.coupons)
    ensures db.users == PressedTable(old(db.users), db.online, chatId, username, data, prices, now)
  {
    var r := db.GetUserState(chatId);
    var w := CallbackStep(r, username, data, prices);
    if w.Some? {
      db.UpdateUserState(chatId, w.value, now);
    }
  }

  method HandleCallback(db: Database, known: KnownUsers, chatId: int, username: Option<string>, data: string,
                        now: int, prices: map<string, PriceMap>, tpl: Templates, failAt: Option<nat>)
    returns (sent: seq<string>)
    modifies db, known
    ensures db.online == old(db.online)
    ensures known.file == if data == "start_over" then SavedFile(old(known.file), chatId) else old(known.file)
    ensures IsDecisionButton(data) ==>
              Tables(db.users, db.coupons) ==
              DecisionTables(Tables(PressedTable(old(db.users), db.online, chatId, username, data, prices, now),
                                    old(db.coupons)), db.online, data, tpl, failAt)
    ensures !IsDecisionButton(data) ==> db.coupons == old(db.coupons) && sent == []
    ensures !IsDecisionButton(data) && data == "start_over" ==>
              db.users == Stored(old(db.users), db.online, chatId, Some(Fresh(username)), now)
    ensures !IsDecisionButton(data) && data != "start_over" ==>
              db.users == PressedTable(old(db.users), db.online, chatId, username, data, prices, now)
  {
    sent := [];
    StorePressed(db, chatId, username, data, prices, now);
    NotStartsWith("start_over", "approve_", 0);
    NotStartsWith("start_over", "reject_", 0);
    if IsDecisionButton(data) {
      sent := HandleDecisionButton(db, data, tpl, failAt);
    } else if data == "start_over" {
      StartCommand(db, known, chatId, username, now);
      assert db.users == Stored(old(db.users), db.online, chatId, Some(Fresh(username)), now);
    }
  }

  // ---------------------------------------------------------------------------
  // Properties

  /** The last answer of a registration is stored as completed, together with the
      sheet row when the sheet answered one. */
  lemma CompletionRecordsSheetRow(r: Record, text: string, discount: Option<int>, row: int)
    requires r.stage.Some? && Forwards(r.stage.value)
    ensures TextOutcome(r, text, discount, Some(row)).Some?
    ensures TextOutcome(r, text, discount, Some(row)).value.stage == Some(Completed)
    ensures TextOutcome(r, text, discount, Some(row)).value.sheetRow == Some(row)
  {
    LastAnswerCompletes(r, text, discount);
  }

  /** A failing sheet leaves the completed record without a row. */
  lemma CompletionWithoutSheet(r: Record, text: string, discount: Option<int>)
    requires r.stage.Some? && Forwards(r.stage.value)
    ensures TextOutcome(r, text, discount, None) == TextStep(r, text, discount)
  {
  }

  /** Every stage before the last one is written without a hand-over. */
  lemma NoForwardBeforeTheEnd(r: Record, text: string, discount: Option<int>, ledgerRow: Option<int>)
    requires r.stage.Some? && !Forwards(r.stage.value)
    ensures TextOutcome(r, text, discount, ledgerRow) == TextStep(r, text, discount)
  {
  }

  /** A receipt for a method without extra details completes the registration and is
      handed over; a method that needs details waits for them. */
  lemma ReceiptHandOver(r: Record, u: Upload, row: int)
    requires ReceiptStep(r, u).Some?
    ensures var o := ReceiptOutcome(r, u, Some(row));
            o.Some? && o.value.receiptFileId == Some(ReceiptFile(u).value.0) &&
            (o.value.sheetRow == Some(row) <==> AfterReceipt(r) == Completed || r.sheetRow == Some(row))
  {
  }

  /** A decision about a user without a record changes nothing. */
  lemma DecisionWithoutRecord(t: Tables, online: bool, target: int, approve: bool, delivered: bool)
    requires !online || target !in t.users
    ensures Decide(t, online, target, approve) == t
    ensures DecideAsWritten(t, online, target, approve, delivered) == t
  {
  }

  /** Approval redeems the user's coupon once and removes the record; rejection only
      removes the record. */
  lemma DecisionEffect(t: Tables, target: int, approve: bool)
    requires target in t.users && !IsEmpty(t.users[target].state)
    ensures var r := t.users[target].state;
            Decide(t, true, target, approve).coupons ==
              (if approve && Truthy(r.couponCode) then Redeemed(t.coupons, r.couponCode.value) else t.coupons)
    ensures target !in Decide(t, true, target, approve).users
  {
  }

  /** Deciding twice about the same registration acts once: the second decision finds
      no record, so a coupon is redeemed at most once per registration. */
  lemma DecisionTakenOnce(t: Tables, online: bool, target: int, first: bool, second: bool)
    ensures var t1 := Decide(t, online, target, first);
            Decide(t1, online, target, second) == t1
  {
    var t1 := Decide(t, online, target, first);
    if !IsEmpty(StoredState(t.users, online, target)) {
      assert target !in t1.users;
    }
  }

  /** As written, an approval whose message to the user fails keeps the record after
      redeeming the coupon, so approving again redeems it a second time. */
  lemma RetriedApprovalRedeemsTwice(t: Tables, target: int)
    requires target in t.users
    requires var r := t.users[target].state;
             !IsEmpty(r) && Truthy(r.couponCode) && NormalizeCode(r.couponCode.value) in t.coupons
    ensures var code := t.users[target].state.couponCode.value;
            var t1 := DecideAsWritten(t, true, target, true, false);
            var t2 := DecideAsWritten(t1, true, target, true, true);
            t1.users == t.users &&
            t2.coupons == RedeemedTimes(t.coupons, code, 2) &&
            t2.coupons[NormalizeCode(code)].count == t.coupons[NormalizeCode(code)].count + 2
  {
    var code := t.users[target].state.couponCode.value;
    RedeemedTimesCount(t.coupons, code, 2);
    assert RedeemedTimes(t.coupons, code, 1) == Redeemed(t.coupons, code) by {
      assert RedeemedTimes(t.coupons, code, 0) == t.coupons;
    }
  }

  /** The approved user receives three messages for the private programme and one
      for the other courses. */
  lemma ApprovalMessageCount(r: Record, tpl: Templates)
    requires !IsEmpty(r) && tpl.AllNonEmpty()
    ensures |DecisionMessages(r, true, tpl)| == if r.course == Some("private") then 3 else 1
  {
    ApprovalMessagesSent(r.course.GetOr("expert"), r, tpl);
  }

  /** The decision buttons carry the user id after the underscore. */
  lemma DecisionButtonTarget(id: int)
    ensures DecisionTarget("approve_" + IntToString(id)) == Some(id)
    ensures DecisionTarget("reject_" + IntToString(id)) == Some(id)
  {
    DecisionTargetAfter("approve_", id);
    DecisionTargetAfter("reject_", id);
  }

  lemma DecisionTargetAfter(prefix: string, id: int)
    requires prefix == "approve_" || prefix == "reject_"
    ensures var s := prefix + IntToString(id);
            IsDecisionButton(s) && DecisionTarget(s) == Some(id)
  {
    var s := prefix + IntToString(id);
    if prefix == "approve_" {
      assert StartsWith(s, "approve_") by { assert s[..8] == "approve_"; }
      assert prefix[..7] == "approve";
    } else {
      assert StartsWith(s, "reject_") by { assert s[..7] == "reject_"; }
      assert prefix[..6] == "reject";
    }
    TextAfterUnderscore(prefix, id);
  }

  lemma TextAfterUnderscore(prefix: string, id: int)
    requires prefix != [] && prefix[|prefix| - 1] == '_' && '_' !in prefix[..|prefix| - 1]
    ensures var s := prefix + IntToString(id);
            IndexOf(s, '_') == |prefix| - 1 && ParseInt(s[|prefix|..]) == Some(id)
  {
    var s := prefix + IntToString(id);
    var word := prefix[..|prefix| - 1];
    assert s == word + ['_'] + IntToString(id);
    IndexOfPrefix(word, '_', IntToString(id));
    assert s[|prefix|..] == IntToString(id);
    ParseIntToString(id);
  }
}
