/** The helpers of utils.py that the handlers depend on for state and for what the
    user is sent: the known-users file, the choice of approval messages, the
    message sequence sender, and the merged details cell of the registration sheet. */
module Utils {
  import opened Strings
  import opened Registration

  // ---------------------------------------------------------------------------
  // Known users (utils.py:19-33)

  /** The content of `known_users.json` after `save_known_user(id)`: a missing or
      unreadable file counts as no users, and the file is written only when `id` is
      new. */
  function SavedFile(file: Option<set<int>>, id: int): Option<set<int>> {
    match file
    case None => Some({id})
    case Some(users) => if id in users then file else Some(users + {id})
  }

  /** The known-users file. `file` is `None` while the file is missing or does not
      hold a JSON list. */
  class KnownUsers {
    var file: Option<set<int>>

    constructor()
      ensures file.None?
    {
      file := None;
    }

    /** `load_known_users()` */
    function Load(): (users: set<int>)
      reads this
      ensures file.Some? ==> users == file.value
      ensures file.None? ==> users == {}
    {
      file.GetOr({})
    }

    /** `save_known_user(id)` */
    method Save(id: int)
      modifies this
      ensures file == SavedFile(old(file), id)
    {
      var users := Load();
      if id !in users {
        file := if file.None? then Some({id}) else Some(users + {id});
      }
    }
  }

  /** After saving, the user is known; saving again changes nothing. */
  lemma SavedFileRemembers(file: Option<set<int>>, id: int)
    ensures SavedFile(file, id).Some? && id in SavedFile(file, id).value
    ensures SavedFile(SavedFile(file, id), id) == SavedFile(file, id)
  {
  }

  /** Saving keeps every user of a readable file, and replaces an unreadable one by a
      file that holds just the new user. */
  lemma SavedFileKeepsOrResets(file: Option<set<int>>, id: int)
    ensures file.Some? ==> forall x :: x in file.value ==> x in SavedFile(file, id).value
    ensures file.None? ==> SavedFile(file, id) == Some({id})
  {
  }

  // ---------------------------------------------------------------------------
  // Approval messages (utils.py:280-414)

  /** The fixed texts sent to a user after the admin's decision: one per approval
      message, the labels of the record lines the kids and highschool messages carry
      (the kids and highschool texts are split where that line goes), and the
      rejection notice. */
  datatype Templates = Templates(expert: string, kids: string, kidsClosing: string,
                                 highschool: string, highschoolClosing: string,
                                 privateWelcome: string, privateSessions: string, privateClosing: string,
                                 kidsCountLabel: string, kidsNamesLabel: string,
                                 hsCountLabel: string, hsNamesLabel: string,
                                 rejection: string)
  {
    predicate AllNonEmpty() {
      expert != "" && kids != "" && highschool != "" &&
      privateWelcome != "" && privateSessions != "" && privateClosing != ""
    }
  }

  /** Python truthiness of a stored count: present and not zero. */
  predicate CountTruthy(n: Option<int>) {
    n.Some? && n.value != 0
  }

  /** The `kids_line` of `_msg_kids`: the count on a line of its own when it is truthy,
      then the names when they are truthy. */
  function KidsLine(r: Record, t: Templates): string {
    (if CountTruthy(r.kidsCount) then "\n" + t.kidsCountLabel + IntToString(r.kidsCount.value) + "\n" else "") +
    (if Truthy(r.kidsNames) then t.kidsNamesLabel + r.kidsNames.value + "\n" else "")
  }

  /** The `hs_line` of `_msg_highschool`: count and names, `-` for a missing one,
      when either is truthy. */
  function HsLine(r: Record, t: Templates): string {
    if CountTruthy(r.hsCount) || Truthy(r.hsNames) then
      "\n" + t.hsCountLabel + (if CountTruthy(r.hsCount) then IntToString(r.hsCount.value) else "-") +
      t.hsNamesLabel + (if Truthy(r.hsNames) then r.hsNames.value else "-") + "\n"
    else ""
  }

  /** `build_approval_messages_by_course(course, user_info)`: three messages for the
      private programme, one for every other course, and the expert message for any
      course it does not know; the kids and highschool messages carry the record's
      line. */
  function ApprovalMessages(course: string, r: Record, t: Templates): (msgs: seq<string>)
    ensures |msgs| == if course == "private" then 3 else 1
    ensures course != "kids" && course != "private" && course != "highschool" ==> msgs == [t.expert]
  {
    if course == "kids" then [t.kids + KidsLine(r, t) + t.kidsClosing]
    else if course == "private" then [t.privateWelcome, t.privateSessions, t.privateClosing]
    else if course == "highschool" then [t.highschool + HsLine(r, t) + t.highschoolClosing]
    else [t.expert]
  }

  /** The kids line is empty exactly when neither the count nor the names are truthy. */
  lemma KidsLineEmptyIff(r: Record, t: Templates)
    ensures KidsLine(r, t) == "" <==> !CountTruthy(r.kidsCount) && !Truthy(r.kidsNames)
  {
    if CountTruthy(r.kidsCount) {
      assert |KidsLine(r, t)| >= 2;
    } else if Truthy(r.kidsNames) {
      assert |KidsLine(r, t)| >= 1;
    }
  }

  /** The highschool line is empty exactly when neither the count nor the names are truthy. */
  lemma HsLineEmptyIff(r: Record, t: Templates)
    ensures HsLine(r, t) == "" <==> !CountTruthy(r.hsCount) && !Truthy(r.hsNames)
  {
  }

  /** A truthy kids count is written in decimal into the kids message, right after its
      label. */
  lemma KidsMessageShowsCount(r: Record, t: Templates)
    requires CountTruthy(r.kidsCount)
    ensures ContainsSub(ApprovalMessages("kids", r, t)[0], t.kidsCountLabel + IntToString(r.kidsCount.value))
  {
    var sub := t.kidsCountLabel + IntToString(r.kidsCount.value);
    var line := KidsLine(r, t);
    var names := if Truthy(r.kidsNames) then t.kidsNamesLabel + r.kidsNames.value + "\n" else "";
    assert line == "\n" + sub + ("\n" + names);
    ContainsInside(t.kids, line, t.kidsClosing, sub, 1);
  }

  /** Truthy highschool names are written into the highschool message, right after
      their label. */
  lemma HsMessageShowsNames(r: Record, t: Templates)
    requires Truthy(r.hsNames)
    ensures ContainsSub(ApprovalMessages("highschool", r, t)[0], t.hsNamesLabel + r.hsNames.value)
  {
    var sub := t.hsNamesLabel + r.hsNames.value;
    var count := if CountTruthy(r.hsCount) then IntToString(r.hsCount.value) else "-";
    var before := "\n" + t.hsCountLabel + count;
    var line := HsLine(r, t);
    assert line == before + sub + "\n";
    ContainsInside(t.highschool, line, t.highschoolClosing, sub, |before|);
  }

  /** A text placed at position `k` of a line is contained in any text around that line. */
  lemma ContainsInside(a: string, line: string, b: string, sub: string, k: nat)
    requires k + |sub| <= |line| && line[k..k + |sub|] == sub
    ensures ContainsSub(a + line + b, sub)
  {
    var m := a + line + b;
    assert m[|a| + k..|a| + k + |sub|] == line[k..k + |sub|];
    ContainsSubAt(m, sub, |a| + k);
  }

  /** The messages `send_messages_sequence` sends: the non-empty ones, in order. */
  function NonEmpty(msgs: seq<string>): (r: seq<string>)
    ensures |r| <= |msgs|
    ensures forall i :: 0 <= i < |r| ==> r[i] != ""
  {
    if msgs == [] then []
    else (if msgs[0] != "" then [msgs[0]] else []) + NonEmpty(msgs[1..])
  }

  /** Whether a run of `n` sends goes through when the send numbered `failAt` (counting
      from 0) raises, as `send_message` does for a user who blocked the bot; `None`
      when no send fails. */
  predicate Delivers(failAt: Option<nat>, n: nat) {
    failAt.None? || failAt.value >= n
  }

  /** `send_messages_sequence(chat, msgs)`: the non-empty messages are sent in order;
      a send that raises ends the sequence (`delivered` false) after the messages
      before it. */
  method SendMessagesSequence(msgs: seq<string>, failAt: Option<nat>) returns (sent: seq<string>, delivered: bool)
    ensures delivered <==> Delivers(failAt, |NonEmpty(msgs)|)
    ensures sent == if delivered then NonEmpty(msgs) else NonEmpty(msgs)[..failAt.value]
  {
    sent := [];
    var i := 0;
    while i < |msgs|
      invariant 0 <= i <= |msgs|
      invariant sent + NonEmpty(msgs[i..]) == NonEmpty(msgs)
      invariant failAt.Some? ==> |sent| <= failAt.value
    {
      assert msgs[i..][1..] == msgs[i + 1..];
      if msgs[i] != "" {
        if failAt == Some(|sent|) {
          assert NonEmpty(msgs)[..|sent|] == sent;
          return sent, false;
        }
        sent := sent + [msgs[i]];
      }
      i := i + 1;
    }
    assert msgs[i..] == [];
    return sent, true;
  }

  /** When every message has text, all of them are sent, in order. */
  lemma {:induction false} NonEmptyKeepsAll(msgs: seq<string>)
    requires forall i :: 0 <= i < |msgs| ==> msgs[i] != ""
    ensures NonEmpty(msgs) == msgs
  {
    if msgs != [] {
      NonEmptyKeepsAll(msgs[1..]);
    }
  }

  /** Empty messages are skipped and the others keep their order. */
  lemma {:induction false} NonEmptyOfConcat(a: seq<string>, b: seq<string>)
    ensures NonEmpty(a + b) == NonEmpty(a) + NonEmpty(b)
  {
    if a != [] {
      assert (a + b)[1..] == a[1..] + b;
      NonEmptyOfConcat(a[1..], b);
    } else {
      assert a + b == b;
    }
  }

  /** An approved user receives three messages for the private programme and one
      otherwise. */
  lemma ApprovalMessagesSent(course: string, r: Record, t: Templates)
    requires t.AllNonEmpty()
    ensures NonEmpty(ApprovalMessages(course, r, t)) == ApprovalMessages(course, r, t)
    ensures |NonEmpty(ApprovalMessages(course, r, t))| == if course == "private" then 3 else 1
  {
    NonEmptyKeepsAll(ApprovalMessages(course, r, t));
  }

  // ---------------------------------------------------------------------------
  // The merged details cell of the registration sheet (utils.py:221-247)

  /** `"Kids: {kc} | Names: {kn or ''}"` for `kids` with a non-zero count,
      `"Highschool: ..."` likewise for `highschool`, and empty otherwise. */
  function KidsInfo(r: Record): string {
    if r.course == Some("kids") && r.kidsCount.Some? && r.kidsCount.value != 0 then
      "Kids: " + IntToString(r.kidsCount.value) + " | Names: " + r.kidsNames.GetOr("")
    else if r.course == Some("highschool") && r.hsCount.Some? && r.hsCount.value != 0 then
      "Highschool: " + IntToString(r.hsCount.value) + " | Names: " + r.hsNames.GetOr("")
    else ""
  }

  /** The parts present, in the order WhatsApp, Western Union, Vodafone, kids or
      trainees. */
  function DetailParts(r: Record): (parts: seq<string>)
    ensures forall i :: 0 <= i < |parts| ==> parts[i] != ""
  {
    (if Truthy(r.whatsapp) then ["WA: " + r.whatsapp.value] else []) +
    (if Truthy(r.wuDetails) then ["WU: " + r.wuDetails.value] else []) +
    (if Truthy(r.vodafoneDetails) then ["Vodafone: " + r.vodafoneDetails.value] else []) +
    (if KidsInfo(r) != "" then [KidsInfo(r)] else [])
  }

  /** `" | ".join(merged_details_parts)` */
  function MergedDetails(r: Record): string {
    Join(DetailParts(r), " | ")
  }

  /** The cell is empty exactly when none of the four parts is present. */
  lemma MergedDetailsEmptyIff(r: Record)
    ensures MergedDetails(r) == "" <==>
            !Truthy(r.whatsapp) && !Truthy(r.wuDetails) && !Truthy(r.vodafoneDetails) && KidsInfo(r) == ""
  {
    JoinEmptyIff(DetailParts(r), " | ");
  }

  /** A WhatsApp number, when present, always comes first. */
  lemma WhatsappFirst(r: Record)
    requires Truthy(r.whatsapp)
    ensures StartsWith(MergedDetails(r), "WA: " + r.whatsapp.value)
  {
    JoinStartsWithFirst(DetailParts(r), " | ");
  }

  /** The kids or trainees part appears exactly for those two courses with a non-zero
      count. */
  lemma KidsInfoIff(r: Record)
    ensures KidsInfo(r) != "" <==>
            (r.course == Some("kids") && r.kidsCount.Some? && r.kidsCount.value != 0) ||
            (r.course == Some("highschool") && r.hsCount.Some? && r.hsCount.value != 0)
  {
  }
}
