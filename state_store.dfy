/** The state store of db.py: the `user_states` table (one registration record per
    chat, with the time of its last write and whether a reminder went out) and the
    `coupons` table.

    Every function of db.py catches its own exceptions: a failing write is silently
    lost and a failing read returns the empty answer. `online` stands for "the
    database can be opened"; when it is false every write leaves the tables as they
    were and every read returns `{}`, `[]` or `None`. Clock readings are whole
    seconds, passed in by the caller. */
module StateStore {
  import opened Strings
  import opened Registration

  datatype UserRow = UserRow(state: Record, lastUpdated: int, reminderSent: bool)

  datatype Coupon = Coupon(percent: int, count: int, limit: int, course: Option<string>)

  /** A row of `list_coupons()`: the course restriction is not reported. */
  datatype CouponSummary = CouponSummary(percent: int, count: int, limit: int)

  /** Some element of a non-empty set. */
  method Pick<T(==)>(s: set<T>) returns (x: T)
    requires s != {}
    ensures x in s
  {
    x :| x in s;
  }

  predicate Increasing(s: seq<int>) {
    forall i, j :: 0 <= i < j < |s| ==> s[i] < s[j]
  }

  // ---------------------------------------------------------------------------
  // user_states

  /** The filter of `get_abandoned_users`: no reminder yet, last written more than
      `hours` hours before `now`, and a stage that is present and not `completed`. */
  predicate IsAbandoned(row: UserRow, hours: int, now: int) {
    !row.reminderSent && row.lastUpdated < now - hours * 3600 &&
    row.state.stage.Some? && row.state.stage.value != Completed
  }

  function Abandoned(users: map<int, UserRow>, hours: int, now: int): set<int> {
    set id | id in users && IsAbandoned(users[id], hours, now)
  }

  /** The filter of `get_incomplete_users`: the stage is not `completed` (an absent
      stage counts as incomplete). */
  predicate IsIncomplete(row: UserRow) {
    row.state.stage != Some(Completed)
  }

  function Incomplete(users: map<int, UserRow>): set<int> {
    set id | id in users && IsIncomplete(users[id])
  }

  /** `data.get("course", "unknown")` */
  function CourseKey(r: Record): string {
    r.course.GetOr("unknown")
  }

  /** `data.get("stage", "unknown")` */
  function StageKey(r: Record): string {
    match r.stage
    case None => "unknown"
    case Some(s) => StageName(s)
  }

  /** The rows among `ids` whose record has key `c` under `key`. */
  function RowsWithKey(users: map<int, UserRow>, ids: set<int>, key: Record -> string, c: string): set<int>
    requires ids <= users.Keys
  {
    set id | id in ids && key(users[id].state) == c
  }

  /** The tally of the records of `ids` by `key`: each key that occurs maps to the
      number of rows that have it. */
  function Tally(users: map<int, UserRow>, ids: set<int>, key: Record -> string): map<string, int>
    requires ids <= users.Keys
  {
    map c | c in (set id | id in ids :: key(users[id].state)) :: |RowsWithKey(users, ids, key, c)|
  }

  /** Counting one more row adds one to its key and leaves the other keys alone. */
  lemma TallyAdd(users: map<int, UserRow>, ids: set<int>, k: int, key: Record -> string)
    requires ids <= users.Keys && k in users && k !in ids
    ensures var c := key(users[k].state);
            var before := Tally(users, ids, key);
            Tally(users, ids + {k}, key) == before[c := (if c in before then before[c] else 0) + 1]
  {
    var c := key(users[k].state);
    var before := Tally(users, ids, key);
    var after := Tally(users, ids + {k}, key);
    var expected := before[c := (if c in before then before[c] else 0) + 1];
    assert RowsWithKey(users, ids + {k}, key, c) == RowsWithKey(users, ids, key, c) + {k};
    if c !in before {
      forall id | id in ids ensures key(users[id].state) != c {
        assert key(users[id].state) in (set id' | id' in ids :: key(users[id'].state));
      }
      forall id ensures id !in RowsWithKey(users, ids, key, c) {}
      assert RowsWithKey(users, ids, key, c) == {};
    }
    forall d | d in after
      ensures d in expected && after[d] == expected[d]
    {
      if d != c {
        assert RowsWithKey(users, ids + {k}, key, d) == RowsWithKey(users, ids, key, d);
        var id :| id in ids + {k} && key(users[id].state) == d;
        assert id in ids;
      }
    }
    forall d | d in expected
      ensures d in after
    {
      if d != c {
        var id :| id in ids && key(users[id].state) == d;
        assert id in ids + {k};
      } else {
        assert k in ids + {k};
      }
    }
    assert after == expected;
  }

  /** Every tallied key occurs on at least one and at most all of the rows. */
  lemma TallyBounds(users: map<int, UserRow>, ids: set<int>, key: Record -> string, c: string)
    requires ids <= users.Keys
    ensures c in Tally(users, ids, key) <==> exists id :: id in ids && key(users[id].state) == c
    ensures c in Tally(users, ids, key) ==> 1 <= Tally(users, ids, key)[c] <= |ids|
  {
    if c in Tally(users, ids, key) {
      var id :| id in ids && key(users[id].state) == c;
      assert id in RowsWithKey(users, ids, key, c);
      assert RowsWithKey(users, ids, key, c) <= ids;
      SubsetCard(RowsWithKey(users, ids, key, c), ids);
    }
  }

  lemma {:induction false} SubsetCard<T>(a: set<T>, b: set<T>)
    requires a <= b
    ensures |a| <= |b|
    decreases |b|
  {
    if a != {} {
      var x :| x in a;
      SubsetCard(a - {x}, b - {x});
    }
  }

  /** A row written at `now` is not abandoned at `now` (for a non-negative threshold). */
  lemma FreshWriteNotAbandoned(users: map<int, UserRow>, id: int, state: Record, now: int, hours: int)
    requires hours >= 0
    ensures id !in Abandoned(users[id := UserRow(state, now, false)], hours, now)
  {
  }

  /** Marking a reminder removes that user, and only that user, from the abandoned
      ones. */
  lemma ReminderRemovesFromAbandoned(users: map<int, UserRow>, id: int, hours: int, now: int)
    requires id in users
    ensures Abandoned(users[id := users[id].(reminderSent := true)], hours, now) == Abandoned(users, hours, now) - {id}
  {
  }

  /** Every abandoned user is also an incomplete one. */
  lemma AbandonedAreIncomplete(users: map<int, UserRow>, hours: int, now: int)
    ensures Abandoned(users, hours, now) <= Incomplete(users)
  {
    forall x | x in Abandoned(users, hours, now) ensures x in Incomplete(users) {}
  }

  // ---------------------------------------------------------------------------
  // coupons

  /** `code.upper().strip()`, the key under which a coupon is stored and looked up. */
  function NormalizeCode(code: string): string {
    Strip(Upper(code))
  }

  /** A stored key is found again by its own text, and the case of a code does not
      matter. */
  lemma NormalizeCodeIdempotent(code: string)
    ensures NormalizeCode(NormalizeCode(code)) == NormalizeCode(code)
    ensures NormalizeCode(Upper(code)) == NormalizeCode(code)
  {
    var u := Upper(code);
    UpperStripCommute(u);
    UpperIdempotent(code);
    StripIdempotent(u);
  }

  /** `limit > 0 and count >= limit` */
  predicate Exhausted(c: Coupon) {
    c.limit > 0 && c.count >= c.limit
  }

  /** `coupon_course and user_course and coupon_course != user_course` */
  predicate WrongCourse(c: Coupon, userCourse: Option<string>) {
    Truthy(c.course) && Truthy(userCourse) && c.course.value != userCourse.value
  }

  /** `get_coupon(code, user_course)` against the table `coupons`. */
  function CouponLookup(coupons: map<string, Coupon>, code: string, userCourse: Option<string>): (r: Option<int>)
    ensures r.Some? <==> NormalizeCode(code) in coupons &&
                         !Exhausted(coupons[NormalizeCode(code)]) &&
                         !WrongCourse(coupons[NormalizeCode(code)], userCourse)
    ensures r.Some? ==> r.value == coupons[NormalizeCode(code)].percent
  {
    var key := NormalizeCode(code);
    if key !in coupons then None
    else
      var c := coupons[key];
      if Exhausted(c) then None
      else if WrongCourse(c, userCourse) then None
      else Some(c.percent)
  }

  /** `add_coupon(code, percent, limit, course)`: a new coupon, or a replaced one with
      its usage count reset. */
  function CouponAdded(coupons: map<string, Coupon>, code: string, percent: int, limit: int,
                       course: Option<string>): map<string, Coupon>
  {
    coupons[NormalizeCode(code) := Coupon(percent, 0, limit, course)]
  }

  /** `redeem_coupon(code)`: nothing for an empty code or an unknown one, otherwise
      one more use. */
  function Redeemed(coupons: map<string, Coupon>, code: string): map<string, Coupon> {
    var key := NormalizeCode(code);
    if code == "" || key !in coupons then coupons
    else coupons[key := coupons[key].(count := coupons[key].count + 1)]
  }

  function RedeemedTimes(coupons: map<string, Coupon>, code: string, n: nat): map<string, Coupon> {
    if n == 0 then coupons else Redeemed(RedeemedTimes(coupons, code, n - 1), code)
  }

  /** Redeeming `n` times adds `n` uses to that coupon and changes nothing else. */
  lemma {:induction false} RedeemedTimesCount(coupons: map<string, Coupon>, code: string, n: nat)
    requires code != "" && NormalizeCode(code) in coupons
    ensures var key := NormalizeCode(code);
            RedeemedTimes(coupons, code, n) == coupons[key := coupons[key].(count := coupons[key].count + n)]
  {
    if n > 0 {
      RedeemedTimesCount(coupons, code, n - 1);
    }
  }

  /** A freshly added coupon is accepted for its own course and for users without a
      course, and refused for any other course. */
  lemma AddedCouponFound(coupons: map<string, Coupon>, code: string, percent: int, limit: int,
                         course: Option<string>, userCourse: Option<string>)
    ensures CouponLookup(CouponAdded(coupons, code, percent, limit, course), code, userCourse) ==
            if Truthy(course) && Truthy(userCourse) && course != userCourse then None else Some(percent)
  {
  }

  /** A coupon with a positive limit that starts unused is accepted exactly for its
      first `limit` redemptions. */
  lemma UsageLimitHonoured(coupons: map<string, Coupon>, code: string, userCourse: Option<string>, n: nat)
    requires code != "" && NormalizeCode(code) in coupons
    requires coupons[NormalizeCode(code)].count == 0 && coupons[NormalizeCode(code)].limit > 0
    requires !WrongCourse(coupons[NormalizeCode(code)], userCourse)
    ensures CouponLookup(RedeemedTimes(coupons, code, n), code, userCourse).Some? <==>
            n < coupons[NormalizeCode(code)].limit
  {
    RedeemedTimesCount(coupons, code, n);
  }

  /** A coupon without a positive limit is never used up. */
  lemma UnlimitedNeverExhausted(coupons: map<string, Coupon>, code: string, userCourse: Option<string>, n: nat)
    requires code != "" && NormalizeCode(code) in coupons && coupons[NormalizeCode(code)].limit <= 0
    ensures CouponLookup(RedeemedTimes(coupons, code, n), code, userCourse) == CouponLookup(coupons, code, userCourse)
  {
    RedeemedTimesCount(coupons, code, n);
  }

  /** Validation and redemption are separate steps: two users who both validate a
      coupon with one use left are both accepted, and after both are approved the
      count is one past the limit. */
  lemma LimitCanBeExceeded(coupons: map<string, Coupon>, code: string)
    requires code != "" && NormalizeCode(code) in coupons
    requires coupons[NormalizeCode(code)].limit > 0
    requires coupons[NormalizeCode(code)].count == coupons[NormalizeCode(code)].limit - 1
    ensures CouponLookup(coupons, code, None).Some?
    ensures NormalizeCode(code) in RedeemedTimes(coupons, code, 2) &&
            RedeemedTimes(coupons, code, 2)[NormalizeCode(code)].count == coupons[NormalizeCode(code)].limit + 1
  {
    RedeemedTimesCount(coupons, code, 2);
  }

  // ---------------------------------------------------------------------------
  // The database

  /** What `get_user_state(id)` answers: the stored record, `{}` when there is none
      or the database cannot be read. */
  function StoredState(users: map<int, UserRow>, online: bool, id: int): (r: Record)
    ensures online && id in users ==> r == users[id].state
    ensures !online || id !in users ==> IsEmpty(r)
  {
    if online && id in users then users[id].state else EmptyRecord
  }

  class Database {
    var online: bool
    var users: map<int, UserRow>
    var coupons: map<string, Coupon>

    /** `init_db()` on a new file: both tables exist and are empty. */
    constructor(online: bool)
      ensures this.online == online && users == map[] && coupons == map[]
    {
      this.online := online;
      users := map[];
      coupons := map[];
    }

    /** `get_user_state(id)`: the stored record, `{}` when there is none. */
    function GetUserState(id: int): (r: Record)
      reads this
      ensures r == StoredState(users, online, id)
    {
      StoredState(users, online, id)
    }

    /** `update_user_state(id, state)` at clock reading `now`: the row is replaced and
        its reminder flag cleared. */
    method UpdateUserState(id: int, state: Record, now: int)
      modifies this
      ensures online == old(online) && coupons == old(coupons)
      ensures users == if online then old(users)[id := UserRow(state, now, false)] else old(users)
    {
      if online {
        users := users[id := UserRow(state, now, false)];
      }
    }

    /** `delete_user_state(id)` */
    method DeleteUserState(id: int)
      modifies this
      ensures online == old(online) && coupons == old(coupons)
      ensures users == if online then old(users) - {id} else old(users)
    {
      if online {
        users := users - {id};
      }
    }

    /** `mark_reminder_sent(id)`: an update of a missing row changes nothing. */
    method MarkReminderSent(id: int)
      modifies this
      ensures online == old(online) && coupons == old(coupons)
      ensures users == if online && id in old(users)
                       then old(users)[id := old(users)[id].(reminderSent := true)]
                       else old(users)
    {
      if online && id in users {
        users := users[id := users[id].(reminderSent := true)];
      }
    }

    /** The smallest element of a non-empty set. */
    static method Minimum(s: set<int>) returns (m: int)
      requires s != {}
      ensures m in s && forall x :: x in s ==> m <= x
    {
      m := Pick(s);
      var rest := s - {m};
      while rest != {}
        invariant rest <= s && m in s
        invariant forall x :: x in s && x !in rest ==> m <= x
        decreases |rest|
      {
        var x := Pick(rest);
        if x < m {
          m := x;
        }
        rest := rest - {x};
      }
    }

    /** The user ids in the order a table scan visits them: `user_id` is the
        table's `INTEGER PRIMARY KEY`, so rows come in ascending id order. */
    method ScanOrder() returns (ids: seq<int>)
      ensures Increasing(ids)
      ensures forall x :: x in ids <==> x in users
    {
      var rest := users.Keys;
      ids := [];
      while rest != {}
        invariant rest <= users.Keys
        invariant Increasing(ids)
        invariant forall x :: x in ids ==> x in users && x !in rest
        invariant forall x :: x in users && x !in rest ==> x in ids
        invariant forall i, x :: 0 <= i < |ids| && x in rest ==> ids[i] < x
        decreases |rest|
      {
        var k := Minimum(rest);
        ids := ids + [k];
        rest := rest - {k};
      }
    }

    /** `get_abandoned_users(hours)` at clock reading `now`: the abandoned users with
        their records, in ascending id order. */
    method GetAbandonedUsers(hours: int, now: int) returns (rows: seq<(int, Record)>)
      ensures Increasing(RowIds(rows))
      ensures forall x :: x in RowIds(rows) <==> online && x in Abandoned(users, hours, now)
      ensures forall i :: 0 <= i < |rows| ==> rows[i].0 in users && rows[i].1 == users[rows[i].0].state
    {
      rows := [];
      if !online {
        return;
      }
      var ids := ScanOrder();
      var i := 0;
      while i < |ids|
        invariant 0 <= i <= |ids|
        invariant Increasing(RowIds(rows))
        invariant forall j, t :: 0 <= j < |rows| && i <= t < |ids| ==> rows[j].0 < ids[t]
        invariant forall x :: x in RowIds(rows) <==> x in ids[..i] && IsAbandoned(users[x], hours, now)
        invariant forall j :: 0 <= j < |rows| ==> rows[j].0 in users && rows[j].1 == users[rows[j].0].state
      {
        var id := ids[i];
        assert ids[..i + 1] == ids[..i] + [id];
        if IsAbandoned(users[id], hours, now) {
          var row := (id, users[id].state);
          assert RowIds(rows + [row]) == RowIds(rows) + [id];
          rows := rows + [row];
        }
        i := i + 1;
      }
      assert ids[..i] == ids;
    }

    /** `get_incomplete_users()`: the ids of users who have not completed
        registration, in ascending order. */
    method GetIncompleteUsers() returns (result: seq<int>)
      ensures Increasing(result)
      ensures forall x :: x in result <==> online && x in Incomplete(users)
    {
      result := [];
      if !online {
        return;
      }
      var ids := ScanOrder();
      var i := 0;
      while i < |ids|
        invariant 0 <= i <= |ids|
        invariant Increasing(result)
        invariant forall j, t :: 0 <= j < |result| && i <= t < |ids| ==> result[j] < ids[t]
        invariant forall x :: x in result <==> x in ids[..i] && IsIncomplete(users[x])
      {
        var id := ids[i];
        assert ids[..i + 1] == ids[..i] + [id];
        if IsIncomplete(users[id]) {
          result := result + [id];
        }
        i := i + 1;
      }
      assert ids[..i] == ids;
    }

    /** The shared loop of `get_stats_counts` and `get_funnel_stats`: count every
        row under its key. */
    method CountBy(key: Record -> string) returns (counts: map<string, int>)
      requires online
      ensures counts == Tally(users, users.Keys, key)
    {
      counts := map[];
      var done: set<int> := {};
      var rest := users.Keys;
      assert Tally(users, done, key) == map[];
      while rest != {}
        invariant rest !! done && rest + done == users.Keys
        invariant counts == Tally(users, done, key)
        decreases |rest|
      {
        var k := Pick(rest);
        var c := key(users[k].state);
        TallyAdd(users, done, k, key);
        counts := counts[c := (if c in counts then counts[c] else 0) + 1];
        done := done + {k};
        rest := rest - {k};
      }
    }

    /** `get_stats_counts()`: the number of rows, and the rows per course (`"unknown"`
        for a record without one). */
    method GetStatsCounts() returns (total: int, courses: map<string, int>)
      ensures total == if online then |users| else 0
      ensures courses == if online then Tally(users, users.Keys, CourseKey) else map[]
    {
      if !online {
        return 0, map[];
      }
      total := |users|;
      courses := CountBy(CourseKey);
    }

    /** `get_funnel_stats()`: the rows per stage (`"unknown"` for a record without
        one). */
    method GetFunnelStats() returns (stages: map<string, int>)
      ensures stages == if online then Tally(users, users.Keys, StageKey) else map[]
    {
      if !online {
        return map[];
      }
      stages := CountBy(StageKey);
    }

    /** `add_coupon(code, percent, limit, course)` */
    method AddCoupon(code: string, percent: int, limit: int, course: Option<string>)
      modifies this
      ensures online == old(online) && users == old(users)
      ensures coupons == if online then CouponAdded(old(coupons), code, percent, limit, course) else old(coupons)
    {
      if online {
        coupons := CouponAdded(coupons, code, percent, limit, course);
      }
    }

    /** `get_coupon(code, user_course)` */
    function GetCoupon(code: string, userCourse: Option<string>): (r: Option<int>)
      reads this
      ensures !online ==> r.None?
      ensures online ==> r == CouponLookup(coupons, code, userCourse)
    {
      if online then CouponLookup(coupons, code, userCourse) else None
    }

    /** `redeem_coupon(code)` */
    method RedeemCoupon(code: string)
      modifies this
      ensures online == old(online) && users == old(users)
      ensures coupons == if online then Redeemed(old(coupons), code) else old(coupons)
    {
      if online {
        coupons := Redeemed(coupons, code);
      }
    }

    /** `delete_coupon(code)` */
    method DeleteCoupon(code: string)
      modifies this
      ensures online == old(online) && users == old(users)
      ensures coupons == if online then old(coupons) - {NormalizeCode(code)} else old(coupons)
    {
      if online {
        coupons := coupons - {NormalizeCode(code)};
      }
    }

    /** `list_coupons()`: every stored code with its percentage, count and limit. */
    method ListCoupons() returns (result: map<string, CouponSummary>)
      ensures result.Keys == if online then coupons.Keys else {}
      ensures forall c :: c in result ==>
                c in coupons && result[c] == CouponSummary(coupons[c].percent, coupons[c].count, coupons[c].limit)
    {
      result := map[];
      if !online {
        return;
      }
      var rest := coupons.Keys;
      while rest != {}
        invariant rest <= coupons.Keys
        invariant result.Keys == coupons.Keys - rest
        invariant forall c :: c in result ==>
                    c in coupons && result[c] == CouponSummary(coupons[c].percent, coupons[c].count, coupons[c].limit)
        decreases |rest|
      {
        var c := Pick(rest);
        result := result[c := CouponSummary(coupons[c].percent, coupons[c].count, coupons[c].limit)];
        rest := rest - {c};
      }
    }
  }

  /** The ids of query rows, in order. */
  function RowIds(rows: seq<(int, Record)>): (ids: seq<int>)
    ensures |ids| == |rows| && forall i :: 0 <= i < |rows| ==> ids[i] == rows[i].0
  {
    seq(|rows|, i requires 0 <= i < |rows| => rows[i].0)
  }
}
