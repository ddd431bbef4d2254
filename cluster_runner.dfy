/** cluster_runner.py: the supervisor that keeps one copy of the bot running among
    several machines. The machines share a lock row (`leader_id`, `heartbeat_utc`,
    `note`) in a spreadsheet; the leader refreshes the heartbeat and runs the bot, and
    the others take over once the heartbeat is older than the staleness bound.

    The sheet is a value the runner reads and writes; a failed write is an input.
    Another machine's write between a claim and its re-read is an input too. One pass
    of the supervision loop is `Next`, and `Runner.Step` performs it on the runner's
    fields. The wall clock is an input `now` in whole seconds on the scale of
    `IsoTime.ToSeconds`. */
module ClusterRunner {
  import opened Strings
  import opened IsoTime

  // ---------------------------------------------------------------------------
  // The lock row (cluster_runner.py:44-56)

  datatype Lock = Lock(leaderId: string, heartbeat: string, note: string)

  /** `row[i] if len(row) > i and row[i] else ""` */
  function Cell(row: seq<string>, i: nat): (c: string)
    ensures i < |row| ==> c == row[i]
    ensures |row| <= i ==> c == ""
  {
    if i < |row| && row[i] != "" then row[i] else ""
  }

  /** `read_lock(ws)`: the values of `A2:C2`, a missing row or cell read as "". */
  function ReadLock(vals: seq<seq<string>>): (l: Lock)
    ensures vals == [] || vals[0] == [] ==> l == Lock("", "", "")
  {
    var row := if vals != [] && |vals[0]| > 0 then vals[0] else [];
    Lock(Cell(row, 0), Cell(row, 1), Cell(row, 2))
  }

  /** The values of `A2:C2` after `write_lock(ws, leaderId, heartbeat, note)`. */
  function WrittenLock(leaderId: string, heartbeat: string, note: string): seq<seq<string>> {
    [[leaderId, heartbeat, note]]
  }

  /** Reading the row back gives exactly what was written. */
  lemma ReadWrittenLock(leaderId: string, heartbeat: string, note: string)
    ensures ReadLock(WrittenLock(leaderId, heartbeat, note)) == Lock(leaderId, heartbeat, note)
  {
  }

  /** A cell beyond the returned values reads as empty, and so does a blank one. */
  lemma ReadLockMissingCells(vals: seq<seq<string>>)
    requires vals != [] && |vals[0]| > 0
    ensures |vals[0]| < 2 ==> ReadLock(vals).heartbeat == ""
    ensures |vals[0]| < 3 ==> ReadLock(vals).note == ""
    ensures ReadLock(vals).leaderId == vals[0][0]
    ensures |vals[0]| >= 2 ==> ReadLock(vals).heartbeat == vals[0][1]
  {
  }

  /** The shared spreadsheet row: `vals` is what `get_values("A2:C2")` returns. */
  class LockSheet {
    var vals: seq<seq<string>>

    constructor()
      ensures vals == []
    {
      vals := [];
    }

    /** `read_lock(ws)` */
    function Read(): (l: Lock)
      reads this
      ensures vals == [] ==> l == Lock("", "", "")
    {
      ReadLock(vals)
    }

    /** `write_lock(ws, leaderId, heartbeat, note)`; `ok` is false when the update
        raises, and the row is then left as it was. */
    method Write(leaderId: string, heartbeat: string, note: string, ok: bool)
      modifies this
      ensures ok ==> vals == WrittenLock(leaderId, heartbeat, note)
      ensures !ok ==> vals == old(vals)
    {
      if ok {
        vals := WrittenLock(leaderId, heartbeat, note);
      }
    }
  }

  // ---------------------------------------------------------------------------
  // Staleness (cluster_runner.py:58-65)

  /** `is_stale(heartbeat)` at clock `now`: no heartbeat, or one `parse_iso` cannot
      read, is stale; otherwise it is stale when strictly more than `staleAfter`
      seconds old. */
  predicate IsStale(heartbeat: string, now: int, staleAfter: int) {
    heartbeat == "" || ParseIso(heartbeat).None? || now - ParseIso(heartbeat).value > staleAfter
  }

  /** A heartbeat written with `utc_now_iso()` at `t0` stays alive for exactly
      `staleAfter` seconds: at an age of `staleAfter` it is still alive. */
  lemma HeartbeatStaleIff(t0: int, now: int, staleAfter: int)
    requires MinClock <= t0 < MaxClock
    ensures IsStale(FormatIso(t0), now, staleAfter) <==> now - t0 > staleAfter
  {
    ParseFormatIso(t0);
    assert |FormatIso(t0)| >= 4;
  }

  /** A missing heartbeat, or one in another format, makes the leader dead at once. */
  lemma UnreadableHeartbeatIsStale(heartbeat: string, now: int, staleAfter: int)
    requires heartbeat == "" || ParseIso(heartbeat).None?
    ensures IsStale(heartbeat, now, staleAfter)
  {
  }

  // ---------------------------------------------------------------------------
  // The bot process (cluster_runner.py:67-81)

  /** `bot_proc`: no process, a process still running, or one that has exited. */
  datatype Bot = NoBot | Running | Exited

  /** `stop_bot(proc)`: only a running process is terminated. */
  function StopBot(b: Bot): (r: Bot)
    ensures r != b <==> b == Running
    ensures r != Running
  {
    if b == Running then Exited else b
  }

  // ---------------------------------------------------------------------------
  // One pass of the supervision loop (cluster_runner.py:94-153)

  /** The configuration: `INSTANCE_NAME`, `HEARTBEAT_INTERVAL`, `STALE_AFTER`. */
  datatype Config = Config(name: string, heartbeatInterval: int, staleAfter: int)

  /** `i_am_leader`, `bot_proc` and `last_hb`. */
  datatype RunnerState = RunnerState(iAmLeader: bool, bot: Bot, lastHb: int)

  /** The state and the sheet after one pass. */
  datatype Outcome = Outcome(state: RunnerState, vals: seq<seq<string>>)

  const InitialState := RunnerState(false, NoBot, 0)

  const AliveNote := "leader alive"
  const ClaimNote := "taking leadership"

  /** A leader whose row still names it: heartbeat when due, restart a crashed bot.
      `last_hb` moves to `now` whenever a heartbeat is due, whether or not the write
      succeeds. */
  function LeaderPass(cfg: Config, s: RunnerState, vals: seq<seq<string>>, now: int, writeOk: bool): Outcome
    requires MinClock <= now < MaxClock
  {
    var due := now - s.lastHb >= cfg.heartbeatInterval;
    var vals1 := if due && writeOk then WrittenLock(cfg.name, FormatIso(now), AliveNote) else vals;
    var bot1 := if s.bot == Exited then Running else s.bot;
    Outcome(RunnerState(true, bot1, if due then now else s.lastHb), vals1)
  }

  /** A follower that found no live leader: write a claim, read the row back, and
      lead only if the row still names this instance. A failed claim write ends the
      pass with nothing changed. `rival` is the row another instance wrote between the
      claim and the re-read, if any. */
  function ClaimPass(cfg: Config, s: RunnerState, vals: seq<seq<string>>, now: int, writeOk: bool,
                     rival: Option<seq<seq<string>>>): Outcome
    requires MinClock <= now < MaxClock
  {
    if !writeOk then Outcome(s, vals)
    else
      var vals1 := rival.GetOr(WrittenLock(cfg.name, FormatIso(now), ClaimNote));
      if ReadLock(vals1).leaderId == cfg.name then
        Outcome(RunnerState(true, if s.bot == NoBot then Running else s.bot, now), vals1)
      else
        Outcome(s, vals1)
  }

  /** One pass of the `while True` loop of `main()`, from the row `vals` at clock
      `now`. */
  function Next(cfg: Config, s: RunnerState, vals: seq<seq<string>>, now: int, writeOk: bool,
                rival: Option<seq<seq<string>>>): (o: Outcome)
    requires MinClock <= now < MaxClock
    ensures o.state.iAmLeader ==> o.state.bot != NoBot || s.bot == NoBot
    ensures !o.state.iAmLeader ==> o.state.lastHb == s.lastHb
    ensures o.vals != vals ==> writeOk
  {
    var lock := ReadLock(vals);
    var alive := !IsStale(lock.heartbeat, now, cfg.staleAfter);
    if s.iAmLeader then
      if lock.leaderId != cfg.name then
        Outcome(RunnerState(false, NoBot, s.lastHb), vals)
      else
        LeaderPass(cfg, s, vals, now, writeOk)
    else if lock.leaderId == "" || !alive then
      ClaimPass(cfg, s, vals, now, writeOk, rival)
    else
      Outcome(RunnerState(false, NoBot, s.lastHb), vals)
  }

  /** A runner: its configuration and the loop variables of `main()`. */
  class Runner {
    const cfg: Config
    var iAmLeader: bool
    var bot: Bot
    var lastHb: int

    /** The variables before the loop starts: follower, no bot, `last_hb = 0`. */
    constructor(cfg: Config)
      ensures this.cfg == cfg
      ensures State() == InitialState
    {
      this.cfg := cfg;
      iAmLeader := false;
      bot := NoBot;
      lastHb := 0;
    }

    function State(): RunnerState
      reads this
    {
      RunnerState(iAmLeader, bot, lastHb)
    }

    /** One pass of the loop against `sheet`. `writeOk` says whether the pass's
        write to the sheet succeeds; `rival` is another instance's row written between
        a claim and its re-read. */
    method Step(sheet: LockSheet, now: int, writeOk: bool, rival: Option<seq<seq<string>>>)
      requires MinClock <= now < MaxClock
      modifies this, sheet
      ensures Outcome(State(), sheet.vals) == Next(cfg, old(State()), old(sheet.vals), now, writeOk, rival)
    {
      var lock := sheet.Read();
      var alive := !IsStale(lock.heartbeat, now, cfg.staleAfter);
      if iAmLeader {
        if lock.leaderId != cfg.name {
          iAmLeader := false;
          bot := StopBot(bot);
          bot := NoBot;
        } else {
          if now - lastHb >= cfg.heartbeatInterval {
            sheet.Write(cfg.name, FormatIso(now), AliveNote, writeOk);
            lastHb := now;
          }
          if bot == Exited {
            bot := Running;
          }
        }
      } else if lock.leaderId == "" || !alive {
        sheet.Write(cfg.name, FormatIso(now), ClaimNote, writeOk);
        if writeOk {
          if rival.Some? {
            sheet.vals := rival.value;
          }
          var newLeader := sheet.Read().leaderId;
          if newLeader == cfg.name {
            iAmLeader := true;
            lastHb := now;
            if bot == NoBot {
              bot := Running;
            }
          }
        }
      } else {
        if bot != NoBot {
          bot := StopBot(bot);
          bot := NoBot;
        }
      }
    }
  }

  // ---------------------------------------------------------------------------
  // What one pass guarantees

  /** A leader whose row names another instance steps down, stops its bot and forgets
      it, and leaves the row alone. */
  lemma LostLeadershipStepsDown(cfg: Config, s: RunnerState, vals: seq<seq<string>>, now: int,
                                writeOk: bool, rival: Option<seq<seq<string>>>)
    requires MinClock <= now < MaxClock
    requires s.iAmLeader && ReadLock(vals).leaderId != cfg.name
    ensures Next(cfg, s, vals, now, writeOk, rival) == Outcome(RunnerState(false, NoBot, s.lastHb), vals)
  {
  }

  /** A leader whose row names it writes a heartbeat exactly when `heartbeatInterval`
      seconds have passed since the last one and the write goes through; `last_hb`
      moves whenever one was due, even if the write failed. */
  lemma LeaderHeartbeat(cfg: Config, s: RunnerState, vals: seq<seq<string>>, now: int,
                        writeOk: bool, rival: Option<seq<seq<string>>>)
    requires MinClock <= now < MaxClock
    requires s.iAmLeader && ReadLock(vals).leaderId == cfg.name
    ensures var o := Next(cfg, s, vals, now, writeOk, rival);
            o.state.iAmLeader &&
            (o.vals != vals <==> now - s.lastHb >= cfg.heartbeatInterval && writeOk && vals != WrittenLock(cfg.name, FormatIso(now), AliveNote)) &&
            (now - s.lastHb >= cfg.heartbeatInterval && writeOk ==> ReadLock(o.vals) == Lock(cfg.name, FormatIso(now), AliveNote)) &&
            o.state.lastHb == (if now - s.lastHb >= cfg.heartbeatInterval then now else s.lastHb)
  {
    ReadWrittenLock(cfg.name, FormatIso(now), AliveNote);
  }

  /** A leader restarts a bot that has exited, and leaves a running one alone. */
  lemma LeaderRestartsCrashedBot(cfg: Config, s: RunnerState, vals: seq<seq<string>>, now: int,
                                 writeOk: bool, rival: Option<seq<seq<string>>>)
    requires MinClock <= now < MaxClock
    requires s.iAmLeader && ReadLock(vals).leaderId == cfg.name
    ensures s.bot != NoBot ==> Next(cfg, s, vals, now, writeOk, rival).state.bot == Running
    ensures s.bot == NoBot ==> Next(cfg, s, vals, now, writeOk, rival).state.bot == NoBot
  {
  }

  /** A follower becomes leader only when the row had no leader or a stale heartbeat,
      its claim was written, and the row read back names it; it then runs a bot. */
  lemma ClaimOnlyWhenFreeOrStale(cfg: Config, s: RunnerState, vals: seq<seq<string>>, now: int,
                                 writeOk: bool, rival: Option<seq<seq<string>>>)
    requires MinClock <= now < MaxClock
    requires !s.iAmLeader
    ensures var o := Next(cfg, s, vals, now, writeOk, rival);
            o.state.iAmLeader ==>
              (ReadLock(vals).leaderId == "" || IsStale(ReadLock(vals).heartbeat, now, cfg.staleAfter)) &&
              writeOk && ReadLock(o.vals).leaderId == cfg.name &&
              o.state.bot != NoBot && o.state.lastHb == now
  {
  }

  /** A claim that is written and not overwritten wins: the follower leads, the row
      names it with a fresh heartbeat, and that heartbeat is alive. */
  lemma UncontestedClaimWins(cfg: Config, s: RunnerState, vals: seq<seq<string>>, now: int)
    requires MinClock <= now < MaxClock
    requires !s.iAmLeader
    requires ReadLock(vals).leaderId == "" || IsStale(ReadLock(vals).heartbeat, now, cfg.staleAfter)
    requires cfg.staleAfter >= 0
    ensures var o := Next(cfg, s, vals, now, true, None);
            o.state.iAmLeader && ReadLock(o.vals) == Lock(cfg.name, FormatIso(now), ClaimNote) &&
            !IsStale(ReadLock(o.vals).heartbeat, now, cfg.staleAfter)
  {
    ReadWrittenLock(cfg.name, FormatIso(now), ClaimNote);
    HeartbeatStaleIff(now, now, cfg.staleAfter);
  }

  /** A claim overwritten by another instance before the re-read is lost: the
      follower stays a follower and keeps its bot and heartbeat time. */
  lemma OverwrittenClaimLoses(cfg: Config, s: RunnerState, vals: seq<seq<string>>, now: int,
                              other: seq<seq<string>>)
    requires MinClock <= now < MaxClock
    requires !s.iAmLeader
    requires ReadLock(vals).leaderId == "" || IsStale(ReadLock(vals).heartbeat, now, cfg.staleAfter)
    requires ReadLock(other).leaderId != cfg.name
    ensures Next(cfg, s, vals, now, true, Some(other)) == Outcome(s, other)
  {
  }

  /** A failed claim write changes nothing: the pass is abandoned (`continue`). */
  lemma FailedClaimChangesNothing(cfg: Config, s: RunnerState, vals: seq<seq<string>>, now: int,
                                  rival: Option<seq<seq<string>>>)
    requires MinClock <= now < MaxClock
    requires !s.iAmLeader
    ensures Next(cfg, s, vals, now, false, rival).state == s || Next(cfg, s, vals, now, false, rival).state == RunnerState(false, NoBot, s.lastHb)
    ensures Next(cfg, s, vals, now, false, rival).vals == vals
    ensures ReadLock(vals).leaderId == "" || IsStale(ReadLock(vals).heartbeat, now, cfg.staleAfter) ==>
            Next(cfg, s, vals, now, false, rival) == Outcome(s, vals)
  {
  }

  /** A follower that sees a live leader stays on standby with no bot, even when the
      row names this very instance; it writes nothing. */
  lemma StandbyWhileLeaderAlive(cfg: Config, s: RunnerState, vals: seq<seq<string>>, now: int,
                                writeOk: bool, rival: Option<seq<seq<string>>>)
    requires MinClock <= now < MaxClock
    requires !s.iAmLeader
    requires ReadLock(vals).leaderId != "" && !IsStale(ReadLock(vals).heartbeat, now, cfg.staleAfter)
    ensures Next(cfg, s, vals, now, writeOk, rival) == Outcome(RunnerState(false, NoBot, s.lastHb), vals)
  {
  }

  /** A leader's own heartbeat, written at `t0`, keeps the followers on standby until
      more than `staleAfter` seconds have passed. */
  lemma FollowerWaitsForStaleHeartbeat(cfg: Config, s: RunnerState, leader: string, t0: int, now: int,
                                       writeOk: bool, rival: Option<seq<seq<string>>>)
    requires MinClock <= now < MaxClock && MinClock <= t0 < MaxClock
    requires !s.iAmLeader && leader != ""
    ensures var vals := WrittenLock(leader, FormatIso(t0), AliveNote);
            Next(cfg, s, vals, now, writeOk, rival).state.iAmLeader ==> now - t0 > cfg.staleAfter
  {
    ReadWrittenLock(leader, FormatIso(t0), AliveNote);
    HeartbeatStaleIff(t0, now, cfg.staleAfter);
  }
}
