/** The attendance toggle of src/attendance.py: per-name IN/OUT phase and
    last-action time, a cooldown between accepted punches, and an append-only
    log of (Name, Time, Action) rows that is replayed on start-up.
    Time is whole seconds, passed in; the log file is a sequence of rows. */
module Attendance {
  import opened SrcConfig

  const Day: int := 86400
  /** The head start a never-seen name gets: 365 days. */
  const Year: int := 365 * Day

  const PunchIn: string := "PUNCH IN"
  const PunchOut: string := "PUNCH OUT"

  datatype Phase = In | Out

  /** One log row; `time` is the instant the row's timestamp formats. */
  datatype Row = Row(name: string, time: int, action: string)

  /** What process_punch returns: ("Success", action) or ("Wait", "Wait {remaining}s"). */
  datatype PunchResult = Success(action: string) | Wait(remaining: int)

  /** The phase a logged action leaves a name in, as load_logs reads it. */
  function PhaseAfter(action: string): (p: Phase)
    ensures p == In <==> action == PunchIn
  {
    if action == PunchIn then In else Out
  }

  /** The phases that replaying `rows` front to back produces: each row
      overwrites the phase of its name. */
  function Replay(rows: seq<Row>): (phases: map<string, Phase>)
  {
    if rows == [] then map[]
    else Replay(rows[..|rows| - 1])[rows[|rows| - 1].name := PhaseAfter(rows[|rows| - 1].action)]
  }

  /** Replaying one more row only changes that row's name. */
  lemma {:induction false} ReplaySnoc(rows: seq<Row>, r: Row)
    ensures Replay(rows + [r]) == Replay(rows)[r.name := PhaseAfter(r.action)]
  {
    assert (rows + [r])[..|rows|] == rows;
  }

  /** After a replay, a name has a phase exactly when it has a row, and it is
      IN exactly when its last row is a PUNCH IN. */
  lemma {:induction false} ReplayFollowsLastRow(rows: seq<Row>, name: string)
    ensures name in Replay(rows) <==> exists i :: 0 <= i < |rows| && rows[i].name == name
    ensures name in Replay(rows) ==>
      exists i :: 0 <= i < |rows| && rows[i].name == name &&
        (forall j :: i < j < |rows| ==> rows[j].name != name) &&
        (Replay(rows)[name] == In <==> rows[i].action == PunchIn)
  {
    if rows != [] {
      var init, last := rows[..|rows| - 1], rows[|rows| - 1];
      assert rows == init + [last];
      ReplayFollowsLastRow(init, name);
      if last.name != name {
        if name in Replay(rows) {
          var i :| 0 <= i < |init| && init[i].name == name &&
            (forall j :: i < j < |init| ==> init[j].name != name) &&
            (Replay(init)[name] == In <==> init[i].action == PunchIn);
          assert rows[i] == init[i];
        }
        if exists i :: 0 <= i < |rows| && rows[i].name == name {
          var i :| 0 <= i < |rows| && rows[i].name == name;
          assert i < |init| && init[i].name == name;
        }
      } else {
        assert rows[|rows| - 1].name == name;
      }
    }
  }

  /** The last-action times load_logs seeds: every replayed name gets `t`. */
  function Seed(phases: map<string, Phase>, t: int): (m: map<string, int>)
    ensures m.Keys == phases.Keys
    ensures forall n :: n in m ==> m[n] == t
  {
    map n | n in phases :: t
  }

  /** Seeding after one more replayed row only adds or restamps that name. */
  lemma SeedUpdate(phases: map<string, Phase>, name: string, p: Phase, t: int)
    ensures Seed(phases[name := p], t) == Seed(phases, t)[name := t]
  {
  }

  /** Updating the right operand of a map union updates the union. */
  lemma MergeUpdate<V>(a: map<string, V>, b: map<string, V>, k: string, v: V)
    ensures (a + b)[k := v] == a + b[k := v]
  {
  }

  class AttendanceManager {
    /** user_state: the current phase of every name seen. */
    var userState: map<string, Phase>
    /** last_action_time: the instant of every name's last accepted punch. */
    var lastActionTime: map<string, int>
    /** The rows of the attendance log file. */
    var log: seq<Row>

    /** Both maps know the same names, and the phases are what replaying the
        log gives. */
    ghost predicate Valid()
      reads this
    {
      userState.Keys == lastActionTime.Keys && userState == Replay(log)
    }

    /** __init__: start with empty maps over the log file's rows, then load
        them; `now` is the clock reading load_logs takes. */
    constructor (existing: seq<Row>, now: int)
      ensures Valid()
      ensures log == existing
      ensures userState == Replay(existing)
      ensures lastActionTime == Seed(Replay(existing), now - Day)
    {
      userState := map[];
      lastActionTime := map[];
      log := existing;
      new;
      LoadLogs(now);
    }

    /** load_logs: replay every row in order, setting the row's name to IN for
        a PUNCH IN and to OUT otherwise, and its last time to a day before now. */
    method LoadLogs(now: int)
      modifies this
      ensures log == old(log)
      ensures userState == old(userState) + Replay(log)
      ensures lastActionTime == old(lastActionTime) + Seed(Replay(log), now - Day)
      ensures old(Valid()) ==> Valid()
    {
      var i := 0;
      while i < |log|
        invariant 0 <= i <= |log| && log == old(log)
        invariant userState == old(userState) + Replay(log[..i])
        invariant lastActionTime == old(lastActionTime) + Seed(Replay(log[..i]), now - Day)
      {
        var row := log[i];
        assert log[..i + 1] == log[..i] + [row];
        ReplaySnoc(log[..i], row);
        MergeUpdate(old(userState), Replay(log[..i]), row.name, PhaseAfter(row.action));
        SeedUpdate(Replay(log[..i]), row.name, PhaseAfter(row.action), now - Day);
        MergeUpdate(old(lastActionTime), Seed(Replay(log[..i]), now - Day), row.name, now - Day);
        userState := userState[row.name := if row.action == PunchIn then In else Out];
        lastActionTime := lastActionTime[row.name := now - Day];
        i := i + 1;
      }
      assert log[..i] == log;
      assert old(Valid()) ==> userState == old(userState) by {
        if old(Valid()) {
          assert old(userState) == Replay(log);
          assert userState.Keys == old(userState).Keys;
        }
      }
    }

    /** process_punch: a first-sight name starts OUT with a last time a year
        back; within the cooldown the punch waits and nothing changes;
        otherwise the phase flips, the time is stamped and one row is logged. */
    method ProcessPunch(name: string, now: int) returns (r: PunchResult)
      requires Valid()
      modifies this
      ensures Valid()
      ensures var last := if name in old(lastActionTime) then old(lastActionTime)[name] else now - Year;
        (r.Wait? <==> now - last < CooldownSeconds) &&
        (r.Wait? ==> r.remaining == CooldownSeconds - (now - last)) &&
        (r.Wait? && now >= last ==> 1 <= r.remaining <= CooldownSeconds)
      ensures r.Wait? ==>
        userState == old(userState) && lastActionTime == old(lastActionTime) && log == old(log)
      ensures r.Success? ==>
        var prior := if name in old(userState) then old(userState)[name] else Out;
        (r.action == PunchIn <==> prior == Out) &&
        (r.action == PunchIn || r.action == PunchOut) &&
        userState == old(userState)[name := PhaseAfter(r.action)] &&
        lastActionTime == old(lastActionTime)[name := now] &&
        log == old(log) + [Row(name, now, r.action)]
    {
      if name !in lastActionTime {
        lastActionTime := lastActionTime[name := now - Year];
      }
      if name !in userState {
        userState := userState[name := Out];
      }
      var lastTime := lastActionTime[name];
      if now - lastTime < CooldownSeconds {
        return Wait(CooldownSeconds - (now - lastTime));
      }
      var currentState := userState[name];
      var action := if currentState == Out then PunchIn else PunchOut;
      userState := userState[name := if action == PunchIn then In else Out];
      lastActionTime := lastActionTime[name := now];
      ReplaySnoc(log, Row(name, now, action));
      LogToCsv(name, now, action);
      return Success(action);
    }

    /** log_to_csv: append one (Name, Time, Action) row to the log. Called on
        its own it breaks Valid(), as in the source, where only process_punch
        calls it, right after updating the phase of the row's name. */
    method LogToCsv(name: string, time: int, action: string)
      modifies this
      ensures log == old(log) + [Row(name, time, action)]
      ensures userState == old(userState) && lastActionTime == old(lastActionTime)
    {
      log := log + [Row(name, time, action)];
    }
  }

  /** A fresh kiosk: the first punch of a name goes IN at once, a second one
      ten seconds later waits out the rest of the cooldown, and one a full
      cooldown after the first goes OUT; the log then holds exactly two rows. */
  method PunchInWaitPunchOut(name: string, t: int) returns (first: PunchResult, second: PunchResult, third: PunchResult, rows: seq<Row>)
    ensures first == Success(PunchIn)
    ensures second == Wait(CooldownSeconds - 10)
    ensures third == Success(PunchOut)
    ensures rows == [Row(name, t, PunchIn), Row(name, t + CooldownSeconds, PunchOut)]
  {
    var manager := new AttendanceManager([], t);
    first := manager.ProcessPunch(name, t);
    second := manager.ProcessPunch(name, t + 10);
    third := manager.ProcessPunch(name, t + CooldownSeconds);
    rows := manager.log;
  }

  /** After a restart over a log whose last row for `name` is a PUNCH IN, the
      first punch of `name` is not held back by the cooldown and goes OUT. */
  method PunchAfterRestart(existing: seq<Row>, name: string, t: int) returns (r: PunchResult)
    requires exists i :: (0 <= i < |existing| && existing[i] == Row(name, existing[i].time, PunchIn) &&
      forall j :: i < j < |existing| ==> existing[j].name != name)
    ensures r == Success(PunchOut)
  {
    var manager := new AttendanceManager(existing, t);
    ReplayFollowsLastRow(existing, name);
    var i :| 0 <= i < |existing| && existing[i] == Row(name, existing[i].time, PunchIn) &&
      forall j :: i < j < |existing| ==> existing[j].name != name;
    assert name in Replay(existing);
    var k :| 0 <= k < |existing| && existing[k].name == name &&
      (forall j :: k < j < |existing| ==> existing[j].name != name) &&
      (Replay(existing)[name] == In <==> existing[k].action == PunchIn);
    assert k == i;
    r := manager.ProcessPunch(name, t);
  }
}
