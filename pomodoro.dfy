/** The Pomodoro timer page: the mode switch, the one-second tick, session completion with the
    automatic focus/break rotation, the custom-duration inputs, the task list and the clock face.
    The clock (`Date.now()`) is a parameter; notifications are not modelled. The two storage
    entries the page reads and writes are fields of the timer. */
module Pomodoro {

  import opened Wrappers
  import opened Text
  import Seqs

  datatype Mode = Focus | ShortBreak | LongBreak | Custom

  datatype Task = Task(id: string, title: string, completed: bool, pomodoros: int)

  datatype Session = Session(id: string, mode: Mode, duration: int, completedAt: int)

  /** `DEFAULT_DURATIONS`, in seconds, for the three fixed modes. */
  function Duration(m: Mode): (d: nat)
    requires m != Custom
    ensures m == Focus ==> d == 25 * 60
    ensures m == ShortBreak ==> d == 5 * 60
    ensures m == LongBreak ==> d == 15 * 60
  {
    match m
    case Focus => 25 * 60
    case ShortBreak => 5 * 60
    case LongBreak => 15 * 60
  }

  /** The custom countdown, in seconds. */
  function CustomTotal(hours: int, minutes: int, seconds: int): int
  {
    hours * 3600 + minutes * 60 + seconds
  }

  /** With the fields inside their input ranges, the total gives them back (whole hours, then
      whole minutes, then seconds), is below a day, and is zero only for 0:00:00. */
  lemma CustomTotalFields(hours: nat, minutes: nat, seconds: nat)
    requires minutes < 60 && seconds < 60
    ensures var t := CustomTotal(hours, minutes, seconds);
      t / 3600 == hours && t % 3600 / 60 == minutes && t % 60 == seconds
    ensures hours < 24 ==> CustomTotal(hours, minutes, seconds) < 86400
    ensures CustomTotal(hours, minutes, seconds) == 0 <==> hours == 0 && minutes == 0 && seconds == 0
  {
    var t, r := CustomTotal(hours, minutes, seconds), minutes * 60 + seconds;
    assert 0 <= r < 3600 && t == hours * 3600 + r;
    HourSplit(hours, r);
    MinuteSplit(minutes, seconds);
    assert t == (hours * 60 + minutes) * 60 + seconds;
    MinuteSplit(hours * 60 + minutes, seconds);
  }

  lemma HourSplit(h: nat, r: nat)
    requires r < 3600
    ensures (h * 3600 + r) / 3600 == h && (h * 3600 + r) % 3600 == r
  {
  }

  lemma MinuteSplit(m: nat, s: nat)
    requires s < 60
    ensures (m * 60 + s) / 60 == m && (m * 60 + s) % 60 == s
  {
  }

  /** What `switchMode` puts on the clock: the fixed duration, or the custom total with one
      minute in its place when the total is zero. */
  function SwitchTime(m: Mode, hours: int, minutes: int, seconds: int): (t: int)
    ensures m != Custom ==> t == Duration(m)
    ensures m == Custom && CustomTotal(hours, minutes, seconds) == 0 ==> t == 60
    ensures m == Custom && CustomTotal(hours, minutes, seconds) != 0 ==> t == CustomTotal(hours, minutes, seconds)
  {
    if m == Custom then
      var total := CustomTotal(hours, minutes, seconds);
      if total == 0 then 60 else total
    else Duration(m)
  }

  /** The duration recorded for a finished session: what `SwitchTime` puts on the clock, except
      that a zero custom time is recorded as 0 (the one-minute fallback is not applied here). */
  function SessionDuration(m: Mode, hours: int, minutes: int, seconds: int): (d: int)
    ensures m != Custom || CustomTotal(hours, minutes, seconds) != 0 ==> d == SwitchTime(m, hours, minutes, seconds)
    ensures m == Custom && CustomTotal(hours, minutes, seconds) == 0 ==> d == 0 && SwitchTime(m, hours, minutes, seconds) == 60
  {
    if m == Custom then CustomTotal(hours, minutes, seconds) else Duration(m)
  }

  /** The record of a session finished at `now` in mode `m`. */
  method FinishedSession(m: Mode, hours: int, minutes: int, seconds: int, now: nat) returns (s: Session)
    ensures s == Session("session-" + NatToString(now), m, SessionDuration(m, hours, minutes, seconds), now)
  {
    s := Session("session-" + NatToString(now), m, SessionDuration(m, hours, minutes, seconds), now);
  }

  /** `Math.min(hi, Math.max(0, v))`: the clamp on the custom-duration inputs. */
  function Clamp(v: int, hi: nat): (r: int)
    ensures 0 <= r <= hi
    ensures 0 <= v <= hi ==> r == v
    ensures v < 0 ==> r == 0
    ensures v > hi ==> r == hi
  {
    if v < 0 then 0 else if v > hi then hi else v
  }

  /** `sessions.filter(s => s.mode === 'focus').length` */
  function FocusCount(sessions: seq<Session>): (n: nat)
    ensures n <= |sessions|
  {
    |Seqs.Filter(sessions, (s: Session) => s.mode == Focus)|
  }

  /** The automatic switch after a completed session; custom countdowns do not switch. */
  function NextMode(m: Mode, sessions: seq<Session>): (r: Mode)
    ensures m == Custom ==> r == Custom
    ensures m == ShortBreak || m == LongBreak ==> r == Focus
    ensures m == Focus ==> (r == LongBreak <==> (FocusCount(sessions) + 1) % 4 == 0)
    ensures m == Focus ==> (r == ShortBreak <==> (FocusCount(sessions) + 1) % 4 != 0)
  {
    match m
    case Custom => Custom
    case Focus => if (FocusCount(sessions) + 1) % 4 == 0 then LongBreak else ShortBreak
    case _ => Focus
  }

  /** `[newSession, ...sessions.slice(0, 9)]`: newest first, at most ten kept. */
  function RecordSession(sessions: seq<Session>, s: Session): (r: seq<Session>)
    ensures 1 <= |r| <= 10 && r[0] == s
    ensures r[1..] <= sessions
    ensures |r| == if |sessions| < 9 then |sessions| + 1 else 10
  {
    [s] + Seqs.Take(sessions, 9)
  }

  /** A history in which breaks and focus sessions alternate, newest (a break) first. */
  predicate Alternating(sessions: seq<Session>) {
    forall i :: 0 <= i < |sessions| ==> (sessions[i].mode == Focus <==> i % 2 == 1)
  }

  lemma {:induction false} AlternatingFocusCount(sessions: seq<Session>)
    requires Alternating(sessions) && |sessions| % 2 == 0
    ensures FocusCount(sessions) == |sessions| / 2
  {
    if sessions != [] {
      var rest := sessions[2..];
      assert Alternating(rest) by {
        forall i | 0 <= i < |rest| ensures (rest[i].mode == Focus <==> i % 2 == 1) {
          assert rest[i] == sessions[i + 2];
        }
      }
      AlternatingFocusCount(rest);
      var p := (s: Session) => s.mode == Focus;
      assert !p(sessions[0]) && p(sessions[1]);
      assert sessions[1..][1..] == rest;
      assert Seqs.Filter(sessions[1..], p) == [sessions[1]] + Seqs.Filter(rest, p);
      assert Seqs.Filter(sessions, p) == Seqs.Filter(sessions[1..], p);
    }
  }

  /** As written, the long-break count runs over the capped history: once ten sessions of strict
      focus/break alternation are stored, the history holds five focus sessions, so a focus
      completion leads to a short break, and one more focus/break round restores the same shape.
      From then on the long break never comes again. */
  lemma CappedHistoryNeverLongBreak(sessions: seq<Session>, focus: Session, rest: Session)
    requires |sessions| == 10 && Alternating(sessions)
    requires focus.mode == Focus && rest.mode == ShortBreak
    ensures NextMode(Focus, sessions) == ShortBreak
    ensures var after := RecordSession(RecordSession(sessions, focus), rest);
      |after| == 10 && Alternating(after)
  {
    assert FocusCount(sessions) == 5 by {
      AlternatingFocusCount(sessions);
    }
    var after := RecordSession(RecordSession(sessions, focus), rest);
    assert after == [rest, focus] + sessions[..8] by {
      assert RecordSession(sessions, focus) == [focus] + sessions[..9];
    }
    forall i | 0 <= i < 10 ensures (after[i].mode == Focus <==> i % 2 == 1) {
      if i >= 2 {
        assert after[i] == sessions[i - 2];
      }
    }
  }

  /** `tasks.map(t => t.id === id ? { ...t, completed: !t.completed } : t)` */
  function ToggleTasks(tasks: seq<Task>, id: string): (r: seq<Task>)
    ensures |r| == |tasks|
    ensures forall i :: 0 <= i < |r| ==>
      && r[i].id == tasks[i].id && r[i].title == tasks[i].title && r[i].pomodoros == tasks[i].pomodoros
      && r[i].completed == (if tasks[i].id == id then !tasks[i].completed else tasks[i].completed)
  {
    if tasks == [] then []
    else
      var t := tasks[0];
      [if t.id == id then t.(completed := !t.completed) else t] + ToggleTasks(tasks[1..], id)
  }

  /** Toggling the same task twice restores the list. */
  lemma ToggleTwice(tasks: seq<Task>, id: string)
    ensures ToggleTasks(ToggleTasks(tasks, id), id) == tasks
  {
    var r := ToggleTasks(ToggleTasks(tasks, id), id);
    assert forall i :: 0 <= i < |tasks| ==> r[i] == tasks[i];
  }

  /** `tasks.filter(t => t.id !== id)` */
  function DeleteTasks(tasks: seq<Task>, id: string): (r: seq<Task>)
    ensures |r| <= |tasks|
    ensures forall i :: 0 <= i < |r| ==> r[i].id != id
  {
    Seqs.Filter(tasks, (t: Task) => t.id != id)
  }

  /** Deleting keeps exactly the tasks with another id, in order; an unknown id changes nothing. */
  lemma DeleteTasksExact(tasks: seq<Task>, id: string, t: Task)
    ensures t in DeleteTasks(tasks, id) <==> t in tasks && t.id != id
    ensures Seqs.IsSubsequence(DeleteTasks(tasks, id), tasks)
    ensures (forall i :: 0 <= i < |tasks| ==> tasks[i].id != id) ==> DeleteTasks(tasks, id) == tasks
  {
    Seqs.FilterMembership(tasks, (x: Task) => x.id != id, t);
    Seqs.FilterIsSubsequence(tasks, (x: Task) => x.id != id);
    if forall i :: 0 <= i < |tasks| ==> tasks[i].id != id {
      Seqs.FilterKeepsAll(tasks, (x: Task) => x.id != id);
    }
  }

  /** `n.toString().padStart(2, '0')` */
  function TwoDigits(n: nat): (r: string)
    ensures |r| >= 2
    ensures n < 100 ==> |r| == 2
    ensures forall i :: 0 <= i < |r| ==> IsDigit(r[i])
  {
    assert 10 <= n < 100 ==> |NatToString(n)| == 2 by {
      if 10 <= n < 100 {
        assert NatToString(n) == NatToString(n / 10) + [DigitChar(n % 10)];
      }
    }
    PadStart(NatToString(n), 2, '0')
  }

  lemma {:induction false} TwoDigitsValue(n: nat)
    ensures DecimalValue(TwoDigits(n)) == n
  {
    var s := NatToString(n);
    var r := TwoDigits(n);
    var z := r[..|r| - |s|];
    assert r == z + s;
    LeadingZerosValue(z, s);
    DecimalRoundTrip(n);
  }

  /** `formatTime`: whole minutes and the remaining seconds, each at least two digits, joined by ':'. */
  function FormatTime(seconds: nat): (r: string)
    ensures |r| >= 5 && r[|r| - 3] == ':'
    ensures r[|r| - 2..] == TwoDigits(seconds % 60)
  {
    TwoDigits(seconds / 60) + ":" + TwoDigits(seconds % 60)
  }

  /** Reads a `mm:ss` clock face back into seconds. */
  function ParseTime(t: string): Option<nat> {
    var parts := Split(t, ':');
    if |parts| == 2 && (forall i :: 0 <= i < |parts[0]| ==> IsDigit(parts[0][i]))
                    && (forall i :: 0 <= i < |parts[1]| ==> IsDigit(parts[1][i]))
    then Some(DecimalValue(parts[0]) * 60 + DecimalValue(parts[1]))
    else None
  }

  /** The clock face shows exactly the remaining time. */
  lemma {:induction false} FormatTimeRoundTrip(seconds: nat)
    ensures ParseTime(FormatTime(seconds)) == Some(seconds)
  {
    var q, r := seconds / 60, seconds % 60;
    assert q * 60 + r == seconds;
    ClockFaceValue(q, r);
    assert FormatTime(seconds) == TwoDigits(q) + ":" + TwoDigits(r);
  }

  /** A face built from minutes `q` and seconds `r` reads back as `q * 60 + r`. */
  lemma {:induction false} ClockFaceValue(q: nat, r: nat)
    ensures ParseTime(TwoDigits(q) + ":" + TwoDigits(r)) == Some(q * 60 + r)
  {
    TwoDigitsValue(q);
    TwoDigitsValue(r);
    ParseDigitPair(TwoDigits(q), TwoDigits(r), q, r);
  }

  lemma {:induction false} ParseDigitPair(m: string, s: string, a: nat, b: nat)
    requires forall i :: 0 <= i < |m| ==> IsDigit(m[i])
    requires forall i :: 0 <= i < |s| ==> IsDigit(s[i])
    requires DecimalValue(m) == a && DecimalValue(s) == b
    ensures ParseTime(m + ":" + s) == Some(a * 60 + b)
  {
    assert ':' !in m by { forall i | 0 <= i < |m| ensures m[i] != ':' { assert IsDigit(m[i]); } }
    assert ':' !in s by { forall i | 0 <= i < |s| ensures s[i] != ':' { assert IsDigit(s[i]); } }
    SplitJoin([m, s], ':');
    assert Join([m, s][1..], [':']) == s;
    assert Join([m, s], [':']) == m + ":" + s;
  }

  /** The page's state. */
  class PomodoroTimer {
    var mode: Mode
    var timeLeft: int
    var isRunning: bool
    var tasks: seq<Task>
    var newTaskTitle: string
    var sessions: seq<Session>
    var customHours: int
    var customMinutes: int
    var customSeconds: int
    var showCustomInput: bool
    /** The `pomodoro-tasks` and `pomodoro-sessions` entries of browser storage; `None` when absent. */
    var storedTasks: Option<seq<Task>>
    var storedSessions: Option<seq<Session>>

    /** The custom inputs stay within their clamps and the clock never shows a negative time. */
    ghost predicate Valid()
      reads this
    {
      && 0 <= customHours <= 23 && 0 <= customMinutes <= 59 && 0 <= customSeconds <= 59
      && timeLeft >= 0
    }

    /** The first render, with whatever storage holds under the two keys. */
    constructor (savedTasks: Option<seq<Task>>, savedSessions: Option<seq<Session>>)
      ensures Valid()
      ensures mode == Focus && timeLeft == Duration(Focus) && !isRunning
      ensures tasks == [] && newTaskTitle == [] && sessions == []
      ensures customHours == 0 && customMinutes == 10 && customSeconds == 0 && !showCustomInput
      ensures storedTasks == savedTasks && storedSessions == savedSessions
    {
      mode, timeLeft, isRunning := Focus, Duration(Focus), false;
      tasks, newTaskTitle, sessions := [], [], [];
      customHours, customMinutes, customSeconds, showCustomInput := 0, 10, 0, false;
      storedTasks, storedSessions := savedTasks, savedSessions;
    }

    /** The mount effect: each stored list that is present replaces the one in the state. */
    method LoadSaved()
      requires Valid()
      modifies this
      ensures Valid()
      ensures tasks == (if old(storedTasks).Some? then old(storedTasks).value else old(tasks))
      ensures sessions == (if old(storedSessions).Some? then old(storedSessions).value else old(sessions))
      ensures storedTasks == old(storedTasks) && storedSessions == old(storedSessions)
      ensures mode == old(mode) && timeLeft == old(timeLeft) && isRunning == old(isRunning)
      ensures newTaskTitle == old(newTaskTitle) && showCustomInput == old(showCustomInput)
      ensures customHours == old(customHours) && customMinutes == old(customMinutes)
      ensures customSeconds == old(customSeconds)
    {
      if storedTasks.Some? {
        tasks := storedTasks.value;
      }
      if storedSessions.Some? {
        sessions := storedSessions.value;
      }
    }

    /** `switchMode` */
    method SwitchMode(newMode: Mode)
      requires Valid()
      modifies this
      ensures Valid()
      ensures mode == newMode && !isRunning
      ensures timeLeft == SwitchTime(newMode, customHours, customMinutes, customSeconds)
      ensures showCustomInput == (newMode == Custom)
      ensures tasks == old(tasks) && sessions == old(sessions) && newTaskTitle == old(newTaskTitle)
      ensures storedTasks == old(storedTasks) && storedSessions == old(storedSessions)
      ensures customHours == old(customHours) && customMinutes == old(customMinutes)
      ensures customSeconds == old(customSeconds)
    {
      var start := SwitchTime(newMode, customHours, customMinutes, customSeconds);
      mode, timeLeft, showCustomInput, isRunning := newMode, start, newMode == Custom, false;
    }

    /** `handleTimerComplete`: stop, record the session, then rotate focus and breaks. */
    method HandleTimerComplete(now: nat)
      requires Valid()
      modifies this
      ensures Valid()
      ensures !isRunning
      ensures sessions == RecordSession(old(sessions),
        Session("session-" + NatToString(now), old(mode),
                SessionDuration(old(mode), customHours, customMinutes, customSeconds), now))
      ensures mode == NextMode(old(mode), old(sessions))
      ensures old(mode) == Custom ==> timeLeft == old(timeLeft) && showCustomInput == old(showCustomInput)
      ensures old(mode) != Custom ==> timeLeft == Duration(mode) && !showCustomInput
      ensures storedSessions == Some(sessions) && storedTasks == old(storedTasks)
      ensures tasks == old(tasks) && newTaskTitle == old(newTaskTitle)
      ensures customHours == old(customHours) && customMinutes == old(customMinutes)
      ensures customSeconds == old(customSeconds)
    {
      var newSession := FinishedSession(mode, customHours, customMinutes, customSeconds, now);
      var previous := sessions;
      var updated := RecordSession(previous, newSession);
      isRunning, sessions, storedSessions := false, updated, Some(updated);
      if mode != Custom {
        if mode == Focus {
          var completed := FocusCount(previous) + 1;
          var next := if completed % 4 == 0 then LongBreak else ShortBreak;
          SwitchMode(next);
        } else {
          SwitchMode(Focus);
        }
      }
    }

    /** One tick of the running interval. */
    method Tick(now: nat)
      requires Valid() && isRunning
      modifies this
      ensures Valid()
      ensures old(timeLeft) > 1 ==>
        && timeLeft == old(timeLeft) - 1 && isRunning && mode == old(mode) && sessions == old(sessions)
        && showCustomInput == old(showCustomInput) && storedSessions == old(storedSessions)
      ensures old(timeLeft) <= 1 ==>
        && !isRunning
        && sessions == RecordSession(old(sessions),
             Session("session-" + NatToString(now), old(mode),
                     SessionDuration(old(mode), customHours, customMinutes, customSeconds), now))
        && mode == NextMode(old(mode), old(sessions))
        && timeLeft == (if old(mode) == Custom then 0 else Duration(mode))
        && showCustomInput == (if old(mode) == Custom then old(showCustomInput) else false)
        && storedSessions == Some(sessions)
      ensures tasks == old(tasks) && newTaskTitle == old(newTaskTitle) && storedTasks == old(storedTasks)
      ensures customHours == old(customHours) && customMinutes == old(customMinutes)
      ensures customSeconds == old(customSeconds)
    {
      if timeLeft <= 1 {
        timeLeft := 0;
        HandleTimerComplete(now);
      } else {
        timeLeft := timeLeft - 1;
      }
    }

    /** The play/pause button. */
    method StartPause()
      requires Valid()
      modifies this
      ensures Valid()
      ensures isRunning == !old(isRunning)
      ensures mode == old(mode) && timeLeft == old(timeLeft) && sessions == old(sessions) && tasks == old(tasks)
      ensures newTaskTitle == old(newTaskTitle) && showCustomInput == old(showCustomInput)
      ensures customHours == old(customHours) && customMinutes == old(customMinutes)
      ensures customSeconds == old(customSeconds)
      ensures storedTasks == old(storedTasks) && storedSessions == old(storedSessions)
    {
      isRunning := !isRunning;
    }

    /** The reset button: stop and restore the mode's full time (the custom total as is). */
    method Reset()
      requires Valid()
      modifies this
      ensures Valid()
      ensures !isRunning && mode == old(mode)
      ensures timeLeft == SessionDuration(mode, customHours, customMinutes, customSeconds)
      ensures sessions == old(sessions) && tasks == old(tasks)
      ensures newTaskTitle == old(newTaskTitle) && showCustomInput == old(showCustomInput)
      ensures customHours == old(customHours) && customMinutes == old(customMinutes)
      ensures customSeconds == old(customSeconds)
      ensures storedTasks == old(storedTasks) && storedSessions == old(storedSessions)
    {
      isRunning := false;
      timeLeft := if mode == Custom then CustomTotal(customHours, customMinutes, customSeconds) else Duration(mode);
    }

    /** The three custom inputs, each clamped. */
    method SetCustomHours(v: int)
      requires Valid()
      modifies this
      ensures Valid() && customHours == Clamp(v, 23)
      ensures customMinutes == old(customMinutes) && customSeconds == old(customSeconds)
      ensures timeLeft == old(timeLeft) && mode == old(mode) && isRunning == old(isRunning)
      ensures tasks == old(tasks) && sessions == old(sessions) && newTaskTitle == old(newTaskTitle)
      ensures showCustomInput == old(showCustomInput)
      ensures storedTasks == old(storedTasks) && storedSessions == old(storedSessions)
    {
      customHours := if 23 < (if 0 > v then 0 else v) then 23 else (if 0 > v then 0 else v);
    }

    method SetCustomMinutes(v: int)
      requires Valid()
      modifies this
      ensures Valid() && customMinutes == Clamp(v, 59)
      ensures customHours == old(customHours) && customSeconds == old(customSeconds)
      ensures timeLeft == old(timeLeft) && mode == old(mode) && isRunning == old(isRunning)
      ensures tasks == old(tasks) && sessions == old(sessions) && newTaskTitle == old(newTaskTitle)
      ensures showCustomInput == old(showCustomInput)
      ensures storedTasks == old(storedTasks) && storedSessions == old(storedSessions)
    {
      customMinutes := if 59 < (if 0 > v then 0 else v) then 59 else (if 0 > v then 0 else v);
    }

    method SetCustomSeconds(v: int)
      requires Valid()
      modifies this
      ensures Valid() && customSeconds == Clamp(v, 59)
      ensures customHours == old(customHours) && customMinutes == old(customMinutes)
      ensures timeLeft == old(timeLeft) && mode == old(mode) && isRunning == old(isRunning)
      ensures tasks == old(tasks) && sessions == old(sessions) && newTaskTitle == old(newTaskTitle)
      ensures showCustomInput == old(showCustomInput)
      ensures storedTasks == old(storedTasks) && storedSessions == old(storedSessions)
    {
      customSeconds := if 59 < (if 0 > v then 0 else v) then 59 else (if 0 > v then 0 else v);
    }

    /** `handleSetCustomTime`: a zero total changes nothing. */
    method HandleSetCustomTime()
      requires Valid()
      modifies this
      ensures Valid()
      ensures var total := CustomTotal(customHours, customMinutes, customSeconds);
        && (total > 0 ==> timeLeft == total && !showCustomInput)
        && (total <= 0 ==> timeLeft == old(timeLeft) && showCustomInput == old(showCustomInput))
      ensures mode == old(mode) && isRunning == old(isRunning) && sessions == old(sessions) && tasks == old(tasks)
      ensures newTaskTitle == old(newTaskTitle)
      ensures customHours == old(customHours) && customMinutes == old(customMinutes)
      ensures customSeconds == old(customSeconds)
      ensures storedTasks == old(storedTasks) && storedSessions == old(storedSessions)
    {
      var total := customHours * 3600 + customMinutes * 60 + customSeconds;
      if total > 0 {
        timeLeft := total;
        showCustomInput := false;
      }
    }

    /** The task input box. */
    method SetNewTaskTitle(title: string)
      requires Valid()
      modifies this
      ensures Valid()
      ensures newTaskTitle == title && tasks == old(tasks)
      ensures mode == old(mode) && timeLeft == old(timeLeft) && sessions == old(sessions)
      ensures isRunning == old(isRunning) && showCustomInput == old(showCustomInput)
      ensures customHours == old(customHours) && customMinutes == old(customMinutes)
      ensures customSeconds == old(customSeconds)
      ensures storedTasks == old(storedTasks) && storedSessions == old(storedSessions)
    {
      newTaskTitle := title;
    }

    /** `handleAddTask`: a blank title is ignored; otherwise the task is appended, not done and
        with no pomodoros, and the input is cleared. */
    method HandleAddTask(now: nat)
      requires Valid()
      modifies this
      ensures Valid()
      ensures IsBlank(old(newTaskTitle)) ==>
        tasks == old(tasks) && newTaskTitle == old(newTaskTitle) && storedTasks == old(storedTasks)
      ensures !IsBlank(old(newTaskTitle)) ==>
        && tasks == old(tasks) + [Task("task-" + NatToString(now), old(newTaskTitle), false, 0)]
        && newTaskTitle == [] && storedTasks == Some(tasks)
      ensures storedSessions == old(storedSessions)
      ensures mode == old(mode) && timeLeft == old(timeLeft) && sessions == old(sessions)
      ensures isRunning == old(isRunning) && showCustomInput == old(showCustomInput)
      ensures customHours == old(customHours) && customMinutes == old(customMinutes)
      ensures customSeconds == old(customSeconds)
    {
      if IsBlank(newTaskTitle) {
        return;
      }
      var task := Task("task-" + NatToString(now), newTaskTitle, false, 0);
      tasks := tasks + [task];
      storedTasks := Some(tasks);
      newTaskTitle := [];
    }

    /** `handleToggleTask` */
    method HandleToggleTask(id: string)
      requires Valid()
      modifies this
      ensures Valid()
      ensures tasks == ToggleTasks(old(tasks), id)
      ensures storedTasks == Some(tasks) && storedSessions == old(storedSessions)
      ensures newTaskTitle == old(newTaskTitle)
      ensures mode == old(mode) && timeLeft == old(timeLeft) && sessions == old(sessions)
      ensures isRunning == old(isRunning) && showCustomInput == old(showCustomInput)
      ensures customHours == old(customHours) && customMinutes == old(customMinutes)
      ensures customSeconds == old(customSeconds)
    {
      tasks := ToggleTasks(tasks, id);
      storedTasks := Some(tasks);
    }

    /** `handleDeleteTask` */
    method HandleDeleteTask(id: string)
      requires Valid()
      modifies this
      ensures Valid()
      ensures tasks == DeleteTasks(old(tasks), id)
      ensures storedTasks == Some(tasks) && storedSessions == old(storedSessions)
      ensures newTaskTitle == old(newTaskTitle)
      ensures mode == old(mode) && timeLeft == old(timeLeft) && sessions == old(sessions)
      ensures isRunning == old(isRunning) && showCustomInput == old(showCustomInput)
      ensures customHours == old(customHours) && customMinutes == old(customMinutes)
      ensures customSeconds == old(customSeconds)
    {
      tasks := DeleteTasks(tasks, id);
      storedTasks := Some(tasks);
    }
  }
}
