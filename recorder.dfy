/**
 * One tick of `loop_record_track`: the code that runs between two `await asyncio.sleep(1)`.
 * A tick reads the two globals and what the outside world answers (clock, database, GPS)
 * and produces the coroutine's next position plus the calls it made, in order. What those
 * calls do to the databases and to the LED buffer is given by `Storage` and `Display`.
 */
module Recorder {
  import opened Wrappers
  import opened Globals
  import opened LedMatrix
  import opened StoreNames

  /** One row of the `picycle` table. Coordinates and motion are carried, never inspected. */
  datatype Reading = Reading(latitude: real, longitude: real, altitude: real,
                             speed: real, track: real, climb: real, time: DateTime)

  /** What extracting position, altitude, movement and time from a packet gives: all of them, or `NoFixError`. */
  datatype Extraction = Fix(reading: Reading) | NoFix

  /** A `gpsd.get_current()` packet: fix mode, satellites in view, and what extraction yields. */
  datatype Packet = Packet(mode: int, sats: int, extraction: Extraction)

  /**
   * Everything one tick learns from outside: the clock, whether `create_connection` returned a
   * connection, whether CREATE TABLE and INSERT committed, and the GPS packet.
   */
  datatype TickInput = TickInput(now: DateTime, connected: bool, tableCreated: bool, packet: Packet, inserted: bool)

  /** Where the coroutine stands between two ticks. */
  datatype Phase =
    | Idle                // at the test of the outer `while`
    | Recording           // at the test of the inner `while`, holding an open connection
    | Stopped             // the outer loop has ended and the panel was cleared
    | Exited(status: int) // `sys.exit(status)` ended the process

  /** A call the recorder makes to the LED buffer, the panel, the console, a database or the clock. */
  datatype Effect =
    | Paint(colour: Rgb)              // `LED_MATRIX[16..23]` set to `colour`
    | Connect(name: string, ok: bool) // `create_connection(name)`; `ok` when it returned a connection
    | CreateTable(ok: bool)           // `execute_query(connection, SQLITE_CREATE_TABLE)`
    | ReportMode(threeD: bool)        // the status line, green when `mode == 3`, red otherwise
    | Insert(row: Reading, ok: bool)  // `execute_query(connection, SQLITE_INSERT, row)`
    | Close                           // `connection.close()`
    | ShowError                       // `SENSE.show_letter("E", red)`
    | Pause(seconds: int)             // `time.sleep(seconds)`
    | ClearDisplay                    // `SENSE.clear()`
    | Sleep                           // `await asyncio.sleep(1)`: the end of the tick

  datatype Tick = Tick(next: Phase, effects: seq<Effect>)

  /** One pass of the inner `while` body: report the mode, insert a row unless `NoFixError`, sleep. */
  function Iteration(p: Packet, inserted: bool): (e: seq<Effect>)
    ensures 2 <= |e| <= 3 && e[0] == ReportMode(p.mode == 3) && e[|e| - 1] == Sleep
    ensures p.extraction.Fix? <==> |e| == 3
    ensures p.extraction.Fix? ==> e[1] == Insert(p.extraction.reading, inserted)
  {
    [ReportMode(p.mode == 3)] +
    (match p.extraction
     case Fix(r) => [Insert(r, inserted)]
     case NoFix => []) +
    [Sleep]
  }

  /** From the outer `while` test to the next sleep (or to the end of the coroutine). */
  function OuterIteration(g: Globals, inp: TickInput): (t: Tick)
    requires ValidTime(inp.now)
    ensures t.next == Stopped <==> g.picycle != Running
    ensures t.next == Idle <==> g.picycle == Running && g.session != InProgress
    ensures t.next == Recording <==> g.picycle == Running && g.session == InProgress && inp.connected
    ensures t.next.Exited? <==> g.picycle == Running && g.session == InProgress && !inp.connected
    ensures t.next.Exited? ==> t.next.status == 1
  {
    if g.picycle != Running then Tick(Stopped, [ClearDisplay])
    else if g.session != InProgress then Tick(Idle, [Paint(White), Sleep])
    else
      var opening := [Paint(White), Paint(Blue), Connect(StoreName(inp.now), inp.connected)];
      if inp.connected then
        // the inner `while` test holds: nothing can change the globals before it
        Tick(Recording, opening + [CreateTable(inp.tableCreated)] + Iteration(inp.packet, inp.inserted))
      else
        Tick(Exited(1), opening + [ShowError, Pause(3), ClearDisplay])
  }

  /**
   * How a pass of the outer loop begins and ends: it starts by painting the status row white
   * while running, or by clearing the panel once the run is over; it ends with the tick's sleep
   * when the coroutine goes on, and with clearing the panel when the coroutine stops or exits.
   */
  lemma {:induction false} OuterIterationCalls(g: Globals, inp: TickInput)
    requires ValidTime(inp.now)
    ensures var t := OuterIteration(g, inp);
      && |t.effects| >= 1 && t.effects[0] == (if g.picycle == Running then Paint(White) else ClearDisplay)
      && ((t.next.Exited? || t.next == Stopped) <==> t.effects[|t.effects| - 1] == ClearDisplay)
      && ((t.next == Idle || t.next == Recording) <==> t.effects[|t.effects| - 1] == Sleep)
  {
  }

  /** One tick of the coroutine from `phase`; a finished coroutine does nothing. */
  function RecordTick(phase: Phase, g: Globals, inp: TickInput): (t: Tick)
    requires ValidTime(inp.now)
    ensures (phase == Stopped || phase.Exited?) <==> t.effects == []
    ensures (phase == Stopped || phase.Exited?) ==> t.next == phase
    ensures t.next == Recording ==> g.picycle == Running && g.session == InProgress
    ensures t.next == Stopped ==> phase == Stopped || g.picycle != Running
    ensures t.next == Idle ==> g.picycle == Running && g.session != InProgress
    ensures phase == Recording && t.next != Recording ==> t.effects[0] == Close
  {
    match phase
    case Idle => OuterIteration(g, inp)
    case Recording =>
      if g.picycle == Running && g.session == InProgress then
        Tick(Recording, Iteration(inp.packet, inp.inserted))
      else
        var t := OuterIteration(g, inp);
        Tick(t.next, [Close] + t.effects)
    case Stopped => Tick(phase, [])
    case Exited(_) => Tick(phase, [])
  }

  // ---------------------------------------------------------------------------------------
  // The databases
  // ---------------------------------------------------------------------------------------

  /** One connection's database: its file name, the rows committed through it, whether it is open. */
  datatype Store = Store(name: string, rows: seq<Reading>, open: bool)

  function Last(s: seq<Store>): Store
    requires |s| > 0
  {
    s[|s| - 1]
  }

  /** The last database with `row` committed to it. */
  function AppendRow(s: seq<Store>, row: Reading): (r: seq<Store>)
    requires |s| > 0
    ensures |r| == |s| && r[..|s| - 1] == s[..|s| - 1]
    ensures Last(r) == Last(s).(rows := Last(s).rows + [row])
  {
    s[..|s| - 1] + [Last(s).(rows := Last(s).rows + [row])]
  }

  /** The last database closed. */
  function CloseLast(s: seq<Store>): (r: seq<Store>)
    requires |s| > 0
    ensures |r| == |s| && r[..|s| - 1] == s[..|s| - 1]
    ensures Last(r) == Last(s).(open := false)
  {
    s[..|s| - 1] + [Last(s).(open := false)]
  }

  /** What one call does to the sequence of databases opened so far. */
  function StoreEffect(s: seq<Store>, e: Effect): seq<Store> {
    match e
    case Connect(name, ok) => if ok then s + [Store(name, [], true)] else s
    case Insert(row, ok) =>
      if ok && |s| > 0 && Last(s).open then AppendRow(s, row) else s
    case Close => if |s| > 0 then CloseLast(s) else s
    case _ => s
  }

  /** The databases after the calls `es`, in order. */
  function Storage(s: seq<Store>, es: seq<Effect>): seq<Store>
    decreases |es|
  {
    if es == [] then s else Storage(StoreEffect(s, es[0]), es[1..])
  }

  /** Every row committed so far, database by database in the order they were opened. */
  function AllRows(s: seq<Store>): seq<Reading>
    decreases |s|
  {
    if s == [] then [] else AllRows(s[..|s| - 1]) + Last(s).rows
  }

  /** The rows of the inserts among `es` that committed, in call order. */
  function Committed(es: seq<Effect>): seq<Reading>
    decreases |es|
  {
    if es == [] then []
    else (if es[0].Insert? && es[0].ok then [es[0].row] else []) + Committed(es[1..])
  }

  /** At most one database is open, and one is open exactly while the coroutine is in its inner loop. */
  predicate StoresValid(phase: Phase, s: seq<Store>) {
    && (forall i :: 0 <= i < |s| - 1 ==> !s[i].open)
    && (phase == Recording <==> |s| > 0 && Last(s).open)
  }

  // ---------------------------------------------------------------------------------------
  // The LED buffer
  // ---------------------------------------------------------------------------------------

  /** The LED buffer after the calls `es`: only `Paint` touches it. */
  function Display(m: seq<Rgb>, es: seq<Effect>): (r: seq<Rgb>)
    requires |m| == Size
    ensures |r| == Size
    decreases |es|
  {
    if es == [] then m
    else Display(if es[0].Paint? then PaintStatus(m, es[0].colour) else m, es[1..])
  }

  // ---------------------------------------------------------------------------------------
  // Properties of one tick
  // ---------------------------------------------------------------------------------------

  lemma {:induction false} StorageAppend(s: seq<Store>, a: seq<Effect>, b: seq<Effect>)
    ensures Storage(s, a + b) == Storage(Storage(s, a), b)
    decreases |a|
  {
    if a != [] {
      assert (a + b)[0] == a[0];
      assert (a + b)[1..] == a[1..] + b;
      StorageAppend(StoreEffect(s, a[0]), a[1..], b);
    } else {
      assert a + b == b;
    }
  }

  lemma {:induction false} CommittedAppend(a: seq<Effect>, b: seq<Effect>)
    ensures Committed(a + b) == Committed(a) + Committed(b)
    decreases |a|
  {
    if a != [] {
      assert (a + b)[0] == a[0];
      assert (a + b)[1..] == a[1..] + b;
      CommittedAppend(a[1..], b);
    } else {
      assert a + b == b;
    }
  }

  lemma {:induction false} DisplayAppend(m: seq<Rgb>, a: seq<Effect>, b: seq<Effect>)
    requires |m| == Size
    ensures Display(m, a + b) == Display(Display(m, a), b)
    decreases |a|
  {
    if a != [] {
      assert (a + b)[0] == a[0];
      assert (a + b)[1..] == a[1..] + b;
      DisplayAppend(if a[0].Paint? then PaintStatus(m, a[0].colour) else m, a[1..], b);
    } else {
      assert a + b == b;
    }
  }

  lemma {:induction false} AllRowsAppendRow(s: seq<Store>, row: Reading)
    requires |s| > 0
    ensures AllRows(AppendRow(s, row)) == AllRows(s) + [row]
  {
  }

  lemma {:induction false} AllRowsClose(s: seq<Store>)
    requires |s| > 0
    ensures AllRows(CloseLast(s)) == AllRows(s)
  {
  }

  /** Committing a row to the open database keeps the invariant and touches no closed database. */
  lemma {:induction false} AppendRowKeepsStores(s: seq<Store>, row: Reading)
    requires StoresValid(Recording, s)
    ensures StoresValid(Recording, AppendRow(s, row))
    ensures forall i :: 0 <= i < |s| && !s[i].open ==> AppendRow(s, row)[i] == s[i]
  {
    var r := AppendRow(s, row);
    forall i | 0 <= i < |s| - 1 ensures r[i] == s[i] {
      assert r[i] == r[..|s| - 1][i];
    }
  }

  /** Closing the open database leaves every database closed. */
  lemma {:induction false} CloseLastKeepsStores(s: seq<Store>)
    requires StoresValid(Recording, s)
    ensures StoresValid(Idle, CloseLast(s)) && StoresValid(Stopped, CloseLast(s))
    ensures forall i :: 0 <= i < |s| && !s[i].open ==> CloseLast(s)[i] == s[i]
  {
    var r := CloseLast(s);
    forall i | 0 <= i < |s| - 1 ensures r[i] == s[i] {
      assert r[i] == r[..|s| - 1][i];
    }
  }

  lemma {:induction false} AllRowsConnect(s: seq<Store>, name: string)
    ensures AllRows(s + [Store(name, [], true)]) == AllRows(s)
  {
    assert (s + [Store(name, [], true)])[..|s|] == s;
  }

  /** Calls that leave the databases alone. */
  predicate Inert(e: Effect) {
    e.Paint? || e.CreateTable? || e.ReportMode? || e.ShowError? || e.Pause? || e.ClearDisplay? || e.Sleep?
  }

  lemma {:induction false} InertStorage(s: seq<Store>, es: seq<Effect>)
    requires forall i :: 0 <= i < |es| ==> Inert(es[i])
    ensures Storage(s, es) == s && Committed(es) == []
    decreases |es|
  {
    if es != [] {
      InertStorage(s, es[1..]);
    }
  }

  /** One pass of the inner loop on an open database: at most the one fixed reading is committed. */
  lemma {:induction false} IterationStorage(s: seq<Store>, p: Packet, inserted: bool)
    requires |s| > 0 && Last(s).open
    ensures p.extraction.Fix? && inserted ==>
      Storage(s, Iteration(p, inserted)) == AppendRow(s, p.extraction.reading)
    ensures !(p.extraction.Fix? && inserted) ==> Storage(s, Iteration(p, inserted)) == s
    ensures AllRows(Storage(s, Iteration(p, inserted))) == AllRows(s) + Committed(Iteration(p, inserted))
  {
    var es := Iteration(p, inserted);
    var report := [ReportMode(p.mode == 3)];
    if p.extraction.Fix? {
      var r := p.extraction.reading;
      assert es == report + [Insert(r, inserted)] + [Sleep];
      InsertStorage(s, report, r, inserted);
      if inserted { AllRowsAppendRow(s, r); }
    } else {
      assert es == report + [Sleep];
      assert forall i :: 0 <= i < |es| ==> Inert(es[i]);
      InertStorage(s, es);
    }
  }

  /** A pass of the inner loop keeps the open database open and every other database as it was. */
  lemma {:induction false} IterationKeepsStores(s: seq<Store>, p: Packet, inserted: bool)
    requires StoresValid(Recording, s)
    ensures var s' := Storage(s, Iteration(p, inserted));
      && |s'| == |s| && StoresValid(Recording, s') && Last(s').name == Last(s).name
      && forall i :: 0 <= i < |s| && !s[i].open ==> s'[i] == s[i]
  {
    IterationStorage(s, p, inserted);
    if p.extraction.Fix? && inserted {
      AppendRowKeepsStores(s, p.extraction.reading);
    }
  }

  lemma {:induction false} InsertStorage(s: seq<Store>, report: seq<Effect>, r: Reading, inserted: bool)
    requires |s| > 0 && Last(s).open
    requires forall i :: 0 <= i < |report| ==> Inert(report[i])
    ensures inserted ==> Storage(s, report + [Insert(r, inserted)] + [Sleep]) == AppendRow(s, r)
    ensures !inserted ==> Storage(s, report + [Insert(r, inserted)] + [Sleep]) == s
    ensures Committed(report + [Insert(r, inserted)] + [Sleep]) == if inserted then [r] else []
  {
    var s' := StoreEffect(s, Insert(r, inserted));
    StorageAppend(s, report + [Insert(r, inserted)], [Sleep]);
    StorageAppend(s, report, [Insert(r, inserted)]);
    InertStorage(s, report);
    InertStorage(s', [Sleep]);
    assert Storage(s, [Insert(r, inserted)]) == Storage(s', []) == s';
    CommittedAppend(report + [Insert(r, inserted)], [Sleep]);
    CommittedAppend(report, [Insert(r, inserted)]);
    assert Committed([Insert(r, inserted)]) == (if inserted then [r] else []) + Committed([]);
  }

  /** The opening calls of a session touch the databases only through `create_connection`. */
  lemma {:induction false} OpeningStorage(s: seq<Store>, name: string, ok: bool)
    ensures Storage(s, [Paint(White), Paint(Blue), Connect(name, ok)]) == if ok then s + [Store(name, [], true)] else s
    ensures Committed([Paint(White), Paint(Blue), Connect(name, ok)]) == []
  {
    var paints := [Paint(White), Paint(Blue)];
    assert [Paint(White), Paint(Blue), Connect(name, ok)] == paints + [Connect(name, ok)];
    InertStorage(s, paints);
    StorageAppend(s, paints, [Connect(name, ok)]);
    CommittedAppend(paints, [Connect(name, ok)]);
    assert Storage(s, [Connect(name, ok)]) == Storage(StoreEffect(s, Connect(name, ok)), []);
  }

  /** What every tick guarantees about the databases, from `s` before it to after it. */
  ghost predicate KeepsStores(s: seq<Store>, t: Tick, now: DateTime)
    requires ValidTime(now)
  {
    var s' := Storage(s, t.effects);
    && StoresValid(t.next, s')
    && |s| <= |s'| <= |s| + 1
    && (forall i :: 0 <= i < |s| && !s[i].open ==> s'[i] == s[i])
    && (|s'| == |s| + 1 ==> Last(s').name == StoreName(now) && t.next == Recording)
    && AllRows(s') == AllRows(s) + Committed(t.effects)
  }

  /**
   * The database invariant survives every tick, whatever the globals are: at most one database
   * is open, it is open exactly while the coroutine is in its inner loop (so every database is
   * closed before the next is opened), a closed database is never touched again, a new database
   * is named after the tick's clock, and the rows committed across all databases grow by exactly
   * the tick's committed inserts, in call order.
   */
  lemma {:induction false} TickKeepsStores(phase: Phase, g: Globals, inp: TickInput, s: seq<Store>)
    requires ValidTime(inp.now) && StoresValid(phase, s)
    ensures KeepsStores(s, RecordTick(phase, g, inp), inp.now)
  {
    match phase
    case Idle =>
      OuterKeepsStores(g, inp, s);
    case Recording =>
      if g.picycle == Running && g.session == InProgress {
        ContinueKeepsStores(inp, s);
      } else {
        LeaveKeepsStores(g, inp, s);
      }
    case Stopped =>
    case Exited(_) =>
  }

  lemma {:induction false} ContinueKeepsStores(inp: TickInput, s: seq<Store>)
    requires ValidTime(inp.now) && StoresValid(Recording, s)
    ensures KeepsStores(s, Tick(Recording, Iteration(inp.packet, inp.inserted)), inp.now)
  {
    IterationStorage(s, inp.packet, inp.inserted);
    if inp.packet.extraction.Fix? && inp.inserted {
      AppendRowKeepsStores(s, inp.packet.extraction.reading);
    }
  }

  lemma {:induction false} LeaveKeepsStores(g: Globals, inp: TickInput, s: seq<Store>)
    requires ValidTime(inp.now) && StoresValid(Recording, s)
    requires !(g.picycle == Running && g.session == InProgress)
    ensures KeepsStores(s, RecordTick(Recording, g, inp), inp.now)
  {
    var o := OuterIteration(g, inp);
    assert o.effects == [ClearDisplay] || o.effects == [Paint(White), Sleep];
    var closed := CloseLast(s);
    assert Storage(s, [Close]) == Storage(closed, []) == closed;
    CloseLastKeepsStores(s);
    StorageAppend(s, [Close], o.effects);
    CommittedAppend([Close], o.effects);
    InertStorage(closed, o.effects);
    AllRowsClose(s);
    assert Committed([Close]) == [] + Committed([]);
  }

  lemma {:induction false} OuterKeepsStores(g: Globals, inp: TickInput, s: seq<Store>)
    requires ValidTime(inp.now) && StoresValid(Idle, s)
    ensures KeepsStores(s, OuterIteration(g, inp), inp.now)
  {
    var t := OuterIteration(g, inp);
    if g.picycle != Running || g.session != InProgress {
      InertStorage(s, t.effects);
    } else if inp.connected {
      ConnectKeepsStores(inp, s);
    } else {
      var name := StoreName(inp.now);
      var opening := [Paint(White), Paint(Blue), Connect(name, false)];
      var tail := [ShowError, Pause(3), ClearDisplay];
      assert t.effects == opening + tail;
      OpeningStorage(s, name, false);
      StorageAppend(s, opening, tail);
      InertStorage(s, tail);
      CommittedAppend(opening, tail);
    }
  }

  /** A successful `create_connection` opens one new database, named after the clock, and records into it. */
  lemma {:induction false} ConnectKeepsStores(inp: TickInput, s: seq<Store>)
    requires ValidTime(inp.now) && StoresValid(Idle, s) && inp.connected
    ensures KeepsStores(s, OuterIteration(Globals(Running, InProgress), inp), inp.now)
  {
    var name := StoreName(inp.now);
    var started := s + [Store(name, [], true)];
    var iteration := Iteration(inp.packet, inp.inserted);
    ConnectTrace(inp, s);
    OpenKeepsStores(s, name);
    IterationStorage(started, inp.packet, inp.inserted);
    IterationKeepsStores(started, inp.packet, inp.inserted);
    AllRowsConnect(s, name);
    var s' := Storage(started, iteration);
    assert forall i :: 0 <= i < |s| ==> s'[i] == started[i] == s[i];
  }

  /** Opening a database when none is open leaves exactly the new one open. */
  lemma {:induction false} OpenKeepsStores(s: seq<Store>, name: string)
    requires StoresValid(Idle, s)
    ensures var started := s + [Store(name, [], true)];
      && StoresValid(Recording, started) && Last(started).name == name
      && forall i :: 0 <= i < |s| ==> started[i] == s[i]
  {
    var started := s + [Store(name, [], true)];
    assert forall i :: 0 <= i < |s| ==> started[i] == s[i];
  }

  /** The calls of a session start that connects: the database is added, then the first pass runs on it. */
  lemma {:induction false} ConnectTrace(inp: TickInput, s: seq<Store>)
    requires ValidTime(inp.now) && inp.connected
    ensures var t := OuterIteration(Globals(Running, InProgress), inp);
      var started := s + [Store(StoreName(inp.now), [], true)];
      && t.next == Recording
      && Storage(s, t.effects) == Storage(started, Iteration(inp.packet, inp.inserted))
      && Committed(t.effects) == Committed(Iteration(inp.packet, inp.inserted))
  {
    var t := OuterIteration(Globals(Running, InProgress), inp);
    var name := StoreName(inp.now);
    var opening := [Paint(White), Paint(Blue), Connect(name, true)];
    var started := s + [Store(name, [], true)];
    var create := [CreateTable(inp.tableCreated)];
    var iteration := Iteration(inp.packet, inp.inserted);
    assert t.effects == opening + (create + iteration);
    OpeningStorage(s, name, true);
    StorageAppend(s, opening, create + iteration);
    StorageAppend(started, create, iteration);
    InertStorage(started, create);
    CommittedAppend(opening, create + iteration);
    CommittedAppend(create, iteration);
  }

  /** Calls that touch the GPS or a database. */
  predicate Records(e: Effect) {
    e.Connect? || e.CreateTable? || e.ReportMode? || e.Insert?
  }

  /**
   * Recording is gated on the globals: a tick that opens a database, polls the GPS or inserts
   * does so only while running with a session in progress. An outer iteration with no session
   * in progress only paints the status row white and sleeps.
   */
  lemma {:induction false} TickGatedOnSession(phase: Phase, g: Globals, inp: TickInput)
    requires ValidTime(inp.now)
    ensures var es := RecordTick(phase, g, inp).effects;
      forall i :: 0 <= i < |es| && Records(es[i]) ==> g.picycle == Running && g.session == InProgress
    ensures phase == Idle && g.picycle == Running && g.session != InProgress ==>
      RecordTick(phase, g, inp) == Tick(Idle, [Paint(White), Sleep])
  {
    var t := RecordTick(phase, g, inp);
    if !(g.picycle == Running && g.session == InProgress) && phase == Recording {
      var o := OuterIteration(g, inp);
      assert t.effects == [Close] + o.effects;
    }
  }

  /** A tick inserts at most one row. */
  lemma {:induction false} AtMostOneInsert(phase: Phase, g: Globals, inp: TickInput)
    requires ValidTime(inp.now)
    ensures var es := RecordTick(phase, g, inp).effects;
      forall i, j :: 0 <= i < j < |es| && es[i].Insert? ==> !es[j].Insert?
  {
  }

  /**
   * `NoFixError` inside a session skips the insert and nothing else: the coroutine stays in
   * its inner loop, the database stays open and unchanged.
   */
  lemma {:induction false} NoFixKeepsSession(g: Globals, inp: TickInput, s: seq<Store>)
    requires ValidTime(inp.now) && StoresValid(Recording, s)
    requires g == Globals(Running, InProgress) && inp.packet.extraction.NoFix?
    ensures var t := RecordTick(Recording, g, inp);
      t == Tick(Recording, [ReportMode(inp.packet.mode == 3), Sleep]) && Storage(s, t.effects) == s
  {
    IterationStorage(s, inp.packet, inp.inserted);
  }

  /**
   * The only way the recorder ends the process: a session is about to start and
   * `create_connection` gives no connection. It shows the error letter, waits three seconds,
   * clears the panel and exits with status 1. Failed CREATE TABLE and INSERT never end a
   * session: where the coroutine goes next does not depend on them, nor on the packet.
   */
  lemma {:induction false} OnlyConnectFailureIsFatal(phase: Phase, g: Globals, inp: TickInput)
    requires ValidTime(inp.now)
    requires phase == Idle || phase == Recording
    ensures var t := RecordTick(phase, g, inp);
      t.next.Exited? <==> phase == Idle && g == Globals(Running, InProgress) && !inp.connected
    ensures var t := RecordTick(phase, g, inp); t.next.Exited? ==>
      t == Tick(Exited(1), [Paint(White), Paint(Blue), Connect(StoreName(inp.now), false), ShowError, Pause(3), ClearDisplay])
    ensures forall tableCreated, packet, inserted ::
      RecordTick(phase, g, inp.(tableCreated := tableCreated, packet := packet, inserted := inserted)).next == RecordTick(phase, g, inp).next
  {
  }

  /** Two call sequences that agree everywhere except, possibly, in the colour of a status line. */
  predicate DifferOnlyInReport(a: seq<Effect>, b: seq<Effect>) {
    && |a| == |b|
    && forall i :: 0 <= i < |a| && a[i] != b[i] ==> a[i].ReportMode? && b[i].ReportMode?
  }

  lemma {:induction false} PrefixDifferOnlyInReport(x: seq<Effect>, a: seq<Effect>, b: seq<Effect>)
    requires DifferOnlyInReport(a, b)
    ensures DifferOnlyInReport(x + a, x + b)
  {
    forall i | 0 <= i < |x + a| && (x + a)[i] != (x + b)[i]
      ensures (x + a)[i].ReportMode? && (x + b)[i].ReportMode?
    {
      assert i >= |x| && (x + a)[i] == a[i - |x|] && (x + b)[i] == b[i - |x|];
    }
  }

  lemma {:induction false} IterationModeOnly(p: Packet, inserted: bool, mode: int)
    ensures DifferOnlyInReport(Iteration(p, inserted), Iteration(p.(mode := mode), inserted))
  {
    var a, b := Iteration(p, inserted), Iteration(p.(mode := mode), inserted);
    assert a[1..] == b[1..];
    forall i | 0 < i < |a| ensures a[i] == b[i] {
      assert a[i] == a[1..][i - 1];
    }
  }

  lemma {:induction false} OuterModeOnly(g: Globals, inp: TickInput, mode: int)
    requires ValidTime(inp.now)
    ensures var t := OuterIteration(g, inp);
      var t' := OuterIteration(g, inp.(packet := inp.packet.(mode := mode)));
      t.next == t'.next && DifferOnlyInReport(t.effects, t'.effects)
  {
    var inp' := inp.(packet := inp.packet.(mode := mode));
    if g.picycle == Running && g.session == InProgress && inp.connected {
      var opening := [Paint(White), Paint(Blue), Connect(StoreName(inp.now), true), CreateTable(inp.tableCreated)];
      assert OuterIteration(g, inp).effects == opening + Iteration(inp.packet, inp.inserted);
      assert OuterIteration(g, inp').effects == opening + Iteration(inp'.packet, inp.inserted);
      IterationModeOnly(inp.packet, inp.inserted, mode);
      PrefixDifferOnlyInReport(opening, Iteration(inp.packet, inp.inserted), Iteration(inp'.packet, inp.inserted));
    }
  }

  /** The packet's mode only picks the colour of the status line: everything else the tick does is the same. */
  lemma {:induction false} ModeOnlyColoursReport(phase: Phase, g: Globals, inp: TickInput, mode: int)
    requires ValidTime(inp.now)
    ensures var t := RecordTick(phase, g, inp);
      var t' := RecordTick(phase, g, inp.(packet := inp.packet.(mode := mode)));
      && t.next == t'.next
      && |t.effects| == |t'.effects|
      && forall i :: 0 <= i < |t.effects| && t.effects[i] != t'.effects[i] ==>
           t.effects[i].ReportMode? && t'.effects[i].ReportMode?
  {
    var inp' := inp.(packet := inp.packet.(mode := mode));
    match phase {
      case Idle =>
        OuterModeOnly(g, inp, mode);
      case Recording =>
        if g.picycle == Running && g.session == InProgress {
          IterationModeOnly(inp.packet, inp.inserted, mode);
        } else {
          OuterModeOnly(g, inp, mode);
          PrefixDifferOnlyInReport([Close], OuterIteration(g, inp).effects, OuterIteration(g, inp').effects);
        }
      case Stopped =>
      case Exited(_) =>
    }
  }

  /**
   * Order within a tick: every outer iteration that runs begins by painting the status row
   * white; a database is only ever opened by an outer iteration, right after the row was
   * painted white and then blue. In particular a tick that starts inside a session never opens
   * a database: the next one opens at a later tick, after this one was closed.
   */
  lemma {:induction false} PaintsBeforeOpening(phase: Phase, g: Globals, inp: TickInput)
    requires ValidTime(inp.now)
    ensures var es := RecordTick(phase, g, inp).effects;
      forall k :: 0 <= k < |es| && es[k].Connect? ==>
        phase == Idle && k == 2 && es[0] == Paint(White) && es[1] == Paint(Blue)
    ensures phase == Idle && g.picycle == Running ==> RecordTick(phase, g, inp).effects[0] == Paint(White)
    ensures phase == Recording && g.picycle == Running && g.session != InProgress ==>
      RecordTick(phase, g, inp).effects == [Close, Paint(White), Sleep]
  {
    var t := RecordTick(phase, g, inp);
    if phase == Recording && !(g.picycle == Running && g.session == InProgress) {
      var o := OuterIteration(g, inp);
      assert t.effects == [Close] + o.effects;
      assert o.effects == [ClearDisplay] || o.effects == [Paint(White), Sleep];
    }
  }

  /** Whatever calls it makes, the recorder only ever writes the status row of the buffer. */
  lemma {:induction false} DisplayOnlyStatusRow(m: seq<Rgb>, es: seq<Effect>)
    requires |m| == Size
    ensures forall i :: 0 <= i < Size && !InStatusRow(i) ==> Display(m, es)[i] == m[i]
    decreases |es|
  {
    if es != [] {
      var m' := if es[0].Paint? then PaintStatus(m, es[0].colour) else m;
      DisplayOnlyStatusRow(m', es[1..]);
    }
  }

  /**
   * After a tick of the outer loop while running, the status row is white when no session is
   * in progress and blue when one is (whether or not the database then opened); the rest of
   * the buffer is as before.
   */
  lemma {:induction false} OuterTickStatusRow(g: Globals, inp: TickInput, m: seq<Rgb>)
    requires ValidTime(inp.now) && |m| == Size && g.picycle == Running
    ensures Display(m, RecordTick(Idle, g, inp).effects) ==
      PaintStatus(m, if g.session == InProgress then Blue else White)
  {
    var es := RecordTick(Idle, g, inp).effects;
    var white := PaintStatus(m, White);
    if g.session != InProgress {
      assert Display(m, es) == Display(white, [Sleep]) == Display(white, []);
    } else {
      var paints := [Paint(White), Paint(Blue)];
      var rest := es[2..];
      assert es == paints + rest;
      DisplayAppend(m, paints, rest);
      var blue := PaintStatus(white, Blue);
      assert Display(m, paints) == Display(white, [Paint(Blue)]) == Display(blue, []);
      assert blue == PaintStatus(m, Blue);
      DisplayNoPaint(blue, rest);
    }
  }

  lemma {:induction false} DisplayNoPaint(m: seq<Rgb>, es: seq<Effect>)
    requires |m| == Size && forall i :: 0 <= i < |es| ==> !es[i].Paint?
    ensures Display(m, es) == m
    decreases |es|
  {
    if es != [] {
      DisplayNoPaint(m, es[1..]);
    }
  }

  // ---------------------------------------------------------------------------------------
  // Many ticks
  // ---------------------------------------------------------------------------------------

  /** What one tick of the recorder sees: the globals at that moment and the outside world's answers. */
  datatype Moment = Moment(globals: Globals, input: TickInput)

  predicate ValidMoments(ms: seq<Moment>) {
    forall i :: 0 <= i < |ms| ==> ValidTime(ms[i].input.now)
  }

  /** The coroutine's position and every call it made after the ticks `ms`, from `phase`. */
  function Run(phase: Phase, ms: seq<Moment>): (r: Tick)
    requires ValidMoments(ms)
    decreases |ms|
  {
    if ms == [] then Tick(phase, [])
    else
      var before := Run(phase, ms[..|ms| - 1]);
      var t := RecordTick(before.next, ms[|ms| - 1].globals, ms[|ms| - 1].input);
      Tick(t.next, before.effects + t.effects)
  }

  /**
   * Over any run, whatever the button presses and signals between ticks: at most one database
   * is open, and it is open exactly while the coroutine is in its inner loop; and the rows in
   * the databases are exactly the committed inserts, in the order they were made.
   */
  lemma {:induction false} RunKeepsStores(ms: seq<Moment>)
    requires ValidMoments(ms)
    ensures var r := Run(Idle, ms); var s := Storage([], r.effects);
      StoresValid(r.next, s) && AllRows(s) == Committed(r.effects)
    decreases |ms|
  {
    if ms != [] {
      var front := ms[..|ms| - 1];
      assert ValidMoments(front) by {
        forall i | 0 <= i < |front| ensures ValidTime(front[i].input.now) {
          assert front[i] == ms[i];
        }
      }
      RunKeepsStores(front);
      var before := Run(Idle, front);
      var m := ms[|ms| - 1];
      var t := RecordTick(before.next, m.globals, m.input);
      var s := Storage([], before.effects);
      TickKeepsStores(before.next, m.globals, m.input, s);
      StorageAppend([], before.effects, t.effects);
      CommittedAppend(before.effects, t.effects);
    }
  }
}
