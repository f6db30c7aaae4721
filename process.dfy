/**
 * The running recorder as one object: the two globals, the shared LED buffer, where each of
 * the three coroutines stands, and the databases opened so far. The joystick callbacks, the
 * SIGTERM handler and one tick of each coroutine are its methods. The event loop runs one of
 * them at a time, each up to its next `await asyncio.sleep(1)`, and callbacks land between
 * ticks, so any order of calls is a possible run; `Valid` holds across all of them.
 */
module Process {
  import opened Wrappers
  import opened Globals
  import opened LedMatrix
  import opened StoreNames
  import opened Recorder

  /** Appending one call to a trace: its effect on the databases and on the LED buffer. */
  lemma {:induction false} TraceStep(s: seq<Store>, m: seq<Rgb>, es: seq<Effect>, e: Effect)
    requires |m| == Size
    ensures Storage(s, es + [e]) == StoreEffect(Storage(s, es), e)
    ensures Display(m, es + [e]) == if e.Paint? then PaintStatus(Display(m, es), e.colour) else Display(m, es)
  {
    StorageAppend(s, es, [e]);
    DisplayAppend(m, es, [e]);
    assert [e][1..] == [];
  }

  /**
   * A tick of the recorder keeps the databases equal to what the whole trace of calls made of
   * them, consistent with where the coroutine stands, and holding exactly the committed rows.
   * The coroutine only stops when the run was terminated.
   */
  lemma {:induction false} StepKeepsStores(phase: Phase, g: Globals, inp: TickInput, c0: seq<Effect>)
    requires ValidTime(inp.now)
    requires StoresValid(phase, Storage([], c0)) && AllRows(Storage([], c0)) == Committed(c0)
    requires phase == Stopped ==> g.picycle == Terminate
    ensures var t := RecordTick(phase, g, inp); var s := Storage([], c0 + t.effects);
      && s == Storage(Storage([], c0), t.effects)
      && StoresValid(t.next, s)
      && AllRows(s) == Committed(c0 + t.effects)
      && (t.next == Stopped ==> g.picycle == Terminate)
  {
    var t := RecordTick(phase, g, inp);
    TickKeepsStores(phase, g, inp, Storage([], c0));
    StorageAppend([], c0, t.effects);
    CommittedAppend(c0, t.effects);
  }

  /**
   * Regrouping a trace of calls. Stated once, so that the methods below can cite it instead of
   * leaving the solver to rediscover it in their large contexts.
   */
  lemma {:induction false} Associative(a: seq<Effect>, b: seq<Effect>, c: seq<Effect>)
    ensures a + b + c == a + (b + c)
  {
  }

  class Picycle {
    /** `PICYCLE_STATE` */
    var picycle: PicycleState
    /** `SESSION_STATE` */
    var session: SessionState
    /** `LED_MATRIX`: the 64 colours the panel shows at the next refresh. */
    const led: array<Rgb>
    /** `loop_led_matrix_update` has not yet left its loop. */
    var refreshing: bool
    /** `loop_track_satellites` has not yet left its loop. */
    var tracking: bool
    /** Where `loop_record_track` stands. */
    var recorder: Phase
    /** Every database opened so far, in order. */
    var stores: seq<Store>
    /** Every call the recorder has made so far. */
    ghost var calls: seq<Effect>

    function State(): Globals
      reads this
    {
      Globals(picycle, session)
    }

    /**
     * The buffer has 64 cells; the databases are what the recorder's calls made of them, at most
     * one is open and only while the recorder is inside a session, and they hold exactly the rows
     * whose inserts committed. A loop that has ended did so because the run was terminated.
     */
    ghost predicate Valid()
      reads this, led
    {
      && led.Length == Size
      && stores == Storage([], calls)
      && StoresValid(recorder, stores)
      && AllRows(stores) == Committed(calls)
      && (!refreshing ==> picycle == Terminate)
      && (!tracking ==> picycle == Terminate)
      && (recorder == Stopped ==> picycle == Terminate)
    }

    /** The module's import-time state: running, no session, a dark buffer, no database. */
    constructor ()
      ensures Valid() && fresh(led)
      ensures State() == Initial && led[..] == Blank()
      ensures refreshing && tracking && recorder == Idle && stores == [] && calls == []
    {
      picycle, session := Running, Ready;
      led := new Rgb[Size](_ => Off);
      refreshing, tracking := true, true;
      recorder := Idle;
      stores, calls := [], [];
    }

    /** `pushed_left`: a press starts a session. */
    method PushedLeft(action: Action)
      requires Valid()
      modifies this
      ensures Valid() && State() == Handle(old(State()), Left(action))
      ensures refreshing == old(refreshing) && tracking == old(tracking) && recorder == old(recorder)
      ensures stores == old(stores) && calls == old(calls)
    {
      if action == Pressed {
        session := InProgress;
      }
    }

    /** `pushed_right`: a press ends the session. */
    method PushedRight(action: Action)
      requires Valid()
      modifies this
      ensures Valid() && State() == Handle(old(State()), Right(action))
      ensures refreshing == old(refreshing) && tracking == old(tracking) && recorder == old(recorder)
      ensures stores == old(stores) && calls == old(calls)
    {
      if action == Pressed {
        session := Ready;
      }
    }

    /** `pushed_down`: a press terminates the run. */
    method PushedDown(action: Action)
      requires Valid()
      modifies this
      ensures Valid() && State() == Handle(old(State()), Down(action))
      ensures refreshing == old(refreshing) && tracking == old(tracking) && recorder == old(recorder)
      ensures stores == old(stores) && calls == old(calls)
    {
      if action == Pressed {
        picycle := Terminate;
      }
    }

    /** `sigterm_handler`: terminates the run. */
    method SigtermHandler()
      requires Valid()
      modifies this
      ensures Valid() && State() == Handle(old(State()), SigTerm)
      ensures refreshing == old(refreshing) && tracking == old(tracking) && recorder == old(recorder)
      ensures stores == old(stores) && calls == old(calls)
    {
      picycle := Terminate;
    }

    /**
     * One tick of `loop_led_matrix_update`: while running, the whole buffer goes to the panel;
     * otherwise the loop ends. The buffer itself is only read.
     */
    method LedMatrixUpdateTick() returns (frame: Option<seq<Rgb>>)
      requires Valid()
      modifies this
      ensures Valid() && State() == old(State())
      ensures refreshing == (old(refreshing) && picycle == Running)
      ensures frame == if refreshing then Some(led[..]) else None
      ensures tracking == old(tracking) && recorder == old(recorder)
      ensures stores == old(stores) && calls == old(calls)
    {
      if refreshing && picycle == Running {
        frame := Some(led[..]);
      } else {
        refreshing := false;
        frame := None;
      }
    }

    /**
     * One tick of `loop_track_satellites`: while running, the satellites in view are drawn on
     * the top two rows; otherwise the loop ends and the buffer is left alone.
     */
    method TrackSatellitesTick(sats: int)
      requires Valid()
      modifies this, led
      ensures Valid() && State() == old(State())
      ensures tracking == (old(tracking) && picycle == Running)
      ensures led[..] == if tracking then PaintSatellites(old(led[..]), sats) else old(led[..])
      ensures refreshing == old(refreshing) && recorder == old(recorder)
      ensures stores == old(stores) && calls == old(calls)
    {
      if tracking && picycle == Running {
        TrackSatellites(led, sats);
      } else {
        tracking := false;
      }
    }

    /**
     * Makes the call `e`: a paint fills the status row, a database call changes the databases,
     * and the call joins the trace `done` of this tick, which started from `s0`, `m0` and `c0`.
     */
    method Emit(ghost s0: seq<Store>, ghost m0: seq<Rgb>, ghost c0: seq<Effect>, done: seq<Effect>, e: Effect)
      returns (done': seq<Effect>)
      requires led.Length == Size && |m0| == Size
      requires stores == Storage(s0, done) && led[..] == Display(m0, done) && calls == c0 + done
      modifies this, led
      ensures done' == done + [e]
      ensures stores == Storage(s0, done') && led[..] == Display(m0, done') && calls == c0 + done'
      ensures State() == old(State()) && refreshing == old(refreshing) && tracking == old(tracking)
      ensures recorder == old(recorder)
    {
      TraceStep(s0, m0, done, e);
      match e {
        case Paint(colour) => PaintStatusRow(led, colour);
        case Connect(name, ok) => if ok { stores := stores + [Store(name, [], true)]; }
        case Insert(row, ok) =>
          if ok && |stores| > 0 && Last(stores).open {
            stores := AppendRow(stores, row);
          }
        case Close => if |stores| > 0 { stores := CloseLast(stores); }
        case _ =>
      }
      calls := calls + [e];
      done' := done + [e];
      assert calls == c0 + done';
    }

    /** One pass of the inner loop: report the fix mode, insert a row unless there is no fix, sleep. */
    method InnerIteration(ghost s0: seq<Store>, ghost m0: seq<Rgb>, ghost c0: seq<Effect>, done: seq<Effect>, inp: TickInput)
      returns (done': seq<Effect>)
      requires led.Length == Size && |m0| == Size
      requires stores == Storage(s0, done) && led[..] == Display(m0, done) && calls == c0 + done
      modifies this, led
      ensures done' == done + Iteration(inp.packet, inp.inserted)
      ensures stores == Storage(s0, done') && led[..] == Display(m0, done') && calls == c0 + done'
      ensures State() == old(State()) && refreshing == old(refreshing) && tracking == old(tracking)
      ensures recorder == old(recorder)
    {
      var packet := inp.packet;
      done' := Emit(s0, m0, c0, done, ReportMode(packet.mode == 3));
      match packet.extraction {
        case Fix(reading) => done' := Emit(s0, m0, c0, done', Insert(reading, inp.inserted));
        case NoFix =>
      }
      done' := Emit(s0, m0, c0, done', Sleep);
    }

    /** From the test of the outer loop to the next sleep, or to the end of the coroutine. */
    method OuterIteration(ghost s0: seq<Store>, ghost m0: seq<Rgb>, ghost c0: seq<Effect>, done: seq<Effect>, inp: TickInput)
      returns (done': seq<Effect>)
      requires ValidTime(inp.now)
      requires led.Length == Size && |m0| == Size
      requires stores == Storage(s0, done) && led[..] == Display(m0, done) && calls == c0 + done
      modifies this, led
      ensures recorder == Recorder.OuterIteration(State(), inp).next
      ensures done' == done + Recorder.OuterIteration(State(), inp).effects
      ensures stores == Storage(s0, done') && led[..] == Display(m0, done') && calls == c0 + done'
      ensures State() == old(State()) && refreshing == old(refreshing) && tracking == old(tracking)
    {
      if picycle != Running {
        done' := Emit(s0, m0, c0, done, ClearDisplay);
        recorder := Stopped;
      } else if session != InProgress {
        done' := Emit(s0, m0, c0, done, Paint(White));
        done' := Emit(s0, m0, c0, done', Sleep);
        recorder := Idle;
      } else {
        done' := StartSession(s0, m0, c0, done, inp);
      }
    }

    /**
     * The outer loop's body once a session is wanted: paint the status row white then blue, open
     * the database named after the clock, and either create its table and make the first pass of
     * the inner loop, or show the error and exit with status 1.
     */
    method StartSession(ghost s0: seq<Store>, ghost m0: seq<Rgb>, ghost c0: seq<Effect>, done: seq<Effect>, inp: TickInput)
      returns (done': seq<Effect>)
      requires ValidTime(inp.now) && picycle == Running && session == InProgress
      requires led.Length == Size && |m0| == Size
      requires stores == Storage(s0, done) && led[..] == Display(m0, done) && calls == c0 + done
      modifies this, led
      ensures recorder == Recorder.OuterIteration(State(), inp).next
      ensures done' == done + Recorder.OuterIteration(State(), inp).effects
      ensures stores == Storage(s0, done') && led[..] == Display(m0, done') && calls == c0 + done'
      ensures State() == old(State()) && refreshing == old(refreshing) && tracking == old(tracking)
    {
      var name := StoreName(inp.now);
      ghost var opening := [Paint(White), Paint(Blue), Connect(name, inp.connected)];
      ghost var t := Recorder.OuterIteration(State(), inp);
      done' := Open(s0, m0, c0, done, name, inp.connected);
      if inp.connected {
        ghost var rest := [CreateTable(inp.tableCreated)] + Iteration(inp.packet, inp.inserted);
        assert t == Tick(Recording, opening + rest);
        done' := Record(s0, m0, c0, done', inp);
        Associative(done, opening, rest);
      } else {
        ghost var rest := [ShowError, Pause(3), ClearDisplay];
        assert t == Tick(Exited(1), opening + rest);
        done' := Fail(s0, m0, c0, done');
        Associative(done, opening, rest);
      }
    }

    /** Paint the status row white then blue, and try to open the database `name`. */
    method Open(ghost s0: seq<Store>, ghost m0: seq<Rgb>, ghost c0: seq<Effect>, done: seq<Effect>, name: string, connected: bool)
      returns (done': seq<Effect>)
      requires led.Length == Size && |m0| == Size
      requires stores == Storage(s0, done) && led[..] == Display(m0, done) && calls == c0 + done
      modifies this, led
      ensures done' == done + [Paint(White), Paint(Blue), Connect(name, connected)]
      ensures stores == Storage(s0, done') && led[..] == Display(m0, done') && calls == c0 + done'
      ensures State() == old(State()) && refreshing == old(refreshing) && tracking == old(tracking)
      ensures recorder == old(recorder)
    {
      done' := Emit(s0, m0, c0, done, Paint(White));
      done' := Emit(s0, m0, c0, done', Paint(Blue));
      done' := Emit(s0, m0, c0, done', Connect(name, connected));
    }

    /** The database opened: create the table and make the first pass of the inner loop. */
    method Record(ghost s0: seq<Store>, ghost m0: seq<Rgb>, ghost c0: seq<Effect>, done: seq<Effect>, inp: TickInput)
      returns (done': seq<Effect>)
      requires led.Length == Size && |m0| == Size
      requires stores == Storage(s0, done) && led[..] == Display(m0, done) && calls == c0 + done
      modifies this, led
      ensures recorder == Recording
      ensures done' == done + ([CreateTable(inp.tableCreated)] + Iteration(inp.packet, inp.inserted))
      ensures stores == Storage(s0, done') && led[..] == Display(m0, done') && calls == c0 + done'
      ensures State() == old(State()) && refreshing == old(refreshing) && tracking == old(tracking)
    {
      done' := Emit(s0, m0, c0, done, CreateTable(inp.tableCreated));
      recorder := Recording;
      done' := InnerIteration(s0, m0, c0, done', inp);
      Associative(done, [CreateTable(inp.tableCreated)], Iteration(inp.packet, inp.inserted));
    }

    /** No connection: show the error letter, wait three seconds, clear the panel, exit with status 1. */
    method Fail(ghost s0: seq<Store>, ghost m0: seq<Rgb>, ghost c0: seq<Effect>, done: seq<Effect>)
      returns (done': seq<Effect>)
      requires led.Length == Size && |m0| == Size
      requires stores == Storage(s0, done) && led[..] == Display(m0, done) && calls == c0 + done
      modifies this, led
      ensures recorder == Exited(1)
      ensures done' == done + [ShowError, Pause(3), ClearDisplay]
      ensures stores == Storage(s0, done') && led[..] == Display(m0, done') && calls == c0 + done'
      ensures State() == old(State()) && refreshing == old(refreshing) && tracking == old(tracking)
    {
      done' := Emit(s0, m0, c0, done, ShowError);
      done' := Emit(s0, m0, c0, done', Pause(3));
      done' := Emit(s0, m0, c0, done', ClearDisplay);
      recorder := Exited(1);
    }

    /** The calls of one tick of `loop_record_track`, made one after the other. */
    method Step(ghost s0: seq<Store>, ghost m0: seq<Rgb>, ghost c0: seq<Effect>, inp: TickInput)
      returns (effects: seq<Effect>)
      requires ValidTime(inp.now)
      requires led.Length == Size && |m0| == Size
      requires stores == s0 && led[..] == m0 && calls == c0
      modifies this, led
      ensures recorder == RecordTick(old(recorder), State(), inp).next
      ensures effects == RecordTick(old(recorder), State(), inp).effects
      ensures stores == Storage(s0, effects) && led[..] == Display(m0, effects) && calls == c0 + effects
      ensures State() == old(State()) && refreshing == old(refreshing) && tracking == old(tracking)
    {
      effects := [];
      assert calls == c0 + effects;
      match recorder {
        case Idle =>
          effects := OuterIteration(s0, m0, c0, effects, inp);
        case Recording =>
          if picycle == Running && session == InProgress {
            effects := InnerIteration(s0, m0, c0, effects, inp);
          } else {
            effects := Emit(s0, m0, c0, effects, Close);
            effects := OuterIteration(s0, m0, c0, effects, inp);
          }
        case Stopped =>
        case Exited(_) =>
      }
    }

    /**
     * One tick of `loop_record_track`. Inside a session it makes one pass of the inner loop
     * while running with the session in progress; otherwise it closes the database and goes on
     * with the outer loop. The tick does exactly what `RecordTick` says, its calls are appended
     * to the trace, and the databases and buffer change as those calls say.
     */
    method RecordTrackTick(inp: TickInput) returns (effects: seq<Effect>)
      requires Valid() && ValidTime(inp.now)
      modifies this, led
      ensures Valid() && State() == old(State())
      ensures recorder == RecordTick(old(recorder), State(), inp).next
      ensures effects == RecordTick(old(recorder), State(), inp).effects
      ensures stores == Storage(old(stores), effects) && led[..] == Display(old(led[..]), effects)
      ensures calls == old(calls) + effects
      ensures refreshing == old(refreshing) && tracking == old(tracking)
    {
      ghost var s0, m0, c0, phase := stores, led[..], calls, recorder;
      effects := Step(s0, m0, c0, inp);
      StepKeepsStores(phase, State(), inp, c0);
    }
  }
}
