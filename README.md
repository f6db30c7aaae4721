# Picycle in Dafny

Picycle records bicycle rides on a Raspberry Pi fitted with a Sense HAT and a GPS receiver.
While it runs, three coroutines share the process:

- one pushes a 64-cell colour buffer (`LED_MATRIX`) to the 8×8 LED panel once a second;
- one draws the satellites in view on the top two rows of that buffer;
- one records the track.

The rider uses the joystick:

- left starts a recording session;
- right ends it;
- down ends the whole run, as does SIGTERM.

A session writes one GPS fix per second into a fresh SQLite database. The database is named after the session's start time. A separate command exports a database to a GPX file.

This project models that core and proves what it promises:

- `Globals`: the two process-wide states and the joystick and signal callbacks. Replaying any sequence of events gives two results:
  - the run has ended exactly when some event was a down press or SIGTERM, and it never resumes;
  - a session is in progress exactly when some left press has no right press after it.
- `LedMatrix`: the buffer as a sequence of 64 colours. It holds the satellite display with a cell-by-cell reference, and the status row (row 2, cells 16–23). The satellite loop and the status-row loops are array methods proved against those functions.
- `StoreNames`: the database name `%Y%m%d-%H-%M-%S-picycle.sqlite`. Parsing it recovers the start time, so two sessions never share a name unless they start in the same second. For four-digit years, the names sort like the times they stand for.
- `Recorder`: one step of `loop_record_track`, from one `await asyncio.sleep(1)` to the next. It gives the coroutine's next position and the calls made in between, in order. What those calls do to the databases (`Storage`) and to the buffer (`Display`) is a fold over the calls. Whatever the joystick does between steps, the following hold:
  - at most one database is open, and only while the coroutine is inside a session;
  - a closed database is never touched again;
  - each new database is named after the clock at the moment it opens;
  - the databases hold exactly the rows whose inserts committed, in order.
- `GpxExport`: the GPX export. The rows become the points of one segment of one track, and reading them back gives the rows. The output file is the database's base name with its extension replaced by `.gpx`, following Python's `os.path.splitext`, which leaves leading dots alone.
- `Process`: the running program as the class `Picycle`. Its fields are the two globals, the buffer array, where each coroutine stands, the databases, and a ghost trace of the recorder's calls. Every callback and every coroutine step is a method proved against the functions above. The class invariant `Valid` holds across all of them, whatever order they run in.

Three details of the code the model keeps:

- the fix-mode test (`picycle.py:264-276`) only picks the colour of the status line printed to the console. Only `NoFixError` skips the insert (`picycle.py:278-298`). When gpsd raises it is not modelled: it is a step input;
- the recording indicator is row 2 of the panel only, cells 16–23 (`picycle.py:230-241`);
- `loop_record_track` clears the panel itself when it stops (`picycle.py:313`), and `record` clears it once more after the event loop returns (`picycle.py:523`).

The satellite display draws indices 0 to 16. Index 16 lands on cell 8, the cell of index 1, so with 17 or more satellites in view that cell shows green. The model keeps this (`LedMatrix.SatelliteDisplay`).

## Model

| member | source | states |
|---|---|---|
| Globals.Handle | picycle.py:35-57 | Only a press does anything. Left and right change only the session state; down and SIGTERM change only the run state. Left starts a session and right ends it. The run is terminated after the event iff it was before or the event is a down press or SIGTERM. |
| Globals.TerminateIsFinal | picycle.py:35-57 | Once terminated, the run state stays terminated whatever events follow. |
| Globals.TerminatesIff | picycle.py:51-57 | From the import-time state, the run is terminated after a sequence of events iff one of them was a down press or SIGTERM. |
| Globals.SessionFollowsLastPress | picycle.py:35-49 | From the import-time state, a session is in progress after a sequence of events iff some left press in it has no right press after it. |
| Globals.RepeatIsIdempotent | picycle.py:35-57 | Delivering the same event twice in a row has the same effect as delivering it once. |
| LedMatrix.Blank | picycle.py:66-76 | The initial buffer has 64 cells, all off. |
| LedMatrix.PaintSatellites | picycle.py:184-206 | One pass of the satellite loop, as a function of the old buffer. It never touches cells 16–63. `PaintSatellitesCells` and `SatelliteDisplay` fix every other cell. |
| LedMatrix.PaintSatellitesCells | picycle.py:184-206 | After one pass of the satellite loop, every cell equals the cell-by-cell reference `SatelliteCellAfter`. Row 0 column k shows satellite 2k; row 1 column k shows satellite 2k+1; satellite 16 overrides cell 8; every other cell keeps its colour. |
| LedMatrix.SatelliteDisplay | picycle.py:184-206 | Cells 16–63 are never touched. Each satellite index below the count and at most 16 shows its band (red 0–3, yellow 4–7, green 8–16), except that index 1 is overwritten when 17 or more satellites are in view. Then cell 8 is green. Cells of satellites not in view keep their old colour. |
| LedMatrix.DisplaysCommute | picycle.py:177-241 | Painting the satellites and painting the status row commute, so the two coroutines' writes to the shared buffer never interfere. |
| LedMatrix.PaintStatus | picycle.py:229-241 | Cells 16–23 take the given colour; all other cells are unchanged. |
| LedMatrix.TrackSatellites | picycle.py:184-206 | The in-place `for` loop over the satellite indices leaves the array equal to `PaintSatellites` of its old contents. |
| LedMatrix.PaintStatusRow | picycle.py:229-241 | The in-place `for i in range(16, 24)` loop leaves the array equal to `PaintStatus` of its old contents. |
| StoreNames.Decimal | picycle.py:244-244 | `%Y` gives only decimal digits, at least one, with no leading zero except for 0, and one digit exactly for years below 10. |
| StoreNames.Stamp | picycle.py:244-244 | `%Y%m%d-%H-%M-%S` is the year's digits without a leading zero, then `MMDD-HH-MM-SS`: 13 characters, dashes at the three separator places and digits elsewhere. The round-trip lemmas fix every field's value. |
| StoreNames.StoreName | picycle.py:244-247 | The name has 28 characters after the year. It ends in `-picycle.sqlite`. The year is all digits; it is followed by `MMDD-HH-MM-SS`. For years 1000–9999 it has 32 characters. |
| StoreNames.ParseStoreName | picycle.py:244-247 | Reading a name back yields only valid dates and times. |
| StoreNames.StoreNameRoundTrip | picycle.py:244-247 | Parsing the store name of a start time gives that time back. |
| StoreNames.ParsedNameIsStoreName | picycle.py:244-247 | Every name that parses is the store name of the time it parses to: the format is a bijection onto its image. |
| StoreNames.StoreNameInjective | picycle.py:244-247 | Two different start times give two different database names. |
| StoreNames.StoreNameOrder | picycle.py:244-247 | For four-digit years, one name sorts before another as a string iff its session started earlier. |
| StoreNames.DecimalRoundTrip | picycle.py:244-244 | Reading the decimal digits of `%Y` back gives the year. |
| Recorder.Iteration | picycle.py:259-300 | One pass of the inner loop reports the mode first and sleeps last. In between it makes exactly one insert, of the packet's reading, iff the packet has a fix, and otherwise nothing. |
| Recorder.OuterIteration | picycle.py:228-310 | The outer loop's pass stops the coroutine iff the run is over. It stays in the outer loop iff running without a session. It enters the inner loop iff a session is in progress and the connection succeeded. It exits, with status 1, iff the connection failed. |
| Recorder.OuterIterationCalls | picycle.py:228-313 | A pass of the outer loop starts by painting white while running, or by clearing the panel once the run is over. It ends with the sleep iff the coroutine goes on, and with clearing the panel iff it stops or exits. |
| Recorder.RecordTick | picycle.py:228-313 | One step from the coroutine's position. A finished coroutine makes no calls and stays where it is, and every other position makes some. It is in the inner loop afterwards only while running with a session, in the outer loop only while running without one, and stopped only once the run is over. Leaving the inner loop closes the database first. The lemmas below give its effect on the databases and the buffer. |
| Recorder.TickKeepsStores | picycle.py:212-313 | Each step of the recorder keeps these properties, whatever the globals are: at most one database is open, and exactly while the coroutine is in its inner loop. Closed databases are unchanged. At most one database is added; it is named after the step's clock, and then the coroutine is inside a session. The committed rows grow by exactly the step's successful inserts, in order. |
| Recorder.RunKeepsStores | picycle.py:212-313 | Over any number of steps with any globals between them, starting with no database, the same invariant holds, and the databases hold exactly the successfully inserted rows, in order. |
| Recorder.TickGatedOnSession | picycle.py:228-237 | A step connects, creates a table, polls the GPS or inserts only while running with a session in progress. An outer-loop step while running without a session only paints the status row white and sleeps. |
| Recorder.AtMostOneInsert | picycle.py:259-300 | A step makes at most one insert. |
| Recorder.NoFixKeepsSession | picycle.py:278-300 | Inside a session, a packet without a fix reports the mode and sleeps. It inserts nothing, the coroutine stays in its inner loop, and the databases are unchanged. |
| Recorder.OnlyConnectFailureIsFatal | picycle.py:248-310 | The coroutine exits iff a session starts and `create_connection` gives no connection. It then exits with status 1, after painting white then blue, trying the named database, showing the error letter, sleeping three seconds and clearing the panel. Where the coroutine goes next never depends on the packet, the CREATE TABLE outcome or the INSERT outcome. |
| Recorder.ModeOnlyColoursReport | picycle.py:261-276 | Changing the packet's fix mode changes only the colour of the status line. The next position and every other call are the same. |
| Recorder.PaintsBeforeOpening | picycle.py:228-250 | A database is only opened from the outer loop, as the third call, after the status row was painted white and then blue. A running outer step starts by painting white. Leaving a session while running closes the database, paints white and sleeps. |
| Recorder.DisplayOnlyStatusRow | picycle.py:228-241 | Whatever calls the recorder makes, it writes only the status row of the buffer. |
| Recorder.OuterTickStatusRow | picycle.py:228-241 | After a running outer step, the status row is blue if a session is in progress and white otherwise. The rest of the buffer is unchanged. |
| Recorder.IterationStorage | picycle.py:259-300 | A pass of the inner loop appends the row to the open database exactly when there is a fix and the insert committed. Otherwise the databases are unchanged. |
| Recorder.OpeningStorage | picycle.py:239-248 | Opening a session adds one empty open database with the given name iff the connection succeeded, and commits no row. |
| Recorder.AppendRowKeepsStores | picycle.py:290-294 | Committing a row to the open database keeps the database invariant and leaves every closed database unchanged. |
| Recorder.CloseLastKeepsStores | picycle.py:302-302 | Closing the open database leaves none open and changes no closed database. |
| GpxExport.SqliteToGpx | picycle.py:330-353 | The document has exactly one track with exactly one segment. Reading its points back, track by track and segment by segment, gives the input rows in order, with altitude as elevation. |
| GpxExport.RFind | picycle.py:498-498 | The result is the index of the last occurrence of the character, or -1 exactly when it does not occur. |
| GpxExport.Basename | picycle.py:498-498 | The result contains no `/`. It is a suffix of the path, and is either the whole path or preceded by a `/`. |
| GpxExport.SplitExt | picycle.py:498-498 | Root and extension concatenate to the input. The extension is empty, or starts with the only `.` it contains and contains no `/`. |
| GpxExport.GpxFileName | picycle.py:498-499 | The output name has no `/`, ends in `.gpx`, and its stem is a prefix of the database's base name. `ReplacesExtension`, `KeepsLeadingDots` and `SessionExportName` fix it exactly. |
| GpxExport.ReplacesExtension | picycle.py:498-499 | Under any directory, `base.ext` is exported to `base.gpx`, for a base that is not all dots, even one that contains dots. |
| GpxExport.KeepsLeadingDots | picycle.py:498-499 | A name with only dots before its last dot has no extension, and `.gpx` is appended to the whole name. |
| GpxExport.SessionExportName | picycle.py:498-499 | The database of a session started at time t, in any directory, is exported to `<stamp of t>-picycle.gpx`. |
| Process.StepKeepsStores | picycle.py:212-313 | Over the whole trace of calls, one more step keeps the invariant. The databases stay what the trace made of them, consistent with the coroutine's position, and hold exactly the committed rows. The coroutine reaches its end only when the run was terminated. |
| Process.Picycle.constructor | picycle.py:29-76 | The process starts running, with no session, an all-off 64-cell buffer, no database, and all three loops at their start. |
| Process.Picycle.PushedLeft | picycle.py:35-41 | The globals become `Handle` of the left event. Nothing else changes, and `Valid` is kept. |
| Process.Picycle.PushedRight | picycle.py:43-49 | The globals become `Handle` of the right event. Nothing else changes, and `Valid` is kept. |
| Process.Picycle.PushedDown | picycle.py:51-57 | The globals become `Handle` of the down event. Nothing else changes, and `Valid` is kept. |
| Process.Picycle.SigtermHandler | picycle.py:220-224 | The globals become `Handle` of SIGTERM, which terminates the run. Nothing else changes. |
| Process.Picycle.LedMatrixUpdateTick | picycle.py:164-175 | While running, the current buffer is sent to the panel. Otherwise the loop ends for good and nothing is sent. The buffer is only read. |
| Process.Picycle.TrackSatellitesTick | picycle.py:177-210 | While running, the buffer becomes `PaintSatellites` of itself. Otherwise the loop ends for good and the buffer is unchanged. The globals and `Valid` are kept. |
| Process.Picycle.InnerIteration | picycle.py:259-300 | One pass of the inner loop makes exactly the calls of `Iteration`. The databases, buffer and trace follow those calls. |
| Process.Picycle.OuterIteration | picycle.py:228-313 | One pass of the outer loop makes the calls and reaches the position that `Recorder.OuterIteration` gives. |
| Process.Picycle.StartSession | picycle.py:239-310 | When a session is wanted, the method paints white then blue, connects to the database named after the clock, and either records or fails, as `Recorder.OuterIteration` says. |
| Process.Picycle.Open | picycle.py:239-248 | Paints the status row white then blue and tries the named database. The trace grows by exactly those three calls, and the databases and buffer follow them. |
| Process.Picycle.Record | picycle.py:253-300 | With a connection, it creates the table, makes one pass of the inner loop, and is then inside the session. |
| Process.Picycle.Fail | picycle.py:305-310 | Without a connection, it shows the error letter, sleeps three seconds, clears the panel and exits with status 1. |
| Process.Picycle.Step | picycle.py:228-302 | Makes exactly the calls of one `RecordTick` step, one after another, from where the coroutine stands, and moves it to the position `RecordTick` gives. |
| Process.Picycle.RecordTrackTick | picycle.py:212-313 | One step of `loop_record_track` goes exactly where `RecordTick` says and makes exactly its calls. The databases and buffer change as those calls say, the trace grows by them, and `Valid` is kept: the databases stay consistent and hold exactly the committed rows. |

## Left out

- The asyncio event loop and `session()` are not part of this model. Each coroutine step runs up to its `await asyncio.sleep(1)`, and callbacks land only between steps. The Sense HAT delivers joystick events on its own thread, so a callback could in fact run in the middle of a step.
- Hardware I/O is reduced to its visible interface. `set_pixels` is modelled as the frame a refresh step returns. `show_letter`, `clear` and `time.sleep` are modelled as calls in the recorder's trace. `SENSE.clear()` does not change `LED_MATRIX`, and the model keeps that.
- `gpsd.get_current()` is modelled as a step input: fix mode, satellite count, and either a reading or `NoFixError`. How gpsd computes them is not modelled. In particular, the model does not say for which fix modes the reading methods raise `NoFixError`: the mode and the outcome are independent inputs.
- SQLite is not modelled beyond what the recorder relies on. `create_connection` is reduced to whether it returned a connection, and `execute_query` to whether the statement committed. SQL text, the `id` column, `execute_read_query` and `detect_types` are not modelled.
- Latitude, longitude, altitude, speed, track and climb are modelled as reals that are carried but never inspected. Floating-point behaviour is not modelled.
- `datetime.now()` is modelled as a step input limited to Python's years 1–9999. `%Y` is modelled without padding, as glibc prints it. Fixed width and sort order are proved only for four-digit years.
- Process.Picycle.RecordTrackTick: a session started in the same second as the previous one reopens the same file in SQLite, but the model counts it as a new empty database.
- Console output (`click.echo`) is left out, except for the mode status line, which is kept as `ReportMode` with its colour.
- `sys.exit(1)` is modelled as the recorder reaching `Exited(1)`. Tearing down the other coroutines is not modelled.
- The gpxpy objects are modelled as values. `sqlite_to_gpx` attaches the track and segment before filling them, while the model builds the point list first and assembles the document after. The result is the same document, but object identity is not modelled.
- The click commands (`info_gpx`, `info_tracks`, `info_waypoints`, `info_routes`, the `database` show and purge options), `record`, `load_gpx_file`, `save_gpx_file`, gpxpy parsing and XML output, and `setup.py` are not part of this model. They are formatting and file I/O around the core.
