/**
 * The two process-wide enums of the recorder (`PicycleState`, `SessionState`) and the
 * joystick and signal events that reassign them. The three joystick callbacks and the
 * SIGTERM handler are total: each either leaves both states alone or overwrites one of them.
 */
module Globals {

  /** Whether the three loops keep going: `RUNNING` or `TERMINATE`. */
  datatype PicycleState = Running | Terminate

  /** Whether the rider wants a recording: `READY` or `IN_PROGRESS`. */
  datatype SessionState = Ready | InProgress

  /** The `action` of a Sense HAT joystick event. */
  datatype Action = Pressed | Released | Held

  /** What reaches the globals: a joystick direction with its action, or SIGTERM. */
  datatype Event = Left(action: Action) | Right(action: Action) | Down(action: Action) | SigTerm

  datatype Globals = Globals(picycle: PicycleState, session: SessionState)

  /** The values the module-level assignments give the two globals at import time. */
  const Initial := Globals(Running, Ready)

  /** Events that end the run: a pressed "down" or SIGTERM. */
  predicate Terminates(e: Event) {
    e == Down(Pressed) || e == SigTerm
  }

  /** One callback: `pushed_left`, `pushed_right`, `pushed_down` or `sigterm_handler`. */
  function Handle(g: Globals, e: Event): (r: Globals)
    // only a press of a joystick direction does anything
    ensures !e.SigTerm? && e.action != Pressed ==> r == g
    // left and right touch the session only, down and SIGTERM the run state only
    ensures e.Left? || e.Right? ==> r.picycle == g.picycle
    ensures e.Down? || e.SigTerm? ==> r.session == g.session
    ensures e == Left(Pressed) ==> r.session == InProgress
    ensures e == Right(Pressed) ==> r.session == Ready
    ensures r.picycle == Terminate <==> g.picycle == Terminate || Terminates(e)
  {
    match e
    case Left(a) => if a == Pressed then g.(session := InProgress) else g
    case Right(a) => if a == Pressed then g.(session := Ready) else g
    case Down(a) => if a == Pressed then g.(picycle := Terminate) else g
    case SigTerm => g.(picycle := Terminate)
  }

  /** The globals after the events `es`, delivered one at a time in order, starting from `g`. */
  function Replay(g: Globals, es: seq<Event>): Globals
    decreases |es|
  {
    if es == [] then g else Handle(Replay(g, es[..|es| - 1]), es[|es| - 1])
  }

  /** A left press occurs in `es` and no right press comes after it. */
  ghost predicate StartedLast(es: seq<Event>) {
    exists i :: 0 <= i < |es| && es[i] == Left(Pressed) &&
      forall j :: i < j < |es| ==> es[j] != Right(Pressed)
  }

  /** `PICYCLE_STATE` never returns to `RUNNING`: once terminated, every event sequence keeps it so. */
  lemma {:induction false} TerminateIsFinal(g: Globals, es: seq<Event>)
    requires g.picycle == Terminate
    ensures Replay(g, es).picycle == Terminate
    decreases |es|
  {
    if es != [] {
      TerminateIsFinal(g, es[..|es| - 1]);
    }
  }

  /** The run ends exactly when some event of the sequence was a down press or SIGTERM. */
  lemma {:induction false} TerminatesIff(es: seq<Event>)
    ensures Replay(Initial, es).picycle == Terminate <==>
            exists i :: 0 <= i < |es| && Terminates(es[i])
    decreases |es|
  {
    if es != [] {
      var front := es[..|es| - 1];
      TerminatesIff(front);
      if exists i :: 0 <= i < |front| && Terminates(front[i]) {
        var i :| 0 <= i < |front| && Terminates(front[i]);
        assert es[i] == front[i];
      }
      if exists i :: 0 <= i < |es| && Terminates(es[i]) {
        var i :| 0 <= i < |es| && Terminates(es[i]);
        if i < |front| {
          assert front[i] == es[i];
        }
      }
    }
  }

  /**
   * From the start-up state, the session is `IN_PROGRESS` exactly when the last press of
   * left or right was a left press. Down presses, SIGTERM and non-press actions do not matter.
   */
  lemma {:induction false} SessionFollowsLastPress(es: seq<Event>)
    ensures Replay(Initial, es).session == InProgress <==> StartedLast(es)
    decreases |es|
  {
    if es != [] {
      var front, e := es[..|es| - 1], es[|es| - 1];
      SessionFollowsLastPress(front);
      var n := |es| - 1;
      if e == Left(Pressed) {
        assert es[n] == Left(Pressed);
      } else if e == Right(Pressed) {
        assert es[n] == Right(Pressed);
      } else {
        if StartedLast(front) {
          var i :| 0 <= i < |front| && front[i] == Left(Pressed) &&
            forall j :: i < j < |front| ==> front[j] != Right(Pressed);
          assert es[i] == Left(Pressed);
          assert forall j :: i < j < |es| ==> es[j] != Right(Pressed) by {
            forall j | i < j < |es| ensures es[j] != Right(Pressed) {
              if j < n { assert es[j] == front[j]; }
            }
          }
        }
        if StartedLast(es) {
          var i :| 0 <= i < |es| && es[i] == Left(Pressed) &&
            forall j :: i < j < |es| ==> es[j] != Right(Pressed);
          assert i < n;
          assert front[i] == Left(Pressed);
          assert forall j :: i < j < |front| ==> front[j] != Right(Pressed) by {
            forall j | i < j < |front| ensures front[j] != Right(Pressed) {
              assert front[j] == es[j];
            }
          }
        }
      }
    }
  }

  /** Delivering the same event twice in a row has the effect of delivering it once. */
  lemma {:induction false} RepeatIsIdempotent(g: Globals, es: seq<Event>, e: Event)
    ensures Replay(g, es + [e, e]) == Replay(g, es + [e])
  {
    assert (es + [e, e])[..|es| + 1] == es + [e];
    assert (es + [e])[..|es|] == es;
  }
}
