/**
 * The 8x8 Sense HAT pixel buffer `LED_MATRIX`: 64 RGB cells in row-major order. Two loops
 * write it in place: the satellite display owns cells 0..15 (rows 0 and 1), the recorder's
 * status row owns cells 16..23 (row 2). The rest is never written after start-up.
 */
module LedMatrix {
  import opened Wrappers

  datatype Rgb = Rgb(r: int, g: int, b: int)

  const Off := Rgb(0, 0, 0)
  const Red := Rgb(255, 0, 0)
  const Yellow := Rgb(255, 255, 0)
  const Green := Rgb(0, 255, 0)
  const White := Rgb(255, 255, 255)
  const Blue := Rgb(0, 0, 255)

  /** Number of cells in the buffer (8 rows of 8). */
  const Size := 64

  /** Cells of the recorder's status region: row 2. */
  predicate InStatusRow(i: int) {
    16 <= i < 24
  }

  /** The buffer as the module initialises it: every cell off. */
  function Blank(): (m: seq<Rgb>)
    ensures |m| == Size
    ensures forall i :: 0 <= i < Size ==> m[i] == Off
  {
    seq(Size, _ => Off)
  }

  /** The cell that satellite index `x` lights: even indices fill row 0, odd ones row 1. */
  function SatelliteCell(x: nat): nat {
    (if x % 2 == 0 then 0 else 8) + x / 2
  }

  /** The colour band of satellite index `x`; indices above 16 are not drawn. */
  function Band(x: nat): Option<Rgb> {
    if 0 <= x <= 3 then Some(Red)
    else if 3 < x < 8 then Some(Yellow)
    else if 8 <= x <= 16 then Some(Green)
    else None
  }

  /** One pass of the inner `for` loop of the satellite display, for index `x`. */
  function PaintSatellite(m: seq<Rgb>, x: nat): (r: seq<Rgb>)
    requires |m| == Size
    ensures |r| == Size
  {
    match Band(x)
    case None => m
    case Some(c) => m[SatelliteCell(x) := c]
  }

  /** The buffer after one tick of the satellite display with `sats` satellites in view. */
  function PaintSatellites(m: seq<Rgb>, sats: int): (r: seq<Rgb>)
    requires |m| == Size
    ensures |r| == Size
    ensures forall c :: 16 <= c < Size ==> r[c] == m[c]
    decreases sats
  {
    if sats <= 0 then m else PaintSatellite(PaintSatellites(m, sats - 1), sats - 1)
  }

  /**
   * Reference for `PaintSatellites`, cell by cell: row 0 column k shows satellite 2k, row 1
   * column k shows satellite 2k+1, except that satellite 16 lands on row 1 column 0 (cell 8),
   * on top of satellite 1. A cell whose satellite is not in view keeps its old colour.
   */
  function SatelliteCellAfter(m: seq<Rgb>, sats: int, c: nat): Rgb
    requires |m| == Size && c < Size
  {
    if c < 8 then (if 2 * c < sats then Band(2 * c).value else m[c])
    else if c == 8 then (if sats > 16 then Green else if sats > 1 then Red else m[c])
    else if c < 16 then (if 2 * c - 15 < sats then Band(2 * c - 15).value else m[c])
    else m[c]
  }

  /** The status row painted `c`, every other cell as it was. */
  function PaintStatus(m: seq<Rgb>, c: Rgb): (r: seq<Rgb>)
    requires |m| == Size
    ensures |r| == Size
    ensures forall i :: 0 <= i < Size ==> r[i] == if InStatusRow(i) then c else m[i]
  {
    m[..16] + seq(8, _ => c) + m[24..]
  }

  /** `PaintSatellites` agrees with the cell-by-cell reference on every cell. */
  lemma {:induction false} PaintSatellitesCells(m: seq<Rgb>, sats: int)
    requires |m| == Size
    ensures forall c :: 0 <= c < Size ==> PaintSatellites(m, sats)[c] == SatelliteCellAfter(m, sats, c)
    decreases sats
  {
    if sats > 0 {
      PaintSatellitesCells(m, sats - 1);
      var x := sats - 1;
      forall c | 0 <= c < Size
        ensures PaintSatellites(m, sats)[c] == SatelliteCellAfter(m, sats, c)
      {
        if Band(x).Some? && c == SatelliteCell(x) {
        } else {
          assert PaintSatellites(m, sats)[c] == PaintSatellites(m, x)[c];
        }
      }
    }
  }

  /**
   * What one tick of the satellite display guarantees: cells 16..63 are untouched; every index
   * `x < sats` up to 16 lights its own cell in its band's colour, except that with 17 or more
   * satellites cell 8 shows satellite 16 in green, not satellite 1 in red; a cell whose
   * satellites are all at or above `sats` keeps whatever it showed before.
   */
  lemma {:induction false} SatelliteDisplay(m: seq<Rgb>, sats: int)
    requires |m| == Size
    ensures forall c :: 16 <= c < Size ==> PaintSatellites(m, sats)[c] == m[c]
    ensures forall x: nat :: x < sats && x <= 16 && !(x == 1 && sats > 16) ==>
              PaintSatellites(m, sats)[SatelliteCell(x)] == Band(x).value
    ensures sats > 16 ==> PaintSatellites(m, sats)[8] == Green
    ensures forall x: nat :: x < 16 && sats <= x && !(x == 1 && sats > 16) ==>
              PaintSatellites(m, sats)[SatelliteCell(x)] == m[SatelliteCell(x)]
  {
    PaintSatellitesCells(m, sats);
    forall x: nat | x < 16 ensures SatelliteCell(x) < 16 {}
    assert SatelliteCell(16) == 8;
  }

  /**
   * The two regions are disjoint, so the satellite tick and the status paint commute: whichever
   * of the two loops runs first, the buffer ends the same.
   */
  lemma {:induction false} DisplaysCommute(m: seq<Rgb>, sats: int, c: Rgb)
    requires |m| == Size
    ensures PaintStatus(PaintSatellites(m, sats), c) == PaintSatellites(PaintStatus(m, c), sats)
  {
    var a := PaintStatus(PaintSatellites(m, sats), c);
    var b := PaintSatellites(PaintStatus(m, c), sats);
    PaintSatellitesCells(m, sats);
    PaintSatellitesCells(PaintStatus(m, c), sats);
    forall i | 0 <= i < Size ensures a[i] == b[i] {
    }
  }

  /** `loop_track_satellites`' `for` loop over `range(sats)`, writing the buffer in place. */
  method TrackSatellites(led: array<Rgb>, sats: int)
    requires led.Length == Size
    modifies led
    ensures led[..] == PaintSatellites(old(led[..]), sats)
  {
    var n := if sats < 0 then 0 else sats;
    for x := 0 to n
      invariant led[..] == PaintSatellites(old(led[..]), x)
    {
      var idx := if x % 2 == 0 then 0 else 8;
      idx := idx + x / 2;
      if 0 <= x <= 3 {
        led[idx] := Red;
      } else if 3 < x < 8 {
        led[idx] := Yellow;
      } else if 8 <= x <= 16 {
        led[idx] := Green;
      }
    }
  }

  /** One of `loop_record_track`'s `for i in range(16, 24)` loops: paint the status row `c`. */
  method PaintStatusRow(led: array<Rgb>, c: Rgb)
    requires led.Length == Size
    modifies led
    ensures led[..] == PaintStatus(old(led[..]), c)
  {
    for i := 16 to 24
      invariant forall k :: 0 <= k < Size ==> led[k] == if 16 <= k < i then c else old(led[k])
    {
      led[i] := c;
    }
  }
}
