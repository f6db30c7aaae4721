/**
 * Export of a recorded session to GPX: the rows of a store become the points of a single
 * track segment, and the GPX file is named after the store.
 */
module GpxExport {
  import opened StoreNames

  /** A `GPXTrackPoint`: latitude and longitude in degrees, elevation in metres. */
  datatype Point = Point(latitude: real, longitude: real, elevation: real)

  datatype Segment = Segment(points: seq<Point>)

  datatype Track = Track(segments: seq<Segment>)

  /** A GPX document; only its tracks are modelled. */
  datatype Gpx = Gpx(tracks: seq<Track>)

  /** A row of `SELECT latitude, longitude, altitude FROM picycle`. */
  type Row = (real, real, real)

  function PointRow(p: Point): Row {
    (p.latitude, p.longitude, p.elevation)
  }

  /** The points of a segment read back as rows. */
  function SegmentRows(ps: seq<Point>): seq<Row> {
    seq(|ps|, i requires 0 <= i < |ps| => PointRow(ps[i]))
  }

  function TrackRows(segments: seq<Segment>): seq<Row> {
    if segments == [] then [] else SegmentRows(segments[0].points) + TrackRows(segments[1..])
  }

  /** Every point of the document, track by track and segment by segment, read back as rows. */
  function Rows(tracks: seq<Track>): seq<Row> {
    if tracks == [] then [] else TrackRows(tracks[0].segments) + Rows(tracks[1..])
  }

  /**
   * Builds the GPX document of a session: one track holding one segment, with one point per
   * row, latitude, longitude and altitude (as elevation) in that order, in the order of the rows.
   * Reading the document back gives the rows again.
   */
  method SqliteToGpx(rows: seq<Row>) returns (gpx: Gpx)
    ensures |gpx.tracks| == 1 && |gpx.tracks[0].segments| == 1
    ensures Rows(gpx.tracks) == rows
  {
    var points: seq<Point> := [];
    for i := 0 to |rows|
      invariant SegmentRows(points) == rows[..i]
    {
      var (latitude, longitude, altitude) := rows[i];
      points := points + [Point(latitude, longitude, elevation := altitude)];
    }
    assert rows[..|rows|] == rows;
    var segment := Segment(points);
    var track := Track([segment]);
    gpx := Gpx([track]);
    assert TrackRows(track.segments) == SegmentRows(points) + TrackRows([]);
    assert Rows(gpx.tracks) == TrackRows(track.segments) + Rows([]);
  }

  // ---------------------------------------------------------------------------------------
  // The file name
  // ---------------------------------------------------------------------------------------

  /** `s.rfind(c)`: the index of the last `c` in `s`, or -1 when there is none. */
  function RFind(s: string, c: char): (k: int)
    ensures -1 <= k < |s|
    ensures k >= 0 ==> s[k] == c
    ensures forall i :: k < i < |s| ==> s[i] != c
    decreases |s|
  {
    if s == [] then -1
    else if s[|s| - 1] == c then |s| - 1
    else RFind(s[..|s| - 1], c)
  }

  /** `os.path.basename(p)`: what follows the last `/`. */
  function Basename(p: string): (name: string)
    ensures '/' !in name
    ensures |name| <= |p| && p[|p| - |name|..] == name
    ensures |name| == |p| || p[|p| - |name| - 1] == '/'
  {
    p[RFind(p, '/') + 1..]
  }

  predicate AllDots(s: string) {
    forall i :: 0 <= i < |s| ==> s[i] == '.'
  }

  /**
   * `os.path.splitext(p)` on POSIX: the extension is the text from the last `.` of the final
   * path component, provided that component has a character other than `.` before that dot;
   * otherwise the extension is empty. Leading dots never start an extension.
   */
  function SplitExt(p: string): (r: (string, string))
    ensures r.0 + r.1 == p
    ensures r.1 == [] || r.1[0] == '.'
    ensures forall i :: 0 <= i < |r.1| ==> r.1[i] != '/' && (i > 0 ==> r.1[i] != '.')
  {
    var sep := RFind(p, '/');
    var dot := RFind(p, '.');
    if dot <= sep then (p, [])
    else
      var stem := p[sep + 1..dot];
      if AllDots(stem) then (p, []) else SplitAt(p, sep, dot)
  }

  /** `p` cut at its last dot, which follows its last slash. */
  function SplitAt(p: string, sep: int, dot: int): (r: (string, string))
    requires -1 <= sep < dot < |p| && p[dot] == '.'
    requires forall i :: dot < i < |p| ==> p[i] != '.'
    requires forall i :: sep < i < |p| ==> p[i] != '/'
    ensures r.0 + r.1 == p && r.0 == p[..dot]
    ensures r.1[0] == '.'
    ensures forall i :: 0 <= i < |r.1| ==> r.1[i] != '/' && (i > 0 ==> r.1[i] != '.')
  {
    ExtensionShape(p, sep, dot);
    (p[..dot], p[dot..])
  }

  /** The text from the last dot, when that dot follows the last slash: the dot and no other, and no slash. */
  lemma {:induction false} ExtensionShape(p: string, sep: int, dot: int)
    requires -1 <= sep < dot < |p| && p[dot] == '.'
    requires forall i :: dot < i < |p| ==> p[i] != '.'
    requires forall i :: sep < i < |p| ==> p[i] != '/'
    ensures p[..dot] + p[dot..] == p
    ensures p[dot..][0] == '.'
    ensures forall i :: 0 <= i < |p| - dot ==> p[dot..][i] != '/' && (i > 0 ==> p[dot..][i] != '.')
  {
  }

  /**
   * The GPX file written for the store at path `database`: a file name (no `/`) ending in
   * `.gpx`, whose stem is a prefix of the store's base name.
   */
  function GpxFileName(database: string): (name: string)
    ensures '/' !in name
    ensures |name| >= 4 && name[|name| - 4..] == ".gpx"
    ensures name[..|name| - 4] <= Basename(database)
  {
    var base := Basename(database);
    var root := SplitExt(base).0;
    assert base[..|root|] == root;
    var name := root + ".gpx";
    assert name[..|root|] == root && name[|root|..] == ".gpx";
    name
  }

  /** `dir` is a directory prefix of a path: empty or ending in `/`. */
  predicate DirPrefix(dir: string) {
    dir == [] || dir[|dir| - 1] == '/'
  }

  /** `RFind` finds the last occurrence. */
  lemma {:induction false} RFindAt(s: string, c: char, k: int)
    requires 0 <= k < |s| && s[k] == c
    requires forall i :: k < i < |s| ==> s[i] != c
    ensures RFind(s, c) == k
  {
  }

  lemma {:induction false} BasenameOfJoin(dir: string, name: string)
    requires DirPrefix(dir) && '/' !in name
    ensures Basename(dir + name) == name
  {
    var p := dir + name;
    if dir == [] {
      assert p == name;
    } else {
      assert forall i :: |dir| <= i < |p| ==> p[i] == name[i - |dir|];
      RFindAt(p, '/', |dir| - 1);
      assert p[|dir|..] == name;
    }
  }

  /** `SplitExt` of a final path component whose last dot is at `dot`, preceded by a non-dot. */
  lemma {:induction false} SplitExtAt(name: string, dot: int)
    requires '/' !in name && 0 <= dot < |name| && name[dot] == '.'
    requires forall i :: dot < i < |name| ==> name[i] != '.'
    requires !AllDots(name[..dot])
    ensures SplitExt(name).0 == name[..dot]
  {
    RFindAt(name, '.', dot);
    assert name[-1 + 1..dot] == name[..dot];
  }

  /**
   * A store name with an extension gets that extension replaced by `.gpx`, wherever the store
   * lies: `dir/base.ext` is exported to `base.gpx`, dots inside `base` included.
   */
  lemma {:induction false} ReplacesExtension(dir: string, base: string, ext: string)
    requires DirPrefix(dir) && '/' !in base && '/' !in ext && '.' !in ext
    requires !AllDots(base)
    ensures GpxFileName(dir + (base + "." + ext)) == base + ".gpx"
  {
    var name := base + "." + ext;
    JoinExtension(base, ext);
    BasenameOfJoin(dir, name);
    SplitExtAt(name, |base|);
  }

  /** The characters of `base.ext`: no slash anywhere, and no dot after the one that joins them. */
  lemma {:induction false} JoinExtension(base: string, ext: string)
    requires '/' !in base && '/' !in ext && '.' !in ext
    ensures var name := base + "." + ext;
      && '/' !in name && name[|base|] == '.' && name[..|base|] == base
      && forall i :: |base| < i < |name| ==> name[i] != '.'
  {
    var name := base + "." + ext;
    forall i | 0 <= i < |name| ensures name[i] != '/' && (i > |base| ==> name[i] != '.') {
      if i < |base| {
        assert name[i] == base[i];
      } else if i > |base| {
        assert name[i] == ext[i - |base| - 1];
      }
    }
    assert name[..|base|] == base;
  }

  /**
   * A store whose name has nothing but dots before its last dot (a hidden file such as
   * `.sqlite`) has no extension: the `.gpx` is appended to the whole name.
   */
  lemma {:induction false} KeepsLeadingDots(dir: string, name: string)
    requires DirPrefix(dir) && '/' !in name
    requires AllDots(name[..RFind(name, '.') + 1])
    ensures GpxFileName(dir + name) == name + ".gpx"
  {
    BasenameOfJoin(dir, name);
    SplitExtWithoutExtension(name);
  }

  lemma {:induction false} SplitExtWithoutExtension(name: string)
    requires '/' !in name
    requires AllDots(name[..RFind(name, '.') + 1])
    ensures SplitExt(name).0 == name
  {
    var dot := RFind(name, '.');
    if dot >= 0 {
      var before := name[..dot];
      assert AllDots(before) by {
        forall i | 0 <= i < |before| ensures before[i] == '.' {
          assert before[i] == name[..dot + 1][i];
        }
      }
      assert name[-1 + 1..dot] == before;
    }
  }

  /** No character of a session stamp is `.` or `/`, and it starts with a digit. */
  lemma {:induction false} StampCharacters(t: DateTime)
    requires ValidTime(t)
    ensures '.' !in Stamp(t) && '/' !in Stamp(t)
    ensures !AllDots(Stamp(t))
  {
    var name := StoreName(t);
    var stamp := Stamp(t);
    var k := |Decimal(t.year)|;
    assert name == stamp + Suffix;
    assert |stamp| == k + 13;
    forall i | 0 <= i < |stamp| ensures stamp[i] != '.' && stamp[i] != '/' {
      if i < k {
        assert stamp[i] == name[..k][i];
      } else {
        assert stamp[i] == name[k..|name| - |Suffix|][i - k];
      }
    }
    assert stamp[0] != '.';
  }

  /**
   * Regrouping a concatenation of strings. Stated apart so that `SessionExportName` cites it
   * instead of leaving the solver to rediscover it in a large context.
   */
  lemma {:induction false} Reassociate(a: string, b: string, c: string)
    ensures (a + b) + c == a + (b + c)
  {
  }

  /** The one literal concatenation the export name needs, stated apart for the same reason. */
  lemma {:induction false} ExportSuffix()
    ensures "-picycle" + ".gpx" == "-picycle.gpx"
  {
  }

  /** A store name is the stamp, then `-picycle`, then the extension `sqlite`. */
  lemma {:induction false} StoreNameParts(t: DateTime)
    requires ValidTime(t)
    ensures StoreName(t) == (Stamp(t) + "-picycle") + "." + "sqlite"
  {
    assert StoreName(t) == Stamp(t) + Suffix;
    assert Suffix == "-picycle" + "." + "sqlite";
  }

  lemma {:induction false} StampBase(t: DateTime)
    requires ValidTime(t)
    ensures '/' !in Stamp(t) + "-picycle" && !AllDots(Stamp(t) + "-picycle")
  {
    StampCharacters(t);
    var stamp := Stamp(t);
    var base := stamp + "-picycle";
    forall i | 0 <= i < |base| ensures base[i] != '/' {
      if i < |stamp| {
        assert base[i] == stamp[i];
      }
    }
    assert base[0] == stamp[0] != '.';
  }

  /**
   * The store of a recorded session, wherever it lies, is exported to the file named after the
   * session's start time: `%Y%m%d-%H-%M-%S-picycle.gpx`.
   */
  lemma {:induction false} SessionExportName(dir: string, t: DateTime)
    requires ValidTime(t) && DirPrefix(dir)
    ensures GpxFileName(dir + StoreName(t)) == Stamp(t) + "-picycle.gpx"
  {
    var base := Stamp(t) + "-picycle";
    StoreNameParts(t);
    StampBase(t);
    ReplacesExtension(dir, base, "sqlite");
    Reassociate(Stamp(t), "-picycle", ".gpx");
    ExportSuffix();
  }
}
