/**
 * The track: its line store and the cache of entity positions per frame. Frame 0 is
 * the user-supplied starting configuration; every later cached frame is the frame step
 * applied to the one before, and every edit cuts the cache back to frame 0.
 *
 * The frame step (`frame_after`, which runs the physics pipeline over every entity
 * against the track) is opaque: it is the `frameAfter` function each track is built
 * with, and it sees the track's configuration and lines. The entity type is a type
 * parameter. The spatial grid is represented by its lines in insertion order.
 */
module Tracks {
  import opened Wrappers
  import opened Lines

  datatype TrackMeta = TrackMeta(
    lineExtensionRatio: real,
    gravityWellHeight: real,
    remount: bool,
    cellSize: real)

  /**
   * `TrackMeta::default()`: lines built on a default track get the default line's
   * extension ratio; wells 10 high, no remount, grid cells 14 wide.
   */
  function DefaultMeta(): (m: TrackMeta)
    ensures m.lineExtensionRatio == DefaultExtensionRatio
    ensures m.gravityWellHeight == 10.0 && !m.remount && m.cellSize == 14.0
  {
    TrackMeta(0.25, 10.0, false, 14.0)
  }

  /** Frame `n` of a simulation that starts from `start`: the frame step applied `n` times. */
  function Simulate<E>(frameAfter: (TrackMeta, seq<Line>, seq<E>) -> seq<E>, meta: TrackMeta,
                       lines: seq<Line>, start: seq<E>, n: nat): seq<E>
    decreases n
  {
    if n == 0 then start else frameAfter(meta, lines, Simulate(frameAfter, meta, lines, start, n - 1))
  }

  /** A cache is consistent when it is not empty and each frame after the first is the step of the one before. */
  ghost predicate Consistent<E>(frameAfter: (TrackMeta, seq<Line>, seq<E>) -> seq<E>, meta: TrackMeta,
                                lines: seq<Line>, cache: seq<seq<E>>)
  {
    |cache| >= 1
    && forall i :: 0 < i < |cache| ==> cache[i] == frameAfter(meta, lines, cache[i - 1])
  }

  /** Frame `i` of a consistent cache is frame `i` of the simulation from frame 0. */
  lemma {:induction false} CachedFrameIsSimulated<E>(frameAfter: (TrackMeta, seq<Line>, seq<E>) -> seq<E>,
                                                     meta: TrackMeta, lines: seq<Line>, cache: seq<seq<E>>, i: nat)
    requires Consistent(frameAfter, meta, lines, cache) && i < |cache|
    ensures cache[i] == Simulate(frameAfter, meta, lines, cache[0], i)
    decreases i
  {
    if i > 0 {
      CachedFrameIsSimulated(frameAfter, meta, lines, cache, i - 1);
    }
  }

  /** Simulating `m + n` frames is simulating `n` frames from frame `m`. */
  lemma {:induction false} SimulateAdditive<E>(frameAfter: (TrackMeta, seq<Line>, seq<E>) -> seq<E>,
                                               meta: TrackMeta, lines: seq<Line>, start: seq<E>, m: nat, n: nat)
    ensures Simulate(frameAfter, meta, lines, start, m + n)
         == Simulate(frameAfter, meta, lines, Simulate(frameAfter, meta, lines, start, m), n)
    decreases n
  {
    if n > 0 {
      SimulateAdditive(frameAfter, meta, lines, start, m, n - 1);
    }
  }

  /** The index of the first element of `s` that satisfies `p` (`Iterator::position`). */
  function IndexWhere<T>(s: seq<T>, p: T -> bool): (r: Option<nat>)
    ensures r.None? <==> forall i :: 0 <= i < |s| ==> !p(s[i])
    ensures r.Some? ==> r.value < |s| && p(s[r.value]) && forall i :: 0 <= i < r.value ==> !p(s[i])
    decreases |s|
  {
    if s == [] then None
    else if p(s[0]) then Some(0)
    else match IndexWhere(s[1..], p)
      case None => None
      case Some(i) => Some(i + 1)
  }

  /** `Vec::remove(i)`: the sequence without its element at `i`, the rest in order. */
  function RemoveAt<T>(s: seq<T>, i: nat): (r: seq<T>)
    requires i < |s|
    ensures |r| == |s| - 1
    ensures forall j :: 0 <= j < i ==> r[j] == s[j]
    ensures forall j :: i <= j < |r| ==> r[j] == s[j + 1]
  {
    s[..i] + s[i + 1..]
  }

  /**
   * The line store after removing `line`: the first stored line equal to it (under
   * line equality, which ignores the extension ratio) is dropped; nothing changes if none is.
   */
  function RemoveLineFrom(lines: seq<Line>, line: Line): (r: seq<Line>)
    ensures (forall i :: 0 <= i < |lines| ==> !LineEq(lines[i], line)) ==> r == lines
    ensures (exists i :: 0 <= i < |lines| && LineEq(lines[i], line)) ==>
      exists i :: 0 <= i < |lines| && LineEq(lines[i], line)
        && (forall j :: 0 <= j < i ==> !LineEq(lines[j], line))
        && r == lines[..i] + lines[i + 1..]
  {
    match IndexWhere(lines, l => LineEq(l, line))
    case None => lines
    case Some(i) => RemoveAt(lines, i)
  }

  class Track<E(==)> {
    const meta: TrackMeta
    /** The frame step: the next frame's entities from the configuration, the lines and this frame's entities. */
    const frameAfter: (TrackMeta, seq<Line>, seq<E>) -> seq<E>
    /** Every stored line, in insertion order. */
    var lines: seq<Line>
    /** `precomputed_rider_positions`: the entities of frames 0 .. |positions| - 1. */
    var positions: seq<seq<E>>

    ghost predicate Valid()
      reads this
    {
      Consistent(frameAfter, meta, lines, positions)
    }

    /** `Track::new`: the default configuration, and a cache holding only the starting positions. */
    constructor (startingPositions: seq<E>, lines: seq<Line>,
                 frameAfter: (TrackMeta, seq<Line>, seq<E>) -> seq<E>)
      ensures Valid()
      ensures meta == DefaultMeta() && this.frameAfter == frameAfter
      ensures this.lines == lines && positions == [startingPositions]
    {
      this.meta := DefaultMeta();
      this.frameAfter := frameAfter;
      this.lines := lines;
      this.positions := [startingPositions];
    }

    /** `Track::new_with_meta`: as `Track::new`, with the given configuration. */
    constructor WithMeta(startingPositions: seq<E>, lines: seq<Line>, meta: TrackMeta,
                         frameAfter: (TrackMeta, seq<Line>, seq<E>) -> seq<E>)
      ensures Valid()
      ensures this.meta == meta && this.frameAfter == frameAfter
      ensures this.lines == lines && positions == [startingPositions]
    {
      this.meta := meta;
      this.frameAfter := frameAfter;
      this.lines := lines;
      this.positions := [startingPositions];
    }

    /** `line_builder`: a fresh builder whose line carries the track's extension ratio. */
    function NewLineBuilder(): (b: LineBuilder)
      ensures b.Valid() && !b.firstLocationInit && !b.secondLocationInit
      ensures b.line == DefaultLine().(extensionRatio := meta.lineExtensionRatio)
    {
      Builder().SetExtensionRatio(meta.lineExtensionRatio)
    }

    /** `add_line`: stores the line and cuts the cache back to frame 0. */
    method AddLine(line: Line)
      requires Valid()
      modifies this
      ensures Valid()
      ensures lines == old(lines) + [line]
      ensures positions == [old(positions)[0]]
    {
      lines := lines + [line];
      positions := positions[..1];
    }

    /** `remove_line`: removes the first equal line if any, and cuts the cache back to frame 0 either way. */
    method RemoveLine(line: Line)
      requires Valid()
      modifies this
      ensures Valid()
      ensures lines == RemoveLineFrom(old(lines), line)
      ensures positions == [old(positions)[0]]
    {
      lines := RemoveLineFrom(lines, line);
      positions := positions[..1];
    }

    /**
     * `entity_positions_at`: the entities at `frame`, which are always frame `frame` of the
     * simulation from frame 0 under the current lines. A cached frame is returned as is;
     * otherwise the cache is extended, one step at a time, up to and including `frame`.
     */
    method EntityPositionsAt(frame: nat) returns (r: seq<E>)
      requires Valid()
      modifies this
      ensures Valid() && lines == old(lines)
      ensures r == Simulate(frameAfter, meta, lines, positions[0], frame)
      ensures frame < |positions| && r == positions[frame]
      ensures frame < old(|positions|) ==> positions == old(positions)
      ensures frame >= old(|positions|) ==>
        |positions| == frame + 1 && positions[..old(|positions|)] == old(positions)
    {
      if frame < |positions| {
        r := positions[frame];
      } else {
        var len := |positions|;
        for i := len to frame + 1
          invariant Valid() && |positions| == i && lines == old(lines)
          invariant positions[..len] == old(positions)
        {
          var next := frameAfter(meta, lines, positions[|positions| - 1]);
          positions := positions + [next];
        }
        r := positions[|positions| - 1];
      }
      CachedFrameIsSimulated(frameAfter, meta, lines, positions, frame);
    }

    /** `create_entity`: appends the entity to frame 0 and cuts the cache back to frame 0. */
    method CreateEntity(entity: E)
      requires Valid()
      modifies this
      ensures Valid() && lines == old(lines)
      ensures positions == [old(positions)[0] + [entity]]
    {
      positions := [positions[0] + [entity]];
    }

    /**
     * `remove_entity`: removes the first entity of frame 0 equal to `entity` and cuts the
     * cache back to frame 0. With no such entity it returns `None` and changes nothing.
     */
    method RemoveEntity(entity: E) returns (r: Option<()>)
      requires Valid()
      modifies this
      ensures Valid() && lines == old(lines)
      ensures r.None? <==> entity !in old(positions)[0]
      ensures r.None? ==> positions == old(positions)
      ensures r.Some? ==>
        (exists i :: 0 <= i < |old(positions)[0]| && old(positions)[0][i] == entity
           && entity !in old(positions)[0][..i]
           && positions == [RemoveAt(old(positions)[0], i)])
    {
      var initialFrame := positions[0];
      match IndexWhere(initialFrame, e => e == entity) {
        case None =>
          r := None;
        case Some(i) =>
          positions := [RemoveAt(initialFrame, i)];
          r := Some(());
      }
    }
  }

  /** On a track with the default configuration, a builder used without setters builds the default line. */
  lemma DefaultTrackBuildsDefaultLine<E>(track: Track<E>)
    requires track.meta == DefaultMeta()
    ensures track.NewLineBuilder().Build() == DefaultLine()
  {
  }

  /** Asking twice for the same frame gives the same entities, and the second call leaves the cache alone. */
  method RepeatedQuery<E(==)>(track: Track<E>, frame: nat) returns (first: seq<E>, second: seq<E>)
    requires track.Valid()
    modifies track
    ensures track.Valid() && first == second && track.lines == old(track.lines)
    ensures first == Simulate(track.frameAfter, track.meta, track.lines, old(track.positions)[0], frame)
    ensures frame < old(|track.positions|) ==> track.positions == old(track.positions)
    ensures frame >= old(|track.positions|) ==>
      |track.positions| == frame + 1 && track.positions[..old(|track.positions|)] == old(track.positions)
  {
    first := track.EntityPositionsAt(frame);
    ghost var cache := track.positions;
    second := track.EntityPositionsAt(frame);
    assert track.positions == cache;
  }

}
