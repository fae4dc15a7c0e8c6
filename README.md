# bosh-rs core in Dafny

A model of three pieces of a line-rider style sled-physics engine, with the
floating-point geometry left opaque:

- **Lines** (`line.dfy`, module `Lines`): line values, their equality (every field
  except the extension ratio) and ordering (the id alone), the `LineBuilder` two-flag
  state machine, and the per-end hitbox extensions.
- **Entity physics** (`entity_physics.dfy`, module `EntityPhysics`; entity data in
  `rider.dfy`, module `Rider`): the per-frame pipeline of one entity. Integration runs
  once. Then come `iterations` rounds of a bone pass followed by gravity wells. A
  final joint check runs only while the entity is whole. The state is `Same(entity)`
  or `Broken(bosh, sled)`, and a half that breaks again is the `unwrap_same` panic,
  modelled as the `Panic` outcome. The bone solver, the joint test, the split and
  the gravity-well response of a point are the four opaque functions of `Rules`.
- **Track and frame cache** (`track.dfy`, module `Tracks`): a `Track` class whose
  `positions` field is the per-frame entity cache. The class invariant is that the
  cache is never empty and that each cached frame after frame 0 is the frame step
  applied to the frame before it. `EntityPositionsAt(f)` always returns frame `f` of
  the simulation from frame 0, whatever was cached. Every line or entity edit cuts the
  cache back to frame 0. The frame step (`frame_after`) is the opaque `frameAfter`
  function the track is built with. The entity type is a type parameter. The line
  store is the sequence of lines in insertion order.

Vectors and all other `f64` values are exact reals.

A failed `remove_entity` leaves the cache untouched: the `?` on
src/game/track.rs:126 returns before the truncation on line 128. The model follows
the code here, not a reading in which every removal attempt resets the cache.

## Model

| member | source | states |
|---|---|---|
| `Lines.DefaultLine` | src/game/line.rs:49-58 | the default line has id 0, both ends unextended at the origin, type `Normal`, is not flipped, and has extension ratio 0.25 |
| `Lines.LineEq` | src/game/line.rs:61-68 | two lines are equal exactly when they are identical once their extension ratios agree: lines differing only in extension ratio are equal |
| `Lines.LineEqIsEquivalence` | src/game/line.rs:61-79 | line equality is reflexive, symmetric and transitive, as the `Eq` impl claims |
| `Lines.Cmp` | src/game/line.rs:43-47 | the ordering is `Less`, `Equal` or `Greater` exactly as the ids compare, whatever the other fields |
| `Lines.PartialCmp` | src/game/line.rs:38-42 | the partial ordering always answers, and agrees with `Cmp` |
| `Lines.CmpIsTotalOrder` | src/game/line.rs:43-47 | swapping the arguments swaps `Less` and `Greater` and keeps `Equal`; `Less` is transitive |
| `Lines.EqualLinesCompareEqual` | src/game/line.rs:38-68 | equal lines always compare `Equal` |
| `Lines.CompareEqualDoesNotMeanEqual` | src/game/line.rs:38-68 | there are two lines that compare `Equal` and are not equal (same id, different `flipped`) |
| `Lines.Builder` | src/game/line.rs:144-150 | a fresh builder has both flags false and a line with id 0, default ends, type `Normal`, not flipped, extension ratio 0.25 |
| `Lines.LineBuilder.Build` | src/game/line.rs:138-140 | yields the line being built, with no check that either end was located |
| `Lines.BuildWithoutSetters` | src/game/line.rs:49-58 | building with no setter calls yields the default line |
| `Lines.LineBuilder.SetId` | src/game/line.rs:88-91 | sets the id; ends, type, flipped, extension ratio and both flags are unchanged |
| `Lines.LineBuilder.SetExtensionRatio` | src/game/line.rs:92-95 | sets the extension ratio; every other field and both flags are unchanged |
| `Lines.LineBuilder.SetLineType` | src/game/line.rs:96-99 | sets the line type; every other field and both flags are unchanged |
| `Lines.LineBuilder.SetFlipped` | src/game/line.rs:100-103 | sets `flipped`; every other field and both flags are unchanged |
| `Lines.LineBuilder.PointVec` | src/game/line.rs:116-126 | before any point, locates the first end and sets the first flag; afterwards, relocates the second end (overwriting) and sets the second flag; extended flags and other fields unchanged; the flag order stays valid |
| `Lines.LineBuilder.Point` | src/game/line.rs:105-115 | `point(x, y)` behaves exactly as `point_vec` on `(x, y)` |
| `Lines.LineBuilder.Extended` | src/game/line.rs:127-137 | only callable once the first end is located; with one end located it sets the first end's flag, with both it sets the second's; locations, flags and other fields unchanged |
| `Lines.LaterPointsMoveSecondEnd` | src/game/line.rs:105-126 | once the first end is located, any run of further points leaves the first end alone and the last point of the run is the second end |
| `Lines.PointsFillEnds` | src/game/line.rs:105-126 | from a fresh builder, the first point is the first end, the second flag is set exactly when two or more points were given, and the last one is the second end |
| `Lines.ExtendedMarksLastLocatedEnd` | src/game/line.rs:127-137 | `extended` after exactly one point marks the first end only; after two or more it marks the second end only; locations untouched |
| `Lines.ClampExtension` | src/game/line.rs:171-171 | the clamp lies in [0, 10], is the identity inside it, and saturates at each bound |
| `Lines.HitboxExtensions` | src/game/line.rs:170-182 | a non-extended end gets 0; an extended end gets length × ratio clamped to [0, 10]; both extended ends get the same value |
| `Rider.SetLocation` | src/physics/entity_physics.rs:25-26 | writing one point's location changes nothing else: other points, the point's other fields, bones and joints stay |
| `EntityPhysics.UnwrapSame` | src/physics/entity_physics.rs:148-156 | yields the entity exactly for `Same`; `None` marks the panic on `Broken` |
| `EntityPhysics.Integrate` | src/physics/entity_physics.rs:56-63 | the previous location becomes the old location, the momentum is the old displacement plus gravity, the point moves by exactly its new momentum, friction is kept |
| `EntityPhysics.Integrated` | src/physics/entity_physics.rs:48-65 | every point, and only the entity's points, is integrated; bones and joints unchanged |
| `EntityPhysics.WellsApplied` | src/physics/entity_physics.rs:12-14 | every point goes through the gravity-well response; keys, bones and joints unchanged |
| `EntityPhysics.MutatePoints` | src/physics/entity_physics.rs:12-14 | rewriting the points one key at a time applies the function to every point, and to nothing else |
| `EntityPhysics.NextPoints` | src/physics/entity_physics.rs:48-65 | the result is the integrated entity |
| `EntityPhysics.ApplyGravityWells` | src/physics/entity_physics.rs:12-14 | the result is the entity with gravity wells applied to every point |
| `EntityPhysics.BoneStep` | src/physics/entity_physics.rs:24-35 | one bone: the flag ends set exactly when it was set or the solver yielded nothing; a bone with no locations changes no point; a solved bone gives `p2` the solver's second location and, when its ends differ, `p1` the first; only the locations of the bone's two ends may change |
| `EntityPhysics.PassBones` | src/physics/entity_physics.rs:19-36 | the pass keeps the point keys, bones and joints, and a set flag stays set |
| `EntityPhysics.PassBonesWritesOnlyLocations` | src/physics/entity_physics.rs:20-26 | after a pass every point keeps its previous location, momentum and friction, and a point no bone touches is unchanged |
| `EntityPhysics.PassBonesAppend` | src/physics/entity_physics.rs:20-36 | bones are processed strictly in order: a pass over `xs + ys` is a pass over `xs` then over `ys` |
| `EntityPhysics.PassBonesBreaksIff` | src/physics/entity_physics.rs:19-36 | the pass ends broken exactly when it started broken or some bone yielded no locations on the state the pass had reached there |
| `EntityPhysics.BrokenPassHasBreak` | src/physics/entity_physics.rs:19-36 | a pass that starts unbroken and ends broken has a bone whose solver yielded no locations on the state the pass had reached there |
| `EntityPhysics.LaterBonesSeeBreak` | src/physics/entity_physics.rs:24-35 | after a bone breaks, every later bone of the same pass still runs, with the flag set |
| `EntityPhysics.BonesOutcome` | src/physics/entity_physics.rs:18-44 | `Same` holds the entity as it stands after the whole pass, which keeps the point keys, bones and joints; `Broken` is the split of that entity |
| `EntityPhysics.BonesOutcomeBreaksIff` | src/physics/entity_physics.rs:18-44 | `apply_bones` returns `Broken` exactly when some bone's solver returned no locations |
| `EntityPhysics.ApplyBones` | src/physics/entity_physics.rs:18-44 | the loop over the bone snapshot computes `BonesOutcome` |
| `EntityPhysics.AnyJointBreaks` | src/physics/entity_physics.rs:70-70 | true exactly when some joint of the list should break |
| `EntityPhysics.ApplyAllJoints` | src/physics/entity_physics.rs:69-76 | `Broken` (the split of the entity) exactly when some joint should break, otherwise the entity unchanged |
| `EntityPhysics.Iterate` | src/physics/entity_physics.rs:105-132 | from `Broken` an iteration panics or stays `Broken`, and it panics exactly when either half's bone pass breaks; live entities stay well-formed |
| `EntityPhysics.Relax` | src/physics/entity_physics.rs:101-133 | every state reached by the iterations is well-formed |
| `EntityPhysics.IterateOnce` | src/physics/entity_physics.rs:105-132 | one round of the loop (the bone pass, on each half with `unwrap_same` once broken, then gravity wells) computes `Iterate` |
| `EntityPhysics.RelaxLoop` | src/physics/entity_physics.rs:99-133 | the loop over `iterations` rounds, stopping at the first panic, computes `Relax` |
| `EntityPhysics.ApplyAllPhysics` | src/physics/entity_physics.rs:86-139 | integrates once, runs the iterations and the final step, and returns `PhysicsOutcome` |
| `EntityPhysics.ApplyAllPhysicsEz` | src/physics/entity_physics.rs:80-82 | equals `apply_all_physics` with gravity (0, 0.175) and 6 iterations |
| `EntityPhysics.NoWayBack` | src/physics/entity_physics.rs:105-113 | once `Broken`, any number of iterations ends in `Broken` or the panic, never `Same` |
| `EntityPhysics.WholeAfter` | src/physics/entity_physics.rs:101-133 | an entity that no iteration breaks relaxes to a whole entity, reached through gravity wells after each pass |
| `EntityPhysics.StaysSameIff` | src/physics/entity_physics.rs:105-113 | relaxing a whole entity ends whole exactly when every iteration's bone pass returned `Same` |
| `EntityPhysics.HalvesRelaxIndependently` | src/physics/entity_physics.rs:107-112 | after a break, each half is relaxed on its own as a whole entity would be, and the run panics exactly when either half breaks again |
| `EntityPhysics.BreakThenHalves` | src/physics/entity_physics.rs:101-133 | a whole entity that stays whole for `k` iterations and breaks in the next one has both halves pass through gravity wells in that iteration; the run of `n` iterations then goes on from that broken pair for the remaining `n - k - 1` |
| `EntityPhysics.WholeExactlyWhenNothingBreaks` | src/physics/entity_physics.rs:135-138 | the frame leaves the entity whole exactly when no bone pass broke it and no joint of the relaxed entity should break |
| `Tracks.DefaultMeta` | src/game/track.rs:21-30 | the default configuration gives lines the default line's extension ratio 0.25, gravity wells 10 high, no remount and grid cells 14 wide |
| `Tracks.CachedFrameIsSimulated` | src/game/track.rs:100-109 | in a consistent cache, frame `i` is the frame step applied `i` times to frame 0 |
| `Tracks.SimulateAdditive` | src/game/track.rs:100-109 | stepping on from a cached frame gives the same frames as stepping from frame 0 |
| `Tracks.IndexWhere` | src/game/track.rs:126-126 | `None` exactly when no element matches; otherwise the index of the first match |
| `Tracks.RemoveAt` | src/game/track.rs:126-126 | removal at `i` keeps the elements before `i` and shifts the rest down by one |
| `Tracks.RemoveLineFrom` | src/game/track.rs:79-82 | with no equal line the store is unchanged; otherwise the first equal line is the one dropped |
| `Tracks.Track.constructor` | src/game/track.rs:43-50 | a new track has the default configuration, the given lines, and a cache holding only the starting positions |
| `Tracks.Track.WithMeta` | src/game/track.rs:51-61 | as the constructor, with the given configuration |
| `Tracks.Track.NewLineBuilder` | src/game/track.rs:63-65 | a fresh builder whose line carries the track's extension ratio |
| `Tracks.Track.AddLine` | src/game/track.rs:73-76 | appends the line and truncates the cache to frame 0, which is unchanged; the cache stays consistent |
| `Tracks.Track.RemoveLine` | src/game/track.rs:79-82 | removes the first equal line, if any, and truncates the cache to frame 0 either way |
| `Tracks.Track.EntityPositionsAt` | src/game/track.rs:95-111 | returns frame `f` of the simulation from frame 0; a cached frame leaves the cache unchanged; otherwise the cache grows to exactly `f + 1` frames, keeps its old prefix, and each new frame is the step of the one before |
| `Tracks.Track.CreateEntity` | src/game/track.rs:114-120 | appends the entity to the end of frame 0 and truncates the cache to that frame |
| `Tracks.Track.RemoveEntity` | src/game/track.rs:123-130 | `None` exactly when frame 0 holds no equal entity, and then the cache is untouched; otherwise the first equal entity is removed from frame 0 and the cache is truncated to it |
| `Tracks.RepeatedQuery` | src/game/track.rs:95-111 | asking twice for one frame gives equal results, both the simulated frame; the lines are unchanged; the cache ends exactly as after one call: unchanged if the frame was cached, otherwise grown to that frame with the old frames kept |
| `Tracks.DefaultTrackBuildsDefaultLine` | src/game/track.rs:63-65 | on a track with the default configuration, `line_builder().build()` is the default line |

## Left out

- The spatial line grid (`Grid`: cell rasterisation, `lines_near`, `lines_near_box`, cell order) is not part of this model. The track's line store is its sequence of lines in insertion order. `Track::lines_near`, `lines_near_box` and `all_lines` only forward to the grid.
- Tracks.RemoveLineFrom: the grid's removal is not part of this model. When several stored lines are equal, the model drops the first of them, and the grid may pick another.
- `frame_after`, `next_bone_locations`, `joint_should_break`, `Entity::split` and the per-point gravity-well response are not part of this model. They are opaque function parameters. The gravity-well response is taken as already bound to the track.
- `snap_point`, `distance_below_line`, `perpendicular`, `as_vector2d` and `length_squared` are floating-point geometry. They are left out. `HitboxExtensions` takes the line length as a parameter.
- All `f64` arithmetic is exact real arithmetic, so rounding, NaN and infinities are not modelled. The numeric test assertions on averaged positions depend on them.
- The engine's rider module (entity construction, `split`, `point_at_mut`, `mutate_points`) is not modelled; `rider.dfy` holds only the entity data the pipeline reads and writes. `PointIndex` lists the roles the engine's debug printer names. Bones and joints carry only the fields the pipeline uses. What `point_at_mut` does with a point the entity lacks is defined in the rider module, which this model does not cover, so the model requires every bone to join points of its own entity (`BonesPresent`). `ApplyAllPhysics` also requires the split to keep that property (`SplitKeepsBones`). `mutate_points` is defined in the same rider module; `MutatePoints` assumes it applies the closure exactly once to every point and to nothing else.
- The `unwrap_same` panic is the `Panic` outcome, not an abort.
- Track configuration: `meta` is a public field in the source, and writing it directly would not reset the cache. The model fixes it when the track is built.
- The `RefCell` around the cache, `Clone for Track`, serde derives, the `Hash` impl and debug printing are left out. The model is single-threaded, so the cache is a plain field.
- The `usize` frame index and `u64` iteration count are unbounded naturals.
