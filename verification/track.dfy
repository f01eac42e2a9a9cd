/** Track classification and scenery layout: which road a level gets, the
    segment arithmetic, and the deterministic placement of trees and
    buildings. `Math.sin` is the parameter `sin`. */
module Track {
  import opened Base
  import opened Text
  import opened GameStore
  import GameScene

  /** The level name, lower-cased; a missing name is empty. */
  function LevelName(l: Level): string {
    Lower(l.name.GetOr(""))
  }

  /** The level's obstacle list; a missing environment or list is empty. */
  function Obstacles(l: Level): seq<string> {
    match l.environment
    case None => []
    case Some(e) => e.obstacles.GetOr([])
  }

  /** `level_number || 1`. */
  function LevelNumber(l: Level): (n: int)
    ensures n != 0
  {
    match l.levelNumber
    case None => 1
    case Some(k) => if k == 0 then 1 else k
  }

  predicate IsMountainRoad(l: Level) {
    var name := LevelName(l);
    "cliffs" in Obstacles(l) || "rocks" in Obstacles(l)
    || Contains(name, "mountain") || Contains(name, "hill") || Contains(name, "hilly") || Contains(name, "path")
  }

  predicate IsCityRoad(l: Level) {
    var name := LevelName(l);
    "buildings" in Obstacles(l) || Contains(name, "city") || Contains(name, "street")
  }

  predicate IsCityEasy(l: Level) {
    IsCityRoad(l) && LevelNumber(l) == 1
  }

  /** The "hilly" test adds nothing: every name containing "hilly" contains "hill". */
  lemma HillySubsumed(l: Level)
    ensures IsMountainRoad(l) <==>
              ("cliffs" in Obstacles(l) || "rocks" in Obstacles(l)
               || Contains(LevelName(l), "mountain") || Contains(LevelName(l), "hill")
               || Contains(LevelName(l), "path"))
  {
    if Contains(LevelName(l), "hilly") {
      assert "hilly" == "hill" + "y";
      ContainsExtension(LevelName(l), "hill", "y");
    }
  }

  /** Name matching ignores case: "Mountain Pass" is a mountain road. */
  lemma MountainByName(l: Level)
    requires l.name == Some("Mountain Pass")
    ensures IsMountainRoad(l)
  {
    var name := LevelName(l);
    assert name[..8] == "mountain";
    assert IsPrefix("mountain", name);
  }

  /** Level numbers 0 and missing both count as level 1, so a city level
      without a number is the easy city. */
  lemma CityEasyLevels(l: Level)
    ensures IsCityEasy(l) <==>
              IsCityRoad(l) && (l.levelNumber.None? || l.levelNumber == Some(0) || l.levelNumber == Some(1))
  {
  }

  /** The generic straight road is laid out for every level that is neither
      a mountain road nor the easy city level. */
  predicate ShowsGenericRoad(l: Level) {
    !IsMountainRoad(l) && !IsCityEasy(l)
  }

  /** The scene's default level (obstacles trees and buildings) is a city road
      but not the easy city unless it is level 1; it never shows the mountain
      start. */
  lemma FallbackLevelRoad(n: int)
    ensures IsCityRoad(GameScene.FallbackLevel(n))
    ensures !IsMountainRoad(GameScene.FallbackLevel(n))
    ensures ShowsGenericRoad(GameScene.FallbackLevel(n)) <==> n != 1 && n != 0
  {
    var l := GameScene.FallbackLevel(n);
    assert Obstacles(l) == ["trees", "buildings"];
    assert LevelName(l) == "track";
    MissingFirstChar("track", "mountain");
    MissingFirstChar("track", "hill");
    MissingFirstChar("track", "hilly");
    MissingFirstChar("track", "path");
  }

  // ---------------------------------------------------------------- segments

  function TrackSegments(trackLength: real): int {
    (trackLength / 100.0).Floor
  }

  /** The z the road and the scenery are laid out from. */
  function TrackZOffset(trackLength: real): real {
    -5.0 * (TrackSegments(trackLength) as real)
  }

  /** The segment count of a level, from its length with the same
      `track_length || 5000` default the scene uses. */
  function LevelSegments(l: Level): (n: int)
    ensures l.trackLength.None? ==> n == 50
    ensures l.trackLength.Some? && l.trackLength.value >= 100.0 ==> n >= 1
  {
    TrackSegments(GameScene.TrackLength(l))
  }

  /** The default 5000-long track has 50 segments and starts at z = -250. */
  lemma DefaultSegments()
    ensures TrackSegments(GameScene.DefaultTrackLength) == 50
    ensures TrackZOffset(GameScene.DefaultTrackLength) == -250.0
  {
  }

  /** The offset moves back 5 for every full hundred of track length. */
  lemma ZOffsetBounds(trackLength: real)
    ensures TrackZOffset(trackLength) - 5.0 < -trackLength / 20.0 <= TrackZOffset(trackLength)
  {
  }

  // ---------------------------------------------------------------- scenery

  /** `pseudoRandom(seed)`: the fractional part of `sin(seed) * 10000`. */
  function PseudoRandom(sin: real -> real, seed: real): (r: real)
    ensures 0.0 <= r < 1.0
  {
    var x := sin(seed) * 10000.0;
    x - (x.Floor as real)
  }

  const TreeCount: nat := 50
  const BuildingCount: nat := 30
  const TreeSide: real := 20.0
  const BuildingSide: real := 25.0

  function SideOf(i: nat, side: real): real {
    if i % 2 == 0 then -side else side
  }

  datatype Tree = Tree(x: real, z: real)
  datatype Building = Building(x: real, z: real, height: real)

  /** The fraction of the track the i-th of `count` items sits at. */
  function Along(trackLength: real, i: nat, count: nat): real
    requires count > 0
  {
    TrackZOffset(trackLength) + (i as real / count as real) * trackLength
  }

  /** Items spread along a positive track length move strictly forward in z. */
  lemma AlongIncreasing(trackLength: real, i: nat, j: nat, count: nat)
    requires count > 0 && i < j && trackLength > 0.0
    ensures Along(trackLength, i, count) < Along(trackLength, j, count)
  {
    var a := i as real / count as real;
    var b := j as real / count as real;
    assert a < b;
    assert (b - a) * trackLength > 0.0;
  }

  /** The 50 trees alternate sides at +-20, each jittered by less than 2.5. */
  function TreePositions(sin: real -> real, trackLength: real): (trees: seq<Tree>)
    ensures |trees| == TreeCount
    ensures forall i :: 0 <= i < |trees| && i % 2 == 0 ==> -22.5 <= trees[i].x < -17.5
    ensures forall i :: 0 <= i < |trees| && i % 2 == 1 ==> 17.5 <= trees[i].x < 22.5
    ensures forall i :: 0 <= i < |trees| ==> trees[i].z == Along(trackLength, i, TreeCount)
  {
    seq(TreeCount, i requires 0 <= i < TreeCount =>
      Tree(SideOf(i, TreeSide) + (PseudoRandom(sin, i as real * 7.13) - 0.5) * 5.0, Along(trackLength, i, TreeCount)))
  }

  /** The 30 buildings alternate sides at +-25 with heights in [5, 15). */
  function BuildingPositions(sin: real -> real, trackLength: real): (bs: seq<Building>)
    ensures |bs| == BuildingCount
    ensures forall i :: 0 <= i < |bs| ==> bs[i].x == (if i % 2 == 0 then -25.0 else 25.0)
    ensures forall i :: 0 <= i < |bs| ==> 5.0 <= bs[i].height < 15.0
    ensures forall i :: 0 <= i < |bs| ==> bs[i].z == Along(trackLength, i, BuildingCount)
  {
    seq(BuildingCount, i requires 0 <= i < BuildingCount =>
      Building(SideOf(i, BuildingSide), Along(trackLength, i, BuildingCount), 5.0 + PseudoRandom(sin, i as real * 3.77) * 10.0))
  }

  /** On a track of positive length the trees run strictly forward from the
      start offset. */
  lemma TreesOrdered(sin: real -> real, trackLength: real, i: nat, j: nat)
    requires trackLength > 0.0 && i < j < TreeCount
    ensures TreePositions(sin, trackLength)[i].z < TreePositions(sin, trackLength)[j].z
    ensures TreePositions(sin, trackLength)[0].z == TrackZOffset(trackLength)
  {
    AlongIncreasing(trackLength, i, j, TreeCount);
  }
}
