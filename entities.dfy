/**
  The moving entities of the scene (bullets, enemies and treasures) and what
  one display frame does to a group of them: move every entity by its fixed
  vertical speed and remove the ones that have left the play area.

  Coordinates are integer tenths of a pixel (see Waves.Scale), so the speeds
  7.5, 2 and 2.2 px per frame become 75, 20 and 22.
*/
module Entities {
  import Waves

  /** The seven treasure types, in the order the scene lists them. */
  datatype TreasureType = CRun | CStat | EW | BX | FuSa | ETrust | VS

  const TreasureTypes: seq<TreasureType> := [CRun, CStat, EW, BX, FuSa, ETrust, VS]

  /** Every entity has a position; a treasure also has a type. */
  datatype Entity =
    | Bullet(x: int, y: int)
    | Enemy(x: int, y: int)
    | Treasure(x: int, y: int, kind: TreasureType)

  datatype Kind = BulletKind | EnemyKind | TreasureKind

  function KindOf(e: Entity): Kind {
    match e
    case Bullet(_, _) => BulletKind
    case Enemy(_, _) => EnemyKind
    case Treasure(_, _, _) => TreasureKind
  }

  /** A bullet is removed once it is above this height. */
  const TopBound := 0

  /** An enemy or treasure is removed once it is below this height (600 px). */
  const BottomBound := 600 * Waves.Scale

  /** Vertical distance covered per frame: bullets rise, enemies and treasures fall. */
  function Velocity(e: Entity): int {
    match e
    case Bullet(_, _) => -75
    case Enemy(_, _) => 20
    case Treasure(_, _, _) => 22
  }

  /** The entity one frame later, before culling. */
  function Moved(e: Entity): Entity {
    e.(y := e.y + Velocity(e))
  }

  /** Bullets leave at the top, everything else at the bottom. */
  predicate OffScreen(e: Entity) {
    if e.Bullet? then e.y < TopBound else e.y > BottomBound
  }

  /** What becomes of one entity in a frame: its moved self, or nothing. */
  function Survivor(e: Entity): seq<Entity> {
    if OffScreen(Moved(e)) then [] else [Moved(e)]
  }

  /** A group after one frame. */
  function AfterFrame(group: seq<Entity>): seq<Entity> {
    if group == [] then []
    else AfterFrame(group[..|group| - 1]) + Survivor(group[|group| - 1])
  }

  /** Reference definition: the positions in the group of the entities that survive a frame, in order. */
  function SurvivorIndices(group: seq<Entity>): seq<nat> {
    if group == [] then []
    else
      var n := |group| - 1;
      SurvivorIndices(group[..n]) + (if OffScreen(Moved(group[n])) then [] else [n])
  }

  /**
    One frame, entity by entity: the survivors are exactly the entities at
    SurvivorIndices(group), in their original order; each keeps its x and
    its kind and has moved by exactly its velocity; a bullet survives iff
    its new y is at least 0, an enemy or treasure iff its new y is at most
    600 px.
  */
  lemma {:induction false} FrameCharacterised(group: seq<Entity>)
    ensures |AfterFrame(group)| == |SurvivorIndices(group)|
    ensures forall j :: 0 <= j < |SurvivorIndices(group)| ==>
      SurvivorIndices(group)[j] < |group| &&
      AfterFrame(group)[j] == Moved(group[SurvivorIndices(group)[j]])
    ensures forall j, k :: 0 <= j < k < |SurvivorIndices(group)| ==>
      SurvivorIndices(group)[j] < SurvivorIndices(group)[k]
    ensures forall i :: 0 <= i < |group| ==>
      (i in SurvivorIndices(group) <==>
        if group[i].Bullet? then group[i].y - 75 >= TopBound
        else group[i].y + Velocity(group[i]) <= BottomBound)
  {
    if group != [] {
      var n := |group| - 1;
      var init := group[..n];
      FrameCharacterised(init);
      var r0, idx0 := AfterFrame(init), SurvivorIndices(init);
      var r, idx := AfterFrame(group), SurvivorIndices(group);
      assert r == r0 + Survivor(group[n]);
      assert idx == idx0 + (if OffScreen(Moved(group[n])) then [] else [n]);
      forall j | 0 <= j < |idx|
        ensures idx[j] < |group| && r[j] == Moved(group[idx[j]])
      {
        if j < |idx0| {
          assert idx[j] == idx0[j] && r[j] == r0[j];
          assert group[idx0[j]] == init[idx0[j]];
        }
      }
      forall i | 0 <= i < |group|
        ensures i in idx <==>
          if group[i].Bullet? then group[i].y - 75 >= TopBound
          else group[i].y + Velocity(group[i]) <= BottomBound
      {
        if i < n {
          assert group[i] == init[i];
          assert i in idx <==> i in idx0;
        } else {
          assert n !in idx0;
        }
      }
    }
  }

  /** Every entity of the group is of kind k. */
  ghost predicate AllOfKind(group: seq<Entity>, k: Kind) {
    forall e :: e in group ==> KindOf(e) == k
  }

  /** A frame turns a group of bullets into a group of bullets, and so on. */
  lemma {:induction false} FrameKeepsKind(group: seq<Entity>, k: Kind)
    requires AllOfKind(group, k)
    ensures AllOfKind(AfterFrame(group), k)
  {
    if group != [] {
      var n := |group| - 1;
      assert AllOfKind(group[..n], k) by {
        forall e | e in group[..n] ensures KindOf(e) == k {
          var i :| 0 <= i < n && group[..n][i] == e;
          assert e == group[i];
        }
      }
      FrameKeepsKind(group[..n], k);
      assert KindOf(group[n]) == k;
    }
  }

  /**
    Advances one group by a frame: each entity moves by its velocity and is
    dropped when it has left the play area.
  */
  method AdvanceGroup(group: seq<Entity>) returns (next: seq<Entity>)
    ensures next == AfterFrame(group)
  {
    next := [];
    var i := 0;
    while i < |group|
      invariant 0 <= i <= |group|
      invariant next == AfterFrame(group[..i])
    {
      assert group[..i + 1][..i] == group[..i];
      var e := group[i];
      var moved := e.(y := e.y + Velocity(e));
      if !OffScreen(moved) {
        next := next + [moved];
      }
      i := i + 1;
    }
    assert group[..|group|] == group;
  }
}
