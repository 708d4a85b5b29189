/** Which changes of a tile a creature with a walk cache has to be told about: the tile as Tile::queryAdd
    sees it when a monster that pushes no creatures looks for a path. */
module WalkNotices {
  import opened WalkCache

  /** field: a magic field. */
  datatype TileItem = TileItem(flags: Solidity, immovable: bool, field: bool)

  datatype Ground = NoGround | Ground(item: TileItem)

  /** visible: the number of creatures that are not in ghost mode. othersPass: floor changes, teleports,
      zones and the harm of fields do not keep the monster out. */
  datatype Tile = Tile(ground: Ground, items: multiset<TileItem>, visible: nat, othersPass: bool)

  predicate On(t: Tile, item: TileItem) {
    t.ground == Ground(item) || item in t.items
  }

  predicate InTheWay(item: TileItem) {
    item.flags.blockSolid || (item.flags.blockPathFind && !item.field)
  }

  /** What stands in the way keeps the monster out, unless it can be pushed aside. */
  ghost predicate MayWalk(t: Tile, pushesItems: bool) {
    t.othersPass && t.ground.Ground? && t.visible == 0
    && forall item :: On(t, item) && InTheWay(item) ==> !item.immovable && pushesItems
  }

  /** The tile with one more item, or with the item as its ground. */
  function With(t: Tile, item: TileItem, asGround: bool): Tile {
    if asGround then t.(ground := Ground(item)) else t.(items := t.items + multiset{item})
  }

  ghost predicate Updated(before: Tile, after: Tile, was: TileItem, now: TileItem) {
    exists rest, asGround :: before == With(rest, was, asGround) && after == With(rest, now, asGround)
  }

  /** What leaves the place of the ground is of a ground type. */
  predicate Removed(before: Tile, after: Tile, what: TileItem, asGround: bool) {
    before == With(after, what, asGround) && (asGround ==> what.flags.ground && after.ground.NoGround?)
  }

  /** The tile before and after a change. */
  ghost predicate Changed(before: Tile, after: Tile, change: Change) {
    match change
    case ItemAdded => exists item, asGround :: after == With(before, item, asGround)
    case ItemUpdated(was, now) => exists x, y :: Updated(before, after, x, y) && x.flags == was && y.flags == now
    case ItemRemoved(what) => exists x, asGround :: Removed(before, after, x, asGround) && x.flags == what
    case CreatureChanged => after == before.(visible := after.visible)
  }

  ghost predicate Matters(before: Tile, after: Tile, change: Change, pushesItems: bool) {
    Changed(before, after, change) && MayWalk(before, pushesItems) != MayWalk(after, pushesItems)
  }

  /** The notifications look at exactly the changes that can matter: one that is passed over makes no
      difference on any tile for any monster, and of those that are not, each makes one somewhere. */
  lemma NoticedIffMatters(change: Change)
    ensures Noticed(change) <==> exists before, after, pushesItems :: Matters(before, after, change, pushesItems)
  {
    if Noticed(change) {
      var before, after, pushesItems := Example(change);
    } else {
      forall before, after, pushesItems | Changed(before, after, change)
        ensures MayWalk(before, pushesItems) == MayWalk(after, pushesItems)
      {
        PassedOver(before, after, change, pushesItems);
      }
    }
  }

  lemma PassedOver(before: Tile, after: Tile, change: Change, pushesItems: bool)
    requires Changed(before, after, change) && !Noticed(change)
    ensures MayWalk(before, pushesItems) == MayWalk(after, pushesItems)
  {
    match change {
      case ItemUpdated(was, now) =>
        var x, y :| Updated(before, after, x, y) && x.flags == was && y.flags == now;
        var rest, asGround :| before == With(rest, x, asGround) && after == With(rest, y, asGround);
        NotInTheWay(rest, x, asGround, pushesItems);
        NotInTheWay(rest, y, asGround, pushesItems);
      case ItemRemoved(what) =>
        var x, asGround :| Removed(before, after, x, asGround) && x.flags == what;
        NotInTheWay(after, x, asGround, pushesItems);
      case _ =>
    }
  }

  /** An item that is not in the way changes nothing beside the others; as the ground it makes one. */
  lemma NotInTheWay(t: Tile, item: TileItem, asGround: bool, pushesItems: bool)
    requires !item.flags.blockSolid && !item.flags.blockPathFind
    ensures MayWalk(With(t, item, asGround), pushesItems) <==>
            t.othersPass && (asGround || t.ground.Ground?) && t.visible == 0
            && forall other :: (if asGround then other in t.items else On(t, other)) && InTheWay(other)
                 ==> !other.immovable && pushesItems
  {
    var t' := With(t, item, asGround);
    assert forall other :: On(t', other) <==> other == item || if asGround then other in t.items else On(t, other);
  }

  const FLOOR := TileItem(Solidity(false, false, true), true, false)
  const LAWN := Tile(Ground(FLOOR), multiset{}, 0, true)

  /** A tile for each change that is not passed over. */
  lemma Example(change: Change) returns (before: Tile, after: Tile, pushesItems: bool)
    requires Noticed(change)
    ensures Matters(before, after, change, pushesItems)
  {
    match change {
      case ItemAdded =>
        var wall := TileItem(Solidity(true, false, false), true, false);
        before, after, pushesItems := LAWN, With(LAWN, wall, false), false;
        assert On(after, wall);
        assert MayWalk(before, false);
      case ItemUpdated(was, now) =>
        var blocked := was.blockSolid || was.blockPathFind;
        var x, y := TileItem(was, blocked, false), TileItem(now, !blocked, false);
        before, after, pushesItems := With(LAWN, x, false), With(LAWN, y, false), true;
        assert Updated(before, after, x, y);
        assert On(before, x) && On(after, y);
      case ItemRemoved(what) =>
        var x := TileItem(what, true, false);
        pushesItems := false;
        if InTheWay(x) {
          before, after := With(LAWN, x, false), LAWN;
          assert Removed(before, after, x, false);
          assert On(before, x) && MayWalk(after, false);
        } else {
          after := LAWN.(ground := NoGround);
          before := With(after, x, true);
          assert Removed(before, after, x, true);
          assert MayWalk(before, false);
        }
      case CreatureChanged =>
        before, after, pushesItems := LAWN, LAWN.(visible := 1), false;
        assert MayWalk(before, false);
    }
  }
}
