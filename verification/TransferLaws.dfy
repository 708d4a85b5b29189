/** What a call of Game::internalMoveItem conserves: whole items arrive and pieces of stacks add up, and
    exactly when they do not. */
module TransferLaws {
  import opened Bytes
  import opened ItemForest
  import opened ItemMoves
  import opened ItemStore
  import opened ItemQueries
  import opened ItemTransfers

  // ---------- items that do not stack ----------

  /** The container a request leads to: one up, the container in the slot, or the one it names. */
  function Goal(f: Forest, boxes: map<Handle, Box>, m: Request): Handle
    requires m.to in f.items && m.to in boxes
  {
    var list, index := f.items[m.to], m.q.index;
    if !boxes[m.to].unlocked then m.to
    else if index == 254 then if m.to in f.parent then f.parent[m.to] else m.to
    else if index != 255 && (index < boxes[m.to].capacity || boxes[m.to].pagination)
            && 0 <= index < |list| && list[index] in f.items then list[index]
    else m.to
  }

  /** An index that is not below the capacity gets through in a container with pages, unless it stands for
      something else or shows a container. */
  predicate PastTheEnd(f: Forest, boxes: map<Handle, Box>, m: Request)
    requires m.to in f.items && m.to in boxes
  {
    var list, index := f.items[m.to], m.q.index;
    boxes[m.to].pagination && index >= boxes[m.to].capacity && index != 254 && index != 255
    && !(index < |list| && list[index] in f.items)
  }

  lemma GoalSettled(f: Forest, boxes: map<Handle, Box>, m: Request)
    requires Domains(f) && f.items.Keys <= boxes.Keys && m.to in f.items
    ensures Settled(f, boxes, m).c == Goal(f, boxes, m)
  {
    hide FirstStack;
  }

  lemma IndexSettled(f: Forest, boxes: map<Handle, Box>, m: Request)
    requires Domains(f) && f.items.Keys <= boxes.Keys && m.to in f.items && !Stackable(f, m.x)
    requires boxes[Settled(f, boxes, m).c].unlocked
    ensures Settled(f, boxes, m).index >= boxes[Settled(f, boxes, m).c].capacity <==> PastTheEnd(f, boxes, m)
  {
    hide FirstStack, Stackable;
  }

  /** An item that does not stack: nothing but its own links changes, and it arrives unless the index lies
      past the end of a container with pages, when it ends up in no container at all. */
  lemma ItemArrives(f: Forest, d: Depths, boxes: map<Handle, Box>, m: Request, p: Place, part: nat, r: ReturnValue, h: Handle,
                    left: seq<Block>)
    requires Inv(f, d) && Sends(f, d, boxes, m, p, part, r) && !Stackable(f, m.x) && h !in f.info
    ensures m.x in f.info && m.from in f.items && m.x in f.items[m.from] && m.to in f.items && m.to in boxes && p.c in boxes
    ensures p.c == Goal(f, boxes, m)
    ensures var (f', d') := Carried(f, d, m, p, part, boxes[p.c].capacity, h, left);
            && Inv(f', d') && f'.info == f.info
            && f'.parent == (if PastTheEnd(f, boxes, m) then f.parent - {m.x} else f.parent[m.x := Goal(f, boxes, m)])
            && (m.x in f'.parent <==> !PastTheEnd(f, boxes, m))
  {
    hide Inv, Sends, Settled, Carried, Goal, PastTheEnd, Allowed, Above, InfoAfter, ParentAfter, Domains;
    PlanReady(f, d, boxes, m, p, part, r);
    GoalSettled(f, boxes, m);
    IndexSettled(f, boxes, m);
    CarriedKeeps(f, d, boxes, m, p, part, h, left);
    WholeItem(f, m, p, part, boxes[p.c].capacity, h, left);
  }

  lemma WholeItem(f: Forest, m: Request, p: Place, part: nat, capacity: nat, h: Handle, left: seq<Block>)
    requires m.x in f.info && (p.toItem.Some? ==> p.toItem.value in f.info) && !Stackable(f, m.x) && m.x in f.parent
    ensures InfoAfter(f, m, p, part, h, left) == f.info
    ensures ParentAfter(f, m, p, part, capacity, h) == if p.index >= capacity then f.parent - {m.x} else f.parent[m.x := p.c]
  {
    if p.index < capacity {
      assert (f.parent - {m.x})[m.x := p.c] == f.parent[m.x := p.c];
    }
  }

  // ---------- stacks ----------

  /** The pieces of some items. */
  ghost function Tally(info: map<Handle, Info>, s: set<Handle>): nat {
    if s == {} then 0
    else
      var x :| x in s;
      (if x in info then info[x].count else 0) + Tally(info, s - {x})
  }

  lemma {:induction false} TallyWithout(info: map<Handle, Info>, s: set<Handle>, x: Handle)
    requires x in s
    ensures Tally(info, s) == (if x in info then info[x].count else 0) + Tally(info, s - {x})
    decreases s
  {
    var y :| y in s && Tally(info, s) == (if y in info then info[y].count else 0) + Tally(info, s - {y});
    if y != x {
      TallyWithout(info, s - {y}, x);
      TallyWithout(info, s - {x}, y);
      assert s - {y} - {x} == s - {x} - {y};
    }
  }

  lemma {:induction false} TallyFrame(info: map<Handle, Info>, x: Handle, what: Info, s: set<Handle>)
    requires x !in s
    ensures Tally(info[x := what], s) == Tally(info, s)
    decreases s
  {
    if s != {} {
      var y :| y in s;
      TallyWithout(info, s, y);
      TallyWithout(info[x := what], s, y);
      TallyFrame(info, x, what, s - {y});
    }
  }

  /** Changing one counted item. */
  lemma TallySet(info: map<Handle, Info>, x: Handle, what: Info, s: set<Handle>)
    requires x in s && x in info
    ensures Tally(info[x := what], s) == Tally(info, s) - info[x].count + what.count
  {
    TallyWithout(info, s, x);
    TallyWithout(info[x := what], s, x);
    TallyFrame(info, x, what, s - {x});
  }

  /** All pieces in containers. */
  ghost function Pieces(info: map<Handle, Info>, parent: map<Handle, Handle>): nat {
    Tally(info, parent.Keys)
  }

  /** Counts have eight bits. */
  predicate ByteCounts(f: Forest) {
    forall y :: y in f.info ==> f.info[y].count < 256
  }

  /** The pieces that are put past the end. */
  function Dropped(f: Forest, m: Request, p: Place, part: nat, capacity: nat): nat {
    if p.index >= capacity then part - Merged(f, m.x, p.toItem, part, m.q.alike) else 0
  }

  /** The pieces that the count of the stack has no room for. */
  function Overflown(f: Forest, m: Request, p: Place, part: nat, left: seq<Block>): int
    requires p.toItem.Some? ==> p.toItem.value in f.info
  {
    if !Merges(f, m.x, p.toItem, m.q.alike) then 0
    else
      var y, n := p.toItem.value, Merged(f, m.x, p.toItem, part, m.q.alike);
      f.info[y].count + n - Grown(f, y, n, left).count
  }

  /** A stack: the pieces in all containers together are the same before and after, but for those put past
      the end and those the joined stack cannot count. */
  lemma PiecesConserved(f: Forest, d: Depths, boxes: map<Handle, Box>, m: Request, p: Place, part: nat, r: ReturnValue, h: Handle,
                        left: seq<Block>)
    requires Inv(f, d) && Sends(f, d, boxes, m, p, part, r) && Stackable(f, m.x) && h !in f.info && ByteCounts(f)
    ensures m.x in f.info && m.from in f.items && m.x in f.items[m.from] && p.c in boxes
    ensures p.toItem.Some? ==> p.toItem.value in f.info
    ensures var (f', d') := Carried(f, d, m, p, part, boxes[p.c].capacity, h, left);
            && Inv(f', d')
            && Pieces(f'.info, f'.parent) + Dropped(f, m, p, part, boxes[p.c].capacity) + Overflown(f, m, p, part, left)
               == Pieces(f.info, f.parent)
  {
    hide Inv, Sends, Carried, Allowed, Above, InfoAfter, ParentAfter, Dropped, Overflown, Pieces, ByteCounts;
    PlanReady(f, d, boxes, m, p, part, r);
    CarriedKeeps(f, d, boxes, m, p, part, h, left);
    StackPieces(f, d, boxes, m, p, part, boxes[p.c].capacity, h, left);
  }

  lemma StackPieces(f: Forest, d: Depths, boxes: map<Handle, Box>, m: Request, p: Place, part: nat, capacity: nat, h: Handle,
                    left: seq<Block>)
    requires Inv(f, d) && Ready(f, d, boxes, m, p) && h !in f.info && Stackable(f, m.x) && ByteCounts(f)
    requires m.x in f.info && m.x in f.parent && part <= f.info[m.x].count && (p.toItem.Some? ==> p.toItem.value in f.info)
    ensures Pieces(InfoAfter(f, m, p, part, h, left), ParentAfter(f, m, p, part, capacity, h))
            + Dropped(f, m, p, part, capacity) + Overflown(f, m, p, part, left)
         == Pieces(f.info, f.parent)
  {
    hide Inv, Above, Ready, Merged, Grown, Merges, Partly, Overflown, Pieces, ByteCounts, Stackable, InfoAfter, ParentAfter, Dropped,
         Counted, InfoTaken, InfoJoined, ParentTaken;
    var info1, left1 := InfoTaken(f, m.x, part), ParentTaken(f, m.x, part);
    PiecesTaken(f, m.x, part);
    TakenElsewhere(f, m.x, part);
    PiecesJoined(f, d, boxes, m, p, part, left, info1, left1);
    NotPlaced(f, d, h);
    PiecesCloned(f, m, p, part, capacity, h, left, InfoJoined(f, m, p, part, left, info1), left1);
  }

  lemma TakenElsewhere(f: Forest, x: Handle, part: nat)
    requires x in f.info
    ensures var left1 := ParentTaken(f, x, part);
            (left1.Keys == f.parent.Keys || left1.Keys == f.parent.Keys - {x}) && left1.Keys <= f.parent.Keys
    ensures forall y :: y != x && y in f.info ==> y in InfoTaken(f, x, part) && InfoTaken(f, x, part)[y] == f.info[y]
  {
  }

  /** What the rest adds that the stack does not take. */
  lemma PiecesCloned(f: Forest, m: Request, p: Place, part: nat, capacity: nat, h: Handle, left: seq<Block>, info2: map<Handle, Info>,
                     left1: map<Handle, Handle>)
    requires m.x in f.info && (p.toItem.Some? ==> p.toItem.value in f.info) && Stackable(f, m.x) && ByteCounts(f)
    requires info2 == InfoJoined(f, m, p, part, left, InfoTaken(f, m.x, part)) && left1 == ParentTaken(f, m.x, part)
    requires h !in left1 && part <= f.info[m.x].count
    ensures Pieces(InfoAfter(f, m, p, part, h, left), ParentAfter(f, m, p, part, capacity, h)) + Dropped(f, m, p, part, capacity)
         == Pieces(info2, left1) + part - Merged(f, m.x, p.toItem, part, m.q.alike)
  {
    assert f.info[m.x].count < 256;
    hide Merged, Stackable, Pieces, ByteCounts, InfoTaken, ParentTaken, InfoJoined;
    var n := Merged(f, m.x, p.toItem, part, m.q.alike);
    PiecesPut(info2, left1, p.c, h, Clone(f, m.x, part - n));
  }

  /** What the stack it joins adds. */
  lemma PiecesJoined(f: Forest, d: Depths, boxes: map<Handle, Box>, m: Request, p: Place, part: nat, left: seq<Block>,
                     info1: map<Handle, Info>, left1: map<Handle, Handle>)
    requires Inv(f, d) && Ready(f, d, boxes, m, p) && (p.toItem.Some? ==> p.toItem.value in f.info)
    requires left1.Keys == f.parent.Keys || left1.Keys == f.parent.Keys - {m.x}
    requires forall y :: y != m.x && y in f.info ==> y in info1 && info1[y] == f.info[y]
    ensures var n := Merged(f, m.x, p.toItem, part, m.q.alike);
            Pieces(InfoJoined(f, m, p, part, left, info1), left1) + Overflown(f, m, p, part, left) == Pieces(info1, left1) + n
  {
    hide Inv, Above, Ready, Grown, Equal, Tally;
    if Merges(f, m.x, p.toItem, m.q.alike) {
      var y, n := p.toItem.value, Merged(f, m.x, p.toItem, part, m.q.alike);
      TargetPlaced(f, d, boxes, m, p);
      TallySet(info1, y, Grown(f, y, n, left), left1.Keys);
    }
  }

  /** What the clone adds. */
  lemma PiecesPut(info: map<Handle, Info>, parent: map<Handle, Handle>, c: Handle, h: Handle, clone: Info)
    requires h !in parent
    ensures Pieces(info[h := clone], parent) == Pieces(info, parent)
    ensures Pieces(info[h := clone], parent[h := c]) == Pieces(info, parent) + clone.count
  {
    hide Tally;
    var s := parent.Keys;
    TallyFrame(info, h, clone, s);
    assert parent[h := c].Keys == s + {h};
    TallyWithout(info[h := clone], s + {h}, h);
    assert s + {h} - {h} == s;
  }

  lemma TargetPlaced(f: Forest, d: Depths, boxes: map<Handle, Box>, m: Request, p: Place)
    requires Inv(f, d) && Ready(f, d, boxes, m, p) && p.toItem.Some?
    ensures p.toItem.value in f.parent && p.toItem.value != m.x
  {
    MeetsItem(f, d, p.c, p.toItem.value);
  }

  lemma NotPlaced(f: Forest, d: Depths, h: Handle)
    requires Inv(f, d) && h !in f.info
    ensures h !in f.parent
  {
  }

  /** What taking a part of a stack does to the pieces in containers. */
  lemma PiecesTaken(f: Forest, x: Handle, part: nat)
    requires Stackable(f, x) && ByteCounts(f) && x in f.parent && part <= f.info[x].count
    ensures Pieces(InfoTaken(f, x, part), ParentTaken(f, x, part)) == Pieces(f.info, f.parent) - part
  {
    hide Tally, Counted, ByteCounts;
    CountedDown(f, x, part);
    if Partly(f, x, part) {
      TallySet(f.info, x, Counted(f.info[x], part), f.parent.Keys);
    } else {
      TallyWithout(f.info, f.parent.Keys, x);
      assert (f.parent - {x}).Keys == f.parent.Keys - {x};
    }
  }

  lemma CountedDown(f: Forest, x: Handle, part: nat)
    requires x in f.info && ByteCounts(f) && part <= f.info[x].count
    ensures Counted(f.info[x], part).count == f.info[x].count - part
  {
  }

  /** What the stack does not take has an index below the capacity, and the stack can count what it takes. */
  predicate AllFits(f: Forest, m: Request, p: Place, part: nat, capacity: nat)
    requires m.x in f.info && (p.toItem.Some? ==> p.toItem.value in f.info)
  {
    var n := Merged(f, m.x, p.toItem, part, m.q.alike);
    (p.index < capacity || part == n)
    && (n > 0 ==> f.info[p.toItem.value].count + n < 256 && !f.types[f.info[m.x].id].subTypeAttribute)
  }

  /** Nothing of a stack is lost exactly when all fits. */
  lemma PiecesKept(f: Forest, d: Depths, boxes: map<Handle, Box>, m: Request, p: Place, part: nat, r: ReturnValue, h: Handle,
                   left: seq<Block>)
    requires Inv(f, d) && Sends(f, d, boxes, m, p, part, r) && Stackable(f, m.x) && h !in f.info && ByteCounts(f)
    ensures m.x in f.info && m.from in f.items && m.x in f.items[m.from] && p.c in boxes
    ensures p.toItem.Some? ==> p.toItem.value in f.info
    ensures var (f', d') := Carried(f, d, m, p, part, boxes[p.c].capacity, h, left);
            Pieces(f'.info, f'.parent) == Pieces(f.info, f.parent) <==> AllFits(f, m, p, part, boxes[p.c].capacity)
  {
    hide Inv, Sends, Carried, Dropped, Overflown, Pieces, ByteCounts, AllFits;
    PiecesConserved(f, d, boxes, m, p, part, r, h, left);
    NoPieceLost(f, m, p, part, boxes[p.c].capacity, left);
  }

  lemma NoPieceLost(f: Forest, m: Request, p: Place, part: nat, capacity: nat, left: seq<Block>)
    requires m.x in f.info && ByteCounts(f) && (p.toItem.Some? ==> p.toItem.value in f.info)
    ensures Overflown(f, m, p, part, left) >= 0
    ensures Dropped(f, m, p, part, capacity) + Overflown(f, m, p, part, left) == 0 <==> AllFits(f, m, p, part, capacity)
  {
    if p.toItem.Some? {
      assert f.info[p.toItem.value].count < 256;
    }
  }

  /** Without pages and within the limits no piece is put past the end: where the stack that is met lies
      there, only as much goes as that stack has room for. */
  lemma NoPieceDropped(f: Forest, d: Depths, boxes: map<Handle, Box>, m: Request, p: Place, part: nat, r: ReturnValue)
    requires Inv(f, d) && Sends(f, d, boxes, m, p, part, r) && Stackable(f, m.x)
    requires p.c in boxes && !boxes[p.c].pagination && !(m.q.noLimit && p.c == m.to)
    ensures Dropped(f, m, p, part, boxes[p.c].capacity) == 0
  {
    hide Inv, Ready, Allowed, Above, Verdict, Stackable, Settled, RoomOnStacks, Wrap;
    PlanReady(f, d, boxes, m, p, part, r);
    if p.index >= boxes[p.c].capacity {
      PastStack(f, boxes, m);
      RoomForPart(f, d, boxes, m, p, part, r);
    }
  }

  lemma PastStack(f: Forest, boxes: map<Handle, Box>, m: Request)
    requires Domains(f) && f.items.Keys <= boxes.Keys && m.to in f.items
    requires var p := Settled(f, boxes, m); boxes[p.c].unlocked && !boxes[p.c].pagination && p.index >= boxes[p.c].capacity
    ensures var p := Settled(f, boxes, m);
            && 0 <= p.index < |f.items[p.c]| && p.toItem == Some(f.items[p.c][p.index]) && Joins(f, p.toItem.value, m.x, m.q.alike)
  {
    hide Joins, Stackable;
  }

  lemma RoomForPart(f: Forest, d: Depths, boxes: map<Handle, Box>, m: Request, p: Place, part: nat, r: ReturnValue)
    requires Sends(f, d, boxes, m, p, part, r) && Stackable(f, m.x) && part > 0
    requires p.c in boxes && p.c in f.items && !boxes[p.c].pagination && !Asking(m, p).noLimit && p == Settled(f, boxes, m)
    requires 0 <= boxes[p.c].capacity <= p.index < |f.items[p.c]| && p.toItem == Some(f.items[p.c][p.index])
    requires Joins(f, p.toItem.value, m.x, m.q.alike)
    ensures part == Merged(f, m.x, p.toItem, part, m.q.alike)
  {
    hide Verdict, Settled, Above, RoomOnStacks;
    var y := p.toItem.value;
    var max := MaxCount(f, d, boxes, p.c, m.x, Asking(m, p)).1;
    assert max == RoomAt(f, d, boxes, p.c, m.x, Asking(m, p));
    assert part <= max;
  }

  // ---------- a move that loses its item ----------

  /** A container without pages, a gold pouch with its 25 places and pages, and an item that weighs nothing in
      the first. */
  function Example(): Forest {
    var bag := ItemType(true, false, 0, true, false, true, false);
    Forest(map[1 := bag, 2 := bag.(container := false)],
           map[0 := Info(1, 1, []), 1 := Info(1, 1, []), 2 := Info(2, 1, [])],
           map[2 := 0], map[0 := [2], 1 := []], map[0 := 0, 1 := 0])
  }

  function ExampleDepths(): Depths {
    map[0 := 0, 1 := 0, 2 := 1]
  }

  function ExampleBoxes(): map<Handle, Box> {
    map[0 := Box(true, 20, false, false, false), 1 := Box(true, 25, true, false, false)]
  }

  function Same(): (seq<Block>, seq<Block>) -> bool {
    (a, b) => a == b
  }

  function ExampleRequest(index: int): Request {
    Request(0, 2, 1, false, false, None, Query(index, 1, false, false, 100, 100, false, None, Same()))
  }

  /** The item may go to index 25 of the pouch, and then leaves its container and arrives nowhere. */
  lemma DroppedAtCapacity(h: Handle, left: seq<Block>)
    requires h > 2
    ensures Inv(Example(), ExampleDepths())
    ensures Sends(Example(), ExampleDepths(), ExampleBoxes(), ExampleRequest(25), Place(1, 25, None), 1, NoError)
    ensures 2 in Example().parent
         && 2 !in Carried(Example(), ExampleDepths(), ExampleRequest(25), Place(1, 25, None), 1, 25, h, left).0.parent
  {
    hide Carried, Sends, Inv, Goal, Settled;
    ExampleInv();
    ExampleSends(25);
    assert PastTheEnd(Example(), ExampleBoxes(), ExampleRequest(25));
    ItemArrives(Example(), ExampleDepths(), ExampleBoxes(), ExampleRequest(25), Place(1, 25, None), 1, NoError, h, left);
  }

  lemma ExampleSends(index: nat)
    requires index < 254
    ensures Sends(Example(), ExampleDepths(), ExampleBoxes(), ExampleRequest(index), Place(1, index, None), 1, NoError)
  {
    var f, d, boxes, m := Example(), ExampleDepths(), ExampleBoxes(), ExampleRequest(index);
    assert Settled(f, boxes, m) == Place(1, index, None);
    assert Walk(f, d, boxes, 2, false, 1) == None;
    ExampleEmpty();
    assert Verdict(f, d, boxes, 1, 2, Asking(m, Place(1, index, None))) == NoError;
  }

  lemma ExampleEmpty()
    ensures Holding(Example(), ExampleDepths(), 1, false) == 0
  {
    assert Inside(Example(), ExampleDepths(), 1) == {};
  }

  lemma ExampleValid()
    ensures Valid(Example(), ExampleDepths())
  {
    hide Domains, Ranked, Mirrored;
    ExampleRanked();
    ExampleMirrored();
  }

  lemma ExampleRanked()
    ensures Domains(Example()) && Ranked(Example(), ExampleDepths())
  {
  }

  lemma ExampleMirrored()
    ensures Mirrored(Example())
  {
  }

  lemma ExampleInv()
    ensures Inv(Example(), ExampleDepths())
  {
    var f, d := Example(), ExampleDepths();
    ExampleValid();
    hide Ranked, Mirrored;
    forall c | c in f.items
      ensures f.total[c] == Wrap(Sum(f, Inside(f, d, c)))
    {
      Weightless(Inside(f, d, c));
    }
  }

  lemma {:induction false} Weightless(s: set<Handle>)
    ensures Sum(Example(), s) == 0
    decreases |s|
  {
    if s != {} {
      var x :| x in s;
      SumWithout(Example(), s, x);
      assert Own(Example(), x) == 0;
      Weightless(s - {x});
    }
  }

  // ---------- a move that loses a part of a stack ----------

  /** A bag (0) with 5 coins (2), and a pouch (1) with pages: 25 full stacks of coins (3 to 27) fill its 25
      places, and a stack of 99 (28) lies behind them. */
  function Coins(): Forest {
    Forest(map[1 := ItemType(true, false, 0, true, false, true, false), 3 := ItemType(false, true, 0, true, false, true, false)],
           map h | 0 <= h < 29 :: CoinInfo(h), map h | 2 <= h < 29 :: CoinParent(h),
           map[0 := [2], 1 := Stacks()], map[0 := 0, 1 := 0])
  }

  function CoinInfo(h: Handle): Info {
    if h < 2 then Info(1, 1, []) else Info(3, if h == 2 then 5 else if h == 28 then 99 else 100, [])
  }

  function CoinParent(h: Handle): Handle {
    if h == 2 then 0 else 1
  }

  function CoinDepth(h: Handle): nat {
    if h < 2 then 0 else 1
  }

  function Stacks(): seq<Handle> {
    seq(26, k requires 0 <= k < 26 => k + 3)
  }

  function CoinDepths(): Depths {
    map h | 0 <= h < 29 :: CoinDepth(h)
  }

  ghost function CoinRequest(): Request {
    Request(0, 2, 1, false, false, None,
            Query(INDEX_WHEREEVER, 5, false, false, Holding(Coins(), CoinDepths(), 1, false) + 1, 100, false, None, Same()))
  }

  /** One coin joins the stack of 99, and the other four are gone. */
  lemma CoinsLost(h: Handle, left: seq<Block>)
    requires h >= 29
    ensures Inv(Coins(), CoinDepths())
    ensures Sends(Coins(), CoinDepths(), ExampleBoxes(), CoinRequest(), Place(1, 25, Some(28)), 5, NoError)
    ensures var (f', d') := Carried(Coins(), CoinDepths(), CoinRequest(), Place(1, 25, Some(28)), 5, 25, h, left);
            Pieces(f'.info, f'.parent) == Pieces(Coins().info, Coins().parent) - 4
  {
    hide Carried, Sends, Inv, Pieces, Coins, CoinRequest;
    CoinsInv();
    CoinsSent();
    CoinFacts();
    PiecesConserved(Coins(), CoinDepths(), ExampleBoxes(), CoinRequest(), Place(1, 25, Some(28)), 5, NoError, h, left);
    CoinsDropped(left);
  }

  lemma CoinFacts()
    ensures ByteCounts(Coins()) && Stackable(Coins(), 2) && CoinRequest().x == 2 && CoinRequest().from == 0
    ensures forall h :: h in Coins().info ==> h < 29
  {
  }

  lemma CoinsDropped(left: seq<Block>)
    ensures 28 in Coins().info
    ensures Dropped(Coins(), CoinRequest(), Place(1, 25, Some(28)), 5, 25) == 4
    ensures Overflown(Coins(), CoinRequest(), Place(1, 25, Some(28)), 5, left) == 0
  {
    assert Wrap(1) == 1;
  }

  lemma CoinsSent()
    ensures Sends(Coins(), CoinDepths(), ExampleBoxes(), CoinRequest(), Place(1, 25, Some(28)), 5, NoError)
  {
    var f, d, boxes, m, p := Coins(), CoinDepths(), ExampleBoxes(), CoinRequest(), Place(1, 25, Some(28));
    CoinsSettled();
    CoinsAllowed();
    CoinLinks();
    CoinFacts();
    CoinsRemovable();
    hide Holding, Verdict, Settled, Coins, Domains, Stackable, Removable;
    assert MaxCount(f, d, boxes, 1, 2, Asking(m, p)) == (NoError, 5);
  }

  lemma CoinsRemovable()
    ensures 0 in Coins().items && 2 in Coins().info && Removable(Coins(), 0, 2, 5, false) == NoError
    ensures StacksHoldNothing(Coins().types)
  {
  }

  lemma CoinsSettled()
    ensures Domains(Coins()) && Settled(Coins(), ExampleBoxes(), CoinRequest()) == Place(1, 25, Some(28))
  {
    CoinsRanked();
    CoinLinks();
    CoinFacts();
    FullStacks(0);
    assert Stacks()[25] == 28;
    hide Coins, Domains, Ranked, FirstStack, Stackable, Holding, Settled, Stacks, Same;
    StackFound(Coins(), ExampleBoxes(), CoinRequest(), 25);
  }

  /** A stack that goes to any place of another container goes to the first stack there of its kind with less
      than 100 pieces. */
  lemma JoinsFirst(f: Forest, boxes: map<Handle, Box>, m: Request, k: nat)
    requires Domains(f) && f.items.Keys <= boxes.Keys && m.to in f.items && boxes[m.to].unlocked
    requires m.q.index == -1 && !m.ignoreAutoStack && Stackable(f, m.x) && m.x in f.parent && f.parent[m.x] != m.to
    requires k < |f.items[m.to]| && forall j :: 0 <= j <= k ==> f.items[m.to][j] in f.info && f.items[m.to][j] != m.x
    requires forall j :: 0 <= j <= k ==>
               var y := f.info[f.items[m.to][j]];
               (j == k <==> y.id == f.info[m.x].id && m.q.alike(y.attrs, f.info[m.x].attrs) && y.count < 100)
    ensures Settled(f, boxes, m) == Place(m.to, k, Some(f.items[m.to][k]))
  {
    forall j | 0 <= j <= k
      ensures Joins(f, f.items[m.to][j], m.x, m.q.alike) <==> j == k
    {
      var y := f.info[f.items[m.to][j]];
    }
    FirstStackIs(f, m.x, f.items[m.to], 0, k, m.q.alike);
    StackFound(f, boxes, m, k);
  }

  lemma {:induction false} FirstStackIs(f: Forest, x: Handle, list: seq<Handle>, i: nat, k: nat, alike: (seq<Block>, seq<Block>) -> bool)
    requires i <= k < |list| && forall j :: i <= j <= k ==> (Joins(f, list[j], x, alike) <==> j == k)
    ensures FirstStack(f, x, list, i, alike) == Some(k)
    decreases k - i
  {
    hide Joins;
    if i < k {
      FirstStackIs(f, x, list, i + 1, k, alike);
    }
  }

  /** An item that goes anywhere goes to the first stack it can join. */
  lemma StackFound(f: Forest, boxes: map<Handle, Box>, m: Request, k: nat)
    requires Domains(f) && f.items.Keys <= boxes.Keys && m.to in f.items && boxes[m.to].unlocked
    requires m.q.index == INDEX_WHEREEVER && !m.ignoreAutoStack && Stackable(f, m.x) && m.x in f.parent && f.parent[m.x] != m.to
    requires FirstStack(f, m.x, f.items[m.to], 0, m.q.alike) == Some(k)
    ensures k < |f.items[m.to]| && Settled(f, boxes, m) == Place(m.to, k, Some(f.items[m.to][k]))
  {
    hide Stackable, Joins;
  }

  lemma CoinLinks()
    ensures 1 in Coins().items && Coins().items[1] == Stacks() && Coins().items.Keys == {0, 1}
    ensures 2 in Coins().parent && Coins().parent[2] == 0
  {
  }

  lemma {:induction false} FullStacks(k: nat)
    requires k <= 25
    ensures FirstStack(Coins(), 2, Stacks(), k, Same()) == Some(25)
    decreases 25 - k
  {
    assert Stacks()[k] == k + 3;
    if k < 25 {
      FullStacks(k + 1);
    }
  }

  lemma CoinsAllowed()
    ensures Verdict(Coins(), CoinDepths(), ExampleBoxes(), 1, 2, Asking(CoinRequest(), Place(1, 25, Some(28)))) == NoError
  {
    hide Holding;
    assert Walk(Coins(), CoinDepths(), ExampleBoxes(), 2, false, 1) == None;
    assert LimitRoot(Coins(), CoinDepths(), 1) == 1;
  }

  lemma CoinsInv()
    ensures Inv(Coins(), CoinDepths())
  {
    var f, d := Coins(), CoinDepths();
    CoinsRanked();
    CoinsMirrored();
    hide Domains, Ranked, Mirrored;
    forall c | c in f.items
      ensures c in f.total && f.total[c] == Wrap(Sum(f, Inside(f, d, c)))
    {
      CoinsWeightless(Inside(f, d, c));
    }
  }

  lemma CoinsRanked()
    ensures Domains(Coins()) && Ranked(Coins(), CoinDepths())
  {
  }

  lemma CoinsMirrored()
    ensures Mirrored(Coins())
  {
    forall x | 3 <= x < 29
      ensures x in Stacks()
    {
      assert Stacks()[x - 3] == x;
    }
  }

  lemma {:induction false} CoinsWeightless(s: set<Handle>)
    ensures Sum(Coins(), s) == 0
    decreases |s|
  {
    if s != {} {
      var x :| x in s;
      SumWithout(Coins(), s, x);
      assert Own(Coins(), x) == 0;
      CoinsWeightless(s - {x});
    }
  }
}
