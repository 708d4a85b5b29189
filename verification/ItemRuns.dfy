/** Whole runs of container operations: what every reachable state keeps. */
module ItemRuns {
  import opened Bytes
  import opened ItemForest
  import opened ItemMoves
  import opened ItemStore
  import opened ItemQueries
  import opened ItemTransfers

  /** A state with the fixed fields of its containers. */
  datatype Snapshot = Snapshot(f: Forest, d: Depths, boxes: map<Handle, Box>)

  ghost predicate Good(s: Snapshot) {
    Inv(s.f, s.d) && s.f.items.Keys <= s.boxes.Keys
  }

  /** The ways a state can change: an item is created, put into a container, moved by internalMoveItem,
      taken out, changed where it lies, or swapped for another. */
  datatype Op =
    | Create(h: Handle, what: Info, box: Box)
    | Add(c: Handle, i: nat, x: Handle, q: Query)
    | Transfer(m: Request, h: Handle, left: seq<Block>)
    | Remove(c: Handle, i: nat)
    | Update(c: Handle, i: nat, what: Info)
    | Replace(c: Handle, i: nat, y: Handle, q: Query)

  ghost predicate Asked(s: Snapshot, c: Handle, x: Handle, q: Query) {
    Allowed(s.f, s.d, s.boxes, c, x, q)
  }

  /** An object that holds nothing, such as one just created. */
  ghost predicate Bare(f: Forest, y: Handle) {
    y in f.info && (y in f.items ==> f.items[y] == [])
  }

  /** internalMoveItem goes through with the request. */
  ghost predicate Sendable(s: Snapshot, m: Request) {
    Posed(s.f, s.boxes, m) && StacksHoldNothing(s.f.types) && !m.q.childIsOwner && Planned(s.f, s.d, s.boxes, m).Moves?
  }

  /** What the operation demands. Whatever is put into a container, queryAdd has allowed it; replacing,
      which the code does without asking, is also done with bare items. */
  ghost predicate Enabled(s: Snapshot, op: Op) {
    match op
    case Create(h, what, box) => h !in s.f.info
    case Add(c, i, x, q) => Asked(s, c, x, q) && x !in s.f.parent && i <= |s.f.items[c]|
    case Transfer(m, h, left) => Sendable(s, m) && h !in s.f.info
    case Remove(c, i) => c in s.f.items && i < |s.f.items[c]|
    case Update(c, i, what) => c in s.f.items && i < |s.f.items[c]|
    case Replace(c, i, y, q) =>
      c in s.f.items && i < |s.f.items[c]| && y !in s.f.parent && (Asked(s, c, y, q) || (Bare(s.f, y) && y != c))
  }

  ghost function Step(s: Snapshot, op: Op): Snapshot
    requires Enabled(s, op)
  {
    match op
    case Create(h, what, box) => Snapshot(Created(s.f, h, what), s.d[h := 0], s.boxes[h := box])
    case Add(c, i, x, q) => s.(f := Added(s.f, s.d, c, i, x), d := DepthsLinked(s.f, s.d, c, x))
    case Transfer(m, h, left) =>
      var plan := Planned(s.f, s.d, s.boxes, m);
      var (f', d') := Carried(s.f, s.d, m, plan.p, plan.part, s.boxes[plan.p.c].capacity, h, left);
      s.(f := f', d := d')
    case Remove(c, i) => s.(f := Removed(s.f, s.d, c, i), d := DepthsUnlinked(s.f, s.d, s.f.items[c][i]))
    case Update(c, i, what) => s.(f := Updated(s.f, s.d, c, i, what))
    case Replace(c, i, y, q) => s.(f := Replaced(s.f, s.d, c, i, y), d := DepthsReplaced(s.f, s.d, c, i, y))
  }

  /** Nothing that the operations of the store do is left out of the runs: creating under a new handle, adding
      in front and at the back, any move that goes through, and taking out, changing or swapping any item. */
  lemma StepsFor(s: Snapshot, c: Handle, x: Handle, y: Handle, q: Query, m: Request, p: Place, part: nat, r: ReturnValue, h: Handle,
                 what: Info, box: Box, left: seq<Block>)
    requires Good(s) && h !in s.f.info
    ensures Enabled(s, Create(h, what, box))
    ensures Allowed(s.f, s.d, s.boxes, c, x, q) && x !in s.f.parent ==>
              Enabled(s, Add(c, 0, x, q)) && Enabled(s, Add(c, |s.f.items[c]|, x, q))
    ensures Sends(s.f, s.d, s.boxes, m, p, part, r) ==> Enabled(s, Transfer(m, h, left))
    ensures c in s.f.items && x in s.f.items[c] ==>
              var i := Position(s.f.items[c], x);
              && Enabled(s, Remove(c, i)) && Enabled(s, Update(c, i, what))
              && (y !in s.f.parent && y in s.f.info && y !in s.f.items ==> Enabled(s, Replace(c, i, y, q)))
              && (y !in s.f.parent && Allowed(s.f, s.d, s.boxes, c, y, q) ==> Enabled(s, Replace(c, i, y, q)))
  {
    hide Planned, Verdict, Inv;
    if c in s.f.items && x in s.f.items[c] && y in s.f.info && y !in s.f.items {
      assert y != c && Bare(s.f, y);
    }
  }

  /** Running the operations in order; one that is not enabled is refused and changes nothing. */
  ghost function Run(s: Snapshot, ops: seq<Op>): Snapshot
    decreases |ops|
  {
    if ops == [] then s
    else Run(if Enabled(s, ops[0]) then Step(s, ops[0]) else s, ops[1..])
  }

  /** What queryAdd allows can be linked ... */
  lemma AskedLinks(s: Snapshot, c: Handle, x: Handle, q: Query)
    requires Good(s) && Asked(s, c, x, q) && x !in s.f.parent
    ensures CanLink(s.f, s.d, c, x)
  {
    hide Above, Verdict, Weighed, Mirrored, Ranked;
    AllowedMeans(s.f, s.d, s.boxes, c, x, q);
  }

  /** ... and so can a bare item. */
  lemma BareLinks(s: Snapshot, c: Handle, y: Handle)
    requires Good(s) && c in s.f.items && Bare(s.f, y) && y !in s.f.parent && y != c
    ensures CanLink(s.f, s.d, c, y)
  {
    hide Weighed, Above;
    BareHoldsNothing(s.f, s.d, y, c);
  }

  lemma {:induction false} BareHoldsNothing(f: Forest, d: Depths, y: Handle, h: Handle)
    requires Valid(f, d) && Bare(f, y) && h in f.info && h != y
    ensures !Above(f, d, y, h)
    decreases Depth(d, h)
  {
    if h in f.parent {
      assert h in f.items[f.parent[h]];
      BareHoldsNothing(f, d, y, f.parent[h]);
    }
  }

  lemma StepInv(s: Snapshot, op: Op)
    requires Good(s) && Enabled(s, op)
    ensures Inv(Step(s, op).f, Step(s, op).d)
  {
    hide Inv, Added, Removed, Updated, Replaced, Created, Carried, Planned, DepthsLinked, DepthsUnlinked, DepthsReplaced, Allowed, Bare, CanLink;
    match op
    case Create(h, what, box) => CreateKeeps(s.f, s.d, h, what);
    case Add(c, i, x, q) =>
      AskedLinks(s, c, x, q);
      AddKeeps(s.f, s.d, c, i, x);
    case Transfer(m, h, left) => TransferKeeps(s, m, h, left);
    case Remove(c, i) => RemoveKeeps(s.f, s.d, c, i);
    case Update(c, i, what) => UpdateKeeps(s.f, s.d, c, i, what);
    case Replace(c, i, y, q) =>
      if Asked(s, c, y, q) {
        AskedLinks(s, c, y, q);
      } else {
        BareLinks(s, c, y);
      }
      ReplaceKeeps(s.f, s.d, c, i, y);
  }

  /** Only creation makes containers, and it makes their fixed fields with them. */
  lemma StepBoxes(s: Snapshot, op: Op)
    requires Good(s) && Enabled(s, op)
    ensures Step(s, op).f.items.Keys <= Step(s, op).boxes.Keys
  {
    hide Inv, Carried, DepthsLinked, DepthsUnlinked, DepthsReplaced, Verdict, Bare, Wrap, AsInt32, Weight, Above, Difference, Planned;
    match op
    case Transfer(m, h, left) => TransferKeeps(s, m, h, left);
    case _ =>
  }

  lemma TransferKeeps(s: Snapshot, m: Request, h: Handle, left: seq<Block>)
    requires Good(s) && Sendable(s, m) && h !in s.f.info
    ensures var plan := Planned(s.f, s.d, s.boxes, m);
            && plan.p.c in s.boxes && m.from in s.f.items && m.x in s.f.items[m.from] && m.x in s.f.info
            && var (f', d') := Carried(s.f, s.d, m, plan.p, plan.part, s.boxes[plan.p.c].capacity, h, left);
               Inv(f', d') && f'.items.Keys == s.f.items.Keys
  {
    hide Inv, Planned, Carried, Posed, Ready, Allowed, InfoAfter, ParentAfter, Settled;
    var plan := Planned(s.f, s.d, s.boxes, m);
    PlanReady(s.f, s.d, s.boxes, m, plan.p, plan.part, plan.r);
    CarriedKeeps(s.f, s.d, s.boxes, m, plan.p, plan.part, h, left);
  }

  lemma StepKeeps(s: Snapshot, op: Op)
    requires Good(s) && Enabled(s, op)
    ensures Good(Step(s, op))
  {
    hide Inv, Enabled, Step;
    StepInv(s, op);
    StepBoxes(s, op);
  }

  /** In every state a run guarded by queryAdd can reach, the links form a forest that the item lists
      mirror, and every cached weight is the weight of what is inside, modulo 2^32. */
  lemma {:induction false} RunKeeps(s: Snapshot, ops: seq<Op>)
    requires Good(s)
    ensures Good(Run(s, ops))
    decreases |ops|
  {
    hide Good, Enabled, Step;
    if ops != [] {
      if Enabled(s, ops[0]) {
        StepKeeps(s, ops[0]);
        RunKeeps(Step(s, ops[0]), ops[1..]);
      } else {
        RunKeeps(s, ops[1..]);
      }
    }
  }

  /** No object sits inside itself, at any depth. */
  lemma NoCycles(s: Snapshot, ops: seq<Op>, x: Handle)
    requires Good(s)
    ensures var t := Run(s, ops);
            x in t.f.parent ==> x in t.f.info && t.f.parent[x] in t.f.info && !Above(t.f, t.d, x, t.f.parent[x])
  {
    hide Run;
    RunKeeps(s, ops);
    var t := Run(s, ops);
    if x in t.f.parent && Above(t.f, t.d, x, t.f.parent[x]) {
      AboveIsShallower(t.f, t.d, x, t.f.parent[x]);
    }
  }
}
