/**
 * Logic relinking after a game object has been replicated. Each controller
 * of the new object still points at the sensors and actuators of the
 * originals; every such link is redirected to the brick that sits at the
 * same position in the replica of its owner, kept when the owner was not
 * replicated but is still active, and dropped otherwise.
 */
module KxSceneLogic {
  import opened StdVector
  import opened KxScene

  /** A sensor or actuator (a logic brick), as an opaque identifier. */
  type BrickId = nat

  datatype BrickKind = SensorBrick | ActuatorBrick

  /** What the relinking reads of the scene and its objects. */
  datatype LogicWorld = LogicWorld(
    ownerOf: map<BrickId, ObjId>,         // GetParent() of each brick
    sensorsOf: map<ObjId, seq<BrickId>>,  // GetSensors() of each object
    actuatorsOf: map<ObjId, seq<BrickId>>, // GetActuators() of each object
    replicaOf: map<ObjId, ObjId>,         // the original-to-replica map; a missing key reads as null
    active: seq<ObjId>)                   // the scene's object list

  /** The links of one controller and its execution priority. */
  datatype ControllerLinks = ControllerLinks(sensors: seq<BrickId>, actuators: seq<BrickId>, priority: int)

  /** The brick list of `obj` of the given kind; an unknown object has none. */
  function Bricks(w: LogicWorld, kind: BrickKind, obj: ObjId): seq<BrickId>
  {
    var m := if kind == SensorBrick then w.sensorsOf else w.actuatorsOf;
    if obj in m then m[obj] else []
  }

  /** The outcome of looking up the brick at the same position in the replica's list. */
  datatype Remap = Found(brick: BrickId) | Missing | OutOfRange

  /**
   * The position scan: the index of `b` in the original owner's list and the
   * replica's brick at that index; `Missing` when `b` is not in the list (the
   * result pointer stays null) and `OutOfRange` when the replica's list is
   * shorter (`at` throws).
   */
  function NewBrickAt(oldList: seq<BrickId>, newList: seq<BrickId>, b: BrickId): Remap
  {
    var pos := Find(oldList, b);
    if pos == |oldList| then Missing
    else if pos < |newList| then Found(newList[pos])
    else OutOfRange
  }

  /**
   * The lookup is missing exactly when the brick is not in the owner's list,
   * out of range exactly when its first position is past the replica's list,
   * and otherwise finds the replica's brick at a position holding the brick.
   */
  lemma NewBrickAtCases(oldList: seq<BrickId>, newList: seq<BrickId>, b: BrickId)
    ensures NewBrickAt(oldList, newList, b) == Missing <==> b !in oldList
    ensures NewBrickAt(oldList, newList, b) == OutOfRange <==> b in oldList && Find(oldList, b) >= |newList|
    ensures NewBrickAt(oldList, newList, b).Found? ==>
      exists i :: 0 <= i < |oldList| && i < |newList| && oldList[i] == b && NewBrickAt(oldList, newList, b).brick == newList[i]
  {
    FindAbsent(oldList, b);
  }

  /** The scan over the owner's list, as the loop with its position counter does it. */
  method FindNewBrick(oldList: seq<BrickId>, newList: seq<BrickId>, b: BrickId) returns (r: Remap)
    ensures r == NewBrickAt(oldList, newList, b)
  {
    var pos := 0;
    while pos < |oldList|
      invariant pos <= |oldList|
      invariant forall k :: 0 <= k < pos ==> oldList[k] != b
    {
      if oldList[pos] == b {
        if pos < |newList| {
          return Found(newList[pos]);
        }
        return OutOfRange;
      }
      pos := pos + 1;
    }
    return Missing;
  }

  /** In a duplicate-free list each brick maps to the one at its own position. */
  lemma NewBrickAtPreservesIndex(oldList: seq<BrickId>, newList: seq<BrickId>, i: nat)
    requires NoDup(oldList) && i < |oldList| && i < |newList|
    ensures NewBrickAt(oldList, newList, oldList[i]) == Found(newList[i])
  {
    FindNoDup(oldList, i);
  }

  /** Between two duplicate-free lists of equal length the mapping can be undone by the reverse scan. */
  lemma NewBrickAtRoundTrip(oldList: seq<BrickId>, newList: seq<BrickId>, b: BrickId)
    requires NoDup(oldList) && NoDup(newList) && |oldList| == |newList| && b in oldList
    ensures NewBrickAt(oldList, newList, b).Found?
    ensures NewBrickAt(newList, oldList, NewBrickAt(oldList, newList, b).brick) == Found(b)
  {
    var i := Find(oldList, b);
    FindAbsent(oldList, b);
    NewBrickAtPreservesIndex(oldList, newList, i);
    NewBrickAtPreservesIndex(newList, oldList, i);
  }

  /** The replica of `obj`, or `None` for null. */
  function ReplicaOf(w: LogicWorld, obj: ObjId): Option<ObjId>
  {
    if obj in w.replicaOf then Some(w.replicaOf[obj]) else None
  }

  /** A link can be relinked: its owner is known and, when replicated, the brick has a counterpart. */
  predicate Relinkable(w: LogicWorld, kind: BrickKind, b: BrickId)
  {
    b in w.ownerOf &&
    match ReplicaOf(w, w.ownerOf[b])
      case None => true
      case Some(n) => NewBrickAt(Bricks(w, kind, w.ownerOf[b]), Bricks(w, kind, n), b).Found?
  }

  /** What one old link becomes: the replica's brick, itself when its owner is active, or nothing. */
  function RelinkOne(w: LogicWorld, kind: BrickKind, b: BrickId): Option<BrickId>
    requires Relinkable(w, kind, b)
  {
    var o := w.ownerOf[b];
    match ReplicaOf(w, o)
      case None => if o in w.active then Some(b) else None
      case Some(n) => Some(NewBrickAt(Bricks(w, kind, o), Bricks(w, kind, n), b).brick)
  }

  /** The links a controller holds after relinking `links` in order. */
  function Relinked(w: LogicWorld, kind: BrickKind, links: seq<BrickId>): seq<BrickId>
    requires forall k :: 0 <= k < |links| ==> Relinkable(w, kind, links[k])
  {
    if links == [] then []
    else
      var front := Relinked(w, kind, links[..|links| - 1]);
      match RelinkOne(w, kind, links[|links| - 1])
        case None => front
        case Some(nb) => front + [nb]
  }

  /** Relinking drops no link whose owner was replicated and only keeps others whose owner is active. */
  lemma {:induction false} RelinkedSources(w: LogicWorld, kind: BrickKind, links: seq<BrickId>)
    requires forall k :: 0 <= k < |links| ==> Relinkable(w, kind, links[k])
    ensures |Relinked(w, kind, links)| <= |links|
    ensures forall nb :: nb in Relinked(w, kind, links) ==>
      exists k :: 0 <= k < |links| && RelinkOne(w, kind, links[k]) == Some(nb)
  {
    if links != [] {
      var front := links[..|links| - 1];
      RelinkedSources(w, kind, front);
      forall nb | nb in Relinked(w, kind, links)
        ensures exists k :: 0 <= k < |links| && RelinkOne(w, kind, links[k]) == Some(nb)
      {
        if nb in Relinked(w, kind, front) {
          var k :| 0 <= k < |front| && RelinkOne(w, kind, front[k]) == Some(nb);
          assert links[k] == front[k];
        } else {
          assert RelinkOne(w, kind, links[|links| - 1]) == Some(nb);
        }
      }
    }
  }

  /** The link's owner was replicated with a brick list as long as its own, and the brick is in the owner's list. */
  predicate FullyReplicated(w: LogicWorld, kind: BrickKind, b: BrickId)
  {
    && b in w.ownerOf && w.ownerOf[b] in w.replicaOf
    && b in Bricks(w, kind, w.ownerOf[b])
    && |Bricks(w, kind, w.replicaOf[w.ownerOf[b]])| == |Bricks(w, kind, w.ownerOf[b])|
  }

  /** The replica's brick at the position the brick has in its owner's list. */
  function ReplicaBrick(w: LogicWorld, kind: BrickKind, b: BrickId): BrickId
    requires FullyReplicated(w, kind, b)
  {
    var o := w.ownerOf[b];
    FindAbsent(Bricks(w, kind, o), b);
    Bricks(w, kind, w.replicaOf[o])[Find(Bricks(w, kind, o), b)]
  }

  /** A fully replicated link is relinked to the replica's brick at the same position. */
  lemma ReplicatedLink(w: LogicWorld, kind: BrickKind, b: BrickId)
    requires FullyReplicated(w, kind, b)
    ensures Relinkable(w, kind, b) && RelinkOne(w, kind, b) == Some(ReplicaBrick(w, kind, b))
  {
    FindAbsent(Bricks(w, kind, w.ownerOf[b]), b);
  }

  /** Every link of `links` is fully replicated. */
  predicate AllFullyReplicated(w: LogicWorld, kind: BrickKind, links: seq<BrickId>)
  {
    forall k :: 0 <= k < |links| ==> FullyReplicated(w, kind, links[k])
  }

  /** The replica bricks of `links`, each at its original's position; the reference for a full relink. */
  function ReplicaBricks(w: LogicWorld, kind: BrickKind, links: seq<BrickId>): seq<BrickId>
    requires AllFullyReplicated(w, kind, links)
  {
    if links == [] then []
    else ReplicaBricks(w, kind, links[..|links| - 1]) + [ReplicaBrick(w, kind, links[|links| - 1])]
  }

  /** The reference list holds one replica brick per link, in link order. */
  lemma {:induction false} ReplicaBricksAt(w: LogicWorld, kind: BrickKind, links: seq<BrickId>)
    requires AllFullyReplicated(w, kind, links)
    ensures |ReplicaBricks(w, kind, links)| == |links|
    ensures forall k :: 0 <= k < |links| ==> ReplicaBricks(w, kind, links)[k] == ReplicaBrick(w, kind, links[k])
  {
    if links != [] {
      var front, b := links[..|links| - 1], links[|links| - 1];
      assert AllFullyReplicated(w, kind, front) by {
        assert forall k :: 0 <= k < |front| ==> front[k] == links[k];
      }
      ReplicaBricksAt(w, kind, front);
      var r, rf := ReplicaBricks(w, kind, links), ReplicaBricks(w, kind, front);
      assert r == rf + [ReplicaBrick(w, kind, b)];
      forall k | 0 <= k < |links| ensures r[k] == ReplicaBrick(w, kind, links[k]) {
        if k < |front| {
          assert r[k] == rf[k] && front[k] == links[k];
        }
      }
    }
  }

  /** Fully replicated links are all relinkable. */
  lemma AllRelinkable(w: LogicWorld, kind: BrickKind, links: seq<BrickId>)
    requires AllFullyReplicated(w, kind, links)
    ensures forall k :: 0 <= k < |links| ==> Relinkable(w, kind, links[k])
  {
    forall k | 0 <= k < |links| ensures Relinkable(w, kind, links[k]) {
      ReplicatedLink(w, kind, links[k]);
    }
  }

  /**
   * When every link's owner was replicated with an equally long brick list,
   * each link is replaced by the replica's brick at the same position and
   * none is lost.
   */
  lemma {:induction false} FullReplicaRelink(w: LogicWorld, kind: BrickKind, links: seq<BrickId>)
    requires AllFullyReplicated(w, kind, links)
    ensures forall k :: 0 <= k < |links| ==> Relinkable(w, kind, links[k])
    ensures Relinked(w, kind, links) == ReplicaBricks(w, kind, links)
  {
    AllRelinkable(w, kind, links);
    if links != [] {
      var front, b := links[..|links| - 1], links[|links| - 1];
      assert AllFullyReplicated(w, kind, front) by {
        assert forall k :: 0 <= k < |front| ==> front[k] == links[k];
      }
      FullReplicaRelink(w, kind, front);
      ReplicatedLink(w, kind, b);
    }
  }

  /** When no owner was replicated and all are active, relinking keeps the links as they were. */
  lemma {:induction false} UnreplicatedRelink(w: LogicWorld, kind: BrickKind, links: seq<BrickId>)
    requires forall k :: 0 <= k < |links| ==> links[k] in w.ownerOf
    requires forall k :: 0 <= k < |links| ==> w.ownerOf[links[k]] !in w.replicaOf
    requires forall k :: 0 <= k < |links| ==> w.ownerOf[links[k]] in w.active
    ensures forall k :: 0 <= k < |links| ==> Relinkable(w, kind, links[k])
    ensures Relinked(w, kind, links) == links
  {
    if links != [] {
      var front := links[..|links| - 1];
      assert forall k :: 0 <= k < |front| ==> front[k] == links[k];
      UnreplicatedRelink(w, kind, front);
      assert front + [links[|links| - 1]] == links;
    }
  }

  /** A link to an inactive object that was not replicated is dropped. */
  lemma InactiveLinkDropped(w: LogicWorld, kind: BrickKind, b: BrickId)
    requires b in w.ownerOf && w.ownerOf[b] !in w.replicaOf && w.ownerOf[b] !in w.active
    ensures Relinkable(w, kind, b) && RelinkOne(w, kind, b) == None
  {
  }

  /** The inner loop over one controller's saved links: each is looked up and registered in turn. */
  method RelinkBricks(w: LogicWorld, kind: BrickKind, links: seq<BrickId>) returns (r: seq<BrickId>)
    requires forall k :: 0 <= k < |links| ==> Relinkable(w, kind, links[k])
    ensures r == Relinked(w, kind, links)
  {
    r := [];
    for i := 0 to |links|
      invariant r == Relinked(w, kind, links[..i])
    {
      var b := links[i];
      var o := w.ownerOf[b];
      assert links[..i + 1][..i] == links[..i];
      if o !in w.replicaOf {
        if o in w.active {
          r := r + [b];
        }
      } else {
        var nb := FindNewBrick(Bricks(w, kind, o), Bricks(w, kind, w.replicaOf[o]), b);
        r := r + [nb.brick];
      }
    }
    assert links[..|links|] == links;
  }

  /** Every saved link of every controller can be relinked. */
  predicate ControllersRelinkable(w: LogicWorld, cs: seq<ControllerLinks>)
  {
    forall c :: c in cs ==>
      (forall k :: 0 <= k < |c.sensors| ==> Relinkable(w, SensorBrick, c.sensors[k])) &&
      (forall k :: 0 <= k < |c.actuators| ==> Relinkable(w, ActuatorBrick, c.actuators[k]))
  }

  /** One controller after `ReplicateLogic`. */
  function RelinkController(w: LogicWorld, c: ControllerLinks, priority: int): ControllerLinks
    requires ControllersRelinkable(w, [c])
  {
    ControllerLinks(Relinked(w, SensorBrick, c.sensors), Relinked(w, ActuatorBrick, c.actuators), priority)
  }

  /**
   * `ReplicateLogic`: every controller of the new object gets the scene's
   * execution priority, its links are cleared and each saved link is
   * registered again as `RelinkOne` decides.
   */
  method ReplicateLogic(w: LogicWorld, controllers: array<ControllerLinks>, priority: int)
    requires ControllersRelinkable(w, controllers[..])
    modifies controllers
    ensures forall k :: 0 <= k < controllers.Length ==>
      ControllersRelinkable(w, [old(controllers[k])]) &&
      controllers[k] == RelinkController(w, old(controllers[k]), priority)
  {
    for i := 0 to controllers.Length
      invariant forall k :: i <= k < controllers.Length ==> controllers[k] == old(controllers[k])
      invariant forall k :: 0 <= k < i ==>
        ControllersRelinkable(w, [old(controllers[k])]) &&
        controllers[k] == RelinkController(w, old(controllers[k]), priority)
    {
      var c := controllers[i];
      assert c in old(controllers[..]);
      var sensors := RelinkBricks(w, SensorBrick, c.sensors);
      var actuators := RelinkBricks(w, ActuatorBrick, c.actuators);
      controllers[i] := ControllerLinks(sensors, actuators, priority);
    }
  }
}
