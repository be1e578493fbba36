/**
 * The list bookkeeping of the game engine's scene: the animated list, the
 * removal ("euthanasy") queue and the temporary-object list, the overlay
 * collections and their camera, the image-render cameras, the active and
 * culling-override cameras, and the flag and list that decide whether the
 * temporal antialiasing (TAA) sample history is reset.
 *
 * Game objects, cameras (which are game objects) and collections are opaque
 * identifiers.
 */
module KxScene {
  import opened StdVector

  /** A game object (`KX_GameObject *`); cameras are game objects too. */
  type ObjId = nat

  /** A Blender collection (`Collection *`). */
  type CollectionId = nat

  /**
   * A game object as removal sees it: its identifier and, when it is a
   * dupli-group, the instance objects of the group (each possibly a group
   * itself); a plain object has no instances.
   */
  datatype GroupObject = GroupObject(id: ObjId, instances: seq<GroupObject>)

  /** Every object a removal of `g` reaches: `g` and, recursively, its instances. */
  function Ids(g: GroupObject): set<ObjId>
    decreases g
  {
    {g.id} + IdsAll(g.instances)
  }

  function IdsAll(gs: seq<GroupObject>): set<ObjId>
    decreases gs
  {
    if gs == [] then {} else IdsAll(gs[..|gs| - 1]) + Ids(gs[|gs| - 1])
  }

  /** The removal queue after `DelayedRemoveObject(g)`: the group's instances first, then `g` if it is not queued yet. */
  function Queued(q: seq<ObjId>, g: GroupObject): seq<ObjId>
    decreases g
  {
    AppendAbsent(QueuedAll(q, g.instances), g.id)
  }

  /** The removal queue after `DelayedRemoveObject` on each of `gs`, in order. */
  function QueuedAll(q: seq<ObjId>, gs: seq<GroupObject>): seq<ObjId>
    decreases gs
  {
    if gs == [] then q else Queued(QueuedAll(q, gs[..|gs| - 1]), gs[|gs| - 1])
  }

  /**
   * Queueing a removal keeps the queue duplicate-free, keeps what was queued
   * before at the front, and adds exactly the object and all the instances
   * it reaches.
   */
  lemma {:induction false} QueuedFacts(q: seq<ObjId>, g: GroupObject)
    requires NoDup(q)
    ensures NoDup(Queued(q, g)) && q <= Queued(q, g)
    ensures forall y :: y in Queued(q, g) <==> y in q || y in Ids(g)
    decreases g, 1
  {
    QueuedAllFacts(q, g.instances);
    AppendAbsentFacts(QueuedAll(q, g.instances), g.id);
  }

  /** The same facts for a sequence of removals. */
  lemma {:induction false} QueuedAllFacts(q: seq<ObjId>, gs: seq<GroupObject>)
    requires NoDup(q)
    ensures NoDup(QueuedAll(q, gs)) && q <= QueuedAll(q, gs)
    ensures forall y :: y in QueuedAll(q, gs) <==> y in q || y in IdsAll(gs)
    decreases gs, 0
  {
    if gs != [] {
      QueuedAllFacts(q, gs[..|gs| - 1]);
      QueuedFacts(QueuedAll(q, gs[..|gs| - 1]), gs[|gs| - 1]);
    }
  }

  /** Removing the one entry of a duplicate-free list empties it, and only that entry does. */
  lemma OnlyEntry<T>(s: seq<T>, x: T)
    requires NoDup(s) && x in s
    ensures |s| == 1 <==> RemoveFirst(s, x) == []
  {
  }

  /**
   * Adding an image-render camera and removing it again gives back the same
   * cameras. An absent camera gives back the same list; for a present one the
   * earlier copy is erased and the camera ends up last.
   */
  lemma {:induction false} AddRemoveCamera(s: seq<ObjId>, cam: ObjId)
    ensures multiset(RemoveFirst(s + [cam], cam)) == multiset(s)
    ensures cam !in s ==> RemoveFirst(s + [cam], cam) == s
    ensures cam in s ==> RemoveFirst(s + [cam], cam) == RemoveFirst(s, cam) + [cam]
  {
    RemoveFirstSnoc(s, cam);
    if cam in s {
      RemoveFirstMultiset(s, cam);
      assert multiset(RemoveFirst(s, cam) + [cam]) == multiset(RemoveFirst(s, cam)) + multiset{cam};
    }
  }

  class Scene {
    var objects: seq<ObjId>                  // m_objectlist
    var animated: seq<ObjId>                 // m_animatedlist
    var euthanasy: seq<ObjId>                // m_euthanasyobjects
    var temp: seq<ObjId>                     // m_tempObjectList
    var staticObjects: seq<ObjId>            // m_staticObjects
    var overlayCollections: seq<CollectionId>  // m_overlay_collections
    var imageRenderCameras: seq<ObjId>       // m_imageRenderCameraList
    var resetTaaSamples: bool                // m_resetTaaSamples
    var overlayCamera: Option<ObjId>         // m_overlayCamera
    var activeCamera: Option<ObjId>          // m_active_camera
    var overrideCullingCamera: Option<ObjId> // m_overrideCullingCamera

    /** The lists that are only appended to when absent hold no duplicates; temporary objects are new replicas. */
    ghost predicate Valid()
      reads this
    {
      NoDup(animated) && NoDup(euthanasy) && NoDup(temp) && NoDup(overlayCollections)
    }

    /** The initial state: empty lists, no cameras, no pending TAA reset; `objects` is the host's object list. */
    constructor(objects: seq<ObjId>)
      ensures Valid()
      ensures this.objects == objects
      ensures animated == [] && euthanasy == [] && temp == [] && staticObjects == []
      ensures overlayCollections == [] && imageRenderCameras == []
      ensures !resetTaaSamples
      ensures overlayCamera == None && activeCamera == None && overrideCullingCamera == None
    {
      this.objects := objects;
      animated, euthanasy, temp, staticObjects := [], [], [], [];
      overlayCollections, imageRenderCameras := [], [];
      resetTaaSamples := false;
      overlayCamera, activeCamera, overrideCullingCamera := None, None, None;
    }

    /** Every object in the scene has reported itself static this frame. */
    predicate ObjectsAreStatic()
      reads this
    {
      |objects| == |staticObjects|
    }

    method ResetTaaSamples()
      modifies this`resetTaaSamples
      ensures resetTaaSamples
    {
      resetTaaSamples := true;
    }

    method AppendToStaticObjects(obj: ObjId)
      modifies this`staticObjects
      ensures staticObjects == old(staticObjects) + [obj]
    {
      staticObjects := staticObjects + [obj];
    }

    /**
     * The TAA step of `RenderAfterCameraSetup`: the history is reset when
     * some object was not static this frame or a reset was requested; then
     * the request is cleared and the static list emptied.
     */
    method DecideTaaReset() returns (reset: bool)
      modifies this`resetTaaSamples, this`staticObjects
      ensures reset <==> |objects| != |old(staticObjects)| || old(resetTaaSamples)
      ensures !resetTaaSamples && staticObjects == []
    {
      reset := !ObjectsAreStatic() || resetTaaSamples;
      resetTaaSamples := false;
      staticObjects := [];
    }

    /**
     * An already added collection changes nothing. Otherwise the overlay
     * camera is set, the collection appended and a TAA reset requested.
     */
    method AddOverlayCollection(cam: Option<ObjId>, collection: CollectionId)
      requires Valid()
      modifies this`overlayCollections, this`overlayCamera, this`resetTaaSamples
      ensures Valid()
      ensures collection in old(overlayCollections) ==>
        && overlayCollections == old(overlayCollections)
        && overlayCamera == old(overlayCamera) && resetTaaSamples == old(resetTaaSamples)
      ensures collection !in old(overlayCollections) ==>
        && overlayCollections == old(overlayCollections) + [collection]
        && overlayCamera == cam && resetTaaSamples
    {
      FindAbsent(overlayCollections, collection);
      if Find(overlayCollections, collection) != |overlayCollections| {
        return;
      }
      overlayCamera := cam;
      overlayCollections := overlayCollections + [collection];
      AppendAbsentFacts(old(overlayCollections), collection);
      ResetTaaSamples();
    }

    /**
     * An absent collection changes nothing. A present one is erased, its
     * replicas `replicas` (the scene's replica objects the collection holds,
     * in object-list order) are queued for removal and a TAA reset is
     * requested; the overlay camera is cleared exactly when that collection
     * was the only one.
     */
    method RemoveOverlayCollection(collection: CollectionId, replicas: seq<GroupObject>)
      requires Valid()
      modifies this`overlayCollections, this`overlayCamera, this`resetTaaSamples, this`euthanasy
      ensures Valid()
      ensures collection !in old(overlayCollections) ==>
        && overlayCollections == old(overlayCollections) && overlayCamera == old(overlayCamera)
        && resetTaaSamples == old(resetTaaSamples) && euthanasy == old(euthanasy)
      ensures collection in old(overlayCollections) ==>
        && overlayCollections == RemoveFirst(old(overlayCollections), collection)
        && collection !in overlayCollections
        && (overlayCamera == None <==> overlayCollections == [] || old(overlayCamera) == None)
        && (overlayCollections != [] ==> overlayCamera == old(overlayCamera))
        && euthanasy == QueuedAll(old(euthanasy), replicas)
        && resetTaaSamples
    {
      FindAbsent(overlayCollections, collection);
      if Find(overlayCollections, collection) != |overlayCollections| {
        EraseOverlayCollection(collection);
        RemoveCollectionReplicas(replicas);
        ResetTaaSamples();
      }
    }

    /** The erasure step of `RemoveOverlayCollection`: the overlay camera is cleared when the collection is the last one. */
    method EraseOverlayCollection(collection: CollectionId)
      requires Valid() && collection in overlayCollections
      modifies this`overlayCollections, this`overlayCamera
      ensures Valid()
      ensures overlayCollections == RemoveFirst(old(overlayCollections), collection)
      ensures collection !in overlayCollections
      ensures overlayCamera == None <==> overlayCollections == [] || old(overlayCamera) == None
      ensures overlayCollections != [] ==> overlayCamera == old(overlayCamera)
    {
      var rest := RemoveFirst(overlayCollections, collection);
      OnlyEntry(overlayCollections, collection);
      RemoveFirstIsWithout(overlayCollections, collection);
      assert NoDup(rest) && collection !in rest && (rest == [] <==> |overlayCollections| == 1);
      if |overlayCollections| == 1 {
        overlayCamera := None;
      }
      overlayCollections := rest;
    }

    /** The replica loop of `RemoveOverlayCollection`: each replica the collection holds is queued for removal, in order. */
    method RemoveCollectionReplicas(replicas: seq<GroupObject>)
      requires Valid()
      modifies this`euthanasy
      ensures Valid()
      ensures euthanasy == QueuedAll(old(euthanasy), replicas)
    {
      for i := 0 to |replicas|
        invariant Valid()
        invariant euthanasy == QueuedAll(old(euthanasy), replicas[..i])
      {
        assert replicas[..i + 1][..i] == replicas[..i];
        DelayedRemoveObject(replicas[i]);
      }
      assert replicas[..|replicas|] == replicas;
    }

    method AddImageRenderCamera(cam: ObjId)
      modifies this`imageRenderCameras
      ensures imageRenderCameras == old(imageRenderCameras) + [cam]
    {
      imageRenderCameras := imageRenderCameras + [cam];
    }

    /** Erases the first occurrence of a listed camera; the source gives no meaning to erasing an absent one. */
    method RemoveImageRenderCamera(cam: ObjId)
      requires cam in imageRenderCameras
      modifies this`imageRenderCameras
      ensures imageRenderCameras == RemoveFirst(old(imageRenderCameras), cam)
      ensures multiset(imageRenderCameras) == multiset(old(imageRenderCameras)) - multiset{cam}
    {
      FindAbsent(imageRenderCameras, cam);
      RemoveFirstMultiset(imageRenderCameras, cam);
      imageRenderCameras := EraseAt(imageRenderCameras, Find(imageRenderCameras, cam));
    }

    /**
     * A camera is inactive when it has no viewport of its own, is not the
     * active camera and renders no image texture; `hasViewport` is the
     * camera's own viewport flag.
     */
    function CameraIsInactive(cam: ObjId, hasViewport: bool): (r: bool)
      reads this
      ensures r <==> !hasViewport && activeCamera != Some(cam) && cam !in imageRenderCameras
    {
      FindAbsent(imageRenderCameras, cam);
      if hasViewport then false
      else if Some(cam) == activeCamera then false
      else if Find(imageRenderCameras, cam) != |imageRenderCameras| then false
      else true
    }

    /** Appends the object to the animated list unless it is already there. */
    method AddAnimatedObject(obj: ObjId)
      requires Valid()
      modifies this`animated
      ensures Valid()
      ensures animated == AppendAbsent(old(animated), obj)
      ensures obj in animated && old(animated) <= animated
    {
      AppendAbsentFacts(animated, obj);
      if Find(animated, obj) == |animated| {
        animated := animated + [obj];
      }
    }

    /** A replica with a lifespan joins the temporary-object list; a replica is a new object, so it is not listed yet. */
    method AddTempObject(replica: ObjId)
      requires Valid() && replica !in temp
      modifies this`temp
      ensures Valid()
      ensures temp == old(temp) + [replica]
    {
      temp := temp + [replica];
    }

    /** Queues the removal of every instance of a dupli-group (nothing for a plain object); the queue stays duplicate-free. */
    method RemoveDupliGroup(g: GroupObject)
      requires Valid()
      modifies this`euthanasy
      ensures Valid()
      ensures euthanasy == QueuedAll(old(euthanasy), g.instances)
      decreases g, 0
    {
      for i := 0 to |g.instances|
        invariant Valid()
        invariant euthanasy == QueuedAll(old(euthanasy), g.instances[..i])
      {
        assert g.instances[..i + 1][..i] == g.instances[..i];
        DelayedRemoveObject(g.instances[i]);
      }
      assert g.instances[..|g.instances|] == g.instances;
    }

    /** Queues the group's instances, then the object itself unless it is already queued; the queue stays duplicate-free. */
    method DelayedRemoveObject(g: GroupObject)
      requires Valid()
      modifies this`euthanasy
      ensures Valid()
      ensures euthanasy == Queued(old(euthanasy), g)
      decreases g, 1
    {
      RemoveDupliGroup(g);
      AppendAbsentFacts(euthanasy, g.id);
      if Find(euthanasy, g.id) == |euthanasy| {
        euthanasy := euthanasy + [g.id];
      }
    }

    /**
     * The list tail of `NewRemoveObject`: the object is erased from the
     * animated, removal and temporary lists, and the active and
     * culling-override cameras are cleared when they are that object.
     */
    method NewRemoveObject(obj: ObjId)
      requires Valid()
      modifies this`animated, this`euthanasy, this`temp, this`activeCamera, this`overrideCullingCamera
      ensures Valid()
      ensures animated == Without(old(animated), {obj})
      ensures euthanasy == Without(old(euthanasy), {obj})
      ensures temp == Without(old(temp), {obj})
      ensures obj !in animated && obj !in euthanasy && obj !in temp
      ensures activeCamera == if old(activeCamera) == Some(obj) then None else old(activeCamera)
      ensures overrideCullingCamera ==
        if old(overrideCullingCamera) == Some(obj) then None else old(overrideCullingCamera)
    {
      RemoveFirstIsWithout(animated, obj);
      RemoveFirstIsWithout(euthanasy, obj);
      RemoveFirstIsWithout(temp, obj);
      animated := RemoveFirst(animated, obj);
      euthanasy := RemoveFirst(euthanasy, obj);
      temp := RemoveFirst(temp, obj);
      if activeCamera == Some(obj) {
        activeCamera := None;
      }
      if overrideCullingCamera == Some(obj) {
        overrideCullingCamera := None;
      }
    }

    /**
     * The removal loop of `LogicEndFrame`: the front of the queue is removed
     * until the queue is empty. It ends because each removal erases the
     * front from the queue.
     */
    method LogicEndFrame()
      requires Valid()
      modifies this`animated, this`euthanasy, this`temp, this`activeCamera, this`overrideCullingCamera
      ensures Valid()
      ensures euthanasy == []
      ensures animated == Without(old(animated), Elems(old(euthanasy)))
      ensures temp == Without(old(temp), Elems(old(euthanasy)))
      ensures activeCamera == if old(activeCamera).Some? && old(activeCamera).value in old(euthanasy)
                              then None else old(activeCamera)
      ensures overrideCullingCamera ==
        if old(overrideCullingCamera).Some? && old(overrideCullingCamera).value in old(euthanasy)
        then None else old(overrideCullingCamera)
    {
      ghost var q := euthanasy;
      ghost var k := 0;
      assert q[..0] == [];
      assert Elems(q[..0]) == {};
      WithoutAbsent(animated, {});
      WithoutAbsent(temp, {});
      while |euthanasy| > 0
        invariant Valid()
        invariant 0 <= k <= |q| && euthanasy == q[k..]
        invariant animated == Without(old(animated), Elems(q[..k]))
        invariant temp == Without(old(temp), Elems(q[..k]))
        invariant activeCamera == if old(activeCamera).Some? && old(activeCamera).value in q[..k]
                                  then None else old(activeCamera)
        invariant overrideCullingCamera ==
          if old(overrideCullingCamera).Some? && old(overrideCullingCamera).value in q[..k]
          then None else old(overrideCullingCamera)
        decreases |euthanasy|
      {
        var front := euthanasy[0];
        assert front == q[k];
        WithoutWithout(old(animated), Elems(q[..k]), {front});
        WithoutWithout(old(temp), Elems(q[..k]), {front});
        assert q[..k + 1] == q[..k] + [front];
        ElemsSnoc(q[..k], front);
        NewRemoveObject(front);
        assert q[k..][1..] == q[k + 1..];
        WithoutHead(q[k..]);
        k := k + 1;
      }
      assert q[..k] == q;
    }
  }

  /**
   * A delayed removal followed by the end of the logic frame: once the queue is
   * drained, the object and every instance it reaches have left the animated
   * and temporary lists, and nothing stays queued.
   */
  method RemoveAtFrameEnd(s: Scene, g: GroupObject)
    requires s.Valid()
    modifies s`animated, s`euthanasy, s`temp, s`activeCamera, s`overrideCullingCamera
    ensures s.Valid() && s.euthanasy == []
    ensures forall y :: y in Ids(g) ==> y !in s.animated && y !in s.temp
  {
    QueuedFacts(s.euthanasy, g);
    s.DelayedRemoveObject(g);
    ghost var q := s.euthanasy;
    ghost var before, beforeTemp := s.animated, s.temp;
    s.LogicEndFrame();
    WithoutSubset(before, Elems(q));
    WithoutSubset(beforeTemp, Elems(q));
  }
}
