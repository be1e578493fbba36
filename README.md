# SMAA pass bookkeeping and game-scene list bookkeeping

This project is a Dafny model of two small pieces of a Blender-based game engine. Neither piece does any rendering itself. Both are state machines over handles and lists.

**The SMAA pass of the EEVEE renderer** (`eevee_antialiasing.dfy`, module `EeveeAntialiasing`). SMAA is Enhanced Subpixel Morphological Antialiasing. The model covers:
- a shader cache with one slot per stage (edge detection, blend weight, resolve), shared by all viewports and filled on demand;
- the search and area lookup textures, created only while the search texture is null;
- the wiring of the three passes: the textures each one samples, and whether it clears its target;
- the fixed draw order: bind a framebuffer, draw its pass, three times;
- the exchange ("ping-pong") of the colour and reveal textures with their layer twins after every draw;
- freeing the cache.

GPU objects are opaque handles. The class `Gpu` stands for the GPU module. It hands out handles that were never handed out before. Its shader compiler may reject the sources and give null instead. It records in `log` the calls whose order the engine fixes: compiling, creating, binding, drawing and freeing.

**The list bookkeeping of the game scene** (`kx_scene.dfy`, module `KxScene`). The class `Scene` keeps these members as sequences of identifiers:
- the animated list;
- the removal ("euthanasy") queue;
- the temporary-object list;
- the overlay collections;
- the image-render cameras;
- the static-object list.

It also keeps the camera fields and the request to reset the TAA (temporal antialiasing) sample history. The model covers:
- the appends that skip objects already listed;
- the erasures by find;
- the queueing of dupli-group instances before their group;
- draining the removal queue at the end of a logic frame;
- the "camera is inactive" test;
- the decision whether to reset the TAA history.

**The debug overlay** (`kx_scene_debug.dfy`, module `KxSceneDebug`). It covers:
- the text of the reserved `__state__` property: the 1-based numbers of an object's set state bits, lowest first, comma-separated;
- the list of lines drawn for at most `propsMax` debug properties.

The number of entries considered is the list size stored in an `unsigned short`. A list of exactly 65536 entries therefore draws nothing, and the model keeps this (`PropsConsideredWraps`).

**Logic relinking of a replicated object** (`kx_scene_logic.dfy`, module `KxSceneLogic`). Each link of each controller is handled in one of three ways:
- if the owner of the linked sensor or actuator was replicated, the link moves to the brick at the same position in the replica's list;
- if the owner was not replicated but is still in the scene's object list, the link is kept as it was;
- otherwise the link is dropped.

`std_vector.dfy` (module `StdVector`) holds the `std::vector` idioms the scene code uses: `std::find`, `erase`, find-then-erase and find-then-push_back. It also holds the nullable pointer, written as `Option`, and the character a decimal digit prints as.

**Host inputs.** The host's answers are parameters:
- the texture pool's textures;
- the viewport flag of a camera;
- a property's text;
- the replicas an overlay collection holds;
- the owner, brick-list and replica maps of logic relinking.

**The edge-detection pass's samplers.** The edge-detection pass binds `smaa_edge_tx` and `smaa_weight_tx` to its samplers `colorTex` and `revealTex` (eevee_antialiasing.c lines 149-150). Those are its own target and the next pass's target. The model follows the code.

## Model

| member | source | states |
|---|---|---|
| StdVector.Find | source/gameengine/Ketsji/KX_Scene.cpp:1513-1514 | `std::find` gives the first position holding the element, or the length when no position does |
| StdVector.EraseAt | source/gameengine/Ketsji/KX_Scene.cpp:1515-1517 | erasing a position shifts every later element down by one and keeps the earlier ones |
| StdVector.RemoveFirst | source/gameengine/Ketsji/KX_Scene.cpp:1513-1517 | reference definition of find-then-erase: `std::find`, then `erase` at the found position only when it is not end() |
| StdVector.AppendAbsent | source/gameengine/Ketsji/KX_Scene.cpp:1704-1708 | reference definition of find-then-push_back: the element is pushed back only when `std::find` reports end() |
| StdVector.RemoveFirstSnoc | source/gameengine/Ketsji/KX_Scene.cpp:634-643 | find-then-erase right after pushing the same element back removes the pushed copy when the element was absent, and otherwise its earlier copy |
| StdVector.FindAbsent | source/gameengine/Ketsji/KX_Scene.cpp:1513-1515 | the end position is reported exactly when the element is absent |
| StdVector.FindNoDup | source/gameengine/Ketsji/KX_Scene.cpp:1513-1514 | in a duplicate-free list every element is found at its own position |
| StdVector.RemoveFirstMultiset | source/gameengine/Ketsji/KX_Scene.cpp:1513-1517 | find-then-erase removes exactly one copy of a present element and nothing else, and leaves the list unchanged when the element is absent |
| StdVector.RemoveFirstIsWithout | source/gameengine/Ketsji/KX_Scene.cpp:1513-1529 | on a duplicate-free list, find-then-erase filters the element out, and the list stays duplicate-free |
| StdVector.WithoutSubset | source/gameengine/Ketsji/KX_Scene.cpp:1808-1810 | filtering keeps exactly the elements outside the removed set |
| StdVector.WithoutWithout | source/gameengine/Ketsji/KX_Scene.cpp:1808-1810 | removing one object after another is the same as removing the union at once |
| StdVector.WithoutAppend | source/gameengine/Ketsji/KX_Scene.cpp:1808-1810 | filtering distributes over concatenation |
| StdVector.WithoutAbsent | source/gameengine/Ketsji/KX_Scene.cpp:1513-1529 | filtering out objects that are not listed changes nothing |
| StdVector.AppendAbsentFacts | source/gameengine/Ketsji/KX_Scene.cpp:1702-1709 | find-then-push_back keeps a list duplicate-free, adds exactly the element, keeps the old list as a prefix, and repeating it changes nothing |
| EeveeAntialiasing.Snprintf | source/blender/draw/engines/eevee/eevee_antialiasing.c:43-44 | printing into a buffer of n bytes keeps a prefix of at most n-1 characters, and keeps all of it when it fits |
| EeveeAntialiasing.StageDefineExact | source/blender/draw/engines/eevee/eevee_antialiasing.c:43-44 | the stage define is `#define SMAA_STAGE <digit>` and a newline, never truncated by its 32-byte buffer, and different stages get different defines |
| EeveeAntialiasing.SourcesFor | source/blender/draw/engines/eevee/eevee_antialiasing.c:46-73 | reference definition of the sources compiled for a stage: the vertex list, the fragment list and the define list of lines 47-72, with the stage define last |
| EeveeAntialiasing.SourcesDistinct | source/blender/draw/engines/eevee/eevee_antialiasing.c:46-73 | the sources compiled for two stages are equal exactly when the stages are |
| EeveeAntialiasing.Gpu.Compile | source/blender/draw/engines/eevee/eevee_antialiasing.c:46-73 | every compile is logged with its sources and its result; an accepted compile gives a handle never handed out before, and a rejected one gives null and uses up no handle |
| EeveeAntialiasing.ShaderCache.constructor | source/blender/draw/engines/eevee/eevee_antialiasing.c:30-32 | the cache starts with all three slots null |
| EeveeAntialiasing.ShaderCache.GetShader | source/blender/draw/engines/eevee/eevee_antialiasing.c:38-76 | a request for a stage below 3 returns what its slot then holds and touches no other slot; a filled slot is returned unchanged, with no compile; an empty slot receives the result of one logged compile of that stage's sources, a new shader or null |
| EeveeAntialiasing.RequestTwice | source/blender/draw/engines/eevee/eevee_antialiasing.c:38-76 | when the first request gives a shader, the second returns the same one; a cached slot issues no GPU call, and an empty one exactly one compile of its stage's sources; when the first compile is rejected, the second request compiles the same sources again |
| EeveeAntialiasing.ShaderCache.Free | source/blender/draw/engines/eevee/eevee_antialiasing.c:206-211 | every filled slot is freed, in slot order, and all three slots end null |
| EeveeAntialiasing.FreeThenRebuild | source/blender/draw/engines/eevee/eevee_antialiasing.c:206-211 | after a free, the next request for a stage compiles its sources again; a shader it gives differs from the one freed; every other slot is empty |
| EeveeAntialiasing.EdgePass | source/blender/draw/engines/eevee/eevee_antialiasing.c:145-155 | reference definition of the edge-detection pass: its shader, `colorTex` and `revealTex` bound to the edge and weight targets, a cleared colour target, one triangle |
| EeveeAntialiasing.WeightPass | source/blender/draw/engines/eevee/eevee_antialiasing.c:158-168 | reference definition of the blend-weight pass: its shader, `edgesTex`, `areaTex` and `searchTex` bound to the edge target and the two lookup textures, a cleared colour target, one triangle |
| EeveeAntialiasing.ResolvePass | source/blender/draw/engines/eevee/eevee_antialiasing.c:173-182 | reference definition of the resolve pass: its shader, `blendTex`, `colorTex` and `revealTex` bound to the weight target and the current colour and reveal textures, no clear, one triangle |
| EeveeAntialiasing.PassWiring | source/blender/draw/engines/eevee/eevee_antialiasing.c:143-183 | the edge pass samples the edge and weight targets; the weight pass samples the edge target and both lookup textures; the resolve pass samples the weight target and the current colour and reveal textures; only the first two clear their target; each pass runs its own stage's shader |
| EeveeAntialiasing.SwapPingPong | source/blender/draw/engines/eevee/eevee_antialiasing.c:202-203 | colour and colour-layer trade places, reveal and reveal-layer trade places, and the SMAA targets stay |
| EeveeAntialiasing.SwapTwiceRestores | source/blender/draw/engines/eevee/eevee_antialiasing.c:202-203 | two exchanges restore the original assignment |
| EeveeAntialiasing.EeveeData.EnsureFramebuffer | source/blender/draw/engines/eevee/eevee_antialiasing.c:130-140 | a framebuffer is created only when null; either way its colour attachment becomes the given texture |
| EeveeAntialiasing.EeveeData.EnsureLookupTextures | source/blender/draw/engines/eevee/eevee_antialiasing.c:89-119 | when the search texture is null, the search and area textures are created and their filtering enabled, in that order; otherwise nothing changes; afterwards both exist |
| EeveeAntialiasing.EeveeData.SetupTargets | source/blender/draw/engines/eevee/eevee_antialiasing.c:124-141 | the edge and weight targets become the pool's textures, the two SMAA framebuffers attach them and keep their identity, the layer framebuffer is untouched, and the only GPU calls are one creation per SMAA framebuffer that was null, edge first |
| EeveeAntialiasing.EeveeData.CreatePasses | source/blender/draw/engines/eevee/eevee_antialiasing.c:143-183 | the three passes are rebuilt on what the slots of stages 0, 1 and 2 hold afterwards; cached shaders are reused; exactly the empty slots are compiled, in stage order; a pass whose compile was rejected gets the null shader |
| EeveeAntialiasing.EeveeData.Init | source/blender/draw/engines/eevee/eevee_antialiasing.c:78-184 | it needs both layer textures; it creates the lookup textures once and leaves them unchanged on a second init; it sets up targets and framebuffers; it wires the three passes on the cached or newly compiled shaders and keeps every filled slot; its GPU calls are exactly the lookup-texture creation and filtering when the search texture was null, one creation per null SMAA framebuffer, and one compile of its stage's sources per empty shader slot, in stage order; an init that finds everything made issues no GPU call; with a layer framebuffer present every pass and framebuffer the draw needs exists |
| EeveeAntialiasing.EeveeData.Draw | source/blender/draw/engines/eevee/eevee_antialiasing.c:186-204 | it binds the edge framebuffer, draws the edge pass, then does the same for weight and then for layer/resolve, always in this order; after that colour and reveal are exchanged and nothing else changes |
| EeveeAntialiasing.DrawTwiceRestores | source/blender/draw/engines/eevee/eevee_antialiasing.c:192-203 | two draws issue the six calls twice and leave the colour and reveal assignment as it was |
| KxScene.Queued | source/gameengine/Ketsji/KX_Scene.cpp:1414-1422 | reference definition of the queue after `DelayedRemoveObject`: the instances' removals first, then the object pushed back unless it is already queued |
| KxScene.QueuedAll | source/gameengine/Ketsji/KX_Scene.cpp:1405-1412 | reference definition of the queue after `DelayedRemoveObject` on each instance, in order |
| KxScene.QueuedFacts | source/gameengine/Ketsji/KX_Scene.cpp:1414-1422 | queueing a removal keeps the queue duplicate-free, keeps what was queued before as a prefix, and adds exactly the object and every instance it reaches |
| KxScene.QueuedAllFacts | source/gameengine/Ketsji/KX_Scene.cpp:1405-1412 | the same facts for the removals of all instances of a group |
| KxScene.OnlyEntry | source/gameengine/Ketsji/KX_Scene.cpp:573-577 | in a duplicate-free list, erasing a present entry empties the list exactly when the list had size 1 |
| KxScene.AddRemoveCamera | source/gameengine/Ketsji/KX_Scene.cpp:634-643 | adding then removing an image-render camera gives back the same cameras; an absent camera gives back the same list, and for a present one the earlier copy is erased and the camera ends up last |
| KxScene.Scene.constructor | source/gameengine/Ketsji/KX_Scene.cpp:172-197 | the animated, removal, temporary, static-object, overlay-collection and image-render-camera lists start empty; there is no overlay, active or culling-override camera and no pending TAA reset; the object list, which the source creates empty, is the parameter `objects` because the host fills it |
| KxScene.Scene.ResetTaaSamples | source/gameengine/Ketsji/KX_Scene.cpp:528-531 | the TAA reset is requested |
| KxScene.Scene.ObjectsAreStatic | source/gameengine/Ketsji/KX_Scene.cpp:523-526 | true exactly when the scene's object count equals the number of objects that reported themselves static |
| KxScene.Scene.AppendToStaticObjects | source/gameengine/Ketsji/KX_Scene.cpp:1849-1852 | the object is appended to the static list |
| KxScene.Scene.DecideTaaReset | source/gameengine/Ketsji/KX_Scene.cpp:683-685 | reset is true iff the object count differs from the static-object count (the negation of `ObjectsAreStatic`, lines 523-526) or a reset was requested; afterwards the request is cleared and the static list is empty |
| KxScene.Scene.AddOverlayCollection | source/gameengine/Ketsji/KX_Scene.cpp:533-564 | an already-added collection changes nothing; otherwise the overlay camera is set, the collection appended and a TAA reset requested; the collection list stays duplicate-free |
| KxScene.Scene.RemoveOverlayCollection | source/gameengine/Ketsji/KX_Scene.cpp:566-599 | an absent collection changes nothing; a present one is erased and a reset requested; its replicas are queued for removal; the overlay camera becomes null exactly when that was the only collection, and is kept otherwise |
| KxScene.Scene.EraseOverlayCollection | source/gameengine/Ketsji/KX_Scene.cpp:573-577 | a listed collection is erased and the list stays duplicate-free; the overlay camera becomes null exactly when that was the only collection, and is kept otherwise |
| KxScene.Scene.RemoveCollectionReplicas | source/gameengine/Ketsji/KX_Scene.cpp:580-590 | the collection's replicas are queued for removal one after the other, in object-list order, and the queue stays duplicate-free |
| KxScene.Scene.AddImageRenderCamera | source/gameengine/Ketsji/KX_Scene.cpp:634-637 | the camera is appended |
| KxScene.Scene.RemoveImageRenderCamera | source/gameengine/Ketsji/KX_Scene.cpp:639-643 | a listed camera's first occurrence is erased, and exactly one copy leaves the list |
| KxScene.Scene.CameraIsInactive | source/gameengine/Ketsji/KX_Scene.cpp:645-658 | true iff the camera has no viewport, is not the active camera and is not an image-render camera |
| KxScene.Scene.AddAnimatedObject | source/gameengine/Ketsji/KX_Scene.cpp:1702-1709 | the object is appended only when absent, so the animated list stays duplicate-free, keeps its old entries and holds the object |
| KxScene.Scene.AddTempObject | source/gameengine/Ketsji/KX_Scene.cpp:1309-1311 | a new replica with a lifespan is appended to the temporary list, which stays duplicate-free |
| KxScene.Scene.RemoveDupliGroup | source/gameengine/Ketsji/KX_Scene.cpp:1405-1412 | every instance of the group is queued for removal, instances first, in order; the queue stays duplicate-free |
| KxScene.Scene.DelayedRemoveObject | source/gameengine/Ketsji/KX_Scene.cpp:1414-1422 | the group's instances are queued first, then the object itself unless it is already queued; the queue stays duplicate-free |
| KxScene.Scene.NewRemoveObject | source/gameengine/Ketsji/KX_Scene.cpp:1513-1539 | the object is erased from the animated, removal and temporary lists with all other entries kept in order; the active and culling-override cameras become null when they are the object and are kept otherwise |
| KxScene.Scene.LogicEndFrame | source/gameengine/Ketsji/KX_Scene.cpp:1808-1810 | the drain loop ends with an empty queue; every queued object has left the animated and temporary lists, other entries are kept, and cameras that were queued are cleared |
| KxScene.RemoveAtFrameEnd | source/gameengine/Ketsji/KX_Scene.cpp:1798-1810 | a removal queued with `DelayedRemoveObject` (lines 1414-1422) and then drained at the end of the logic frame leaves nothing queued, and the object and every instance it reaches are gone from the animated and temporary lists |
| KxSceneDebug.SetBitPositions | source/gameengine/Ketsji/KX_Scene.cpp:1651-1659 | the state numbers are listed in strictly ascending order, all from the first number on |
| KxSceneDebug.SetBitPositionsExact | source/gameengine/Ketsji/KX_Scene.cpp:1651-1659 | a number is listed exactly when its bit (number minus one) of the state is set |
| KxSceneDebug.SetBitPositionsBounded | source/gameengine/Ketsji/KX_Scene.cpp:1650-1651 | a state below 2^w lists no number beyond w |
| KxSceneDebug.StateNumbersAtMost32 | source/gameengine/Ketsji/KX_Scene.cpp:1650-1651 | an `unsigned int` state lists only numbers from 1 to 32 |
| KxSceneDebug.BitsOfZero | source/gameengine/Ketsji/KX_Scene.cpp:1651 | no bit of a zero state is set |
| KxSceneDebug.Decimal | source/gameengine/Ketsji/KX_Scene.cpp:1656 | `std::to_string` of a number is a non-empty string of decimal digits |
| KxSceneDebug.DecimalRoundTrip | source/gameengine/Ketsji/KX_Scene.cpp:1656 | reading a printed number back gives the number |
| KxSceneDebug.JoinCommasEdges | source/gameengine/Ketsji/KX_Scene.cpp:1652-1657 | the joined text is empty exactly for an empty list, and otherwise starts and ends with a digit, never a comma |
| KxSceneDebug.JoinCommasRoundTrip | source/gameengine/Ketsji/KX_Scene.cpp:1652-1657 | the comma-separated text reads back into exactly the list it was printed from |
| KxSceneDebug.StateText | source/gameengine/Ketsji/KX_Scene.cpp:1651-1659 | reference definition of the state text: the 1-based numbers of the set bits, lowest first, joined by commas |
| KxSceneDebug.StateTextZero | source/gameengine/Ketsji/KX_Scene.cpp:1651 | a zero state prints nothing after the prefix |
| KxSceneDebug.FormatStateText | source/gameengine/Ketsji/KX_Scene.cpp:1647-1660 | the loop that shifts the state builds `obj.__state__ = ` followed by the comma-separated numbers of the set bits |
| KxSceneDebug.PropsConsidered | source/gameengine/Ketsji/KX_Scene.cpp:1637-1640 | at most `propsMax` entries and at most the list size are considered; below 65536 entries this is the smaller of the two |
| KxSceneDebug.PropsConsideredWraps | source/gameengine/Ketsji/KX_Scene.cpp:1637 | the size stored in 16 bits makes a list of 65536 entries consider none |
| KxSceneDebug.PropLine | source/gameengine/Ketsji/KX_Scene.cpp:1645-1672 | reference definition of one entry's text: the state line for `__state__`, `obj: 'name' = text` for a property the object has, and nothing otherwise |
| KxSceneDebug.DebugLines | source/gameengine/Ketsji/KX_Scene.cpp:1642-1673 | reference definition of the lines drawn for a list of entries: each entry with text gets a line at the current height, which then moves down one `ysize` |
| KxSceneDebug.DebugLinesShape | source/gameengine/Ketsji/KX_Scene.cpp:1642-1673 | at most one line is drawn per entry; lines are drawn at the indented x, each one `ysize` below the previous; when every entry has text, there is one line per entry |
| KxSceneDebug.RenderProp | source/gameengine/Ketsji/KX_Scene.cpp:1645-1672 | the `__state__` entry gets its state text; another entry gets `obj: 'name' = text` when the object has that property, and no line otherwise |
| KxSceneDebug.RenderDebugProperties | source/gameengine/Ketsji/KX_Scene.cpp:1625-1674 | the lines drawn are those of the considered entries, in order; there are at most `propsMax` of them; the height moves down one `ysize` per line drawn |
| KxSceneLogic.NewBrickAt | source/gameengine/Ketsji/KX_Scene.cpp:1097-1109 | reference definition of the position scan: the first position of the brick in its owner's list and the replica's brick there, or missing, or out of range |
| KxSceneLogic.NewBrickAtCases | source/gameengine/Ketsji/KX_Scene.cpp:1097-1109 | the lookup is missing exactly when the brick is not in its owner's list (the pointer stays null); it is out of range exactly when the brick's first position is past the replica's list (`at` throws); otherwise it is the replica's brick at a position where the owner's list holds the brick |
| KxSceneLogic.FindNewBrick | source/gameengine/Ketsji/KX_Scene.cpp:1097-1108 | the scan with its position counter computes that lookup |
| KxSceneLogic.NewBrickAtPreservesIndex | source/gameengine/Ketsji/KX_Scene.cpp:1096-1105 | in a duplicate-free list, the brick at position i maps to the replica's brick at position i |
| KxSceneLogic.NewBrickAtRoundTrip | source/gameengine/Ketsji/KX_Scene.cpp:1096-1105 | between two duplicate-free lists of equal length, the reverse scan maps the replica's brick back to the original |
| KxSceneLogic.RelinkOne | source/gameengine/Ketsji/KX_Scene.cpp:1085-1110 | reference definition of what one saved link becomes: the replica's brick when its owner was replicated, the link itself when the owner is active, and nothing otherwise |
| KxSceneLogic.Relinked | source/gameengine/Ketsji/KX_Scene.cpp:1081-1111 | reference definition of a controller's links after relinking the saved ones in order |
| KxSceneLogic.ReplicaBricks | source/gameengine/Ketsji/KX_Scene.cpp:1096-1105 | reference definition of a fully replicated controller's links: each saved link replaced by the replica's brick at the same position, in link order |
| KxSceneLogic.RelinkController | source/gameengine/Ketsji/KX_Scene.cpp:1068-1147 | reference definition of one controller after replication: the scene's execution priority, with its sensor and actuator links each relinked as `Relinked` says |
| KxSceneLogic.InactiveLinkDropped | source/gameengine/Ketsji/KX_Scene.cpp:1089-1094 | a link to an object that was neither replicated nor active is dropped |
| KxSceneLogic.UnreplicatedRelink | source/gameengine/Ketsji/KX_Scene.cpp:1089-1094 | when no owner was replicated and all are active, the links come back unchanged |
| KxSceneLogic.ReplicatedLink | source/gameengine/Ketsji/KX_Scene.cpp:1095-1111 | a link whose owner was replicated with an equally long list is relinked to the replica's brick at the brick's position in the owner's list |
| KxSceneLogic.ReplicaBricksAt | source/gameengine/Ketsji/KX_Scene.cpp:1096-1105 | the reference list of replica bricks has one entry per link: the replica's brick at that link's position |
| KxSceneLogic.FullReplicaRelink | source/gameengine/Ketsji/KX_Scene.cpp:1081-1112 | when every owner was replicated with an equally long list, relinking gives exactly the reference list: no link is lost and each one moves to the replica's brick at the same position |
| KxSceneLogic.RelinkedSources | source/gameengine/Ketsji/KX_Scene.cpp:1081-1112 | relinking yields at most one link per saved link, and every link it yields comes from one of the saved links |
| KxSceneLogic.RelinkBricks | source/gameengine/Ketsji/KX_Scene.cpp:1081-1112 | the loop over the saved links registers exactly the relinked list, in order |
| KxSceneLogic.ReplicateLogic | source/gameengine/Ketsji/KX_Scene.cpp:1068-1147 | every controller gets the scene's execution priority, with its sensor and actuator links relinked from the saved ones |

## Left out

- GPU work itself is not modelled: texture contents, sizes and formats, shader compilation, and what a draw computes. Only handles and the order of calls are kept. Binding and unbinding a texture around its filter mode is one `EnableFilter` call.
- The viewport metrics (eevee_antialiasing.c line 122) and their `viewportMetrics` uniform are floats, and are not modelled.
- The texture pool is outside the model. The textures it returns are the parameters `poolEdgeTx` and `poolWeightTx` of `Init`.
- EeveeAntialiasing.EeveeData.EnsureLookupTextures: creating the lookup textures is assumed to succeed. In the source a null search texture would make the guard at line 89 create both textures again on the next init; the model does not capture that.
- EeveeAntialiasing.EeveeData.EnsureFramebuffer: creating a framebuffer is assumed to succeed.
- What the draw manager does with a pass built on a null shader is not modelled.
- EeveeAntialiasing.ShaderCache.GetShader: it takes a `nat` stage below 3. The source only asserts `stage < 3`, and a negative stage would index outside the array.
- EeveeAntialiasing.EeveeData.Init: the layer textures must be non-null. The source asserts this in debug builds only.
- Freeing the old passes when `DRW_PASS_CREATE` makes new ones is the draw manager's job, and is not modelled. The model replaces the pass records.
- KxScene.Scene.RemoveImageRenderCamera: it requires the camera to be listed. Erasing `end()` for an absent camera has no defined behaviour in C++.
- KxScene.Scene.AddOverlayCollection: the model leaves out setting each collection object's overlay game flag, and the replicas made for inactive objects in the collection. Both are host object and collection work. The "Collection already added." message for a repeated collection goes to standard output, and is not modelled.
- KxScene.Scene.RemoveOverlayCollection: which scene objects are replicas in the collection is a host query. The model takes them as the parameter `replicas`, in object-list order. Clearing the game flags and unlinking the objects from the collection are not modelled.
- KxScene.Scene.NewRemoveObject: the model covers only the list tail. Everything earlier in the function is left out: debug properties, logic bricks, meshes, the host object lists and the scene-graph node. So are the returned reference count and the reference counting itself. In particular the object stays in `objects`, although the source removes it from `m_objectlist` (KX_Scene.cpp line 1498). After a removal, `ObjectsAreStatic` and `DecideTaaReset` therefore compare the static-object count with the object count from before the removal.
- KxScene.Scene.LogicEndFrame: `RemoveObject` disconnects the front object's scene-graph node and destroys its children as well. The model removes only the front object through `NewRemoveObject`. An object without a scene-graph node would never leave the queue in the source; the model gives every object one.
- KxScene.Scene.AddTempObject: the lifespan and the timebomb property are floats, and are not modelled. The model requires the new replica to be absent from the list, because it has just been allocated.
- KxScene.Scene.CameraIsInactive: the camera's viewport is the boolean parameter `hasViewport`.
- KxSceneDebug.RenderDebugProperties: the model returns the lines instead of drawing them; the drawing itself and its colour are not modelled. Each property's text and owner name are host answers carried in `DebugProp`. The `int` overflow of `ycoord` is not modelled.
- KxSceneLogic.ReplicateLogic: registering a link with the logic manager is modelled as appending it to the controller's list; the brick's side of the link is not modelled. Also left out:
  - adding the debug properties;
  - giving relinked actuators the execution priority;
  - `ResetState`;
  - the null entries that the map's `operator[]` inserts when a lookup misses.
- KxSceneLogic.RelinkBricks: it requires that every link of a replicated owner has its counterpart. The source asserts this in debug builds only. A release build registering a null brick, or `at` throwing, is not modelled.
