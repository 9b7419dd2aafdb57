# VideoTextureNode resource lifecycle

This project models the texture node of the Qt Quick video item in
`Qt/qmlrhi/VideoTextureItem.cpp`. The node owns an offscreen render target that an
external player draws into. The scene graph shows that target through a texture
wrapper. On every `sync()` the node decides whether to rebuild the target. A
rebuild has these steps:

- delete the old wrapper;
- make the backend's native object for the active graphics API (OpenGL framebuffer
  object, Direct3D 11 texture, Metal texture, or a Vulkan image set);
- hand that object to the player;
- wrap it in a new texture.

On Vulkan a rebuild always creates a render pass first. It then frees the previous
image, memory, view and framebuffer and builds new ones in five steps that stop at
the first failure. `render()` asks the player to draw if the player is still alive.
The destructor releases what the node holds.

The model has five modules:

- `Device` (device.dfy): the GPU, the host's texture-import call and the player.
  - Every call becomes an `Event` in a log.
  - Whether a Vulkan, Direct3D 11 or Metal creation succeeds is an input; the texture import always succeeds. A success hands out a handle never handed out before.
  - The device keeps the live handles of each kind in a `Pool`. `Faithful` says the pool is the one `PoolOf` computes from the log; `RecordIsFaithful` proves every recorded call keeps that, and `FaithfulLive` reads it as the handles of each kind the log created and has not destroyed since. `Inv` includes it.
  - `Gpu` is the same device as an object.
- `VkMemory` (vk_memory.dfy):
  - the `aligned` helper on 64-bit unsigned arithmetic, with wrap-around written out;
  - the memory-type loop of `buildTexture`, as a `while` loop proved against `MemoryTypeIndex`.
- `NodeModel` (node_model.dfy): each member function of the node as a pure transition over `State`.
  - A `State` is the node's fields plus the device's trace.
  - `sync()` takes a flag `clears`: `false` is the code as written, `true` the correction described under Findings.
- `NodeProperties` (node_properties.dfy): the resource invariant `Inv` and what each step, `sync()`, `render()` and the destructor guarantee.
  - Under `Inv`, the live framebuffer object, Direct3D 11 texture, Metal texture and Vulkan image, memory, view and framebuffer are exactly the ones the node's fields hold. At most the wrapper `texture()` points at is alive. The current render pass is alive, but render passes of earlier Vulkan rebuilds may stay alive beside it. Nothing Vulkan exists before the Vulkan case has run. The live sets are what the log says is alive.
- `TextureNode` (texture_node.dfy): the node and the item as classes.
  - `VideoTextureNode` has the node's fields. Each of its methods is proved to make exactly the transition of its `NodeModel` function, with `Abs() == F(old(Abs()))`.
  - Its `Valid()` is `StrictInv`, which `Sync`, `Render` and the constructor keep.
  - `VideoTextureItem.UpdatePaintNode` has the zero-size guard.

Where the code does something a reader might not expect, the model follows the code:

- The memory-type loop never breaks, so it picks the **highest** allowed memory type below `memoryTypeCount`, not the first (`LastAllowedNotFirst`).
- Every Vulkan rebuild creates a new render pass and overwrites `m_renderPass` without destroying the old one. Only the last render pass is destroyed, in the destructor.
- A failed `buildTexture` leaves the handles it already set in the node, not a null image set. The next `freeTexture()` releases them (`FailedBuildIsReleasedByFree`).
- `delete texture()` does not make `texture()` null (see Findings).
- The Metal case of the switch has no `break` and runs into the Vulkan case. The model runs that Vulkan case after the Metal one; see `NodeModel.Dispatch` under Left out.

## Model

| member | source | states |
|---|---|---|
| VkMemory.AlignedRoundsUp | Qt/qmlrhi/VideoTextureItem.cpp:448-451 | `aligned(v, a)` with `a` a power of two, and `v + a - 1` not overflowing, is a multiple of `a`, is at least `v` and is less than `v + a` |
| VkMemory.AlignedIsLeast | Qt/qmlrhi/VideoTextureItem.cpp:448-451 | under the same conditions, `aligned(v, a)` is at most every multiple of `a` that is at least `v`, so it is the least one |
| VkMemory.BitAnd | Qt/qmlrhi/VideoTextureItem.cpp:368 | the bitwise and of two values, computed bit by bit, is at most each operand |
| VkMemory.MemoryTypeIndexIsHighest | Qt/qmlrhi/VideoTextureItem.cpp:364-371 | if some type below the count is allowed by the mask, the index is allowed, below the count, and no higher type below the count is allowed; if none is allowed, the index is 0 |
| VkMemory.SelectMemoryType | Qt/qmlrhi/VideoTextureItem.cpp:364-371 | the loop, which overwrites `memIndex` on every allowed type, ends with `MemoryTypeIndex` of the mask and count |
| VkMemory.LastAllowedNotFirst | Qt/qmlrhi/VideoTextureItem.cpp:364-371 | with types 0 and 1 both allowed the loop picks 1, not the first allowed type |
| Device.FreshIsFaithful | Qt/qmlrhi/VideoTextureItem.cpp:149-160 | a device that has recorded nothing holds no live handle and is valid |
| Device.RecordIsFaithful | Qt/qmlrhi/VideoTextureItem.cpp:432-444 | recording any call keeps each kind's live set equal to the handles the log created and has not destroyed since |
| Device.PoolOfIsLiveOf | Qt/qmlrhi/VideoTextureItem.cpp:432-444 | for every kind, the pool computed from a log holds exactly the handles of that kind the log created and has not destroyed since |
| Device.FaithfulLive | Qt/qmlrhi/VideoTextureItem.cpp:432-444 | in a faithful trace each kind's live set is what the log says is alive |
| Device.Gpu.DestroyImageSet | Qt/qmlrhi/VideoTextureItem.cpp:435-441 | the four destroy calls of `freeTexture()` are recorded in the order framebuffer, memory, view, image |
| NodeProperties.InitialStrictInv | Qt/qmlrhi/VideoTextureItem.cpp:149-160 | a new node with a fresh device satisfies the invariant and the strict invariant |
| NodeProperties.DeleteTexturePreservesInv | Qt/qmlrhi/VideoTextureItem.cpp:200 | `delete texture()` leaves no wrapper alive and nothing else changes; the pointer is cleared only when `clears` |
| NodeProperties.SetTexturePreservesInv | Qt/qmlrhi/VideoTextureItem.cpp:309-315 | with no wrapper alive, the new wrapper is a fresh handle, is the only live wrapper and is what `texture()` returns |
| NodeProperties.EmitPreservesInv | Qt/qmlrhi/VideoTextureItem.cpp:316 | a call that creates and destroys nothing (bind, player calls) leaves every live set and the next handle unchanged |
| NodeProperties.FreeTextureEffect | Qt/qmlrhi/VideoTextureItem.cpp:432-444 | with the image set, `freeTexture()` emits exactly destroy framebuffer, memory, view, image, in that order, and nulls the four handles; with the image null it changes nothing and emits nothing; no other kind's live set changes |
| NodeProperties.FreeTextureReleasesImageSet | Qt/qmlrhi/VideoTextureItem.cpp:432-444 | `freeTexture()` keeps the invariant and leaves no image, memory, view or framebuffer alive |
| NodeProperties.CreateRenderPassPreservesInv | Qt/qmlrhi/VideoTextureItem.cpp:486-490 | `createRenderPass()` returns success exactly when the field is set to a fresh render pass; earlier render passes stay alive |
| NodeProperties.BuildTextureOutcome | Qt/qmlrhi/VideoTextureItem.cpp:353-428 | `buildTexture` succeeds exactly when all five steps succeed; the calls come in the order image, memory from the type the loop chose, bind, view, framebuffer, and the build stops at the first failure: for each failure point the lemma gives the exact calls recorded and the node's fields, with the handles already set kept and the later ones untouched |
| NodeProperties.BackImageOutcome | Qt/qmlrhi/VideoTextureItem.cpp:361-428 | once the image exists: memory from the chosen type, bind, view, framebuffer in that order; for each failure point the exact calls recorded and the fields set so far, and success exactly when all four succeed |
| NodeProperties.ImageCreatedPreservesInv | Qt/qmlrhi/VideoTextureItem.cpp:353-359 | the image step sets the image exactly to the live image |
| NodeProperties.MemoryAllocatedPreservesInv | Qt/qmlrhi/VideoTextureItem.cpp:380-384 | the memory step sets the memory field exactly to the live memory |
| NodeProperties.ViewCreatedPreservesInv | Qt/qmlrhi/VideoTextureItem.cpp:408-412 | the view step sets the view field exactly to the live view |
| NodeProperties.FramebufferCreatedPreservesInv | Qt/qmlrhi/VideoTextureItem.cpp:424-428 | the framebuffer step sets the framebuffer field exactly to the live framebuffer |
| NodeProperties.BuildTexturePreservesInv | Qt/qmlrhi/VideoTextureItem.cpp:333-430 | building on a freed image set keeps the invariant, changes only the four image-set fields, and the live image set is exactly the one in the node |
| NodeProperties.FailedBuildIsReleasedByFree | Qt/qmlrhi/VideoTextureItem.cpp:380-428 | once the image exists, a build that fails later leaves the image in the node, and the next `freeTexture()` destroys it and leaves no image-set object alive |
| NodeProperties.SetUpGLPreservesInv | Qt/qmlrhi/VideoTextureItem.cpp:213-219 | the OpenGL case creates a fresh framebuffer object (the next handle), then deletes the old one if there was one, then calls `setRenderAPI` and the flip, in that order and nothing else; the native object is never null |
| NodeProperties.SetUpD3D11PreservesInv | Qt/qmlrhi/VideoTextureItem.cpp:229-235 | the Direct3D 11 case releases the old texture if there was one, then creates the new one, then calls `setRenderAPI`, in that order and nothing else; the native object is the next handle when CreateTexture2D succeeds and null otherwise, and is the only live texture |
| NodeProperties.SetUpMetalPreservesInv | Qt/qmlrhi/VideoTextureItem.cpp:253-259 | the Metal case creates the new texture, then releases the old one if there was one, then calls `setRenderAPI`, in that order and nothing else; the native object is the next handle when creation succeeds and null otherwise, and is the only live texture |
| NodeProperties.VulkanPrepareKeepsInv | Qt/qmlrhi/VideoTextureItem.cpp:271-273 | `createRenderPass()` then `freeTexture()` keeps every old render pass alive, adds the new one and leaves no image set alive |
| NodeProperties.SetUpVulkanPreservesInv | Qt/qmlrhi/VideoTextureItem.cpp:262-305 | the Vulkan case keeps the invariant, so at most one image set is alive; the old render pass stays alive beside the new one; the native object is the image, non-null exactly when image creation succeeds |
| NodeProperties.DispatchPreservesInv | Qt/qmlrhi/VideoTextureItem.cpp:208-308 | the switch keeps the invariant and leaves the wrapper, pointer and size alone; the native object is non-null exactly when the backend (Metal running into Vulkan; others none) produced one |
| NodeProperties.MetalFallsThroughPreservesInv | Qt/qmlrhi/VideoTextureItem.cpp:239-305 | the Metal case followed by the Vulkan case it runs into keeps the invariant, the wrapper, pointer and size, and returns the Vulkan image, non-null exactly when image creation succeeds |
| NodeProperties.BuildTextureExtendsLog | Qt/qmlrhi/VideoTextureItem.cpp:333-430 | `buildTexture` only appends to the log and keeps the size and texture pointer |
| NodeProperties.SetUpVulkanExtendsLog | Qt/qmlrhi/VideoTextureItem.cpp:262-305 | the Vulkan case only appends to the log and keeps the size and texture pointer |
| NodeProperties.DispatchExtendsLog | Qt/qmlrhi/VideoTextureItem.cpp:208-308 | every case of the switch only appends to the log and keeps the size and texture pointer |
| NodeProperties.SetUpGLExtendsLog | Qt/qmlrhi/VideoTextureItem.cpp:213-219 | the OpenGL case only appends to the log and leaves size and texture pointer alone |
| NodeProperties.SetUpD3D11ExtendsLog | Qt/qmlrhi/VideoTextureItem.cpp:229-235 | the Direct3D 11 case only appends to the log and leaves size and texture pointer alone |
| NodeProperties.SetUpMetalExtendsLog | Qt/qmlrhi/VideoTextureItem.cpp:253-259 | the Metal case only appends to the log and leaves size and texture pointer alone |
| NodeProperties.PrologueEffect | Qt/qmlrhi/VideoTextureItem.cpp:192-200 | the start of a rebuild stores the rounded size if the scaled size moved and deletes the wrapper, with one destroy event if there was one and none otherwise |
| NodeProperties.EpilogueEffect | Qt/qmlrhi/VideoTextureItem.cpp:309-316 | the end of a rebuild wraps a non-null native object in a fresh wrapper, which is then the only live one, and wraps nothing otherwise |
| NodeProperties.EpilogueExtendsLog | Qt/qmlrhi/VideoTextureItem.cpp:316 | the last call of a rebuild tells the player the stored size |
| NodeProperties.SyncRebuilds | Qt/qmlrhi/VideoTextureItem.cpp:183-317 | a rebuild stores the rounded size if it moved, deletes the old wrapper as its first call, and with the player alive ends by telling the player the stored size |
| NodeProperties.SyncIsNoOpIffCurrent | Qt/qmlrhi/VideoTextureItem.cpp:189-198 | with a texture present, `sync()` changes nothing exactly when the scaled size equals the stored size |
| NodeProperties.ExpiredPlayerSync | Qt/qmlrhi/VideoTextureItem.cpp:200-204 | with the player gone, a rebuild only stores the size and deletes the wrapper, and creates nothing |
| NodeProperties.AliveSyncEffect | Qt/qmlrhi/VideoTextureItem.cpp:205-316 | with the player alive, the wrapper is replaced by a fresh one exactly when the backend produced a native object |
| NodeProperties.SyncPreservesInv | Qt/qmlrhi/VideoTextureItem.cpp:183-317 | `sync()` keeps the invariant, as written and corrected |
| NodeProperties.SyncPreservesStrictInv | Qt/qmlrhi/VideoTextureItem.cpp:183-317 | corrected `sync()` keeps the live wrapper equal to the one `texture()` returns; after a rebuild there is a texture exactly when the player was alive and the backend produced a native object |
| NodeProperties.InvBoundsLiveResources | Qt/qmlrhi/VideoTextureItem.cpp:271-274 | under the invariant at most one image, memory, view, framebuffer and wrapper are alive |
| NodeProperties.QRoundOfWhole | Qt/qmlrhi/VideoTextureItem.cpp:194 | qRound of x gives back x exactly when x is whole |
| NodeProperties.ResyncIsNoOpIffWhole | Qt/qmlrhi/VideoTextureItem.cpp:192-195 | after a rebuild for a moved size, a second `sync()` at the same scaled size is a no-op exactly when both scaled components are whole |
| NodeProperties.VulkanRebuildKeepsOldRenderPass | Qt/qmlrhi/VideoTextureItem.cpp:271 | a Vulkan rebuild leaves the previous render pass alive and stores a different one; when creation succeeds both are alive |
| NodeProperties.RenderDrawsOnlyWhenAlive | Qt/qmlrhi/VideoTextureItem.cpp:324-330 | `render()` asks the player to draw exactly when its reference can be locked, and changes no field and no live set |
| NodeProperties.ResetFboEffect | Qt/qmlrhi/VideoTextureItem.cpp:167 | `fbo_gl.reset()` deletes the framebuffer object and nothing else |
| NodeProperties.VulkanTeardownReleases | Qt/qmlrhi/VideoTextureItem.cpp:170-173 | the destructor's Vulkan block destroys the current render pass and the image set, and nothing else |
| NodeProperties.ReleaseMembersEffect | Qt/qmlrhi/VideoTextureItem.cpp:162-176 | the member destructors release the Direct3D 11 and Metal textures |
| NodeProperties.TeardownExtendsLog | Qt/qmlrhi/VideoTextureItem.cpp:166-176 | what the destructor does after deleting the texture only appends to the log |
| NodeProperties.DestroyReleases | Qt/qmlrhi/VideoTextureItem.cpp:162-176 | after the destructor nothing is alive except the render passes of earlier Vulkan rebuilds |
| NodeProperties.DestroyLeavesOnlyOldRenderPasses | Qt/qmlrhi/VideoTextureItem.cpp:170-173 | after the destructor every kind but render passes is empty, and the surviving render passes are earlier ones, not the current one |
| NodeProperties.FailedBackendKeepsDeletedTexture | Qt/qmlrhi/VideoTextureItem.cpp:162-317 | as written, a rebuild after a resize with the player alive, whose backend yields no native object (CreateTexture2D or vkCreateImage failing, or an unsupported API), first deletes the wrapper but keeps the pointer; afterwards that wrapper is not alive and the destructor's first call deletes it again |
| NodeProperties.ExpiredSyncDeletesTextureTwice | Qt/qmlrhi/VideoTextureItem.cpp:200-204 | as written, a rebuild with the player gone deletes the wrapper but keeps the pointer, and the destructor then deletes the same, no longer live, wrapper again |
| NodeProperties.ExpiredSyncSuppressesRetry | Qt/qmlrhi/VideoTextureItem.cpp:189-198 | as written, after that rebuild at whole sizes, a later `sync()` with the player back does nothing and the node keeps a deleted wrapper |
| NodeProperties.CorrectedSyncRetries | Qt/qmlrhi/VideoTextureItem.cpp:200-204 | corrected, the expired rebuild leaves the node without a texture and without a live wrapper, so the next `sync()` rebuilds whatever the size |
| NodeProperties.DestroyDeletesOnlyLiveTexture | Qt/qmlrhi/VideoTextureItem.cpp:164 | under the strict invariant the destructor's first call deletes the wrapper, and that wrapper is alive |
| TextureNode.VideoTextureNode.constructor | Qt/qmlrhi/VideoTextureItem.cpp:149-160 | a new node has no texture, no GPU objects, an invalid size and a fresh device, and is valid |
| TextureNode.VideoTextureNode.DeleteTexture | Qt/qmlrhi/VideoTextureItem.cpp:200 | the method makes the `DeleteTexture` transition with the pointer cleared |
| TextureNode.VideoTextureNode.SetTexture | Qt/qmlrhi/VideoTextureItem.cpp:309-315 | the method makes the `SetTexture` transition |
| TextureNode.VideoTextureNode.FreeTexture | Qt/qmlrhi/VideoTextureItem.cpp:432-444 | the method makes the `FreeTexture` transition |
| TextureNode.VideoTextureNode.CreateRenderPass | Qt/qmlrhi/VideoTextureItem.cpp:453-493 | the method makes the `CreateRenderPass` transition and returns its result |
| TextureNode.VideoTextureNode.BuildTexture | Qt/qmlrhi/VideoTextureItem.cpp:333-430 | called with no image set, as after `freeTexture()`, the method makes the `BuildTexture` transition and returns its result |
| TextureNode.VideoTextureNode.BackImage | Qt/qmlrhi/VideoTextureItem.cpp:361-390 | the memory-type loop and the allocate and bind steps, then `CreateTarget`, make the `BackImage` transition |
| TextureNode.VideoTextureNode.CreateTarget | Qt/qmlrhi/VideoTextureItem.cpp:408-429 | the method creates the image view, stops if that fails, then creates the framebuffer, making the `CreateTarget` transition |
| TextureNode.VideoTextureNode.SetUpGL | Qt/qmlrhi/VideoTextureItem.cpp:209-222 | the method makes the `SetUpGL` transition and returns the native object |
| TextureNode.VideoTextureNode.SetUpD3D11 | Qt/qmlrhi/VideoTextureItem.cpp:223-238 | the method makes the `SetUpD3D11` transition and returns the native object |
| TextureNode.VideoTextureNode.SetUpMetal | Qt/qmlrhi/VideoTextureItem.cpp:239-261 | the method makes the `SetUpMetal` transition and returns the native object |
| TextureNode.VideoTextureNode.SetUpVulkan | Qt/qmlrhi/VideoTextureItem.cpp:262-305 | the method makes the `SetUpVulkan` transition and returns the native object |
| TextureNode.VideoTextureNode.Dispatch | Qt/qmlrhi/VideoTextureItem.cpp:208-308 | the switch makes the `Dispatch` transition, with the Metal case running into the Vulkan case |
| TextureNode.VideoTextureNode.Sync | Qt/qmlrhi/VideoTextureItem.cpp:183-317 | the method makes the corrected `Sync` transition and keeps `Valid()` |
| TextureNode.VideoTextureNode.Render | Qt/qmlrhi/VideoTextureItem.cpp:324-330 | the method makes the `Render` transition and keeps `Valid()` |
| TextureNode.VideoTextureNode.ResetFbo | Qt/qmlrhi/VideoTextureItem.cpp:167 | the method makes the `ResetFbo` transition |
| TextureNode.VideoTextureNode.VulkanTeardown | Qt/qmlrhi/VideoTextureItem.cpp:170-173 | the method makes the `VulkanTeardown` transition |
| TextureNode.VideoTextureNode.ReleaseMembers | Qt/qmlrhi/VideoTextureItem.cpp:162-176 | the method makes the `ReleaseMembers` transition |
| TextureNode.VideoTextureNode.Destroy | Qt/qmlrhi/VideoTextureItem.cpp:162-176 | the method makes the `Destroy` transition, after which only the render passes of earlier Vulkan rebuilds are alive |
| TextureNode.VideoTextureItem.constructor | Qt/qmlrhi/VideoTextureItem.cpp:78-86 | a new item has no node yet (`m_node` starts null), so the first paint-node update decides whether one is made |
| TextureNode.VideoTextureItem.UpdatePaintNode | Qt/qmlrhi/VideoTextureItem.cpp:104-125 | no node is made exactly when there is none and the width or height is not positive; otherwise a new node, or the given one, is synced with the item size scaled by the device pixel ratio, returned, and left valid |

## Left out

- GPU, Direct3D, Metal, OpenGL and Qt calls are abstract device events. Whether each Vulkan, Direct3D 11 and Metal creation succeeds is an input (`Answers`). A successful call hands out a fresh handle. A failed call leaves the handle null, where Vulkan leaves the out-parameter undefined.
- The contents of the create-info and descriptor structs are left out: formats, usage bits, swizzles, layouts, the native layout and the `setRenderAPI` structs. They are constant data passed to foreign calls. Events record only which object a call makes or destroys.
- The player's Vulkan callbacks (`renderTargetSize`, `beginFrame`, `currentCommandBuffer`, `endFrame`) are not modelled. When the player calls them they read `m_size`, `m_textureFramebuffer` and `m_window` (whose renderer interface yields the command buffer), and change no field of the node.
- Floating point is left out.
  - `m_dpr` and the scaled size are exact reals. `qRound` is floor of x + 0.5, and the size comparison is exact.
  - Qt's fuzzy comparison of `QSizeF` and qRound's behaviour on negative halves are not modelled.
  - The device pixel ratio is an input of `UpdatePaintNode`, not read from a window.
- The model does not check whether a `QOpenGLFramebufferObject` is complete. Its creation always succeeds.
- Only one backend runs at a time. The `#if` guards are ignored, so all backends are modelled together.
- Threading and signals are left out: the render thread versus the GUI thread, and the `beforeRendering` and `screenChanged` connections.
- `VideoTextureItem`'s constructor is modelled only as leaving `m_node` null; the player it makes and the connections it sets up are not. `invalidateSceneGraph`, `releaseResources`, `geometryChanged`, `setSource` and `play` are not modelled. They set `m_node` to null or call into the player and the window.
- `setTextureCoordinatesTransform`, `setFiltering`, `setRect` and `window()->update()` in `updatePaintNode` are not modelled. They are host calls that touch no node resource.
- TextureNode.VideoTextureNode.Sync: the class runs the corrected `sync()`, which clears the pointer after deleting the wrapper. The code as written is the `clears == false` transition in `NodeModel.Sync`, and the lemmas in `NodeProperties` cover it.
- TextureNode.VideoTextureItem.UpdatePaintNode: asks that a given node be `m_node`. The code calls `m_node->sync()` while returning `n`, and the two differ only after `releaseResources`, which is not modelled.
- NodeModel.Dispatch: the Metal case runs into the Vulkan case with the Vulkan block compiled in, and the model assumes that the Vulkan instance, physical-device and device queries made of a Metal renderer return a usable device. The source dereferences those results unchecked. In a build without the Vulkan block the native object stays the Metal texture, and the model does not capture that build.
- NodeModel.SetTexture: `createTextureFromNativeObject` always succeeds here. The source passes whatever it returns, null included, to `setTexture`. So the model does not capture a node left with no texture after the backend produced a native object.
- NodeModel.Destroy: the destructor's `delete texture()` is modelled with the pointer cleared. The pointer cannot be observed once the node is gone.

## Findings

| source | as written | input that shows it | evidently intended | confidence | as-written member | corrected member |
|---|---|---|---|---|---|---|
| Qt/qmlrhi/VideoTextureItem.cpp:200 | `delete texture()` frees the wrapper, but `texture()` keeps returning the freed pointer. Only a later `setTexture` replaces it. | A resize while the player is alive, on Direct3D 11 with CreateTexture2D failing (or on Vulkan with vkCreateImage failing): `sync()` deletes the wrapper, no native object results, so no new wrapper replaces the pointer. The destructor then deletes the same wrapper again. The node's expired-player branch leaves the same dangling pointer, but `updatePaintNode` cannot reach it because the item owns the player. | Clear the texture (`setTexture(nullptr)`) after deleting it, so the node is texture-less and the next `sync()` rebuilds. | high, not executed | NodeProperties.FailedBackendKeepsDeletedTexture | NodeProperties.SyncPreservesStrictInv |

`NodeProperties.ExpiredSyncDeletesTextureTwice` and `NodeProperties.ExpiredSyncSuppressesRetry` show the expired-player branch as written: the same double delete, and at whole sizes no later `sync()` rebuilds. `NodeProperties.CorrectedSyncRetries` and `NodeProperties.DestroyDeletesOnlyLiveTexture` prove the corrected behaviour. `TextureNode.VideoTextureNode` uses that corrected behaviour.
