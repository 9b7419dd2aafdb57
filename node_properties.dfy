/** What the node's transitions guarantee about the resources it holds. The
    effect of each step on the device is stated as an update of its live sets
    (`Pool`): the kinds a step does not name keep their live handles. */
module NodeProperties {
  import opened Device
  import opened VkMemory
  import opened NodeModel

  /** The node's resource invariant: the live framebuffer objects, Direct3D 11
      and Metal textures, and Vulkan images, memories, views and framebuffers
      are exactly the node's fields (so at most one of each is alive). Live
      texture wrappers are at most the one `texture()` points at. The current
      render pass is alive, though passes of earlier Vulkan rebuilds may stay
      alive beside it, and nothing Vulkan exists before the Vulkan case has
      run. The live sets are the log's reading of them, so all of this is a
      statement about the calls the node made. */
  ghost predicate Inv(s: State)
  {
    var n, p := s.node, s.dev.live;
    && s.dev.Valid() && s.dev.Faithful()
    && p.wrappers <= Held(n.texture)
    && p.fbos == Held(n.fbo)
    && p.d3d11s == Held(n.d3d11)
    && p.mtls == Held(n.mtl)
    && ImageSetInv(s)
    && (n.renderPass != Null ==> n.renderPass in p.renderPasses)
    && (!n.vulkan ==> n.renderPass == Null && n.image == Null && p.renderPasses == {})
  }

  /** The Vulkan image set part of the invariant: the live image, memory, view
      and framebuffer are the node's, and an unset image implies the rest unset. */
  ghost predicate ImageSetInv(s: State)
  {
    var n, p := s.node, s.dev.live;
    && p.images == Held(n.image)
    && p.memories == Held(n.memory)
    && p.views == Held(n.view)
    && p.framebuffers == Held(n.framebuffer)
    && (n.image == Null ==> n.memory == Null && n.view == Null && n.framebuffer == Null)
  }

  /** The invariant with the stricter wrapper clause: the live texture wrapper
      is exactly the one `texture()` points at. */
  ghost predicate StrictInv(s: State)
  {
    Inv(s) && s.dev.live.wrappers == Held(s.node.texture)
  }

  lemma InitialStrictInv()
    ensures Inv(Initial) && StrictInv(Initial)
  {
    FreshIsFaithful();
  }

  // ---------------------------------------------------------------------------
  // The steps

  /** `delete texture()` leaves no wrapper alive and nothing else changed. */
  lemma DeleteTexturePreservesInv(s: State, clears: bool)
    requires Inv(s)
    ensures var r := DeleteTexture(s, clears);
      && Inv(r)
      && r.dev.live == s.dev.live.(wrappers := {}) && r.dev.next == s.dev.next
      && r.node == s.node.(texture := if clears then Null else s.node.texture)
  {
  }

  /** `setTexture(...)` with no wrapper alive: the new wrapper is fresh, live
      and the only one. */
  lemma SetTexturePreservesInv(s: State)
    requires Inv(s) && s.dev.live.wrappers == {}
    ensures var r := SetTexture(s);
      && Inv(r) && r.node == s.node.(texture := s.dev.next) && s.dev.next != Null
      && r.dev.live == s.dev.live.(wrappers := {s.dev.next}) && r.dev.next == s.dev.next + 1
  {
  }

  /** Recording a call that creates and destroys nothing. */
  lemma EmitPreservesInv(s: State, e: Event)
    requires Inv(s) && (e.Bound? || e.RenderApiSet? || e.FlippedY? || e.SurfaceSizeSet? || e.VideoRendered?)
    ensures Inv(State(s.node, s.dev.Emit(e)))
    ensures s.dev.Emit(e).live == s.dev.live && s.dev.Emit(e).next == s.dev.next
  {
  }

  /** `freeTexture()` on a node whose image set is consistent leaves no image,
      memory, view or framebuffer alive and every other kind as it was; when the
      image was set it emits exactly the four destroy calls, framebuffer first
      and image last, and otherwise nothing. */
  lemma FreeTextureEffect(s: State)
    requires ImageSetInv(s)
    ensures var r := FreeTexture(s);
      && ImageSetInv(r)
      && r.node == s.node.(image := Null, memory := Null, view := Null, framebuffer := Null)
      && r.dev.live == s.dev.live.(images := {}, memories := {}, views := {}, framebuffers := {})
      && r.dev.next == s.dev.next
      && (s.dev.Valid() ==> r.dev.Valid())
      && (s.node.image != Null ==>
            r.dev.log == s.dev.log + [Destroyed(Framebuffer, s.node.framebuffer),
                                      Destroyed(DeviceMemory, s.node.memory),
                                      Destroyed(ImageView, s.node.view),
                                      Destroyed(Image, s.node.image)])
      && (s.node.image == Null ==> r == s)
  {
    var n := s.node;
    if n.image != Null {
      var d := s.dev.Emit(Destroyed(Framebuffer, n.framebuffer))
                    .Emit(Destroyed(DeviceMemory, n.memory))
                    .Emit(Destroyed(ImageView, n.view))
                    .Emit(Destroyed(Image, n.image));
      assert d.log == s.dev.log + [Destroyed(Framebuffer, n.framebuffer),
                                   Destroyed(DeviceMemory, n.memory),
                                   Destroyed(ImageView, n.view),
                                   Destroyed(Image, n.image)];
    }
  }

  lemma FreeTextureReleasesImageSet(s: State)
    requires Inv(s)
    ensures var r := FreeTexture(s);
      && Inv(r)
      && r.node == s.node.(image := Null, memory := Null, view := Null, framebuffer := Null)
      && r.dev.live == s.dev.live.(images := {}, memories := {}, views := {}, framebuffers := {})
  {
    FreeTextureEffect(s);
  }

  /** `createRenderPass()` adds a fresh render pass on success and never
      destroys the previous one. */
  lemma CreateRenderPassPreservesInv(s: State, ok: bool)
    requires Inv(s) && s.node.vulkan
    ensures var (r, res) := CreateRenderPass(s, ok);
      var rp := r.node.renderPass;
      && Inv(r) && res == ok && (ok <==> rp != Null)
      && r.node == s.node.(renderPass := rp)
      && r.dev.live == s.dev.live.(renderPasses := s.dev.live.renderPasses + Held(rp))
      && rp !in s.dev.live.renderPasses
  {
  }

  /** `buildTexture` runs image, memory, bind, view and framebuffer in that
      order and stops at the first failure, leaving the handles already set.
      The memory comes from the type the memory-type loop chose. Each case
      gives the exact calls recorded and the node's new fields. */
  lemma BuildTextureOutcome(s: State, a: Answers)
    requires s.dev.Valid()
    ensures var (r, ok) := BuildTexture(s, a);
      var log, img := s.dev.log, s.dev.next;
      var mi := MemoryTypeIndex(a.memoryTypeBits, a.memoryTypeCount);
      && (ok <==> a.image && a.memory && a.bind && a.view && a.framebuffer)
      && (!a.image ==> r.node == s.node && r.dev.log == log + [Created(Image, Null)])
      && (a.image && !a.memory ==>
            && r.node == s.node.(image := img, memory := Null)
            && r.dev.log == log + [Created(Image, img), Allocated(mi, Null)])
      && (a.image && a.memory && !a.bind ==>
            && r.node == s.node.(image := img, memory := img + 1)
            && r.dev.log == log + [Created(Image, img), Allocated(mi, img + 1), Bound(img, img + 1, false)])
      && (a.image && a.memory && a.bind && !a.view ==>
            && r.node == s.node.(image := img, memory := img + 1, view := Null)
            && r.dev.log == log + [Created(Image, img), Allocated(mi, img + 1), Bound(img, img + 1, true),
                                   Created(ImageView, Null)])
      && (a.image && a.memory && a.bind && a.view ==>
            var fb := if a.framebuffer then img + 3 else Null;
            && r.node == s.node.(image := img, memory := img + 1, view := img + 2, framebuffer := fb)
            && r.dev.log == log + [Created(Image, img), Allocated(mi, img + 1), Bound(img, img + 1, true),
                                   Created(ImageView, img + 2), Created(Framebuffer, fb)])
  {
    // The log after each step, spelled out, keeps the solver's search short.
    var (d1, h) := s.dev.Create(Image, a.image);
    if a.image {
      var s1 := State(s.node.(image := h), d1);
      BackImageOutcome(s1, a);
      var log := s.dev.log;
      assert d1.log == log + [Created(Image, h)];
      var img := s.dev.next;
      var mi := MemoryTypeIndex(a.memoryTypeBits, a.memoryTypeCount);
      var m := img + 1;
      assert d1.log + [Allocated(mi, Null)] == log + [Created(Image, img), Allocated(mi, Null)];
      assert d1.log + [Allocated(mi, m), Bound(img, m, false)]
          == log + [Created(Image, img), Allocated(mi, m), Bound(img, m, false)];
      assert d1.log + [Allocated(mi, m), Bound(img, m, true), Created(ImageView, Null)]
          == log + [Created(Image, img), Allocated(mi, m), Bound(img, m, true), Created(ImageView, Null)];
      var fb := if a.framebuffer then img + 3 else Null;
      assert d1.log + [Allocated(mi, m), Bound(img, m, true), Created(ImageView, img + 2), Created(Framebuffer, fb)]
          == log + [Created(Image, img), Allocated(mi, m), Bound(img, m, true), Created(ImageView, img + 2), Created(Framebuffer, fb)];
    }
  }

  /** The steps after the image, in order, stopping at the first failure. */
  lemma BackImageOutcome(s: State, a: Answers)
    requires s.dev.Valid()
    ensures var (r, ok) := BackImage(s, a);
      var log, img, m := s.dev.log, s.node.image, s.dev.next;
      var mi := MemoryTypeIndex(a.memoryTypeBits, a.memoryTypeCount);
      && (ok <==> a.memory && a.bind && a.view && a.framebuffer)
      && (!a.memory ==> r.node == s.node.(memory := Null) && r.dev.log == log + [Allocated(mi, Null)])
      && (a.memory && !a.bind ==>
            && r.node == s.node.(memory := m)
            && r.dev.log == log + [Allocated(mi, m), Bound(img, m, false)])
      && (a.memory && a.bind && !a.view ==>
            && r.node == s.node.(memory := m, view := Null)
            && r.dev.log == log + [Allocated(mi, m), Bound(img, m, true), Created(ImageView, Null)])
      && (a.memory && a.bind && a.view ==>
            var fb := if a.framebuffer then m + 2 else Null;
            && r.node == s.node.(memory := m, view := m + 1, framebuffer := fb)
            && r.dev.log == log + [Allocated(mi, m), Bound(img, m, true), Created(ImageView, m + 1), Created(Framebuffer, fb)])
  {
    // As above: the log after each step, spelled out.
    var log, img := s.dev.log, s.node.image;
    var mi := MemoryTypeIndex(a.memoryTypeBits, a.memoryTypeCount);
    var (d2, mem) := s.dev.Allocate(mi, a.memory);
    if a.memory {
      var d3 := d2.Emit(Bound(img, mem, a.bind));
      assert d3.log == log + [Allocated(mi, mem), Bound(img, mem, a.bind)];
      if a.bind {
        var (d4, v) := d3.Create(ImageView, a.view);
        assert d4.log == log + [Allocated(mi, mem), Bound(img, mem, true), Created(ImageView, v)];
        if a.view {
          var (d5, fb) := d4.Create(Framebuffer, a.framebuffer);
          assert d5.log == log + [Allocated(mi, mem), Bound(img, mem, true), Created(ImageView, v), Created(Framebuffer, fb)];
        }
      }
    }
  }

  lemma ImageCreatedPreservesInv(s: State, ok: bool)
    requires Inv(s) && s.node.vulkan && s.node.image == Null
    ensures var (d, img) := s.dev.Create(Image, ok);
      Inv(State(s.node.(image := img), d)) && d.live == s.dev.live.(images := Held(img))
  {
  }

  lemma MemoryAllocatedPreservesInv(s: State, memoryType: nat, ok: bool)
    requires Inv(s) && s.node.image != Null && s.node.memory == Null
    ensures var (d, mem) := s.dev.Allocate(memoryType, ok);
      Inv(State(s.node.(memory := mem), d)) && d.live == s.dev.live.(memories := Held(mem))
  {
  }

  lemma ViewCreatedPreservesInv(s: State, ok: bool)
    requires Inv(s) && s.node.image != Null && s.node.view == Null
    ensures var (d, view) := s.dev.Create(ImageView, ok);
      Inv(State(s.node.(view := view), d)) && d.live == s.dev.live.(views := Held(view))
  {
  }

  lemma FramebufferCreatedPreservesInv(s: State, ok: bool)
    requires Inv(s) && s.node.image != Null && s.node.framebuffer == Null
    ensures var (d, fb) := s.dev.Create(Framebuffer, ok);
      Inv(State(s.node.(framebuffer := fb), d)) && d.live == s.dev.live.(framebuffers := Held(fb))
  {
  }

  /** Building on an empty image set keeps the invariant: the handles the build
      sets are the live ones of their kinds, and no other kind changes. */
  lemma BuildTexturePreservesInv(s: State, a: Answers)
    requires Inv(s) && s.node.vulkan && s.node.image == Null
    ensures var (r, _) := BuildTexture(s, a);
      var n := r.node;
      && Inv(r)
      && n == s.node.(image := n.image, memory := n.memory, view := n.view, framebuffer := n.framebuffer)
      && r.dev.live == s.dev.live.(images := Held(n.image), memories := Held(n.memory),
                                   views := Held(n.view), framebuffers := Held(n.framebuffer))
  {
    var (d1, img) := s.dev.Create(Image, a.image);
    ImageCreatedPreservesInv(s, a.image);
    if img != Null {
      var s1 := State(s.node.(image := img), d1);
      var memoryType := MemoryTypeIndex(a.memoryTypeBits, a.memoryTypeCount);
      var (d2, mem) := d1.Allocate(memoryType, a.memory);
      MemoryAllocatedPreservesInv(s1, memoryType, a.memory);
      var s2 := State(s1.node.(memory := mem), d2);
      if mem != Null {
        var d3 := d2.Emit(Bound(img, mem, a.bind));
        EmitPreservesInv(s2, Bound(img, mem, a.bind));
        var s3 := State(s2.node, d3);
        if a.bind {
          var (d4, view) := d3.Create(ImageView, a.view);
          ViewCreatedPreservesInv(s3, a.view);
          var s4 := State(s3.node.(view := view), d4);
          if view != Null {
            FramebufferCreatedPreservesInv(s4, a.framebuffer);
          }
        }
      }
    }
  }

  /** A build that fails after the image was created leaves the image set in
      the node, so the next `freeTexture()` still releases all of it. */
  lemma FailedBuildIsReleasedByFree(s: State, a: Answers)
    requires Inv(s) && s.node.vulkan && s.node.image == Null
    requires a.image
    ensures var (r, ok) := BuildTexture(s, a);
      var f := FreeTexture(r);
      && r.node.image != Null
      && f.dev.live.images == {} && f.dev.live.memories == {}
      && f.dev.live.views == {} && f.dev.live.framebuffers == {}
      && f.dev.log[|r.dev.log| + 3] == Destroyed(Image, r.node.image)
  {
    var (r, ok) := BuildTexture(s, a);
    BuildTexturePreservesInv(s, a);
    BuildTextureOutcome(s, a);
    FreeTextureEffect(r);
  }

  // ---------------------------------------------------------------------------
  // The switch on the graphics API

  /** Whether the case of the switch for `api` yields a non-null native object
      from the device's answers (the Metal case ends in the Vulkan case). */
  predicate NativeAvailable(api: GraphicsApi, a: Answers)
  {
    match api
    case OpenGL => true
    case OpenGLRhi => true
    case Direct3D11Rhi => a.surface
    case MetalRhi => a.image
    case VulkanRhi => a.image
    case OtherApi => false
  }

  /** What every case of the switch leaves alone: the texture pointer, the
      size and the live wrappers. */
  predicate DispatchKeeps(s: State, r: State)
  {
    && r.node.texture == s.node.texture && r.node.size == s.node.size
    && r.dev.live.wrappers == s.dev.live.wrappers
  }

  /** The OpenGL case: a fresh framebuffer object is made first, then the old
      one (if any) is deleted, as `unique_ptr::reset` does; then the player is
      configured and told to flip. */
  lemma SetUpGLPreservesInv(s: State)
    requires Inv(s)
    ensures var (r, native) := SetUpGL(s);
      var prev := s.node.fbo;
      && Inv(r) && native == s.dev.next && native != Null && r.node == s.node.(fbo := native)
      && r.dev.live == s.dev.live.(fbos := {native})
      && r.dev.log == s.dev.log + [Created(GLFramebufferObject, native)]
                        + (if prev != Null then [Destroyed(GLFramebufferObject, prev)] else [])
                        + [RenderApiSet(GLApi, native), FlippedY]
  {
  }

  /** The Direct3D 11 case: taking the address of the ComPtr releases the old
      texture (if any) before CreateTexture2D makes the new one; the native
      object is a fresh handle exactly when creation succeeds. */
  lemma SetUpD3D11PreservesInv(s: State, a: Answers)
    requires Inv(s)
    ensures var (r, native) := SetUpD3D11(s, a);
      var prev := s.node.d3d11;
      && Inv(r) && native == (if a.surface then s.dev.next else Null) && r.node == s.node.(d3d11 := native)
      && r.dev.live == s.dev.live.(d3d11s := Held(native))
      && r.dev.log == s.dev.log + (if prev != Null then [Destroyed(D3D11Texture, prev)] else [])
                        + [Created(D3D11Texture, native), RenderApiSet(D3D11Api, native)]
  {
  }

  /** The Metal case: the new texture is made first, then storing it releases
      the old one (if any); the native object is a fresh handle exactly when
      creation succeeds. */
  lemma SetUpMetalPreservesInv(s: State, a: Answers)
    requires Inv(s)
    ensures var (r, native) := SetUpMetal(s, a);
      var prev := s.node.mtl;
      && Inv(r) && native == (if a.surface then s.dev.next else Null) && r.node == s.node.(mtl := native)
      && r.dev.live == s.dev.live.(mtls := Held(native))
      && r.dev.log == s.dev.log + [Created(MetalTexture, native)]
                        + (if prev != Null then [Destroyed(MetalTexture, prev)] else [])
                        + [RenderApiSet(MetalApi, native)]
  {
  }

  /** The start of the Vulkan case: a new render pass, then `freeTexture()`. */
  lemma VulkanPrepareKeepsInv(s: State, ok: bool)
    requires Inv(s)
    ensures var (s2, _) := CreateRenderPass(s.(node := s.node.(vulkan := true)), ok);
      var r := FreeTexture(s2);
      var rp := r.node.renderPass;
      && Inv(r)
      && r.node == s.node.(vulkan := true, renderPass := rp, image := Null, memory := Null,
                           view := Null, framebuffer := Null)
      && r.dev.live == s.dev.live.(renderPasses := s.dev.live.renderPasses + Held(rp),
                                   images := {}, memories := {}, views := {}, framebuffers := {})
      && (ok <==> rp != Null) && rp !in s.dev.live.renderPasses
  {
    var s1 := s.(node := s.node.(vulkan := true));
    CreateRenderPassPreservesInv(s1, ok);
    var (s2, _) := CreateRenderPass(s1, ok);
    FreeTextureReleasesImageSet(s2);
  }

  /** The Vulkan case: the previous render pass stays alive beside the new one,
      the old image set is replaced by the one the build made, and the native
      object is the new image, non-null exactly when image creation succeeds. */
  lemma SetUpVulkanPreservesInv(s: State, a: Answers)
    requires Inv(s)
    ensures var (r, native) := SetUpVulkan(s, a);
      var n, rp := r.node, r.node.renderPass;
      && Inv(r) && DispatchKeeps(s, r) && n.vulkan
      && (native != Null <==> a.image) && native == n.image
      && r.dev.live == s.dev.live.(renderPasses := s.dev.live.renderPasses + Held(rp),
                                   images := Held(n.image), memories := Held(n.memory),
                                   views := Held(n.view), framebuffers := Held(n.framebuffer))
      && (a.renderPass <==> rp != Null) && rp !in s.dev.live.renderPasses
  {
    var s1 := s.(node := s.node.(vulkan := true));
    var (s2, _) := CreateRenderPass(s1, a.renderPass);
    var s3 := FreeTexture(s2);
    VulkanPrepareKeepsInv(s, a.renderPass);
    var (s4, _) := BuildTexture(s3, a);
    BuildTexturePreservesInv(s3, a);
    BuildTextureOutcome(s3, a);
    EmitPreservesInv(s4, RenderApiSet(VulkanApi, s4.node.renderPass));
  }

  lemma DispatchPreservesInv(s: State, api: GraphicsApi, a: Answers)
    requires Inv(s)
    ensures var (r, native) := Dispatch(s, api, a);
      Inv(r) && DispatchKeeps(s, r) && (native != Null <==> NativeAvailable(api, a))
  {
    match api
    case OpenGL => DispatchGLPreservesInv(s, api, a);
    case OpenGLRhi => DispatchGLPreservesInv(s, api, a);
    case Direct3D11Rhi => DispatchD3D11PreservesInv(s, a);
    case MetalRhi => MetalFallsThroughPreservesInv(s, a);
    case VulkanRhi => DispatchVulkanPreservesInv(s, a);
    case OtherApi =>
  }

  lemma DispatchGLPreservesInv(s: State, api: GraphicsApi, a: Answers)
    requires Inv(s) && (api == OpenGL || api == OpenGLRhi)
    ensures var (r, native) := Dispatch(s, api, a);
      Inv(r) && DispatchKeeps(s, r) && native != Null
  {
    SetUpGLPreservesInv(s);
  }

  lemma DispatchD3D11PreservesInv(s: State, a: Answers)
    requires Inv(s)
    ensures var (r, native) := Dispatch(s, Direct3D11Rhi, a);
      Inv(r) && DispatchKeeps(s, r) && (native != Null <==> a.surface)
  {
    SetUpD3D11PreservesInv(s, a);
  }

  lemma DispatchVulkanPreservesInv(s: State, a: Answers)
    requires Inv(s)
    ensures var (r, native) := Dispatch(s, VulkanRhi, a);
      Inv(r) && DispatchKeeps(s, r) && (native != Null <==> a.image)
  {
    var v := SetUpVulkan(s, a);
    SetUpVulkanPreservesInv(s, a);
    assert Inv(v.0) && DispatchKeeps(s, v.0) && (v.1 != Null <==> a.image);
    DispatchVulkanIsSetUpVulkan(s, a);
  }

  lemma DispatchVulkanIsSetUpVulkan(s: State, a: Answers)
    ensures Dispatch(s, VulkanRhi, a) == SetUpVulkan(s, a)
  {
  }

  /** The Metal case followed by the Vulkan case it runs into: the native
      object is the Vulkan image. */
  lemma MetalFallsThroughPreservesInv(s: State, a: Answers)
    requires Inv(s)
    ensures var (s1, _) := SetUpMetal(s, a);
      var (r, native) := SetUpVulkan(s1, a);
      Inv(r) && DispatchKeeps(s, r) && (native != Null <==> a.image) && native == r.node.image
  {
    var (s1, _) := SetUpMetal(s, a);
    SetUpMetalPreservesInv(s, a);
    SetUpVulkanPreservesInv(s1, a);
  }

  /** Every step of the switch only appends to the log and leaves the stored
      size and texture pointer alone. */
  lemma BuildTextureExtendsLog(s: State, a: Answers)
    ensures var (r, _) := BuildTexture(s, a);
      s.dev.log <= r.dev.log && r.node.texture == s.node.texture && r.node.size == s.node.size
  {
  }

  lemma SetUpVulkanExtendsLog(s: State, a: Answers)
    ensures var (r, _) := SetUpVulkan(s, a);
      s.dev.log <= r.dev.log && r.node.texture == s.node.texture && r.node.size == s.node.size
  {
    var s1 := s.(node := s.node.(vulkan := true));
    var (s2, _) := CreateRenderPass(s1, a.renderPass);
    var s3 := FreeTexture(s2);
    BuildTextureExtendsLog(s3, a);
  }

  lemma DispatchExtendsLog(s: State, api: GraphicsApi, a: Answers)
    ensures var (r, _) := Dispatch(s, api, a);
      s.dev.log <= r.dev.log && r.node.texture == s.node.texture && r.node.size == s.node.size
  {
    match api
    case OpenGL => SetUpGLExtendsLog(s);
    case OpenGLRhi => SetUpGLExtendsLog(s);
    case Direct3D11Rhi => SetUpD3D11ExtendsLog(s, a);
    case MetalRhi =>
      var (s1, _) := SetUpMetal(s, a);
      SetUpMetalExtendsLog(s, a);
      SetUpVulkanExtendsLog(s1, a);
    case VulkanRhi => SetUpVulkanExtendsLog(s, a);
    case OtherApi =>
  }

  lemma SetUpGLExtendsLog(s: State)
    ensures var (r, _) := SetUpGL(s);
      s.dev.log <= r.dev.log && r.node.texture == s.node.texture && r.node.size == s.node.size
  {
  }

  lemma SetUpD3D11ExtendsLog(s: State, a: Answers)
    ensures var (r, _) := SetUpD3D11(s, a);
      s.dev.log <= r.dev.log && r.node.texture == s.node.texture && r.node.size == s.node.size
  {
  }

  lemma SetUpMetalExtendsLog(s: State, a: Answers)
    ensures var (r, _) := SetUpMetal(s, a);
      s.dev.log <= r.dev.log && r.node.texture == s.node.texture && r.node.size == s.node.size
  {
  }

  // ---------------------------------------------------------------------------
  // sync()

  /** The size `sync()` leaves in the node. */
  function SyncedSize(n: Node, scaled: SizeF): Size
  {
    if SizeDiffers(scaled, n.size) then Rounded(scaled) else n.size
  }

  /** The prologue stores the size and deletes the wrapper: one destroy event
      if there was a wrapper, none otherwise. */
  lemma PrologueEffect(s: State, scaled: SizeF, clears: bool)
    ensures var r := Prologue(s, scaled, clears);
      && r.node == s.node.(size := SyncedSize(s.node, scaled),
                           texture := if clears then Null else s.node.texture)
      && r.dev.log == s.dev.log + (if s.node.texture != Null then [Destroyed(TextureWrapper, s.node.texture)] else [])
      && r.dev.next == s.dev.next
      && (Inv(s) ==> Inv(r) && r.dev.live == s.dev.live.(wrappers := {}))
  {
    var s1 := if SizeDiffers(scaled, s.node.size) then s.(node := s.node.(size := Rounded(scaled))) else s;
    if Inv(s) {
      assert Inv(s1);
      DeleteTexturePreservesInv(s1, clears);
    }
  }

  /** The epilogue wraps a non-null native object in a fresh wrapper and ends
      with the size report. */
  lemma EpilogueEffect(s: State, native: Handle)
    requires Inv(s) && s.dev.live.wrappers == {}
    ensures var r := Epilogue(s, native);
      && Inv(r)
      && r.node == s.node.(texture := if native != Null then s.dev.next else s.node.texture)
      && r.dev.live == s.dev.live.(wrappers := if native != Null then {s.dev.next} else {})
      && s.dev.next != Null
  {
    var s1 := if native != Null then SetTexture(s) else s;
    if native != Null {
      SetTexturePreservesInv(s);
    }
    EmitPreservesInv(s1, SurfaceSizeSet(s1.node.size.width, s1.node.size.height));
  }

  lemma EpilogueExtendsLog(s: State, native: Handle)
    ensures var r := Epilogue(s, native);
      && s.dev.log < r.dev.log && r.node.size == s.node.size
      && r.dev.log[|r.dev.log| - 1] == SurfaceSizeSet(r.node.size.width, r.node.size.height)
  {
  }

  /** A rebuild stores the rounded size if it moved, deletes the old wrapper
      first, and when the player is alive ends by telling the player the
      stored size. The log only grows, and grows whenever a wrapper existed. */
  lemma SyncRebuilds(s: State, input: SyncInput, clears: bool)
    requires NeedsNew(s.node, input.scaled)
    ensures var r := Sync(s, input, clears);
      && r.node.size == SyncedSize(s.node, input.scaled)
      && s.dev.log <= r.dev.log
      && (s.node.texture != Null ==>
            |r.dev.log| > |s.dev.log| && r.dev.log[|s.dev.log|] == Destroyed(TextureWrapper, s.node.texture))
      && (input.playerAlive ==>
            |r.dev.log| > |s.dev.log| &&
            r.dev.log[|r.dev.log| - 1] == SurfaceSizeSet(r.node.size.width, r.node.size.height))
  {
    var s2 := Prologue(s, input.scaled, clears);
    PrologueEffect(s, input.scaled, clears);
    if input.playerAlive {
      DispatchExtendsLog(s2, input.api, input.answers);
      var (s3, native) := Dispatch(s2, input.api, input.answers);
      EpilogueExtendsLog(s3, native);
    }
  }

  /** When a texture exists and the scaled size equals the stored one, `sync()`
      changes nothing; otherwise it always deletes the texture, so it is a no-op
      exactly when it does not rebuild. */
  lemma SyncIsNoOpIffCurrent(s: State, input: SyncInput, clears: bool)
    requires s.node.texture != Null
    ensures Sync(s, input, clears) == s <==> !NeedsNew(s.node, input.scaled)
  {
    if NeedsNew(s.node, input.scaled) {
      SyncRebuilds(s, input, clears);
    }
  }

  /** With the player gone, a rebuild only stores the size and deletes the
      wrapper (clearing the pointer only when `clears`). */
  lemma ExpiredPlayerSync(s: State, input: SyncInput, clears: bool)
    requires NeedsNew(s.node, input.scaled) && !input.playerAlive
    ensures var r := Sync(s, input, clears);
      && r.node == s.node.(size := SyncedSize(s.node, input.scaled),
                           texture := if clears then Null else s.node.texture)
      && r.dev.log == s.dev.log + (if s.node.texture != Null then [Destroyed(TextureWrapper, s.node.texture)] else [])
      && r.dev.next == s.dev.next
  {
    PrologueEffect(s, input.scaled, clears);
  }

  /** A rebuild with the player alive: the wrapper is replaced by a fresh one
      exactly when the backend produced a native object, and otherwise the
      pointer is left as the prologue left it. */
  lemma AliveSyncEffect(s: State, input: SyncInput, clears: bool)
    requires Inv(s) && NeedsNew(s.node, input.scaled) && input.playerAlive
    ensures var r := Sync(s, input, clears);
      var s2 := Prologue(s, input.scaled, clears);
      var (s3, native) := Dispatch(s2, input.api, input.answers);
      && Inv(r)
      && (native != Null <==> NativeAvailable(input.api, input.answers))
      && r.node == s3.node.(texture := if native != Null then s3.dev.next else s2.node.texture)
      && r.dev.live == s3.dev.live.(wrappers := if native != Null then {s3.dev.next} else {})
      && s3.dev.next != Null
  {
    var s2 := Prologue(s, input.scaled, clears);
    PrologueEffect(s, input.scaled, clears);
    DispatchPreservesInv(s2, input.api, input.answers);
    var (s3, native) := Dispatch(s2, input.api, input.answers);
    EpilogueEffect(s3, native);
  }

  /** `sync()` keeps the invariant, as written and corrected. */
  lemma SyncPreservesInv(s: State, input: SyncInput, clears: bool)
    requires Inv(s)
    ensures Inv(Sync(s, input, clears))
  {
    if NeedsNew(s.node, input.scaled) {
      PrologueEffect(s, input.scaled, clears);
      if input.playerAlive {
        AliveSyncEffect(s, input, clears);
      }
    }
  }

  /** Corrected `sync()`: the live wrapper is always exactly the one the node
      points at, and after a rebuild the node has a live wrapper exactly when
      the player was alive and the backend produced a native object. */
  lemma SyncPreservesStrictInv(s: State, input: SyncInput)
    requires StrictInv(s)
    ensures var r := Sync(s, input, true);
      && StrictInv(r)
      && (NeedsNew(s.node, input.scaled) ==>
            (r.node.texture != Null <==> input.playerAlive && NativeAvailable(input.api, input.answers)))
  {
    if NeedsNew(s.node, input.scaled) {
      PrologueEffect(s, input.scaled, true);
      if input.playerAlive {
        AliveSyncEffect(s, input, true);
      }
    }
  }

  /** At most one Vulkan image set and one wrapper are ever alive. */
  lemma InvBoundsLiveResources(s: State)
    requires Inv(s)
    ensures |s.dev.live.images| <= 1 && |s.dev.live.memories| <= 1
    ensures |s.dev.live.views| <= 1 && |s.dev.live.framebuffers| <= 1
    ensures |s.dev.live.wrappers| <= 1
  {
    var t := s.dev.live.wrappers;
    if t != {} {
      var h :| h in t;
      assert t == {h};
    }
  }

  lemma FloorBounds(x: real)
    ensures x.Floor as real <= x < x.Floor as real + 1.0
  {
  }

  /** qRound gives back x exactly when x is whole. */
  lemma QRoundOfWhole(x: real)
    ensures QRound(x) as real == x <==> IsWhole(x)
  {
    if IsWhole(x) {
      var f := x.Floor;
      FloorBounds(x + 0.5);
      assert f as real <= x + 0.5 < f as real + 1.0;
      assert (x + 0.5).Floor == f;
    }
  }

  /** After a rebuild the stored size is the rounded scaled size, which equals
      the scaled size only if both components are whole: a second `sync()` with
      the same scaled size rebuilds again unless they are. */
  lemma ResyncIsNoOpIffWhole(s: State, input: SyncInput, clears: bool)
    requires NeedsNew(s.node, input.scaled) && SizeDiffers(input.scaled, s.node.size)
    requires Sync(s, input, clears).node.texture != Null
    ensures var r := Sync(s, input, clears);
      Sync(r, input, clears) == r <==> IsWhole(input.scaled.width) && IsWhole(input.scaled.height)
  {
    var r := Sync(s, input, clears);
    SyncRebuilds(s, input, clears);
    SyncIsNoOpIffCurrent(r, input, clears);
    QRoundOfWhole(input.scaled.width);
    QRoundOfWhole(input.scaled.height);
  }

  /** Every Vulkan rebuild creates a new render pass and leaves the previous
      one alive. */
  lemma VulkanRebuildKeepsOldRenderPass(s: State, input: SyncInput, clears: bool)
    requires Inv(s) && NeedsNew(s.node, input.scaled) && input.playerAlive
    requires input.api == VulkanRhi && s.node.renderPass != Null
    ensures var r := Sync(s, input, clears);
      && s.node.renderPass in r.dev.live.renderPasses
      && r.node.renderPass != s.node.renderPass
      && (input.answers.renderPass ==> {s.node.renderPass, r.node.renderPass} <= r.dev.live.renderPasses)
  {
    var s2 := Prologue(s, input.scaled, clears);
    PrologueEffect(s, input.scaled, clears);
    SetUpVulkanPreservesInv(s2, input.answers);
    AliveSyncEffect(s, input, clears);
  }

  // ---------------------------------------------------------------------------
  // render() and the destructor

  /** `render()` asks the player to draw exactly when it is alive and touches
      nothing else. */
  lemma RenderDrawsOnlyWhenAlive(s: State, playerAlive: bool)
    requires Inv(s)
    ensures var r := Render(s, playerAlive);
      && Inv(r) && r.node == s.node && r.dev.live == s.dev.live
      && (playerAlive <==> VideoRendered in r.dev.log[|s.dev.log|..])
  {
    if playerAlive {
      EmitPreservesInv(s, VideoRendered);
    }
  }

  lemma ResetFboEffect(s: State)
    requires Inv(s)
    ensures var r := ResetFbo(s);
      && Inv(r) && r.node == s.node.(fbo := Null)
      && r.dev.live == s.dev.live.(fbos := {})
      && s.dev.log <= r.dev.log
  {
  }

  /** The destructor's Vulkan block releases the image set and the current
      render pass, and nothing else. */
  lemma VulkanTeardownReleases(s: State)
    requires Inv(s)
    ensures var r := VulkanTeardown(s);
      && r.dev.live == s.dev.live.(renderPasses := s.dev.live.renderPasses - {s.node.renderPass},
                                   images := {}, memories := {}, views := {}, framebuffers := {})
      && r.node == s.node.(image := Null, memory := Null, view := Null, framebuffer := Null)
      && s.dev.log <= r.dev.log
  {
    if s.node.vulkan {
      var t := s.(dev := s.dev.Emit(Destroyed(RenderPass, s.node.renderPass)));
      assert ImageSetInv(t);
      FreeTextureEffect(t);
    }
  }

  lemma ReleaseMembersEffect(s: State)
    requires s.dev.live.d3d11s == Held(s.node.d3d11) && s.dev.live.mtls == Held(s.node.mtl)
    ensures var r := ReleaseMembers(s);
      && r.dev.live == s.dev.live.(d3d11s := {}, mtls := {})
      && s.dev.log <= r.dev.log
  {
  }

  /** What the destructor does after deleting the texture only appends to the log. */
  lemma TeardownExtendsLog(s: State)
    ensures s.dev.log <= ReleaseMembers(VulkanTeardown(ResetFbo(s))).dev.log
  {
    var s1 := ResetFbo(s);
    var s2 := VulkanTeardown(s1);
    if s1.node.vulkan {
      var t := s1.(dev := s1.dev.Emit(Destroyed(RenderPass, s1.node.renderPass)));
      assert s1.dev.log <= t.dev.log;
    }
    assert s1.dev.log <= s2.dev.log;
  }

  /** The destructor releases every wrapper, framebuffer object, texture and
      Vulkan image set, but of the render passes only the current one. */
  lemma DestroyReleases(s: State)
    requires Inv(s)
    ensures var r := Destroy(s);
      && r.dev.live == NoneLive.(renderPasses := s.dev.live.renderPasses - {s.node.renderPass})
      && s.dev.log <= r.dev.log
  {
    var s1 := DeleteTexture(s, true);
    DeleteTexturePreservesInv(s, true);
    var s2 := ResetFbo(s1);
    ResetFboEffect(s1);
    var s3 := VulkanTeardown(s2);
    VulkanTeardownReleases(s2);
    ReleaseMembersEffect(s3);
  }

  /** Only the render passes of earlier Vulkan rebuilds outlive the node. */
  lemma DestroyLeavesOnlyOldRenderPasses(s: State)
    requires Inv(s)
    ensures var r := Destroy(s);
      && (forall k :: k != RenderPass ==> r.dev.Live(k) == {})
      && s.node.renderPass !in r.dev.Live(RenderPass)
      && r.dev.Live(RenderPass) <= s.dev.Live(RenderPass)
  {
    DestroyReleases(s);
    OnlyRenderPassesLeft(Destroy(s).dev.live, s.dev.live.renderPasses, s.node.renderPass);
  }

  lemma OnlyRenderPassesLeft(p: Pool, before: set<Handle>, current: Handle)
    requires p == NoneLive.(renderPasses := before - {current})
    ensures forall k :: k != RenderPass ==> p.Get(k) == {}
    ensures current !in p.Get(RenderPass) && p.Get(RenderPass) <= before
  {
  }

  // ---------------------------------------------------------------------------
  // Finding: `delete texture()` leaves the node pointing at the deleted wrapper.

  /** As written: a rebuild whose player has gone deletes the wrapper but keeps
      the pointer, so the destructor deletes the same wrapper a second time,
      when it is no longer alive. */
  lemma ExpiredSyncDeletesTextureTwice(s: State, input: SyncInput)
    requires StrictInv(s) && s.node.texture != Null
    requires NeedsNew(s.node, input.scaled) && !input.playerAlive
    ensures var r := Destroy(Sync(s, input, false));
      var t, i := s.node.texture, |s.dev.log|;
      && |r.dev.log| > i + 1
      && r.dev.log[i] == Destroyed(TextureWrapper, t) && r.dev.log[i + 1] == Destroyed(TextureWrapper, t)
      && t !in Sync(s, input, false).dev.live.wrappers
  {
    var t := s.node.texture;
    var s2 := Sync(s, input, false);
    ExpiredPlayerSync(s, input, false);
    PrologueEffect(s, input.scaled, false);
    var s3 := DeleteTexture(s2, true);
    assert s3.dev.log == s.dev.log + [Destroyed(TextureWrapper, t), Destroyed(TextureWrapper, t)];
    TeardownExtendsLog(s3);
  }

  /** As written: a rebuild with the player alive whose backend yields no
      native object (CreateTexture2D or vkCreateImage failing after a resize,
      or an unsupported graphics API) deletes the wrapper but keeps the
      pointer, so the node shows a wrapper that is no longer alive and the
      destructor's first call deletes it a second time. */
  lemma FailedBackendKeepsDeletedTexture(s: State, input: SyncInput)
    requires StrictInv(s) && s.node.texture != Null
    requires NeedsNew(s.node, input.scaled) && input.playerAlive
    requires !NativeAvailable(input.api, input.answers)
    ensures var r := Sync(s, input, false);
      var t := s.node.texture;
      && r.node.texture == t && t !in r.dev.live.wrappers
      && |r.dev.log| > |s.dev.log| && r.dev.log[|s.dev.log|] == Destroyed(TextureWrapper, t)
      && |Destroy(r).dev.log| > |r.dev.log| && Destroy(r).dev.log[|r.dev.log|] == Destroyed(TextureWrapper, t)
  {
    var r := Sync(s, input, false);
    PrologueEffect(s, input.scaled, false);
    AliveSyncEffect(s, input, false);
    SyncRebuilds(s, input, false);
    var r1 := DeleteTexture(r, true);
    assert r1.dev.log == r.dev.log + [Destroyed(TextureWrapper, s.node.texture)];
    TeardownExtendsLog(r1);
  }

  /** As written: after that expired rebuild, with whole sizes, a later `sync()`
      with the player back does nothing, so the node keeps showing a deleted
      wrapper. */
  lemma ExpiredSyncSuppressesRetry(s: State, input: SyncInput, retry: SyncInput)
    requires StrictInv(s) && s.node.texture != Null
    requires NeedsNew(s.node, input.scaled) && !input.playerAlive
    requires IsWhole(input.scaled.width) && IsWhole(input.scaled.height)
    requires retry.scaled == input.scaled
    ensures var r := Sync(s, input, false);
      && Sync(r, retry, false) == r
      && r.node.texture != Null && r.node.texture !in r.dev.live.wrappers
  {
    ExpiredPlayerSync(s, input, false);
    PrologueEffect(s, input.scaled, false);
    QRoundOfWhole(input.scaled.width);
    QRoundOfWhole(input.scaled.height);
  }

  /** Corrected: the expired rebuild clears the pointer, so the next `sync()`
      rebuilds whatever the size. */
  lemma CorrectedSyncRetries(s: State, input: SyncInput, retry: SyncInput)
    requires StrictInv(s)
    requires NeedsNew(s.node, input.scaled) && !input.playerAlive
    ensures var r := Sync(s, input, true);
      && r.node.texture == Null && NeedsNew(r.node, retry.scaled)
      && r.dev.live.wrappers == {}
  {
    ExpiredPlayerSync(s, input, true);
    SyncPreservesStrictInv(s, input);
  }

  /** Corrected: under the strict invariant the destructor deletes the wrapper
      only if it is alive, and then as its first call. */
  lemma DestroyDeletesOnlyLiveTexture(s: State)
    requires StrictInv(s)
    ensures var r := Destroy(s);
      s.node.texture != Null ==>
        && r.dev.log[|s.dev.log|] == Destroyed(TextureWrapper, s.node.texture)
        && s.node.texture in s.dev.live.wrappers
  {
    DestroyReleases(s);
  }
}
