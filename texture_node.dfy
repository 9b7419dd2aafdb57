/** The texture node and the item that owns it as objects whose methods update
    their fields and call the device. Each method of `VideoTextureNode` is proved
    to make exactly the transition its `NodeModel` function describes, so the
    lemmas of `NodeProperties` hold of the objects. The node follows the
    corrected `sync()` that clears the texture pointer it deletes. */
module TextureNode {
  import opened Device
  import opened VkMemory
  import opened NodeModel
  import opened NodeProperties

  /** The step methods below `Sync` (the texture, render-pass, image-set and
      per-backend steps, and the destructor's parts) are private to the node in
      the source: only `Sync` and `Destroy` run them, in the order that keeps
      `Valid()`. Each is proved to make its `NodeModel` transition for any
      state; `Sync`, `Render` and `Destroy` require `Valid()`, and the first two keep it. */
  class VideoTextureNode {
    var size: Size              // m_size
    var texture: Handle         // texture() / setTexture()
    var fbo: Handle             // fbo_gl
    var d3d11: Handle           // m_texture_d3d11
    var mtl: Handle             // m_texture_mtl
    var vulkan: bool            // m_devFuncs != nullptr
    var image: Handle           // m_texture_vk
    var memory: Handle          // m_textureMemory
    var view: Handle            // m_textureView
    var framebuffer: Handle     // m_textureFramebuffer
    var renderPass: Handle      // m_renderPass
    const dev: Gpu

    /** The node's fields as a value. */
    ghost function Fields(): Node
      reads this
    {
      Node(size, texture, fbo, d3d11, mtl, vulkan, image, memory, view, framebuffer, renderPass)
    }

    ghost function Abs(): State
      reads this, dev
    {
      State(Fields(), dev.Abs())
    }

    ghost predicate Valid()
      reads this, dev
    {
      StrictInv(Abs())
    }

    constructor ()
      ensures Abs() == Initial && Valid() && fresh(dev)
    {
      size, texture, fbo, d3d11, mtl := InvalidSize, Null, Null, Null, Null;
      vulkan, image, memory, view, framebuffer, renderPass := false, Null, Null, Null, Null, Null;
      dev := new Gpu();
      InitialStrictInv();
    }

    /** `delete texture()`, clearing the pointer. */
    method DeleteTexture()
      modifies this, dev
      ensures Abs() == NodeModel.DeleteTexture(old(Abs()), true)
    {
      if texture != Null {
        dev.Emit(Destroyed(TextureWrapper, texture));
        texture := Null;
      }
    }

    /** `setTexture(createTextureFromNativeObject(...))`. */
    method SetTexture()
      modifies this, dev
      ensures Abs() == NodeModel.SetTexture(old(Abs()))
    {
      texture := dev.Create(TextureWrapper, true);
    }

    method FreeTexture()
      modifies this, dev
      ensures Abs() == NodeModel.FreeTexture(old(Abs()))
    {
      if image != Null {
        dev.DestroyImageSet(framebuffer, memory, view, image);
        framebuffer, memory, view, image := Null, Null, Null, Null;
      }
    }

    method CreateRenderPass(ok: bool) returns (res: bool)
      modifies this, dev
      ensures (Abs(), res) == NodeModel.CreateRenderPass(old(Abs()), ok)
    {
      renderPass := dev.Create(RenderPass, ok);
      res := ok;
    }

    /** `buildTexture(m_size)`. */
    method BuildTexture(a: Answers) returns (ok: bool)
      requires image == Null
      modifies this, dev
      ensures (Abs(), ok) == NodeModel.BuildTexture(old(Abs()), a)
    {
      var img := dev.Create(Image, a.image);
      if img == Null {
        return false;
      }
      image := img;
      ok := BackImage(a);
    }

    /** The memory-type loop and the steps after it. */
    method BackImage(a: Answers) returns (ok: bool)
      modifies this, dev
      ensures (Abs(), ok) == NodeModel.BackImage(old(Abs()), a)
    {
      var memIndex := SelectMemoryType(a.memoryTypeBits, a.memoryTypeCount);
      memory := dev.Allocate(memIndex, a.memory);
      if memory == Null {
        return false;
      }
      dev.Emit(Bound(image, memory, a.bind));
      if !a.bind {
        return false;
      }
      ok := CreateTarget(a);
    }

    /** The image view and the framebuffer. */
    method CreateTarget(a: Answers) returns (ok: bool)
      modifies this, dev
      ensures (Abs(), ok) == NodeModel.CreateTarget(old(Abs()), a)
    {
      view := dev.Create(ImageView, a.view);
      if view == Null {
        return false;
      }
      framebuffer := dev.Create(Framebuffer, a.framebuffer);
      ok := framebuffer != Null;
    }

    method SetUpGL() returns (native: Handle)
      modifies this, dev
      ensures (Abs(), native) == NodeModel.SetUpGL(old(Abs()))
    {
      native := dev.Create(GLFramebufferObject, true);
      if fbo != Null {
        dev.Emit(Destroyed(GLFramebufferObject, fbo));
      }
      fbo := native;
      dev.Emit(RenderApiSet(GLApi, fbo));
      dev.Emit(FlippedY);
    }

    method SetUpD3D11(a: Answers) returns (native: Handle)
      modifies this, dev
      ensures (Abs(), native) == NodeModel.SetUpD3D11(old(Abs()), a)
    {
      if d3d11 != Null {
        dev.Emit(Destroyed(D3D11Texture, d3d11));
      }
      d3d11 := dev.Create(D3D11Texture, a.surface);
      native := d3d11;
      dev.Emit(RenderApiSet(D3D11Api, native));
    }

    method SetUpMetal(a: Answers) returns (native: Handle)
      modifies this, dev
      ensures (Abs(), native) == NodeModel.SetUpMetal(old(Abs()), a)
    {
      native := dev.Create(MetalTexture, a.surface);
      if mtl != Null {
        dev.Emit(Destroyed(MetalTexture, mtl));
      }
      mtl := native;
      dev.Emit(RenderApiSet(MetalApi, native));
    }

    method SetUpVulkan(a: Answers) returns (native: Handle)
      modifies this, dev
      ensures (Abs(), native) == NodeModel.SetUpVulkan(old(Abs()), a)
    {
      vulkan := true;
      var _ := CreateRenderPass(a.renderPass);
      FreeTexture();
      var _ := BuildTexture(a);
      native := image;
      dev.Emit(RenderApiSet(VulkanApi, renderPass));
    }

    /** The switch on the graphics API; the Metal case runs into the Vulkan case. */
    method Dispatch(api: GraphicsApi, a: Answers) returns (native: Handle)
      modifies this, dev
      ensures (Abs(), native) == NodeModel.Dispatch(old(Abs()), api, a)
    {
      match api
      case OpenGL => native := SetUpGL();
      case OpenGLRhi => native := SetUpGL();
      case Direct3D11Rhi => native := SetUpD3D11(a);
      case MetalRhi =>
        native := SetUpMetal(a);
        native := SetUpVulkan(a);
      case VulkanRhi => native := SetUpVulkan(a);
      case OtherApi => native := Null;
    }

    /** `sync()`: rebuild when there is no texture or the scaled size moved.
        The live wrapper is always the one the node points at. */
    method Sync(input: SyncInput)
      requires Valid()
      modifies this, dev
      ensures Abs() == NodeModel.Sync(old(Abs()), input, true)
      ensures Valid()
    {
      SyncPreservesStrictInv(Abs(), input);
      var needsNew := false;
      if texture == Null {
        needsNew := true;
      }
      if SizeDiffers(input.scaled, size) {
        needsNew := true;
        size := Rounded(input.scaled);
      }
      if !needsNew {
        return;
      }
      DeleteTexture();
      if !input.playerAlive {
        return;
      }
      var native := Dispatch(input.api, input.answers);
      if native != Null {
        SetTexture();
      }
      dev.Emit(SurfaceSizeSet(size.width, size.height));
    }

    /** `render()`: the player draws only if it is still alive. */
    method Render(playerAlive: bool)
      requires Valid()
      modifies dev
      ensures Abs() == NodeModel.Render(old(Abs()), playerAlive)
      ensures Valid()
    {
      RenderDrawsOnlyWhenAlive(Abs(), playerAlive);
      if playerAlive {
        dev.Emit(VideoRendered);
      }
    }

    /** `fbo_gl.reset()`. */
    method ResetFbo()
      modifies this, dev
      ensures Abs() == NodeModel.ResetFbo(old(Abs()))
    {
      if fbo != Null {
        dev.Emit(Destroyed(GLFramebufferObject, fbo));
        fbo := Null;
      }
    }

    /** The destructor's Vulkan block. */
    method VulkanTeardown()
      modifies this, dev
      ensures Abs() == NodeModel.VulkanTeardown(old(Abs()))
    {
      if vulkan {
        dev.Emit(Destroyed(RenderPass, renderPass));
        FreeTexture();
      }
    }

    /** The member destructors: the Direct3D 11 texture, then the Metal texture. */
    method ReleaseMembers()
      modifies this, dev
      ensures Abs() == NodeModel.ReleaseMembers(old(Abs()))
    {
      if d3d11 != Null {
        dev.Emit(Destroyed(D3D11Texture, d3d11));
        d3d11 := Null;
      }
      if mtl != Null {
        dev.Emit(Destroyed(MetalTexture, mtl));
        mtl := Null;
      }
    }

    /** `~VideoTextureNode()`: everything the node created is released except
        the render passes of earlier Vulkan rebuilds. */
    method Destroy()
      requires Valid()
      modifies this, dev
      ensures Abs() == NodeModel.Destroy(old(Abs()))
      ensures dev.trace.live == NoneLive.(renderPasses := old(dev.trace.live.renderPasses) - {old(renderPass)})
    {
      DestroyReleases(Abs());
      DeleteTexture();
      ResetFbo();
      VulkanTeardown();
      ReleaseMembers();
    }
  }

  /** The item: it creates the node on the first paint-node update with a
      non-empty size and syncs it on every update. */
  class VideoTextureItem {
    var node: VideoTextureNode?   // m_node

    constructor ()
      ensures node == null
    {
      node := null;
    }

    /** `updatePaintNode`: with no node yet and an empty item nothing is made;
        otherwise the node (new or given) is synced against the item size
        scaled by the device pixel ratio and returned. */
    method UpdatePaintNode(n: VideoTextureNode?, width: real, height: real, dpr: real,
                           playerAlive: bool, api: GraphicsApi, answers: Answers)
      returns (r: VideoTextureNode?)
      requires n != null ==> node == n && n.Valid()
      modifies this, if node != null then {node, node.dev} else {}
      ensures var input := SyncInput(SizeF(width * dpr, height * dpr), playerAlive, api, answers);
        && (r == null <==> n == null && (width <= 0.0 || height <= 0.0))
        && (r == null ==> node == old(node))
        && (r != null ==> node == r && r.Valid())
        && (n == null && r != null ==> fresh(r) && fresh(r.dev) && r.Abs() == NodeModel.Sync(Initial, input, true))
        && (n != null ==> r == n && r.Abs() == NodeModel.Sync(old(n.Abs()), input, true))
    {
      if n == null && (width <= 0.0 || height <= 0.0) {
        return null;
      }
      r := n;
      if n == null {
        node := new VideoTextureNode();
        r := node;
      }
      node.Sync(SyncInput(SizeF(width * dpr, height * dpr), playerAlive, api, answers));
    }
  }
}
