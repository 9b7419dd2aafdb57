/** The resource lifecycle of `VideoTextureNode` as pure transitions over a
    `State`: the node's fields together with what the device has recorded.
    `TextureNode.VideoTextureNode` is the imperative node, proved to follow
    these transitions; the lemmas in `NodeProperties` are stated over them. */
module NodeModel {
  import opened Device
  import opened VkMemory

  /** QSize: pixel width and height. */
  datatype Size = Size(width: int, height: int)

  /** QSizeF, the item size scaled by the device pixel ratio. Reals are exact here. */
  datatype SizeF = SizeF(width: real, height: real)

  /** A default-constructed QSize is (-1, -1). */
  const InvalidSize: Size := Size(-1, -1)

  /** qRound on exact reals: round half up. */
  function QRound(x: real): int
  {
    (x + 0.5).Floor
  }

  function Rounded(s: SizeF): Size
  {
    Size(QRound(s.width), QRound(s.height))
  }

  /** `newSize != m_size`: the scaled size compared with the rounded one. */
  predicate SizeDiffers(scaled: SizeF, size: Size)
  {
    scaled.width != size.width as real || scaled.height != size.height as real
  }

  predicate IsWhole(x: real)
  {
    x == x.Floor as real
  }

  /** The graphics API the host's renderer interface reports. */
  datatype GraphicsApi = OpenGL | OpenGLRhi | Direct3D11Rhi | MetalRhi | VulkanRhi | OtherApi

  /** The node's fields. `texture` is what `texture()` returns; `vulkan` stands
      for `m_devFuncs != nullptr`, i.e. the Vulkan case has run at least once. */
  datatype Node = Node(
    size: Size,
    texture: Handle,
    fbo: Handle,
    d3d11: Handle,
    mtl: Handle,
    vulkan: bool,
    image: Handle,
    memory: Handle,
    view: Handle,
    framebuffer: Handle,
    renderPass: Handle)

  const InitialNode: Node :=
    Node(InvalidSize, Null, Null, Null, Null, false, Null, Null, Null, Null, Null)

  datatype State = State(node: Node, dev: Trace)

  const Initial: State := State(InitialNode, Fresh)

  /** How the device answers the calls of one sync: which creations succeed, and
      the memory requirements of the image. `surface` answers CreateTexture2D
      (Direct3D 11) and newTextureWithDescriptor (Metal). */
  datatype Answers = Answers(
    surface: bool,
    renderPass: bool,
    image: bool,
    memory: bool,
    bind: bool,
    view: bool,
    framebuffer: bool,
    memoryTypeBits: Uint32,
    memoryTypeCount: MemoryTypeCount)

  /** What one call of `sync()` depends on besides the node: the scaled item
      size, whether the player's weak reference can still be locked, the
      renderer's graphics API and the device's answers. */
  datatype SyncInput = SyncInput(scaled: SizeF, playerAlive: bool, api: GraphicsApi, answers: Answers)

  /** The rebuild decision of `sync()`: no texture yet, or the scaled size moved. */
  predicate NeedsNew(n: Node, scaled: SizeF)
  {
    n.texture == Null || SizeDiffers(scaled, n.size)
  }

  /** `delete texture()`. The node keeps the pointer it had unless `clears`
      (the corrected behaviour; the source never clears it). */
  function DeleteTexture(s: State, clears: bool): State
  {
    if s.node.texture == Null then s
    else State(s.node.(texture := if clears then Null else s.node.texture),
               s.dev.Emit(Destroyed(TextureWrapper, s.node.texture)))
  }

  /** `setTexture(createTextureFromNativeObject(...))`. */
  function SetTexture(s: State): State
  {
    var (d, w) := s.dev.Create(TextureWrapper, true);
    State(s.node.(texture := w), d)
  }

  /** `freeTexture()`: guarded on the image; framebuffer, memory, view, image. */
  function FreeTexture(s: State): State
  {
    var n := s.node;
    if n.image == Null then s
    else
      State(n.(framebuffer := Null, memory := Null, view := Null, image := Null),
            s.dev.Emit(Destroyed(Framebuffer, n.framebuffer))
                 .Emit(Destroyed(DeviceMemory, n.memory))
                 .Emit(Destroyed(ImageView, n.view))
                 .Emit(Destroyed(Image, n.image)))
  }

  /** `createRenderPass()`: overwrites `m_renderPass` without destroying the old one.
      A failed call leaves the field null. */
  function CreateRenderPass(s: State, ok: bool): (State, bool)
  {
    var (d, rp) := s.dev.Create(RenderPass, ok);
    (State(s.node.(renderPass := rp), d), ok)
  }

  /** `buildTexture(m_size)`: image, memory, bind, view, framebuffer, in that
      order, stopping at the first failure with whatever handles are already set. */
  function BuildTexture(s: State, a: Answers): (State, bool)
  {
    var (d1, img) := s.dev.Create(Image, a.image);
    if img == Null then (State(s.node, d1), false)
    else BackImage(State(s.node.(image := img), d1), a)
  }

  /** The rest of `buildTexture` once the image exists: memory from the type
      the memory-type loop chose, bind, view, framebuffer. */
  function BackImage(s: State, a: Answers): (State, bool)
  {
    var img := s.node.image;
    var (d2, mem) := s.dev.Allocate(MemoryTypeIndex(a.memoryTypeBits, a.memoryTypeCount), a.memory);
    var n2 := s.node.(memory := mem);
    if mem == Null then (State(n2, d2), false)
    else
      var d3 := d2.Emit(Bound(img, mem, a.bind));
      if !a.bind then (State(n2, d3), false)
      else CreateTarget(State(n2, d3), a)
  }

  /** The last two steps of `buildTexture`: the image view, then the
      framebuffer over it, stopping if the view fails. */
  function CreateTarget(s: State, a: Answers): (State, bool)
  {
    var (d4, view) := s.dev.Create(ImageView, a.view);
    var n3 := s.node.(view := view);
    if view == Null then (State(n3, d4), false)
    else
      var (d5, fb) := d4.Create(Framebuffer, a.framebuffer);
      (State(n3.(framebuffer := fb), d5), fb != Null)
  }

  /** The OpenGL cases: `fbo_gl.reset(new QOpenGLFramebufferObject(m_size))`
      (the new object is made before the old one is deleted), then the player is
      configured and told to flip vertically. Returns the new state and `nativeObj`. */
  function SetUpGL(s: State): (State, Handle)
  {
    var (d1, fbo) := s.dev.Create(GLFramebufferObject, true);
    var d2 := if s.node.fbo != Null then d1.Emit(Destroyed(GLFramebufferObject, s.node.fbo)) else d1;
    (State(s.node.(fbo := fbo), d2.Emit(RenderApiSet(GLApi, fbo)).Emit(FlippedY)), fbo)
  }

  /** The Direct3D 11 case: taking the address of the ComPtr releases the old
      texture, then CreateTexture2D; a failure is ignored and leaves it null. */
  function SetUpD3D11(s: State, a: Answers): (State, Handle)
  {
    var d1 := if s.node.d3d11 != Null then s.dev.Emit(Destroyed(D3D11Texture, s.node.d3d11)) else s.dev;
    var (d2, tex) := d1.Create(D3D11Texture, a.surface);
    (State(s.node.(d3d11 := tex), d2.Emit(RenderApiSet(D3D11Api, tex))), tex)
  }

  /** The Metal case: the new texture is stored (releasing the old one) and
      handed to the player, nil or not. */
  function SetUpMetal(s: State, a: Answers): (State, Handle)
  {
    var (d1, tex) := s.dev.Create(MetalTexture, a.surface);
    var d2 := if s.node.mtl != Null then d1.Emit(Destroyed(MetalTexture, s.node.mtl)) else d1;
    (State(s.node.(mtl := tex), d2.Emit(RenderApiSet(MetalApi, tex))), tex)
  }

  /** The Vulkan case: a new render pass every time, then `freeTexture()` and
      `buildTexture(m_size)`; the image (possibly null) is the native object,
      and the player is given the render pass. */
  function SetUpVulkan(s: State, a: Answers): (State, Handle)
  {
    var s1 := s.(node := s.node.(vulkan := true));
    var (s2, _) := CreateRenderPass(s1, a.renderPass);
    var s3 := FreeTexture(s2);
    var (s4, _) := BuildTexture(s3, a);
    (State(s4.node, s4.dev.Emit(RenderApiSet(VulkanApi, s4.node.renderPass))), s4.node.image)
  }

  /** The switch on the graphics API. The Metal case has no `break` and runs
      into the Vulkan case. */
  function Dispatch(s: State, api: GraphicsApi, a: Answers): (State, Handle)
  {
    match api
    case OpenGL => SetUpGL(s)
    case OpenGLRhi => SetUpGL(s)
    case Direct3D11Rhi => SetUpD3D11(s, a)
    case MetalRhi => var (s1, _) := SetUpMetal(s, a); SetUpVulkan(s1, a)
    case VulkanRhi => SetUpVulkan(s, a)
    case OtherApi => (s, Null)
  }

  /** The start of a rebuild in `sync()`: store the rounded size if the
      scaled size moved, then delete the texture. */
  function Prologue(s: State, scaled: SizeF, clears: bool): State
  {
    var s1 := if SizeDiffers(scaled, s.node.size) then s.(node := s.node.(size := Rounded(scaled))) else s;
    DeleteTexture(s1, clears)
  }

  /** The end of a rebuild in `sync()`: wrap a non-null native object, then
      tell the player the stored size. */
  function Epilogue(s: State, native: Handle): State
  {
    var s1 := if native != Null then SetTexture(s) else s;
    State(s1.node, s1.dev.Emit(SurfaceSizeSet(s1.node.size.width, s1.node.size.height)))
  }

  /** `sync()`. With `clears == false` this is the source as written; with
      `clears == true` the deleted texture pointer is also cleared. */
  function Sync(s: State, input: SyncInput, clears: bool): State
  {
    if !NeedsNew(s.node, input.scaled) then s
    else
      var s2 := Prologue(s, input.scaled, clears);
      if !input.playerAlive then s2
      else
        var (s3, native) := Dispatch(s2, input.api, input.answers);
        Epilogue(s3, native)
  }

  /** `render()`: the player draws only if its weak reference can be locked. */
  function Render(s: State, playerAlive: bool): State
  {
    if playerAlive then s.(dev := s.dev.Emit(VideoRendered)) else s
  }

  /** `fbo_gl.reset()`. */
  function ResetFbo(s: State): State
  {
    if s.node.fbo != Null
    then State(s.node.(fbo := Null), s.dev.Emit(Destroyed(GLFramebufferObject, s.node.fbo)))
    else s
  }

  /** The destructor's Vulkan block: if the Vulkan case ever ran, destroy the
      current render pass, then `freeTexture()`. */
  function VulkanTeardown(s: State): State
  {
    if s.node.vulkan then FreeTexture(s.(dev := s.dev.Emit(Destroyed(RenderPass, s.node.renderPass))))
    else s
  }

  /** The member destructors of the ComPtr and the Objective-C reference: the
      Direct3D 11 texture, then the Metal texture, each if set. */
  function ReleaseMembers(s: State): State
  {
    var s1 := if s.node.d3d11 != Null
              then State(s.node.(d3d11 := Null), s.dev.Emit(Destroyed(D3D11Texture, s.node.d3d11)))
              else s;
    if s1.node.mtl != Null
    then State(s1.node.(mtl := Null), s1.dev.Emit(Destroyed(MetalTexture, s1.node.mtl)))
    else s1
  }

  /** `~VideoTextureNode()`: delete the texture, reset the framebuffer object,
      run the Vulkan block, then the member destructors. Whether the deleted
      pointer is cleared cannot be observed once the node is gone; the node
      here ends with it cleared. */
  function Destroy(s: State): State
  {
    ReleaseMembers(VulkanTeardown(ResetFbo(DeleteTexture(s, true))))
  }
}
