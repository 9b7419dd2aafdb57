/** The code the texture node calls but that is not part of this model: the GPU
    device (Vulkan, Direct3D 11, Metal, OpenGL), the host's texture-import
    facility and the external player. Each call becomes an event in a log;
    whether a creation succeeds is an input, and a successful creation hands out
    a handle that was never handed out before. */
module Device {

  /** An opaque handle: a GPU object, a COM or Objective-C pointer, a texture
      wrapper pointer. `Null` is VK_NULL_HANDLE / nullptr / nil. */
  type Handle = nat

  const Null: Handle := 0

  /** What a handle refers to. */
  datatype Kind =
    | TextureWrapper        // QSGTexture made by createTextureFromNativeObject
    | GLFramebufferObject   // QOpenGLFramebufferObject
    | D3D11Texture          // ID3D11Texture2D
    | MetalTexture          // id<MTLTexture>
    | RenderPass            // VkRenderPass
    | Image                 // VkImage
    | DeviceMemory          // VkDeviceMemory
    | ImageView             // VkImageView
    | Framebuffer           // VkFramebuffer

  /** The render-API description handed to the player by `setRenderAPI`. */
  datatype RenderApi = GLApi | D3D11Api | MetalApi | VulkanApi

  datatype Event =
    /** A create call; `handle == Null` records a failed call. */
    | Created(kind: Kind, handle: Handle)
    /** vkAllocateMemory with the chosen memory-type index; `Null` on failure. */
    | Allocated(memoryType: nat, handle: Handle)
    /** vkBindImageMemory and whether it succeeded. */
    | Bound(image: Handle, memory: Handle, ok: bool)
    /** A destroy, free or release call (possibly on `Null`, which the APIs ignore). */
    | Destroyed(kind: Kind, handle: Handle)
    /** Player::setRenderAPI with the handle it is given: the surface to render
        into for OpenGL, Direct3D 11 and Metal, the render pass for Vulkan. */
    | RenderApiSet(api: RenderApi, target: Handle)
    /** Player::scale(1, -1). */
    | FlippedY
    /** Player::setVideoSurfaceSize. */
    | SurfaceSizeSet(width: int, height: int)
    /** Player::renderVideo. */
    | VideoRendered

  /** Handles held by a single handle field. */
  function Held(h: Handle): set<Handle>
  {
    if h == Null then {} else {h}
  }

  /** The live handles of kind k after one more event. */
  function After(live: set<Handle>, e: Event, k: Kind): set<Handle>
  {
    match e
    case Created(kind, h) => if kind == k && h != Null then live + {h} else live
    case Allocated(_, h) => if k == DeviceMemory && h != Null then live + {h} else live
    case Destroyed(kind, h) => if kind == k then live - {h} else live
    case _ => live
  }

  /** The handles of kind k that the log created and has not destroyed since. */
  function LiveOf(log: seq<Event>, k: Kind): set<Handle>
    decreases |log|
  {
    if log == [] then {} else After(LiveOf(log[..|log| - 1], k), log[|log| - 1], k)
  }

  /** The kind whose live set an event changes, if any. */
  function Touches(e: Event): Option<Kind>
  {
    match e
    case Created(kind, _) => Some(kind)
    case Allocated(_, _) => Some(DeviceMemory)
    case Destroyed(kind, _) => Some(kind)
    case _ => None
  }

  datatype Option<T> = None | Some(value: T)

  /** One set of handles per kind. */
  datatype Pool = Pool(
    wrappers: set<Handle>, fbos: set<Handle>, d3d11s: set<Handle>, mtls: set<Handle>,
    renderPasses: set<Handle>, images: set<Handle>, memories: set<Handle>,
    views: set<Handle>, framebuffers: set<Handle>)
  {
    function Get(k: Kind): set<Handle>
    {
      match k
      case TextureWrapper => wrappers
      case GLFramebufferObject => fbos
      case D3D11Texture => d3d11s
      case MetalTexture => mtls
      case RenderPass => renderPasses
      case Image => images
      case DeviceMemory => memories
      case ImageView => views
      case Framebuffer => framebuffers
    }

    function Put(k: Kind, v: set<Handle>): Pool
    {
      match k
      case TextureWrapper => this.(wrappers := v)
      case GLFramebufferObject => this.(fbos := v)
      case D3D11Texture => this.(d3d11s := v)
      case MetalTexture => this.(mtls := v)
      case RenderPass => this.(renderPasses := v)
      case Image => this.(images := v)
      case DeviceMemory => this.(memories := v)
      case ImageView => this.(views := v)
      case Framebuffer => this.(framebuffers := v)
    }
  }

  const NoneLive: Pool := Pool({}, {}, {}, {}, {}, {}, {}, {}, {})

  /** The live sets after one more event: only the kind it touches changes. */
  function Step(p: Pool, e: Event): Pool
  {
    match Touches(e)
    case None => p
    case Some(kind) => p.Put(kind, After(p.Get(kind), e, kind))
  }

  /** The live sets a log leaves, event by event from none. */
  function PoolOf(log: seq<Event>): Pool
    decreases |log|
  {
    if log == [] then NoneLive else Step(PoolOf(log[..|log| - 1]), log[|log| - 1])
  }

  lemma PoolOfAppend(log: seq<Event>, e: Event)
    ensures PoolOf(log + [e]) == Step(PoolOf(log), e)
  {
    assert (log + [e])[..|log|] == log;
  }

  /** The pool a log leaves holds, for each kind, the handles the log created
      and has not destroyed since. */
  lemma {:induction false} PoolOfIsLiveOf(log: seq<Event>, k: Kind)
    ensures PoolOf(log).Get(k) == LiveOf(log, k)
    decreases |log|
  {
    if log != [] {
      var init, e := log[..|log| - 1], log[|log| - 1];
      PoolOfIsLiveOf(init, k);
      match Touches(e)
      case None =>
      case Some(kind) =>
        if kind != k {
          assert After(LiveOf(init, k), e, k) == LiveOf(init, k);
        }
    }
  }

  /** Every handle in `hs` is a real one handed out before `next`. */
  ghost predicate AllBelow(hs: set<Handle>, next: Handle)
  {
    forall h :: h in hs ==> Null < h < next
  }

  /** What the device has recorded: the log, the next handle it will hand out,
      and the handles of each kind that are alive. */
  datatype Trace = Trace(log: seq<Event>, next: Handle, live: Pool) {

    /** The live handles of kind k. */
    function Live(k: Kind): set<Handle>
    {
      live.Get(k)
    }

    /** Handles are handed out in increasing order, so every live one is below `next`;
        `Null` is never live. */
    ghost predicate Valid()
    {
      && next != Null
      && AllBelow(live.wrappers, next) && AllBelow(live.fbos, next) && AllBelow(live.d3d11s, next)
      && AllBelow(live.mtls, next) && AllBelow(live.renderPasses, next) && AllBelow(live.images, next)
      && AllBelow(live.memories, next) && AllBelow(live.views, next) && AllBelow(live.framebuffers, next)
    }

    /** The live sets are the log's reading of them (see `FaithfulLive`). */
    ghost predicate Faithful()
    {
      live == PoolOf(log)
    }

    /** The event appended with the live sets updated. */
    function Record(e: Event, next': Handle): Trace
    {
      Trace(log + [e], next', Step(live, e))
    }

    /** Record a call that creates nothing. */
    function Emit(e: Event): (r: Trace)
      requires !e.Created? && !e.Allocated?
      ensures r.next == next && r.log == log + [e]
      ensures Valid() ==> r.Valid()
      ensures Faithful() ==> r.Faithful()
    {
      RecordIsFaithful(this, e, next);
      Record(e, next)
    }

    /** A create call of the given kind that succeeds exactly when `ok`. */
    function Create(kind: Kind, ok: bool): (r: (Trace, Handle))
      ensures r.1 == (if ok then next else Null)
      ensures r.0.log == log + [Created(kind, r.1)] && r.0.next == (if ok then next + 1 else next)
      ensures Valid() ==> r.0.Valid()
      ensures Faithful() ==> r.0.Faithful()
    {
      var h := if ok then next else Null;
      RecordIsFaithful(this, Created(kind, h), if ok then next + 1 else next);
      (Record(Created(kind, h), if ok then next + 1 else next), h)
    }

    /** vkAllocateMemory from the given memory type, succeeding exactly when `ok`. */
    function Allocate(memoryType: nat, ok: bool): (r: (Trace, Handle))
      ensures r.1 == (if ok then next else Null)
      ensures r.0.log == log + [Allocated(memoryType, r.1)] && r.0.next == (if ok then next + 1 else next)
      ensures Valid() ==> r.0.Valid()
      ensures Faithful() ==> r.0.Faithful()
    {
      var h := if ok then next else Null;
      RecordIsFaithful(this, Allocated(memoryType, h), if ok then next + 1 else next);
      (Record(Allocated(memoryType, h), if ok then next + 1 else next), h)
    }
  }

  /** A device that has recorded nothing. */
  const Fresh: Trace := Trace([], 1, NoneLive)

  lemma FreshIsFaithful()
    ensures Fresh.Valid() && Fresh.Faithful()
  {
  }

  /** Recording an event keeps the live sets equal to the log's reading of them. */
  lemma RecordIsFaithful(t: Trace, e: Event, next': Handle)
    ensures t.Faithful() ==> t.Record(e, next').Faithful()
  {
    PoolOfAppend(t.log, e);
  }

  /** In a faithful trace each kind's live handles are exactly those the log
      created and has not destroyed since. */
  lemma FaithfulLive(t: Trace, k: Kind)
    requires t.Faithful()
    ensures t.Live(k) == LiveOf(t.log, k)
  {
    PoolOfIsLiveOf(t.log, k);
  }

  /** The device as an object: its trace is what it has recorded so far, and
      the node's methods extend it. */
  class Gpu {
    var trace: Trace

    ghost function Abs(): Trace
      reads this
    {
      trace
    }

    constructor ()
      ensures Abs() == Fresh
    {
      trace := Fresh;
    }

    method Emit(e: Event)
      requires !e.Created? && !e.Allocated?
      modifies this
      ensures Abs() == old(Abs()).Emit(e)
    {
      trace := trace.Emit(e);
    }

    method Create(kind: Kind, ok: bool) returns (h: Handle)
      modifies this
      ensures (Abs(), h) == old(Abs()).Create(kind, ok)
    {
      var r := trace.Create(kind, ok);
      trace, h := r.0, r.1;
    }

    method Allocate(memoryType: nat, ok: bool) returns (h: Handle)
      modifies this
      ensures (Abs(), h) == old(Abs()).Allocate(memoryType, ok)
    {
      var r := trace.Allocate(memoryType, ok);
      trace, h := r.0, r.1;
    }

    /** The four destroy calls of `freeTexture()`, in order: framebuffer,
        memory, view, image. */
    method DestroyImageSet(fb: Handle, mem: Handle, view: Handle, img: Handle)
      modifies this
      ensures Abs() == old(Abs()).Emit(Destroyed(Framebuffer, fb)).Emit(Destroyed(DeviceMemory, mem))
                        .Emit(Destroyed(ImageView, view)).Emit(Destroyed(Image, img))
    {
      Emit(Destroyed(Framebuffer, fb));
      Emit(Destroyed(DeviceMemory, mem));
      Emit(Destroyed(ImageView, view));
      Emit(Destroyed(Image, img));
    }
  }
}
