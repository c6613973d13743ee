/**
 * The vout display of the gles2 plugin: the state Open leaves behind and
 * the three callbacks it installs (pool, display, control), together
 * with the X event drain that display runs before drawing.
 */
module Vout {
  import opened Geometry
  import opened Gpu
  import opened Upload
  import opened Renderer
  import opened Events
  import opened Control
  import opened Vlc

  /** What do_display does to the world outside the driver state, in order. */
  datatype Step =
    | EventsDrained              // x11_backend_handle_events
    | DeinterlacePass            // do_deinterlace_and_color_conversion
    | ScalePass(viewport: Rect)  // do_scaling, drawn into this viewport of the window
    | BuffersSwapped             // eglSwapBuffers
    | PictureReleased            // picture_Release
    | SubpictureDeleted          // subpicture_Delete

  /** How often `s` occurs in `steps`. */
  function Count(steps: seq<Step>, s: Step): nat {
    multiset(steps)[s]
  }

  /** Some `a` in `steps` comes before some `b`. */
  predicate Before(steps: seq<Step>, a: Step, b: Step) {
    exists i, j | 0 <= i < j < |steps| :: steps[i] == a && steps[j] == b
  }

  /** do_display accepts only I420 pictures with three planes. */
  predicate Accepts(p: Picture) {
    p.chroma == I420 && |p.planes| == 3
  }

  /**
   * The steps do_display takes for a picture, scaling into `viewport`:
   * none for a picture it rejects, which is neither drawn nor released.
   */
  function DisplaySteps(p: Picture, withSubpicture: bool, viewport: Rect): seq<Step> {
    if Accepts(p) then [EventsDrained] + RenderSteps(withSubpicture, viewport) else []
  }

  /**
   * For an accepted picture the events are drained, both passes run, the
   * buffers are swapped and the picture released, once each, and the
   * subpicture is deleted exactly when there is one; the one scaling pass
   * uses the viewport it was given.
   */
  lemma DisplayStepsOnce(p: Picture, withSubpicture: bool, viewport: Rect)
    requires Accepts(p)
    ensures var steps := DisplaySteps(p, withSubpicture, viewport);
      Count(steps, EventsDrained) == 1 && Count(steps, DeinterlacePass) == 1 && Count(steps, ScalePass(viewport)) == 1
      && Count(steps, BuffersSwapped) == 1 && Count(steps, PictureReleased) == 1
      && Count(steps, SubpictureDeleted) == (if withSubpicture then 1 else 0)
      && forall s | s in steps && s.ScalePass? :: s == ScalePass(viewport)
  {
    var steps := DisplaySteps(p, withSubpicture, viewport);
    assert multiset(steps) == multiset{EventsDrained} + multiset(RenderSteps(withSubpicture, viewport));
    RenderStepsOnce(withSubpicture, viewport);
  }

  /**
   * ... in the order events, deinterlacing, scaling, swap, release, and
   * the subpicture after the picture.
   */
  lemma DisplayStepsOrdered(p: Picture, withSubpicture: bool, viewport: Rect)
    requires Accepts(p)
    ensures var steps := DisplaySteps(p, withSubpicture, viewport);
      Before(steps, EventsDrained, DeinterlacePass) && Before(steps, DeinterlacePass, ScalePass(viewport))
      && Before(steps, ScalePass(viewport), BuffersSwapped) && Before(steps, BuffersSwapped, PictureReleased)
      && (withSubpicture ==> Before(steps, PictureReleased, SubpictureDeleted))
  {
    var steps := DisplaySteps(p, withSubpicture, viewport);
    assert steps[0] == EventsDrained && steps[1] == DeinterlacePass && steps[2] == ScalePass(viewport);
    assert steps[3] == BuffersSwapped && steps[4] == PictureReleased;
    assert withSubpicture ==> steps[5] == SubpictureDeleted;
  }

  /** What do_display does once both passes are drawn. */
  function FinishSteps(withSubpicture: bool): seq<Step> {
    [BuffersSwapped, PictureReleased] + (if withSubpicture then [SubpictureDeleted] else [])
  }

  /** The steps of an accepted picture after the event drain. */
  function RenderSteps(withSubpicture: bool, viewport: Rect): seq<Step> {
    [DeinterlacePass, ScalePass(viewport)] + FinishSteps(withSubpicture)
  }

  /** The finishing steps: one swap, one release, and a subpicture deletion exactly when there is one. */
  lemma FinishStepsOnce(withSubpicture: bool)
    ensures multiset(FinishSteps(withSubpicture))
      == multiset{BuffersSwapped, PictureReleased} + (if withSubpicture then multiset{SubpictureDeleted} else multiset{})
    ensures forall s | s in FinishSteps(withSubpicture) :: !s.ScalePass?
  {
    if withSubpicture {
      assert FinishSteps(withSubpicture) == [BuffersSwapped, PictureReleased, SubpictureDeleted];
    } else {
      assert FinishSteps(withSubpicture) == [BuffersSwapped, PictureReleased];
    }
  }

  /** The render steps hold no drain, and one of each pass, swap and release. */
  lemma RenderStepsOnce(withSubpicture: bool, viewport: Rect)
    ensures var steps := RenderSteps(withSubpicture, viewport);
      Count(steps, EventsDrained) == 0 && Count(steps, DeinterlacePass) == 1 && Count(steps, ScalePass(viewport)) == 1
      && Count(steps, BuffersSwapped) == 1 && Count(steps, PictureReleased) == 1
      && Count(steps, SubpictureDeleted) == (if withSubpicture then 1 else 0)
      && forall s | s in steps && s.ScalePass? :: s == ScalePass(viewport)
  {
    var steps := RenderSteps(withSubpicture, viewport);
    FinishStepsOnce(withSubpicture);
    assert multiset(steps) == multiset{DeinterlacePass, ScalePass(viewport)} + multiset(FinishSteps(withSubpicture));
    assert forall s | s in steps :: s in [DeinterlacePass, ScalePass(viewport)] || s in FinishSteps(withSubpicture);
  }

  /** Both passes appended one at a time and then the finishing steps make the render steps. */
  lemma RenderTrace(t: seq<Step>, withSubpicture: bool, viewport: Rect)
    ensures t + [DeinterlacePass] + [ScalePass(viewport)] + FinishSteps(withSubpicture)
         == t + RenderSteps(withSubpicture, viewport)
  {
    Regroup(t, [DeinterlacePass], [ScalePass(viewport)]);
    assert [DeinterlacePass] + [ScalePass(viewport)] == [DeinterlacePass, ScalePass(viewport)];
    Regroup(t, [DeinterlacePass, ScalePass(viewport)], FinishSteps(withSubpicture));
  }

  /**
   * Appending to the trace in two steps is appending once. The trace
   * proofs cite this rather than rederive it inside the larger methods,
   * where it is costly for the verifier.
   */
  lemma Regroup(t: seq<Step>, a: seq<Step>, b: seq<Step>)
    ensures t + a + b == t + (a + b)
  {
  }

  /** The vout display's state: vd->fmt, the X window rectangle, sys->pool and the GL objects. */
  class Display {
    const gpu: Driver
    const gl: Gles2
    var fmt: VideoFormat    // vd->fmt
    var rect: Rect          // sys->x11->rect
    var pool: nat           // sys->pool, 0 for NULL
    var trace: seq<Step>

    ghost predicate Valid()
      reads this`rect, this`fmt, gpu`next, gpu`objs, gpu`textures, gpu`framebuffers, gpu`rowLength, gl`tex
    {
      gpu.Valid() && gl.Valid() && gpu.rowLength == 0 && PositiveRect(rect) && fmt.chroma == I420
    }

    /**
     * The end of Open once the window, EGL and GL state exist: the
     * viewport becomes the bounding box of the configured display size in
     * the window, and the display announces I420.
     */
    constructor (gpu: Driver, gl: Gles2, cfg: Size, fmt: VideoFormat, rect: Rect)
      requires gpu.Valid() && gl.Valid() && gpu.rowLength == 0
      requires PositiveSize(cfg) && PositiveRect(rect)
      modifies gl`viewport
      ensures Valid()
      ensures this.gpu == gpu && this.gl == gl && this.rect == rect && pool == 0 && trace == []
      ensures this.fmt == fmt.(chroma := I420)
      ensures gl.viewport == ComputeBoundingBox(cfg, rect)
    {
      this.gpu := gpu;
      this.gl := gl;
      this.rect := rect;
      this.fmt := fmt.(chroma := I420);
      pool := 0;
      trace := [];
      new;
      gl.viewport := ComputeBoundingBox(cfg, rect);
    }

    /**
     * x11_backend_handle_events: read every pending event; a
     * ConfigureNotify resizes the window rectangle and recomputes the
     * viewport for the display size `cfg`.
     */
    method HandleEvents(cfg: Size, events: seq<Event>)
      requires Valid() && PositiveSize(cfg) && WellFormed(events)
      modifies this`rect, this`trace, gl`viewport
      ensures Valid()
      ensures Output(rect, gl.viewport) == Drain(cfg, Output(old(rect), old(gl.viewport)), events)
      ensures trace == old(trace) + [EventsDrained]
    {
      var i := 0;
      while i < |events|
        invariant i <= |events|
        invariant PositiveRect(rect) && trace == old(trace)
        invariant Output(rect, gl.viewport) == Drain(cfg, Output(old(rect), old(gl.viewport)), events[..i])
      {
        var e := events[i];
        if e.ConfigureNotify? {
          rect := rect.(width := e.width, height := e.height);
          gl.viewport := ComputeBoundingBox(cfg, rect);
        }
        assert events[..i + 1][..i] == events[..i];
        i := i + 1;
      }
      assert events[..i] == events;
      trace := trace + [EventsDrained];
    }

    /**
     * do_pool: on the first call with no pool, take the pool the core
     * builds (`created`, 0 when it fails) and create the framebuffer with
     * an RGB texture of the format's size as its colour attachment. Once a
     * pool exists, nothing changes. A failed pool leaves sys->pool NULL,
     * so the next call creates a second framebuffer and texture.
     */
    method Pool(created: nat) returns (result: nat)
      requires Valid()
      modifies this`pool, gl`framebuffer, gl`rgbTex
      modifies gpu`next, gpu`framebuffers, gpu`textures, gpu`binding, gpu`images, gpu`boundFramebuffer, gpu`colorAttachment
      ensures Valid() && result == pool
      ensures old(pool) != 0 ==>
        pool == old(pool) && unchanged(gpu) && gl.framebuffer == old(gl.framebuffer) && gl.rgbTex == old(gl.rgbTex)
      ensures old(pool) == 0 ==>
        pool == created && gl.rgbTex.loc == old(gl.rgbTex.loc)
        && old(gpu.next) <= gl.framebuffer < gpu.next && old(gpu.next) <= gl.rgbTex.id < gpu.next
      ensures old(pool) == 0 ==>
        gpu.framebuffers == old(gpu.framebuffers) + {gl.framebuffer} && gpu.textures == old(gpu.textures) + {gl.rgbTex.id}
      ensures old(pool) == 0 ==> gpu.binding == old(gpu.binding)[gpu.activeUnit := gl.rgbTex.id]
      ensures old(pool) == 0 ==>
        gpu.images == old(gpu.images)[gl.rgbTex.id := RgbUndefined(fmt.width, fmt.height)]
        && gpu.boundFramebuffer == gl.framebuffer
        && gpu.colorAttachment == old(gpu.colorAttachment)[gl.framebuffer := gl.rgbTex.id]
    {
      if pool == 0 {
        pool := created;
        CreateFramebuffer();
      }
      return pool;
    }

    /** The framebuffer and the RGB texture of the format's size it renders into, bound to the active unit. */
    method CreateFramebuffer()
      requires gpu.Valid()
      modifies gl`framebuffer, gl`rgbTex
      modifies gpu`next, gpu`framebuffers, gpu`textures, gpu`binding, gpu`images, gpu`boundFramebuffer, gpu`colorAttachment
      ensures gpu.Valid() && gl.rgbTex.loc == old(gl.rgbTex.loc)
      ensures old(gpu.next) <= gl.framebuffer < gpu.next && old(gpu.next) <= gl.rgbTex.id < gpu.next
      ensures gpu.framebuffers == old(gpu.framebuffers) + {gl.framebuffer} && gpu.textures == old(gpu.textures) + {gl.rgbTex.id}
      ensures gpu.binding == old(gpu.binding)[gpu.activeUnit := gl.rgbTex.id]
      ensures gpu.images == old(gpu.images)[gl.rgbTex.id := RgbUndefined(fmt.width, fmt.height)]
      ensures gpu.boundFramebuffer == gl.framebuffer
      ensures gpu.colorAttachment == old(gpu.colorAttachment)[gl.framebuffer := gl.rgbTex.id]
    {
      var f := gpu.GenFramebuffer();
      var t := TextureCreate(gpu);
      gpu.TexImageRgbStorage(fmt.width, fmt.height);
      gpu.BindFramebuffer(f);
      gpu.AttachColorTexture(t);
      gl.framebuffer := f;
      gl.rgbTex := gl.rgbTex.(id := t);
    }

    /**
     * do_deinterlace_and_color_conversion, as far as the driver state
     * goes: render into the framebuffer with the deinterlacing program in
     * use after uploading the planes, whose samplers go to that program.
     */
    method DeinterlaceAndConvert(p: Picture)
      requires Valid() && Accepts(p) && gl.Uploadable(p.planes, fmt, I420Scales)
      modifies this`trace, gpu`boundFramebuffer, gpu`objs, gpu`activeUnit, gpu`binding, gpu`rowLength, gpu`images, gpu`uniforms
      ensures Valid() && gpu.boundFramebuffer == gl.framebuffer
      ensures gpu.objs == UseProgramOp(old(gpu.objs), gl.deint.program)
      ensures gl.Placed(old(gpu.images), gpu.images, gl.PlaneImages(p.planes, fmt, I420Scales))
      ensures gpu.binding == old(gpu.binding) + gl.PlaneBindings(3) && gpu.activeUnit == 2
      ensures gpu.uniforms == gl.Samplers(old(gpu.uniforms), gpu.objs.current, 3)
      ensures trace == old(trace) + [DeinterlacePass]
    {
      gpu.BindFramebuffer(gl.framebuffer);
      gpu.UseProgram(gl.deint.program);
      ghost var objs := gpu.objs;
      gl.UpdateTextures(gpu, p, fmt, I420Scales);
      assert gpu.objs == objs && gpu.Valid();
      trace := trace + [DeinterlacePass];
    }

    /** The sampler of program `prog` set to texture unit 3, unless the uniform is missing or no program is in use. */
    function ScaleSampler(u: map<(nat, int), int>, prog: nat): map<(nat, int), int>
      reads gl`rgbTex
    {
      if gl.rgbTex.loc == -1 || prog == 0 then u else u[(prog, gl.rgbTex.loc) := 3]
    }

    /**
     * do_scaling, as far as the driver state goes: render into the window,
     * in the current viewport, with the scaling program in use and the
     * framebuffer's texture bound on unit 3.
     */
    method Scale()
      requires gpu.Valid()
      modifies this`trace, gpu`objs, gpu`boundFramebuffer, gpu`activeUnit, gpu`binding, gpu`uniforms
      ensures gpu.Valid()
      ensures gpu.objs == UseProgramOp(old(gpu.objs), gl.scale.program)
      ensures gpu.boundFramebuffer == 0 && gpu.activeUnit == 3
      ensures gpu.binding == old(gpu.binding)[3 := gl.rgbTex.id]
      ensures gpu.uniforms == ScaleSampler(old(gpu.uniforms), gpu.objs.current)
      ensures trace == old(trace) + [ScalePass(gl.viewport)]
    {
      gpu.UseProgram(gl.scale.program);
      gpu.BindFramebuffer(0);
      gpu.ActiveTexture(3);
      gpu.BindTexture(gl.rgbTex.id);
      gpu.Uniform1i(gl.rgbTex.loc, 3);
      trace := trace + [ScalePass(gl.viewport)];
    }

    /** Both passes of do_display: into the framebuffer, then into the window. */
    method Draw(p: Picture)
      requires Valid() && Accepts(p) && gl.Uploadable(p.planes, fmt, I420Scales)
      modifies this`trace, gpu`boundFramebuffer, gpu`objs, gpu`activeUnit, gpu`binding, gpu`rowLength, gpu`images, gpu`uniforms
      ensures Valid()
      ensures trace == old(trace) + [DeinterlacePass] + [ScalePass(gl.viewport)]
      ensures gpu.objs == UseProgramOp(UseProgramOp(old(gpu.objs), gl.deint.program), gl.scale.program)
      ensures gl.Placed(old(gpu.images), gpu.images, gl.PlaneImages(p.planes, fmt, I420Scales))
      ensures gpu.boundFramebuffer == 0 && gpu.activeUnit == 3
      ensures gpu.binding == (old(gpu.binding) + gl.PlaneBindings(3))[3 := gl.rgbTex.id]
      ensures gpu.uniforms
           == ScaleSampler(gl.Samplers(old(gpu.uniforms), UseProgramOp(old(gpu.objs), gl.deint.program).current, 3),
                           gpu.objs.current)
    {
      DeinterlaceAndConvert(p);
      Scale();
    }

    /**
     * The part of do_display after the event drain: both passes, the
     * swap, and giving the picture and the subpicture back.
     */
    method Render(p: Picture, withSubpicture: bool)
      requires Valid() && Accepts(p) && gl.Uploadable(p.planes, fmt, I420Scales)
      modifies this`trace, gpu`boundFramebuffer, gpu`objs, gpu`activeUnit, gpu`binding, gpu`rowLength, gpu`images, gpu`uniforms
      ensures Valid()
      ensures trace == old(trace) + RenderSteps(withSubpicture, gl.viewport)
      ensures gpu.objs == UseProgramOp(UseProgramOp(old(gpu.objs), gl.deint.program), gl.scale.program)
      ensures gl.Placed(old(gpu.images), gpu.images, gl.PlaneImages(p.planes, fmt, I420Scales))
      ensures gpu.boundFramebuffer == 0 && gpu.activeUnit == 3
      ensures gpu.binding == (old(gpu.binding) + gl.PlaneBindings(3))[3 := gl.rgbTex.id]
      ensures gpu.uniforms
           == ScaleSampler(gl.Samplers(old(gpu.uniforms), UseProgramOp(old(gpu.objs), gl.deint.program).current, 3),
                           gpu.objs.current)
    {
      ghost var before := trace;
      Draw(p);
      // eglSwapBuffers, picture_Release and, with a subpicture, subpicture_Delete
      trace := trace + FinishSteps(withSubpicture);
      RenderTrace(before, withSubpicture, gl.viewport);
    }

    /**
     * do_display: a picture it rejects is left alone, and for an accepted
     * one the events are drained, the planes uploaded into their textures
     * and both passes drawn, the scaling one in the viewport the drain
     * left, then the buffers are swapped and the picture (and the
     * subpicture, if any) given back.
     */
    method Show(p: Picture, withSubpicture: bool, cfg: Size, events: seq<Event>)
      requires Valid() && PositiveSize(cfg) && WellFormed(events)
      requires Accepts(p) ==> gl.Uploadable(p.planes, fmt, I420Scales)
      modifies this`rect, this`trace, gl`viewport
      modifies gpu`boundFramebuffer, gpu`objs, gpu`activeUnit, gpu`binding, gpu`rowLength, gpu`images, gpu`uniforms
      ensures Valid()
      ensures trace == old(trace) + DisplaySteps(p, withSubpicture, Drain(cfg, Output(old(rect), old(gl.viewport)), events).viewport)
      ensures !Accepts(p) ==> rect == old(rect) && gl.viewport == old(gl.viewport) && unchanged(gpu)
      ensures Accepts(p) ==> Output(rect, gl.viewport) == Drain(cfg, Output(old(rect), old(gl.viewport)), events)
      ensures Accepts(p) ==> gpu.objs == UseProgramOp(UseProgramOp(old(gpu.objs), gl.deint.program), gl.scale.program)
      ensures Accepts(p) ==> gl.Placed(old(gpu.images), gpu.images, old(gl.PlaneImages(p.planes, fmt, I420Scales)))
      ensures Accepts(p) ==> gpu.boundFramebuffer == 0 && gpu.activeUnit == 3
      ensures Accepts(p) ==> gpu.binding == (old(gpu.binding) + gl.PlaneBindings(3))[3 := gl.rgbTex.id]
      ensures Accepts(p) ==>
        gpu.uniforms == ScaleSampler(gl.Samplers(old(gpu.uniforms), UseProgramOp(old(gpu.objs), gl.deint.program).current, 3),
                                     gpu.objs.current)
    {
      if p.chroma != I420 || |p.planes| != 3 {
        return;
      }
      ShowAccepted(p, withSubpicture, cfg, events);
    }

    /** do_display past the format check. */
    method ShowAccepted(p: Picture, withSubpicture: bool, cfg: Size, events: seq<Event>)
      requires Valid() && PositiveSize(cfg) && WellFormed(events)
      requires Accepts(p) && gl.Uploadable(p.planes, fmt, I420Scales)
      modifies this`rect, this`trace, gl`viewport
      modifies gpu`boundFramebuffer, gpu`objs, gpu`activeUnit, gpu`binding, gpu`rowLength, gpu`images, gpu`uniforms
      ensures Valid()
      ensures trace == old(trace) + DisplaySteps(p, withSubpicture, Drain(cfg, Output(old(rect), old(gl.viewport)), events).viewport)
      ensures Output(rect, gl.viewport) == Drain(cfg, Output(old(rect), old(gl.viewport)), events)
      ensures gpu.objs == UseProgramOp(UseProgramOp(old(gpu.objs), gl.deint.program), gl.scale.program)
      ensures gl.Placed(old(gpu.images), gpu.images, old(gl.PlaneImages(p.planes, fmt, I420Scales)))
      ensures gpu.boundFramebuffer == 0 && gpu.activeUnit == 3
      ensures gpu.binding == (old(gpu.binding) + gl.PlaneBindings(3))[3 := gl.rgbTex.id]
      ensures gpu.uniforms
           == ScaleSampler(gl.Samplers(old(gpu.uniforms), UseProgramOp(old(gpu.objs), gl.deint.program).current, 3),
                           gpu.objs.current)
    {
      HandleEvents(cfg, events);
      Render(p, withSubpicture);
      Regroup(old(trace), [EventsDrained], RenderSteps(withSubpicture, gl.viewport));
    }

    /**
     * With the deinterlacing and scaling programs distinct and linked, and
     * the plane samplers at distinct locations, one frame leaves each
     * plane sampler of the deinterlacing program on its plane's unit and
     * the scaling program's sampler on unit 3, whatever the locations'
     * values: the uniforms of the two programs are kept apart.
     */
    lemma SamplersPerProgram(u: map<(nat, int), int>, o: Objects)
      requires Consistent(o) && !o.currentFlagged && gl.Valid()
      requires gl.deint.program in o.linked && gl.scale.program in o.linked && gl.deint.program != gl.scale.program
      requires forall i, j | 0 <= i < j < 3 :: gl.tex[i].loc != gl.tex[j].loc
      ensures var o1 := UseProgramOp(o, gl.deint.program);
              var o2 := UseProgramOp(o1, gl.scale.program);
              var r := ScaleSampler(gl.Samplers(u, o1.current, 3), o2.current);
              o1.current == gl.deint.program && o2.current == gl.scale.program
              && (forall i | 0 <= i < 3 && gl.tex[i].loc != -1 ::
                    (gl.deint.program, gl.tex[i].loc) in r && r[(gl.deint.program, gl.tex[i].loc)] == i)
              && (gl.rgbTex.loc != -1 ==> (gl.scale.program, gl.rgbTex.loc) in r && r[(gl.scale.program, gl.rgbTex.loc)] == 3)
    {
      var dp := gl.deint.program;
      var s1 := gl.Samplers(u, dp, 1);
      var s2 := gl.Samplers(u, dp, 2);
      var s3 := gl.Samplers(u, dp, 3);
      assert s3 == gl.AssignSampler(s2, dp, 3) && s2 == gl.AssignSampler(s1, dp, 2);
      assert gl.Samplers(u, dp, 0) == u;
      assert s1 == gl.AssignSampler(u, dp, 1);
      forall i | 0 <= i < 3 && gl.tex[i].loc != -1
        ensures (dp, gl.tex[i].loc) in s3 && s3[(dp, gl.tex[i].loc)] == i
      {
      }
    }

    /**
     * do_control: the answer and the viewport DoControl gives for the
     * query, the window rectangle and the current viewport.
     */
    method HandleControl(q: Query) returns (status: Status)
      requires Valid() && (Recomputes(q) ==> PositiveSize(q.cfg))
      modifies gl`viewport
      ensures Valid()
      ensures Outcome(status, gl.viewport) == DoControl(q, rect, old(gl.viewport))
    {
      match q
      case HideMouse =>
        status := Success;
      case ChangeFullscreen =>
        status := Success;
      case ChangeWindowState(_) =>
        status := Success;
      case ChangeDisplaySize(cfg) =>
        gl.viewport := ComputeBoundingBox(cfg, rect);
        status := Success;
      case ChangeSourceAspect(cfg) =>
        gl.viewport := ComputeBoundingBox(cfg, rect);
        status := Success;
      case OtherQuery(_) =>
        status := GenericError;
    }
  }
}
