/**
 * The GL state of the plugin (opengl_es2_t): its creation, and the
 * upload of the three planes of a picture into their textures, either
 * directly with GL_UNPACK_ROW_LENGTH or through a compacted copy.
 */
module Renderer {
  import opened Wrappers
  import opened Geometry
  import opened Gpu
  import opened Upload
  import opened Shaders
  import opened Extensions
  import opened Vlc

  /** A gl_texture_t: a texture name and the location of the sampler uniform that reads it. */
  datatype TextureSlot = TextureSlot(id: nat, loc: int)

  /** What the system and the driver answer while opengl_es2_create runs. */
  datatype CreateAnswers = CreateAnswers(
    hasMemory: bool,             // calloc succeeds
    deint: ProgramAnswers,       // shader_init(SHADER_TYPE_DEINT_LINEAR)
    scale: ProgramAnswers,       // shader_init(SHADER_TYPE_COPY)
    yLoc: int,                   // s_ytex of the linked deinterlacing program
    uLoc: int,                   // s_utex
    vLoc: int,                   // s_vtex
    rgbLoc: int,                 // s_tex of the linked scaling program
    extensions: Option<string>)  // glGetString(GL_EXTENSIONS), None for NULL

  /** The extension that tells the driver honours GL_UNPACK_ROW_LENGTH. */
  const UnpackSubimage: string := "GL_EXT_unpack_subimage"

  /** The location glGetUniformLocation answers for a program that may have failed to link. */
  function UniformLocation(linked: bool, answer: int): int {
    if linked then answer else -1
  }

  /** texture_create: a fresh texture, bound to the active unit. Its filter and wrap modes are not modelled. */
  method TextureCreate(gpu: Driver) returns (t: nat)
    requires gpu.Valid()
    modifies gpu`next, gpu`textures, gpu`binding
    ensures gpu.Valid() && old(gpu.next) <= t < gpu.next && old(gpu.IsFresh(t))
    ensures gpu.textures == old(gpu.textures) + {t}
    ensures gpu.binding == old(gpu.binding)[gpu.activeUnit := t]
  {
    t := gpu.GenTexture();
    gpu.BindTexture(t);
  }

  /** The strided upload can read the plane: visiblePitch × visibleLines bytes, i_pitch / i_pixel_pitch apart. */
  predicate StridedReadable(pl: Plane) {
    pl.pixelPitch > 0
    && Covers(|pl.pixels|, pl.visiblePitch, pl.visibleLines, RowStride(SourceStride(pl), pl.visiblePitch))
  }

  /** The compacting copy can read `rows` rows of `line` bytes of the plane. */
  predicate CompactReadable(pl: Plane, line: nat, rows: nat) {
    pl.pixelPitch > 0 && Covers(|pl.pixels|, line, rows, SourceStride(pl))
  }

  /** The bytes per row the compacting copy takes for a plane: i_visible_width · w.num / w.den. */
  function PlaneLine(fmt: VideoFormat, s: PlaneScale): nat
    requires ValidScale(s)
  {
    Scale(fmt.visibleWidth, s.w)
  }

  /** The rows the compacting copy takes for a plane: i_visible_height · h.num / h.den. */
  function PlaneRows(fmt: VideoFormat, s: PlaneScale): nat
    requires ValidScale(s)
  {
    Scale(fmt.visibleHeight, s.h)
  }

  /** The image the strided upload gives: the visible part of the plane, row by row. */
  function StridedImage(pl: Plane): Image
    requires StridedReadable(pl)
  {
    Luminance(pl.visiblePitch, pl.visibleLines,
              Unpack(pl.pixels, pl.visiblePitch, pl.visibleLines, SourceStride(pl)))
  }

  /** The image the compacting upload gives: the compacted rows, uploaded tightly. */
  function CompactedImage(pl: Plane, line: nat, rows: nat): Image
    requires CompactReadable(pl, line, rows)
  {
    Luminance(line, rows, Compacted(pl.pixels, SourceStride(pl), line, rows))
  }

  /**
   * With the same dimensions and a positive stride, both upload paths
   * give a plane's texture the same image.
   */
  lemma UploadPathsAgree(pl: Plane, line: nat, rows: nat)
    requires CompactReadable(pl, line, rows) && SourceStride(pl) > 0
    requires line == pl.visiblePitch && rows == pl.visibleLines
    ensures StridedReadable(pl)
    ensures StridedImage(pl) == CompactedImage(pl, line, rows)
  {
    var src := pl.pixels;
    StrategiesAgree(src, SourceStride(pl), line, rows);
    UnpackTight(Compacted(src, SourceStride(pl), line, rows), line, rows);
  }

  /** A plane the compacting copy can read, with the chroma description's scale for it. */
  predicate Compactable(pl: Plane, fmt: VideoFormat, s: PlaneScale) {
    ValidScale(s) && CompactReadable(pl, PlaneLine(fmt, s), PlaneRows(fmt, s))
  }

  /** The images the strided upload gives the planes, in order. */
  function StridedImages(planes: seq<Plane>): (imgs: seq<Image>)
    requires forall j | 0 <= j < |planes| :: StridedReadable(planes[j])
    ensures |imgs| == |planes|
  {
    seq(|planes|, j requires 0 <= j < |planes| => StridedImage(planes[j]))
  }

  /** The images the compacting upload gives the planes, in order. */
  function CompactedImages(planes: seq<Plane>, fmt: VideoFormat, scales: seq<PlaneScale>): (imgs: seq<Image>)
    requires |planes| <= |scales| && forall j | 0 <= j < |planes| :: Compactable(planes[j], fmt, scales[j])
    ensures |imgs| == |planes|
  {
    seq(|planes|, j requires 0 <= j < |planes| =>
      assert Compactable(planes[j], fmt, scales[j]);
      CompactedImage(planes[j], PlaneLine(fmt, scales[j]), PlaneRows(fmt, scales[j])))
  }

  /**
   * When every plane's visible size is what the chroma description
   * gives for the format and its stride is positive, the textures get
   * the same images whichever path update_textures takes.
   */
  lemma PathsGiveSameImages(planes: seq<Plane>, fmt: VideoFormat, scales: seq<PlaneScale>)
    requires |planes| <= |scales|
    requires forall j | 0 <= j < |planes| ::
      Compactable(planes[j], fmt, scales[j]) && SourceStride(planes[j]) > 0
      && planes[j].visiblePitch == PlaneLine(fmt, scales[j]) && planes[j].visibleLines == PlaneRows(fmt, scales[j])
    ensures forall j | 0 <= j < |planes| :: StridedReadable(planes[j])
    ensures StridedImages(planes) == CompactedImages(planes, fmt, scales)
  {
    forall j | 0 <= j < |planes|
      ensures StridedReadable(planes[j])
      ensures StridedImage(planes[j]) == CompactedImage(planes[j], PlaneLine(fmt, scales[j]), PlaneRows(fmt, scales[j]))
    {
      UploadPathsAgree(planes[j], PlaneLine(fmt, scales[j]), PlaneRows(fmt, scales[j]));
    }
  }

  /** An opengl_es2_t. */
  class Gles2 {
    var framebuffer: nat
    const deint: ShaderObject     // deinterlacing and colour conversion into the framebuffer
    const scale: ShaderObject     // scaling of the framebuffer's texture into the window
    var tex: seq<TextureSlot>     // the Y, U and V textures
    var rgbTex: TextureSlot       // the texture the framebuffer renders into
    var viewport: Rect
    var hasUnpackRow: bool

    /** Three plane textures with distinct names. */
    ghost predicate Valid()
      reads this`tex
    {
      |tex| == 3 && tex[0].id != tex[1].id && tex[0].id != tex[2].id && tex[1].id != tex[2].id
    }

    /** The zeroed object calloc gives. */
    constructor ()
      ensures framebuffer == 0 && rgbTex == TextureSlot(0, 0) && viewport == Rect(0, 0, 0, 0) && !hasUnpackRow
      ensures tex == [TextureSlot(0, 0), TextureSlot(0, 0), TextureSlot(0, 0)]
      ensures fresh(deint) && fresh(scale) && deint != scale
      ensures deint.program == 0 && deint.vertex == 0 && deint.fragment == 0
      ensures scale.program == 0 && scale.vertex == 0 && scale.fragment == 0
    {
      framebuffer := 0;
      deint := new ShaderObject();
      scale := new ShaderObject();
      tex := [TextureSlot(0, 0), TextureSlot(0, 0), TextureSlot(0, 0)];
      rgbTex := TextureSlot(0, 0);
      viewport := Rect(0, 0, 0, 0);
      hasUnpackRow := false;
    }

    /**
     * The objects a failed opengl_es2_create leaves behind when the
     * deinterlacing program p (shaders v and f) linked: it is still the
     * program in use, so the cleanup only flags it and its shaders for
     * deletion, and they live on.
     */
    static function Pending(o: Objects, p: nat, v: nat, f: nat): Objects {
      Built(o, p, v, f, true).(current := p, flagged := o.flagged + {v, f}, currentFlagged := true)
    }

    /** The program a successful shader_init of `linked` leaves in use. */
    static function InUse(o: Objects, p: nat, linked: bool): nat {
      if linked then p else o.current
    }

    /**
     * opengl_es2_create: both programs, the three plane textures with
     * their sampler locations, the scaling sampler's location, and
     * whether GL_EXT_unpack_subimage is advertised. When the scaling
     * program fails, the cleanup deletes both programs' objects but not
     * the three textures already created, which stay allocated; and a
     * deinterlacing program that linked is the program in use, so the
     * driver keeps it and its shaders, only flagged for deletion.
     */
    static method Create(gpu: Driver, a: CreateAnswers) returns (status: Status, gl: Gles2?, ghost leaked: seq<nat>, ghost kept: seq<nat>)
      requires gpu.Valid() && !gpu.objs.currentFlagged
      requires a.extensions.Some? ==> CString(a.extensions.value)
      modifies gpu`next, gpu`objs, gpu`textures, gpu`binding, gpu`calls
      ensures gpu.Valid() && gpu.next >= old(gpu.next)
      ensures status == (if !a.hasMemory then NoMemory
                         else if InitSucceeds(a.deint) && InitSucceeds(a.scale) then Success
                         else GenericError)
      ensures gl != null <==> status == Success
      ensures status == NoMemory ==> unchanged(gpu)
      ensures status == GenericError && !InitSucceeds(a.deint) ==>
        gpu.objs == old(gpu.objs) && gpu.textures == old(gpu.textures) && gpu.binding == old(gpu.binding)
      // the plane textures of a failed creation stay allocated, and no object refers to them
      ensures status == GenericError && InitSucceeds(a.deint) ==>
        |leaked| == 3 && leaked[0] != leaked[1] && leaked[0] != leaked[2] && leaked[1] != leaked[2]
        && (forall i | 0 <= i < 3 :: old(gpu.next) <= leaked[i] < gpu.next)
        && gpu.textures == old(gpu.textures) + {leaked[0], leaked[1], leaked[2]}
        && gpu.binding == old(gpu.binding)[gpu.activeUnit := leaked[2]]
      // the deinterlacing objects that outlive a failed creation: program, vertex and fragment shader
      ensures |kept| == (if status == GenericError && InitSucceeds(a.deint) && a.deint.linked then 3 else 0)
      ensures |kept| == 3 ==>
        (forall i | 0 <= i < 3 :: old(gpu.next) <= kept[i] < gpu.next)
        && kept[0] != kept[1] && kept[0] != kept[2] && kept[1] != kept[2]
      ensures status == GenericError ==>
        gpu.objs == if |kept| == 3 then Pending(old(gpu.objs), kept[0], kept[1], kept[2]) else old(gpu.objs)
      ensures gl != null ==> fresh(gl) && fresh(gl.deint) && fresh(gl.scale) && gl.deint != gl.scale && gl.Valid()
      ensures gl != null ==> forall i | 0 <= i < 3 :: old(gpu.next) <= gl.tex[i].id < gpu.next
      ensures gl != null ==> gpu.textures == old(gpu.textures) + {gl.tex[0].id, gl.tex[1].id, gl.tex[2].id}
      ensures gl != null ==> gpu.binding == old(gpu.binding)[gpu.activeUnit := gl.tex[2].id]
      ensures gl != null ==>
        gl.tex[0].loc == UniformLocation(a.deint.linked, a.yLoc)
        && gl.tex[1].loc == UniformLocation(a.deint.linked, a.uLoc)
        && gl.tex[2].loc == UniformLocation(a.deint.linked, a.vLoc)
        && gl.rgbTex == TextureSlot(0, UniformLocation(a.scale.linked, a.rgbLoc))
      ensures gl != null ==> gl.framebuffer == 0 && gl.viewport == Rect(0, 0, 0, 0)
      ensures gl != null ==> gl.hasUnpackRow == HasExtension(a.extensions, UnpackSubimage)
      ensures gl != null ==>
        old(gpu.next) <= gl.deint.program < gpu.next && old(gpu.next) <= gl.deint.vertex < gpu.next
        && old(gpu.next) <= gl.deint.fragment < gpu.next && old(gpu.next) <= gl.scale.program < gpu.next
        && old(gpu.next) <= gl.scale.vertex < gpu.next && old(gpu.next) <= gl.scale.fragment < gpu.next
      ensures gl != null ==>
        gpu.objs == Built(Built(old(gpu.objs), gl.deint.program, gl.deint.vertex, gl.deint.fragment, a.deint.linked),
                          gl.scale.program, gl.scale.vertex, gl.scale.fragment, a.scale.linked)
                    .(current := if a.scale.linked then gl.scale.program else InUse(old(gpu.objs), gl.deint.program, a.deint.linked))
    {
      if !a.hasMemory {
        return NoMemory, null, [], [];
      }
      var g := new Gles2();
      var ok;
      ok, leaked, kept := g.Open(gpu, a);
      if !ok {
        return GenericError, null, leaked, kept;
      }
      return Success, g, [], [];
    }

    /** opengl_es2_create once the object is allocated: true when both programs were built. */
    method Open(gpu: Driver, a: CreateAnswers) returns (ok: bool, ghost leaked: seq<nat>, ghost kept: seq<nat>)
      requires gpu.Valid() && !gpu.objs.currentFlagged && deint != scale
      requires a.extensions.Some? ==> CString(a.extensions.value)
      requires deint.program == 0 && deint.vertex == 0 && deint.fragment == 0
      requires scale.program == 0 && scale.vertex == 0 && scale.fragment == 0
      requires rgbTex == TextureSlot(0, 0)
      modifies this`tex, this`rgbTex, this`hasUnpackRow, deint, scale
      modifies gpu`next, gpu`objs, gpu`textures, gpu`binding, gpu`calls
      ensures gpu.Valid() && gpu.next >= old(gpu.next)
      ensures ok == (InitSucceeds(a.deint) && InitSucceeds(a.scale))
      ensures !InitSucceeds(a.deint) ==>
        gpu.objs == old(gpu.objs) && gpu.textures == old(gpu.textures) && gpu.binding == old(gpu.binding)
      ensures !ok && InitSucceeds(a.deint) ==>
        |leaked| == 3 && leaked[0] != leaked[1] && leaked[0] != leaked[2] && leaked[1] != leaked[2]
        && (forall i | 0 <= i < 3 :: old(gpu.next) <= leaked[i] < gpu.next)
        && gpu.textures == old(gpu.textures) + {leaked[0], leaked[1], leaked[2]}
        && gpu.binding == old(gpu.binding)[gpu.activeUnit := leaked[2]]
      ensures |kept| == (if !ok && InitSucceeds(a.deint) && a.deint.linked then 3 else 0)
      ensures |kept| == 3 ==>
        (forall i | 0 <= i < 3 :: old(gpu.next) <= kept[i] < gpu.next)
        && kept[0] != kept[1] && kept[0] != kept[2] && kept[1] != kept[2]
      ensures !ok ==>
        gpu.objs == if |kept| == 3 then Pending(old(gpu.objs), kept[0], kept[1], kept[2]) else old(gpu.objs)
      ensures ok ==> Valid() && forall i | 0 <= i < 3 :: old(gpu.next) <= tex[i].id < gpu.next
      ensures ok ==> gpu.textures == old(gpu.textures) + {tex[0].id, tex[1].id, tex[2].id}
      ensures ok ==> gpu.binding == old(gpu.binding)[gpu.activeUnit := tex[2].id]
      ensures ok ==>
        tex[0].loc == UniformLocation(a.deint.linked, a.yLoc)
        && tex[1].loc == UniformLocation(a.deint.linked, a.uLoc)
        && tex[2].loc == UniformLocation(a.deint.linked, a.vLoc)
        && rgbTex == TextureSlot(0, UniformLocation(a.scale.linked, a.rgbLoc))
      ensures ok ==> hasUnpackRow == HasExtension(a.extensions, UnpackSubimage)
      ensures ok ==>
        old(gpu.next) <= deint.program < gpu.next && old(gpu.next) <= deint.vertex < gpu.next
        && old(gpu.next) <= deint.fragment < gpu.next && old(gpu.next) <= scale.program < gpu.next
        && old(gpu.next) <= scale.vertex < gpu.next && old(gpu.next) <= scale.fragment < gpu.next
      ensures ok ==>
        gpu.objs == Built(Built(old(gpu.objs), deint.program, deint.vertex, deint.fragment, a.deint.linked),
                          scale.program, scale.vertex, scale.fragment, a.scale.linked)
                    .(current := if a.scale.linked then scale.program else InUse(old(gpu.objs), deint.program, a.deint.linked))
    {
      ok := InitDeint(gpu, a.deint);
      if !ok {
        return false, [], [];
      }
      ghost var dp, dv, df := deint.program, deint.vertex, deint.fragment;
      ok := Complete(gpu, a, old(gpu.objs));
      if !ok {
        leaked := [tex[0].id, tex[1].id, tex[2].id];
        kept := if a.deint.linked then [dp, dv, df] else [];
        return false, leaked, kept;
      }
      return true, [], [];
    }

    /**
     * The rest of opengl_es2_create once the deinterlacing program exists,
     * built from `base`: the plane textures, the scaling program, its
     * sampler and the extension check.
     */
    method Complete(gpu: Driver, a: CreateAnswers, ghost base: Objects) returns (ok: bool)
      requires gpu.Valid() && deint != scale && InitSucceeds(a.deint)
      requires a.extensions.Some? ==> CString(a.extensions.value)
      requires deint.program != 0 && deint.vertex != 0 && deint.fragment != 0
      requires deint.program != deint.vertex && deint.program != deint.fragment && deint.vertex != deint.fragment
      requires Consistent(base) && !base.currentFlagged && deint.program !in base.programs
      requires deint.vertex !in base.shaders && deint.fragment !in base.shaders
      requires gpu.objs == Built(base, deint.program, deint.vertex, deint.fragment, a.deint.linked)
                           .(current := InUse(base, deint.program, a.deint.linked))
      requires scale.program == 0 && scale.vertex == 0 && scale.fragment == 0
      requires rgbTex == TextureSlot(0, 0)
      modifies this`tex, this`rgbTex, this`hasUnpackRow, deint, scale
      modifies gpu`next, gpu`objs, gpu`textures, gpu`binding, gpu`calls
      ensures gpu.Valid() && Valid() && gpu.next >= old(gpu.next)
      ensures ok == InitSucceeds(a.scale)
      ensures forall i | 0 <= i < 3 :: old(gpu.next) <= tex[i].id < gpu.next
      ensures gpu.textures == old(gpu.textures) + {tex[0].id, tex[1].id, tex[2].id}
      ensures gpu.binding == old(gpu.binding)[gpu.activeUnit := tex[2].id]
      ensures !ok ==>
        gpu.objs == if a.deint.linked then Pending(base, old(deint.program), old(deint.vertex), old(deint.fragment)) else base
      ensures ok ==> unchanged(deint)
      ensures ok ==>
        tex[0].loc == UniformLocation(a.deint.linked, a.yLoc)
        && tex[1].loc == UniformLocation(a.deint.linked, a.uLoc)
        && tex[2].loc == UniformLocation(a.deint.linked, a.vLoc)
        && rgbTex == TextureSlot(0, UniformLocation(a.scale.linked, a.rgbLoc))
      ensures ok ==> hasUnpackRow == HasExtension(a.extensions, UnpackSubimage)
      ensures ok ==>
        old(gpu.next) <= scale.vertex < gpu.next && old(gpu.next) <= scale.fragment < gpu.next
        && old(gpu.next) <= scale.program < gpu.next
        && scale.program != scale.vertex && scale.program != scale.fragment && scale.vertex != scale.fragment
      ensures ok ==>
        gpu.objs == Built(old(gpu.objs), scale.program, scale.vertex, scale.fragment, a.scale.linked)
                    .(current := InUse(old(gpu.objs), scale.program, a.scale.linked))
    {
      CreatePlaneTextures(gpu, a);
      ok := InitScale(gpu, a.scale, base, a.deint.linked);
      if !ok {
        return false;
      }
      var rgbLoc := gpu.GetLocation(scale.program, a.rgbLoc);
      rgbTex := rgbTex.(loc := rgbLoc);
      CheckExtensions(a.extensions);
    }

    /** The lookup of GL_EXT_unpack_subimage among the driver's extensions. */
    method CheckExtensions(extensions: Option<string>)
      requires extensions.Some? ==> CString(extensions.value)
      modifies this`hasUnpackRow
      ensures hasUnpackRow == HasExtension(extensions, UnpackSubimage)
    {
      hasUnpackRow := HaveExtension(extensions, UnpackSubimage);
    }

    /** shader_init of the deinterlacing program, and on failure the cleanup of opengl_es2_create. */
    method InitDeint(gpu: Driver, a: ProgramAnswers) returns (ok: bool)
      requires gpu.Valid() && !gpu.objs.currentFlagged && deint != scale
      requires deint.program == 0 && deint.vertex == 0 && deint.fragment == 0
      requires scale.program == 0 && scale.vertex == 0 && scale.fragment == 0
      modifies deint, scale, gpu`next, gpu`objs, gpu`calls
      ensures gpu.Valid() && gpu.next >= old(gpu.next)
      ensures ok == InitSucceeds(a)
      ensures !ok ==> gpu.objs == old(gpu.objs)
      ensures ok ==>
        old(gpu.next) <= deint.vertex < gpu.next && old(gpu.next) <= deint.fragment < gpu.next
        && old(gpu.next) <= deint.program < gpu.next
        && deint.program != deint.vertex && deint.program != deint.fragment && deint.vertex != deint.fragment
      ensures ok ==>
        gpu.objs == Built(old(gpu.objs), deint.program, deint.vertex, deint.fragment, a.linked)
                    .(current := InUse(old(gpu.objs), deint.program, a.linked))
      ensures ok ==> (deint.program in gpu.objs.linked <==> a.linked)
      ensures ok ==> scale.program == 0 && scale.vertex == 0 && scale.fragment == 0
    {
      var ret := deint.Init(gpu, a);
      if ret < 0 {
        deint.Delete(gpu);
        scale.Delete(gpu);
        return false;
      }
      BuiltInUse(old(gpu.objs), deint.program, deint.vertex, deint.fragment, a.linked);
      return true;
    }

    /**
     * shader_init of the scaling program once the deinterlacing one
     * exists, built from `base` (the objects before opengl_es2_create) and
     * linked as `deintLinked` says. On failure the cleanup of
     * opengl_es2_create deletes the objects of both; the deinterlacing
     * ones survive, flagged, when that program is the one in use.
     */
    method InitScale(gpu: Driver, a: ProgramAnswers, ghost base: Objects, ghost deintLinked: bool) returns (ok: bool)
      requires gpu.Valid() && deint != scale
      requires deint.program != 0 && deint.vertex != 0 && deint.fragment != 0
      requires deint.program != deint.vertex && deint.program != deint.fragment && deint.vertex != deint.fragment
      requires Consistent(base) && !base.currentFlagged && deint.program !in base.programs
      requires deint.vertex !in base.shaders && deint.fragment !in base.shaders
      requires gpu.objs == Built(base, deint.program, deint.vertex, deint.fragment, deintLinked)
                           .(current := InUse(base, deint.program, deintLinked))
      requires scale.program == 0 && scale.vertex == 0 && scale.fragment == 0
      modifies deint, scale, gpu`next, gpu`objs, gpu`calls
      ensures gpu.Valid() && gpu.next >= old(gpu.next)
      ensures ok == InitSucceeds(a)
      ensures !ok ==>
        gpu.objs == if deintLinked then Pending(base, old(deint.program), old(deint.vertex), old(deint.fragment)) else base
      ensures ok ==> unchanged(deint)
      ensures ok ==>
        old(gpu.next) <= scale.vertex < gpu.next && old(gpu.next) <= scale.fragment < gpu.next
        && old(gpu.next) <= scale.program < gpu.next
        && scale.program != scale.vertex && scale.program != scale.fragment && scale.vertex != scale.fragment
      ensures ok ==>
        gpu.objs == Built(old(gpu.objs), scale.program, scale.vertex, scale.fragment, a.linked)
                    .(current := InUse(old(gpu.objs), scale.program, a.linked))
      ensures ok ==> (scale.program in gpu.objs.linked <==> a.linked)
    {
      var ret := scale.Init(gpu, a);
      if ret < 0 {
        ghost var o := gpu.objs;
        ghost var dp, dv, df := deint.program, deint.vertex, deint.fragment;
        deint.Delete(gpu);
        if deintLinked {
          DeleteInUse(o, dp, dv, df);
        } else {
          DeleteUnheld(o, dp, dv, df);
          assert o.(shaders := o.shaders - {dv, df}) == base;
        }
        scale.Delete(gpu);
        return false;
      }
      BuiltInUse(old(gpu.objs), scale.program, scale.vertex, scale.fragment, a.linked);
      return true;
    }

    /** The three texture_create calls of opengl_es2_create, each followed by the lookup of its sampler. */
    method CreatePlaneTextures(gpu: Driver, a: CreateAnswers)
      requires gpu.Valid()
      modifies this`tex, gpu`next, gpu`textures, gpu`binding
      ensures gpu.Valid() && Valid() && gpu.next >= old(gpu.next)
      ensures forall i | 0 <= i < 3 :: old(gpu.next) <= tex[i].id < gpu.next
      ensures gpu.textures == old(gpu.textures) + {tex[0].id, tex[1].id, tex[2].id}
      ensures gpu.binding == old(gpu.binding)[gpu.activeUnit := tex[2].id]
      ensures tex[0].loc == UniformLocation(deint.program in gpu.objs.linked, a.yLoc)
      ensures tex[1].loc == UniformLocation(deint.program in gpu.objs.linked, a.uLoc)
      ensures tex[2].loc == UniformLocation(deint.program in gpu.objs.linked, a.vLoc)
    {
      var y := TextureCreate(gpu);
      var yLoc := gpu.GetLocation(deint.program, a.yLoc);
      var u := TextureCreate(gpu);
      var uLoc := gpu.GetLocation(deint.program, a.uLoc);
      var v := TextureCreate(gpu);
      var vLoc := gpu.GetLocation(deint.program, a.vLoc);
      tex := [TextureSlot(y, yLoc), TextureSlot(u, uLoc), TextureSlot(v, vLoc)];
      assert gpu.binding == old(gpu.binding)[gpu.activeUnit := v];
    }

    /** The names of the first `n` plane textures. */
    function PlaneIds(n: nat): set<nat>
      reads this`tex
      requires n <= |tex|
    {
      set i | 0 <= i < n :: tex[i].id
    }

    /** The texture images `m` after the first |imgs| plane textures received `imgs`, in order. */
    function WithImages(m: map<nat, Image>, imgs: seq<Image>): map<nat, Image>
      reads this`tex
      requires |imgs| <= |tex|
    {
      if imgs == [] then m
      else WithImages(m, imgs[..|imgs| - 1])[tex[|imgs| - 1].id := imgs[|imgs| - 1]]
    }

    /** One more plane: its texture receives its image. */
    lemma WithImagesStep(m: map<nat, Image>, imgs: seq<Image>, i: nat)
      requires |imgs| <= |tex| && i < |imgs|
      ensures WithImages(m, imgs[..i + 1]) == WithImages(m, imgs[..i])[tex[i].id := imgs[i]]
    {
      assert imgs[..i + 1][..i] == imgs[..i];
    }

    /** Each plane texture ends up with its own image. */
    lemma {:induction false} WithImagesAt(m: map<nat, Image>, imgs: seq<Image>, i: nat)
      requires Valid() && |imgs| <= |tex| && i < |imgs|
      ensures tex[i].id in WithImages(m, imgs) && WithImages(m, imgs)[tex[i].id] == imgs[i]
    {
      var n := |imgs| - 1;
      if i < n {
        WithImagesAt(m, imgs[..n], i);
      }
    }

    /** Textures other than the uploaded planes keep their images. */
    lemma {:induction false} WithImagesElsewhere(m: map<nat, Image>, imgs: seq<Image>, t: nat)
      requires |imgs| <= |tex| && t !in PlaneIds(|imgs|)
      ensures t in WithImages(m, imgs) <==> t in m
      ensures t in m ==> WithImages(m, imgs)[t] == m[t]
    {
      if imgs != [] {
        var n := |imgs| - 1;
        assert PlaneIds(n) <= PlaneIds(n + 1);
        assert tex[n].id in PlaneIds(n + 1);
        WithImagesElsewhere(m, imgs[..n], t);
      }
    }

    /** Plane i's image sits in plane texture i, and every other texture has its image from `before`. */
    ghost predicate Placed(before: map<nat, Image>, after: map<nat, Image>, imgs: seq<Image>)
      reads this`tex
      requires |imgs| <= |tex|
    {
      (forall i | 0 <= i < |imgs| :: tex[i].id in after && after[tex[i].id] == imgs[i]) &&
      (forall t | t !in PlaneIds(|imgs|) :: (t in after <==> t in before) && (t in after ==> after[t] == before[t]))
    }

    /** Texture unit i holds plane texture i, for the first `n` planes. */
    function PlaneBindings(n: nat): map<nat, nat>
      reads this`tex
      requires n <= |tex|
    {
      map i | 0 <= i < n :: tex[i].id
    }

    /** Binding one more plane texture to its unit extends the plane bindings by that unit. */
    lemma PlaneBindingsStep(b: map<nat, nat>, i: nat)
      requires i < |tex|
      ensures (b + PlaneBindings(i))[i := tex[i].id] == b + PlaneBindings(i + 1)
    {
    }

    /**
     * The sampler of plane n - 1 in program `prog` is set to texture unit
     * n - 1, unless the uniform is missing or no program is in use.
     */
    function AssignSampler(u: map<(nat, int), int>, prog: nat, n: nat): map<(nat, int), int>
      reads this`tex
      requires 0 < n <= |tex|
    {
      var loc := tex[n - 1].loc;
      if loc == -1 || prog == 0 then u else u[(prog, loc) := n - 1]
    }

    /** The sampler uniforms of `prog` after units 0 .. n-1 were assigned to the first `n` planes, in order. */
    function Samplers(u: map<(nat, int), int>, prog: nat, n: nat): map<(nat, int), int>
      reads this`tex
      requires n <= |tex|
    {
      if n == 0 then u else AssignSampler(Samplers(u, prog, n - 1), prog, n)
    }

    /** One iteration of update_textures_simple. */
    method UploadStrided(gpu: Driver, i: nat, pl: Plane)
      requires Valid() && i < |tex| && StridedReadable(pl)
      modifies gpu`activeUnit, gpu`binding, gpu`rowLength, gpu`images, gpu`uniforms
      ensures gpu.images == old(gpu.images)[tex[i].id := StridedImage(pl)]
      ensures gpu.binding == old(gpu.binding)[i := tex[i].id] && gpu.activeUnit == i
      ensures gpu.uniforms == AssignSampler(old(gpu.uniforms), gpu.objs.current, i + 1)
      ensures gpu.rowLength == SourceStride(pl)
    {
      gpu.ActiveTexture(i);
      gpu.BindTexture(tex[i].id);
      gpu.SetRowLength(SourceStride(pl));
      gpu.TexImageLuminance(pl.visiblePitch, pl.visibleLines, pl.pixels);
      gpu.Uniform1i(tex[i].loc, i);
    }

    /**
     * update_textures_simple: each plane is uploaded straight from the
     * picture with the row length set to its stride, on the texture unit
     * of its index; the row length is reset to 0 at the end.
     */
    method UpdateTexturesSimple(gpu: Driver, p: Picture)
      requires Valid() && |p.planes| <= 3
      requires forall i | 0 <= i < |p.planes| :: StridedReadable(p.planes[i])
      modifies gpu`activeUnit, gpu`binding, gpu`rowLength, gpu`images, gpu`uniforms
      ensures gpu.rowLength == 0
      ensures gpu.images == WithImages(old(gpu.images), StridedImages(p.planes))
      ensures gpu.binding == old(gpu.binding) + PlaneBindings(|p.planes|)
      ensures gpu.activeUnit == if |p.planes| == 0 then old(gpu.activeUnit) else |p.planes| - 1
      ensures gpu.uniforms == Samplers(old(gpu.uniforms), gpu.objs.current, |p.planes|)
    {
      ghost var imgs := StridedImages(p.planes);
      var i := 0;
      while i < |p.planes|
        invariant i <= |p.planes|
        invariant gpu.images == WithImages(old(gpu.images), imgs[..i])
        invariant gpu.binding == old(gpu.binding) + PlaneBindings(i)
        invariant gpu.activeUnit == if i == 0 then old(gpu.activeUnit) else i - 1
        invariant gpu.uniforms == Samplers(old(gpu.uniforms), gpu.objs.current, i)
      {
        PlaneBindingsStep(old(gpu.binding), i);
        UploadStrided(gpu, i, p.planes[i]);
        WithImagesStep(old(gpu.images), imgs, i);
        i := i + 1;
      }
      assert imgs[..i] == imgs;
      gpu.SetRowLength(0);
    }

    /** One iteration of update_textures_complex: compact the plane, then upload the copy. */
    method UploadCompacted(gpu: Driver, i: nat, pl: Plane, line: nat, rows: nat)
      requires Valid() && i < |tex| && CompactReadable(pl, line, rows)
      requires gpu.rowLength == 0
      modifies gpu`activeUnit, gpu`binding, gpu`images, gpu`uniforms
      ensures gpu.images == old(gpu.images)[tex[i].id := CompactedImage(pl, line, rows)]
      ensures gpu.binding == old(gpu.binding)[i := tex[i].id] && gpu.activeUnit == i
      ensures gpu.uniforms == AssignSampler(old(gpu.uniforms), gpu.objs.current, i + 1)
    {
      var buf := new byte[line * rows];
      CompactRows(pl.pixels, SourceStride(pl), line, rows, buf);
      UnpackTight(buf[..], line, rows);
      gpu.ActiveTexture(i);
      gpu.BindTexture(tex[i].id);
      gpu.TexImageLuminance(line, rows, buf[..]);
      gpu.Uniform1i(tex[i].loc, i);
    }

    /**
     * update_textures_complex: each plane's visible rows, as many bytes
     * as the chroma description gives for the format's visible size, are
     * packed into a tight buffer, which is uploaded with the row length
     * at 0 on the texture unit of the plane's index.
     */
    method UpdateTexturesComplex(gpu: Driver, p: Picture, fmt: VideoFormat, scales: seq<PlaneScale>)
      requires Valid() && |p.planes| <= 3 && |p.planes| <= |scales|
      requires gpu.rowLength == 0
      requires forall i | 0 <= i < |p.planes| :: Compactable(p.planes[i], fmt, scales[i])
      modifies gpu`activeUnit, gpu`binding, gpu`images, gpu`uniforms
      ensures gpu.images == WithImages(old(gpu.images), CompactedImages(p.planes, fmt, scales))
      ensures gpu.binding == old(gpu.binding) + PlaneBindings(|p.planes|)
      ensures gpu.activeUnit == if |p.planes| == 0 then old(gpu.activeUnit) else |p.planes| - 1
      ensures gpu.uniforms == Samplers(old(gpu.uniforms), gpu.objs.current, |p.planes|)
    {
      ghost var imgs := CompactedImages(p.planes, fmt, scales);
      var i := 0;
      while i < |p.planes|
        invariant i <= |p.planes|
        invariant gpu.images == WithImages(old(gpu.images), imgs[..i])
        invariant gpu.binding == old(gpu.binding) + PlaneBindings(i)
        invariant gpu.activeUnit == if i == 0 then old(gpu.activeUnit) else i - 1
        invariant gpu.uniforms == Samplers(old(gpu.uniforms), gpu.objs.current, i)
      {
        var rows := PlaneRows(fmt, scales[i]);
        var line := PlaneLine(fmt, scales[i]);
        PlaneBindingsStep(old(gpu.binding), i);
        UploadCompacted(gpu, i, p.planes[i], line, rows);
        WithImagesStep(old(gpu.images), imgs, i);
        i := i + 1;
      }
      assert imgs[..i] == imgs;
    }

    /** Every plane can be read by the path update_textures takes. */
    predicate Uploadable(planes: seq<Plane>, fmt: VideoFormat, scales: seq<PlaneScale>)
      reads this`hasUnpackRow
    {
      |planes| <= |scales| &&
      (hasUnpackRow ==> forall i | 0 <= i < |planes| :: StridedReadable(planes[i])) &&
      (!hasUnpackRow ==> forall i | 0 <= i < |planes| :: Compactable(planes[i], fmt, scales[i]))
    }

    /** The images update_textures gives the plane textures. */
    function PlaneImages(planes: seq<Plane>, fmt: VideoFormat, scales: seq<PlaneScale>): (imgs: seq<Image>)
      reads this`hasUnpackRow
      requires Uploadable(planes, fmt, scales)
      ensures |imgs| == |planes|
    {
      if hasUnpackRow then StridedImages(planes) else CompactedImages(planes, fmt, scales)
    }

    /**
     * update_textures: the direct path when the driver has
     * GL_EXT_unpack_subimage, the compacting one otherwise. Plane i ends
     * up on texture unit i in its own texture; no other texture changes.
     */
    method UpdateTextures(gpu: Driver, p: Picture, fmt: VideoFormat, scales: seq<PlaneScale>)
      requires Valid() && |p.planes| <= 3 && Uploadable(p.planes, fmt, scales)
      requires gpu.rowLength == 0
      modifies gpu`activeUnit, gpu`binding, gpu`rowLength, gpu`images, gpu`uniforms
      ensures gpu.rowLength == 0
      ensures gpu.images == WithImages(old(gpu.images), PlaneImages(p.planes, fmt, scales))
      ensures Placed(old(gpu.images), gpu.images, PlaneImages(p.planes, fmt, scales))
      ensures gpu.binding == old(gpu.binding) + PlaneBindings(|p.planes|)
      ensures gpu.activeUnit == if |p.planes| == 0 then old(gpu.activeUnit) else |p.planes| - 1
      ensures gpu.uniforms == Samplers(old(gpu.uniforms), gpu.objs.current, |p.planes|)
    {
      if hasUnpackRow {
        UpdateTexturesSimple(gpu, p);
      } else {
        UpdateTexturesComplex(gpu, p, fmt, scales);
      }
      ghost var imgs := PlaneImages(p.planes, fmt, scales);
      forall i | 0 <= i < |p.planes|
        ensures tex[i].id in gpu.images && gpu.images[tex[i].id] == imgs[i]
      {
        WithImagesAt(old(gpu.images), imgs, i);
      }
      forall t | t !in PlaneIds(|p.planes|)
        ensures t in gpu.images <==> t in old(gpu.images)
        ensures t in gpu.images ==> gpu.images[t] == old(gpu.images)[t]
      {
        WithImagesElsewhere(old(gpu.images), imgs, t);
      }
      assert Placed(old(gpu.images), gpu.images, imgs);
    }
  }
}
