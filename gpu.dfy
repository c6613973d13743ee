/**
 * The OpenGL ES 2 driver, as far as the gles2 plugin depends on it: an
 * allocator of object names, the shader and program objects with their
 * attachments, link status, program in use and deferred deletion, the
 * live textures and framebuffers, the GL_UNPACK_ROW_LENGTH register,
 * texture units and bindings, the level-0 image of each texture, uniform
 * values per program, framebuffer attachments, and a log of the calls that create, attach, link and delete shader and
 * program objects. Whether a driver call succeeds is an argument that
 * the caller passes in.
 */
module Gpu {
  import opened Geometry

  newtype byte = x: int | 0 <= x < 256

  datatype ShaderKind = VertexShader | FragmentShader

  /** The object-lifecycle calls the driver has received, in order. */
  datatype Call =
    | ShaderCreated(kind: ShaderKind, name: nat)
    | ShaderDeleted(name: nat)
    | ProgramCreated(name: nat)
    | ProgramDeleted(name: nat)
    | ShaderAttached(program: nat, shader: nat)
    | ProgramLinked(program: nat)

  /** The level-0 image of a texture. */
  datatype Image =
    | Luminance(width: nat, height: nat, texels: seq<byte>)  // row-major, texel (r, c) at r * width + c
    | RgbUndefined(width: nat, height: nat)                  // storage allocated from a NULL pointer

  /** GL_UNPACK_ROW_LENGTH: 0 means "as wide as the image". */
  function RowStride(rowLength: nat, width: nat): nat {
    if rowLength == 0 then width else rowLength
  }

  /** `size` elements hold `height` rows of `width` elements placed `stride` apart. */
  predicate Covers(size: nat, width: nat, height: nat, stride: nat) {
    width == 0 || height == 0 || (height - 1) * stride + width <= size
  }

  lemma RowInRange(size: nat, width: nat, height: nat, stride: nat, r: nat, c: nat)
    requires Covers(size, width, height, stride)
    requires r < height && c < width
    ensures r * stride + c < size
  {
    assert r * stride <= (height - 1) * stride by {
      MulMonotone(r, height - 1, stride);
    }
  }

  /** Splitting an index of a row-major `width`-wide image into its row and column. */
  lemma RowColumn(k: nat, width: nat, r: nat, c: nat)
    requires c < width && k == r * width + c
    ensures k / width == r && k % width == c
  {
    var q, m := k / width, k % width;
    assert k == q * width + m && m < width;
    assert (r + 1) * width == r * width + width;
    assert (q + 1) * width == q * width + width;
    Below(q, r, width);
    Below(r, q, width);
  }

  lemma Below(a: nat, b: nat, w: nat)
    requires a * w < (b + 1) * w
    ensures a <= b
  {
    if a > b {
      MulMonotone(b + 1, a, w);
    }
  }

  /**
   * The texture that glTexImage2D builds from client memory: texel (r, c)
   * is read from pixels[r * RowStride(rowLength, width) + c].
   */
  function Unpack(pixels: seq<byte>, width: nat, height: nat, rowLength: nat): (texels: seq<byte>)
    requires Covers(|pixels|, width, height, RowStride(rowLength, width))
    ensures |texels| == width * height
  {
    seq(width * height, k requires 0 <= k < width * height =>
      var r, c := k / width, k % width;
      RowInHeight(k, width, height);
      RowInRange(|pixels|, width, height, RowStride(rowLength, width), r, c);
      pixels[r * RowStride(rowLength, width) + c])
  }

  lemma RowInHeight(k: nat, width: nat, height: nat)
    requires k < width * height
    ensures width > 0 && k / width < height && k % width < width
  {
    if k / width >= height {
      MulMonotone(height, k / width, width);
    }
  }

  /** The unpack rule, texel by texel. */
  lemma UnpackAt(pixels: seq<byte>, width: nat, height: nat, rowLength: nat, r: nat, c: nat)
    requires Covers(|pixels|, width, height, RowStride(rowLength, width))
    requires r < height && c < width
    ensures r * width + c < width * height
    ensures r * RowStride(rowLength, width) + c < |pixels|
    ensures Unpack(pixels, width, height, rowLength)[r * width + c]
            == pixels[r * RowStride(rowLength, width) + c]
  {
    RowColumn(r * width + c, width, r, c);
    MulMonotone(r, height - 1, width);
    RowInRange(|pixels|, width, height, RowStride(rowLength, width), r, c);
  }

  /** With the row length at 0, tightly packed memory is uploaded unchanged. */
  lemma UnpackTight(pixels: seq<byte>, width: nat, height: nat)
    requires |pixels| == width * height
    ensures Covers(|pixels|, width, height, RowStride(0, width))
    ensures Unpack(pixels, width, height, 0) == pixels
  {
    TightCovers(width, height);
    var u := Unpack(pixels, width, height, 0);
    forall k | 0 <= k < width * height
      ensures u[k] == pixels[k]
    {
      UnpackTightAt(pixels, width, height, k);
    }
  }

  lemma TightCovers(width: nat, height: nat)
    ensures Covers(width * height, width, height, RowStride(0, width))
  {
    if width > 0 && height > 0 {
      MulMonotone(height - 1, height, width);
      assert (height - 1) * width + width == height * width;
    }
  }

  lemma UnpackTightAt(pixels: seq<byte>, width: nat, height: nat, k: nat)
    requires |pixels| == width * height && k < width * height
    ensures Covers(|pixels|, width, height, RowStride(0, width))
    ensures Unpack(pixels, width, height, 0)[k] == pixels[k]
  {
    TightCovers(width, height);
    RowInHeight(k, width, height);
    var r, c := k / width, k % width;
    UnpackAt(pixels, width, height, 0, r, c);
    assert r * width + c == k;
  }

  /**
   * The shader and program objects of a context, after sections 2.10.1 and
   * 2.10.3 of the OpenGL ES 2.0 specification. Deleting a shader that is
   * attached to a program, or the program in use, only flags it; it goes
   * once nothing holds it any more.
   */
  datatype Objects = Objects(
    shaders: set<nat>,          // shader objects that exist
    programs: set<nat>,         // program objects that exist
    linked: set<nat>,           // programs whose last link succeeded
    attached: set<(nat, nat)>,  // (program, shader) attachments
    flagged: set<nat>,          // shaders flagged for deletion
    current: nat,               // the program in use (glUseProgram), 0 for none
    currentFlagged: bool)       // the program in use is flagged for deletion

  /** Shader s is attached to some program. */
  predicate Attached(o: Objects, s: nat) {
    exists a | a in o.attached :: a.1 == s
  }

  /**
   * No object is named 0, attachments join existing objects, and a flagged
   * shader is still held by some program.
   */
  predicate WellAttached(o: Objects) {
    0 !in o.shaders && 0 !in o.programs
    && o.linked <= o.programs && o.flagged <= o.shaders
    && (forall a | a in o.attached :: a.0 in o.programs && a.1 in o.shaders)
    && (forall s | s in o.flagged :: Attached(o, s))
  }

  /** What the driver keeps true of its objects: the program in use, if any, exists. */
  predicate Consistent(o: Objects) {
    WellAttached(o)
    && (o.current != 0 ==> o.current in o.programs)
    && (o.currentFlagged ==> o.current != 0)
  }

  /** The flagged shaders that no program other than p holds. */
  function Released(o: Objects, p: nat): set<nat> {
    set s | s in o.flagged && forall a | a in o.attached && a.1 == s :: a.0 == p
  }

  /** Program p ceases to exist, with its attachments and the flagged shaders only it held. */
  function Destroy(o: Objects, p: nat): Objects {
    var gone := Released(o, p);
    o.(shaders := o.shaders - gone, programs := o.programs - {p}, linked := o.linked - {p},
       attached := (set a | a in o.attached && a.0 != p), flagged := o.flagged - gone)
  }

  /** glDeleteShader: 0 and names of no shader are ignored; an attached shader is only flagged. */
  function DeleteShaderOp(o: Objects, s: nat): Objects {
    if s !in o.shaders then o
    else if Attached(o, s) then o.(flagged := o.flagged + {s})
    else o.(shaders := o.shaders - {s})
  }

  /** glDeleteProgram: 0 and names of no program are ignored; the program in use is only flagged. */
  function DeleteProgramOp(o: Objects, p: nat): Objects {
    if p !in o.programs then o
    else if p == o.current then o.(currentFlagged := true)
    else Destroy(o, p)
  }

  /**
   * glUseProgram: 0 or a linked program becomes the program in use (any
   * other name raises an error and changes nothing); the program it
   * replaces goes if it was flagged.
   */
  function UseProgramOp(o: Objects, p: nat): Objects {
    if p != 0 && p !in o.linked then o
    else if p == o.current then o
    else (if o.currentFlagged then Destroy(o, o.current) else o).(current := p, currentFlagged := false)
  }

  lemma DestroyKeepsWellAttached(o: Objects, p: nat)
    requires WellAttached(o)
    ensures WellAttached(Destroy(o, p))
  {
    var r := Destroy(o, p);
    forall s | s in r.flagged
      ensures Attached(r, s)
    {
      assert s !in Released(o, p);
      var a :| a in o.attached && a.1 == s && a.0 != p;
      assert a in r.attached;
    }
  }

  lemma DeleteShaderKeepsConsistent(o: Objects, s: nat)
    requires Consistent(o)
    ensures Consistent(DeleteShaderOp(o, s))
  {
    if s in o.shaders && !Attached(o, s) {
      var r := DeleteShaderOp(o, s);
      forall a | a in r.attached
        ensures a.1 in r.shaders
      {
        assert a.1 != s;
      }
    }
  }

  lemma DeleteProgramKeepsConsistent(o: Objects, p: nat)
    requires Consistent(o)
    ensures Consistent(DeleteProgramOp(o, p))
  {
    if p in o.programs && p != o.current {
      DestroyKeepsWellAttached(o, p);
    }
  }

  lemma UseProgramKeepsConsistent(o: Objects, p: nat)
    requires Consistent(o)
    ensures Consistent(UseProgramOp(o, p))
  {
    if (p == 0 || p in o.linked) && p != o.current && o.currentFlagged {
      DestroyKeepsWellAttached(o, o.current);
    }
  }

  /** A shader that a program holds survives glDeleteShader, flagged. */
  lemma DeleteHeldShaderDefers(o: Objects, p: nat, s: nat)
    requires Consistent(o) && (p, s) in o.attached
    ensures DeleteShaderOp(o, s) == o.(flagged := o.flagged + {s})
  {
  }

  /** The program in use survives glDeleteProgram, flagged, with everything it holds. */
  lemma DeleteCurrentDefers(o: Objects)
    requires Consistent(o) && o.current != 0
    ensures DeleteProgramOp(o, o.current) == o.(currentFlagged := true)
  {
  }

  /** A program not in use goes at once, and so do the flagged shaders only it held. */
  lemma DeleteIdleProgram(o: Objects, p: nat, s: nat)
    requires Consistent(o) && p in o.programs && p != o.current
    requires s in o.flagged && (p, s) in o.attached
    requires forall a | a in o.attached && a.1 == s :: a.0 == p
    ensures p !in DeleteProgramOp(o, p).programs && s !in DeleteProgramOp(o, p).shaders
  {
    assert s in Released(o, p);
  }

  /** Putting another program in use retires a flagged one, with the flagged shaders only it held. */
  lemma UseRetiresFlagged(o: Objects, p: nat, s: nat)
    requires Consistent(o) && o.currentFlagged && p in o.linked && p != o.current
    requires s in o.flagged && forall a | a in o.attached && a.1 == s :: a.0 == o.current
    ensures UseProgramOp(o, p).current == p && !UseProgramOp(o, p).currentFlagged
    ensures o.current !in UseProgramOp(o, p).programs && s !in UseProgramOp(o, p).shaders
  {
    assert s in Released(o, o.current);
  }

  class Driver {
    /** The next object name the allocator hands out; names below it may be live. */
    var next: nat
    var objs: Objects
    var textures: set<nat>
    var framebuffers: set<nat>
    var calls: seq<Call>

    var rowLength: nat              // GL_UNPACK_ROW_LENGTH
    var activeUnit: nat             // glActiveTexture(GL_TEXTURE0 + activeUnit)
    var binding: map<nat, nat>      // texture unit -> texture bound to GL_TEXTURE_2D
    var images: map<nat, Image>     // texture -> its level-0 image
    var uniforms: map<(nat, int), int>  // (program, uniform location) -> integer value
    var boundFramebuffer: nat       // GL_FRAMEBUFFER binding, 0 for the window
    var colorAttachment: map<nat, nat>  // framebuffer -> texture at GL_COLOR_ATTACHMENT0

    /** The objects are consistent and every live name is non-zero and below the allocator. */
    ghost predicate Valid()
      reads this`next, this`objs, this`textures, this`framebuffers
    {
      0 < next && Consistent(objs) &&
      (forall h | h in objs.shaders :: 0 < h < next) &&
      (forall h | h in objs.programs :: 0 < h < next) &&
      (forall h | h in textures :: 0 < h < next) &&
      (forall h | h in framebuffers :: 0 < h < next)
    }

    /** A driver in its initial state: nothing is live, the row length is 0. */
    constructor ()
      ensures Valid()
      ensures objs == Objects({}, {}, {}, {}, {}, 0, false) && textures == framebuffers == {} && calls == []
      ensures rowLength == 0 && activeUnit == 0 && binding == map[] && images == map[]
      ensures uniforms == map[] && boundFramebuffer == 0 && colorAttachment == map[]
    {
      next := 1;
      objs := Objects({}, {}, {}, {}, {}, 0, false);
      textures, framebuffers := {}, {};
      calls := [];
      rowLength, activeUnit := 0, 0;
      binding, images, uniforms := map[], map[], map[];
      boundFramebuffer, colorAttachment := 0, map[];
    }

    /** A name that is not live and has never been handed out. */
    predicate IsFresh(h: nat)
      reads this`objs, this`textures, this`framebuffers
    {
      h != 0 && h !in objs.shaders && h !in objs.programs && h !in textures && h !in framebuffers
    }

    /** glCreateShader: a fresh name, or 0 when the driver fails. */
    method CreateShader(kind: ShaderKind, succeeds: bool) returns (s: nat)
      requires Valid()
      modifies this`next, this`objs, this`calls
      ensures Valid() && next >= old(next)
      ensures succeeds ==> old(IsFresh(s)) && old(next) <= s < next
      ensures succeeds ==>
        objs == old(objs).(shaders := old(objs).shaders + {s}) && calls == old(calls) + [ShaderCreated(kind, s)]
      ensures !succeeds ==> s == 0 && objs == old(objs) && calls == old(calls)
    {
      if succeeds {
        s := next;
        next := next + 1;
        objs := objs.(shaders := objs.shaders + {s});
        calls := calls + [ShaderCreated(kind, s)];
      } else {
        s := 0;
      }
    }

    /** glDeleteShader. */
    method DeleteShader(s: nat)
      requires Valid()
      modifies this`objs, this`calls
      ensures Valid()
      ensures objs == DeleteShaderOp(old(objs), s) && calls == old(calls) + [ShaderDeleted(s)]
    {
      DeleteShaderKeepsConsistent(objs, s);
      objs := DeleteShaderOp(objs, s);
      calls := calls + [ShaderDeleted(s)];
    }

    /** glCreateProgram: a fresh name, or 0 when the driver fails. */
    method CreateProgram(succeeds: bool) returns (p: nat)
      requires Valid()
      modifies this`next, this`objs, this`calls
      ensures Valid() && next >= old(next)
      ensures succeeds ==> old(IsFresh(p)) && old(next) <= p < next
      ensures succeeds ==>
        objs == old(objs).(programs := old(objs).programs + {p}) && calls == old(calls) + [ProgramCreated(p)]
      ensures !succeeds ==> p == 0 && objs == old(objs) && calls == old(calls)
    {
      if succeeds {
        p := next;
        next := next + 1;
        objs := objs.(programs := objs.programs + {p});
        calls := calls + [ProgramCreated(p)];
      } else {
        p := 0;
      }
    }

    /** glDeleteProgram. */
    method DeleteProgram(p: nat)
      requires Valid()
      modifies this`objs, this`calls
      ensures Valid()
      ensures objs == DeleteProgramOp(old(objs), p) && calls == old(calls) + [ProgramDeleted(p)]
    {
      DeleteProgramKeepsConsistent(objs, p);
      objs := DeleteProgramOp(objs, p);
      calls := calls + [ProgramDeleted(p)];
    }

    /**
     * glAttachShader followed by glGetError: `ok` is false when an error was
     * raised, which the driver does for names of no program or no shader and
     * for a shader already attached, and may do for reasons of its own.
     */
    method AttachShader(p: nat, s: nat, succeeds: bool) returns (ok: bool)
      requires Valid()
      modifies this`objs, this`calls
      ensures Valid()
      ensures ok == (succeeds && p in old(objs).programs && s in old(objs).shaders && (p, s) !in old(objs).attached)
      ensures objs == if ok then old(objs).(attached := old(objs).attached + {(p, s)}) else old(objs)
      ensures calls == old(calls) + [ShaderAttached(p, s)]
    {
      ok := succeeds && p in objs.programs && s in objs.shaders && (p, s) !in objs.attached;
      if ok {
        objs := objs.(attached := objs.attached + {(p, s)});
      }
      calls := calls + [ShaderAttached(p, s)];
    }

    /** glLinkProgram followed by GL_LINK_STATUS; the name of no program links nothing. */
    method LinkProgram(p: nat, succeeds: bool) returns (linked: bool)
      requires Valid()
      modifies this`objs, this`calls
      ensures Valid()
      ensures linked == (succeeds && p in old(objs).programs)
      ensures p in old(objs).programs ==>
        objs == old(objs).(linked := if succeeds then old(objs).linked + {p} else old(objs).linked - {p})
      ensures p !in old(objs).programs ==> objs == old(objs)
      ensures calls == old(calls) + [ProgramLinked(p)]
    {
      linked := succeeds && p in objs.programs;
      if p in objs.programs {
        objs := objs.(linked := if succeeds then objs.linked + {p} else objs.linked - {p});
      }
      calls := calls + [ProgramLinked(p)];
    }

    /**
     * glGetAttribLocation or glGetUniformLocation: the location the linked
     * program answers, or -1 unless `p` names a linked program.
     */
    method GetLocation(p: nat, location: int) returns (loc: int)
      ensures loc == if p in objs.linked then location else -1
    {
      loc := if p in objs.linked then location else -1;
    }

    /** glUseProgram. */
    method UseProgram(p: nat)
      requires Valid()
      modifies this`objs
      ensures Valid()
      ensures objs == UseProgramOp(old(objs), p)
    {
      UseProgramKeepsConsistent(objs, p);
      objs := UseProgramOp(objs, p);
    }

    /** glGenTextures for one name. */
    method GenTexture() returns (t: nat)
      requires Valid()
      modifies this`next, this`textures
      ensures Valid() && old(IsFresh(t)) && old(next) <= t < next
      ensures textures == old(textures) + {t}
    {
      t := next;
      next := next + 1;
      textures := textures + {t};
    }

    /** glGenFramebuffers for one name. */
    method GenFramebuffer() returns (f: nat)
      requires Valid()
      modifies this`next, this`framebuffers
      ensures Valid() && old(IsFresh(f)) && old(next) <= f < next
      ensures framebuffers == old(framebuffers) + {f}
    {
      f := next;
      next := next + 1;
      framebuffers := framebuffers + {f};
    }

    /** glActiveTexture(GL_TEXTURE0 + unit). */
    method ActiveTexture(unit: nat)
      modifies this`activeUnit
      ensures activeUnit == unit
    {
      activeUnit := unit;
    }

    /** glBindTexture(GL_TEXTURE_2D, t) on the active unit. */
    method BindTexture(t: nat)
      modifies this`binding
      ensures binding == old(binding)[activeUnit := t]
    {
      binding := binding[activeUnit := t];
    }

    /** glPixelStorei(GL_UNPACK_ROW_LENGTH, n). */
    method SetRowLength(n: nat)
      modifies this`rowLength
      ensures rowLength == n
    {
      rowLength := n;
    }

    /** glTexImage2D of 8-bit GL_LUMINANCE data into the texture bound to the active unit. */
    method TexImageLuminance(width: nat, height: nat, pixels: seq<byte>)
      requires activeUnit in binding
      requires Covers(|pixels|, width, height, RowStride(rowLength, width))
      modifies this`images
      ensures images == old(images)[binding[activeUnit] := Luminance(width, height, Unpack(pixels, width, height, rowLength))]
    {
      images := images[binding[activeUnit] := Luminance(width, height, Unpack(pixels, width, height, rowLength))];
    }

    /** glTexImage2D of GL_RGB storage with a NULL data pointer. */
    method TexImageRgbStorage(width: nat, height: nat)
      requires activeUnit in binding
      modifies this`images
      ensures images == old(images)[binding[activeUnit] := RgbUndefined(width, height)]
    {
      images := images[binding[activeUnit] := RgbUndefined(width, height)];
    }

    /**
     * glUniform1i sets a uniform of the program in use; a location of -1 is
     * silently ignored, and with no program in use the call is an error
     * (section 2.10.4 of the OpenGL ES 2.0 specification).
     */
    method Uniform1i(loc: int, value: int)
      modifies this`uniforms
      ensures uniforms == if loc == -1 || objs.current == 0 then old(uniforms)
                          else old(uniforms)[(objs.current, loc) := value]
    {
      if loc != -1 && objs.current != 0 {
        uniforms := uniforms[(objs.current, loc) := value];
      }
    }

    /** glBindFramebuffer(GL_FRAMEBUFFER, f). */
    method BindFramebuffer(f: nat)
      modifies this`boundFramebuffer
      ensures boundFramebuffer == f
    {
      boundFramebuffer := f;
    }

    /** glFramebufferTexture2D(GL_FRAMEBUFFER, GL_COLOR_ATTACHMENT0, GL_TEXTURE_2D, t, 0). */
    method AttachColorTexture(t: nat)
      modifies this`colorAttachment
      ensures colorAttachment == old(colorAttachment)[boundFramebuffer := t]
    {
      colorAttachment := colorAttachment[boundFramebuffer := t];
    }
  }
}
