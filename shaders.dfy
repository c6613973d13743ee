/**
 * The shader objects of the gles2 plugin: loading and compiling the two
 * shaders of a program, linking them, and deleting whatever was created.
 * Every driver answer (created, compiled, attached, linked, locations)
 * is an argument, so each contract covers every outcome.
 */
module Shaders {
  import opened Gpu

  /** What the driver answers while one shader is loaded. */
  datatype SourceAnswers = SourceAnswers(created: bool, compiled: bool)

  /** What the driver answers while shader_init builds one program. */
  datatype ProgramAnswers = ProgramAnswers(
    created: bool,            // glCreateProgram returns a name
    vertex: SourceAnswers,
    fragment: SourceAnswers,
    vertexAttached: bool,     // glGetError after glAttachShader(vertex)
    fragmentAttached: bool,   // glGetError after glAttachShader(fragment)
    linked: bool,             // GL_LINK_STATUS
    texcoordLoc: int)         // glGetAttribLocation(program, "aTexcoord") of the linked program

  /** shader_load_source hands back a shader. */
  predicate Compiles(a: SourceAnswers) {
    a.created && a.compiled
  }

  /**
   * shader_init returns 0: the program and both shaders were created and
   * attached. Whether the program then links plays no part.
   */
  predicate InitSucceeds(a: ProgramAnswers) {
    a.created && Compiles(a.vertex) && Compiles(a.fragment) && a.vertexAttached && a.fragmentAttached
  }

  /** The number of non-zero names among three. */
  function NonZero(x: nat, y: nat, z: nat): nat {
    (if x != 0 then 1 else 0) + (if y != 0 then 1 else 0) + (if z != 0 then 1 else 0)
  }

  /** The deletions shader_delete issues: one per non-zero name, shaders before the program. */
  function DeleteCalls(vertex: nat, fragment: nat, program: nat): (calls: seq<Call>)
    ensures |calls| == NonZero(vertex, fragment, program)
    ensures forall c | c in calls ::
      (c == ShaderDeleted(vertex) && vertex != 0) || (c == ShaderDeleted(fragment) && fragment != 0)
      || (c == ProgramDeleted(program) && program != 0)
    ensures vertex != 0 ==> calls[0] == ShaderDeleted(vertex)
    ensures fragment != 0 ==> calls[|calls| - 1 - (if program != 0 then 1 else 0)] == ShaderDeleted(fragment)
    ensures program != 0 ==> calls[|calls| - 1] == ProgramDeleted(program)
  {
    (if vertex != 0 then [ShaderDeleted(vertex)] else [])
    + (if fragment != 0 then [ShaderDeleted(fragment)] else [])
    + (if program != 0 then [ProgramDeleted(program)] else [])
  }

  /**
   * The objects once shader_init has created program p with shaders v and
   * f and attached both: a program that links keeps its attachments, and
   * one that does not is deleted at once, which, as it is not in use,
   * takes its attachments with it and leaves the two shaders.
   */
  function Built(o: Objects, p: nat, v: nat, f: nat, linked: bool): Objects {
    if linked then
      o.(shaders := o.shaders + {v, f}, programs := o.programs + {p}, linked := o.linked + {p},
         attached := o.attached + {(p, v), (p, f)})
    else
      o.(shaders := o.shaders + {v, f})
  }

  /** Program p has just been created: it is not linked, not in use and holds nothing. */
  predicate NewProgram(o: Objects, p: nat) {
    p in o.programs && p !in o.linked && p != o.current && forall a | a in o.attached :: a.0 != p
  }

  /** The objects without program p. */
  function Without(o: Objects, p: nat): Objects {
    o.(programs := o.programs - {p})
  }

  /**
   * When no program in use is pending deletion, putting the new program in
   * use replaces the old one if the new one linked and changes nothing
   * otherwise.
   */
  lemma BuiltInUse(o: Objects, p: nat, v: nat, f: nat, linked: bool)
    requires Consistent(o) && !o.currentFlagged && p != 0 && p !in o.programs
    ensures UseProgramOp(Built(o, p, v, f, linked), p)
         == Built(o, p, v, f, linked).(current := if linked then p else o.current)
  {
  }

  /** A program with no attachments that is not in use goes at once, and only it does. */
  lemma DeleteBareProgram(o: Objects, p: nat)
    requires Consistent(o) && p in o.programs && p != o.current
    requires forall a | a in o.attached :: a.0 != p
    ensures DeleteProgramOp(o, p) == o.(programs := o.programs - {p}, linked := o.linked - {p})
  {
    var r := DeleteProgramOp(o, p);
    assert Released(o, p) == {} by {
      forall s | s in o.flagged
        ensures s !in Released(o, p)
      {
        var a :| a in o.attached && a.1 == s;
      }
    }
    assert r.attached == o.attached;
  }

  /**
   * shader_delete on a program in use that holds both shaders: nothing is
   * deleted yet, the three objects are only flagged.
   */
  lemma DeleteInUse(o: Objects, p: nat, v: nat, f: nat)
    requires Consistent(o) && p == o.current && p != 0
    requires (p, v) in o.attached && (p, f) in o.attached
    ensures DeleteProgramOp(DeleteShaderOp(DeleteShaderOp(o, v), f), p)
         == o.(flagged := o.flagged + {v, f}, currentFlagged := true)
  {
    DeleteHeldShaderDefers(o, p, v);
    DeleteShaderKeepsConsistent(o, v);
    DeleteHeldShaderDefers(DeleteShaderOp(o, v), p, f);
  }

  /** shader_delete on shaders no program holds and a name of no program: the shaders go. */
  lemma DeleteUnheld(o: Objects, p: nat, v: nat, f: nat)
    requires Consistent(o) && p !in o.programs
    requires !Attached(o, v) && !Attached(o, f)
    ensures DeleteProgramOp(DeleteShaderOp(DeleteShaderOp(o, v), f), p) == o.(shaders := o.shaders - {v, f})
  {
    var o1 := DeleteShaderOp(o, v);
    assert o1 == o.(shaders := o.shaders - {v});
    assert !Attached(o1, f);
  }

  /**
   * The cleanup of a failed shader_init once the shaders exist: whether or
   * not the program already holds the vertex shader, shader_delete leaves
   * no trace of the new program and its shaders.
   */
  lemma AbandonProgram(o: Objects, p: nat, v: nat, f: nat, held: bool)
    requires Consistent(o) && NewProgram(o, p)
    requires v != 0 && v !in o.shaders && f !in o.shaders && f != v
    requires held ==> f != 0
    ensures var built := o.(shaders := o.shaders + {v} + (if f != 0 then {f} else {}),
                            attached := o.attached + (if held then {(p, v)} else {}));
            DeleteProgramOp(DeleteShaderOp(DeleteShaderOp(built, v), f), p) == Without(o, p)
  {
    var built := o.(shaders := o.shaders + {v} + (if f != 0 then {f} else {}),
                    attached := o.attached + (if held then {(p, v)} else {}));
    var o1 := DeleteShaderOp(built, v);
    var o2 := DeleteShaderOp(o1, f);
    if held {
      assert o1 == built.(flagged := o.flagged + {v});
      assert !Attached(o1, f);
      assert o2 == o.(shaders := o.shaders + {v}, attached := o.attached + {(p, v)}, flagged := o.flagged + {v});
      assert Released(o2, p) == {v} by {
        forall s | s in o.flagged
          ensures s !in Released(o2, p)
        {
          var a :| a in o.attached && a.1 == s;
        }
      }
      assert (set a | a in o2.attached && a.0 != p) == o.attached;
    } else {
      assert !Attached(built, v);
      assert o1 == o.(shaders := o.shaders + (if f != 0 then {f} else {}));
      assert !Attached(o1, f);
      assert o2 == o;
      DeleteBareProgram(o, p);
    }
  }

  /**
   * shader_load_source: a compiled shader, or 0; a shader that fails to
   * compile is deleted again, so nothing is left behind on failure.
   */
  method LoadSource(gpu: Driver, kind: ShaderKind, a: SourceAnswers) returns (s: nat)
    requires gpu.Valid()
    modifies gpu`next, gpu`objs, gpu`calls
    ensures gpu.Valid() && gpu.next >= old(gpu.next)
    ensures s != 0 <==> Compiles(a)
    ensures s != 0 ==> old(gpu.next) <= s < gpu.next && gpu.objs == old(gpu.objs).(shaders := old(gpu.objs).shaders + {s})
    ensures s == 0 ==> gpu.objs == old(gpu.objs)
  {
    s := gpu.CreateShader(kind, a.created);
    if s == 0 {
      return 0;
    }
    // glShaderSource and glCompileShader, then GL_COMPILE_STATUS
    if !a.compiled {
      assert !Attached(gpu.objs, s);
      gpu.DeleteShader(s);
      return 0;
    }
  }

  /** A gl_shader_t: a program, its two shaders and its two attribute locations. */
  class ShaderObject {
    var program: nat
    var vertex: nat
    var fragment: nat
    var positionLoc: int
    var texcoordLoc: int

    /** The zeroed object calloc gives. */
    constructor ()
      ensures program == 0 && vertex == 0 && fragment == 0 && positionLoc == 0 && texcoordLoc == 0
    {
      program, vertex, fragment := 0, 0, 0;
      positionLoc, texcoordLoc := 0, 0;
    }

    /**
     * shader_delete: deletes each non-zero name once, shaders first, and
     * zeroes it, so a second call deletes nothing. What the driver then
     * frees depends on what holds the objects.
     */
    method Delete(gpu: Driver)
      requires gpu.Valid()
      modifies this`vertex, this`fragment, this`program, gpu`objs, gpu`calls
      ensures gpu.Valid()
      ensures vertex == 0 && fragment == 0 && program == 0
      ensures gpu.calls == old(gpu.calls) + DeleteCalls(old(vertex), old(fragment), old(program))
      ensures gpu.objs
           == DeleteProgramOp(DeleteShaderOp(DeleteShaderOp(old(gpu.objs), old(vertex)), old(fragment)), old(program))
    {
      ghost var v, f, p := vertex, fragment, program;
      if vertex != 0 {
        gpu.DeleteShader(vertex);
        vertex := 0;
      }
      ghost var afterVertex := gpu.calls;
      assert gpu.objs == DeleteShaderOp(old(gpu.objs), v);
      if fragment != 0 {
        gpu.DeleteShader(fragment);
        fragment := 0;
      }
      ghost var afterFragment := gpu.calls;
      assert gpu.objs == DeleteShaderOp(DeleteShaderOp(old(gpu.objs), v), f);
      if program != 0 {
        gpu.DeleteProgram(program);
        program := 0;
      }
      assert afterVertex == old(gpu.calls) + (if v != 0 then [ShaderDeleted(v)] else []);
      assert afterFragment == afterVertex + (if f != 0 then [ShaderDeleted(f)] else []);
      assert gpu.calls == afterFragment + (if p != 0 then [ProgramDeleted(p)] else []);
    }

    /**
     * shader_load: the vertex shader, then the fragment shader; 0 when
     * both compile, -1 otherwise. A failing vertex shader returns before
     * the fragment field is touched, and neither failure deletes the
     * shader that did compile (the caller's cleanup does).
     */
    method Load(gpu: Driver, v: SourceAnswers, f: SourceAnswers) returns (ret: int)
      requires gpu.Valid()
      modifies this`vertex, this`fragment, gpu`next, gpu`objs, gpu`calls
      ensures gpu.Valid() && gpu.next >= old(gpu.next)
      ensures ret == (if Compiles(v) && Compiles(f) then 0 else -1)
      ensures vertex != 0 <==> Compiles(v)
      ensures vertex != 0 ==> old(gpu.next) <= vertex < gpu.next
      ensures !Compiles(v) ==> fragment == old(fragment) && gpu.objs == old(gpu.objs)
      ensures Compiles(v) ==> (fragment != 0 <==> Compiles(f))
      ensures Compiles(v) && fragment != 0 ==> old(gpu.next) <= fragment < gpu.next && fragment != vertex
      ensures Compiles(v) ==> gpu.objs == old(gpu.objs).(
        shaders := old(gpu.objs).shaders + {vertex} + (if fragment != 0 then {fragment} else {}))
    {
      vertex := LoadSource(gpu, VertexShader, v);
      if vertex == 0 {
        return -1;
      }
      fragment := LoadSource(gpu, FragmentShader, f);
      if fragment == 0 {
        return -1;
      }
      return 0;
    }

    /**
     * shader_init: create a program, load its shaders, attach them, bind
     * vPosition to attribute 0, link, put the program in use and look up the
     * attribute locations. It returns 0 once both shaders are attached; a
     * program that then fails to link is deleted while its name stays in
     * the object, so putting it in use fails and its locations are -1.
     * Every earlier failure deletes what was created, zeroes the names and
     * returns -1.
     */
    method Init(gpu: Driver, a: ProgramAnswers) returns (ret: int)
      requires gpu.Valid()
      modifies this, gpu`next, gpu`objs, gpu`calls
      ensures gpu.Valid() && gpu.next >= old(gpu.next)
      ensures ret == (if InitSucceeds(a) then 0 else -1)
      ensures program != 0 <==> ret == 0
      ensures ret == 0 ==>
        old(gpu.next) <= program < gpu.next && old(gpu.next) <= vertex < gpu.next && old(gpu.next) <= fragment < gpu.next
        && program != vertex && program != fragment && vertex != fragment
      ensures ret == 0 ==> gpu.objs == UseProgramOp(Built(old(gpu.objs), program, vertex, fragment, a.linked), program)
      ensures ret == 0 ==>
        positionLoc == (if a.linked then 0 else -1) && texcoordLoc == (if a.linked then a.texcoordLoc else -1)
      ensures ret == -1 ==> positionLoc == old(positionLoc) && texcoordLoc == old(texcoordLoc)
      ensures ret == -1 && !a.created ==>
        vertex == old(vertex) && fragment == old(fragment) && gpu.objs == old(gpu.objs)
      ensures ret == -1 && a.created ==> vertex == 0 && fragment == 0
      // a failing vertex shader leaves the old fragment name in place, and the cleanup deletes it
      ensures ret == -1 && a.created ==>
        gpu.objs == if Compiles(a.vertex) then old(gpu.objs) else DeleteShaderOp(old(gpu.objs), old(fragment))
    {
      program := gpu.CreateProgram(a.created);
      if program == 0 {
        return -1;
      }
      assert gpu.objs.(programs := gpu.objs.programs - {program}) == old(gpu.objs);
      ret := Assemble(gpu, a);
    }

    /**
     * The rest of shader_init once the program exists: the shaders, the
     * attachments, the link, the program in use and the attribute
     * locations. Every failure before the link deletes the program and
     * the shaders.
     */
    method Assemble(gpu: Driver, a: ProgramAnswers) returns (ret: int)
      requires gpu.Valid() && NewProgram(gpu.objs, program)
      modifies this, gpu`next, gpu`objs, gpu`calls
      ensures gpu.Valid() && gpu.next >= old(gpu.next)
      ensures ret == (if Compiles(a.vertex) && Compiles(a.fragment) && a.vertexAttached && a.fragmentAttached then 0 else -1)
      ensures program != 0 <==> ret == 0
      ensures ret == 0 ==>
        program == old(program) && old(gpu.next) <= vertex < gpu.next && old(gpu.next) <= fragment < gpu.next
        && vertex != fragment
      ensures ret == 0 ==> gpu.objs == UseProgramOp(Built(Without(old(gpu.objs), program), program, vertex, fragment, a.linked), program)
      ensures ret == 0 ==>
        positionLoc == (if a.linked then 0 else -1) && texcoordLoc == (if a.linked then a.texcoordLoc else -1)
      ensures ret == -1 ==> positionLoc == old(positionLoc) && texcoordLoc == old(texcoordLoc)
      ensures ret == -1 ==> vertex == 0 && fragment == 0
      ensures ret == -1 ==>
        gpu.objs == Without(if Compiles(a.vertex) then old(gpu.objs) else DeleteShaderOp(old(gpu.objs), old(fragment)), old(program))
    {
      ghost var entry, oldFragment := gpu.objs, fragment;
      ret := Load(gpu, a.vertex, a.fragment);
      if ret < 0 {
        if Compiles(a.vertex) {
          AbandonProgram(entry, program, vertex, fragment, false);
        } else {
          DeleteShaderKeepsConsistent(entry, oldFragment);
          DeleteBareProgram(DeleteShaderOp(entry, oldFragment), program);
        }
        Delete(gpu);
        return -1;
      }
      assert {vertex} + {fragment} == {vertex, fragment};
      ret := Attach(gpu, a, entry);
    }

    /**
     * The attachments of shader_init: the vertex shader, then the fragment
     * shader; a failure deletes the program and the shaders.
     */
    method Attach(gpu: Driver, a: ProgramAnswers, ghost base: Objects) returns (ret: int)
      requires gpu.Valid() && Consistent(base) && NewProgram(base, program)
      requires vertex != 0 && fragment != 0 && vertex != fragment
      requires vertex !in base.shaders && fragment !in base.shaders
      requires gpu.objs == base.(shaders := base.shaders + {vertex, fragment})
      modifies this, gpu`objs, gpu`calls
      ensures gpu.Valid() && gpu.next == old(gpu.next)
      ensures ret == (if a.vertexAttached && a.fragmentAttached then 0 else -1)
      ensures ret == 0 ==> program == old(program) && vertex == old(vertex) && fragment == old(fragment)
      ensures ret == 0 ==> gpu.objs == UseProgramOp(Built(Without(base, program), program, vertex, fragment, a.linked), program)
      ensures ret == 0 ==>
        positionLoc == (if a.linked then 0 else -1) && texcoordLoc == (if a.linked then a.texcoordLoc else -1)
      ensures ret == -1 ==> positionLoc == old(positionLoc) && texcoordLoc == old(texcoordLoc)
      ensures ret == -1 ==> program == 0 && vertex == 0 && fragment == 0 && gpu.objs == Without(base, old(program))
    {
      var ok := gpu.AttachShader(program, vertex, a.vertexAttached);
      if !ok {
        AbandonProgram(base, program, vertex, fragment, false);
        assert gpu.objs == base.(shaders := base.shaders + {vertex} + {fragment}, attached := base.attached + {});
        Delete(gpu);
        return -1;
      }
      ok := gpu.AttachShader(program, fragment, a.fragmentAttached);
      if !ok {
        AbandonProgram(base, program, vertex, fragment, true);
        assert gpu.objs == base.(shaders := base.shaders + {vertex} + {fragment}, attached := base.attached + {(program, vertex)});
        Delete(gpu);
        return -1;
      }
      Link(gpu, a, base);
      return 0;
    }

    /**
     * The end of shader_init: bind vPosition to attribute 0, link, delete a
     * program that fails to link, put the program in use and look up the
     * attribute locations.
     */
    method Link(gpu: Driver, a: ProgramAnswers, ghost base: Objects)
      requires gpu.Valid() && Consistent(base) && NewProgram(base, program)
      requires vertex != 0 && fragment != 0 && vertex != fragment
      requires vertex !in base.shaders && fragment !in base.shaders
      requires gpu.objs == base.(shaders := base.shaders + {vertex, fragment},
                                 attached := base.attached + {(program, vertex), (program, fragment)})
      modifies this`positionLoc, this`texcoordLoc, gpu`objs, gpu`calls
      ensures gpu.Valid()
      ensures gpu.objs == UseProgramOp(Built(Without(base, program), program, vertex, fragment, a.linked), program)
      ensures positionLoc == (if a.linked then 0 else -1) && texcoordLoc == (if a.linked then a.texcoordLoc else -1)
    {
      // glBindAttribLocation(program, 0, "vPosition"), then glLinkProgram and GL_LINK_STATUS
      var linked := gpu.LinkProgram(program, a.linked);
      if !linked {
        ghost var o := gpu.objs;
        gpu.DeleteProgram(program);
        assert Released(o, program) == {} by {
          forall s | s in base.flagged
            ensures s !in Released(o, program)
          {
            var h :| h in base.attached && h.1 == s;
          }
        }
        assert (set h | h in o.attached && h.0 != program) == base.attached;
      }
      gpu.UseProgram(program);
      positionLoc := gpu.GetLocation(program, 0);
      texcoordLoc := gpu.GetLocation(program, a.texcoordLoc);
    }
  }
}
