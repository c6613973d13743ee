# gles2 video output, modelled in Dafny

This project models the logic of `src/gles2.c`, the OpenGL ES 2 video
output plugin of VLC, and proves properties of that model. The plugin shows
I420 pictures in an X11 window. It uploads the three planes of each picture
into luminance textures. A deinterlacing and colour-conversion program draws
them into an RGB framebuffer texture. A scaling program then draws that
texture into a letterboxed viewport of the window.

The modules follow the parts of the plugin:

- `Geometry` (`geometry.dfy`): `compute_bounding_box`, the aspect-preserving fit of the display size into the window.
- `Events` (`events.dfy`): the `ConfigureNotify` fold of `x11_backend_handle_events`, as a function over a sequence of events.
- `Control` (`control.dfy`): the outcome table of `do_control`.
- `Extensions` (`extensions.dfy`): `opengl_have_extention` as a loop over a `seq<char>`, next to a declarative statement of what it finds.
- `Gpu` (`gpu.dfy`): an abstract OpenGL ES driver, specified by the effect of each call on the driver's state. That state holds:
  - one name allocator, and the live textures and framebuffers;
  - the shader and program objects, as sections 2.10.1 and 2.10.3 of the OpenGL ES 2.0 specification describe them: which exist, which programs are linked, which shaders are attached to which program, which objects are flagged for deletion, and the program in use;
  - `GL_UNPACK_ROW_LENGTH`, the active texture unit and the texture bindings;
  - each texture's level-0 image, the integer uniforms of each program and the framebuffer attachments;
  - a log of shader and program calls.

  Deleting a shader that a program holds, or the program in use, only flags it; it goes once nothing holds it. So what `shader_delete` frees depends on what the driver still holds.

  Its unpack rule is the one of section 3.7 of the OpenGL ES 2.0 specification, for 8-bit luminance with no alignment padding: texel (r, c) comes from `pixels[r * stride + c]`, where the stride is the row length, or the width when the row length is 0. The row length itself is not core OpenGL ES 2.0: it comes from the GL_EXT_unpack_subimage extension, and `src/gles2.c:57-60` defines the token when the headers do not.
- `Upload` (`upload.dfy`): the row-by-row compaction of `update_textures_complex`, over an `array<byte>`.
- `Shaders` (`shaders.dfy`): `gl_shader_t` as a class. Its methods are `shader_load_source`, `shader_load`, `shader_init` and `shader_delete`.
- `Renderer` (`renderer.dfy`): `opengl_es2_t` as a class. Its methods are `opengl_es2_create`, `texture_create` and the three `update_textures*` functions.
- `Vout` (`display.dfy`):
  - the state `Open` leaves behind, in a class;
  - the event loop;
  - `do_pool`, `do_display` and `do_control`.

  `do_display` keeps a trace of its externally visible steps: event drain, deinterlacing pass, scaling pass, buffer swap, picture release and subpicture deletion.

When the driver or the system answers something, the answer is a parameter of the member, so each contract covers every outcome. This applies to:
- `calloc`;
- `glCreateShader` and the compile status;
- `glCreateProgram`, the error `glGetError` reports after each attach, and the link status;
- the attribute and uniform locations;
- the extension string;
- the pool `picture_pool_NewFromFormat` builds;
- the events still queued in the X connection.

The code's quirks are modelled as written:
- A program that fails to link is deleted, but `shader_init` still returns 0. The dead name stays in the object, so its locations are -1. (See `Gpu.Driver.AttachShader` under "## Left out" for what a conforming driver then reports to the next `shader_init`.)
- When the scaling program fails, the cleanup of `opengl_es2_create` calls `shader_delete` on both objects. The three plane textures stay allocated (`Renderer.Gles2.Create` returns their names in a ghost result). A deinterlacing program that linked is still the program in use, so the driver only flags it and its two shaders, and they stay alive (`Renderer.Gles2.Create` returns them in a second ghost result).
- A picture that is not I420 with three planes is neither drawn nor released.
- When the vertex shader fails, `shader_load` returns before it touches the fragment field. The cleanup then deletes whatever fragment name the object held before.
- With an empty search string, `opengl_have_extention` is true exactly when the list is empty or ends in a space.
- `do_pool` tests only `sys->pool`. When the core's pool allocation fails, the next call creates a second framebuffer and RGB texture.

## Model

| member | source | states |
|---|---|---|
| Geometry.ComputeBoundingBox | src/gles2.c:162-192 | The viewport lies inside the window and is centred on both axes. A wider source fills the width (x = 0). A taller source fills the height (y = 0). An equal ratio gives the whole window. Its ratio is the source's, up to less than one pixel on the scaled side. |
| Geometry.LetterBox | src/gles2.c:177-181 | Wider source: full window width; the height is the floor of width · h / w, no taller than the window, and centred. |
| Geometry.PillarBox | src/gles2.c:182-186 | Taller source: full window height; the width is the floor of height · w / h, no wider than the window, and centred. |
| Geometry.BoundingBoxIsLargest | src/gles2.c:162-192 | No rectangle with exactly the source's aspect ratio that fits in the window is wider or taller than the viewport. |
| Geometry.FourByThreeInSquare | src/gles2.c:162-192 | Worked example: 4:3 in a 100×100 window gives 100×75 at y = 12. |
| Geometry.FullHdInSquare | src/gles2.c:162-192 | Worked example: 1920×1080 in an 800×800 window gives 800×450 at y = 175. |
| Events.LastConfigure | src/gles2.c:223-232 | The last ConfigureNotify of the queue: an event of the queue with no ConfigureNotify after it. None exactly when no event is a ConfigureNotify. |
| Events.Configures | src/gles2.c:223-232 | Only ConfigureNotify events of the queue. |
| Events.DrainResult | src/gles2.c:218-233 | Draining never moves the window. With no ConfigureNotify nothing changes. Otherwise the rectangle takes the size of the last one, and the viewport is the bounding box of the display size in that rectangle. |
| Events.DrainIgnoresOtherEvents | src/gles2.c:223-232 | Events other than ConfigureNotify make no difference to the outcome. |
| Events.SameLastConfigure | src/gles2.c:223-232 | Filtering out the other events keeps the last ConfigureNotify. |
| Control.DoControl | src/gles2.c:1079-1108 | Every known query succeeds and any other query fails with VLC_EGENERIC. The display-size and source-aspect queries set the viewport to the bounding box of the new size in the window, which fits in the window; the other queries keep it. |
| Control.RecomputeAgreesWithDrain | src/gles2.c:1097-1102 | A configuration query gives the viewport a ConfigureNotify of the current window size would give. Issuing it twice is the same as issuing it once. |
| Extensions.StrChr | src/gles2.c:868 | `strchr`: the first position of the character at or after `from`, or none when it does not occur. |
| Extensions.NameLength | src/gles2.c:859-871 | The length of the leading name: no space inside it, and a space or the end after it. |
| Extensions.HaveExtension | src/gles2.c:859-871 | The pointer loop answers exactly `HasExtension`: false for a NULL list, otherwise a token of the list starts with `search` followed by a space or the end (or the empty-search quirk). |
| Extensions.HasExtensionIffName | src/gles2.c:859-871 | For a non-empty search without spaces, the answer is true exactly when `search` is one of the space-separated names of the list. A name that only starts with `search` does not match. |
| Extensions.FoundAfterBoundary | src/gles2.c:862-869 | Skipping to a name boundary keeps exactly the matches after it, which is why the loop may jump with `strchr`. |
| Extensions.MatchShifted | src/gles2.c:862-866 | A match in the rest of the list after a boundary is a match of the whole list at the shifted position, and conversely. |
| Gpu.Unpack | src/gles2.c:739-740 | The unpacked image has width · height texels. |
| Gpu.UnpackAt | src/gles2.c:739-740 | Texel (r, c) of an upload is `pixels[r * stride + c]`. |
| Gpu.UnpackTight | src/gles2.c:724-725 | With the row length at 0, a tightly packed buffer is uploaded unchanged. |
| Gpu.DestroyKeepsWellAttached | src/gles2.c:486 | A program going away, with the flagged shaders only it held, leaves every attachment between existing objects and every flagged shader still held. |
| Gpu.DeleteShaderKeepsConsistent | src/gles2.c:478-482 | glDeleteShader keeps the objects consistent. |
| Gpu.DeleteProgramKeepsConsistent | src/gles2.c:486 | glDeleteProgram keeps the objects consistent. |
| Gpu.UseProgramKeepsConsistent | src/gles2.c:662 | glUseProgram keeps the objects consistent. |
| Gpu.DeleteHeldShaderDefers | src/gles2.c:478-482 | A shader attached to a program survives glDeleteShader, only flagged. |
| Gpu.DeleteCurrentDefers | src/gles2.c:486 | The program in use survives glDeleteProgram, only flagged, with everything it holds. |
| Gpu.DeleteIdleProgram | src/gles2.c:659 | A program not in use goes at once, and so does a flagged shader only it held. |
| Gpu.UseRetiresFlagged | src/gles2.c:808 | Putting another program in use retires a flagged program in use, and the flagged shaders only it held. |
| Gpu.Driver.CreateShader | src/gles2.c:496-501 | `glCreateShader`: a fresh name that becomes an existing shader, logged; or 0 when the driver fails, and nothing changes. |
| Gpu.Driver.DeleteShader | src/gles2.c:478 | The objects change as `Gpu.DeleteShaderOp` says: an attached shader is only flagged, any other shader goes, other names are ignored. The call is logged. |
| Gpu.Driver.CreateProgram | src/gles2.c:617-622 | `glCreateProgram`: a fresh name that becomes an existing program, logged; or 0 when the driver fails. |
| Gpu.Driver.DeleteProgram | src/gles2.c:486 | The objects change as `Gpu.DeleteProgramOp` says: the program in use is only flagged, another program goes with the flagged shaders only it held, other names are ignored. The call is logged. |
| Gpu.Driver.AttachShader | src/gles2.c:630-644 | No error exactly when the driver does not fail, both objects exist and the shader is not yet attached to the program. Then the attachment is added, otherwise nothing changes. The call is logged. |
| Gpu.Driver.LinkProgram | src/gles2.c:646-659 | Linked exactly when the driver says so for an existing program, whose link status becomes that answer. A name of no program changes nothing. The call is logged. |
| Gpu.Driver.GetLocation | src/gles2.c:664-665 | A location lookup gives the driver's answer for a linked program and -1 for any other name. |
| Gpu.Driver.UseProgram | src/gles2.c:662 | The objects change as `Gpu.UseProgramOp` says: 0 or a linked program becomes the program in use and a flagged predecessor goes; any other name changes nothing. |
| Gpu.Driver.GenTexture | src/gles2.c:680 | A fresh texture name that becomes live. |
| Gpu.Driver.GenFramebuffer | src/gles2.c:1029 | A fresh framebuffer name that becomes live. |
| Gpu.Driver.ActiveTexture | src/gles2.c:736 | The active unit is set. |
| Gpu.Driver.BindTexture | src/gles2.c:737 | The active unit is bound to the texture. |
| Gpu.Driver.SetRowLength | src/gles2.c:738 | The unpack row length is set. |
| Gpu.Driver.TexImageLuminance | src/gles2.c:739-740 | The bound texture gets the unpacked image, and no other texture changes. |
| Gpu.Driver.TexImageRgbStorage | src/gles2.c:1033-1035 | The bound texture gets undefined RGB storage of the given size. |
| Gpu.Driver.Uniform1i | src/gles2.c:741 | The uniform at that location of the program in use takes the value. Location -1, or no program in use, changes nothing. |
| Gpu.Driver.BindFramebuffer | src/gles2.c:1037 | The framebuffer binding is set. |
| Gpu.Driver.AttachColorTexture | src/gles2.c:1038-1039 | The bound framebuffer's colour attachment becomes the texture. |
| Upload.Compacted | src/gles2.c:713-720 | The compacted buffer has exactly line · rows bytes. |
| Upload.CompactedAt | src/gles2.c:713-720 | Byte r · line + c of the compacted buffer is byte r · stride + c of the plane, for every r < rows and c < line. |
| Upload.CompactedAtIndex | src/gles2.c:713-720 | The same, with both offsets named, by induction on the rows. |
| Upload.CompactedKeepsPrefix | src/gles2.c:716-720 | Copying one more row leaves the rows before it in place. |
| Upload.CompactedLastRow | src/gles2.c:716-720 | The last row copied is the last row of the plane. |
| Upload.CompactedStep | src/gles2.c:716-720 | One more row appends that row of the plane. |
| Upload.MemCopy | src/gles2.c:717 | `memcpy`: n bytes land at the destination offset, and the rest of the buffer is unchanged. |
| Upload.CompactRows | src/gles2.c:713-720 | After the row loop, the buffer is exactly `Compacted(plane, stride, line, rows)`. |
| Upload.StrategiesAgree | src/gles2.c:692-745 | Two uploads give the same texels: the compacted buffer with row length 0, and the pitched plane with the row length set to the stride. |
| Renderer.TextureCreate | src/gles2.c:676-690 | A fresh live texture, bound to the active unit. |
| Renderer.UploadPathsAgree | src/gles2.c:747-753 | For one plane whose visible size is the compacted size, both paths give the texture the same image. |
| Renderer.StridedImages | src/gles2.c:731-745 | One image per plane. |
| Renderer.CompactedImages | src/gles2.c:697-729 | One image per plane. |
| Renderer.PathsGiveSameImages | src/gles2.c:747-753 | When every plane's visible size matches the chroma description and its stride is positive, update_textures gives all textures the same images on either path. |
| Renderer.Gles2.Create | src/gles2.c:873-925 | Out of memory: no driver call is made. A deinterlacing failure: VLC_EGENERIC with the objects, textures and bindings as before. A scaling failure: VLC_EGENERIC, three fresh plane textures leaked with the last bound to the active unit, and the objects as before except that a linked deinterlacing program and its shaders remain, flagged, with that program in use. On success both programs are built and the scaling one is in use if it linked; the sampler locations are -1 for a program that did not link, and `hasUnpackRow` is the extension search result. |
| Renderer.Gles2.Open | src/gles2.c:881-913 | opengl_es2_create once the object is allocated, with the same outcomes as `Renderer.Gles2.Create` for the object's fields. |
| Renderer.Gles2.Complete | src/gles2.c:886-913 | Once the deinterlacing program exists: the plane textures, the scaling program, its sampler location and the extension flag, and on a scaling failure the objects as `Renderer.Gles2.InitScale` leaves them. |
| Renderer.Gles2.CheckExtensions | src/gles2.c:903-913 | `hasUnpackRow` is whether GL_EXT_unpack_subimage is listed. |
| Renderer.Gles2.InitDeint | src/gles2.c:881-884 | The deinterlacing program is built, and in use if it linked. On failure the objects are as before. |
| Renderer.Gles2.InitScale | src/gles2.c:895-898 | The scaling program is built, and in use if it linked. On failure the cleanup deletes both objects: the objects are as before opengl_es2_create, except that a linked deinterlacing program is in use, so it and its shaders survive, flagged. |
| Renderer.Gles2.CreatePlaneTextures | src/gles2.c:886-893 | Three fresh, distinct plane textures, the last bound to the active unit, each with its sampler location: -1 unless the deinterlacing program linked. |
| Renderer.Gles2.WithImagesStep | src/gles2.c:708-727 | One more plane puts its image into its own texture. |
| Renderer.Gles2.WithImagesAt | src/gles2.c:708-727 | Each plane texture ends up with its own plane's image. |
| Renderer.Gles2.WithImagesElsewhere | src/gles2.c:708-727 | Textures other than the plane textures keep their images. |
| Renderer.Gles2.PlaneBindingsStep | src/gles2.c:736-737 | Binding plane texture i on unit i extends the plane bindings of units 0 .. i-1 by unit i. |
| Renderer.Gles2.UploadStrided | src/gles2.c:736-741 | One plane on its unit: its texture is bound there and gets the strided image, the row length is the plane's stride, and the sampler of the program in use is set to the unit. |
| Renderer.Gles2.UpdateTexturesSimple | src/gles2.c:731-745 | Every plane is uploaded straight from the picture on its own unit, unit i holds texture i, the last unit is active, the samplers of the program in use are set, and the row length is 0 again at the end. |
| Renderer.Gles2.UploadCompacted | src/gles2.c:710-726 | One plane: its rows are compacted into a new buffer, whose tight upload gives the texture, bound on the plane's unit, the compacted image; the sampler of the program in use is set to the unit. |
| Renderer.Gles2.UpdateTexturesComplex | src/gles2.c:697-729 | Every plane's compacted rows, line · rows bytes by the chroma description, are uploaded on its own unit; unit i holds texture i, the last unit is active and the samplers of the program in use are set. |
| Renderer.Gles2.PlaneImages | src/gles2.c:747-753 | One image per plane from the path `hasUnpackRow` selects. |
| Renderer.Gles2.UpdateTextures | src/gles2.c:747-753 | Plane i's image is in texture i, unit i holds texture i, the last unit is active, the samplers of the program in use are set, no other texture changes, and the row length ends at 0. |
| Shaders.DeleteCalls | src/gles2.c:475-489 | One deletion per non-zero name and no others: the vertex shader first, then the fragment shader, then the program. The count is the number of non-zero names, so a second shader_delete deletes nothing. |
| Shaders.BuiltInUse | src/gles2.c:662 | With no flagged program in use, putting the new program in use makes it current when it linked and changes nothing when it did not. |
| Shaders.DeleteBareProgram | src/gles2.c:659 | A program that holds nothing and is not in use goes at once, and nothing else does. |
| Shaders.DeleteInUse | src/gles2.c:475-489 | shader_delete on the program in use, which holds both its shaders, only flags the three objects. |
| Shaders.DeleteUnheld | src/gles2.c:475-489 | shader_delete on two shaders that no program holds and a name of no program deletes exactly the two shaders. |
| Shaders.AbandonProgram | src/gles2.c:668-673 | The cleanup of shader_init once the shaders exist leaves no trace of the new program and its shaders, whether or not the vertex shader was attached. |
| Shaders.LoadSource | src/gles2.c:491-521 | A fresh shader that now exists when it compiles. Otherwise 0, and the objects are as before. |
| Shaders.ShaderObject.Delete | src/gles2.c:475-489 | All three names become 0. Exactly the non-zero ones are deleted, in order, and the objects change as the three GL deletions do in turn. |
| Shaders.ShaderObject.Load | src/gles2.c:523-610 | 0 when both shaders compile, otherwise -1. A vertex failure leaves the fragment field and the objects untouched. Otherwise the shaders that compiled are fresh and exist. |
| Shaders.ShaderObject.Init | src/gles2.c:612-674 | 0 exactly when the program is created and both shaders load and attach, whatever the link does. On 0 the program is in use and holds both shaders if it linked; a failed link leaves it deleted, the old program in use and both locations at -1. `positionLoc` is 0 for a linked program, from glBindAttribLocation. A -1 after glCreateProgram zeroes the names and leaves the objects as before, except that a vertex failure deletes the old fragment name. |
| Shaders.ShaderObject.Assemble | src/gles2.c:624-673 | The part of shader_init after glCreateProgram, with the same outcomes relative to the program already created. |
| Shaders.ShaderObject.Attach | src/gles2.c:630-644 | Both attachments, vertex then fragment. A failure deletes the new program and its shaders, leaving the objects as before the program; on success the outcome is that of the link. |
| Shaders.ShaderObject.Link | src/gles2.c:646-665 | The link, the deletion of a program that fails to link, glUseProgram and the two lookups: the program is in use with both shaders attached when it linked. Otherwise it is gone and its locations are -1. `positionLoc` is 0, the attribute index glBindAttribLocation fixed. |
| Vout.DisplayStepsOnce | src/gles2.c:1066-1076 | For an accepted picture: one drain, one deinterlacing pass, one scaling pass, one swap and one release. There is one subpicture deletion exactly when there is a subpicture. |
| Vout.RenderStepsOnce | src/gles2.c:1069-1076 | After the drain: one deinterlacing pass, one scaling pass, one swap and one release, no drain, and a subpicture deletion exactly when there is a subpicture. |
| Vout.FinishStepsOnce | src/gles2.c:1072-1076 | The finishing steps are one swap and one release, plus one subpicture deletion exactly when there is a subpicture, and no scaling pass. |
| Vout.DisplayStepsOrdered | src/gles2.c:1066-1076 | The steps happen in the order drain, deinterlace, scale, swap, release, with the subpicture deleted after the picture. |
| Vout.Display.constructor | src/gles2.c:970-973 | The viewport is the bounding box of the configured size in the window, and the format becomes I420. |
| Vout.Display.HandleEvents | src/gles2.c:218-233 | The loop leaves exactly the rectangle and viewport of the `Events.Drain` fold. |
| Vout.Display.Pool | src/gles2.c:1019-1042 | With a pool, nothing changes. Without one, the core's pool is taken, and a fresh framebuffer, left bound, has a fresh RGB texture of the format's size attached, bound to the active unit. |
| Vout.Display.CreateFramebuffer | src/gles2.c:1028-1039 | The framebuffer and its RGB texture: bound, attached, and the texture bound to the active unit with undefined storage of the format's size. |
| Vout.Display.DeinterlaceAndConvert | src/gles2.c:755-792 | Draws into the framebuffer with the deinterlacing program put in use, after update_textures: plane i's image in texture i, unit i holds it, unit 2 active, and that program's samplers set. The step is traced. |
| Vout.Display.Scale | src/gles2.c:794-831 | Draws into the window with the scaling program put in use, the RGB texture on unit 3 and that program's sampler set to 3. The step is traced with the viewport in force. |
| Vout.Display.Draw | src/gles2.c:1069-1070 | Both passes: the deinterlacing program then the scaling one in use, the planes uploaded, the window framebuffer bound, the RGB texture on unit 3, and each program's samplers set. |
| Vout.Display.Render | src/gles2.c:1069-1076 | Both passes, the deinterlacing program then the scaling one in use, then the swap, the release and the subpicture deletion, in the trace `RenderSteps`. |
| Vout.Display.Show | src/gles2.c:1055-1077 | A rejected picture changes nothing and adds no step. An accepted one drains the events and adds the `DisplaySteps` trace, whose scaling pass uses the viewport the drain left. It uploads the planes, puts the two programs in use in turn, leaves the window framebuffer bound and the RGB texture on unit 3, and sets each program's samplers. |
| Vout.Display.ShowAccepted | src/gles2.c:1066-1076 | do_display past the format check: drain, both passes and the finishing steps, with the same state as `Vout.Display.Show`. |
| Vout.Display.SamplersPerProgram | src/gles2.c:772-828 | With both programs linked and distinct and the plane samplers at distinct locations, a frame leaves each plane sampler of the deinterlacing program on its plane's unit and the scaling sampler of the scaling program on unit 3: the two programs' uniforms stay apart. |
| Vout.Display.HandleControl | src/gles2.c:1079-1108 | The status and the new viewport are those of `Control.DoControl`. |

## Left out

- X11 window creation and destruction, and reading events from the connection. The events still queued become a sequence parameter.
- EGL display, surface and context setup and teardown, and `eglSwapBuffers`. The swap is a step of the display trace.
- `quirk_close_forgotten_handles`: it scans `/proc` for file descriptors, which is operating-system I/O.
- The GLSL texts and the BT.601 conversion they compute. `Shaders.ShaderObject.Load` and `Shaders.ShaderObject.Init` take no shader type, since the type only selects the fragment text.
- Vertex arrays, `glViewport`, `glClear`, `glDrawElements`, `glClearColor` and the texture filter and wrap parameters. These calls change no state the model tracks.
- `glBindAttribLocation` is not a driver call of the model. Its only effect the plugin sees is that a linked program's `vPosition` is at attribute 0, and `Shaders.ShaderObject.Init` states `positionLoc` as 0 for a linked program.
- The `line_height` float uniform of the deinterlacing pass and its `glGetUniformLocation`: floating point.
- Module registration, the early part of `Open` (window, EGL and GL creation with its failure cleanup), `Close` and `opengl_es2_destroy`. This is teardown and library glue.
- `picture_pool_NewFromFormat`: the pool it builds is the `created` parameter of `Vout.Display.Pool`, and the unused `count` argument is dropped.
- The static chroma-description cache of `update_textures_complex`: the plane fractions are a parameter, which `Vout` sets to the I420 ones.
- Upload.StrategiesAgree: the unpack rule assumes rows are not padded. The plugin never sets `GL_UNPACK_ALIGNMENT`, so the driver uses its default of 4. A compacted line whose length is not a multiple of 4 is then read with padded rows, and the real upload reads past each line and past the buffer. The agreement of the two strategies, and `Renderer.UploadPathsAgree` and `Renderer.PathsGiveSameImages`, hold only for the unpadded rule of the model.
- `#if GL_UNPACK_ROW_LENGTH`: the model assumes the build defines it.
- `fprintf` and `msg_Err` logging.
- Picture memory is a read-only value (`Upload.Plane.pixels`), because do_display may not change it. Aliasing between a picture and the plugin's own buffers is therefore not modelled.
- Geometry.ComputeBoundingBox: the C code divides `double` ratios and truncates them to `unsigned`. The model compares the ratios exactly by cross-multiplication and floors the exact rational, so results can differ near ties. Zero display or window sizes are excluded; the C code would divide by zero there.
- Gpu.Driver.TexImageLuminance: a plane smaller than the rows it claims is excluded by a precondition, where the C code would read past the buffer.
- Renderer.Gles2.UpdateTexturesComplex: a plane shorter than the rows the chroma description gives it is excluded by the `Compactable` precondition (through `CompactReadable`), and likewise in `Renderer.Gles2.UploadCompacted` and `Upload.CompactRows`. There the `memcpy` of `update_textures_complex` would read past the picture buffer.
- Gpu.Driver.AttachShader: the error reported after each attach is a free answer of the driver, and a reported error leaves the objects as they were. In GL the error flag is sticky: `glGetError` also returns an error an earlier call left unread. After a failed link of the deinterlacing program, `glUseProgram`, `glGetAttribLocation` and `glGetUniformLocation` on the deleted name (`src/gles2.c:662-665` and `886-893`) raise errors that nothing reads before the scaling program's first attach check. The attachment itself is made, but the check reports an error, so `opengl_es2_create` fails. The model therefore allows outcomes a conforming driver never produces, such as `Renderer.Gles2.Create` succeeding after a failed deinterlacing link, and it has no state in which an attachment is made while an error is reported. The cleanup leaves the same objects either way.
- Renderer.Gles2.UpdateTextures: the `pixelPitch > 0` precondition excludes the division by zero in `i_pitch / i_pixel_pitch`.
- Gpu.Driver: the call log records only shader and program calls, and only `Shaders.ShaderObject.Delete` states its entries.
- Gpu.Driver: one monotone allocator hands out the names of every object kind, and a name is never reused. A real driver keeps separate name spaces for textures, framebuffers and shader objects and may reuse a deleted name. The freshness and distinctness the contracts state follow from this allocator.
- Renderer.Gles2.Create: it requires that no program flagged for deletion is in use. `Open` makes a new context current just before (`src/gles2.c:452-464`), so no program is in use at all.
- Vout.Display.Show: the trace records the steps and does not identify the picture or subpicture that was released.
