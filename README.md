# LwjglRenderer bookkeeping, LwjglUtils and Sound, in Dafny

This project models the bookkeeping layer of the engine's OpenGL renderer
(`LwjglRenderer`), the enum-to-constant translation helpers (`LwjglUtils`)
and the `Sound` resource holder, and proves what they promise.

OpenGL itself is an oracle: class `GL.Context` keeps an append-only log of
`Command` values and a counter that hands out fresh object names. The
compiler's info log, the framebuffer completeness check and uniform lookup
are fixed functions given when the context is made. Every behaviour of the
renderer is then a statement about its cache maps, its remembered pipeline
state, the resources' dirty flags, the frame counters and the commands
appended to the log.

Modules:

- `GL` — the command log, object names, the oracles, and Java's 32-bit `<<`.
- `Errors` — the exceptions the code throws, as `Outcome = Done | Thrown(Failure)`.
  State changed before a throw is kept, as in Java.
- `Resources` — the descriptors handed to the renderer: `Texture`, `Mesh`,
  `ShaderProgram`, `Framebuffer` (classes, since the renderer flips their
  flags), attributes and uniform values.
- `LwjglUtils` — the five total mappings with their inverses, and `GetShader`.
- `StateTracker` — setBlending, setCulling and setRenderMode as pure step
  functions over the remembered state, with their command sequences.
- `UniformLayout` — how updateUniforms lays matrices out in the scratch
  float buffer and which upload command each uniform type gets.
- `MeshUpload` — the attribute loop, index-buffer choice and draw call of
  renderMesh, as pure functions over one mesh's cache entries.
- `Renderer` — class `LwjglRenderer`: the caches as `map` fields keyed by
  object identity, `units` and the scratch buffer as arrays, and one method
  per operation, each proved against the functions above.
- `Audio` — class `Sound`.
- `Findings` — three places where the source does not do what it evidently
  means to do (see below).

## Model

| member | source | states |
|---|---|---|
| GL.Int32 | Lwjgl/src/com/graphics/render/LwjglRenderer.java:388 | the value Java keeps of an int result: always in the 32-bit range, congruent to the exact value modulo 2^32, and equal to it when it fits |
| GL.Shl | Lwjgl/src/com/graphics/render/LwjglRenderer.java:470-472 | Java's int `x << k`: a 32-bit int congruent to x * 2^k modulo 2^32, and equal to it when that fits |
| LwjglUtils.TextureFormat2int | LwjglBackend/src/com/graphics/render/LwjglUtils.java:17-30 | Red, Rgb, Rgba and Depth map to RED, RGB, RGBA and DEPTH_COMPONENT; the result is always one of these four |
| LwjglUtils.Filter2int | LwjglBackend/src/com/graphics/render/LwjglUtils.java:32-41 | Linear maps to LINEAR and Nearest to NEAREST |
| LwjglUtils.Wrap2int | LwjglBackend/src/com/graphics/render/LwjglUtils.java:43-52 | Clamp maps to CLAMP and Repeat to REPEAT |
| LwjglUtils.Primitive2int | LwjglBackend/src/com/graphics/render/LwjglUtils.java:66-75 | Triangles maps to TRIANGLES and TriangleStrp to TRIANGLE_STRIP |
| LwjglUtils.Usage2int | LwjglBackend/src/com/graphics/render/LwjglUtils.java:77-88 | Static, Dynamic and Stream map to STATIC_DRAW, DYNAMIC_DRAW and STREAM_DRAW |
| LwjglUtils.TextureFormatRoundTrip | LwjglBackend/src/com/graphics/render/LwjglUtils.java:17-30 | FormatOf inverts the mapping on every format, so the four constants are pairwise distinct; the closed enum leaves the default arm unreachable |
| LwjglUtils.FilterRoundTrip | LwjglBackend/src/com/graphics/render/LwjglUtils.java:32-41 | FilterOf inverts the filter mapping, so it is injective |
| LwjglUtils.WrapRoundTrip | LwjglBackend/src/com/graphics/render/LwjglUtils.java:43-52 | WrapOf inverts the wrap mapping, so it is injective |
| LwjglUtils.PrimitiveRoundTrip | LwjglBackend/src/com/graphics/render/LwjglUtils.java:66-75 | PrimitiveOf inverts the primitive mapping, so it is injective |
| LwjglUtils.UsageRoundTrip | LwjglBackend/src/com/graphics/render/LwjglUtils.java:77-88 | UsageOf inverts the usage mapping, so the three constants are pairwise distinct |
| LwjglUtils.GetShader | LwjglBackend/src/com/graphics/render/LwjglUtils.java:54-64 | creates one fresh shader name, sources and compiles it, and reads the log; an empty log returns that name, a non-empty one fails with the log |
| LwjglUtils.CompileCommandsShape | LwjglBackend/src/com/graphics/render/LwjglUtils.java:55-58 | the four calls of one compile, all addressed to the one new shader: created first, then sourced and compiled, and its info log read last |
| StateTracker.SetBlending | Lwjgl/src/com/graphics/render/LwjglRenderer.java:132-159 | the new state holds the requested mode; on a change of mode, blending is enabled exactly when that mode is Alpha or Additive (from every reachable state, by BlendRunCoherent) |
| StateTracker.BlendFuncFor | Lwjgl/src/com/graphics/render/LwjglRenderer.java:144-157 | Disabled gets no blend function; Alpha and Additive get exactly one BlendFunc with source factor SRC_ALPHA, whose destination factor is ONE exactly for Additive |
| StateTracker.SetBlendingCommands | Lwjgl/src/com/graphics/render/LwjglRenderer.java:132-159 | the same mode again appends nothing; Enable(BLEND) is issued exactly when blending goes from off to on and Disable(BLEND) exactly when it goes from on to off; a blend function is issued exactly when Alpha or Additive is newly selected |
| StateTracker.SetBlendingKeepsCoherence | Lwjgl/src/com/graphics/render/LwjglRenderer.java:132-159 | from a state where the enabled flag matches the mode, every call leads to such a state |
| StateTracker.SwitchAlphaAdditive | Lwjgl/src/com/graphics/render/LwjglRenderer.java:144-157 | switching between Alpha and Additive with blending on issues exactly one BlendFunc and no Enable |
| StateTracker.BlendRunCoherent | Lwjgl/src/com/graphics/render/LwjglRenderer.java:132-159 | after any sequence of calls from the initial state, blending is enabled exactly when the mode is Alpha or Additive |
| StateTracker.SetBlendingBalance | Lwjgl/src/com/graphics/render/LwjglRenderer.java:132-159 | each call keeps Enable(BLEND) and Disable(BLEND) balanced against the enabled flag |
| StateTracker.BlendRunBalanced | Lwjgl/src/com/graphics/render/LwjglRenderer.java:132-159 | over a sequence of calls from the initial state, the Enable(BLEND) count equals the Disable(BLEND) count plus one exactly when blending ends up on |
| StateTracker.BlendRunRepeat | Lwjgl/src/com/graphics/render/LwjglRenderer.java:133-134 | calling setBlending twice with the same mode ends in the same state with the same commands as calling it once |
| StateTracker.SetCulling | Lwjgl/src/com/graphics/render/LwjglRenderer.java:196-222 | the new state holds the requested mode, and culling is enabled exactly when the mode is not Disabled; the BackFace case culls back faces (corrected, see Findings) |
| StateTracker.CulledFace | Lwjgl/src/com/graphics/render/LwjglRenderer.java:207-218 | the face CullFace names is BACK exactly for BackFace and FRONT exactly for FrontFace (corrected, see Findings) |
| StateTracker.SetCullingCommands | Lwjgl/src/com/graphics/render/LwjglRenderer.java:196-222 | the same mode again appends nothing and keeps the state; culling ends enabled exactly when the new mode is not Disabled; Enable(CULL_FACE) is issued exactly on an off-to-on change and Disable exactly on an on-to-off change |
| StateTracker.SetCullingFace | Lwjgl/src/com/graphics/render/LwjglRenderer.java:207-218 | selecting BackFace or FrontFace ends with a CullFace of that face, and no other CullFace is issued |
| StateTracker.SetRenderMode | Lwjgl/src/com/graphics/render/LwjglRenderer.java:179-193 | a new mode issues exactly one PolygonMode(FRONT_AND_BACK, PolygonFillOf(m)) and is remembered; the same mode again issues nothing |
| StateTracker.PolygonFillInjective | Lwjgl/src/com/graphics/render/LwjglRenderer.java:183-190 | Fill and Wireframe get different fill modes, FILL and LINE, so the PolygonMode call determines the mode |
| StateTracker.SetRenderModeRepeat | Lwjgl/src/com/graphics/render/LwjglRenderer.java:181 | after any call, calling setRenderMode again with the same mode issues nothing |
| UniformLayout.FlattenLength | Lwjgl/src/com/graphics/render/LwjglRenderer.java:510-535 | n matrices of stride floats fill stride * n floats of the scratch buffer |
| UniformLayout.FlattenAt | Lwjgl/src/com/graphics/render/LwjglRenderer.java:513-516 | element k of matrix i sits at offset stride * i + k, as the position(stride * (i + 1)) calls place it |
| UniformLayout.FlattenAppend | Lwjgl/src/com/graphics/render/LwjglRenderer.java:513-516 | storing one more matrix appends its floats after the earlier ones |
| UniformLayout.Overflows | Lwjgl/src/com/graphics/render/LwjglRenderer.java:510-535 | only the two matrix-array types can overrun the scratch buffer |
| UniformLayout.UniformUpload | Lwjgl/src/com/graphics/render/LwjglRenderer.java:484-535 | one upload call at the looked-up location; it is glUniformMatrix3fv exactly for the Matrix3 types and glUniformMatrix4fv exactly for the Matrix4 types (corrected, see Findings) |
| UniformLayout.UniformUploadLayout | Lwjgl/src/com/graphics/render/LwjglRenderer.java:484-535 | each uniform value gets exactly one upload call; a Matrix4Array of n matrices uploads 16n floats with matrix i at 16i, a Matrix3Array 9n with matrix i at 9i, a Matrix4 exactly its 16 floats and a Matrix3 its 9 (corrected, see Findings) |
| UniformLayout.UniformsCommandsSnoc | Lwjgl/src/com/graphics/render/LwjglRenderer.java:482-484 | the commands for one more uniform are its location lookup followed by its upload |
| UniformLayout.UniformsCommandsShape | Lwjgl/src/com/graphics/render/LwjglRenderer.java:481-537 | each uniform contributes exactly two commands, and the first of them is its location lookup |
| UniformLayout.CleanPrefix | Lwjgl/src/com/graphics/render/LwjglRenderer.java:510-535 | the number of leading uniforms that fit in the 16000-float scratch buffer; the uniform after them, if any, overflows it |
| UniformLayout.CleanPrefixFirst | Lwjgl/src/com/graphics/render/LwjglRenderer.java:510-535 | the clean prefix is exactly the index of the first uniform that overflows |
| MeshUpload.AttributePassSnoc | Lwjgl/src/com/graphics/render/LwjglRenderer.java:364-431 | the attribute loop over one more attribute is the loop over the prefix extended by one iteration |
| MeshUpload.AttributeStepCount | Lwjgl/src/com/graphics/render/LwjglRenderer.java:427-430 | an iteration that completes counts exactly one attribute |
| MeshUpload.BufferStepShape | Lwjgl/src/com/graphics/render/LwjglRenderer.java:374-424 | the buffer half of one iteration counts nothing and issues one to three calls; it throws only as NullPointer and only when the host data is missing; other kinds' entries are untouched; a cached buffer is bound first and the cache kept; a new buffer takes the next fresh name, which is generated first |
| MeshUpload.ExtendGrows | Lwjgl/src/com/graphics/render/LwjglRenderer.java:364-431 | one more iteration after a throw changes nothing; otherwise it only appends commands and counts at most one more attribute |
| MeshUpload.AttributePassThrowsNull | Lwjgl/src/com/graphics/render/LwjglRenderer.java:364-431 | the only exception the attribute loop can raise is NullPointer |
| MeshUpload.AttributePassAfterThrow | Lwjgl/src/com/graphics/render/LwjglRenderer.java:364-431 | once an iteration throws, later attributes add no commands, names or counts |
| MeshUpload.AttributeStepEffect | Lwjgl/src/com/graphics/render/LwjglRenderer.java:372-430 | Normal gets no buffer but is still enabled and counted; a buffered kind seen for the first time takes one fresh name and a full BufferData; later, a dirty mesh gets BufferSubData at byte offset position << 2 and a clean one only a bind |
| MeshUpload.StepCreates | Lwjgl/src/com/graphics/render/LwjglRenderer.java:374-384 | first sight of a Position, Uv or Color buffer: generate, bind and upload the whole buffer, then drop the host data unless keepData |
| MeshUpload.StepReuses | Lwjgl/src/com/graphics/render/LwjglRenderer.java:385-389 | later sight of the buffer: bind it, and re-upload from the data's position only while the mesh is dirty |
| MeshUpload.AttributePassGrows | Lwjgl/src/com/graphics/render/LwjglRenderer.java:364-431 | the loop only adds cache entries, never changes one, and never hands out a name twice |
| MeshUpload.AttributeStepGrows | Lwjgl/src/com/graphics/render/LwjglRenderer.java:374-424 | one iteration adds at most the entry of its own kind, named with the next fresh name |
| MeshUpload.AttributeStepFills | Lwjgl/src/com/graphics/render/LwjglRenderer.java:374-424 | a completed iteration leaves a buffer cached for its kind |
| MeshUpload.AttributePassCounts | Lwjgl/src/com/graphics/render/LwjglRenderer.java:364-431 | a completed loop counts exactly the program's attributes and leaves a buffer cached for each buffered kind among them; no loop counts more than that |
| MeshUpload.AttributePassFills | Lwjgl/src/com/graphics/render/LwjglRenderer.java:364-431 | a completed loop leaves a vertex buffer cached for every buffered kind among the attributes |
| MeshUpload.DrawFollowsWidth | Lwjgl/src/com/graphics/render/LwjglRenderer.java:465-474 | int indices draw as UNSIGNED_INT at offset << 2, short as UNSIGNED_SHORT at offset << 1, byte as UNSIGNED_BYTE at offset |
| MeshUpload.IndexTypeInjective | Lwjgl/src/com/graphics/render/LwjglRenderer.java:469-474 | distinct element widths get distinct GL index types |
| MeshUpload.IndexTypeOf | Lwjgl/src/com/graphics/render/LwjglRenderer.java:469-474 | UNSIGNED_INT exactly for int indices, UNSIGNED_SHORT exactly for short and UNSIGNED_BYTE exactly for byte |
| MeshUpload.ByteOffsetScales | Lwjgl/src/com/graphics/render/LwjglRenderer.java:470-474 | an element offset within Java's range becomes a byte offset of 4, 2 or 1 bytes per element, and the shifted offset is always a 32-bit int |
| MeshUpload.IndexCommandsShape | Lwjgl/src/com/graphics/render/LwjglRenderer.java:433-461 | the index buffer is always bound; a name is generated exactly when none was cached; indices are uploaded when present and the buffer is new or the mesh dirty |
| MeshUpload.DrawCommandsShape | Lwjgl/src/com/graphics/render/LwjglRenderer.java:465-476 | one glDrawElements with the translated primitive and the mesh's count when the mesh has indices, and no draw call otherwise |
| Renderer.BindLocationsCover | Lwjgl/src/com/graphics/render/LwjglRenderer.java:289-291 | every attribute kind gets its location bound, one command per kind, and none of them is a link |
| Renderer.ProgramBindsBeforeLink | Lwjgl/src/com/graphics/render/LwjglRenderer.java:284-293 | the program is created, both shaders attached and every location bound before the single link, which comes last |
| Renderer.BindAllLocations | Lwjgl/src/com/graphics/render/LwjglRenderer.java:289-291 | the loop appends the bind commands of all attribute kinds in declaration order |
| Renderer.TexImageCommands | Lwjgl/src/com/graphics/render/LwjglRenderer.java:243-244 | TexImage2D with the texture's host pixels, then GenerateMipmap, and no framebuffer-level call |
| Renderer.TexParamCommands | Lwjgl/src/com/graphics/render/LwjglRenderer.java:256-259 | exactly four texture parameters, covering the MAG and MIN filters and the S and T wraps, and no framebuffer-level call |
| Renderer.ColorAttachments | Lwjgl/src/com/graphics/render/LwjglRenderer.java:349-351 | the draw-buffer list for n targets is COLOR_ATTACHMENT0 + i at position i, for i below n |
| Renderer.FramebufferOpsMembers | Lwjgl/src/com/graphics/render/LwjglRenderer.java:325-353 | the framebuffer-level filter keeps exactly the binds, attachments, status checks and draw-buffer calls of a log segment |
| Renderer.FramebufferOpsAppend | Lwjgl/src/com/graphics/render/LwjglRenderer.java:325-353 | filtering the framebuffer-level calls distributes over concatenation, so per-phase results compose |
| Renderer.FramebufferOpsNone | Lwjgl/src/com/graphics/render/LwjglRenderer.java:229-263 | a segment of texture work has no framebuffer-level calls to keep |
| Renderer.ColorOpsAt | Lwjgl/src/com/graphics/render/LwjglRenderer.java:329-333 | in the colour pass, entry i attaches target i at COLOR_ATTACHMENT0 + i under its GL name |
| Renderer.DepthOps | Lwjgl/src/com/graphics/render/LwjglRenderer.java:335-339 | no depth target gives no attachment; a depth target gives exactly one DEPTH_ATTACHMENT under its GL name |
| Renderer.RebuildOps | Lwjgl/src/com/graphics/render/LwjglRenderer.java:327-346 | a rebuild issues one call per colour target plus the depth attachment if any and then the status check; the colour attachments come first and the check last |
| Renderer.ColorsSnoc | Lwjgl/src/com/graphics/render/LwjglRenderer.java:329-333 | attaching target i after texture work extends the in-order attached prefix of the targets by exactly target i |
| Renderer.OpsSnoc | Lwjgl/src/com/graphics/render/LwjglRenderer.java:330-338 | a framebuffer-level call issued after texture work is the only framebuffer-level call added |
| Renderer.RebuildOpsOf | Lwjgl/src/com/graphics/render/LwjglRenderer.java:327-346 | a colour pass, a depth pass and the status check together issue exactly what RebuildOps describes |
| Renderer.RebuildLog | Lwjgl/src/com/graphics/render/LwjglRenderer.java:327-346 | a log made of the colour pass, the depth pass and the status check is a rebuild whose check answered what the oracle says of the attached framebuffer |
| Renderer.RebuildOpsAt | Lwjgl/src/com/graphics/render/LwjglRenderer.java:327-346 | RebuildOps call by call: target i at COLOR_ATTACHMENT0 + i, the depth target right after them, and nothing but attachments and the status check |
| Renderer.RebuiltInOrder | Lwjgl/src/com/graphics/render/LwjglRenderer.java:327-346 | in a rebuild's log segment the i-th framebuffer-level call attaches target i at COLOR_ATTACHMENT0 + i, the depth attachment follows them, and no framebuffer bind or draw-buffer call falls between the start and the status check |
| Renderer.DeleteCommandsShape | Lwjgl/src/com/graphics/render/LwjglRenderer.java:550-563 | one delete command per enumerated key, deleting that key's cached name |
| Renderer.DeletesAllCount | Lwjgl/src/com/graphics/render/LwjglRenderer.java:550-563 | deleting a cache in any enumeration of its keys issues exactly as many deletes as the cache has entries |
| Renderer.DeletesAllCovers | Lwjgl/src/com/graphics/render/LwjglRenderer.java:550-563 | every cached name is deleted |
| Renderer.DeletesOnlyCached | Lwjgl/src/com/graphics/render/LwjglRenderer.java:550-563 | every delete is of the cache's own object kind and of a name in that cache |
| Renderer.LwjglRenderer.constructor | Lwjgl/src/com/graphics/render/LwjglRenderer.java:47-77 | all caches empty, all units empty, no mode remembered, blending and culling off, no program in use, counters zero |
| Renderer.LwjglRenderer.BeginFrame | Lwjgl/src/com/graphics/render/LwjglRenderer.java:95-101 | the counters are reset, and the allocated counts are the cache sizes, with vertex buffers counted as positions plus colours (uv excluded) |
| Renderer.LwjglRenderer.SetBlending | Lwjgl/src/com/graphics/render/LwjglRenderer.java:132-159 | the remembered blend state and the log follow StateTracker.SetBlending |
| Renderer.LwjglRenderer.SetDepth | Lwjgl/src/com/graphics/render/LwjglRenderer.java:161-166 | appends Enable(DEPTH_TEST) or Disable(DEPTH_TEST) |
| Renderer.LwjglRenderer.SetColorMask | Lwjgl/src/com/graphics/render/LwjglRenderer.java:169-172 | appends the colour mask |
| Renderer.LwjglRenderer.SetDepthMask | Lwjgl/src/com/graphics/render/LwjglRenderer.java:174-177 | appends the depth mask |
| Renderer.LwjglRenderer.SetRenderMode | Lwjgl/src/com/graphics/render/LwjglRenderer.java:179-193 | the remembered render mode and the log follow StateTracker.SetRenderMode |
| Renderer.LwjglRenderer.SetCulling | Lwjgl/src/com/graphics/render/LwjglRenderer.java:196-222 | the remembered cull state and the log follow StateTracker.SetCulling (corrected, see Findings) |
| Renderer.LwjglRenderer.UploadTexture | Lwjgl/src/com/graphics/render/LwjglRenderer.java:240-260 | pixels are uploaded while dataDirty, parameters while paramsDirty, and each flag is cleared after its upload; a missing host buffer without keepData throws NullPointer with dataDirty still set; it appends no framebuffer-level call |
| Renderer.LwjglRenderer.UploadPixels | Lwjgl/src/com/graphics/render/LwjglRenderer.java:240-253 | TexImage2D with the translated format and a mipmap; the host data is dropped unless keepData, and dataDirty is cleared; it appends no framebuffer-level call |
| Renderer.LwjglRenderer.UploadParams | Lwjgl/src/com/graphics/render/LwjglRenderer.java:255-261 | the four texture parameters in the source's order, then paramsDirty is cleared; it appends no framebuffer-level call |
| Renderer.LwjglRenderer.ResolveTexture | Lwjgl/src/com/graphics/render/LwjglRenderer.java:229-234 | a texture seen for the first time gets one fresh name and is marked dataDirty; a cached texture keeps its name |
| Renderer.LwjglRenderer.ResolveAndBind | Lwjgl/src/com/graphics/render/LwjglRenderer.java:229-239 | the name is resolved, the unit activated, the texture bound and textureSwitch raised by one; it appends no framebuffer-level call |
| Renderer.LwjglRenderer.SetTexture | Lwjgl/src/com/graphics/render/LwjglRenderer.java:225-264 | a unit outside units[] throws and changes nothing, units included; the same texture in the same unit with clean data changes nothing and appends nothing; otherwise a first sight allocates exactly one name and forces the pixel upload, textureSwitch rises by one, and on success both flags are clear, units[unit] is the texture and the host data is dropped unless keepData; it appends no framebuffer-level call |
| Renderer.LwjglRenderer.BindTextureUnit | Lwjgl/src/com/graphics/render/LwjglRenderer.java:229-263 | setTexture past its early exits, with the exact command log it appends on success and on a missing host buffer; it appends no framebuffer-level call |
| Renderer.LwjglRenderer.CreateProgram | Lwjgl/src/com/graphics/render/LwjglRenderer.java:281-298 | a vertex compile failure throws after one shader, a fragment failure after two, and neither touches the caches; success creates the program, binds every location before the link, and adds one entry to each of programs, verts and frags |
| Renderer.LwjglRenderer.LinkStages | Lwjgl/src/com/graphics/render/LwjglRenderer.java:284-293 | one fresh program name and exactly the create, attach, bind and link commands |
| Renderer.LwjglRenderer.Remember | Lwjgl/src/com/graphics/render/LwjglRenderer.java:295-297 | the three program caches gain the program's entry together |
| Renderer.LwjglRenderer.SetShaderProgram | Lwjgl/src/com/graphics/render/LwjglRenderer.java:267-304 | the program in use again is a no-op; null issues UseProgram(0), sets used to null and usedId to 0 and counts a switch; a cached program is used with no new names; a new one is built once, then used and counted; a vertex compile failure appends exactly its four compile calls and uses one name, a fragment failure the eight calls of both compiles and two names, and either leaves caches, counters and the current program alone |
| Renderer.LwjglRenderer.BuildAndUse | Lwjgl/src/com/graphics/render/LwjglRenderer.java:279-303 | the new-program branch: three fresh names (vertex, fragment, program), the full command sequence, the cache entries and the switch count; on a compile failure exactly the compile calls up to the failing stage and one or two names, with nothing cached, counted or made current |
| Renderer.LwjglRenderer.UseHandle | Lwjgl/src/com/graphics/render/LwjglRenderer.java:300-303 | UseProgram(handle), one more shader switch, and the program and its name remembered |
| Renderer.LwjglRenderer.ResolveFramebuffer | Lwjgl/src/com/graphics/render/LwjglRenderer.java:317-323 | a framebuffer seen for the first time gets one fresh name and is marked dirty; a cached one keeps its name |
| Renderer.LwjglRenderer.BindFbo | Lwjgl/src/com/graphics/render/LwjglRenderer.java:317-326 | the name is resolved and bound and fboSwitch rises by one; the framebuffer is dirty afterwards exactly when it was new or already dirty |
| Renderer.LwjglRenderer.AttachColorTargets | Lwjgl/src/com/graphics/render/LwjglRenderer.java:329-333 | on success the framebuffer-level calls it appends are exactly target i attached at COLOR_ATTACHMENT0 + i, in order, under the name the texture cache holds for it, with only texture work in between; texture names are only ever added |
| Renderer.LwjglRenderer.AttachDepthTarget | Lwjgl/src/com/graphics/render/LwjglRenderer.java:335-339 | no depth texture changes nothing; otherwise on success its only framebuffer-level call is the depth attachment under its cached name |
| Renderer.LwjglRenderer.RebuildFramebuffer | Lwjgl/src/com/graphics/render/LwjglRenderer.java:327-346 | on success the framebuffer-level calls it appends are exactly RebuildOps (colour targets in order, depth, status check), the check found the framebuffer complete and dirty is cleared; an incomplete status throws with the same calls and dirty still set |
| Renderer.LwjglRenderer.CheckRebuilt | Lwjgl/src/com/graphics/render/LwjglRenderer.java:341-345 | the status check ends the rebuild; complete clears dirty, incomplete throws FramebufferIncomplete with dirty still set |
| Renderer.LwjglRenderer.RebuildAndDraw | Lwjgl/src/com/graphics/render/LwjglRenderer.java:327-354 | the rebuild, exactly RebuildOps at framebuffer level, followed on success by the draw-buffer list as the last call |
| Renderer.LwjglRenderer.FinishFramebuffer | Lwjgl/src/com/graphics/render/LwjglRenderer.java:327-354 | a clean framebuffer only gets its draw-buffer list: no attachment and no status check; a dirty one is rebuilt first, with exactly the RebuildOps calls, starting right after the bind |
| Renderer.LwjglRenderer.SelectFramebuffer | Lwjgl/src/com/graphics/render/LwjglRenderer.java:317-354 | the name is cached and bound and fboSwitch counted before anything else; of the counters only fboSwitch and, through the rebuild's texture binds, textureSwitch change; a new or dirty framebuffer is then rebuilt with exactly the RebuildOps calls at framebuffer level; a complete one ends clean with its draw-buffer list, an incomplete one throws still dirty; a clean one changes only fboSwitch and appends only the bind and the draw-buffer list |
| Renderer.LwjglRenderer.SetFramebuffer | Lwjgl/src/com/graphics/render/LwjglRenderer.java:311-355 | null binds 0 and leaves the counters and caches alone; any other framebuffer is bound, counted in fboSwitch with every other counter but textureSwitch kept, and, when new or dirty, rebuilt with its colour targets attached in order, its depth target, and the status check, nothing else at framebuffer level in between |
| Renderer.LwjglRenderer.SetDrawBuffers | Lwjgl/src/com/graphics/render/LwjglRenderer.java:348-354 | glDrawBuffers over COLOR_ATTACHMENT0 .. COLOR_ATTACHMENT0 + n - 1 (corrected, see Findings) |
| Renderer.LwjglRenderer.StoreMatrix | Lwjgl/src/com/graphics/render/LwjglRenderer.java:514 | the matrix's floats are stored at the given offset, and the floats before it are untouched |
| Renderer.LwjglRenderer.StoreMatrices | Lwjgl/src/com/graphics/render/LwjglRenderer.java:511-517 | the array fits exactly when stride * n floats fit in the buffer, and then the buffer's prefix is the matrices laid end to end |
| Renderer.LwjglRenderer.UploadUniform | Lwjgl/src/com/graphics/render/LwjglRenderer.java:484-536 | throws exactly when a matrix array overruns the buffer, appending nothing; otherwise appends the upload UniformUpload describes (corrected, see Findings) |
| Renderer.LwjglRenderer.UpdateUniform | Lwjgl/src/com/graphics/render/LwjglRenderer.java:483-536 | looks the location up, then uploads the value there (corrected, see Findings) |
| Renderer.LwjglRenderer.UpdateUniforms | Lwjgl/src/com/graphics/render/LwjglRenderer.java:480-538 | every uniform in order, each lookup then upload; the first overrun throws after its lookup, leaving the earlier uniforms uploaded (corrected, see Findings) |
| Renderer.LwjglRenderer.UpdateUniformList | Lwjgl/src/com/graphics/render/LwjglRenderer.java:482-537 | the loop over one program's uniforms: it completes exactly when no uniform overruns matbuffer, and otherwise stops right after the first overrun's location lookup (corrected, see Findings) |
| Renderer.LwjglRenderer.UploadVbo | Lwjgl/src/com/graphics/render/LwjglRenderer.java:374-389 | the vertex-buffer half of one iteration on the live cache and mesh, with a null host buffer throwing NullPointer where the source dereferences it |
| Renderer.LwjglRenderer.BufferAttribute | Lwjgl/src/com/graphics/render/LwjglRenderer.java:372-425 | the cache, mesh data and log follow MeshUpload.BufferStep for the attribute's own cache; the other caches change only at this mesh |
| Renderer.LwjglRenderer.AttributeIteration | Lwjgl/src/com/graphics/render/LwjglRenderer.java:366-430 | one iteration follows MeshUpload.AttributeStep |
| Renderer.LwjglRenderer.PassStep | Lwjgl/src/com/graphics/render/LwjglRenderer.java:365-431 | the loop so far, extended by one attribute, follows MeshUpload.Extend |
| Renderer.LwjglRenderer.BindAttributes | Lwjgl/src/com/graphics/render/LwjglRenderer.java:364-431 | the whole attribute loop follows MeshUpload.AttributePass, and vboCount rises by the pass's count |
| Renderer.LwjglRenderer.BindIndices | Lwjgl/src/com/graphics/render/LwjglRenderer.java:433-461 | a mesh without an index buffer gets one fresh name and its indices uploaded by width; a cached one is bound and re-uploaded from its position only while the mesh is dirty |
| Renderer.LwjglRenderer.DrawMesh | Lwjgl/src/com/graphics/render/LwjglRenderer.java:465-474 | the draw call MeshUpload.DrawCommands describes for the index width |
| Renderer.LwjglRenderer.IndexAndDraw | Lwjgl/src/com/graphics/render/LwjglRenderer.java:433-476 | the index buffer, then dirty cleared, then the draw, and vertices raised by the mesh's length |
| Renderer.LwjglRenderer.DrawPhase | Lwjgl/src/com/graphics/render/LwjglRenderer.java:364-476 | an attribute failure stops the call with the index cache and dirty flag unchanged; otherwise vboCount rises by the attribute count, vertices by the length, and the mesh ends clean |
| Renderer.LwjglRenderer.RenderWithProgram | Lwjgl/src/com/graphics/render/LwjglRenderer.java:362-476 | uniforms, then attributes, then indices and the draw, stopping at the first throw |
| Renderer.LwjglRenderer.RenderMesh | Lwjgl/src/com/graphics/render/LwjglRenderer.java:358-478 | with no program in use nothing is appended or changed; otherwise uniforms, attribute loop, index buffer and draw, with the counters and caches each throw leaves behind |
| Renderer.LwjglRenderer.DeleteAll | Lwjgl/src/com/graphics/render/LwjglRenderer.java:551-562 | visits every key of one cache exactly once and deletes its name |
| Renderer.LwjglRenderer.Destroy | Lwjgl/src/com/graphics/render/LwjglRenderer.java:550-563 | deletes every cached texture, buffer, program, shader and framebuffer name, cache by cache in the source's order |
| Renderer.LwjglRenderer.EndFrame | Lwjgl/src/com/graphics/render/LwjglRenderer.java:541-547 | appends the error check |
| Audio.Sound.constructor | Framework/src/tpa/audio/Sound.java:16-30 | no samples, 16000 Hz, mono, dirty |
| Audio.Sound.SetStereo | Framework/src/tpa/audio/Sound.java:36-39 | stores the flag and sets dirty; nothing else changes |
| Audio.Sound.SetSamples | Framework/src/tpa/audio/Sound.java:53-58 | null throws IllegalArgument and changes nothing; otherwise stores the buffer and sets dirty |
| Audio.Sound.SetDirty | Framework/src/tpa/audio/Sound.java:91-93 | changes only the dirty flag |
| Audio.Sound.SetSamplingRate | Framework/src/tpa/audio/Sound.java:107-110 | stores the rate and sets dirty |
| Findings.SetCullingAsWritten | Lwjgl/src/com/graphics/render/LwjglRenderer.java:196-222 | setCulling as written, with the BackFace case falling through into FrontFace; the mode is still remembered |
| Findings.BackFaceCullsFront | Lwjgl/src/com/graphics/render/LwjglRenderer.java:207-218 | as written, BackFace issues CullFace(BACK) and then CullFace(FRONT), so front faces end up culled |
| Findings.CullingDiffersOnlyOnBackFace | Lwjgl/src/com/graphics/render/LwjglRenderer.java:196-222 | the as-written and corrected setCulling agree exactly except on a change to BackFace |
| Findings.ClearFloats | Lwjgl/src/com/graphics/render/LwjglRenderer.java:506 | clear() puts the position at 0 and the limit at capacity |
| Findings.StoreAtPosition | Lwjgl/src/com/graphics/render/LwjglRenderer.java:507 | Matrix3f.get stores the 9 floats at the position without moving it |
| Findings.FlipFloats | Lwjgl/src/com/graphics/render/LwjglRenderer.java:507 | flip() puts the limit at the position and the position at 0 |
| Findings.Matrix3Marshal | Lwjgl/src/com/graphics/render/LwjglRenderer.java:504-509 | as written, the floats handed to glUniformMatrix3fv for a single Matrix3 are none at all |
| Findings.Matrix3MarshalFixed | Lwjgl/src/com/graphics/render/LwjglRenderer.java:504-509 | with the position moved past the stored floats before flip(), the upload is exactly the matrix |
| Findings.Matrix3UploadsNothing | Lwjgl/src/com/graphics/render/LwjglRenderer.java:504-509 | as written, a Matrix3 uniform is uploaded with no floats at all |
| Findings.Matrix3MarshalFixedUploads | Lwjgl/src/com/graphics/render/LwjglRenderer.java:504-519 | with the position moved past the 9 floats before flip(), the upload is exactly the matrix, which is what UniformUpload issues |
| Findings.FreshDrawBuffer | Lwjgl/src/com/graphics/render/LwjglRenderer.java:306-308 | drawBuffers starts with position 0 and limit 32 |
| Findings.PutFrom | Lwjgl/src/com/graphics/render/LwjglRenderer.java:350-351 | successful puts keep the limit and capacity and advance the position by one per put |
| Findings.SetDrawBuffersAsWritten | Lwjgl/src/com/graphics/render/LwjglRenderer.java:348-354 | put the n attachments, flip, upload; the buffer stays well formed |
| Findings.PutFromEffect | Lwjgl/src/com/graphics/render/LwjglRenderer.java:350-351 | the puts succeed exactly when the limit leaves room for all of them, and write COLOR_ATTACHMENT0 + j at j |
| Findings.DrawBuffersOverflowIff | Lwjgl/src/com/graphics/render/LwjglRenderer.java:348-354 | as written, a call overflows exactly when it puts more attachments than the limit left by the previous call's flip() |
| Findings.StaleDrawBufferLimit | Lwjgl/src/com/graphics/render/LwjglRenderer.java:348-354 | a framebuffer with no colour target followed by one with a single target overflows on the second call |
| Findings.DrawBuffersFixedUploads | Lwjgl/src/com/graphics/render/LwjglRenderer.java:348-354 | with clear() first, every call with at most 32 targets uploads exactly the list SetDrawBuffers issues |
| Findings.SetDrawBuffersFixed | Lwjgl/src/com/graphics/render/LwjglRenderer.java:348-354 | with clear() first, a call succeeds exactly when the n attachments fit in the buffer, and then uploads COLOR_ATTACHMENT0 .. n - 1 with limit n |

## Left out

- The renderer's listener, `setListener`, `getListener` and `getStatistics` only pass values through.
- `beginFrame` and `endFrame` notify the listener. That notification is not modelled.
- `clearColor`, `clearBuffers`, `clearColorBuffer`, `clearDepthBuffer` and `viewport` (lines 107-131) are single pass-through GL calls and are not part of this model.
- The constructor queries `GL_MAX_TEXTURE_IMAGE_UNITS` and prints to `System.err`. The unit count is a constructor parameter instead, and the print is dropped.
- `endFrame` calls `GLUtil.checkGLError`, which is foreign. It is a single `CheckError` command, and `debug` is taken as always true.
- GL itself is an oracle: rasterisation, real handle values, numeric constants (opaque distinct tokens), the compiler, framebuffer completeness and uniform locations.
- The link status of a program is not checked, because the source does not query it.
- Floating-point values are opaque 32-bit patterns. Only where they are stored is modelled.
- Java NIO buffer state is modelled only for the two scratch buffers in Findings. Elsewhere a host buffer is its contents and position.
- `null` mode arguments to setBlending, setCulling and setRenderMode, and `setTexture(unit, null)`, throw NullPointerException in the source. They are not modelled, because the mode types have no null.
- HashMap and HashSet iteration order is not modelled. Uniforms are visited in the program's sequence order.
- Renderer.LwjglRenderer.Destroy: each cache's deletions are proved for some enumeration of its keys, not for the particular order a HashMap would visit them in.
- Renderer.LwjglRenderer.RenderMesh: when a mesh's keepData is false, the index buffer's host copy is never dropped. The source does not drop it either.
- Renderer.LwjglRenderer.SetDrawBuffers: more than 32 colour targets would overflow drawBuffers' capacity. That overflow is not modelled, but Findings models the buffer's capacity.
- `getSamples(Class<T>)` is an unchecked cast of the same value that `GetSamples` returns.
- Stats counters are unbounded integers. Java's 32-bit wrap-around of `stats.vertices` after 2^31 vertices is not modelled.
- The application classes that drive the renderer are not part of this model: the activities and the materials with their GLSL sources.
- The Attribute, Texture, Mesh, ShaderProgram, Framebuffer and RenderStats classes are not part of this model. Their fields are taken from how the renderer uses them. Attribute ids are declaration ordinals, and sizes and GLSL names are given per kind.
- The caches-only-grow invariant is stated per method:
  - `Grows` on the texture cache through every texture and framebuffer operation;
  - `OnlyAt` on the vertex-buffer caches through renderMesh;
  - exact single-entry updates on the program, index-buffer and framebuffer caches.
- Culling, the single Matrix3 upload and the draw-buffer list are modelled in their corrected form, and the rest of the model uses that form. The as-written forms are in Findings.
- Renderer.LwjglRenderer.SetCulling: follows the corrected StateTracker.SetCulling, so a change to BackFace ends with CullFace(BACK). The source falls through and ends with CullFace(FRONT); Findings.SetCullingAsWritten models that.
- Renderer.LwjglRenderer.UploadUniform: a single Matrix3 uploads its 9 floats, as the corrected UniformUpload says. The source uploads none; Findings.Matrix3Marshal models that. UpdateUniform, UpdateUniforms and UpdateUniformList inherit the difference.
- `matbuffer` and `drawBuffers` are `private static` in the source, so all renderer instances share them, and the stale draw-buffer limit of Findings carries from one instance to the next. The model gives each instance its own scratch buffer and uploads the corrected draw-buffer list.

## Findings

| source | as written | input that shows it | evidently intended | confidence | as-written member | corrected member |
|---|---|---|---|---|---|---|
| Lwjgl/src/com/graphics/render/LwjglRenderer.java:207-218 | the BackFace case of setCulling has no `break`, so it falls through and issues `glCullFace(GL_FRONT)` after `glCullFace(GL_BACK)` | `setCulling(BackFace)` from any other mode: the last CullFace is FRONT | BackFace culls back faces: the last CullFace is BACK | not executed | Findings.SetCullingAsWritten, Findings.BackFaceCullsFront | StateTracker.SetCulling, StateTracker.SetCullingFace |
| Lwjgl/src/com/graphics/render/LwjglRenderer.java:504-509 | the Matrix3 case calls `mat3.get(matbuffer).flip()`; `get` does not advance the position, so `flip()` sets the limit to 0 | any single Matrix3 uniform: glUniformMatrix3fv receives no floats | upload the 9 floats, as the Matrix3Array case does by setting the position before `flip()` | not executed | Findings.Matrix3Marshal, Findings.Matrix3UploadsNothing | Findings.Matrix3MarshalFixed, Findings.Matrix3MarshalFixedUploads, UniformLayout.UniformUpload |
| Lwjgl/src/com/graphics/render/LwjglRenderer.java:306-354 | the static `drawBuffers` is flipped after every fill but never cleared, so the next fill is capped by the previous call's target count | a framebuffer with no colour target, then one with one target: the second `put` throws BufferOverflowException | clear the buffer before each fill; every call uploads COLOR_ATTACHMENT0 .. n - 1 | not executed | Findings.SetDrawBuffersAsWritten, Findings.StaleDrawBufferLimit | Findings.SetDrawBuffersFixed, Findings.DrawBuffersFixedUploads, Renderer.LwjglRenderer.SetDrawBuffers |
