# Shader playground, modelled in Dafny

This project models the interactive shader playground of the portfolio site. The playground is a full-screen WebGL shader driven by a record of numeric parameters and a `paused` flag. A floating control panel edits the record. The panel can be dragged, collapsed and exported.

The model covers the plumbing between the record and the shader:

- which parameter ends up in which uniform slot of the material, and when;
- how the animation clock advances, pauses and resumes;
- how the window size and pixel ratio become the resolution uniform;
- how the pointer is normalised;
- the panel's slider table and its own state: position, drag gesture, collapse and open sections.

The project has six modules, one per file:

| file | module | what it holds |
|---|---|---|
| `geometry.dfy` | `Geometry` | pairs of reals: panel and pointer positions, two-component shader values |
| `uniforms.dfy` | `Uniforms` | `ShaderUniforms` (the record), `DEFAULT_UNIFORMS`, the typed edit behind `updateUniform`, reset |
| `frame_clock.dfy` | `FrameClock` | `lastFrameRef`, `timeRef`, `pausedRef` and one run of `animate` |
| `render_engine.dfy` | `RenderEngine` | material slots, the uniform-sync effect, resize, pointer, mount, unmount, frame |
| `control_panel.dfy` | `ControlPanel` | the slider table, readout precision, pause button, export, drag, collapse, sections |
| `playground.dfy` | `Playground` | the page as one state machine over all the events, with its invariant |

Numbers are Dafny reals, not IEEE doubles. Window extents are positive reals. The WebGL objects (renderer, scene, camera, geometry) are reduced to whether a surface is mounted. The material is a map from slot to value.

The component runs the refs effect when `paused` or `pixelRatio` changes, and the uniform-sync effect on every new record, in that order; the mount effect sits between them on first render. `Playground.Commit` runs both after every change to the record. For a change to any other key the extra refs run writes back the values the refs already hold, so it changes nothing (`RenderEngine.SyncRefsNeedsOnlyItsDependencies`).

The central invariant is `Playground.Consistent`. It holds when:

- the refs mirror the record;
- while mounted, every material slot exists;
- every parameter slot carries the value the reference table `RenderEngine.Feeds` assigns it;
- the resolution equals the window size times the pixel ratio.

The invariant holds from the first render and every event keeps it. It is a statement about the page between events; `Playground.Commit` under "Left out" names the one-frame window inside a record change that it does not cover.

Four behaviours of the code are easy to misread:

- The exported configuration holds all twenty keys, `paused` and `pixelRatio` included.
- The normalised pointer is not clamped to the unit square.
- The component catches no errors. Failures of its foreign calls (creating the WebGL renderer, writing to the clipboard) propagate and are not modelled.
- Mounting again clears `lastFrameRef` but not `timeRef`, so accumulated shader time survives a remount.

## Model

| member | source | states |
|---|---|---|
| Uniforms.AllKeysEnumerate | src/components/shader-playground/ShaderPlayground.tsx:8-34 | The record has exactly twenty keys, listed in declaration order; each key sits at its own index and each index names its key. |
| Uniforms.AllKeysDistinct | src/components/shader-playground/ShaderPlayground.tsx:8-34 | No key of the record is listed twice. |
| Uniforms.Extensionality | src/components/shader-playground/ShaderPlayground.tsx:8-34 | Two records that agree on every key are the same record. |
| Uniforms.UpdateUniform | src/components/shader-playground/ShaderPlayground.tsx:75-77 | `updateUniform(key, value)` yields a record whose edited key reads the new value and whose every other key reads as before. |
| Uniforms.UpdateWithCurrentValue | src/components/shader-playground/ShaderPlayground.tsx:75-77 | Writing a key's current value gives back the same record. |
| Uniforms.LastWriteWins | src/components/shader-playground/ShaderPlayground.tsx:75-77 | Two writes to the same key leave only the second. |
| Uniforms.DistinctWritesCommute | src/components/shader-playground/ShaderPlayground.tsx:75-77 | Writes to different keys can be done in either order. |
| Uniforms.ResetUniforms | src/components/shader-playground/ShaderPlayground.tsx:79-81 | `resetUniforms` makes every key read its `DEFAULT_UNIFORMS` value; `Uniforms.ResetForgetsPriorState` pins that the prior record plays no part. |
| Uniforms.ResetForgetsPriorState | src/components/shader-playground/ShaderPlayground.tsx:79-81 | Reset gives the defaults whatever the record was, and resetting twice is resetting once. |
| FrameClock.Remount | src/components/shader-playground/ShaderPlayground.tsx:161 | The mount effect clears the stored frame timestamp and keeps the accumulated time and the paused flag; `FrameClock.FirstFrameHasZeroDelta` pins its effect on the next frame. |
| FrameClock.Delta | src/components/shader-playground/ShaderPlayground.tsx:166-167 | With no stored timestamp the delta is zero; otherwise it is the elapsed milliseconds over 1000; `FrameClock.RunningFrameAdvancesByElapsed` pins how it enters the time. |
| FrameClock.Step | src/components/shader-playground/ShaderPlayground.tsx:163-172 | A frame records its timestamp as the last frame and never changes the paused flag. |
| FrameClock.RunFrames | src/components/shader-playground/ShaderPlayground.tsx:163-180 | Over a sequence of frames the last frame is the last timestamp, pause is held, and no frames leave the clock alone. |
| FrameClock.FirstFrameHasZeroDelta | src/components/shader-playground/ShaderPlayground.tsx:160-168 | After a mount clears the last frame, the first frame measures a zero delta and leaves the time where it was, whatever the timestamp. |
| FrameClock.ZeroTimestampSwallowsNextDelta | src/components/shader-playground/ShaderPlayground.tsx:166-171 | The falsy test also fires after a frame stamped 0: the next frame adds nothing, not the elapsed time. |
| FrameClock.PausedFrameFreezesTime | src/components/shader-playground/ShaderPlayground.tsx:166-172 | A paused frame records its timestamp but leaves the time alone. |
| FrameClock.RunningFrameAdvancesByElapsed | src/components/shader-playground/ShaderPlayground.tsx:166-172 | A running frame adds the milliseconds since the stored timestamp, divided by 1000. |
| FrameClock.ResumeMeasuresFromLastPausedFrame | src/components/shader-playground/ShaderPlayground.tsx:166-172 | After pause and resume, the first running frame counts only from the last paused frame. |
| FrameClock.PausedRunFreezesTime | src/components/shader-playground/ShaderPlayground.tsx:166-172 | Any number of paused frames leaves the time unchanged. |
| FrameClock.RunIsMonotone | src/components/shader-playground/ShaderPlayground.tsx:166-172 | With non-decreasing timestamps, the time never goes backwards. |
| FrameClock.RunningRunTelescopes | src/components/shader-playground/ShaderPlayground.tsx:166-172 | Running frames with positive timestamps advance the time by exactly the span from the stored timestamp to the last frame, however the frames are spaced. |
| FrameClock.MountedRunAdvancesFromFirstFrame | src/components/shader-playground/ShaderPlayground.tsx:160-172 | After a mount, a running clock advances by the span from the first frame to the last. |
| RenderEngine.FeedsPartitionParameters | src/components/shader-playground/ShaderPlayground.tsx:203-219 | Every numeric parameter except `pixelRatio` feeds exactly one slot and `pixelRatio` feeds none; only the light position slot takes two parameters. |
| RenderEngine.SlotOfCarriesParameter | src/components/shader-playground/ShaderPlayground.tsx:203-219 | The slot of a parameter carries that parameter, or, for the light coordinates, the pair `(lightX, lightY)`. |
| RenderEngine.Resolution | src/components/shader-playground/ShaderPlayground.tsx:148 | The resolution keeps the window's aspect ratio, equals the window size at ratio 1, and is positive for a positive ratio. |
| RenderEngine.HandleResize | src/components/shader-playground/ShaderPlayground.tsx:142-149 | A resize sets the resolution slot from the window and `pixelRatioRef`, and leaves every other slot as it was. |
| RenderEngine.SyncUniforms | src/components/shader-playground/ShaderPlayground.tsx:199-231 | After the sync effect, every parameter slot carries what the reference table assigns it and the resolution matches the window and the record's ratio; time and pointer slots are untouched. |
| RenderEngine.InitialMaterialHoldsDefaults | src/components/shader-playground/ShaderPlayground.tsx:109-134 | The material built at mount has every slot, and each parameter slot carries the default record's value. |
| RenderEngine.NormalizePointer | src/components/shader-playground/ShaderPlayground.tsx:151-154 | The normalised pointer scaled by the window width gives the client x, and one minus it scaled by the height gives the client y; `RenderEngine.PointerRoundTrip` turns this into an exact inverse. |
| RenderEngine.PointerRoundTrip | src/components/shader-playground/ShaderPlayground.tsx:151-154 | Normalising the pointer loses nothing: mapping back gives the client position. |
| RenderEngine.PointerInsideIff | src/components/shader-playground/ShaderPlayground.tsx:151-154 | The pointer is inside the window exactly when its normalised position is inside the unit square; positions outside are passed on unclamped. |
| RenderEngine.PointerLandmarks | src/components/shader-playground/ShaderPlayground.tsx:151-154 | Top-left maps to (0, 1), bottom-right to (1, 0), and the centre to the pointer's initial (0.5, 0.5). |
| RenderEngine.SyncRefs | src/components/shader-playground/ShaderPlayground.tsx:84-87 | The refs effect makes `pausedRef` and `pixelRatioRef` follow the record and changes nothing else. |
| RenderEngine.SyncRefsNeedsOnlyItsDependencies | src/components/shader-playground/ShaderPlayground.tsx:84-87 | When the refs already mirror a record, the refs effect leaves the engine unchanged exactly when the new record keeps `paused` and `pixelRatio`, the two keys of its dependency list. |
| RenderEngine.Mount | src/components/shader-playground/ShaderPlayground.tsx:89-180 | Mounting creates a complete material with the resolution set from the current `pixelRatioRef`; it clears the last frame and keeps the accumulated time. |
| RenderEngine.Unmount | src/components/shader-playground/ShaderPlayground.tsx:182-195 | Cleanup releases the surface and keeps the refs for a remount. |
| RenderEngine.Resize | src/components/shader-playground/ShaderPlayground.tsx:142-158 | A resize changes the resolution only while mounted; without a listener it does nothing. |
| RenderEngine.PointerMove | src/components/shader-playground/ShaderPlayground.tsx:151-158 | A pointer move only writes `mouseRef`, and only while mounted. |
| RenderEngine.Frame | src/components/shader-playground/ShaderPlayground.tsx:163-178 | A frame steps the clock and publishes the new time and the pointer; every other slot stays as it was, and nothing happens once unmounted. |
| RenderEngine.Sync | src/components/shader-playground/ShaderPlayground.tsx:199-201 | The sync effect returns early without a material and otherwise applies the slot updates. |
| RenderEngine.EffectsRestoreReflection | src/components/shader-playground/ShaderPlayground.tsx:84-87 | The refs effect then the sync effect bring any complete material in line with any record. |
| RenderEngine.ResizeKeepsReflection | src/components/shader-playground/ShaderPlayground.tsx:142-149 | A resize through `pixelRatioRef` and a sync through the record's ratio agree, so a resize keeps the engine in line with the record. |
| RenderEngine.FrameKeepsReflection | src/components/shader-playground/ShaderPlayground.tsx:174-175 | A frame touches only time and pointer, so the engine stays in line with the record. |
| RenderEngine.MountThenSyncReflects | src/components/shader-playground/ShaderPlayground.tsx:112-133 | Mounting and then syncing reflects any record: the defaults the mount installs are all overwritten. |
| RenderEngine.SyncIsIdempotent | src/components/shader-playground/ShaderPlayground.tsx:203-229 | Running the sync effect twice is the same as running it once. |
| ControlPanel.SlidersCoverEachParamOnce | src/components/shader-playground/ControlPanel.tsx:166-327 | The panel has one slider per numeric parameter, in record order: no parameter is missing and none appears twice. |
| ControlPanel.SlidersAdmitTheirDefaults | src/components/shader-playground/ControlPanel.tsx:166-327 | Every slider has min below max, a positive step, and a range that contains its parameter's default. |
| ControlPanel.CloudDefaultsOnGrid | src/components/shader-playground/ControlPanel.tsx:166-207 | Each default of the Clouds sliders is a whole number of steps above the minimum. |
| ControlPanel.IridescenceDefaultsOnGrid | src/components/shader-playground/ControlPanel.tsx:209-258 | Each default of the Iridescence sliders is a whole number of steps above the minimum. |
| ControlPanel.LightDefaultsOnGrid | src/components/shader-playground/ControlPanel.tsx:260-301 | Each default of the Light source sliders is a whole number of steps above the minimum. |
| ControlPanel.OutputDefaultsOnGrid | src/components/shader-playground/ControlPanel.tsx:303-328 | Each default of the Output sliders is a whole number of steps above the minimum. |
| ControlPanel.DefaultsOnGrid | src/components/shader-playground/ControlPanel.tsx:166-327 | Every default is a position its slider can reach. |
| ControlPanel.DecimalPlaces | src/components/shader-playground/ControlPanel.tsx:38 | The readout has one or two decimals, two exactly when the step is below 0.1; `ControlPanel.DecimalPlacesOfTableSteps` pins the table's steps. |
| ControlPanel.DecimalPlacesOfTableSteps | src/components/shader-playground/ControlPanel.tsx:38 | Steps below 0.1 read out with two decimals, others with one; a finer step never gets fewer decimals. |
| ControlPanel.ReadoutResolvesStepExceptDrift | src/components/shader-playground/ControlPanel.tsx:38 | One step is at least one readout unit for every slider except drift speed, whose 0.005 step is half its 0.01 unit. |
| ControlPanel.InitiallyShownSliders | src/components/shader-playground/ControlPanel.tsx:303 | On first render every slider is shown except the three in the Output section, which starts closed. |
| ControlPanel.SliderShown | src/components/shader-playground/ControlPanel.tsx:62-66 | A slider is on screen exactly when the panel is expanded (`!collapsed &&` at ControlPanel.tsx:164) and its section is open; `ControlPanel.SliderVisibilityUnderToggles` pins how the buttons change it. |
| ControlPanel.TogglePause | src/components/shader-playground/ControlPanel.tsx:133 | The pause button edits the `paused` key to the negation of its current value. |
| ControlPanel.PauseTwiceRestores | src/components/shader-playground/ControlPanel.tsx:133 | Pause flips `paused` alone, and pressing it twice restores the record. |
| ControlPanel.ExportConfig | src/components/shader-playground/ControlPanel.tsx:97-100 | The export lists the record's keys in declaration order, each with its current value. |
| ControlPanel.ExportListsEveryKeyOnce | src/components/shader-playground/ControlPanel.tsx:97-100 | The export has twenty entries, every key exactly once, with its current value. |
| ControlPanel.ExportDeterminesRecord | src/components/shader-playground/ControlPanel.tsx:97-100 | The export loses nothing: a list of entries is the export of at most one record. |
| ControlPanel.MouseDown | src/components/shader-playground/ControlPanel.tsx:77-83 | Mouse-down starts a drag and remembers the grab offset, so offset plus position is the pointer. |
| ControlPanel.MouseMove | src/components/shader-playground/ControlPanel.tsx:85-91 | While dragging, the grab point follows the pointer; otherwise nothing changes. |
| ControlPanel.MouseUp | src/components/shader-playground/ControlPanel.tsx:93-108 | Mouse-up and mouse-leave end the drag where it is. |
| ControlPanel.DragTranslatesPanel | src/components/shader-playground/ControlPanel.tsx:77-91 | The panel moves by exactly the pointer's displacement and returns home when the pointer does. |
| ControlPanel.DragDependsOnlyOnLastPoint | src/components/shader-playground/ControlPanel.tsx:85-91 | However the pointer wanders during a drag, the panel ends where the last pointer position puts it. |
| ControlPanel.ReleasedPanelStaysPut | src/components/shader-playground/ControlPanel.tsx:85-95 | After release, pointer moves leave the panel unchanged. |
| ControlPanel.ToggleCollapse | src/components/shader-playground/ControlPanel.tsx:154 | Collapse flips the collapsed flag; expanding mounts the sections afresh in their default open state. |
| ControlPanel.ToggleSection | src/components/shader-playground/ControlPanel.tsx:50-63 | A section header flips its own section and no other, and only while the panel is expanded. |
| ControlPanel.SectionToggleIsAnInvolution | src/components/shader-playground/ControlPanel.tsx:56 | Flipping a section twice restores the panel. |
| ControlPanel.SliderVisibilityUnderToggles | src/components/shader-playground/ControlPanel.tsx:154-164 | Collapsing hides every slider, expanding shows every slider outside "Output", and a section header shows or hides exactly the sliders of its own section while the panel is expanded. |
| ControlPanel.CollapseRoundTripReopensDefaults | src/components/shader-playground/ControlPanel.tsx:164-303 | Collapsing and expanding restores everything but the sections, which return with Output closed. |
| Playground.Start | src/components/shader-playground/ShaderPlayground.tsx:66-73 | The first render has the default record, no surface, and a running clock at time 0. |
| Playground.Commit | src/components/shader-playground/ShaderPlayground.tsx:73-87 | A new record is stored and the effects update only the paused flag of the clock; pointer, panel, window and mount state are kept. |
| Playground.Apply | src/components/shader-playground/ShaderPlayground.tsx:75-81 | Only shown sliders, pause and reset change the record; a hidden slider's event changes nothing; only a resize changes the window. |
| Playground.StartIsConsistent | src/components/shader-playground/ShaderPlayground.tsx:66-73 | The page starts consistent. |
| Playground.ApplyKeepsConsistency | src/components/shader-playground/ShaderPlayground.tsx:84-231 | Every event keeps the shader inputs in line with the record and the window. |
| Playground.RunKeepsConsistency | src/components/shader-playground/ShaderPlayground.tsx:84-231 | Any sequence of events keeps the page consistent. |
| Playground.PanelEventsLeaveShaderAlone | src/components/shader-playground/ControlPanel.tsx:72-95 | Collapse, section and drag events never touch the record, the engine or the window. |
| Playground.ResetRestoresDefaultsKeepsTime | src/components/shader-playground/ShaderPlayground.tsx:79-81 | Reset restores the defaults in the record and, while mounted, in every parameter slot; it unpauses and keeps the accumulated time. |
| Playground.SliderValueReachesShader | src/components/shader-playground/ShaderPlayground.tsx:203-219 | A slider's value reaches its slot as is, unclamped; a light coordinate keeps its partner coordinate. |
| Playground.PausedPageFreezesTime | src/components/shader-playground/ShaderPlayground.tsx:170-172 | While paused, no sequence of events without pause or reset moves the shader time, and the page stays paused. |
| Playground.MountedPage | src/components/shader-playground/ShaderPlayground.tsx:156-161 | Mounting gives a mounted, consistent page whose clock waits for its first frame. |
| Playground.UnmountThenMountResumes | src/components/shader-playground/ShaderPlayground.tsx:89-196 | Cleanup followed by a fresh mount gives a consistent, mounted page that keeps the record and the accumulated time and waits for its first frame. |
| Playground.FrameOnMountedPage | src/components/shader-playground/ShaderPlayground.tsx:163-175 | A frame on a mounted page steps the clock and publishes the new time. |
| Playground.PauseOnMountedPage | src/components/shader-playground/ShaderPlayground.tsx:84-87 | The pause button flips `paused` in the record and the clock, and nothing else of the clock. |
| Playground.SliderOnMountedPage | src/components/shader-playground/ShaderPlayground.tsx:75-77 | A shown slider writes its value into the record and leaves the clock alone. |
| Playground.RunConcat | src/components/shader-playground/ShaderPlayground.tsx:163-180 | Running two event sequences one after the other is running their concatenation. |
| Playground.MountThenEditDensity | src/components/shader-playground/ShaderPlayground.tsx:203-204 | Mount, then density 0.9: the shader carries 0.9 before any frame. |
| Playground.TwoFramesSixteenMsApart | src/components/shader-playground/ShaderPlayground.tsx:166-174 | Two frames 16 ms apart after a mount set the time uniform to 0.016 s. |
| Playground.RunningScenario | src/components/shader-playground/ShaderPlayground.tsx:163-219 | Mount, density 0.9, frames at 1000 and 1016 ms: the shader shows time 0.016 and density 0.9. |
| Playground.RunThenPause | src/components/shader-playground/ShaderPlayground.tsx:166-172 | Frames at 1000 and 1500 ms and then pause leave half a second on a paused clock. |
| Playground.PausedFramesThenResume | src/components/shader-playground/ShaderPlayground.tsx:166-172 | Paused frames at 2000 and 3000 ms add nothing; after resume, a frame at 3100 ms adds 0.1 s. |
| Playground.PauseResumeScenario | src/components/shader-playground/ShaderPlayground.tsx:166-172 | Half a second running, a paused stretch, then resume and one frame: 0.6 s in total. |

## Left out

- WebGL and three.js: creating the renderer, scene, camera, geometry and shader program; `setSize`, `setPixelRatio`, `render` and `dispose` are foreign calls. The surface is only Mounted or Unmounted.
- Scheduling: `requestAnimationFrame` and `cancelAnimationFrame` are not modelled. Frames are events carrying their timestamps, delivered only while mounted.
- React: rendering, hooks and re-render bail-outs are not modelled. Both record effects run in declaration order after every record change. The refs effect then also runs where React would skip it, which changes nothing because its dependencies are unchanged (`RenderEngine.SyncRefsNeedsOnlyItsDependencies`); the sync effect is idempotent, so extra runs of it would change nothing either. The development-mode double mount is modelled as `UnmountPage` followed by `MountPage` with the refs kept (`Playground.UnmountThenMountResumes`).
- A `MountPage` event on a page that is already mounted is accepted and replaces the surface. The component never produces it, because the mount effect has no dependencies and React runs cleanup before mounting again.
- Playground.Commit: a record change and the two effects that follow it are one atomic step, so no frame can land between them. React runs effects after the commit, and for continuous pointer input such as a slider drag it may let the browser paint first. An `animate` frame can then render the previous parameter values for one frame. The consistency invariant holds between events, not inside that window.
- Errors: creating the WebGL renderer throws when no WebGL context is available, which stops the mount effect before a material exists. `navigator.clipboard.writeText` throws where the clipboard API is missing and otherwise returns a promise whose rejection is never handled. The component catches neither, and the model has no failure paths for them.
- The renderer guard in the sync effect (`if (renderer)`) is not modelled, because renderer and material are created and cleared together.
- The window resize and mouse-move listeners are modelled as events while mounted. Adding and removing the listeners is not modelled.
- The exported configuration is modelled as its list of key/value entries. The JSON text (`JSON.stringify`) and the clipboard write are I/O and are left out.
- The readout text: `toFixed` rounding is reduced to its number of decimals.
- IEEE double arithmetic, NaN and infinite timestamps, and zero-size windows are left out. Reals are exact and window extents are positive.
- Uniforms.UpdateUniform: covers only well-typed key/value pairs. The TypeScript signature accepts any key with a number or boolean. The panel only ever passes numbers for numeric keys and a boolean for `paused`.
- Slider dragging itself is not modelled. A slider move is an event with its value, and the value is taken as given, as the component does.
- Mounted geometry and the shader source are left out. They are not in the record-to-uniform path.
- Pixel-ratio changes: the sync effect sets the renderer's pixel ratio through `renderer.setPixelRatio`, a foreign call. Only the resolution slot it also sets is modelled.
- The rest of the site (content sections, page and layout shells, the `Slider`, `Switch` and `Label` wrappers) is static markup and is not part of this model.
