/** The playground page as a whole: the record held in component state, the
    engine's refs and surface, the panel's own state and the window, driven
    by the events the page can receive. Each change to the record is
    followed, as in the component, by the refs effect and then the
    uniform-sync effect. */
module Playground {
  import opened Uniforms
  import opened FrameClock
  import opened RenderEngine
  import opened ControlPanel
  import opened Geometry

  datatype Page = Page(uniforms: ShaderUniforms, engine: Engine, panel: Panel, window: Window)

  /** What can happen to the page. `PanelMouseLeave` behaves as `PanelMouseUp`;
      `SliderMoved` comes from a slider on screen and is dropped otherwise. */
  datatype Event =
    | MountPage
    | UnmountPage
    | SliderMoved(param: Param, x: real)
    | PausePressed
    | ResetPressed
    | CollapsePressed
    | SectionPressed(section: Section)
    | PanelMouseDown(client: Vec2)
    | PanelMouseMove(client: Vec2)
    | PanelMouseUp
    | PanelMouseLeave
    | WindowResized(resized: Window)
    | WindowMouseMoved(clientX: real, clientY: real)
    | AnimationFrame(timestamp: real)

  /** The first render: default record, refs at their initial values, no
      surface yet, panel at (16, 16). */
  function Start(win: Window): (r: Page)
    ensures r.uniforms == Defaults && r.engine.surface.Unmounted?
    ensures r.engine.clock.time == 0.0 && !r.engine.clock.paused
  {
    Page(Defaults, InitialEngine, InitialPanel, win)
  }

  /** `setUniforms(u)`: the new record is rendered, then the refs effect and
      the uniform-sync effect run in declaration order. */
  function Commit(s: Page, u: ShaderUniforms): (r: Page)
    ensures r.uniforms == u && r.panel == s.panel && r.window == s.window
    ensures r.engine.clock == s.engine.clock.(paused := u.paused) && r.engine.mouse == s.engine.mouse
    ensures r.engine.surface.Mounted? == s.engine.surface.Mounted?
  {
    s.(uniforms := u, engine := Sync(SyncRefs(s.engine, u), u, s.window))
  }

  /** The page's reaction to one event. */
  function Apply(s: Page, e: Event): (r: Page)
    ensures e.SliderMoved? && SliderShown(s.panel, e.param) ==>
              r.uniforms == UpdateUniform(s.uniforms, SetParam(e.param, e.x))
    ensures e.SliderMoved? && !SliderShown(s.panel, e.param) ==> r == s
    ensures e.PausePressed? ==> r.uniforms.paused == !s.uniforms.paused
    ensures e.ResetPressed? ==> r.uniforms == Defaults
    ensures !(e.SliderMoved? || e.PausePressed? || e.ResetPressed?) ==> r.uniforms == s.uniforms
    ensures r.window == (if e.WindowResized? then e.resized else s.window)
  {
    match e
    case MountPage =>
      s.(engine := Sync(RenderEngine.Mount(SyncRefs(s.engine, s.uniforms), s.window), s.uniforms, s.window))
    case UnmountPage => s.(engine := Unmount(s.engine))
    case SliderMoved(p, x) =>
      if SliderShown(s.panel, p) then Commit(s, UpdateUniform(s.uniforms, SetParam(p, x))) else s
    case PausePressed => Commit(s, UpdateUniform(s.uniforms, TogglePause(s.uniforms)))
    case ResetPressed => Commit(s, ResetUniforms(s.uniforms))
    case CollapsePressed => s.(panel := ToggleCollapse(s.panel))
    case SectionPressed(section) => s.(panel := ToggleSection(s.panel, section))
    case PanelMouseDown(client) => s.(panel := MouseDown(s.panel, client))
    case PanelMouseMove(client) => s.(panel := MouseMove(s.panel, client))
    case PanelMouseUp => s.(panel := MouseUp(s.panel))
    case PanelMouseLeave => s.(panel := MouseUp(s.panel))
    case WindowResized(win) => s.(window := win, engine := Resize(s.engine, win))
    case WindowMouseMoved(x, y) => s.(engine := PointerMove(s.engine, x, y, s.window))
    case AnimationFrame(t) => s.(engine := Frame(s.engine, t))
  }

  /** The events, in order. */
  function Run(s: Page, events: seq<Event>): Page
    decreases |events|
  {
    if |events| == 0 then s else Run(Apply(s, events[0]), events[1..])
  }

  /** The engine is in line with the record and the window: refs mirror the
      record and, while mounted, every shader input carries its value. */
  ghost predicate Consistent(s: Page)
  {
    Reflects(s.engine, s.uniforms, s.window)
  }

  /** The page starts consistent. */
  lemma StartIsConsistent(win: Window)
    ensures Consistent(Start(win))
  {
  }

  /** Every event keeps the page consistent. */
  lemma ApplyKeepsConsistency(s: Page, e: Event)
    requires Consistent(s)
    ensures Consistent(Apply(s, e))
  {
    match e
    case MountPage =>
      MountThenSyncReflects(s.engine, s.uniforms, s.window);
    case UnmountPage =>
    case SliderMoved(p, x) =>
      EffectsRestoreReflection(s.engine, UpdateUniform(s.uniforms, SetParam(p, x)), s.window);
    case PausePressed =>
      EffectsRestoreReflection(s.engine, UpdateUniform(s.uniforms, TogglePause(s.uniforms)), s.window);
    case ResetPressed =>
      EffectsRestoreReflection(s.engine, ResetUniforms(s.uniforms), s.window);
    case CollapsePressed =>
    case SectionPressed(_) =>
    case PanelMouseDown(_) =>
    case PanelMouseMove(_) =>
    case PanelMouseUp =>
    case PanelMouseLeave =>
    case WindowResized(win) =>
      ResizeKeepsReflection(s.engine, s.uniforms, s.window, win);
    case WindowMouseMoved(_, _) =>
    case AnimationFrame(t) =>
      FrameKeepsReflection(s.engine, s.uniforms, s.window, t);
  }

  /** Whatever happens, from the first render on, the shader inputs reflect
      the record. */
  lemma {:induction false} RunKeepsConsistency(s: Page, events: seq<Event>)
    requires Consistent(s)
    ensures Consistent(Run(s, events))
    decreases |events|
  {
    if |events| > 0 {
      ApplyKeepsConsistency(s, events[0]);
      RunKeepsConsistency(Apply(s, events[0]), events[1..]);
    }
  }

  /** Panel-only events (collapse, section headers, dragging) never touch
      the record or the engine. */
  predicate IsPanelEvent(e: Event)
  {
    e.CollapsePressed? || e.SectionPressed? || e.PanelMouseDown? || e.PanelMouseMove?
    || e.PanelMouseUp? || e.PanelMouseLeave?
  }

  lemma PanelEventsLeaveShaderAlone(s: Page, e: Event)
    requires IsPanelEvent(e)
    ensures Apply(s, e).uniforms == s.uniforms && Apply(s, e).engine == s.engine
    ensures Apply(s, e).window == s.window
  {
  }

  /** Reset restores every parameter to its default, the shader with it when
      mounted, and leaves the accumulated time alone. */
  lemma ResetRestoresDefaultsKeepsTime(s: Page)
    requires Consistent(s)
    ensures var r := Apply(s, ResetPressed);
            && r.uniforms == Defaults
            && r.engine.clock.time == s.engine.clock.time
            && !r.engine.clock.paused
            && (s.engine.surface.Mounted? ==>
                  r.engine.surface.Mounted? &&
                  forall sl :: IsParameterSlot(sl) ==> r.engine.surface.material[sl] == FedValue(Defaults, sl))
  {
    ApplyKeepsConsistency(s, ResetPressed);
  }

  /** A slider move reaches the shader unchanged: the value is not clamped
      to the slider's range on its way to the material. */
  lemma SliderValueReachesShader(s: Page, p: Param, x: real)
    requires Consistent(s) && SliderShown(s.panel, p) && p != PixelRatio
    requires s.engine.surface.Mounted?
    ensures var m := Apply(s, SliderMoved(p, x)).engine.surface.material;
            && Apply(s, SliderMoved(p, x)).engine.surface.Mounted?
            && SlotOf(p) in m
            && (p == LightX ==> m[SlotOf(p)] == Vector(Vec2(x, s.uniforms.lightY)))
            && (p == LightY ==> m[SlotOf(p)] == Vector(Vec2(s.uniforms.lightX, x)))
            && (p != LightX && p != LightY ==> m[SlotOf(p)] == Scalar(x))
  {
    var r := Apply(s, SliderMoved(p, x));
    var u := UpdateUniform(s.uniforms, SetParam(p, x));
    assert r.uniforms == u;
    ApplyKeepsConsistency(s, SliderMoved(p, x));
    SlotOfCarriesParameter(u, p);
    assert r.engine.surface.material[SlotOf(p)] == FedValue(u, SlotOf(p));
    assert ParamValue(u, p) == x by {
      assert Get(u, Number(p)) == Real(x);
    }
    if p == LightX {
      assert Get(u, Number(LightY)) == Get(s.uniforms, Number(LightY));
    } else if p == LightY {
      assert Get(u, Number(LightX)) == Get(s.uniforms, Number(LightX));
    }
  }

  /** Events that cannot change `paused`: everything but the pause and reset
      buttons. */
  predicate KeepsPause(e: Event)
  {
    !e.PausePressed? && !e.ResetPressed?
  }

  /** While paused, no sequence of events without the pause and reset
      buttons moves the shader time: frames, resizes, remounts, slider moves
      and panel gestures all leave it where it was. */
  lemma {:induction false} PausedPageFreezesTime(s: Page, events: seq<Event>)
    requires Consistent(s) && s.uniforms.paused
    requires forall i :: 0 <= i < |events| ==> KeepsPause(events[i])
    ensures Run(s, events).engine.clock.time == s.engine.clock.time
    ensures Run(s, events).uniforms.paused
    decreases |events|
  {
    if |events| > 0 {
      var next := Apply(s, events[0]);
      ApplyKeepsConsistency(s, events[0]);
      assert next.engine.clock.time == s.engine.clock.time by {
        match events[0]
        case AnimationFrame(t) =>
          if s.engine.surface.Mounted? {
            PausedFrameFreezesTime(s.engine.clock, t);
          }
        case _ =>
      }
      assert next.uniforms.paused by {
        if events[0].SliderMoved? && SliderShown(s.panel, events[0].param) {
          assert Get(next.uniforms, Paused) == Get(s.uniforms, Paused);
        }
      }
      PausedPageFreezesTime(next, events[1..]);
    }
  }

  /** Mounting from any consistent page gives a mounted, consistent page
      whose clock waits for its first frame. */
  lemma MountedPage(s: Page)
    requires Consistent(s)
    ensures var r := Apply(s, MountPage);
            && Consistent(r) && r.engine.surface.Mounted? && r.uniforms == s.uniforms && r.panel == s.panel
            && r.engine.clock == Clock(0.0, s.engine.clock.time, s.uniforms.paused)
  {
    ApplyKeepsConsistency(s, MountPage);
  }

  /** The development-mode double mount: cleanup followed by a fresh mount
      leaves a consistent, mounted page with the record and the accumulated
      time kept and the clock waiting for its first frame. */
  lemma UnmountThenMountResumes(s: Page)
    requires Consistent(s)
    ensures var r := Apply(Apply(s, UnmountPage), MountPage);
            && Consistent(r) && r.engine.surface.Mounted? && r.uniforms == s.uniforms
            && r.engine.clock == Clock(0.0, s.engine.clock.time, s.uniforms.paused)
  {
    ApplyKeepsConsistency(s, UnmountPage);
    MountedPage(Apply(s, UnmountPage));
  }

  /** A frame on a mounted page steps the clock and publishes the new time. */
  lemma FrameOnMountedPage(s: Page, t: real)
    requires Consistent(s) && s.engine.surface.Mounted?
    ensures var r := Apply(s, AnimationFrame(t));
            && Consistent(r) && r.engine.surface.Mounted? && r.uniforms == s.uniforms && r.panel == s.panel
            && r.engine.clock == Step(s.engine.clock, t)
            && UTime in r.engine.surface.material
            && r.engine.surface.material[UTime] == Scalar(r.engine.clock.time)
  {
    ApplyKeepsConsistency(s, AnimationFrame(t));
  }

  /** The pause button on a mounted page flips `paused` in the record and in
      the clock, and touches nothing else of the clock. */
  lemma PauseOnMountedPage(s: Page)
    requires Consistent(s) && s.engine.surface.Mounted?
    ensures var r := Apply(s, PausePressed);
            && Consistent(r) && r.engine.surface.Mounted? && r.panel == s.panel
            && r.uniforms.paused == !s.uniforms.paused
            && r.engine.clock == s.engine.clock.(paused := !s.uniforms.paused)
  {
    ApplyKeepsConsistency(s, PausePressed);
  }

  /** A shown slider on a mounted page writes its value into the record and
      nothing else of the clock changes. */
  lemma SliderOnMountedPage(s: Page, p: Param, x: real)
    requires Consistent(s) && s.engine.surface.Mounted? && SliderShown(s.panel, p)
    ensures var r := Apply(s, SliderMoved(p, x));
            && Consistent(r) && r.engine.surface.Mounted? && r.panel == s.panel
            && ParamValue(r.uniforms, p) == x && r.uniforms.paused == s.uniforms.paused
            && r.engine.clock == s.engine.clock
  {
    ApplyKeepsConsistency(s, SliderMoved(p, x));
    var u := UpdateUniform(s.uniforms, SetParam(p, x));
    assert Get(u, Number(p)) == Real(x);
    assert Get(u, Paused) == Get(s.uniforms, Paused);
  }

  /** Two events in a row. */
  lemma RunOfTwo(s: Page, a: Event, b: Event, rest: seq<Event>)
    ensures Run(s, [a, b] + rest) == Run(Apply(Apply(s, a), b), rest)
  {
    assert ([a, b] + rest)[1..] == [b] + rest;
    assert ([b] + rest)[1..] == rest;
  }

  /** Mounting a fresh page and moving the density slider to 0.9: the
      shader carries the new density before any frame. */
  lemma MountThenEditDensity(win: Window)
    ensures var s := Run(Start(win), [MountPage, SliderMoved(CloudDensity, 0.9)]);
            && Consistent(s) && s.engine.surface.Mounted?
            && s.engine.clock == Clock(0.0, 0.0, false)
            && UCloudDensity in s.engine.surface.material
            && s.engine.surface.material[UCloudDensity] == Scalar(0.9)
  {
    var s0 := Start(win);
    StartIsConsistent(win);
    var s1 := Apply(s0, MountPage);
    MountedPage(s0);
    assert SliderShown(s1.panel, CloudDensity);
    var s2 := Apply(s1, SliderMoved(CloudDensity, 0.9));
    SliderOnMountedPage(s1, CloudDensity, 0.9);
    assert IsParameterSlot(UCloudDensity);
    RunOfTwo(s0, MountPage, SliderMoved(CloudDensity, 0.9), []);
    assert [MountPage, SliderMoved(CloudDensity, 0.9)] + [] == [MountPage, SliderMoved(CloudDensity, 0.9)];
  }

  /** On a mounted, running page whose clock waits for its first frame, two
      frames 16 ms apart advance the time by 0.016 seconds and leave the
      parameter slots alone. */
  lemma TwoFramesSixteenMsApart(s: Page)
    requires Consistent(s) && s.engine.surface.Mounted?
    requires s.engine.clock == Clock(0.0, 0.0, false)
    ensures var r := Run(s, [AnimationFrame(1000.0), AnimationFrame(1016.0)]);
            && r.engine.surface.Mounted? && r.uniforms == s.uniforms
            && r.engine.clock.time == 0.016
            && UTime in r.engine.surface.material
            && r.engine.surface.material[UTime] == Scalar(0.016)
  {
    var s1 := Apply(s, AnimationFrame(1000.0));
    FrameOnMountedPage(s, 1000.0);
    var s2 := Apply(s1, AnimationFrame(1016.0));
    FrameOnMountedPage(s1, 1016.0);
    assert s2.engine.clock == Clock(1016.0, 0.016, false);
    RunOfTwo(s, AnimationFrame(1000.0), AnimationFrame(1016.0), []);
    assert [AnimationFrame(1000.0), AnimationFrame(1016.0)] + [] == [AnimationFrame(1000.0), AnimationFrame(1016.0)];
  }

  /** A running page mounted in a window: two frames 16 ms apart advance the
      shader time by 0.016 seconds, and a density change shows up in the
      shader. */
  lemma RunningScenario(win: Window)
    ensures var s := Run(Start(win), [MountPage, SliderMoved(CloudDensity, 0.9),
                                      AnimationFrame(1000.0), AnimationFrame(1016.0)]);
            && s.engine.surface.Mounted?
            && s.engine.clock.time == 0.016
            && UTime in s.engine.surface.material
            && s.engine.surface.material[UTime] == Scalar(0.016)
            && UCloudDensity in s.engine.surface.material
            && s.engine.surface.material[UCloudDensity] == Scalar(0.9)
  {
    var first := [MountPage, SliderMoved(CloudDensity, 0.9)];
    var second := [AnimationFrame(1000.0), AnimationFrame(1016.0)];
    var mid := Run(Start(win), first);
    MountThenEditDensity(win);
    TwoFramesSixteenMsApart(mid);
    var r := Run(mid, second);
    RunKeepsConsistency(mid, second);
    assert r.engine.surface.material[UCloudDensity] == FedValue(r.uniforms, UCloudDensity);
    assert mid.engine.surface.material[UCloudDensity] == FedValue(mid.uniforms, UCloudDensity);
    RunConcat(Start(win), first, second);
    assert first + second == [MountPage, SliderMoved(CloudDensity, 0.9),
                              AnimationFrame(1000.0), AnimationFrame(1016.0)];
  }

  /** Running two event sequences one after the other is running their
      concatenation. */
  lemma {:induction false} RunConcat(s: Page, a: seq<Event>, b: seq<Event>)
    ensures Run(s, a + b) == Run(Run(s, a), b)
    decreases |a|
  {
    if |a| > 0 {
      assert (a + b)[1..] == a[1..] + b;
      RunConcat(Apply(s, a[0]), a[1..], b);
    } else {
      assert a + b == b;
    }
  }

  /** Half a second of running frames after a mount, then the pause button. */
  lemma RunThenPause(win: Window)
    ensures var s := Run(Start(win), [MountPage, AnimationFrame(1000.0), AnimationFrame(1500.0), PausePressed]);
            && Consistent(s) && s.engine.surface.Mounted?
            && s.engine.clock == Clock(1500.0, 0.5, true)
  {
    var s0 := Start(win);
    StartIsConsistent(win);
    var s1 := Apply(s0, MountPage);
    MountedPage(s0);
    var s2 := Apply(s1, AnimationFrame(1000.0));
    FrameOnMountedPage(s1, 1000.0);
    var s3 := Apply(s2, AnimationFrame(1500.0));
    FrameOnMountedPage(s2, 1500.0);
    assert s3.engine.clock == Clock(1500.0, 0.5, false);
    var s4 := Apply(s3, PausePressed);
    PauseOnMountedPage(s3);
    RunOfTwo(s0, MountPage, AnimationFrame(1000.0), [AnimationFrame(1500.0), PausePressed]);
    RunOfTwo(s2, AnimationFrame(1500.0), PausePressed, []);
    assert [MountPage, AnimationFrame(1000.0)] + [AnimationFrame(1500.0), PausePressed]
           == [MountPage, AnimationFrame(1000.0), AnimationFrame(1500.0), PausePressed];
    assert [AnimationFrame(1500.0), PausePressed] + [] == [AnimationFrame(1500.0), PausePressed];
  }

  /** From a page paused at 1500 ms with half a second on the clock: frames at
      2000 and 3000 ms add nothing; after resuming, a frame at 3100 ms adds
      only the 100 ms since the last paused frame. */
  lemma PausedFramesThenResume(s: Page)
    requires Consistent(s) && s.engine.surface.Mounted?
    requires s.engine.clock == Clock(1500.0, 0.5, true)
    ensures Run(s, [AnimationFrame(2000.0), AnimationFrame(3000.0), PausePressed, AnimationFrame(3100.0)])
              .engine.clock.time == 0.6
  {
    var s1 := Apply(s, AnimationFrame(2000.0));
    FrameOnMountedPage(s, 2000.0);
    var s2 := Apply(s1, AnimationFrame(3000.0));
    FrameOnMountedPage(s1, 3000.0);
    assert s2.engine.clock == Clock(3000.0, 0.5, true);
    var s3 := Apply(s2, PausePressed);
    PauseOnMountedPage(s2);
    var s4 := Apply(s3, AnimationFrame(3100.0));
    FrameOnMountedPage(s3, 3100.0);
    assert s4.engine.clock == Step(Clock(3000.0, 0.5, false), 3100.0);
    RunOfTwo(s, AnimationFrame(2000.0), AnimationFrame(3000.0), [PausePressed, AnimationFrame(3100.0)]);
    RunOfTwo(s2, PausePressed, AnimationFrame(3100.0), []);
    assert [AnimationFrame(2000.0), AnimationFrame(3000.0)] + [PausePressed, AnimationFrame(3100.0)]
           == [AnimationFrame(2000.0), AnimationFrame(3000.0), PausePressed, AnimationFrame(3100.0)];
    assert [PausePressed, AnimationFrame(3100.0)] + [] == [PausePressed, AnimationFrame(3100.0)];
  }

  /** Pausing after half a second of frames, then more frames, then resuming:
      the paused frames add nothing and the first running frame after resume
      counts only from the last paused frame. */
  lemma PauseResumeScenario(win: Window)
    ensures var s := Run(Start(win), [MountPage, AnimationFrame(1000.0), AnimationFrame(1500.0),
                                      PausePressed, AnimationFrame(2000.0), AnimationFrame(3000.0),
                                      PausePressed, AnimationFrame(3100.0)]);
            s.engine.clock.time == 0.6
  {
    var first := [MountPage, AnimationFrame(1000.0), AnimationFrame(1500.0), PausePressed];
    var second := [AnimationFrame(2000.0), AnimationFrame(3000.0), PausePressed, AnimationFrame(3100.0)];
    RunThenPause(win);
    PausedFramesThenResume(Run(Start(win), first));
    RunConcat(Start(win), first, second);
    assert first + second == [MountPage, AnimationFrame(1000.0), AnimationFrame(1500.0),
                              PausePressed, AnimationFrame(2000.0), AnimationFrame(3000.0),
                              PausePressed, AnimationFrame(3100.0)];
  }
}
