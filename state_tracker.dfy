/** The coarse pipeline state the renderer remembers (blend, cull and polygon
    mode), as pure transition functions: each takes the remembered state and
    the requested mode and gives the new remembered state and the commands
    issued. LwjglRenderer's setters are proved to perform exactly these steps. */
module StateTracker {
  import opened GL

  datatype Blending = Disabled | Alpha | Additive
  datatype Culling = Disabled | BackFace | FrontFace
  datatype RenderMode = Fill | Wireframe

  /** blendMode (None before the first call) and blendEnabled. */
  datatype BlendState = BlendState(mode: Option<Blending>, enabled: bool)
  /** cullMode (None before the first call) and cullEnabled. */
  datatype CullState = CullState(mode: Option<Culling>, enabled: bool)

  datatype Step<S> = Step(state: S, commands: seq<Command>)

  const InitialBlend := BlendState(None, false)
  const InitialCull := CullState(None, false)

  /** The blend function each enabled variant needs. */
  function BlendFuncFor(m: Blending): (r: seq<Command>)
    ensures r == [] <==> m == Blending.Disabled
    ensures r != [] ==>
      |r| == 1 && r[0].BlendFunc? && r[0].sfactor == SRC_ALPHA && (r[0].dfactor == ONE <==> m == Additive)
  {
    match m
    case Disabled => []
    case Alpha => [BlendFunc(SRC_ALPHA, ONE_MINUS_SRC_ALPHA)]
    case Additive => [BlendFunc(SRC_ALPHA, ONE)]
  }

  /** setBlending. */
  function SetBlending(s: BlendState, m: Blending): (r: Step<BlendState>)
    ensures r.state.mode == Some(m)
    ensures s.mode == Some(m) ==> r == Step(s, [])
    ensures s.mode != Some(m) ==> (r.state.enabled <==> m != Blending.Disabled)
  {
    if s.mode == Some(m) then Step(s, [])
    else if m == Blending.Disabled then
      Step(BlendState(Some(m), false), if s.enabled then [Disable(BLEND)] else [])
    else
      Step(BlendState(Some(m), true), (if s.enabled then [] else [Enable(BLEND)]) + BlendFuncFor(m))
  }

  /** blendEnabled holds exactly when blendMode is Alpha or Additive. */
  ghost predicate BlendCoherent(s: BlendState) {
    s.enabled <==> (s.mode == Some(Alpha) || s.mode == Some(Additive))
  }

  /** Repeating the stored mode issues nothing; Enable(BLEND) and Disable(BLEND)
      are issued exactly on the false-to-true and true-to-false transitions of
      blendEnabled; a blend function is issued exactly when an enabled variant
      is newly selected. */
  lemma SetBlendingCommands(s: BlendState, m: Blending)
    ensures var r := SetBlending(s, m);
      && (s.mode == Some(m) ==> r.commands == [])
      && (Enable(BLEND) in r.commands <==> !s.enabled && r.state.enabled)
      && (Disable(BLEND) in r.commands <==> s.enabled && !r.state.enabled)
      && ((exists c :: c in r.commands && c.BlendFunc?) <==> s.mode != Some(m) && m != Blending.Disabled)
  {
    var r := SetBlending(s, m);
    if s.mode != Some(m) && m != Blending.Disabled {
      assert BlendFuncFor(m)[0] in r.commands;
    }
  }

  lemma SetBlendingKeepsCoherence(s: BlendState, m: Blending)
    requires BlendCoherent(s) || s == InitialBlend
    ensures BlendCoherent(SetBlending(s, m).state)
  {
  }

  /** Switching between the two enabled variants re-issues the blend function
      and nothing else. */
  lemma SwitchAlphaAdditive(s: BlendState)
    requires BlendCoherent(s)
    ensures s.mode == Some(Alpha) ==>
      SetBlending(s, Additive) == Step(BlendState(Some(Additive), true), [BlendFunc(SRC_ALPHA, ONE)])
    ensures s.mode == Some(Additive) ==>
      SetBlending(s, Alpha) == Step(BlendState(Some(Alpha), true), [BlendFunc(SRC_ALPHA, ONE_MINUS_SRC_ALPHA)])
  {
  }

  /** A sequence of setBlending calls from `s`: the final state and every command issued. */
  function BlendRun(s: BlendState, ms: seq<Blending>): Step<BlendState> {
    if ms == [] then Step(s, [])
    else
      var prev := BlendRun(s, ms[..|ms| - 1]);
      var last := SetBlending(prev.state, ms[|ms| - 1]);
      Step(last.state, prev.commands + last.commands)
  }

  function Count(cs: seq<Command>, c: Command): nat {
    if cs == [] then 0 else (if cs[0] == c then 1 else 0) + Count(cs[1..], c)
  }

  lemma {:induction false} CountAppend(a: seq<Command>, b: seq<Command>, c: Command)
    ensures Count(a + b, c) == Count(a, c) + Count(b, c)
  {
    if a == [] {
      assert a + b == b;
    } else {
      assert (a + b)[1..] == a[1..] + b;
      CountAppend(a[1..], b, c);
    }
  }

  /** After any sequence of setBlending calls from the initial state,
      blendEnabled holds exactly when blendMode is Alpha or Additive. */
  lemma {:induction false} BlendRunCoherent(ms: seq<Blending>)
    ensures BlendCoherent(BlendRun(InitialBlend, ms).state)
  {
    if ms != [] {
      BlendRunCoherent(ms[..|ms| - 1]);
      SetBlendingKeepsCoherence(BlendRun(InitialBlend, ms[..|ms| - 1]).state, ms[|ms| - 1]);
    }
  }

  /** One setBlending call issues one more Enable(BLEND) than Disable(BLEND)
      exactly when it turns blending on, one fewer exactly when it turns it off. */
  lemma SetBlendingBalance(s: BlendState, m: Blending)
    ensures var r := SetBlending(s, m);
      Count(r.commands, Enable(BLEND)) + (if s.enabled then 1 else 0) ==
      Count(r.commands, Disable(BLEND)) + (if r.state.enabled then 1 else 0)
  {
    var r := SetBlending(s, m);
    if s.mode != Some(m) && m != Blending.Disabled {
      var f := BlendFuncFor(m);
      assert Count(f, Enable(BLEND)) == 0 && Count(f, Disable(BLEND)) == 0;
      if !s.enabled {
        CountAppend([Enable(BLEND)], f, Enable(BLEND));
        CountAppend([Enable(BLEND)], f, Disable(BLEND));
      } else {
        assert r.commands == f;
      }
    }
  }

  /** Enable(BLEND) and Disable(BLEND) alternate: over any run from the initial
      state there is one more Enable than Disable exactly when blending is on. */
  lemma {:induction false} BlendRunBalanced(ms: seq<Blending>)
    ensures var r := BlendRun(InitialBlend, ms);
      Count(r.commands, Enable(BLEND)) == Count(r.commands, Disable(BLEND)) + (if r.state.enabled then 1 else 0)
  {
    if ms != [] {
      var init := ms[..|ms| - 1];
      var prev := BlendRun(InitialBlend, init);
      var last := SetBlending(prev.state, ms[|ms| - 1]);
      BlendRunBalanced(init);
      CountAppend(prev.commands, last.commands, Enable(BLEND));
      CountAppend(prev.commands, last.commands, Disable(BLEND));
      SetBlendingBalance(prev.state, ms[|ms| - 1]);
    }
  }

  /** Calling setBlending twice with the same mode issues what one call issues. */
  lemma BlendRunRepeat(s: BlendState, ms: seq<Blending>, m: Blending)
    ensures BlendRun(s, ms + [m, m]) == BlendRun(s, ms + [m])
  {
    assert (ms + [m, m])[..|ms + [m, m]| - 1] == ms + [m];
    var once := BlendRun(s, ms + [m]);
    assert SetBlending(once.state, m) == Step(once.state, []);
    assert once.commands + [] == once.commands;
  }

  /** The face glCullFace is given for an enabled culling mode. */
  function CulledFace(c: Culling): (f: Face)
    requires c != Culling.Disabled
    ensures f == BACK <==> c == BackFace
    ensures f == FRONT <==> c == FrontFace
  {
    if c == BackFace then BACK else assert c == FrontFace; FRONT
  }

  /** setCulling with the break its BackFace case evidently lacks (the
      fall-through as written is Findings.SetCullingAsWritten). */
  function SetCulling(s: CullState, c: Culling): (r: Step<CullState>)
    ensures r.state.mode == Some(c)
    ensures s.mode == Some(c) ==> r == Step(s, [])
    ensures s.mode != Some(c) ==> (r.state.enabled <==> c != Culling.Disabled)
  {
    if s.mode == Some(c) then Step(s, [])
    else if c == Culling.Disabled then
      Step(CullState(Some(c), false), if s.enabled then [Disable(CULL_FACE)] else [])
    else
      Step(CullState(Some(c), true), (if s.enabled then [] else [Enable(CULL_FACE)]) + [CullFace(CulledFace(c))])
  }

  /** cullEnabled is false after Disabled and true after BackFace or FrontFace;
      Enable(CULL_FACE) is issued exactly on a false-to-true transition and
      Disable(CULL_FACE) exactly on a true-to-false one. */
  lemma SetCullingCommands(s: CullState, c: Culling)
    ensures var r := SetCulling(s, c);
      && (s.mode == Some(c) ==> r.commands == [] && r.state == s)
      && (s.mode != Some(c) ==> (r.state.enabled <==> c != Culling.Disabled))
      && (Enable(CULL_FACE) in r.commands <==> !s.enabled && r.state.enabled)
      && (Disable(CULL_FACE) in r.commands <==> s.enabled && !r.state.enabled)
  {
  }

  /** A newly selected culling mode culls the requested face: the last
      command is glCullFace with that face, and no other face is named. */
  lemma SetCullingFace(s: CullState, c: Culling)
    requires s.mode != Some(c) && c != Culling.Disabled
    ensures var cs := SetCulling(s, c).commands;
      && |cs| > 0 && cs[|cs| - 1] == CullFace(CulledFace(c))
      && forall i :: 0 <= i < |cs| && cs[i].CullFace? ==> cs[i] == CullFace(CulledFace(c))
  {
  }

  /** The glPolygonMode argument of a render mode. */
  function PolygonFillOf(m: RenderMode): PolygonFill {
    match m
    case Fill => FILL
    case Wireframe => LINE
  }

  /** Distinct render modes give distinct polygon modes. */
  lemma PolygonFillInjective(m1: RenderMode, m2: RenderMode)
    ensures PolygonFillOf(m1) == PolygonFillOf(m2) ==> m1 == m2
  {
  }

  /** setRenderMode: a new mode is applied to both faces; the same mode issues nothing. */
  function SetRenderMode(s: Option<RenderMode>, m: RenderMode): (r: Step<Option<RenderMode>>)
    ensures r.state == Some(m)
    ensures s == Some(m) <==> r.commands == []
    ensures s != Some(m) ==> r.commands == [PolygonMode(FRONT_AND_BACK, PolygonFillOf(m))]
  {
    if s == Some(m) then Step(s, [])
    else Step(Some(m), [PolygonMode(FRONT_AND_BACK, PolygonFillOf(m))])
  }

  /** Selecting the same render mode twice issues nothing the second time. */
  lemma SetRenderModeRepeat(s: Option<RenderMode>, m: RenderMode)
    ensures SetRenderMode(SetRenderMode(s, m).state, m).commands == []
  {
  }
}
