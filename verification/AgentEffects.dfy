// What each store command does, written out: when it works on a store the
// commands can build, and the whole store it leaves.

module AgentEffects {
  import opened Options
  import opened AgentStore

  /** Which product is reached over which plan. */
  const REACHED_OVER := {(CodexCli, Codex), (ClaudeCodeCli, Claude), (ClaudeAgentSdk, Acp), (UnknownAcpAgent, Acp)}

  /** The product a plan stands for when none is named. */
  const STANDS_FOR := {(CodexCli, Codex), (ClaudeCodeCli, Claude), (UnknownAcpAgent, Acp)}

  /** The Agent ids that name their plan. */
  const PLAN_NAMES := {("codex", Codex), ("claude", Claude), ("acp", Acp)}

  /** Adding an Agent works exactly for a free id, a plan that reaches the product, and some way to tell the plan. */
  lemma AddingIsExact(s: Store, id: string, adapter: Option<Adapter>, component: Option<Component>, launch: string)
    ensures var r := Step(s, AddAgent(id, adapter, component, launch));
            && (r.None? <==>
                 || id in s.agents
                 || (adapter.Some? && component.Some? && (component.value, adapter.value) !in REACHED_OVER)
                 || (adapter.None? && component.None? && id != "codex" && id != "claude" && id != "acp"))
            && (r.Some? ==>
                 && id in r.value.agents && r.value == s.(agents := s.agents[id := r.value.agents[id]])
                 && var a := r.value.agents[id];
                    && a.launch == launch && (a.component, a.adapter) in REACHED_OVER
                    && (component.Some? ==> a.component == component.value)
                    && (component.None? ==> (a.component, a.adapter) in STANDS_FOR)
                    && (adapter.Some? ==> a.adapter == adapter.value)
                    && (adapter.None? && component.None? ==> (id, a.adapter) in PLAN_NAMES))
  {}

  /** The Agent that an update asks for. */
  predicate Wants(was: Agent, c: Command, now: Agent)
    requires c.UpdateAgent?
  {
    && now.launch == (if c.newLaunch.Some? then c.newLaunch.value else was.launch)
    && (c.adapter.Some? ==> now.adapter == c.adapter.value)
    && (c.component.Some? ==> now.component == c.component.value && (now.component, now.adapter) in REACHED_OVER)
    && (c.adapter.None? && c.component.None? ==> now.adapter == was.adapter)
    && (c.component.None? ==>
         if now.adapter == was.adapter then now.component == was.component else (now.component, now.adapter) in STANDS_FOR)
  }

  /** Nothing refers to the Agent in a way that forbids this change. */
  predicate Unhindered(s: Store, c: Command, now: Agent)
    requires c.UpdateAgent? && c.id in s.agents
  {
    && (forall o :: o in s.roles && o in c.busy ==> s.roles[o].activeAgent != c.id)
    && (c.acknowledged || forall o :: o in s.sets && c.id in s.sets[o].sessions ==> !s.sets[o].sessions[c.id].active)
    && (now.adapter != s.agents[c.id].adapter || now.component != s.agents[c.id].component ==>
         && (forall o :: o in s.roles ==> c.id !in s.roles[o].bindings)
         && (forall p :: p in s.profiles && s.profiles[p].Explicit? ==> s.profiles[p].agent != c.id))
  }

  /** An update works exactly when it asks for something consistent that is no change or hindered by no reference. */
  lemma UpdatingIsExact(s: Store, c: Command)
    requires Intact(s) && c.UpdateAgent?
    ensures var r := Step(s, c);
            && (r.Some? <==>
                 && (c.adapter.Some? || c.component.Some? || c.newLaunch.Some?) && c.id in s.agents
                 && exists now :: Wants(s.agents[c.id], c, now) && (now == s.agents[c.id] || Unhindered(s, c, now)))
            && (r.Some? ==>
                 && c.id in r.value.agents && r.value == s.(agents := s.agents[c.id := r.value.agents[c.id]])
                 && Wants(s.agents[c.id], c, r.value.agents[c.id]))
  {
    assert c.id in s.agents ==> AdapterOf(s.agents[c.id].component) == s.agents[c.id].adapter;
    hide Intact;
    if c.id in s.agents {
      var next := AskedFor(s.agents[c.id], c);
      HindranceMeans(s, c, next);
      hide BusySomewhere, LiveSomewhere, BoundSomewhere, ProfiledSomewhere, Unhindered, Wants;
    }
  }

  lemma AskedFor(was: Agent, c: Command) returns (next: Agent)
    requires c.UpdateAgent?
    ensures next.adapter == if c.component.Some? then AdapterOf(c.component.value) else if c.adapter.Some? then c.adapter.value else was.adapter
    ensures next.component == if c.component.Some? then c.component.value
                              else if next.adapter != was.adapter then DefaultComponent(next.adapter) else was.component
    ensures next.launch == if c.newLaunch.Some? then c.newLaunch.value else was.launch
    ensures forall now :: Wants(was, c, now) ==> now == next
    ensures Wants(was, c, next) <==> (c.component.Some? && c.adapter.Some? ==> next.adapter == c.adapter.value)
  {
    var adapter := if c.component.Some? then AdapterOf(c.component.value) else if c.adapter.Some? then c.adapter.value else was.adapter;
    var component := if c.component.Some? then c.component.value
                     else if adapter != was.adapter then DefaultComponent(adapter) else was.component;
    next := Agent(component, adapter, if c.newLaunch.Some? then c.newLaunch.value else was.launch);
  }

  lemma HindranceMeans(s: Store, c: Command, next: Agent)
    requires c.UpdateAgent? && c.id in s.agents
    ensures Unhindered(s, c, next) <==>
      && !BusySomewhere(s, c.id, c.busy) && (c.acknowledged || !LiveSomewhere(s, c.id))
      && ((next.adapter == s.agents[c.id].adapter && next.component == s.agents[c.id].component)
          || !(BoundSomewhere(s, c.id) || ProfiledSomewhere(s, c.id)))
  {}

  /** A removal works exactly on a configured Agent that nothing names, and takes just it away. */
  lemma RemovingIsExact(s: Store, id: string, busy: set<Owner>)
    requires Intact(s)
    ensures var r := Step(s, RemoveAgent(id, busy));
            && (r.Some? <==>
                 && id in s.agents && s.defaultAgent != Some(id) && (forall o :: o in s.roles ==> id !in s.roles[o].bindings)
                 && (forall p :: p in s.profiles && s.profiles[p].Explicit? ==> s.profiles[p].agent != id))
            && (r.Some? ==> r.value == s.(agents := s.agents - {id}))
  {
    RemovalIsAllowedExactly(s, id, busy);
    hide Intact;
  }

  // ----- Roles -----

  /** The binding a Role gets for a configured Agent: its own product and plan. */
  function BindingOf(a: Agent, config: string): Binding { Binding(a.component, a.adapter, config) }

  lemma AddingRoleIsExact(s: Store, name: string, agent: string, config: string, allowed: bool)
    requires Intact(s)
    ensures var r := Step(s, AddRole(name, agent, config, allowed));
            && (r.Some? <==> allowed && agent in s.agents && Global(name) !in s.roles)
            && (r.Some? ==>
                 r.value == s.(roles := s.roles[Global(name) := Role(agent, map[agent := BindingOf(s.agents[agent], config)])]))
  {
    hide RoleIntact, SetIntact;
  }

  lemma Pinned(s: Store, o: Owner, agent: string)
    requires Intact(s) && o in s.roles
    ensures agent in s.roles[o].bindings ==>
      agent in s.agents && s.roles[o].bindings[agent] == BindingOf(s.agents[agent], s.roles[o].bindings[agent].config)
    ensures s.roles[o].activeAgent in s.roles[o].bindings
    ensures agent in s.agents ==> AdapterOf(s.agents[agent].component) == s.agents[agent].adapter
  {
    assert RoleIntact(s, s.roles[o]);
    assert agent in s.roles[o].bindings ==> Pins(s, agent, s.roles[o].bindings[agent]);
  }

  /** Without Agent options nothing changes; with them one binding gets the given configuration, or keeps its own. */
  lemma UpdatingRoleIsExact(s: Store, name: string, chosen: Option<string>, config: Option<string>, allowed: bool)
    requires Intact(s)
    ensures var r := Step(s, UpdateRole(name, chosen, config, allowed)); var o := Global(name);
            && (r.Some? <==> allowed && o in s.roles && (chosen.Some? ==> chosen.value in s.agents))
            && (r.Some? && chosen.None? && config.None? ==> r.value == s)
            && (r.Some? && (chosen.Some? || config.Some?) ==>
                 var agent := if chosen.Some? then chosen.value else s.roles[o].activeAgent;
                 var kept := if agent in s.roles[o].bindings then s.roles[o].bindings[agent].config else "";
                 && agent in s.agents
                 && r.value == s.(roles := s.roles[o := Role(s.roles[o].activeAgent,
                      s.roles[o].bindings[agent := BindingOf(s.agents[agent], if config.Some? then config.value else kept)])]))
  {
    var o := Global(name);
    if o in s.roles {
      Pinned(s, o, s.roles[o].activeAgent);
      if chosen.Some? { Pinned(s, o, chosen.value); }
    }
    hide Intact, RoleIntact;
  }

  /** Binding keeps a known binding, adds a new one, and makes the Agent active; the set follows unless its Agent runs. */
  lemma BindingRoleIsExact(s: Store, name: string, agent: string, config: string, allowed: bool)
    requires Intact(s)
    ensures var r := Step(s, BindRole(name, agent, config, allowed)); var o := Global(name);
            && (r.Some? <==> allowed && o in s.roles && agent in s.agents)
            && (r.Some? ==>
                 var bindings := if agent in s.roles[o].bindings then s.roles[o].bindings
                                 else s.roles[o].bindings[agent := BindingOf(s.agents[agent], config)];
                 && r.value == s.(roles := s.roles[o := Role(agent, bindings)], sets := r.value.sets)
                 && (agent == s.roles[o].activeAgent ==> r.value.sets == s.sets)
                 && (agent != s.roles[o].activeAgent ==>
                      && o in r.value.sets && r.value.sets == s.sets[o := r.value.sets[o]]
                      && r.value.sets[o].sessions == (if o in s.sets then s.sets[o].sessions else map[])
                      && r.value.sets[o].activeAgent == if o in s.sets && RunsActive(s.sets[o]) then s.sets[o].activeAgent else agent))
  {
    var o := Global(name);
    if o in s.roles { Pinned(s, o, agent); }
    hide Intact, RoleIntact;
    if o in s.roles && agent in s.roles[o].bindings {
      assert s.roles[o].bindings[agent := s.roles[o].bindings[agent]] == s.roles[o].bindings;
    }
  }

  predicate RunsActive(t: SessionSet) { t.activeAgent in t.sessions && t.sessions[t.activeAgent].active }

  /** Unbinding drops one dormant binding and its Session, and nothing else. */
  lemma UnbindingRoleIsExact(s: Store, name: string, agent: string)
    requires Intact(s)
    ensures var r := Step(s, UnbindRole(name, agent)); var o := Global(name);
            && (r.Some? <==>
                 && o in s.roles && agent in s.roles[o].bindings && agent != s.roles[o].activeAgent
                 && (name == "worker" ==> forall p :: p in s.profiles && s.profiles[p].Explicit? ==> s.profiles[p].agent != agent)
                 && (o in s.sets && agent in s.sets[o].sessions ==> !s.sets[o].sessions[agent].active))
            && (r.Some? ==>
                 r.value == s.(
                   roles := s.roles[o := Role(s.roles[o].activeAgent, s.roles[o].bindings - {agent})],
                   sets := if o in s.sets then s.sets[o := SessionSet(s.sets[o].activeAgent, s.sets[o].sessions - {agent})] else s.sets))
  {
    hide Intact;
  }

  lemma RemovingRoleIsExact(s: Store, name: string, allowed: bool)
    ensures var r := Step(s, RemoveRole(name, allowed)); var o := Global(name);
            && (r.Some? <==>
                 && allowed && o in s.roles && name != "operator" && name != "leader" && name != "worker"
                 && (o in s.sets ==> forall a :: a in s.sets[o].sessions ==> !s.sets[o].sessions[a].active))
            && (r.Some? ==> r.value == s.(roles := s.roles - {o}, sets := s.sets - {o}))
  {}

  // ----- Sessions -----

  function SessionsOf(s: Store, o: Owner): map<string, Session> { if o in s.sets then s.sets[o].sessions else map[] }

  /** The store after the Role's active Agent was recorded running under this native id. */
  function WithSession(s: Store, o: Owner, nativeId: string): Store
    requires o in s.roles && s.roles[o].activeAgent in s.agents
  {
    var agent := s.roles[o].activeAgent;
    s.(sets := s.sets[o := SessionSet(agent, SessionsOf(s, o)[agent := Session(s.agents[agent].adapter, nativeId, true)])])
  }

  lemma ActiveIsConfigured(s: Store, o: Owner)
    requires Intact(s) && o in s.roles
    ensures var agent := s.roles[o].activeAgent;
            && agent in s.agents && agent in s.roles[o].bindings && s.roles[o].bindings[agent].adapter == s.agents[agent].adapter
            && (agent in SessionsOf(s, o) ==> SessionsOf(s, o)[agent].adapter == s.agents[agent].adapter)
  {
    OwnerIntact(s, o);
    Pinned(s, o, s.roles[o].activeAgent);
  }

  lemma RecordedMeans(s: Store, o: Owner, nativeId: string)
    requires Intact(s) && o in s.roles
    ensures var a := s.roles[o].activeAgent; var r := Recorded(s, o, nativeId);
            && (r.Some? <==> (a in SessionsOf(s, o) && SessionsOf(s, o)[a].active ==> SessionsOf(s, o)[a].nativeId == nativeId))
            && (r.Some? ==> a in s.agents && r.value == WithSession(s, o, nativeId))
  {
    ActiveIsConfigured(s, o);
    hide Intact;
  }

  /** Recording keeps a known native id; replacing one needs an ended Session and another id. */
  lemma RecordingSessionIsExact(s: Store, name: string, nativeId: string, replace: bool, allowed: bool)
    requires Intact(s)
    ensures var r := Step(s, RecordSession(name, nativeId, replace, allowed)); var o := Global(name);
            && (r.Some? <==>
                 && allowed && o in s.roles
                 && var agent := s.roles[o].activeAgent; var known := agent in SessionsOf(s, o);
                    if replace then known && !SessionsOf(s, o)[agent].active && SessionsOf(s, o)[agent].nativeId != nativeId
                    else known ==> SessionsOf(s, o)[agent].nativeId == nativeId)
            && (r.Some? ==> s.roles[o].activeAgent in s.agents && r.value == WithSession(s, o, nativeId))
  {
    var o := Global(name);
    if o in s.roles { RecordedMeans(s, o, nativeId); }
    hide Intact, Recorded, WithSession;
  }

  /** A launch never takes over a running Session with another native id. */
  lemma LaunchingIsExact(s: Store, o: Owner, nativeId: string, allowed: bool)
    requires Intact(s)
    ensures var r := Step(s, LaunchSession(o, nativeId, allowed));
            && (r.Some? <==>
                 && allowed && o in s.roles
                 && var a := s.roles[o].activeAgent;
                    a in SessionsOf(s, o) && SessionsOf(s, o)[a].active ==> SessionsOf(s, o)[a].nativeId == nativeId)
            && (r.Some? ==> s.roles[o].activeAgent in s.agents && r.value == WithSession(s, o, nativeId))
  {
    if o in s.roles { RecordedMeans(s, o, nativeId); }
    hide Intact, Recorded, WithSession;
  }

  /** An ended Session stays known under its native id. */
  lemma EndingIsExact(s: Store, o: Owner, agent: string)
    ensures var r := Step(s, EndSession(o, agent));
            && (r.Some? <==> agent in SessionsOf(s, o))
            && (r.Some? ==>
                 var was := s.sets[o].sessions[agent];
                 r.value == s.(sets := s.sets[o := SessionSet(s.sets[o].activeAgent,
                   s.sets[o].sessions[agent := Session(was.adapter, was.nativeId, false)])]))
  {}

  // ----- Profiles -----

  /** A setting after an update of a Profile that keeps its Agent. */
  function Setting(before: Option<string>, given: Option<string>, clear: bool): Option<string> {
    if clear then None else if given.Some? then given else before
  }

  /** A setting that was there is given again or cleared. */
  predicate Answered(before: Option<string>, given: Option<string>, clear: bool) { before.Some? ==> given.Some? || clear }

  predicate Touches(p: RuntimePatch) { p.agent.Some? || p.model.Some? || p.effort.Some? || p.clearModel || p.clearEffort }

  /** The options turn the runtime into next. */
  predicate Patches(current: Runtime, p: RuntimePatch, next: Runtime) {
    if p.inherit then !Touches(p) && next == GlobalWorker
    else if !Touches(p) then next == current
    else if current.Explicit? && (p.agent.None? || p.agent == Some(current.agent)) then
      next == Explicit(current.agent, Setting(current.model, p.model, p.clearModel), Setting(current.effort, p.effort, p.clearEffort))
    else
      && p.agent.Some? && next == Explicit(p.agent.value, p.model, p.effort)
      && (current.Explicit? ==>
           Answered(current.model, p.model, p.clearModel) && Answered(current.effort, p.effort, p.clearEffort))
  }

  predicate Configured(s: Store, r: Runtime) { r.Explicit? ==> r.agent in s.agents }

  lemma ConfiguredResolves(s: Store, r: Runtime)
    requires Intact(s)
    ensures r.Explicit? ==> (ResolveRuntime(s, r).Some? <==> r.agent in s.agents)
  {
    var worker := Global("worker");
    if r.Explicit? && worker in s.roles { Pinned(s, worker, r.agent); }
  }

  /** Explicit runtimes need a configured Agent; an update refuses options that would carry old settings to another Agent. */
  lemma ProfileChangesAreExact(s: Store, profile: string, runtime: Runtime, patch: RuntimePatch)
    requires Intact(s)
    ensures var r := Step(s, AddProfile(profile, runtime));
            && (r.Some? <==> profile !in s.profiles && Configured(s, runtime))
            && (r.Some? ==> r.value == s.(profiles := s.profiles[profile := runtime]))
    ensures var r := Step(s, UpdateProfile(profile, patch));
            && (r.Some? <==> profile in s.profiles && exists next :: Patches(s.profiles[profile], patch, next) && Configured(s, next))
            && (r.Some? ==>
                 && profile in r.value.profiles && r.value == s.(profiles := s.profiles[profile := r.value.profiles[profile]])
                 && Patches(s.profiles[profile], patch, r.value.profiles[profile]))
  {
    ConfiguredResolves(s, runtime);
    if profile in s.profiles {
      var current := s.profiles[profile];
      PatchMeans(current, patch);
      if PatchedRuntime(current, patch).Some? {
        var next := if PatchedRuntime(current, patch).value.Some? then PatchedRuntime(current, patch).value.value else current;
        assert Configured(s, current);
        ConfiguredResolves(s, next);
        if next == current { assert s.profiles[profile := current] == s.profiles; }
      }
    }
    hide Intact, PatchedRuntime, ResolveRuntime, Patches;
  }

  lemma PatchMeans(current: Runtime, p: RuntimePatch)
    ensures var r := PatchedRuntime(current, p);
            && (r.None? <==> forall next :: !Patches(current, p, next))
            && (r.Some? ==> var next := if r.value.Some? then r.value.value else current;
                 Patches(current, p, next) && forall other :: Patches(current, p, other) ==> other == next)
  {
    var r := PatchedRuntime(current, p);
    if r.Some? { assert Patches(current, p, if r.value.Some? then r.value.value else current); }
  }

  /** The built-in Profiles cannot be removed and can be reset. */
  lemma BuiltinProfilesStay(s: Store, profile: string)
    ensures var r := Step(s, RemoveProfile(profile));
            && (r.Some? <==>
                 profile in s.profiles && profile != "worker" && profile != "explorer" && profile != "implementer" && profile != "reviewer")
            && (r.Some? ==> r.value == s.(profiles := s.profiles - {profile}))
    ensures var r := Step(s, ResetProfiles);
            && r.Some? && r.value == s.(profiles := r.value.profiles)
            && (forall p :: p in r.value.profiles <==> p in s.profiles || p in {"worker", "explorer", "implementer", "reviewer"})
            && (forall p :: p in r.value.profiles ==>
                 r.value.profiles[p] == if p in {"worker", "explorer", "implementer", "reviewer"} then GlobalWorker else s.profiles[p])
  {}

  /** The default Agent must be configured; a Task adopts a Role as it is. */
  lemma DefaultAndAdoptionAreExact(s: Store, agent: string, name: string, owner: Owner)
    ensures var r := Step(s, SetDefault(agent));
            (r.Some? <==> agent in s.agents) && (r.Some? ==> r.value == s.(defaultAgent := Some(agent)))
    ensures Step(s, ClearDefault) == Some(s.(defaultAgent := None))
    ensures var r := Step(s, CopyToTask(name, owner));
            && (r.Some? <==> owner.Task? && owner !in s.roles && Global(name) in s.roles)
            && (r.Some? ==> r.value == s.(roles := s.roles[owner := s.roles[Global(name)]]))
  {}

  /** What a Profile runs with: its Agent plainly, or the worker's Agent under the worker's configuration. */
  lemma ProfileRunsWith(s: Store, r: Runtime)
    requires Intact(s) && ResolveRuntime(s, r).Some?
    ensures r.Explicit? ==> r.agent in s.agents && ResolveRuntime(s, r).value == BindingOf(s.agents[r.agent], "")
    ensures r.GlobalWorker? ==>
      && Global("worker") in s.roles && s.roles[Global("worker")].activeAgent in s.agents
      && var w := s.roles[Global("worker")];
         w.activeAgent in w.bindings && ResolveRuntime(s, r).value == BindingOf(s.agents[w.activeAgent], w.bindings[w.activeAgent].config)
  {
    if Global("worker") in s.roles { Pinned(s, Global("worker"), s.roles[Global("worker")].activeAgent); }
  }
}
