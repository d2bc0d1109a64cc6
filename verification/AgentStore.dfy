// Configured Agents, Roles, Sessions and Profiles in one store. Three command
// families change it and each guards its own side only; together they keep
// every reference intact.

module AgentStore {
  import opened Options

  /** The connection plan and the product reached through it. */
  datatype Adapter = Codex | Claude | Acp

  datatype Component = CodexCli | ClaudeCodeCli | ClaudeAgentSdk | UnknownAcpAgent

  function AdapterOf(c: Component): Adapter {
    match c
    case CodexCli => Codex
    case ClaudeCodeCli => Claude
    case ClaudeAgentSdk => Acp
    case UnknownAcpAgent => Acp
  }

  function DefaultComponent(a: Adapter): Component {
    match a
    case Codex => CodexCli
    case Claude => ClaudeCodeCli
    case Acp => UnknownAcpAgent
  }

  function AdapterNamed(id: string): Option<Adapter> {
    match id
    case "codex" => Some(Codex)
    case "claude" => Some(Claude)
    case "acp" => Some(Acp)
    case _ => None
  }

  /** launch stands for the command, its arguments and its environment. */
  datatype Agent = Agent(component: Component, adapter: Adapter, launch: string)

  datatype Binding = Binding(component: Component, adapter: Adapter, config: string)

  datatype Role = Role(activeAgent: string, bindings: map<string, Binding>)

  datatype Session = Session(adapter: Adapter, nativeId: string, active: bool)

  datatype SessionSet = SessionSet(activeAgent: string, sessions: map<string, Session>)

  /** Roles and their session sets are owned globally or by a Task. */
  datatype Owner = Global(name: string) | Task(task: string, name: string)

  datatype Runtime = GlobalWorker | Explicit(agent: string, model: Option<string>, effort: Option<string>)

  datatype Store = Store(
    agents: map<string, Agent>,
    roles: map<Owner, Role>,
    sets: map<Owner, SessionSet>,
    profiles: map<string, Runtime>,
    defaultAgent: Option<string>)

  /** Options of `config profile update`; a cleared field is not set at the same time. */
  datatype RuntimePatch = RuntimePatch(
    inherit: bool, agent: Option<string>, model: Option<string>, effort: Option<string>, clearModel: bool, clearEffort: bool)

  /**
   * busy holds the owners with pending runtime lifecycle work; allowed tells whether the guards on running Roles let a
   * Role command through: pending work, live Sessions, provenance, whether a launch may continue a Session, and whether a
   * Task's archive holds its native id. The last three are not configuration commands:
   * a Task adopts a Role, a Session is launched, a Session ends.
   */
  datatype Command =
    | AddAgent(id: string, adapter: Option<Adapter>, component: Option<Component>, launch: string)
    | UpdateAgent(id: string, adapter: Option<Adapter>, component: Option<Component>, newLaunch: Option<string>,
                  acknowledged: bool, busy: set<Owner>)
    | RemoveAgent(id: string, busy: set<Owner>)
    | AddRole(name: string, agent: string, config: string, allowed: bool)
    | UpdateRole(name: string, chosen: Option<string>, newConfig: Option<string>, allowed: bool)
    | BindRole(name: string, agent: string, config: string, allowed: bool)
    | UnbindRole(name: string, agent: string)
    | RemoveRole(name: string, allowed: bool)
    | RecordSession(name: string, nativeId: string, replace: bool, allowed: bool)
    | AddProfile(profile: string, runtime: Runtime)
    | UpdateProfile(profile: string, patch: RuntimePatch)
    | RemoveProfile(profile: string)
    | ResetProfiles
    | SetDefault(agent: string)
    | ClearDefault
    | CopyToTask(name: string, owner: Owner)
    | LaunchSession(owner: Owner, nativeId: string, allowed: bool)
    | EndSession(owner: Owner, agent: string)

  const BUILTIN_PROFILES := {"worker", "explorer", "implementer", "reviewer"}
  const SYSTEM_ROLES := {"operator", "leader", "worker"}

  // ----- Reference scans -----

  predicate BoundSomewhere(s: Store, id: string) {
    exists o :: o in s.roles && id in s.roles[o].bindings
  }

  predicate ProfiledSomewhere(s: Store, id: string) {
    exists p :: p in s.profiles && s.profiles[p].Explicit? && s.profiles[p].agent == id
  }

  predicate LiveSomewhere(s: Store, id: string) {
    exists o :: o in s.sets && id in s.sets[o].sessions && s.sets[o].sessions[id].active
  }

  predicate BusySomewhere(s: Store, id: string, busy: set<Owner>) {
    exists o :: o in s.roles && s.roles[o].activeAgent == id && o in busy
  }

  // ----- Agent commands -----

  /** None when the component is reached over another plan. */
  function ResolveComponent(adapter: Adapter, component: Option<Component>): (r: Option<Component>)
    ensures r.Some? ==> AdapterOf(r.value) == adapter
  {
    if component.None? then Some(DefaultComponent(adapter))
    else if AdapterOf(component.value) == adapter then component
    else None
  }

  function DoAddAgent(s: Store, c: Command): Option<Store>
    requires c.AddAgent?
  {
    var adapter := if c.adapter.Some? then c.adapter
                   else if c.component.Some? then Some(AdapterOf(c.component.value))
                   else AdapterNamed(c.id);
    if adapter.None? then None
    else
      var component := ResolveComponent(adapter.value, c.component);
      if component.None? || c.id in s.agents then None
      else Some(s.(agents := s.agents[c.id := Agent(component.value, adapter.value, c.launch)]))
  }

  function DoUpdateAgent(s: Store, c: Command): Option<Store>
    requires c.UpdateAgent?
  {
    if c.adapter.None? && c.component.None? && c.newLaunch.None? then None
    else if c.component.Some? && c.adapter.Some? && AdapterOf(c.component.value) != c.adapter.value then None
    else if c.id !in s.agents then None
    else
      var existing := s.agents[c.id];
      var adapter := if c.component.Some? then AdapterOf(c.component.value)
                     else if c.adapter.Some? then c.adapter.value
                     else existing.adapter;
      var component := if c.component.Some? then c.component.value
                       else if adapter != existing.adapter then DefaultComponent(adapter)
                       else existing.component;
      var next := Agent(component, adapter, if c.newLaunch.Some? then c.newLaunch.value else existing.launch);
      if next == existing then Some(s)
      else if BusySomewhere(s, c.id, c.busy) then None
      else if LiveSomewhere(s, c.id) && !c.acknowledged then None
      else if (adapter != existing.adapter || component != existing.component)
              && (ProfiledSomewhere(s, c.id) || BoundSomewhere(s, c.id)) then None
      else if AdapterOf(component) != adapter then None
      else Some(s.(agents := s.agents[c.id := next]))
  }

  function DoRemoveAgent(s: Store, c: Command): Option<Store>
    requires c.RemoveAgent?
  {
    if c.id !in s.agents || s.defaultAgent == Some(c.id) then None
    else if BusySomewhere(s, c.id, c.busy) || BoundSomewhere(s, c.id) || ProfiledSomewhere(s, c.id) then None
    else if LiveSomewhere(s, c.id) then None
    else Some(s.(agents := s.agents - {c.id}))
  }

  // ----- Role commands -----

  function NewBinding(a: Agent, config: string): Option<Binding> {
    var component := ResolveComponent(a.adapter, Some(a.component));
    if component.None? then None else Some(Binding(component.value, a.adapter, config))
  }

  /** The Role's binding of the agent, or a new one. */
  function BindingFor(s: Store, r: Role, agent: string, config: string): Option<Binding> {
    if agent !in s.agents then None
    else if agent in r.bindings then Some(r.bindings[agent])
    else NewBinding(s.agents[agent], config)
  }

  function DoAddRole(s: Store, c: Command): Option<Store>
    requires c.AddRole?
  {
    var binding := if c.agent in s.agents then NewBinding(s.agents[c.agent], c.config) else None;
    if !c.allowed || binding.None? || Global(c.name) in s.roles then None
    else Some(s.(roles := s.roles[Global(c.name) := Role(c.agent, map[c.agent := binding.value])]))
  }

  /** Without Agent options the bindings are kept; with them one binding is added or reconfigured. */
  function DoUpdateRole(s: Store, c: Command): Option<Store>
    requires c.UpdateRole?
  {
    if Global(c.name) !in s.roles || !c.allowed then None
    else if c.chosen.None? && c.newConfig.None? then Some(s)
    else
      var r := s.roles[Global(c.name)];
      var agent := if c.chosen.Some? then c.chosen.value else r.activeAgent;
      var binding := BindingFor(s, r, agent, "");
      if binding.None? then None
      else
        var config := if c.newConfig.Some? then c.newConfig.value else binding.value.config;
        var patched := binding.value.(config := config);
        Some(s.(roles := s.roles[Global(c.name) := r.(bindings := r.bindings[agent := patched])]))
  }

  /** switchActiveRoleAgent: the set keeps its active Agent while that Agent's native process runs. */
  function SwitchedSet(set0: SessionSet, target: string): SessionSet {
    var running := set0.activeAgent in set0.sessions && set0.sessions[set0.activeAgent].active;
    if running then set0 else set0.(activeAgent := target)
  }

  function SetOf(s: Store, o: Owner, active: string): SessionSet {
    if o in s.sets then s.sets[o] else SessionSet(active, map[])
  }

  function DoBindRole(s: Store, c: Command): Option<Store>
    requires c.BindRole?
  {
    var o := Global(c.name);
    if o !in s.roles || !c.allowed then None
    else
      var r := s.roles[o];
      var binding := BindingFor(s, r, c.agent, c.config);
      if binding.None? then None
      else
        var bound := r.(bindings := r.bindings[c.agent := binding.value]);
        if c.agent == r.activeAgent then Some(s.(roles := s.roles[o := bound]))
        else Some(s.(roles := s.roles[o := bound.(activeAgent := c.agent)],
                     sets := s.sets[o := SwitchedSet(SetOf(s, o, r.activeAgent), c.agent)]))
  }

  predicate WorkerProfileUses(s: Store, name: string, r: Role, agent: string) {
    name == "worker" && agent in r.bindings && agent != r.activeAgent && ProfiledSomewhere(s, agent)
  }

  function DoUnbindRole(s: Store, c: Command): Option<Store>
    requires c.UnbindRole?
  {
    var o := Global(c.name);
    if o !in s.roles then None
    else
      var r := s.roles[o];
      if WorkerProfileUses(s, c.name, r, c.agent) then None
      else if c.agent == r.activeAgent || c.agent !in r.bindings then None
      else
        var unbound := s.(roles := s.roles[o := r.(bindings := r.bindings - {c.agent})]);
        if o !in s.sets then Some(unbound)
        else if c.agent in s.sets[o].sessions && s.sets[o].sessions[c.agent].active then None
        else Some(unbound.(sets := s.sets[o := s.sets[o].(sessions := s.sets[o].sessions - {c.agent})]))
  }

  function DoRemoveRole(s: Store, c: Command): Option<Store>
    requires c.RemoveRole?
  {
    var o := Global(c.name);
    if c.name in SYSTEM_ROLES || o !in s.roles || !c.allowed then None
    else if o in s.sets && exists a :: a in s.sets[o].sessions && s.sets[o].sessions[a].active then None
    else Some(s.(roles := s.roles - {o}, sets := s.sets - {o}))
  }

  // ----- Sessions -----

  /** recordRoleAgentSession with an active Session of the Role's active Agent. */
  function Recorded(s: Store, o: Owner, nativeId: string): Option<Store>
    requires o in s.roles
  {
    var r := s.roles[o];
    if r.activeAgent !in r.bindings || r.activeAgent !in s.agents then None
    else
      var session := Session(r.bindings[r.activeAgent].adapter, nativeId, true);
      var held := SetOf(s, o, r.activeAgent);
      if r.activeAgent in held.sessions
         && (held.sessions[r.activeAgent].adapter != session.adapter
             || (held.sessions[r.activeAgent].active && held.sessions[r.activeAgent].nativeId != nativeId)) then None
      else Some(s.(sets := s.sets[o := SessionSet(r.activeAgent, held.sessions[r.activeAgent := session])]))
  }

  function DoRecordSession(s: Store, c: Command): Option<Store>
    requires c.RecordSession?
  {
    var o := Global(c.name);
    if o !in s.roles || !c.allowed then None
    else
      var active := s.roles[o].activeAgent;
      var known := if o in s.sets && active in s.sets[o].sessions then Some(s.sets[o].sessions[active]) else None;
      if !c.replace && known.Some? && known.value.nativeId != c.nativeId then None
      else if c.replace && (known.None? || known.value.active || known.value.nativeId == c.nativeId) then None
      else Recorded(s, o, c.nativeId)
  }

  // ----- Profiles and the default Agent -----

  /** The binding a Profile runs with; None when its runtime is unavailable. */
  function ResolveRuntime(s: Store, r: Runtime): Option<Binding> {
    var worker := Global("worker");
    match r
    case GlobalWorker =>
      if worker !in s.roles || s.roles[worker].activeAgent !in s.roles[worker].bindings then None
      else
        var id := s.roles[worker].activeAgent;
        var b := s.roles[worker].bindings[id];
        if id !in s.agents || s.agents[id].adapter != b.adapter then None else NewBinding(s.agents[id], b.config)
    case Explicit(id, _, _) =>
      if id !in s.agents then None
      else if worker in s.roles && id in s.roles[worker].bindings
              && s.roles[worker].bindings[id].adapter != s.agents[id].adapter then None
      else NewBinding(s.agents[id], "")
  }

  /** updatedRuntime: Some(None) keeps the runtime, None refuses the options. */
  function PatchedRuntime(current: Runtime, p: RuntimePatch): Option<Option<Runtime>> {
    var touches := p.agent.Some? || p.model.Some? || p.effort.Some? || p.clearModel || p.clearEffort;
    if p.inherit then (if touches then None else Some(Some(GlobalWorker)))
    else if !touches then Some(None)
    else match current
      case GlobalWorker => if p.agent.None? then None else Some(Some(Explicit(p.agent.value, p.model, p.effort)))
      case Explicit(agent, model, effort) =>
        var next := if p.agent.Some? then p.agent.value else agent;
        if next != agent then
          if (model.Some? && p.model.None? && !p.clearModel) || (effort.Some? && p.effort.None? && !p.clearEffort) then None
          else Some(Some(Explicit(next, p.model, p.effort)))
        else
          Some(Some(Explicit(agent,
            if p.clearModel then None else if p.model.Some? then p.model else model,
            if p.clearEffort then None else if p.effort.Some? then p.effort else effort)))
  }

  function SaveRuntime(s: Store, profile: string, r: Runtime): Option<Store> {
    if r.Explicit? && ResolveRuntime(s, r).None? then None else Some(s.(profiles := s.profiles[profile := r]))
  }

  function DoProfile(s: Store, c: Command): Option<Store>
    requires c.AddProfile? || c.UpdateProfile? || c.RemoveProfile? || c.ResetProfiles?
  {
    match c
    case AddProfile(profile, runtime) => if profile in s.profiles then None else SaveRuntime(s, profile, runtime)
    case UpdateProfile(profile, patch) =>
      if profile !in s.profiles then None
      else (match PatchedRuntime(s.profiles[profile], patch)
        case None => None
        case Some(None) => Some(s)
        case Some(Some(runtime)) => SaveRuntime(s, profile, runtime))
    case RemoveProfile(profile) =>
      if profile in BUILTIN_PROFILES || profile !in s.profiles then None else Some(s.(profiles := s.profiles - {profile}))
    case ResetProfiles => Some(s.(profiles := s.profiles + map p | p in BUILTIN_PROFILES :: GlobalWorker))
  }

  function Step(s: Store, c: Command): Option<Store> {
    match c
    case AddAgent(_, _, _, _) => DoAddAgent(s, c)
    case UpdateAgent(_, _, _, _, _, _) => DoUpdateAgent(s, c)
    case RemoveAgent(_, _) => DoRemoveAgent(s, c)
    case AddRole(_, _, _, _) => DoAddRole(s, c)
    case UpdateRole(_, _, _, _) => DoUpdateRole(s, c)
    case BindRole(_, _, _, _) => DoBindRole(s, c)
    case UnbindRole(_, _) => DoUnbindRole(s, c)
    case RemoveRole(_, _) => DoRemoveRole(s, c)
    case RecordSession(_, _, _, _) => DoRecordSession(s, c)
    case AddProfile(_, _) => DoProfile(s, c)
    case UpdateProfile(_, _) => DoProfile(s, c)
    case RemoveProfile(_) => DoProfile(s, c)
    case ResetProfiles => DoProfile(s, c)
    case SetDefault(agent) => if agent in s.agents then Some(s.(defaultAgent := Some(agent))) else None
    case ClearDefault => Some(s.(defaultAgent := None))
    case CopyToTask(name, owner) =>
      if owner.Global? || owner in s.roles || Global(name) !in s.roles then None
      else Some(s.(roles := s.roles[owner := s.roles[Global(name)]]))
    case LaunchSession(owner, nativeId, allowed) =>
      if allowed && owner in s.roles then Recorded(s, owner, nativeId) else None
    case EndSession(owner, agent) =>
      if owner in s.sets && agent in s.sets[owner].sessions
      then Some(s.(sets := s.sets[owner := s.sets[owner].(
        sessions := s.sets[owner].sessions[agent := s.sets[owner].sessions[agent].(active := false)])]))
      else None
  }

  // ----- Referential integrity -----

  predicate Pins(s: Store, agent: string, b: Binding) {
    agent in s.agents && s.agents[agent].adapter == b.adapter && s.agents[agent].component == b.component
  }

  predicate RoleIntact(s: Store, r: Role) {
    r.activeAgent in r.bindings && forall a :: a in r.bindings ==> Pins(s, a, r.bindings[a])
  }

  predicate SetIntact(r: Role, t: SessionSet) {
    forall a :: a in t.sessions ==> a in r.bindings && t.sessions[a].adapter == r.bindings[a].adapter
  }

  predicate Intact(s: Store) {
    && (forall a :: a in s.agents ==> AdapterOf(s.agents[a].component) == s.agents[a].adapter)
    && (forall o :: o in s.roles ==> RoleIntact(s, s.roles[o]))
    && (forall o :: o in s.sets ==> o in s.roles && SetIntact(s.roles[o], s.sets[o]))
    && (forall p :: p in s.profiles && s.profiles[p].Explicit? ==> s.profiles[p].agent in s.agents)
    && (s.defaultAgent.Some? ==> s.defaultAgent.value in s.agents)
  }

  const EMPTY_STORE := Store(map[], map[], map[], map[], None)

  lemma RemovalKeeps(s: Store, c: Command)
    requires Intact(s) && Step(s, c).Some? && c.RemoveAgent?
    ensures Intact(Step(s, c).value)
  {
    var t := Step(s, c).value;
    forall o | o in t.roles ensures RoleIntact(t, t.roles[o]) { assert RoleIntact(s, s.roles[o]); }
  }

  /** An Agent may be added, and its product and plan changed while no Role is bound to it. */
  lemma PutAgent(s: Store, id: string, a: Agent)
    requires Intact(s) && AdapterOf(a.component) == a.adapter
    requires id in s.agents ==>
      !BoundSomewhere(s, id) || (a.adapter == s.agents[id].adapter && a.component == s.agents[id].component)
    ensures Intact(s.(agents := s.agents[id := a]))
  {
    hide SetIntact;
    var t := s.(agents := s.agents[id := a]);
    forall o | o in t.roles ensures RoleIntact(t, t.roles[o]) { assert RoleIntact(s, s.roles[o]); }
  }

  lemma NewIdentityKeeps(s: Store, c: Command)
    requires Intact(s) && Step(s, c).Some? && (c.AddAgent? || c.UpdateAgent?)
    ensures Intact(Step(s, c).value)
  {
    hide BusySomewhere, LiveSomewhere, BoundSomewhere, ProfiledSomewhere, Intact;
    var t := Step(s, c).value;
    if t != s { PutAgent(s, c.id, t.agents[c.id]); }
  }

  lemma OwnerIntact(s: Store, o: Owner)
    requires Intact(s) && o in s.roles
    ensures RoleIntact(s, s.roles[o]) && (o in s.sets ==> SetIntact(s.roles[o], s.sets[o]))
  {}

  lemma PutRole(s: Store, o: Owner, r: Role)
    requires Intact(s) && RoleIntact(s, r) && (o in s.sets ==> SetIntact(r, s.sets[o]))
    ensures Intact(s.(roles := s.roles[o := r]))
  {
    var t := s.(roles := s.roles[o := r]);
    forall p | p in t.roles ensures RoleIntact(t, t.roles[p]) { assert p != o ==> RoleIntact(s, s.roles[p]); }
  }

  lemma PutSet(s: Store, o: Owner, t: SessionSet)
    requires Intact(s) && o in s.roles && SetIntact(s.roles[o], t)
    ensures Intact(s.(sets := s.sets[o := t]))
  {
    var v := s.(sets := s.sets[o := t]);
    forall p | p in v.roles ensures RoleIntact(v, v.roles[p]) { assert RoleIntact(s, s.roles[p]); }
  }

  lemma BindingCommandsKeep(s: Store, c: Command)
    requires Intact(s) && Step(s, c).Some? && (c.AddRole? || c.UpdateRole?)
    ensures Intact(Step(s, c).value)
  {
    var t := Step(s, c).value;
    var o := Global(c.name);
    if o in s.roles { OwnerIntact(s, o); }
    if o in t.roles && t.roles != s.roles {
      assert c.AddRole? ==> AdapterOf(s.agents[c.agent].component) == s.agents[c.agent].adapter;
      assert t == s.(roles := s.roles[o := t.roles[o]]);
      assert c.AddRole? ==> o !in s.sets;
      PutRole(s, o, t.roles[o]);
    }
  }

  lemma BindKeeps(s: Store, c: Command)
    requires Intact(s) && c.BindRole? && Step(s, c).Some?
    ensures Intact(Step(s, c).value)
  {
    var o := Global(c.name);
    OwnerIntact(s, o);
    var r := s.roles[o];
    var bound := r.(bindings := r.bindings[c.agent := BindingFor(s, r, c.agent, c.config).value]);
    PutRole(s, o, bound);
    if c.agent != r.activeAgent {
      hide Intact;
      var switched := bound.(activeAgent := c.agent);
      PutRole(s, o, switched);
      PutSet(s.(roles := s.roles[o := switched]), o, SwitchedSet(SetOf(s, o, r.activeAgent), c.agent));
    }
  }

  lemma UnbindKeeps(s: Store, c: Command)
    requires Intact(s) && c.UnbindRole? && Step(s, c).Some?
    ensures Intact(Step(s, c).value)
  {
    var o := Global(c.name);
    OwnerIntact(s, o);
    var r := s.roles[o];
    var unbound := r.(bindings := r.bindings - {c.agent});
    if o in s.sets {
      var trimmed := s.sets[o].(sessions := s.sets[o].sessions - {c.agent});
      PutSet(s, o, trimmed);
      PutRole(s.(sets := s.sets[o := trimmed]), o, unbound);
    } else {
      PutRole(s, o, unbound);
    }
  }

  lemma RemoveRoleKeeps(s: Store, c: Command)
    requires Intact(s) && c.RemoveRole? && Step(s, c).Some?
    ensures Intact(Step(s, c).value)
  {
    var t := Step(s, c).value;
    forall p | p in t.roles ensures RoleIntact(t, t.roles[p]) { assert RoleIntact(s, s.roles[p]); }
  }

  lemma SessionCommandsKeep(s: Store, c: Command)
    requires Intact(s) && Step(s, c).Some? && (c.RecordSession? || c.LaunchSession? || c.EndSession? || c.CopyToTask?)
    ensures Intact(Step(s, c).value)
  {
    hide Intact, RoleIntact;
    var t := Step(s, c).value;
    var o := if c.RecordSession? then Global(c.name) else c.owner;
    if c.CopyToTask? {
      OwnerIntact(s, Global(c.name));
      NoSetWithoutRole(s, o);
      PutRole(s, o, s.roles[Global(c.name)]);
    } else {
      NoSetWithoutRole(s, o);
      OwnerIntact(s, o);
      PutSet(s, o, t.sets[o]);
    }
  }

  lemma NoSetWithoutRole(s: Store, o: Owner)
    requires Intact(s)
    ensures o in s.sets ==> o in s.roles
  {}

  lemma ProfileCommandsKeep(s: Store, c: Command)
    requires Intact(s) && Step(s, c).Some?
    requires c.AddProfile? || c.UpdateProfile? || c.RemoveProfile? || c.ResetProfiles? || c.SetDefault? || c.ClearDefault?
    ensures Intact(Step(s, c).value)
  {
    var t := Step(s, c).value;
    forall p | p in t.roles ensures RoleIntact(t, t.roles[p]) { assert RoleIntact(s, s.roles[p]); }
  }

  lemma StepKeepsIntact(s: Store, c: Command)
    requires Intact(s) && Step(s, c).Some?
    ensures Intact(Step(s, c).value)
  {
    hide Step, Intact;
    if c.AddAgent? || c.UpdateAgent? { NewIdentityKeeps(s, c); }
    else if c.RemoveAgent? { RemovalKeeps(s, c); }
    else if c.AddRole? || c.UpdateRole? { BindingCommandsKeep(s, c); }
    else if c.BindRole? { BindKeeps(s, c); }
    else if c.UnbindRole? { UnbindKeeps(s, c); }
    else if c.RemoveRole? { RemoveRoleKeeps(s, c); }
    else if c.RecordSession? || c.LaunchSession? || c.EndSession? || c.CopyToTask? { SessionCommandsKeep(s, c); }
    else { ProfileCommandsKeep(s, c); }
  }

  /** The store after any sequence of commands; a refused one is rolled back. */
  function After(s: Store, commands: seq<Command>): Store {
    if commands == [] then s
    else
      var before := After(s, commands[..|commands| - 1]);
      var r := Step(before, commands[|commands| - 1]);
      if r.None? then before else r.value
  }

  /** Commands run one after another; a refused one leaves the store as it is. */
  lemma {:induction false} CommandsRunInOrder(s: Store, a: seq<Command>, b: seq<Command>, c: Command)
    ensures After(s, a + b) == After(After(s, a), b)
    ensures After(s, [c]) == if Step(s, c).Some? then Step(s, c).value else s
    decreases |b|
  {
    hide Step;
    assert [c][..0] == [];
    if b == [] {
      assert a + b == a;
    } else {
      assert (a + b)[..|a + b| - 1] == a + b[..|b| - 1];
      CommandsRunInOrder(s, a, b[..|b| - 1], c);
    }
  }

  lemma {:induction false} AlwaysIntact(commands: seq<Command>)
    ensures Intact(After(EMPTY_STORE, commands))
  {
    if commands != [] {
      hide Step, Intact;
      var n := |commands| - 1;
      AlwaysIntact(commands[..n]);
      var before := After(EMPTY_STORE, commands[..n]);
      if Step(before, commands[n]).Some? { StepKeepsIntact(before, commands[n]); }
    } else {
      hide Step;
    }
  }

  /** Every reference in a reachable store names a configured Agent, of the same product over the same plan. */
  lemma ReferencesResolve(commands: seq<Command>)
    ensures var s := After(EMPTY_STORE, commands);
            && (forall o, a :: o in s.roles && a in s.roles[o].bindings ==> Pins(s, a, s.roles[o].bindings[a]))
            && (forall o :: o in s.roles ==> s.roles[o].activeAgent in s.roles[o].bindings)
            && (forall o, a :: o in s.sets && a in s.sets[o].sessions ==>
                 a in s.agents && s.sets[o].sessions[a].adapter == s.agents[a].adapter)
            && (forall p :: p in s.profiles && s.profiles[p].Explicit? ==> s.profiles[p].agent in s.agents)
            && (s.defaultAgent.Some? ==> s.defaultAgent.value in s.agents)
            && (forall a :: a in s.agents ==> AdapterOf(s.agents[a].component) == s.agents[a].adapter)
  {
    hide Step, After;
    AlwaysIntact(commands);
    var s := After(EMPTY_STORE, commands);
    forall o | o in s.roles ensures RoleIntact(s, s.roles[o]) {}
    forall o, a | o in s.sets && a in s.sets[o].sessions
      ensures a in s.agents && s.sets[o].sessions[a].adapter == s.agents[a].adapter
    {
      OwnerIntact(s, o);
      assert Pins(s, a, s.roles[o].bindings[a]);
    }
  }

  /**
   * An Agent can be removed exactly when it is configured, unbound, not the default and in no explicit Profile: the
   * guards on lifecycle work and live Sessions never decide.
   */
  lemma RemovalIsAllowedExactly(s: Store, id: string, busy: set<Owner>)
    requires Intact(s)
    ensures Step(s, RemoveAgent(id, busy)).Some? <==>
              id in s.agents && s.defaultAgent != Some(id) && !BoundSomewhere(s, id) && !ProfiledSomewhere(s, id)
  {
    if BusySomewhere(s, id, busy) {
      var o :| o in s.roles && s.roles[o].activeAgent == id && o in busy;
      assert RoleIntact(s, s.roles[o]);
    }
    if LiveSomewhere(s, id) {
      var o :| o in s.sets && id in s.sets[o].sessions && s.sets[o].sessions[id].active;
      assert SetIntact(s.roles[o], s.sets[o]);
    }
  }

  /** The identity of a bound or profiled Agent never changes. */
  lemma ReferencedIdentityIsFixed(s: Store, c: Command, id: string)
    requires Step(s, c).Some? && id in s.agents && (BoundSomewhere(s, id) || ProfiledSomewhere(s, id))
    ensures var t := Step(s, c).value;
            id in t.agents && t.agents[id].adapter == s.agents[id].adapter && t.agents[id].component == s.agents[id].component
  {
    if !c.AddAgent? && !c.UpdateAgent? && !c.RemoveAgent? {
      hide Step;
      OthersKeepAgents(s, c);
    }
  }

  lemma OthersKeepAgents(s: Store, c: Command)
    requires Step(s, c).Some? && !c.AddAgent? && !c.UpdateAgent? && !c.RemoveAgent?
    ensures Step(s, c).value.agents == s.agents
  {}

  /** On an intact store every explicit Profile has a runtime, and an inherited one has exactly when there is a worker. */
  lemma ProfilesAlwaysResolve(s: Store, p: string)
    requires Intact(s) && p in s.profiles
    ensures ResolveRuntime(s, s.profiles[p]).Some? <==> s.profiles[p].Explicit? || Global("worker") in s.roles
  {
    if Global("worker") in s.roles { assert RoleIntact(s, s.roles[Global("worker")]); }
  }

  /** Unbinding works exactly for a dormant, idle binding that no worker Profile derives from; it drops its Session too. */
  lemma UnbindingIsAllowedExactly(s: Store, name: string, agent: string)
    requires Intact(s)
    ensures var r := Step(s, UnbindRole(name, agent)); var o := Global(name);
            && (r.Some? <==>
                 && o in s.roles && agent in s.roles[o].bindings && agent != s.roles[o].activeAgent
                 && !(name == "worker" && ProfiledSomewhere(s, agent))
                 && !(o in s.sets && agent in s.sets[o].sessions && s.sets[o].sessions[agent].active))
            && (r.Some? ==>
                 && o in r.value.roles && r.value.roles[o].bindings.Keys == s.roles[o].bindings.Keys - {agent}
                 && (o in r.value.sets ==> agent !in r.value.sets[o].sessions))
  {}

  function SettingOf(r: Runtime, effort: bool): Option<string> {
    if r.GlobalWorker? then None else if effort then r.effort else r.model
  }

  /** The Profile runs this Agent with this model (or effort). */
  predicate Carries(s: Store, p: string, agent: string, effort: bool, value: string) {
    && p in s.profiles && s.profiles[p].Explicit? && s.profiles[p].agent == agent
    && SettingOf(s.profiles[p], effort) == Some(value)
  }

  /** The command itself names this model (or effort) for the Profile. */
  predicate Chooses(c: Command, p: string, effort: bool, value: string) {
    match c
    case AddProfile(profile, runtime) => profile == p && SettingOf(runtime, effort) == Some(value)
    case UpdateProfile(profile, patch) => profile == p && (if effort then patch.effort else patch.model) == Some(value)
    case _ => false
  }

  lemma NewSettingsAreChosen(s: Store, c: Command, p: string, agent: string, effort: bool, value: string)
    requires Step(s, c).Some? && Carries(Step(s, c).value, p, agent, effort, value) && !Carries(s, p, agent, effort, value)
    ensures Chooses(c, p, effort, value)
  {
    if !c.AddProfile? && !c.UpdateProfile? && !c.RemoveProfile? && !c.ResetProfiles? {
      hide Step, ProfiledSomewhere;
      OthersKeepProfiles(s, c);
    }
  }

  lemma OthersKeepProfiles(s: Store, c: Command)
    requires Step(s, c).Some? && !c.AddProfile? && !c.UpdateProfile? && !c.RemoveProfile? && !c.ResetProfiles?
    ensures Step(s, c).value.profiles == s.profiles
  {}

  /**
   * No Profile ever carries a model or effort that was chosen for another Agent: some command named the value for the
   * Profile, and from then on the Profile has run this Agent with it.
   */
  lemma {:induction false} SettingsWereChosenForTheirAgent(cs: seq<Command>, p: string, agent: string, effort: bool, value: string)
    requires Carries(After(EMPTY_STORE, cs), p, agent, effort, value)
    ensures exists i :: 0 <= i < |cs| && Chooses(cs[i], p, effort, value)
                        && forall j :: i < j <= |cs| ==> Carries(After(EMPTY_STORE, cs[..j]), p, agent, effort, value)
  {
    hide After, Carries, Chooses;
    if cs == [] {
      NothingCarried(p, agent, effort, value);
    } else {
      var n := |cs| - 1;
      var before := After(EMPTY_STORE, cs[..n]);
      assert cs[..|cs|] == cs;
      var i := n;
      if Carries(before, p, agent, effort, value) {
        SettingsWereChosenForTheirAgent(cs[..n], p, agent, effort, value);
        i :| 0 <= i < n && Chooses(cs[..n][i], p, effort, value)
             && forall j :: i < j <= n ==> Carries(After(EMPTY_STORE, cs[..n][..j]), p, agent, effort, value);
        assert forall j :: i < j <= n ==> cs[..n][..j] == cs[..j];
      } else {
        LastCommandChose(cs, p, agent, effort, value);
      }
      assert Chooses(cs[i], p, effort, value);
    }
  }

  lemma NothingCarried(p: string, agent: string, effort: bool, value: string)
    ensures !Carries(After(EMPTY_STORE, []), p, agent, effort, value)
  {}

  lemma LastCommandChose(cs: seq<Command>, p: string, agent: string, effort: bool, value: string)
    requires cs != [] && Carries(After(EMPTY_STORE, cs), p, agent, effort, value)
    requires !Carries(After(EMPTY_STORE, cs[..|cs| - 1]), p, agent, effort, value)
    ensures Chooses(cs[|cs| - 1], p, effort, value)
  {
    hide Step, Carries, Chooses;
    NewSettingsAreChosen(After(EMPTY_STORE, cs[..|cs| - 1]), cs[|cs| - 1], p, agent, effort, value);
  }

  // ----- Round trips -----

  lemma UnknownIsUnbound(s: Store, id: string)
    requires Intact(s) && id !in s.agents
    ensures forall o :: o in s.roles ==> id !in s.roles[o].bindings
  {
    forall o | o in s.roles ensures id !in s.roles[o].bindings {
      assert RoleIntact(s, s.roles[o]) && (id in s.roles[o].bindings ==> Pins(s, id, s.roles[o].bindings[id]));
    }
  }

  /** Adding an Agent and removing it again leaves the store as it was. */
  lemma AddedAgentCanBeRemoved(s: Store, c: Command, busy: set<Owner>)
    requires Intact(s) && c.AddAgent? && Step(s, c).Some?
    ensures Step(Step(s, c).value, RemoveAgent(c.id, busy)) == Some(s)
  {
    var t := Step(s, c).value;
    NewIdentityKeeps(s, c);
    UnknownIsUnbound(s, c.id);
    RemovalIsAllowedExactly(t, c.id, busy);
    assert t.agents - {c.id} == s.agents;
  }

  lemma UnbindResult(s: Store, name: string, agent: string, t: Store)
    requires Step(s, UnbindRole(name, agent)) == Some(t)
    ensures var o := Global(name);
            && o in s.roles && agent in s.roles[o].bindings && t == s.(roles := t.roles, sets := t.sets)
            && t.roles == s.roles[o := s.roles[o].(bindings := s.roles[o].bindings - {agent})]
            && (o in s.sets ==> o in t.sets && t.sets[o].sessions == s.sets[o].sessions - {agent})
  {}

  /** Once unbound from a Role, an Agent can be removed exactly when nothing else refers to it. */
  lemma UnbindFreesAgent(s: Store, name: string, agent: string, t: Store, busy: set<Owner>)
    requires Intact(s) && Step(s, UnbindRole(name, agent)) == Some(t)
    ensures Step(t, RemoveAgent(agent, busy)).Some? <==>
              && s.defaultAgent != Some(agent) && !ProfiledSomewhere(s, agent)
              && forall o :: o in s.roles && o != Global(name) ==> agent !in s.roles[o].bindings
  {
    hide Step;
    UnbindKeeps(s, UnbindRole(name, agent));
    UnbindResult(s, name, agent, t);
    RemovalIsAllowedExactly(t, agent, busy);
    OwnerIntact(s, Global(name));
    assert Pins(s, agent, s.roles[Global(name)].bindings[agent]);
    hide Intact, RoleIntact, SetIntact;
    assert ProfiledSomewhere(t, agent) <==> ProfiledSomewhere(s, agent);
    assert agent !in t.roles[Global(name)].bindings;
    if o :| o in s.roles && o != Global(name) && agent in s.roles[o].bindings {
      assert o in t.roles && agent in t.roles[o].bindings;
    }
  }

  lemma BindResult(s: Store, name: string, agent: string, config: string, t: Store)
    requires Step(s, BindRole(name, agent, config, true)) == Some(t)
    ensures var o := Global(name);
            && o in s.roles && t == s.(roles := t.roles, sets := t.sets) && o in t.roles
            && t.roles == s.roles[o := Role(agent, t.roles[o].bindings)] && agent in t.roles[o].bindings
            && (forall a :: a in s.roles[o].bindings ==> a in t.roles[o].bindings && t.roles[o].bindings[a] == s.roles[o].bindings[a])
            && t.roles[o].bindings.Keys == s.roles[o].bindings.Keys + {agent}
            && (o in s.sets ==> o in t.sets && t.sets[o].sessions == s.sets[o].sessions)
            && (o in t.sets && o !in s.sets ==> t.sets[o].sessions == map[])
  {
    hide ProfiledSomewhere, BoundSomewhere, ResolveComponent;
  }

  lemma SameProfiles(s: Store, t: Store, id: string)
    requires s.profiles == t.profiles
    ensures ProfiledSomewhere(s, id) <==> ProfiledSomewhere(t, id)
  {}

  /** After binding a new Agent and going back, only the new binding is left over. */
  lemma ReboundRole(s: Store, name: string, agent: string, config: string, t: Store, u: Store)
    requires Global(name) in s.roles && agent !in s.roles[Global(name)].bindings
    requires s.roles[Global(name)].activeAgent in s.roles[Global(name)].bindings
    requires Step(s, BindRole(name, agent, config, true)) == Some(t)
    requires Step(t, BindRole(name, s.roles[Global(name)].activeAgent, config, true)) == Some(u)
    ensures var o := Global(name);
            && o in u.roles && u == s.(roles := u.roles, sets := u.sets)
            && u.roles == s.roles[o := Role(s.roles[o].activeAgent, u.roles[o].bindings)]
            && agent in u.roles[o].bindings && u.roles[o].bindings - {agent} == s.roles[o].bindings
            && (o in s.sets ==> o in u.sets && u.sets[o].sessions == s.sets[o].sessions)
            && (o in u.sets && o !in s.sets ==> u.sets[o].sessions == map[])
  {
    hide Step;
    BindResult(s, name, agent, config, t);
    BindResult(t, name, s.roles[Global(name)].activeAgent, config, u);
  }

  /** Binding a new Agent, going back and unbinding it leaves every Role as it was and no Session behind. */
  lemma RebindingIsUndone(s: Store, name: string, agent: string, config: string, t: Store, u: Store)
    requires Intact(s) && Global(name) in s.roles && agent !in s.roles[Global(name)].bindings
    requires name == "worker" ==> !ProfiledSomewhere(s, agent)
    requires Step(s, BindRole(name, agent, config, true)) == Some(t)
    requires Step(t, BindRole(name, s.roles[Global(name)].activeAgent, config, true)) == Some(u)
    ensures var v := Step(u, UnbindRole(name, agent));
            && v.Some? && v.value == s.(sets := v.value.sets)
            && (Global(name) in s.sets ==>
                 Global(name) in v.value.sets && v.value.sets[Global(name)].sessions == s.sets[Global(name)].sessions)
  {
    hide Step;
    var o := Global(name);
    OwnerIntact(s, o);
    StepKeepsIntact(s, BindRole(name, agent, config, true));
    StepKeepsIntact(t, BindRole(name, s.roles[o].activeAgent, config, true));
    hide Intact;
    ReboundRole(s, name, agent, config, t, u);
    SameProfiles(s, u, agent);
    UnbindingIsAllowedExactly(u, name, agent);
    var v := Step(u, UnbindRole(name, agent)).value;
    UnbindResult(u, name, agent, v);
    assert v.roles == s.roles;
    if o in s.sets { assert v.sets[o].sessions == s.sets[o].sessions; }
  }

  // ----- Which Agent a session set calls active -----

  /** The set goes on naming another Agent than its Role's active one. */
  predicate Behind(s: Store, o: Owner) {
    o in s.sets && o in s.roles && s.sets[o].activeAgent != s.roles[o].activeAgent
  }

  /** A bind that moves the Role to another Agent while the set's active Agent has a running Session. */
  predicate BindsWhileRunning(s: Store, c: Command, o: Owner) {
    && c.BindRole? && Global(c.name) == o && o in s.roles && o in s.sets && c.agent != s.roles[o].activeAgent
    && s.sets[o].activeAgent in s.sets[o].sessions && s.sets[o].sessions[s.sets[o].activeAgent].active
  }

  /** A set falls behind its Role exactly by a bind while its active Agent is running. */
  lemma FallsBehindExactly(s: Store, c: Command, o: Owner)
    requires Intact(s) && Step(s, c).Some? && !Behind(s, o)
    ensures Behind(Step(s, c).value, o) <==> BindsWhileRunning(s, c, o)
  {
    hide RoleIntact, ProfiledSomewhere, BoundSomewhere, ResolveRuntime, PatchedRuntime;
    NoSetWithoutRole(s, o);
    if !c.BindRole? {
      OnlyBindsFallBehind(s, c, o);
      hide Step;
    }
  }

  lemma OnlyBindsFallBehind(s: Store, c: Command, o: Owner)
    requires Step(s, c).Some? && !Behind(s, o) && !c.BindRole? && (o in s.sets ==> o in s.roles)
    ensures !Behind(Step(s, c).value, o)
  {
    hide ProfiledSomewhere, BoundSomewhere, BusySomewhere, LiveSomewhere, ResolveRuntime, PatchedRuntime, ResolveComponent;
  }

  predicate NeverBindsWhileRunning(cs: seq<Command>) {
    forall i, o :: 0 <= i < |cs| && o in After(EMPTY_STORE, cs[..i]).roles ==>
      !BindsWhileRunning(After(EMPTY_STORE, cs[..i]), cs[i], o)
  }

  /** In a history without such a bind, every session set names its Role's active and hence configured Agent. */
  lemma {:induction false} SetsFollowTheirRoles(cs: seq<Command>)
    requires NeverBindsWhileRunning(cs)
    ensures var s := After(EMPTY_STORE, cs);
            forall o :: o in s.sets ==> o in s.roles && s.sets[o].activeAgent == s.roles[o].activeAgent
                                        && s.sets[o].activeAgent in s.agents
  {
    var s := After(EMPTY_STORE, cs);
    AlwaysIntact(cs);
    if cs != [] {
      var n := |cs| - 1;
      var before := After(EMPTY_STORE, cs[..n]);
      assert NeverBindsWhileRunning(cs[..n]) by {
        assert forall i :: 0 <= i < n ==> cs[..n][..i] == cs[..i];
      }
      SetsFollowTheirRoles(cs[..n]);
      AlwaysIntact(cs[..n]);
      hide Step, Intact, BindsWhileRunning;
      if Step(before, cs[n]).Some? {
        forall o ensures !Behind(s, o) {
          assert !BindsWhileRunning(before, cs[n], o) by {
            if o !in before.roles { NoBindWithoutRole(before, cs[n], o); }
          }
          FallsBehindExactly(before, cs[n], o);
        }
      }
    }
    forall o | o in s.sets
      ensures o in s.roles && s.sets[o].activeAgent == s.roles[o].activeAgent && s.sets[o].activeAgent in s.agents
    {
      SetFollows(s, o);
    }
  }

  lemma NoBindWithoutRole(s: Store, c: Command, o: Owner)
    requires o !in s.roles
    ensures !BindsWhileRunning(s, c, o)
  {}

  lemma SetFollows(s: Store, o: Owner)
    requires Intact(s) && o in s.sets && !Behind(s, o)
    ensures o in s.roles && s.sets[o].activeAgent == s.roles[o].activeAgent && s.sets[o].activeAgent in s.agents
  {
    OwnerIntact(s, o);
    assert Pins(s, s.roles[o].activeAgent, s.roles[o].bindings[s.roles[o].activeAgent]);
  }

  predicate SetsConfigured(s: Store) {
    forall o :: o in s.sets ==> s.sets[o].activeAgent in s.agents
  }

  predicate NamedBySet(s: Store, id: string) {
    exists o :: o in s.sets && s.sets[o].activeAgent == id
  }

  /** A set comes to name an unconfigured Agent exactly by the removal of an Agent that some set still names. */
  lemma DanglesExactly(s: Store, c: Command)
    requires Intact(s) && SetsConfigured(s) && Step(s, c).Some?
    ensures SetsConfigured(Step(s, c).value) <==> !(c.RemoveAgent? && NamedBySet(s, c.id))
  {
    hide ProfiledSomewhere, BoundSomewhere, ResolveRuntime, PatchedRuntime;
    if c.RemoveAgent? {
      assert NamedBySet(s, c.id) ==> exists o :: o in s.sets && s.sets[o].activeAgent == c.id;
    } else {
      StepKeepsIntact(s, c);
      var t := Step(s, c).value;
      forall o | o in t.sets ensures t.sets[o].activeAgent in t.agents {
        KeepsNaming(s, c, o);
      }
    }
  }

  /** A set keeps the name it holds or takes its Role's active Agent. */
  predicate NamesOldOrRole(s: Store, t: Store, o: Owner) {
    o in t.sets ==>
      || (o in s.sets && t.sets[o].activeAgent == s.sets[o].activeAgent)
      || (o in t.roles && t.sets[o].activeAgent == t.roles[o].activeAgent)
  }

  predicate TouchesSets(c: Command) {
    c.BindRole? || c.UnbindRole? || c.RemoveRole? || c.RecordSession? || c.LaunchSession? || c.EndSession?
  }

  lemma OthersKeepSets(s: Store, c: Command)
    requires Step(s, c).Some? && !TouchesSets(c)
    ensures Step(s, c).value.sets == s.sets
  {}

  lemma SetCommandsName(s: Store, c: Command, o: Owner)
    requires Step(s, c).Some? && TouchesSets(c)
    ensures NamesOldOrRole(s, Step(s, c).value, o)
  {
    hide ResolveComponent, ProfiledSomewhere;
  }

  lemma KeepsNaming(s: Store, c: Command, o: Owner)
    requires SetsConfigured(s) && Step(s, c).Some? && !c.RemoveAgent?
    requires Intact(Step(s, c).value) && o in Step(s, c).value.sets
    ensures Step(s, c).value.sets[o].activeAgent in Step(s, c).value.agents
  {
    hide Step, Intact;
    if TouchesSets(c) { SetCommandsName(s, c, o); } else { OthersKeepSets(s, c); }
    OthersKeepNames(s, c);
    if !Behind(Step(s, c).value, o) && o in Step(s, c).value.roles { SetFollows(Step(s, c).value, o); }
  }

  lemma OthersKeepNames(s: Store, c: Command)
    requires Step(s, c).Some? && !c.RemoveAgent?
    ensures s.agents.Keys <= Step(s, c).value.agents.Keys
  {
    if !c.AddAgent? && !c.UpdateAgent? {
      hide Step;
      OthersKeepAgents(s, c);
    }
  }

  const SWITCHED_WHILE_RUNNING := [
    AddAgent("a", Some(Codex), None, "codex"), AddAgent("b", Some(Codex), None, "codex"), AddRole("operator", "a", "", true),
    RecordSession("operator", "n", false, true), BindRole("operator", "b", "", true), EndSession(Global("operator"), "a"),
    UnbindRole("operator", "a"), RemoveAgent("a", {})]

  const CODEX_AGENT := Agent(CodexCli, Codex, "codex")
  const CODEX_BINDING := Binding(CodexCli, Codex, "")
  const OPERATOR := Global("operator")
  const ONE_AGENT := Store(map["a" := CODEX_AGENT], map[], map[], map[], None)
  const TWO_AGENTS := Store(map["a" := CODEX_AGENT, "b" := CODEX_AGENT], map[], map[], map[], None)
  const ROLE_ADDED := TWO_AGENTS.(roles := map[OPERATOR := Role("a", map["a" := CODEX_BINDING])])
  const RUNNING := ROLE_ADDED.(sets := map[OPERATOR := SessionSet("a", map["a" := Session(Codex, "n", true)])])
  const REBOUND := RUNNING.(roles := map[OPERATOR := Role("b", map["a" := CODEX_BINDING, "b" := CODEX_BINDING])])
  const ENDED := REBOUND.(sets := map[OPERATOR := SessionSet("a", map["a" := Session(Codex, "n", false)])])
  const UNBOUND := ENDED.(roles := map[OPERATOR := Role("b", map["b" := CODEX_BINDING])], sets := map[OPERATOR := SessionSet("a", map[])])
  const REMOVED := UNBOUND.(agents := map["b" := CODEX_AGENT])

  lemma OperatorStarts()
    ensures var cs := SWITCHED_WHILE_RUNNING;
            && Step(EMPTY_STORE, cs[0]) == Some(ONE_AGENT) && Step(ONE_AGENT, cs[1]) == Some(TWO_AGENTS)
            && Step(TWO_AGENTS, cs[2]) == Some(ROLE_ADDED) && Step(ROLE_ADDED, cs[3]) == Some(RUNNING)
  {}

  lemma OperatorSwitches()
    ensures Step(RUNNING, SWITCHED_WHILE_RUNNING[4]) == Some(REBOUND)
  {
    var a := Step(RUNNING, SWITCHED_WHILE_RUNNING[4]).value;
    assert a.roles[OPERATOR] == REBOUND.roles[OPERATOR] && a.roles == REBOUND.roles && a.sets == REBOUND.sets;
  }

  lemma OperatorEnds()
    ensures Step(REBOUND, SWITCHED_WHILE_RUNNING[5]) == Some(ENDED)
  {
    var b := Step(REBOUND, SWITCHED_WHILE_RUNNING[5]).value;
    assert b.sets[OPERATOR].sessions == ENDED.sets[OPERATOR].sessions && b.sets == ENDED.sets;
  }

  lemma FirstAgentIsUnbound()
    ensures Step(ENDED, SWITCHED_WHILE_RUNNING[6]) == Some(UNBOUND)
  {
    var c := Step(ENDED, SWITCHED_WHILE_RUNNING[6]).value;
    assert c.roles[OPERATOR].bindings == UNBOUND.roles[OPERATOR].bindings && c.roles == UNBOUND.roles;
    assert c.sets[OPERATOR].sessions == UNBOUND.sets[OPERATOR].sessions && c.sets == UNBOUND.sets;
  }

  lemma FirstAgentGoes()
    ensures Step(UNBOUND, SWITCHED_WHILE_RUNNING[7]) == Some(REMOVED)
  {
    assert UNBOUND.agents - {"a"} == REMOVED.agents;
  }

  /**
   * What is not kept: a session set switched while its Agent runs goes on naming that Agent as active, even after the
   * Agent is unbound and removed.
   */
  lemma SetMayNameRemovedAgent()
    ensures var s := After(EMPTY_STORE, SWITCHED_WHILE_RUNNING);
            OPERATOR in s.sets && s.sets[OPERATOR].activeAgent == "a" && "a" !in s.agents
  {
    hide Step, After;
    var cs := SWITCHED_WHILE_RUNNING;
    AfterNothing(cs);
    OperatorStarts();
    OperatorSwitches();
    OperatorEnds();
    FirstAgentIsUnbound();
    FirstAgentGoes();
    AfterStep(cs, 0, EMPTY_STORE, ONE_AGENT);
    AfterStep(cs, 1, ONE_AGENT, TWO_AGENTS);
    AfterStep(cs, 2, TWO_AGENTS, ROLE_ADDED);
    AfterStep(cs, 3, ROLE_ADDED, RUNNING);
    AfterStep(cs, 4, RUNNING, REBOUND);
    AfterStep(cs, 5, REBOUND, ENDED);
    AfterStep(cs, 6, ENDED, UNBOUND);
    AfterStep(cs, 7, UNBOUND, REMOVED);
    assert cs[..8] == cs;
  }

  lemma AfterNothing(cs: seq<Command>)
    ensures After(EMPTY_STORE, cs[..0]) == EMPTY_STORE
  {}

  lemma AfterStep(cs: seq<Command>, k: nat, before: Store, after: Store)
    requires k < |cs| && After(EMPTY_STORE, cs[..k]) == before && Step(before, cs[k]) == Some(after)
    ensures After(EMPTY_STORE, cs[..k + 1]) == after
  {
    hide Step;
    assert cs[..k + 1][..k] == cs[..k];
  }

  /** The database behind the commands: each runs in one transaction. */
  class Database {
    var store: Store

    constructor ()
      ensures store == EMPTY_STORE
    {
      store := EMPTY_STORE;
    }

    method RunAll(commands: seq<Command>)
      requires Intact(store)
      modifies this
      ensures store == After(old(store), commands) && Intact(store)
    {
      for i := 0 to |commands|
        invariant store == After(old(store), commands[..i]) && Intact(store)
      {
        assert commands[..i + 1][..i] == commands[..i];
        var next := Step(store, commands[i]);
        if next.Some? {
          StepKeepsIntact(store, commands[i]);
          store := next.value;
        }
      }
      assert commands[..|commands|] == commands;
    }
  }
}
