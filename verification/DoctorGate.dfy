/** Which probes `doctor` may run: none that would prompt for, or run, a secret backend. */
module DoctorGate {
  import opened Wrappers
  import opened Secrets

  /** The kind a plugin's manifest or its roster entry declares. */
  datatype PluginKind = TaskSource | AgentIde | Notifier

  /** A TOML value; the values of a table are in the order its iterator gives them. */
  datatype Toml =
    | Str(text: string)
    | Array(items: seq<Toml>)
    | Table(keys: seq<string>, values: seq<Toml>)
    | Scalar

  type Document = map<string, Toml>

  /** The string leaves of a value. */
  function Leaves(v: Toml): seq<string> {
    match v
    case Str(text) => [text]
    case Array(items) => AllLeaves(items)
    case Table(_, values) => AllLeaves(values)
    case Scalar => []
  }

  function AllLeaves(items: seq<Toml>): seq<string> {
    if items == [] then [] else Leaves(items[0]) + AllLeaves(items[1..])
  }

  // ---- loading -----------------------------------------------------------------------------------

  datatype RootConfig = RootConfig(
    pluginSettings: map<string, Toml>,
    roster: map<string, PluginKind>,
    apiKeyRef: Option<string>)

  datatype ConfigError = NoLlmTable

  function Lookup(keys: seq<string>, values: seq<Toml>, key: string): Option<Toml> {
    if keys == [] || values == [] then None
    else if keys[0] == key then Some(values[0])
    else Lookup(keys[1..], values[1..], key)
  }

  /** `[llm].api_key_ref` as written. */
  function WrittenKeyRef(doc: Document): Option<string> {
    if "llm" !in doc || !doc["llm"].Table? then None
    else
      match Lookup(doc["llm"].keys, doc["llm"].values, "api_key_ref")
      case Some(Str(text)) => Some(text)
      case _ => None
  }

  /**
   * What is no field of the configuration is some plugin's. `TOTSUKA_LLM_API_KEY_REF`, unless it is empty,
   * stands in for the key reference written in the file.
   */
  function Load(doc: Document, fields: set<string>, roster: map<string, PluginKind>, keyOverride: Option<string>):
    Result<RootConfig, ConfigError>
  {
    var settings := map name | name in doc && name !in fields :: doc[name];
    if keyOverride.GetOr("") == "" then Ok(RootConfig(settings, roster, WrittenKeyRef(doc)))
    else if "llm" !in doc then Err(NoLlmTable)
    else Ok(RootConfig(settings, roster, keyOverride))
  }

  // ---- schemes -----------------------------------------------------------------------------------

  datatype SecretScheme = Silent | OnePassword | Command | Bitwarden | Supplied

  /** How `doctor` classifies a reference. A text that does not parse reaches no backend. */
  function SchemeOf(reference: string, supplied: bool): SecretScheme {
    if supplied then Silent
    else
      match ParseScheme(reference)
      case Ref(Keychain(_, _)) => Silent
      case Ref(OnePassword(_)) => SecretScheme.OnePassword
      case Ref(Command(_)) => SecretScheme.Command
      case Ref(Bitwarden(_, _)) => SecretScheme.Bitwarden
      case Ref(Supplied(_)) => SecretScheme.Supplied
      case _ => Silent
  }

  /** Some string below `v` has the scheme. */
  predicate Mentions(v: Toml, scheme: SecretScheme, supplied: bool) {
    match v
    case Str(text) => SchemeOf(text, supplied) == scheme
    case Array(items) => AnyMentions(items, scheme, supplied)
    case Table(_, values) => AnyMentions(values, scheme, supplied)
    case Scalar => false
  }

  predicate AnyMentions(items: seq<Toml>, scheme: SecretScheme, supplied: bool) {
    items != [] && (Mentions(items[0], scheme, supplied) || AnyMentions(items[1..], scheme, supplied))
  }

  /** The file as read again; `None` when it cannot be read or parsed this time. */
  predicate FileMentions(file: Option<Document>, scheme: SecretScheme, supplied: bool) {
    file.Some? && exists name :: name in file.value && Mentions(file.value[name], scheme, supplied)
  }

  predicate OverrideMentions(cfg: RootConfig, scheme: SecretScheme, supplied: bool) {
    cfg.apiKeyRef.Some? && SchemeOf(cfg.apiKeyRef.value, supplied) == scheme
  }

  predicate SchemeInUse(file: Option<Document>, cfg: RootConfig, scheme: SecretScheme, supplied: bool) {
    FileMentions(file, scheme, supplied) || OverrideMentions(cfg, scheme, supplied)
  }

  // ---- measuring ---------------------------------------------------------------------------------

  /** What the backend's two non-prompting queries answer. */
  datatype CliProbe = Missing | VersionFailed(code: int) | Unrunnable(error: string) | Probed(version: string, session: bool)

  datatype BackendReadiness = NotUsed | Ready | WouldPrompt

  datatype Verdict = Passed | Warned | Failed

  datatype Check = Check(name: string, verdict: Verdict)

  /** A backend is usable without a prompt when its CLI runs and its session is live. */
  predicate IsLive(probe: CliProbe) {
    probe.Probed? && probe.session
  }

  class Report {
    var checks: seq<Check>

    constructor ()
      ensures checks == []
    {
      checks := [];
    }

    /** Measure a backend, unless nothing mentions it. */
    method CheckBackend(name: string, scheme: SecretScheme, probe: CliProbe,
                        file: Option<Document>, cfg: RootConfig, supplied: bool)
      returns (readiness: BackendReadiness)
      modifies this
      ensures readiness == Readiness(SchemeInUse(file, cfg, scheme, supplied), probe)
      ensures !SchemeInUse(file, cfg, scheme, supplied) ==> readiness == NotUsed && checks == old(checks)
      ensures SchemeInUse(file, cfg, scheme, supplied) ==>
                match probe
                case Probed(_, true) =>
                  readiness == Ready && checks == old(checks) + [Check(name, Passed), Check(name + "-session", Passed)]
                case Probed(_, false) =>
                  readiness == WouldPrompt && checks == old(checks) + [Check(name, Passed), Check(name + "-session", Warned)]
                case _ => readiness == WouldPrompt && checks == old(checks) + [Check(name, Failed)]
    {
      if !SchemeInUse(file, cfg, scheme, supplied) {
        return NotUsed;
      }
      readiness := BackendChecks(name, probe);
    }

    method BackendChecks(name: string, probe: CliProbe) returns (readiness: BackendReadiness)
      modifies this
      ensures match probe
        case Probed(_, true) =>
          readiness == Ready && checks == old(checks) + [Check(name, Passed), Check(name + "-session", Passed)]
        case Probed(_, false) =>
          readiness == WouldPrompt && checks == old(checks) + [Check(name, Passed), Check(name + "-session", Warned)]
        case _ => readiness == WouldPrompt && checks == old(checks) + [Check(name, Failed)]
    {
      match probe {
        case Missing | VersionFailed(_) | Unrunnable(_) =>
          checks := checks + [Check(name, Failed)];
          return WouldPrompt;
        case Probed(_, session) =>
          checks := checks + [Check(name, Passed)];
          if session {
            checks := checks + [Check(name + "-session", Passed)];
            return Ready;
          }
          checks := checks + [Check(name + "-session", Warned)];
          return WouldPrompt;
      }
    }
  }

  function Readiness(inUse: bool, probe: CliProbe): BackendReadiness {
    if !inUse then NotUsed else if IsLive(probe) then Ready else WouldPrompt
  }

  // ---- the gate ----------------------------------------------------------------------------------

  /** One readiness per measurable backend, for a process that was or was not given its values. */
  datatype SecretReadiness = SecretReadiness(onepassword: BackendReadiness, bitwarden: BackendReadiness, supplied: bool)
  {
    function Of(scheme: SecretScheme): BackendReadiness {
      match scheme
      case Silent => NotUsed
      case OnePassword => onepassword
      case Bitwarden => bitwarden
      case Command => WouldPrompt
      case Supplied => WouldPrompt
    }

    /** The scheme a reference is skipped for, or `None` when it may be resolved. */
    function SkipFor(reference: string): Option<SecretScheme> {
      var scheme := SchemeOf(reference, supplied);
      if Of(scheme) != WouldPrompt then None
      else if scheme == Silent then None
      else Some(scheme)
    }

    /** The skip of the first blocked string leaf. */
    function SkipInToml(v: Toml): Option<SecretScheme> {
      match v
      case Str(text) => SkipFor(text)
      case Array(items) => SkipInAll(items)
      case Table(_, values) => SkipInAll(values)
      case Scalar => None
    }

    function SkipInAll(items: seq<Toml>): Option<SecretScheme> {
      if items == [] then None
      else
        var first := SkipInToml(items[0]);
        if first.Some? then first else SkipInAll(items[1..])
    }

    /** Why plugin `name` cannot be launched here, if it cannot. */
    function PluginSecretSkip(cfg: RootConfig, name: string, manifest: Option<PluginKind>): Option<SecretScheme> {
      var settings := if name in cfg.pluginSettings then SkipInToml(cfg.pluginSettings[name]) else None;
      if settings.Some? then settings
      else if !IsTaskSource(cfg, name, manifest) then None
      else if cfg.apiKeyRef.None? then None
      else SkipFor(cfg.apiKeyRef.value)
    }

    /** The first blocked reference of a list. */
    function FirstSkip(references: seq<string>): Option<SecretScheme> {
      if references == [] then None
      else
        var first := SkipFor(references[0]);
        if first.Some? then first else FirstSkip(references[1..])
    }
  }

  /** Either of the two declarations makes it one. */
  predicate IsTaskSource(cfg: RootConfig, name: string, manifest: Option<PluginKind>) {
    (name in cfg.roster && cfg.roster[name] == TaskSource) || manifest == Some(TaskSource)
  }

  /** The readiness measured when exactly the schemes in `seen` are taken to be in use. */
  function MeasuredFor(seen: set<SecretScheme>, op: CliProbe, bw: CliProbe, supplied: bool): SecretReadiness {
    SecretReadiness(Readiness(SecretScheme.OnePassword in seen, op), Readiness(SecretScheme.Bitwarden in seen, bw), supplied)
  }

  /** The schemes the two scans find. */
  function InUse(file: Option<Document>, cfg: RootConfig, supplied: bool): set<SecretScheme> {
    set scheme: SecretScheme | SchemeInUse(file, cfg, scheme, supplied)
  }

  /** The readiness measured for one run of `doctor`. */
  function Measured(file: Option<Document>, cfg: RootConfig, op: CliProbe, bw: CliProbe, supplied: bool): SecretReadiness {
    MeasuredFor(InUse(file, cfg, supplied), op, bw, supplied)
  }

  /** The strings of the plugin's table, and the key reference where `source` says it is told about it. */
  function References(cfg: RootConfig, name: string, source: bool): seq<string> {
    (if name in cfg.pluginSettings then Leaves(cfg.pluginSettings[name]) else [])
    + (if source && cfg.apiKeyRef.Some? then [cfg.apiKeyRef.value] else [])
  }

  // ---- launching ---------------------------------------------------------------------------------

  /** A reference that reaches a backend which would prompt, run a command, or hold no value. */
  predicate MayResolve(reference: string, op: CliProbe, bw: CliProbe, supplied: bool) {
    match Reached(reference, supplied)
    case Some(backend) => !Disturbs(backend, op, bw)
    case None => supplied || !(ParseScheme(reference).Ref? && ParseScheme(reference).ref.Supplied?)
  }

  predicate Disturbs(backend: Backend, op: CliProbe, bw: CliProbe) {
    match backend
    case KeychainStore => false
    case OpCli => !IsLive(op)
    case BwCli => !IsLive(bw)
    case Shell => true
  }

  /** The backends a run of resolutions reached, and whether it got to its end. */
  datatype Trail = Trail(backends: seq<Backend>, finished: bool)
  {
    function Then(next: Trail): Trail {
      if finished then Trail(backends + next.backends, next.finished) else this
    }
  }

  function ResolveOne(reference: string, works: string -> bool, supplied: bool): Trail {
    Trail(if Reached(reference, supplied).Some? then [Reached(reference, supplied).value] else [], works(reference))
  }

  /** `resolve_strings`, which stops at the first failure; `works` tells which references resolve. */
  function ResolveStrings(v: Toml, works: string -> bool, supplied: bool): Trail {
    match v
    case Str(text) => ResolveOne(text, works, supplied)
    case Array(items) => ResolveAll(items, works, supplied)
    case Table(_, values) => ResolveAll(values, works, supplied)
    case Scalar => Trail([], true)
  }

  function ResolveAll(items: seq<Toml>, works: string -> bool, supplied: bool): Trail {
    if items == [] then Trail([], true)
    else ResolveStrings(items[0], works, supplied).Then(ResolveAll(items[1..], works, supplied))
  }

  /**
   * `plugin_spec`: nothing is resolved without a manifest, and only the manifest says who is told the key. A key
   * that does not resolve is left out without stopping the launch.
   */
  function Launch(cfg: RootConfig, name: string, manifest: Option<PluginKind>, works: string -> bool, supplied: bool): Trail {
    if manifest.None? then Trail([], false)
    else
      var settings := if name in cfg.pluginSettings then ResolveStrings(cfg.pluginSettings[name], works, supplied) else Trail([], true);
      settings.Then(
        if manifest.value == TaskSource && cfg.apiKeyRef.Some? then
          Trail(ResolveOne(cfg.apiKeyRef.value, works, supplied).backends, true)
        else Trail([], true))
  }

  /** The same resolutions over a plain list. */
  function ResolveList(references: seq<string>, works: string -> bool, supplied: bool): Trail {
    if references == [] then Trail([], true)
    else ResolveOne(references[0], works, supplied).Then(ResolveList(references[1..], works, supplied))
  }

  // ---- walks over the tree are walks over its leaves ---------------------------------------------

  lemma ThenAssoc(a: Trail, b: Trail, c: Trail)
    ensures a.Then(b).Then(c) == a.Then(b.Then(c))
  {
  }

  lemma ResolveListCons(first: string, rest: seq<string>, works: string -> bool, supplied: bool)
    ensures ResolveList([first] + rest, works, supplied) == ResolveOne(first, works, supplied).Then(ResolveList(rest, works, supplied))
  {
    assert ([first] + rest)[1..] == rest;
  }

  lemma {:induction false} ResolveListAppend(a: seq<string>, b: seq<string>, works: string -> bool, supplied: bool)
    ensures ResolveList(a + b, works, supplied) == ResolveList(a, works, supplied).Then(ResolveList(b, works, supplied))
  {
    if a == [] {
      assert a + b == b;
    } else {
      var first, rest := a[0], a[1..];
      assert a + b == [first] + (rest + b) && a == [first] + rest;
      ResolveListAppend(rest, b, works, supplied);
      ResolveListCons(first, rest + b, works, supplied);
      ResolveListCons(first, rest, works, supplied);
      ThenAssoc(ResolveOne(first, works, supplied), ResolveList(rest, works, supplied), ResolveList(b, works, supplied));
    }
  }

  lemma {:induction false} ResolveWalksLeaves(v: Toml, works: string -> bool, supplied: bool)
    ensures ResolveStrings(v, works, supplied) == ResolveList(Leaves(v), works, supplied)
  {
    match v {
      case Str(text) => assert [text][1..] == [];
      case Array(items) => ResolveAllWalksLeaves(items, works, supplied);
      case Table(_, values) => ResolveAllWalksLeaves(values, works, supplied);
      case Scalar =>
    }
  }

  lemma {:induction false} ResolveAllWalksLeaves(items: seq<Toml>, works: string -> bool, supplied: bool)
    ensures ResolveAll(items, works, supplied) == ResolveList(AllLeaves(items), works, supplied)
  {
    if items != [] {
      ResolveWalksLeaves(items[0], works, supplied);
      ResolveAllWalksLeaves(items[1..], works, supplied);
      ResolveListAppend(Leaves(items[0]), AllLeaves(items[1..]), works, supplied);
    }
  }

  lemma {:induction false} FirstSkipAppend(r: SecretReadiness, a: seq<string>, b: seq<string>)
    ensures r.FirstSkip(a + b) == if r.FirstSkip(a).Some? then r.FirstSkip(a) else r.FirstSkip(b)
  {
    if a == [] {
      assert a + b == b;
    } else {
      assert (a + b)[1..] == a[1..] + b;
      FirstSkipAppend(r, a[1..], b);
    }
  }

  lemma {:induction false} SkipWalksLeaves(r: SecretReadiness, v: Toml)
    ensures r.SkipInToml(v) == r.FirstSkip(Leaves(v))
  {
    match v {
      case Str(text) => assert [text][1..] == [];
      case Array(items) => SkipAllWalksLeaves(r, items);
      case Table(_, values) => SkipAllWalksLeaves(r, values);
      case Scalar =>
    }
  }

  lemma {:induction false} SkipAllWalksLeaves(r: SecretReadiness, items: seq<Toml>)
    ensures r.SkipInAll(items) == r.FirstSkip(AllLeaves(items))
  {
    if items != [] {
      SkipWalksLeaves(r, items[0]);
      SkipAllWalksLeaves(r, items[1..]);
      FirstSkipAppend(r, Leaves(items[0]), AllLeaves(items[1..]));
    }
  }

  lemma {:induction false} MentionsIsALeaf(v: Toml, scheme: SecretScheme, supplied: bool)
    ensures Mentions(v, scheme, supplied) <==> exists leaf :: leaf in Leaves(v) && SchemeOf(leaf, supplied) == scheme
  {
    match v {
      case Str(text) => assert text in Leaves(v);
      case Array(items) => AnyMentionsIsALeaf(items, scheme, supplied);
      case Table(_, values) => AnyMentionsIsALeaf(values, scheme, supplied);
      case Scalar =>
    }
  }

  lemma {:induction false} AnyMentionsIsALeaf(items: seq<Toml>, scheme: SecretScheme, supplied: bool)
    ensures AnyMentions(items, scheme, supplied) <==>
            exists leaf :: leaf in AllLeaves(items) && SchemeOf(leaf, supplied) == scheme
  {
    if items != [] {
      MentionsIsALeaf(items[0], scheme, supplied);
      AnyMentionsIsALeaf(items[1..], scheme, supplied);
    }
  }

  lemma {:induction false} FirstSkipIsABlockedOne(r: SecretReadiness, references: seq<string>)
    ensures r.FirstSkip(references).None? <==> forall k :: 0 <= k < |references| ==> r.SkipFor(references[k]).None?
    ensures r.FirstSkip(references).Some? ==>
              exists k :: 0 <= k < |references| && r.SkipFor(references[k]) == r.FirstSkip(references)
                          && forall j :: 0 <= j < k ==> r.SkipFor(references[j]).None?
  {
    if references != [] {
      var rest := references[1..];
      FirstSkipIsABlockedOne(r, rest);
      if r.SkipFor(references[0]).Some? {
      } else if r.FirstSkip(rest).Some? {
        var k :| 0 <= k < |rest| && r.SkipFor(rest[k]) == r.FirstSkip(rest) && forall j :: 0 <= j < k ==> r.SkipFor(rest[j]).None?;
        assert references[k + 1] == rest[k];
        forall j | 0 <= j < k + 1 ensures r.SkipFor(references[j]).None? {
          assert j > 0 ==> references[j] == rest[j - 1];
        }
      } else {
        forall j | 0 <= j < |references| ensures r.SkipFor(references[j]).None? {
          assert j > 0 ==> references[j] == rest[j - 1];
        }
      }
    }
  }

  // ---- what the gate promises ----------------------------------------------------------------------

  /** The gate answers for the first reference, in launch order, that it blocks. */
  lemma GateFindsFirst(r: SecretReadiness, cfg: RootConfig, name: string, manifest: Option<PluginKind>)
    ensures r.PluginSecretSkip(cfg, name, manifest) == r.FirstSkip(References(cfg, name, IsTaskSource(cfg, name, manifest)))
  {
    var source := IsTaskSource(cfg, name, manifest);
    var settings := if name in cfg.pluginSettings then Leaves(cfg.pluginSettings[name]) else [];
    var key := if source && cfg.apiKeyRef.Some? then [cfg.apiKeyRef.value] else [];
    if name in cfg.pluginSettings {
      SkipWalksLeaves(r, cfg.pluginSettings[name]);
    }
    FirstSkipAppend(r, settings, key);
    if key != [] {
      assert key[1..] == [];
    }
  }

  /** Every reference a launch resolves is one the scan for its scheme has seen. */
  lemma ScanCoversReferences(doc: Document, fields: set<string>, roster: map<string, PluginKind>, keyOverride: Option<string>,
                             name: string, source: bool, reference: string, supplied: bool)
    requires var loaded := Load(doc, fields, roster, keyOverride);
      loaded.Ok? && reference in References(loaded.value, name, source)
    ensures SchemeInUse(Some(doc), Load(doc, fields, roster, keyOverride).value, SchemeOf(reference, supplied), supplied)
  {
    var cfg := Load(doc, fields, roster, keyOverride).value;
    var scheme := SchemeOf(reference, supplied);
    if name in cfg.pluginSettings && reference in Leaves(cfg.pluginSettings[name]) {
      MentionsIsALeaf(doc[name], scheme, supplied);
      assert Mentions(doc[name], scheme, supplied);
    } else {
      assert OverrideMentions(cfg, scheme, supplied);
    }
  }

  /** A reference of a backend without a live session whose scheme was taken not to be in use. */
  predicate Overlooked(seen: set<SecretScheme>, reference: string, op: CliProbe, bw: CliProbe, supplied: bool) {
    var scheme := SchemeOf(reference, supplied);
    && scheme !in seen
    && ((scheme == SecretScheme.OnePassword && !IsLive(op)) || (scheme == SecretScheme.Bitwarden && !IsLive(bw)))
  }

  predicate NoneOverlooked(seen: set<SecretScheme>, references: seq<string>, op: CliProbe, bw: CliProbe, supplied: bool) {
    forall reference :: reference in references ==> !Overlooked(seen, reference, op, bw, supplied)
  }

  /** What resolving may do depends on the scheme alone. */
  lemma MayResolveByScheme(reference: string, op: CliProbe, bw: CliProbe, supplied: bool)
    ensures MayResolve(reference, op, bw, supplied) <==>
            match SchemeOf(reference, supplied)
            case Silent => true
            case OnePassword => IsLive(op)
            case Bitwarden => IsLive(bw)
            case _ => false
  {
  }

  /** A reference is let through exactly when resolving it is harmless, or it was overlooked; never both. */
  lemma SkipIsExact(seen: set<SecretScheme>, op: CliProbe, bw: CliProbe, reference: string, supplied: bool)
    ensures MeasuredFor(seen, op, bw, supplied).SkipFor(reference).None? <==>
            MayResolve(reference, op, bw, supplied) || Overlooked(seen, reference, op, bw, supplied)
    ensures Overlooked(seen, reference, op, bw, supplied) ==> !MayResolve(reference, op, bw, supplied)
  {
    MayResolveByScheme(reference, op, bw, supplied);
  }

  /** When the gate opens, whatever was scanned: each reference is harmless or overlooked. */
  lemma OpensExactly(seen: set<SecretScheme>, cfg: RootConfig, op: CliProbe, bw: CliProbe, supplied: bool,
                     name: string, manifest: Option<PluginKind>)
    ensures MeasuredFor(seen, op, bw, supplied).PluginSecretSkip(cfg, name, manifest).None? <==>
            forall reference :: reference in References(cfg, name, IsTaskSource(cfg, name, manifest)) ==>
                                  MayResolve(reference, op, bw, supplied) || Overlooked(seen, reference, op, bw, supplied)
  {
    var r := MeasuredFor(seen, op, bw, supplied);
    var references := References(cfg, name, IsTaskSource(cfg, name, manifest));
    GateFindsFirst(r, cfg, name, manifest);
    FirstSkipIsABlockedOne(r, references);
    forall reference
      ensures r.SkipFor(reference).None? <==>
              MayResolve(reference, op, bw, supplied) || Overlooked(seen, reference, op, bw, supplied)
    {
      SkipIsExact(seen, op, bw, reference, supplied);
    }
  }

  /**
   * Soundness of the gate against whatever the second reading of the file gave, the same document or none: an open
   * gate lets only harmless references through if and only if the scans overlooked none of them.
   */
  lemma OpenGateIsSound(file: Option<Document>, cfg: RootConfig, op: CliProbe, bw: CliProbe, supplied: bool,
                        name: string, manifest: Option<PluginKind>)
    requires Measured(file, cfg, op, bw, supplied).PluginSecretSkip(cfg, name, manifest).None?
    ensures var references := References(cfg, name, IsTaskSource(cfg, name, manifest));
      (forall reference :: reference in references ==> MayResolve(reference, op, bw, supplied)) <==>
      NoneOverlooked(InUse(file, cfg, supplied), references, op, bw, supplied)
  {
    var seen := InUse(file, cfg, supplied);
    OpensExactly(seen, cfg, op, bw, supplied, name, manifest);
    forall reference
      ensures Overlooked(seen, reference, op, bw, supplied) ==> !MayResolve(reference, op, bw, supplied)
    {
      SkipIsExact(seen, op, bw, reference, supplied);
    }
  }

  /** With the file unchanged since it was loaded, the scans overlook no reference of a launch. */
  lemma NothingOverlooked(doc: Document, fields: set<string>, roster: map<string, PluginKind>, keyOverride: Option<string>,
                          op: CliProbe, bw: CliProbe, supplied: bool, name: string, source: bool)
    requires Load(doc, fields, roster, keyOverride).Ok?
    ensures var cfg := Load(doc, fields, roster, keyOverride).value;
      NoneOverlooked(InUse(Some(doc), cfg, supplied), References(cfg, name, source), op, bw, supplied)
  {
    var cfg := Load(doc, fields, roster, keyOverride).value;
    forall reference | reference in References(cfg, name, source)
      ensures !Overlooked(InUse(Some(doc), cfg, supplied), reference, op, bw, supplied)
    {
      ScanCoversReferences(doc, fields, roster, keyOverride, name, source, reference, supplied);
    }
  }

  /**
   * The gate opens exactly when every string of the plugin's table, and the key reference of a task
   * source, is silent or belongs to a backend measured as live.
   */
  lemma GateIsExact(doc: Document, fields: set<string>, roster: map<string, PluginKind>, keyOverride: Option<string>,
                    op: CliProbe, bw: CliProbe, supplied: bool, name: string, manifest: Option<PluginKind>)
    requires Load(doc, fields, roster, keyOverride).Ok?
    ensures var cfg := Load(doc, fields, roster, keyOverride).value;
      Measured(Some(doc), cfg, op, bw, supplied).PluginSecretSkip(cfg, name, manifest).None? <==>
      forall reference :: reference in References(cfg, name, IsTaskSource(cfg, name, manifest)) ==>
                            MayResolve(reference, op, bw, supplied)
  {
    var cfg := Load(doc, fields, roster, keyOverride).value;
    OpensExactly(InUse(Some(doc), cfg, supplied), cfg, op, bw, supplied, name, manifest);
    NothingOverlooked(doc, fields, roster, keyOverride, op, bw, supplied, name, IsTaskSource(cfg, name, manifest));
  }

  /** A launch resolves its references in order, up to the first of the table that fails. */
  lemma LaunchWalksReferences(cfg: RootConfig, name: string, kind: PluginKind, works: string -> bool, supplied: bool)
    ensures var launch := Launch(cfg, name, Some(kind), works, supplied);
      && launch.backends == ResolveList(References(cfg, name, kind == TaskSource), works, supplied).backends
      && launch.finished == ResolveList(References(cfg, name, false), works, supplied).finished
  {
    var settings := if name in cfg.pluginSettings then Leaves(cfg.pluginSettings[name]) else [];
    var key := if kind == TaskSource && cfg.apiKeyRef.Some? then [cfg.apiKeyRef.value] else [];
    if name in cfg.pluginSettings {
      ResolveWalksLeaves(cfg.pluginSettings[name], works, supplied);
    }
    assert References(cfg, name, false) == settings;
    ResolveListAppend(settings, key, works, supplied);
    if key != [] {
      assert key[1..] == [];
    }
  }

  lemma {:induction false} HarmlessList(references: seq<string>, op: CliProbe, bw: CliProbe, works: string -> bool, supplied: bool)
    requires forall reference :: reference in references ==> MayResolve(reference, op, bw, supplied)
    ensures forall backend :: backend in ResolveList(references, works, supplied).backends ==> !Disturbs(backend, op, bw)
  {
    if references != [] {
      assert references[0] in references;
      HarmlessList(references[1..], op, bw, works, supplied);
    }
  }

  lemma {:induction false} EverythingReached(references: seq<string>, works: string -> bool, supplied: bool, reference: string)
    requires (forall r :: r in references ==> works(r)) && reference in references && Reached(reference, supplied).Some?
    ensures Reached(reference, supplied).value in ResolveList(references, works, supplied).backends
  {
    if references[0] != reference {
      EverythingReached(references[1..], works, supplied, reference);
    }
  }

  predicate Quiet(trail: Trail, op: CliProbe, bw: CliProbe) {
    forall backend :: backend in trail.backends ==> !Disturbs(backend, op, bw)
  }

  lemma OverlookedDisturbs(seen: set<SecretScheme>, reference: string, op: CliProbe, bw: CliProbe, supplied: bool)
    requires Overlooked(seen, reference, op, bw, supplied)
    ensures Reached(reference, supplied).Some? && Disturbs(Reached(reference, supplied).value, op, bw)
  {
  }

  lemma OverlookedIsReached(seen: set<SecretScheme>, cfg: RootConfig, op: CliProbe, bw: CliProbe, supplied: bool,
                            name: string, kind: PluginKind, reference: string, works: string -> bool)
    requires reference in References(cfg, name, kind == TaskSource) && Overlooked(seen, reference, op, bw, supplied)
    requires forall r :: works(r)
    ensures !Quiet(Launch(cfg, name, Some(kind), works, supplied), op, bw)
  {
    LaunchWalksReferences(cfg, name, kind, works, supplied);
    OverlookedDisturbs(seen, reference, op, bw, supplied);
    EverythingReached(References(cfg, name, kind == TaskSource), works, supplied, reference);
  }

  lemma HarmlessIsQuiet(cfg: RootConfig, op: CliProbe, bw: CliProbe, supplied: bool, name: string, kind: PluginKind,
                        works: string -> bool)
    requires forall reference :: reference in References(cfg, name, kind == TaskSource) ==> MayResolve(reference, op, bw, supplied)
    ensures Quiet(Launch(cfg, name, Some(kind), works, supplied), op, bw)
  {
    LaunchWalksReferences(cfg, name, kind, works, supplied);
    HarmlessList(References(cfg, name, kind == TaskSource), op, bw, works, supplied);
  }

  ghost predicate AlwaysQuiet(cfg: RootConfig, name: string, kind: PluginKind, op: CliProbe, bw: CliProbe, supplied: bool) {
    forall works: string -> bool :: Quiet(Launch(cfg, name, Some(kind), works, supplied), op, bw)
  }

  /**
   * A launch behind an open gate neither prompts nor runs a command, whichever references fail, if and only if the
   * scans overlooked none of the references it resolves.
   */
  lemma OpenLaunchIsQuiet(file: Option<Document>, cfg: RootConfig, op: CliProbe, bw: CliProbe, supplied: bool,
                          name: string, kind: PluginKind)
    requires Measured(file, cfg, op, bw, supplied).PluginSecretSkip(cfg, name, Some(kind)).None?
    ensures AlwaysQuiet(cfg, name, kind, op, bw, supplied) <==>
            NoneOverlooked(InUse(file, cfg, supplied), References(cfg, name, kind == TaskSource), op, bw, supplied)
  {
    var seen, references := InUse(file, cfg, supplied), References(cfg, name, kind == TaskSource);
    if NoneOverlooked(seen, references, op, bw, supplied) {
      OpensExactly(seen, cfg, op, bw, supplied, name, Some(kind));
      AllReferencesGated(cfg, name, kind);
      forall works: string -> bool ensures Quiet(Launch(cfg, name, Some(kind), works, supplied), op, bw) {
        HarmlessIsQuiet(cfg, op, bw, supplied, name, kind, works);
      }
    } else {
      var reference :| reference in references && Overlooked(seen, reference, op, bw, supplied);
      var works := (_: string) => true;
      OverlookedIsReached(seen, cfg, op, bw, supplied, name, kind, reference, works);
    }
  }

  lemma AllReferencesGated(cfg: RootConfig, name: string, kind: PluginKind)
    ensures forall reference :: reference in References(cfg, name, kind == TaskSource) ==>
                                  reference in References(cfg, name, IsTaskSource(cfg, name, Some(kind)))
  {
  }

  /** Nothing an allowed launch reaches prompts or runs a command, whichever references fail. */
  lemma AllowedLaunchIsSilent(doc: Document, fields: set<string>, roster: map<string, PluginKind>, keyOverride: Option<string>,
                              op: CliProbe, bw: CliProbe, supplied: bool, name: string, manifest: Option<PluginKind>,
                              works: string -> bool)
    requires Load(doc, fields, roster, keyOverride).Ok?
    requires var cfg := Load(doc, fields, roster, keyOverride).value;
      Measured(Some(doc), cfg, op, bw, supplied).PluginSecretSkip(cfg, name, manifest).None?
    ensures Quiet(Launch(Load(doc, fields, roster, keyOverride).value, name, manifest, works, supplied), op, bw)
  {
    var cfg := Load(doc, fields, roster, keyOverride).value;
    if manifest.Some? {
      OpenLaunchIsQuiet(Some(doc), cfg, op, bw, supplied, name, manifest.value);
      NothingOverlooked(doc, fields, roster, keyOverride, op, bw, supplied, name, manifest.value == TaskSource);
    }
  }

  /**
   * No launch is refused for nothing: unless it is the launcher's value that is missing, a refused plugin
   * whose manifest and roster agree would reach a backend that prompts or runs a command.
   */
  lemma RefusedLaunchDisturbs(doc: Document, fields: set<string>, roster: map<string, PluginKind>, keyOverride: Option<string>,
                              op: CliProbe, bw: CliProbe, supplied: bool, name: string, kind: PluginKind)
    returns (backend: Backend)
    requires Load(doc, fields, roster, keyOverride).Ok?
    requires name in roster ==> roster[name] == kind
    requires var cfg := Load(doc, fields, roster, keyOverride).value;
      var skip := Measured(Some(doc), cfg, op, bw, supplied).PluginSecretSkip(cfg, name, Some(kind));
      skip.Some? && skip.value != SecretScheme.Supplied
    ensures var cfg := Load(doc, fields, roster, keyOverride).value;
      backend in Launch(cfg, name, Some(kind), _ => true, supplied).backends && Disturbs(backend, op, bw)
  {
    var cfg := Load(doc, fields, roster, keyOverride).value;
    var r := Measured(Some(doc), cfg, op, bw, supplied);
    var references := References(cfg, name, kind == TaskSource);
    GateFindsFirst(r, cfg, name, Some(kind));
    FirstSkipIsABlockedOne(r, references);
    var k :| 0 <= k < |references| && r.SkipFor(references[k]) == r.FirstSkip(references);
    var reference := references[k];
    ScanCoversReferences(doc, fields, roster, keyOverride, name, kind == TaskSource, reference, supplied);
    SkipIsExact(InUse(Some(doc), cfg, supplied), op, bw, reference, supplied);
    backend := Reached(reference, supplied).value;
    LaunchWalksReferences(cfg, name, kind, _ => true, supplied);
    EverythingReached(references, _ => true, supplied, reference);
  }

  // ---- why both halves of the scan, and the same file, are needed ----------------------------------

  /** The schemes that scanning the file alone would find. */
  function InFile(doc: Document, supplied: bool): set<SecretScheme> {
    set scheme: SecretScheme | FileMentions(Some(doc), scheme, supplied)
  }

  /** With the file scan alone, a key reference from the environment opens the gate on a dead session. */
  lemma FileScanAloneMisses(doc: Document, fields: set<string>, roster: map<string, PluginKind>, reference: string,
                            op: CliProbe, bw: CliProbe, name: string)
    requires "llm" in doc && name !in doc && reference != "" && !IsLive(op)
    requires SchemeOf(reference, false) == SecretScheme.OnePassword
    requires !FileMentions(Some(doc), SecretScheme.OnePassword, false)
    ensures Load(doc, fields, roster, Some(reference)).Ok?
    ensures var cfg := Load(doc, fields, roster, Some(reference)).value;
      && MeasuredFor(InFile(doc, false), op, bw, false).PluginSecretSkip(cfg, name, Some(TaskSource)).None?
      && Measured(Some(doc), cfg, op, bw, false).PluginSecretSkip(cfg, name, Some(TaskSource)).Some?
      && Launch(cfg, name, Some(TaskSource), _ => true, false).backends == [OpCli]
      && Disturbs(OpCli, op, bw)
  {
    assert OverrideMentions(Load(doc, fields, roster, Some(reference)).value, SecretScheme.OnePassword, false);
  }

  /**
   * The scan reads the file a second time, and one that has become unreadable counts as mentioning nothing. The
   * gate is then open exactly for a plugin whose references are harmless, or of a measured backend that the key
   * reference is not of; and what it lets through is harmless exactly when there is none of the second kind
   * without a live session.
   */
  lemma UnreadableRescanOpens(cfg: RootConfig, op: CliProbe, bw: CliProbe, supplied: bool,
                              name: string, manifest: Option<PluginKind>)
    ensures var references := References(cfg, name, IsTaskSource(cfg, name, manifest));
      var open := Measured(None, cfg, op, bw, supplied).PluginSecretSkip(cfg, name, manifest).None?;
      && (open <==> forall reference :: reference in references ==>
                      MayResolve(reference, op, bw, supplied) || OnlyInFile(cfg, reference, supplied))
      && (open ==> ((forall reference :: reference in references ==> MayResolve(reference, op, bw, supplied)) <==>
                    (forall reference :: reference in references && OnlyInFile(cfg, reference, supplied) ==>
                                           HasSession(reference, op, bw, supplied))))
  {
    var seen := InUse(None, cfg, supplied);
    OpensExactly(seen, cfg, op, bw, supplied, name, manifest);
    forall reference
      ensures MayResolve(reference, op, bw, supplied) || Overlooked(seen, reference, op, bw, supplied) <==>
              MayResolve(reference, op, bw, supplied) || OnlyInFile(cfg, reference, supplied)
    {
      SkipIsExact(seen, op, bw, reference, supplied);
      OverlookedUnread(cfg, op, bw, reference, supplied);
    }
  }

  /** A reference of a measured backend which the effective key reference is not of. */
  predicate OnlyInFile(cfg: RootConfig, reference: string, supplied: bool) {
    var scheme := SchemeOf(reference, supplied);
    (scheme == SecretScheme.OnePassword || scheme == SecretScheme.Bitwarden) && !OverrideMentions(cfg, scheme, supplied)
  }

  predicate HasSession(reference: string, op: CliProbe, bw: CliProbe, supplied: bool) {
    var scheme := SchemeOf(reference, supplied);
    (scheme == SecretScheme.OnePassword ==> IsLive(op)) && (scheme == SecretScheme.Bitwarden ==> IsLive(bw))
  }

  lemma OverlookedUnread(cfg: RootConfig, op: CliProbe, bw: CliProbe, reference: string, supplied: bool)
    ensures Overlooked(InUse(None, cfg, supplied), reference, op, bw, supplied) <==>
            OnlyInFile(cfg, reference, supplied) && !HasSession(reference, op, bw, supplied)
    ensures OnlyInFile(cfg, reference, supplied) ==>
              (HasSession(reference, op, bw, supplied) <==> MayResolve(reference, op, bw, supplied))
  {
    MayResolveByScheme(reference, op, bw, supplied);
  }

  /** One such plugin: a token in 1Password, no session, and the file gone when it is scanned. */
  lemma UnreadableRescanPrompts()
    ensures var cfg := RootConfig(map["slack" := Table(["token"], [Str("op://v/i/f")])], map[], None);
      && Measured(None, cfg, Missing, Missing, false).PluginSecretSkip(cfg, "slack", Some(TaskSource)).None?
      && OpCli in Launch(cfg, "slack", Some(TaskSource), _ => true, false).backends && Disturbs(OpCli, Missing, Missing)
  {
    var table := Table(["token"], [Str("op://v/i/f")]);
    var cfg := RootConfig(map["slack" := table], map[], None);
    SampleReference();
    assert [Str("op://v/i/f")][1..] == [] && Leaves(table) == ["op://v/i/f"] + [];
    assert References(cfg, "slack", true) == ["op://v/i/f"];
    UnreadableRescanOpens(cfg, Missing, Missing, false, "slack", Some(TaskSource));
    LaunchWalksReferences(cfg, "slack", TaskSource, _ => true, false);
    EverythingReached(["op://v/i/f"], _ => true, false, "op://v/i/f");
  }

  lemma SampleReference()
    ensures ParseScheme("op://v/i/f") == Ref(SecretRef.OnePassword("op://v/i/f"))
  {
    var body := "v" + (['/'] + ("i" + (['/'] + "f")));
    assert "op://v/i/f" == ONEPASSWORD + body;
    NamedField("v", "i", "f");
    PrintedParsesBack(SecretRef.OnePassword("op://v/i/f"));
  }

  // ---- the gate on references as they are written ----------------------------------------------

  /** The text is one of the strings somewhere below `v`. */
  ghost predicate Holds(v: Toml, text: string) {
    match v
    case Str(s) => s == text
    case Array(items) => exists k :: 0 <= k < |items| && Holds(items[k], text)
    case Table(_, values) => exists k :: 0 <= k < |values| && Holds(values[k], text)
    case Scalar => false
  }

  lemma {:induction false} HeldIsLeaf(v: Toml, text: string)
    ensures Holds(v, text) <==> text in Leaves(v)
  {
    match v {
      case Str(_) =>
      case Array(items) => AnyHeldIsLeaf(items, text);
      case Table(_, values) => AnyHeldIsLeaf(values, text);
      case Scalar =>
    }
  }

  lemma {:induction false} AnyHeldIsLeaf(items: seq<Toml>, text: string)
    ensures (exists k :: 0 <= k < |items| && Holds(items[k], text)) <==> text in AllLeaves(items)
  {
    if items != [] {
      HeldIsLeaf(items[0], text);
      AnyHeldIsLeaf(items[1..], text);
      if k :| 0 <= k < |items| && Holds(items[k], text) {
        assert k > 0 ==> items[1..][k - 1] == items[k];
      }
      if k :| 0 <= k < |items| - 1 && Holds(items[1..][k], text) {
        assert items[k + 1] == items[1..][k];
      }
    }
  }

  /** A table is refused exactly when it holds a refused text. */
  lemma RefusedWhereverItStands(r: SecretReadiness, v: Toml)
    ensures r.SkipInToml(v).Some? <==> exists text :: Holds(v, text) && r.SkipFor(text).Some?
  {
    SkipWalksLeaves(r, v);
    FirstSkipIsABlockedOne(r, Leaves(v));
    if k :| 0 <= k < |Leaves(v)| && r.SkipFor(Leaves(v)[k]).Some? {
      HeldIsLeaf(v, Leaves(v)[k]);
    }
    if text :| Holds(v, text) && r.SkipFor(text).Some? {
      HeldIsLeaf(v, text);
    }
  }

  /** What is refused, by the letters of the scheme: in a process that was given its values, nothing. */
  lemma RefusedByLetters(r: SecretReadiness, a: string, b: string, c: string)
    ensures r.supplied ==> r.SkipFor(a).None?
    ensures !r.supplied && !Blank(a) ==> r.SkipFor("cmd:" + a) == Some(SecretScheme.Command)
    ensures !r.supplied && IsSuppliedName(a) ==> r.SkipFor("secret:" + a) == Some(SecretScheme.Supplied)
    ensures !r.supplied && a != "" && a[0] != '/' && b != "" && '/' !in b ==>
              r.SkipFor("bw:" + (a + ['/'] + b)) == if r.bitwarden == WouldPrompt then Some(SecretScheme.Bitwarden) else None
    ensures a != "" && '/' !in a && b != "" ==> r.SkipFor("keychain:" + (a + (['/'] + b))).None?
    ensures !r.supplied && a != "" && '/' !in a && b != "" && '/' !in b && c != "" && c[0] != '/' ==>
              r.SkipFor("op://" + (a + (['/'] + (b + (['/'] + c))))) ==
              if r.onepassword == WouldPrompt then Some(SecretScheme.OnePassword) else None
  {
    WrittenSchemes(a, b, c);
  }

  /** A plain or `${ENV}` text is never refused, nor is anything in the Keychain. */
  lemma NeverRefused(r: SecretReadiness, s: string)
    requires !("op://" <= s) && !("cmd:" <= s) && !("bw:" <= s) && !("secret:" <= s)
    ensures r.SkipFor(s).None?
  {
    OnlyKeychainLeft(s);
  }

  lemma OnlyKeychainLeft(s: string)
    requires !("op://" <= s) && !("cmd:" <= s) && !("bw:" <= s) && !("secret:" <= s)
    ensures ParseScheme(s).Ref? ==> ParseScheme(s).ref.Keychain?
  {
  }

  /** Nor is a command of white space, or a `bw:` body led by a slash: neither is a reference. */
  lemma MalformedNeverRefused(r: SecretReadiness, s: string)
    ensures Blank(s) ==> r.SkipFor("cmd:" + s).None?
    ensures r.SkipFor("bw:" + (['/'] + s)).None?
  {
    Dispatch(s);
    Dispatch(['/'] + s);
  }

  /** A command anywhere in a plugin's table refuses its launch. */
  lemma CommandRefusesLaunch(r: SecretReadiness, cfg: RootConfig, name: string, manifest: Option<PluginKind>, command: string)
    requires !r.supplied && !Blank(command) && name in cfg.pluginSettings
    requires Holds(cfg.pluginSettings[name], "cmd:" + command)
    ensures r.PluginSecretSkip(cfg, name, manifest).Some?
  {
    RefusedByLetters(r, command, "", "");
    RefusedWhereverItStands(r, cfg.pluginSettings[name]);
  }

  // ---- loading and launching, spelled out --------------------------------------------------------

  lemma {:induction false} LookedUp(keys: seq<string>, values: seq<Toml>, key: string, k: nat)
    requires |keys| == |values| && k < |keys| && keys[k] == key && forall j :: 0 <= j < k ==> keys[j] != key
    ensures Lookup(keys, values, key) == Some(values[k])
  {
    if k > 0 {
      assert keys[0] != key;
      LookedUp(keys[1..], values[1..], key, k - 1);
    }
  }

  lemma {:induction false} NotThere(keys: seq<string>, values: seq<Toml>, key: string)
    requires key !in keys
    ensures Lookup(keys, values, key) == None
  {
    if keys != [] && values != [] {
      NotThere(keys[1..], values[1..], key);
    }
  }

  /** The key reference is the string under `api_key_ref` of the table `llm`; without either there is none. */
  lemma KeyRefByName(doc: Document, keys: seq<string>, values: seq<Toml>, k: nat, text: string)
    requires |keys| == |values|
    ensures "llm" !in doc ==> WrittenKeyRef(doc) == None
    ensures "llm" in doc && doc["llm"] == Table(keys, values) && "api_key_ref" !in keys ==> WrittenKeyRef(doc) == None
    ensures "llm" in doc && doc["llm"] == Table(keys, values) && k < |keys| && keys[k] == "api_key_ref"
            && (forall j :: 0 <= j < k ==> keys[j] != "api_key_ref") && values[k] == Str(text) ==>
              WrittenKeyRef(doc) == Some(text)
  {
    if "api_key_ref" !in keys {
      NotThere(keys, values, "api_key_ref");
    }
    if k < |keys| && keys[k] == "api_key_ref" && forall j :: 0 <= j < k ==> keys[j] != "api_key_ref" {
      LookedUp(keys, values, "api_key_ref", k);
    }
  }

  /** What loading keeps of a document: every table that is no field, the roster, and the key reference or its override. */
  lemma LoadedByName(doc: Document, fields: set<string>, roster: map<string, PluginKind>, text: string, name: string)
    ensures Load(doc, fields, roster, None) == Load(doc, fields, roster, Some(""))
    ensures Load(doc, fields, roster, None).Ok?
    ensures Load(doc, fields, roster, None).value.apiKeyRef == WrittenKeyRef(doc)
    ensures text != "" ==> (Load(doc, fields, roster, Some(text)).Ok? <==> "llm" in doc)
    ensures text != "" && "llm" in doc ==> Load(doc, fields, roster, Some(text)).value.apiKeyRef == Some(text)
    ensures var loaded := Load(doc, fields, roster, Some(text));
      loaded.Ok? ==>
        && loaded.value.roster == roster
        && (name in loaded.value.pluginSettings <==> name in doc && name !in fields)
        && (name in doc && name !in fields ==> loaded.value.pluginSettings[name] == doc[name])
  {
  }

  /** Without a manifest nothing is resolved and nothing launched. */
  lemma NoManifestNoLaunch(cfg: RootConfig, name: string, works: string -> bool, supplied: bool)
    ensures Launch(cfg, name, None, works, supplied) == Trail([], false)
  {
  }

  /** Resolving goes from reference to reference, each reaching its backend, and stops where one fails. */
  lemma ResolvedInOrder(first: string, rest: seq<string>, works: string -> bool, supplied: bool)
    ensures var head := match Reached(first, supplied) case Some(backend) => [backend] case None => [];
      ResolveList([first] + rest, works, supplied) ==
      if works(first) then
        Trail(head + ResolveList(rest, works, supplied).backends, ResolveList(rest, works, supplied).finished)
      else Trail(head, false)
    ensures ResolveList([], works, supplied) == Trail([], true)
  {
    ResolveListCons(first, rest, works, supplied);
  }

  /** What resolving a written reference reaches: its own backend, or none in a process that was given its values. */
  lemma ReachedByLetters(a: string, b: string, c: string, supplied: bool)
    ensures !Blank(a) ==> Reached("cmd:" + a, supplied) == if supplied then None else Some(Shell)
    ensures IsSuppliedName(a) ==> Reached("secret:" + a, supplied) == None
    ensures a != "" && a[0] != '/' && b != "" && '/' !in b ==>
              Reached("bw:" + (a + ['/'] + b), supplied) == if supplied then None else Some(BwCli)
    ensures a != "" && '/' !in a && b != "" ==>
              Reached("keychain:" + (a + (['/'] + b)), supplied) == if supplied then None else Some(KeychainStore)
    ensures a != "" && '/' !in a && b != "" && '/' !in b && c != "" && c[0] != '/' ==>
              Reached("op://" + (a + (['/'] + (b + (['/'] + c)))), supplied) == if supplied then None else Some(OpCli)
  {
    WrittenSchemes(a, b, c);
  }
}
