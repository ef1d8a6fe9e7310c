/** The typed user configuration: turning it into a tree and reading it from a tree. */
module UserConfigs {
  import opened Options
  import opened PythonText
  import opened ConfigScalars
  import opened ConfigValues

  datatype MetricsMode = Always | Ask | Never

  datatype Metrics = Metrics(mode: Option<MetricsMode>, consentCompleted: bool)

  datatype Gemini = Gemini(
    executable: string, model: Option<string>, approvalMode: string, sandbox: bool, skipTrust: bool,
    includeDirectories: seq<string>, extraArgs: seq<string>)

  datatype Custom = Custom(
    harnessId: string, displayName: string, executable: string, args: seq<string>, inputMode: string,
    outputMode: string, timeoutSeconds: int, workingDirectory: string, allowlist: seq<string>,
    capabilities: seq<string>)

  /** `custom` is a dict: keys in insertion order. */
  datatype Harnesses = Harnesses(
    enabled: seq<string>, default: Option<string>, custom: seq<(string, Custom)>, gemini: Gemini,
    selectionRequired: bool, migrationMessage: Option<string>)

  datatype Delivery = Delivery(transport: Option<string>, socketPath: Option<string>)

  datatype UserConfig = UserConfig(metrics: Metrics, harnesses: Harnesses, delivery: Delivery)

  const GEMINI_APPROVAL_MODES := {"default", "auto_edit", "yolo", "plan"}
  const DEFAULT_GEMINI := Gemini("gemini", None, "default", false, false, [], [])
  const DEFAULT_ALLOWLIST := ["PATH", "HOME"]

  // ---------------------------------------------------------------- as_dict

  function ModeText(mode: MetricsMode): string {
    match mode case Always => "always" case Ask => "ask" case Never => "never"
  }

  function OptText(s: Option<string>): Value {
    match s case None => Leaf(Null) case Some(t) => Leaf(Str(t))
  }

  function Texts(strings: seq<string>): seq<Item> {
    if strings == [] then [] else [ScalarItem(Str(strings[0]))] + Texts(strings[1..])
  }

  function MetricsDict(m: Metrics): seq<Entry> {
    [Entry("mode", OptText(if m.mode.Some? then Some(ModeText(m.mode.value)) else None)),
     Entry("consent_completed", Leaf(Bool(m.consentCompleted)))]
  }

  function GeminiDict(g: Gemini): seq<Entry> {
    [Entry("executable", Leaf(Str(g.executable))),
     Entry("model", OptText(g.model)),
     Entry("approval_mode", Leaf(Str(g.approvalMode))),
     Entry("sandbox", Leaf(Bool(g.sandbox))),
     Entry("skip_trust", Leaf(Bool(g.skipTrust))),
     Entry("include_directories", Listing(Texts(g.includeDirectories))),
     Entry("extra_args", Listing(Texts(g.extraArgs)))]
  }

  function CustomDict(c: Custom): seq<Entry> {
    [Entry("display_name", Leaf(Str(c.displayName))),
     Entry("executable", Leaf(Str(c.executable))),
     Entry("args", Listing(Texts(c.args))),
     Entry("input_mode", Leaf(Str(c.inputMode))),
     Entry("output_mode", Leaf(Str(c.outputMode))),
     Entry("timeout_seconds", Leaf(Int(c.timeoutSeconds))),
     Entry("working_directory", Leaf(Str(c.workingDirectory))),
     Entry("environment_allowlist", Listing(Texts(c.allowlist))),
     Entry("capabilities", Listing(Texts(c.capabilities)))]
  }

  /** `sorted(custom.items())`; the keys of a dict are distinct, so only they are compared. */
  function SortCustom(custom: seq<(string, Custom)>): (r: seq<(string, Custom)>)
    ensures multiset(r) == multiset(custom)
  {
    if custom == [] then [] else
    assert custom == [custom[0]] + custom[1..];
    InsertCustom(custom[0], SortCustom(custom[1..]))
  }

  function InsertCustom(item: (string, Custom), sorted: seq<(string, Custom)>): (r: seq<(string, Custom)>)
    ensures multiset(r) == multiset(sorted) + multiset{item}
  {
    if sorted == [] || StringLessEq(item.0, sorted[0].0) then [item] + sorted
    else
      assert sorted == [sorted[0]] + sorted[1..];
      [sorted[0]] + InsertCustom(item, sorted[1..])
  }

  function CustomEntries(custom: seq<(string, Custom)>): (es: seq<Entry>)
    ensures |es| == |custom|
    ensures forall i :: 0 <= i < |es| ==> es[i] == Entry(custom[i].0, Mapping(CustomDict(custom[i].1)))
  {
    if custom == [] then [] else [Entry(custom[0].0, Mapping(CustomDict(custom[0].1)))] + CustomEntries(custom[1..])
  }

  /** The entries of `harnesses` up to the migration message, and those after it. */
  function HarnessesHead(h: Harnesses): seq<Entry> {
    [Entry("enabled", Listing(Texts(h.enabled))),
     Entry("default", OptText(h.default)),
     Entry("selection_required", Leaf(Bool(h.selectionRequired)))]
  }

  function HarnessesTail(h: Harnesses): seq<Entry> {
    [Entry("gemini", Mapping(GeminiDict(h.gemini))),
     Entry("custom", Mapping(CustomEntries(SortCustom(h.custom))))]
  }

  function HarnessesDict(h: Harnesses): seq<Entry> {
    HarnessesHead(h) + [Entry("migration_message", OptText(h.migrationMessage))] + HarnessesTail(h)
  }

  function DeliveryDict(d: Delivery): seq<Entry> {
    [Entry("transport", OptText(d.transport)), Entry("socket_path", OptText(d.socketPath))]
  }

  function AsDict(c: UserConfig): seq<Entry> {
    [Entry("metrics", Mapping(MetricsDict(c.metrics))),
     Entry("harnesses", Mapping(HarnessesDict(c.harnesses))),
     Entry("delivery", Mapping(DeliveryDict(c.delivery)))]
  }

  // ---------------------------------------------------------------- reading raw values

  /** `str` of a container; its exact form never matters here. */
  type Repr = Value -> string

  function Get(es: seq<Entry>, key: string): Option<Value> {
    if es == [] then None else if es[0].key == key then Some(es[0].value) else Get(es[1..], key)
  }

  predicate Truthy(raw: Option<Value>) {
    match raw
    case None => false
    case Some(Leaf(Null)) => false
    case Some(Leaf(Bool(b))) => b
    case Some(Leaf(Int(n))) => n != 0
    case Some(Leaf(Str(s))) => s != ""
    case Some(Mapping(es)) => es != []
    case Some(Listing(items)) => items != []
  }

  predicate IsNone(raw: Option<Value>) {
    raw == None || raw == Some(Leaf(Null))
  }

  /** `str(value)`. */
  function StrOf(v: Value, repr: Repr): string {
    match v
    case Leaf(Null) => "None"
    case Leaf(Bool(b)) => if b then "True" else "False"
    case Leaf(Int(n)) => IntText(n)
    case Leaf(Str(s)) => s
    case _ => repr(v)
  }

  /** `str(raw or default)`. */
  function StrOr(raw: Option<Value>, default: string, repr: Repr): string {
    if Truthy(raw) then StrOf(raw.value, repr) else default
  }

  /** `str(raw) if raw not in (None, "", "null") else None`. */
  function OptStr(raw: Option<Value>, repr: Repr): Option<string> {
    if IsNone(raw) || raw == Some(Leaf(Str(""))) || raw == Some(Leaf(Str("null"))) then None
    else Some(StrOf(raw.value, repr))
  }

  function ItemStrings(items: seq<Item>, repr: Repr): seq<string> {
    if items == [] then []
    else
      var text := match items[0]
        case ScalarItem(v) => StrOf(Leaf(v), repr)
        case MapItem(es) => repr(Mapping(es));
      [text] + ItemStrings(items[1..], repr)
  }

  datatype Splitting = AtSpaces | AtSpacesAndCommas | NoSplitting

  /** A tuple of strings from a list or, where allowed, from a string to be split. */
  function StringsOf(raw: Option<Value>, splitting: Splitting, default: seq<string>, repr: Repr): seq<string> {
    if !Truthy(raw) then default
    else
      match raw.value
      case Leaf(Str(s)) =>
        (match splitting
         case AtSpaces => Words(s)
         case AtSpacesAndCommas => Words(CommasToSpaces(s))
         case NoSplitting => default)
      case Listing(items) => ItemStrings(items, repr)
      case _ => default
  }

  /** `int(raw)`, None where Python raises; a missing or null timeout is 1800. */
  function TimeoutOf(raw: Option<Value>): Option<int> {
    if IsNone(raw) then Some(1800)
    else
      match raw.value
      case Leaf(Int(n)) => Some(n)
      case Leaf(Bool(b)) => Some(if b then 1 else 0)
      case Leaf(Str(s)) => ReadInt(Strip(s))
      case _ => None
  }

  // ---------------------------------------------------------------- *_from_raw

  function ModeOf(text: string): Option<MetricsMode> {
    var lowered := Lower(Strip(text));
    if lowered == "always" then Some(Always)
    else if lowered == "ask" then Some(Ask)
    else if lowered == "never" then Some(Never)
    else None
  }

  function MetricsFrom(raw: seq<Entry>, repr: Repr): Metrics {
    var modeRaw := Get(raw, "mode");
    var mode := if IsNone(modeRaw) then None else ModeOf(StrOf(modeRaw.value, repr));
    var consent := Truthy(Get(raw, "consent_completed"));
    Metrics(mode, consent || (mode.Some? && Get(raw, "consent_completed") == None))
  }

  function CustomFrom(id: string, raw: seq<Entry>, repr: Repr): Option<Custom> {
    match TimeoutOf(Get(raw, "timeout_seconds"))
    case None => None
    case Some(timeout) =>
      Some(Custom(
        id,
        StrOr(Get(raw, "display_name"), id, repr),
        StrOr(Get(raw, "executable"), "", repr),
        StringsOf(Get(raw, "args"), AtSpaces, [], repr),
        StrOr(Get(raw, "input_mode"), "stdin", repr),
        StrOr(Get(raw, "output_mode"), "jsonl", repr),
        timeout,
        StrOr(Get(raw, "working_directory"), "inherit", repr),
        StringsOf(Get(raw, "environment_allowlist"), AtSpacesAndCommas, DEFAULT_ALLOWLIST, repr),
        StringsOf(Get(raw, "capabilities"), AtSpacesAndCommas, [], repr)))
  }

  function CustomsFrom(es: seq<Entry>, repr: Repr): Option<seq<(string, Custom)>> {
    if es == [] then Some([])
    else
      match CustomFrom(es[0].key, if es[0].value.Mapping? then es[0].value.entries else [], repr)
      case None => None
      case Some(first) =>
        match CustomsFrom(es[1..], repr)
        case None => None
        case Some(rest) => Some([(es[0].key, first)] + rest)
  }

  function GeminiFrom(raw: Option<Value>, repr: Repr): Gemini {
    if raw == None || !raw.value.Mapping? then DEFAULT_GEMINI
    else
      var es := raw.value.entries;
      var approval := StrOr(Get(es, "approval_mode"), "default", repr);
      Gemini(
        StrOr(Get(es, "executable"), "gemini", repr),
        OptStr(Get(es, "model"), repr),
        if approval in GEMINI_APPROVAL_MODES then approval else "default",
        Truthy(Get(es, "sandbox")),
        Truthy(Get(es, "skip_trust")),
        StringsOf(Get(es, "include_directories"), AtSpacesAndCommas, [], repr),
        StringsOf(Get(es, "extra_args"), NoSplitting, [], repr))
  }

  function MappingOr(raw: Option<Value>): seq<Entry> {
    if raw.Some? && raw.value.Mapping? then raw.value.entries else []
  }

  function HarnessesFrom(data: seq<Entry>, repr: Repr): Option<Harnesses> {
    var raw := MappingOr(Get(data, "harnesses"));
    var defaultRaw := if IsNone(Get(raw, "default")) && !IsNone(Get(data, "default_harness"))
                      then Get(data, "default_harness") else Get(raw, "default");
    match CustomsFrom(MappingOr(Get(raw, "custom")), repr)
    case None => None
    case Some(custom) =>
      Some(Harnesses(
        StringsOf(Get(raw, "enabled"), AtSpacesAndCommas, [], repr),
        OptStr(defaultRaw, repr),
        custom,
        GeminiFrom(Get(raw, "gemini"), repr),
        Truthy(Get(raw, "selection_required")),
        if IsNone(Get(raw, "migration_message")) then None
        else Some(StrOf(Get(raw, "migration_message").value, repr))))
  }

  function DeliveryFrom(raw: Option<Value>, repr: Repr): Delivery {
    var es := MappingOr(raw);
    Delivery(OptStr(Get(es, "transport"), repr), OptStr(Get(es, "socket_path"), repr))
  }

  function MetricsOf(data: seq<Entry>, repr: Repr): Metrics {
    match Get(data, "metrics")
    case Some(Mapping(es)) => MetricsFrom(es, repr)
    case _ =>
      match Get(data, "telemetry")
      case Some(Mapping(es)) => MetricsFrom(es, repr)
      case _ => Metrics(None, false)
  }

  /** `user_config_from_mapping`; None where a timeout makes Python raise. */
  function FromMapping(data: seq<Entry>, repr: Repr): Option<UserConfig> {
    match HarnessesFrom(data, repr)
    case None => None
    case Some(h) => Some(UserConfig(MetricsOf(data, repr), h, DeliveryFrom(Get(data, "delivery"), repr)))
  }

  // ---------------------------------------------------------------- migration

  const REMOVED_HARNESS_IDS := {"fake", "joy"}
  // The messages are put together from short literals, which the verifier can index.
  const MESSAGE_START_JOY := "The previously" + " selected" + " “joy” harness" + " has been" + " removed."
  const MESSAGE_START_FAKE := "The previously" + " selected" + " “fake” harness" + " has been" + " removed."
  const MESSAGE_END := "Choose" + " a supported" + " or custom" + " harness to" + " continue."

  function MigrationMessage(start: string): string {
    start + "\n" + MESSAGE_END
  }

  function WithoutRemoved(ids: seq<string>): (r: seq<string>)
    ensures |r| <= |ids|
    ensures forall id :: id in r <==> id in ids && id !in REMOVED_HARNESS_IDS
    ensures r == ids <==> forall id :: id in ids ==> id !in REMOVED_HARNESS_IDS
  {
    if ids == [] then []
    else
      assert forall id :: id in ids <==> id == ids[0] || id in ids[1..];
      var rest := WithoutRemoved(ids[1..]);
      if ids[0] in REMOVED_HARNESS_IDS then rest
      else
        assert ids == [ids[0]] + ids[1..];
        [ids[0]] + rest
  }

  predicate RemovedDefault(h: Harnesses) {
    h.default.Some? && h.default.value in REMOVED_HARNESS_IDS
  }

  predicate HadRemoved(h: Harnesses) {
    RemovedDefault(h) || exists id :: id in h.enabled && id in REMOVED_HARNESS_IDS
  }

  function MigratedMessage(h: Harnesses): Option<string> {
    if RemovedDefault(h) then
      Some(MigrationMessage(if h.default.value == "joy" then MESSAGE_START_JOY else MESSAGE_START_FAKE))
    else if "joy" in h.enabled then Some(MigrationMessage(MESSAGE_START_JOY))
    else if HadRemoved(h) && h.migrationMessage == None then Some(MigrationMessage(MESSAGE_START_FAKE))
    else h.migrationMessage
  }

  /** `migrate_legacy_harness_preferences`: the configuration and whether it changed. */
  function Migrate(c: UserConfig): (UserConfig, bool) {
    var h := c.harnesses;
    if !HadRemoved(h) then (c, false)
    else
      (c.(harnesses := h.(
         enabled := WithoutRemoved(h.enabled),
         default := if RemovedDefault(h) then None else h.default,
         selectionRequired := true,
         migrationMessage := MigratedMessage(h))), true)
  }
}
