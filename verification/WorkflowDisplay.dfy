/** What a drawn node shows, as far as making it can throw. */
module WorkflowDisplay {
  import opened Wrappers

  /** A value of a document, as parsed from JSON text. */
  datatype Json =
    | Null
    | Bool(flag: bool)
    | Num(value: real)
    | Str(text: string)
    | Arr(items: seq<Json>)
    | Obj(fields: Fields)

  type Fields = map<string, Json>

  /** A field that is not there reads as undefined, which is `None`. */
  function Get(fields: Fields, key: string): Option<Json> {
    if key in fields then Some(fields[key]) else None
  }

  /** A property of a value. None of the names read here is one of a text, a list or a number. */
  function Field(v: Option<Json>, key: string): Option<Json> {
    if v.Some? && v.value.Obj? then Get(v.value.fields, key) else None
  }

  predicate Nothing(v: Option<Json>) {
    v.None? || v.value.Null?
  }

  predicate Truthy(v: Option<Json>) {
    v.Some? &&
    match v.value
    case Null => false
    case Bool(flag) => flag
    case Num(value) => value != 0.0
    case Str(text) => text != ""
    case _ => true
  }

  // ---------- Turning a value into text ----------

  /** The value can stand in a template. An object whose own `toString` hides the built-in one cannot: nothing parsed from JSON is a function. */
  predicate Prints(v: Json)
    decreases v
  {
    match v
    case Arr(items) => forall i :: 0 <= i < |items| ==> items[i].Null? || Prints(items[i])
    case Obj(fields) => "toString" !in fields
    case _ => true
  }

  predicate Printable(v: Option<Json>) {
    v.Some? ==> Prints(v.value)
  }

  /** `join` on what should be a list. */
  predicate Joins(v: Option<Json>) {
    v.Some? && v.value.Arr? && Prints(v.value)
  }

  // ---------- Leaves ----------

  predicate IsText(v: Option<Json>) {
    v.Some? && v.value.Str?
  }

  /** `clip` works on texts only. */
  predicate DetailShown(kind: string, held: Fields) {
    if kind == "callModel" then IsText(Get(held, "instructions"))
    else if kind == "runCode" then IsText(Get(held, "execute"))
    else if kind == "compute" then IsText(Get(held, "expr"))
    else if kind == "acp-agent" then IsText(Get(held, "prompt"))
    else if kind == "subflow" then Truthy(Get(held, "ref")) ==> Printable(Get(held, "ref"))
    else true
  }

  /** A tool entry is named by its type, its connection or its server's name; the server must be there to be asked. */
  predicate ToolNamed(entry: Json) {
    match entry
    case Obj(fields) =>
      if "type" in fields then fields["type"].Null? || Prints(fields["type"])
      else if "connection" in fields then fields["connection"].Null? || Prints(fields["connection"])
      else !Nothing(Get(fields, "mcp")) && (Nothing(Field(Get(fields, "mcp"), "name")) || Printable(Field(Get(fields, "mcp"), "name")))
    case _ => false
  }

  /** Whatever has a length that is not zero is taken for a list. */
  predicate ToolsShown(tools: Option<Json>) {
    if Nothing(tools) then true
    else
      match tools.value
      case Arr(items) => forall i :: 0 <= i < |items| ==> ToolNamed(items[i])
      case Str(text) => text == ""
      case Obj(fields) => !Truthy(Get(fields, "length"))
      case _ => true
  }

  predicate ShownIfTruthy(v: Option<Json>) {
    Truthy(v) ==> Printable(v)
  }

  predicate ChipsShown(kind: string, held: Fields) {
    if kind == "callModel" then
      && ShownIfTruthy(Get(held, "model"))
      && ToolsShown(Get(held, "tools"))
      && (Truthy(Get(held, "output")) ==>
          Printable(Field(Get(held, "output"), "codec")) && Printable(Field(Get(held, "output"), "library")))
    else if kind == "runCode" then
      Truthy(Get(held, "retry")) ==> Printable(Field(Get(held, "retry"), "maxAttempts"))
    else if kind == "acp-agent" then
      && Printable(Get(held, "agent"))
      && ShownIfTruthy(Get(held, "model"))
      && ShownIfTruthy(Get(held, "mode"))
      && ShownIfTruthy(Field(Get(held, "session"), "reuse"))
    else true
  }

  predicate LeafShown(kind: string, held: Fields) {
    DetailShown(kind, held) && ChipsShown(kind, held)
  }

  // ---------- Gates ----------

  /** A split shows its concurrency, what it is over when it has one body for each item, and how it merges unless it is a race. */
  predicate ParallelShown(each: bool, held: Fields) {
    && Printable(Get(held, "concurrency"))
    && (each ==> Nothing(Get(held, "over")) || Printable(Get(held, "over")))
    && (Get(held, "mode") == Some(Str("race")) || Nothing(Get(held, "merge")) || Printable(Get(held, "merge")))
  }

  /** The route is there and its match can be shown. */
  predicate RouteShown(route: Option<Fields>) {
    route.Some? && Printable(Get(route.value, "match"))
  }

  /** The first `k` routes. */
  predicate RoutesShown(labels: seq<Option<Fields>>, k: nat) {
    k == 0 || (RoutesShown(labels, k - 1) && (k <= |labels| ==> RouteShown(labels[k - 1])))
  }

  lemma {:induction false} OneRouteHidden(labels: seq<Option<Fields>>, k: nat, i: nat)
    requires i < k && i < |labels| && RoutesShown(labels, k)
    ensures RouteShown(labels[i])
  {
    if i < k - 1 { OneRouteHidden(labels, k - 1, i); }
  }

  lemma {:induction false} NoRoutes(k: nat)
    ensures RoutesShown([], k)
  {
    if k > 0 { NoRoutes(k - 1); }
  }

  predicate SwitchShown(held: Fields) {
    Printable(Get(held, "on")) && Printable(Get(held, "minConfidence"))
  }

  /** `describeUntil`: the predicate must be there, and a combination must list its parts. An unknown kind shows as undefined. */
  predicate UntilShown(until: Json)
    decreases until
  {
    match until
    case Null => false
    case Obj(fields) =>
      if "kind" !in fields then true
      else if fields["kind"] == Str("any") || fields["kind"] == Str("all") then
        "predicates" in fields && fields["predicates"].Arr? &&
        forall i :: 0 <= i < |fields["predicates"].items| ==> UntilShown(fields["predicates"].items[i])
      else if fields["kind"] == Str("maxSteps") then Printable(Get(fields, "n"))
      else if fields["kind"] == Str("maxCost") then Printable(Get(fields, "usd"))
      else if fields["kind"] == Str("maxDuration") then Printable(Get(fields, "duration"))
      else if fields["kind"] == Str("outputContains") then Printable(Get(fields, "marker"))
      else if fields["kind"] == Str("outputEquals") then Printable(Get(fields, "sentinel"))
      else if fields["kind"] == Str("converged") then Printable(Get(fields, "threshold"))
      else if fields["kind"] == Str("decide") then Printable(Get(fields, "id"))
      else if fields["kind"] == Str("expr") then Printable(Get(fields, "expr"))
      else true
    case _ => true
  }

  predicate LoopShown(held: Fields) {
    "until" in held && UntilShown(held["until"]) && Printable(Get(held, "maxIterations"))
  }

  predicate ScheduleShown(held: Fields) {
    Printable(Get(held, "interval")) && ShownIfTruthy(Get(held, "onError"))
  }

  /** A spawn may inherit its layers; a context must list them. */
  predicate ScopedShown(spawns: bool, held: Fields) {
    if spawns then (Truthy(Get(held, "layers")) ==> Joins(Get(held, "layers"))) && Printable(Get(held, "timeout"))
    else Joins(Get(held, "layers"))
  }
}
