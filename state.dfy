/** The accumulators of `processModule` in lib/upgrader.js (lines 130-155): what
    the classification of one legacy module has collected so far. The pure
    functions of the modules that follow compute the new accumulators from the old
    ones; `Processor` keeps the same data in the fields of an object. */
module UpgradeState {
  import opened Wrappers
  import opened AssocList
  import opened Ast
  import opened Seqs

  /** An entry of `methods`: `self.<name> = function …` in a construct body. The name
      is `get(statement, 'expression.left.property.name')`, null when the left side
      is not a plain member access. */
  datatype Method = Method(name: Option<string>, fn: Node, comments: seq<Comment>)

  /** The exceptions processModule can raise on legacy code it does not expect. */
  datatype UpgradeError =
    | RouteNameMissing          // camelName(null): a route without a literal name
    | RouteWithoutFunction      // fns[0].leadingComments on a route with no function
    | HelpersWithoutArgument    // args[0].type on `self.addHelpers()`
    | EnableHelpersLoop         // an enableHelpers whose first statement calls enableHelpers
    | EventArgumentMissing      // args[0].type or args[1].type on a short `self.on`
    | HandlerMethodMissing(handler: Lit)  // method.statement: no method for a queued handler
    | FieldElementMissing       // element.type on an array hole
    | FieldNameMissing          // name.value on a field object without `name`
    | FieldNameNotString        // text.match on a name literal that is not a string
    | FieldsValueMissing        // value.type on a null fields option
    | RequirePathNotString      // path.resolve on a partial path that is not a string
    | PartialUnreadable(path: string)  // the read or the parse of a partial failed
    | PartialTooDeep            // partials nested beyond the stack
    | OptionsLengthInvalid      // `options.length = node` on the options array (RangeError)
    | PiecesWithoutName         // `options.name.value` on a pieces subclass with no name option
    | RouteNotPrintable         // printing a single route handler relabelled FunctionExpression that is not a function

  type Routes = AList<AList<AList<seq<Node>>>>
  type Handlers = AList<AList<Node>>

  datatype Acc = Acc(
    prologue: seq<Node>,
    methods: seq<Method>,
    earlyInits: seq<Node>,
    lateInits: seq<Node>,
    adjusts: seq<Node>,
    helpersNeeded: bool,
    options: AList<Node>,
    fields: Option<seq<Node>>,          // the properties of the `fields` object, once created
    routes: Routes,                     // type -> HTTP method -> route name -> functions
    superCaptures: AList<string>,       // captured property -> `super…` variable
    queue: seq<(Lit, Lit)>,             // moveMethodsToHandlers: (event, method name)
    specials: AList<Node>,
    importedPaths: seq<string>,
    handlers: Handlers,                 // event -> handler name -> function
    helpers: Option<Node>)

  const Initial := Acc([], [], [], [], [], false, [], None, [], [], [], [], [], [], None)

  /** A result of a recogniser: whether it claimed the statement, and the new state. */
  type Claim = Result<(bool, Acc), UpgradeError>

  /** `options['upgrade-required-files']`, read from the module's own options: any
      node stored there is truthy, a stored `null` is not. */
  predicate Gate(acc: Acc) {
    match Lookup(acc.options, "upgrade-required-files")
    case Some(v) => !v.kind.Absent?
    case None => false
  }

  /** `method.name === v` for a method name and a literal value. */
  predicate NameIs(name: Option<string>, v: Lit) {
    match name
    case Some(s) => v == LStr(s)
    case None => v == LNull
  }

  /** `methods.find(method => method.name === v)`. */
  function FindMethod(ms: seq<Method>, v: Lit): (r: Option<nat>)
    ensures r.Some? ==> r.value < |ms| && NameIs(ms[r.value].name, v)
    ensures r.Some? ==> forall j :: 0 <= j < r.value ==> !NameIs(ms[j].name, v)
    ensures r.None? ==> forall j :: 0 <= j < |ms| ==> !NameIs(ms[j].name, v)
  {
    if ms == [] then None
    else if NameIs(ms[0].name, v) then Some(0)
    else match FindMethod(ms[1..], v)
      case Some(i) => Some(i + 1)
      case None => None
  }

  /** `methods.filter(method => method.name !== v)`. */
  function DropNamed(ms: seq<Method>, v: Lit): seq<Method> {
    Filter(ms, (m: Method) => !NameIs(m.name, v))
  }
}
