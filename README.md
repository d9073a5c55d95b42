# code-upgrader core, modelled in Dafny

The ApostropheCMS code upgrader rewrites the modules of an Apostrophe 2.x project
in the 3.x format, and its linter reports what still needs attention. This
project models the parts of it that decide what the rewritten code is. Those
parts are:

- **processModule** in `lib/upgrader.js`. It scans the top-level
  `module.exports = { … }` objects of a module and sorts their properties
  (construct code, specials, the fields options, plain options). It then
  classifies the construct code into methods, inits, routes, helpers, event
  handlers and `super…` captures, and moves the handler methods. Finally it
  writes the new object in its fixed section order and, behind the
  `upgrade-required-files` switch, inlines partial files and drops duplicate
  `require` declarations.
- The helpers processModule calls: `camelName`, `replaceIdentifier`,
  `protectBlankLines`/`restoreBlankLines`, `filterModuleName`,
  `nameToLiteralOrIdentifier`, `invokeHelper`, `ensureFields` and
  `handleFieldsOption`.
- `lib/get.js`: the null-safe dotted path lookup every part above relies on.
- The helpers of `lib/linter.js` and the rule loop of `lintModules`:
  `indexToLine`, `moduleName`, `matchRule`, `getMessage`, and `once` rules
  that report at most once.
- `helpers/index.js`: `arrayOptionToObject`, the runtime helper that upgraded
  code calls when a fields option cannot be converted in advance.

Parsed JavaScript is a small AST datatype (`Ast.Node`). Every node carries its
leading comments. The accumulators of processModule are the fields of the class
`Processor.ModuleProcessor`. Each of its methods updates them in place and is
proved to agree with a pure definition over the value type
`UpgradeState.Acc`. The properties are proved about those definitions. The
places where the source throws on legacy code it does not expect are `Err`
values of `UpgradeState.UpgradeError`: a missing argument, `camelName(null)`,
a hole in a fields array, a deferred handler whose method does not exist, an
unreadable partial, an option named `length` (which sets the length of the
`options` array), a pieces subclass without a `name` option, and a route whose
single handler is not a function (which the printer cannot print). The file
system, `path.resolve` and the parser are parameters of `Construct.Env`.

## Model

| member | source | states |
|---|---|---|
| JsonGet.Get | lib/get.js:1-15 | the loop returns the path lookup; a null or undefined object gives null; the result is never undefined |
| JsonGet.GetNeverUndefined | lib/get.js:8-13 | a missing segment gives null, never undefined |
| JsonGet.SingleSegment | lib/get.js:6-14 | a path without a dot reads one member, and a nullish member becomes null |
| JsonGet.GetCompose | lib/get.js:6-13 | looking up `p.q` is looking up `q` in the result of looking up `p` |
| JsonGet.ArrayIndexSegment | lib/get.js:9-12 | a decimal segment indexes into an array |
| Helpers.ArrayOptionToObject | helpers/index.js:13-21 | succeeds exactly on an array with no null or undefined element and gives an object; otherwise names the first nullish element |
| Helpers.ArrayOptionToObjectSpec | helpers/index.js:13-21 | the object's keys are unique; a key is present exactly when some field has that name; it maps to the last field with that name |
| Helpers.FromEntriesGet | helpers/index.js:14 | `Object.fromEntries` maps each key to its last entry |
| Helpers.LaterFieldWins | helpers/index.js:14-20 | of two fields with the same name, the later one is kept |
| Helpers.EmptyArray | helpers/index.js:13-21 | an empty array gives an empty object |
| Helpers.SingleFieldAccess | helpers/index.js:13-21 | `get(result, name + '.' + p)` reads property `p` of the field called `name` |
| Camel.CamelName | lib/upgrader.js:625-649 | the character loop computes the reference conversion |
| Camel.CamelKeepsAlnums | lib/upgrader.js:630-647 | the result is the input's ASCII letters and digits, in order, with only their case changed |
| Camel.CamelEmpty | lib/upgrader.js:625-649 | the result is empty exactly when the input has no ASCII letter or digit |
| Camel.CamelFixesCamelCase | lib/upgrader.js:625-649 | a name already in camel case is returned unchanged |
| Camel.MyRoute | lib/upgrader.js:625-649 | `my-route` becomes `myRoute` |
| LegacyNames.LegacyModuleName | lib/legacy-module-name-map.js:1-54 | a 2.x module name that the table knows maps to a scoped `@…` name |
| LegacyNames.FilterModuleName | lib/upgrader.js:1003-1005 | a known legacy name is replaced by its 3.x name; any other name is kept |
| LegacyNames.FilterIdempotent | lib/upgrader.js:1003-1005 | filtering twice is filtering once |
| LegacyNames.ScopedNamesPassThrough | lib/upgrader.js:1003-1005 | scoped names are never renamed |
| LegacyNames.PiecesExample | lib/legacy-module-name-map.js:50 | `apostrophe-pieces` becomes `@apostrophecms/piece-type` |
| BlankLines.ProtectIsJoin | lib/upgrader.js:752-761 | the final replace changes nothing: protecting is mapping the lines and joining them again |
| BlankLines.ProtectLinewise | lib/upgrader.js:752-761 | the protected text has as many lines; each blank line becomes the marker, every other line is kept |
| BlankLines.CollapseNoOp | lib/upgrader.js:760 | the replace is the identity on text with no line made only of spaces |
| BlankLines.ProtectedHasNoSpaceLine | lib/upgrader.js:753-760 | after the line mapping, no line is made only of spaces |
| BlankLines.DeleteMarkersAroundNewline | lib/upgrader.js:763-765 | deleting markers works line by line |
| BlankLines.DeleteMarkersAbsent | lib/upgrader.js:763-765 | restoring text without a marker changes nothing |
| BlankLines.DeleteMarkerAlone | lib/upgrader.js:763-765 | a line that is only the marker becomes empty |
| BlankLines.DeleteMarkersJoin | lib/upgrader.js:763-765 | restoring protected lines empties each blank line and keeps the others |
| BlankLines.RestoreProtect | lib/upgrader.js:752-765 | for code without the marker, restore after protect empties each blank line and keeps the others |
| BlankLines.RestoreProtectIdentity | lib/upgrader.js:752-765 | code without the marker whose blank lines are empty comes back unchanged |
| Linter.LineAt | lib/linter.js:116-150 | succeeds exactly for an index inside the text, with a line free of newlines, a line number from 1 and a column within the line plus one; otherwise the "not found" error |
| Linter.IndexToLine | lib/linter.js:116-150 | the scanning loop returns exactly `LineAt` |
| Linter.IndexToLineMatchesSplit | lib/linter.js:122-139 | the line number counts the lines before the index; the text is that line of `src.split('\n')`; the column is one plus the characters before the index on it |
| Linter.NewlineEndsLine | lib/linter.js:127-130 | on a newline the column is just past the line's end |
| Linter.ColumnPointsAtChar | lib/linter.js:133-137 | on any other character the column points at that character |
| Linter.LastIndexOf | lib/linter.js:155 | the last position of a character, or none exactly when it is absent |
| Linter.ModuleName | lib/linter.js:153-162 | a suffix of the path: from the last `@` if any, else after the last `/`, else the whole path |
| Linter.ScopedModuleName | lib/linter.js:154-155 | a scoped module path gives `@scope/name` |
| Linter.PlainModuleName | lib/linter.js:156-157 | `dir/name` gives `name` |
| Linter.MatchRule | lib/linter.js:164-174 | a function rule or a non-global regex gives at most one match, and none exactly when it does not match; a global regex gives all matches |
| Linter.GetMessage | lib/linter.js:176-179 | the message, applied to the input when it is a function, with its leading and trailing whitespace trimmed |
| Text.TrimShape | lib/linter.js:178 | trim removes exactly the leading and trailing whitespace |
| Text.TrimIdempotent | lib/linter.js:178 | trimming twice is trimming once |
| Linter.LintModule | lib/linter.js:28-43 | the rule loop over one module leaves the table and the reports that the rule steps give |
| Linter.LintModules | lib/linter.js:24-50 | the reports are those of the rule loop run over every module in order |
| Linter.LintSpecInv | lib/linter.js:24-50 | the matched table holds exactly the rules that reported; a `once` rule has at most one report |
| Linter.OnceReportedAtMostOnce | lib/linter.js:29-32 | a `once` rule is reported at most once over all modules |
| Linter.MatchNameIgnoresFilename | lib/linter.js:33-41 | a rule with `matchName` behaves the same whatever its `matchFilename` |
| Linter.ReportsFire | lib/linter.js:33-47 | every report names a linted module and a rule that fires on it |
| Ast.RenameRemoves | lib/upgrader.js:654-664 | after `replaceIdentifier` no identifier has the old name |
| Ast.RenameKeepsOthers | lib/upgrader.js:654-664 | every other identifier occurs after renaming exactly when it did before |
| Ast.RenameAbsent | lib/upgrader.js:654-664 | renaming a name that does not occur changes nothing |
| Ast.Retype | lib/upgrader.js:733 | an arrow function becomes a function expression with the same parameters and body; anything else is unchanged |
| Construct.JsPath | lib/upgrader.js:566-568 | the path ends in `.js`, and `.js` is added only when it was missing |
| Construct.GateOffPartition | lib/upgrader.js:545-602 | with the switch off, the method assignments go to the methods and every other statement goes to the early inits, both in order |
| Construct.ParseConstructGrows | lib/upgrader.js:545-602 | parsing construct code only appends to methods, early inits, prologue and imported paths |
| Construct.ParseStatementGrows | lib/upgrader.js:547-600 | the same for one statement |
| Construct.PartialStatementsGrows | lib/upgrader.js:580-595 | the same for the statements of a partial |
| Construct.ParseConstructFailsFrom | lib/upgrader.js:546 | the first statement that throws ends the parse with its error |
| Construct.InlinePlainPartial | lib/upgrader.js:559-596 | with the switch on, a partial without its own export is hoisted whole to the prologue, and its path with `.js` is recorded |
| Construct.HoistAll | lib/upgrader.js:580-595 | statements that are not `module.exports = …` go to the prologue in order |
| Recognise.ClassifyDeclines | lib/upgrader.js:262-279 | a statement that no recogniser claims leaves every table unchanged |
| Recognise.RouteClaims | lib/upgrader.js:666-686 | `route` claims exactly `self.<type>(…)` calls with a truthy method, a non-empty camel-cased name and at least one function |
| Recognise.RouteRegisters | lib/upgrader.js:677-681 | a claimed route stores its functions under type, method and camel-cased name, with the statement's comments on the first one; nothing else changes |
| Recognise.RouteAtPut | lib/upgrader.js:679-681 | the stored route can be read back |
| Recognise.RouteAtPutOther | lib/upgrader.js:679-681 | every other route is left as it was |
| Recognise.RouteNameNotString | lib/upgrader.js:672-675 | a missing name throws; a name that is a number or boolean is declined |
| Recognise.OnEventQueues | lib/upgrader.js:724-729 | `self.on(e, n)` makes sure the event has a handler table and queues the move of method `n` |
| Recognise.OnEventStores | lib/upgrader.js:730-739 | `self.on(e, n, fn)` stores a function or arrow at `handlers[e][n]` as a function expression and declines anything else |
| Recognise.SuperCaptureRecords | lib/upgrader.js:743-748 | `var superX = self.x` is claimed and records `x -> superX`; only `super…` names are recorded |
| Recognise.RouteFrame | lib/upgrader.js:666-686 | `route` changes only the routes |
| Recognise.AddHelpersFrame | lib/upgrader.js:688-716 | `addHelpers` changes only the helpers and the methods |
| Recognise.OnEventFrame | lib/upgrader.js:718-741 | `onEvent` changes only the handlers and the move queue |
| Recognise.ClassifyFrame | lib/upgrader.js:262-279 | the recognisers change only their own tables and keep the captures `super…` names |
| Recognise.FilterInitsKeepsOrder | lib/upgrader.js:260-280 | the surviving inits are a subsequence of the inits |
| Recognise.FilterInitsFrame | lib/upgrader.js:260-280 | the filter changes only the recognisers' tables |
| Recognise.PassiveDeclined | lib/upgrader.js:262-279 | a statement that is neither a `self` call nor a declaration is declined |
| Recognise.PassiveInitsSurvive | lib/upgrader.js:260-280 | such statements all survive, and nothing is recorded |
| Recognise.EnableHelpersRemoves | lib/upgrader.js:689-697 | a claimed `self.enableHelpers()` sets the helpers and removes every `enableHelpers` method |
| Recognise.AddHelpersValue | lib/upgrader.js:699-714 | `self.addHelpers(a)`: an object literal becomes the helpers as it is; `_.pick(x, …)` gives an array literal of the arguments after the first, in order, changing nothing else; any other argument is declined with nothing changed; a missing one throws |
| Recognise.MemberHandlerRoute | lib/upgrader.js:666-686 | `self.apiRoute('get', 'list', self.list)` is claimed, with the member expression as the route's only handler |
| Fields.EnsureFields | lib/upgrader.js:872-892 | afterwards the `fields` property exists: an existing one is kept as it was, a missing one is created empty, and nothing else changes |
| Fields.NameIndex | lib/upgrader.js:911-914 | the first property that is a non-computed `name` identifier key, or none |
| Fields.ConvertElements | lib/upgrader.js:908-934 | converting the elements changes at most the prologue and the helper flag |
| Fields.InvokeHelperTwice | lib/upgrader.js:953-998 | the helper `require` is added by the first call only |
| Fields.ConvertElementsOnce | lib/upgrader.js:908-934 | a whole array adds the helper `require` at most once |
| Fields.HandleFieldsAppends | lib/upgrader.js:894-948 | a fields option appends exactly one subproperty, keyed by its name, to `fields` and adds the helper at most once |
| Fields.NonArrayFallsBack | lib/upgrader.js:935-945 | a value that is not an array literal is handed to the runtime helper whole |
| Fields.UnsupportedStopsEarly | lib/upgrader.js:908-945 | the first element that is neither an object nor a spread, after any field objects and spreads, sends the whole value to the runtime helper; the result does not depend on the elements after it, holes included |
| Fields.ConvertStopped | lib/upgrader.js:931-934 | once the loop has stopped, later elements are not looked at |
| Fields.MixedFieldsConvert | lib/upgrader.js:908-933 | an array of named field objects and spreads becomes, element by element in order, the field property or the spread of a helper call; the helper `require` is added exactly when some element is a spread and it was not there yet |
| Fields.SimpleFieldsConvert | lib/upgrader.js:908-925 | named field objects become one property each, in order, and nothing else changes |
| Fields.FieldValueDropsName | lib/upgrader.js:916-924 | a converted field keeps its other properties in order and drops exactly its name |
| Fields.FieldKeyOfName | lib/upgrader.js:1033-1053 | an identifier name is the key; a string that is a plain name becomes an identifier key; any other string stays the literal key; all three are non-computed; any other expression is itself the key, computed |
| Fields.AddFieldsExample | lib/upgrader.js:894-948 | `addFields: [{ name: 'title', type: 'string' }]` becomes `fields: { add: { title: { type: 'string' } } }` |
| Moves.MoveHandlerSpec | lib/upgrader.js:400-406 | a move fails exactly when no method has the name; otherwise the first such method becomes the handler and all methods of that name, and only those, are removed |
| Moves.MoveHandlersEmpty | lib/upgrader.js:400-406 | after all moves no method has a queued name, and the others keep their order |
| Moves.SplitPartition | lib/upgrader.js:408-409 | every method goes to exactly one of the two lists, by whether its name was captured, and both keep source order |
| Moves.ExtendFnShape | lib/upgrader.js:843-850 | an extend method gets `_super` as its first parameter and keeps the rest |
| Moves.ExtendFnRemoves | lib/upgrader.js:849 | the captured name no longer occurs |
| Moves.PrependParamKeeps | lib/upgrader.js:844-848 | the new parameter adds no other identifier |
| Moves.ExtendFnKeeps | lib/upgrader.js:843-850 | every other identifier occurs exactly when it did before |
| Output.RouteEmission | lib/upgrader.js:612-623 | one route function becomes a method with the same parameters and body; several become an array |
| Output.PropertiesInOrder | lib/upgrader.js:228-472 | the sections come in the order specials, options, beforeSuperClass, init, routes, handlers, fields, methods, extendMethods, helpers |
| Output.PresentInSection | lib/upgrader.js:228-472 | a key is found in the object exactly when its own section has it |
| Output.PropertiesPresent | lib/upgrader.js:239-472 | each generated section is present exactly when it has content |
| Output.OptionsPresent | lib/upgrader.js:239-258 | `options` is present exactly when some option was collected |
| Output.BeforePresent | lib/upgrader.js:282-308 | `beforeSuperClass` is present exactly when there are adjusts |
| Output.InitPresent | lib/upgrader.js:310-337 | `init` is present exactly when some init survived |
| Output.HandlersPresent | lib/upgrader.js:411-466 | `handlers` is present exactly when some event was registered |
| Output.FieldsPresent | lib/upgrader.js:468 | `fields` is present exactly when a fields option was seen |
| Output.MethodsPresent | lib/upgrader.js:814-870 | `methods` is present exactly when a plain method remains |
| Output.ExtendMethodsPresent | lib/upgrader.js:814-870 | `extendMethods` is present exactly when a method extends a capture |
| Output.HelpersPresent | lib/upgrader.js:767-812 | `helpers` is present exactly when helpers were declared |
| Output.RoutesPresent | lib/upgrader.js:339-398 | a `<type>s` section exists exactly for each route type registered |
| Output.PropertiesRoutesPresent | lib/upgrader.js:339-398 | the same, in the whole object |
| Output.SpecialsPresent | lib/upgrader.js:228-237 | a special is written exactly when it was found |
| Output.PropertiesSpecialsPresent | lib/upgrader.js:228-237 | the same, in the whole object |
| Upgrade.SpecialKey | lib/upgrader.js:140-147 | a special is kept under one of the four special names |
| Upgrade.LastObjectExport | lib/upgrader.js:156-165 | the object that gets the new properties is the last exported object literal |
| Upgrade.SetProperties | lib/upgrader.js:226 | the exported object then holds exactly the new properties |
| Upgrade.NewPropertiesInOrder | lib/upgrader.js:260-472 | from valid tables, the new object lists its sections in order |
| Upgrade.ClassifyValid | lib/upgrader.js:262-279 | the recognisers keep the specials and the route types within their names |
| Upgrade.TopStatementsValid | lib/upgrader.js:156-208 | the scan of the exported objects keeps the tables valid |
| Upgrade.ProcessModuleInOrder | lib/upgrader.js:156-472 | for every module, the upgraded object lists its sections in order |
| Upgrade.FirstRequiresOrder | lib/upgrader.js:476-514 | the require dedup keeps statements in order |
| Upgrade.FirstRequiresKeepsOthers | lib/upgrader.js:477-480 | every statement that is not a one-argument `require` declaration is kept |
| Upgrade.FirstRequiresUnique | lib/upgrader.js:504-510 | no two kept declarations require under the same name |
| Upgrade.FirstRequiresNames | lib/upgrader.js:476-514 | every required name is still declared |
| Upgrade.DedupRequires | lib/upgrader.js:474-514 | the filter with its `required` table keeps exactly the first declaration of each name |
| Upgrade.FirstBySet | lib/upgrader.js:504-510 | a declaration survives exactly when its name is not in the table yet |
| Upgrade.ModuleOptionsSwitchNeverOn | lib/upgrader.js:559 | as written the switch is never on, and no partial is recorded |
| Upgrade.QuotedSwitchIgnored | lib/upgrader.js:167-204 | `'upgrade-required-files': true` is stored under "null" and the switch stays off |
| Upgrade.SwitchOffShape | lib/upgrader.js:224-226 | with the switch off, the program is the module's statements with only the exported object replaced, after at most the helper `require`, and no file is deleted |
| Upgrade.NoExportSkipped | lib/upgrader.js:219-222 | a module without an exported object literal is left alone |
| Upgrade.UnprintableRouteFails | lib/upgrader.js:612-617 | a route whose single handler is not a function or an arrow makes the upgrade fail, whatever the handler moves do: the source relabels the node a `FunctionExpression` and emits it as a method (384), which the printer cannot print |
| Upgrade.TopPropertiesFailsFrom | lib/upgrader.js:166-206 | the first exported property that throws ends the scan with its error |
| Upgrade.LengthOptionThrows | lib/upgrader.js:203-204 | an option named `length` throws, whatever the properties before it did |
| Upgrade.PiecesWithoutNameThrows | lib/upgrader.js:212-217 | a module that extends `apostrophe-pieces` without a `name` option throws |
| Upgrade.PiecesNameCheckExample | lib/upgrader.js:212-217 | `{ extend: 'apostrophe-pieces' }` throws; with `name: 'product'` added the check passes |
| Upgrade.ProcessModule | lib/upgrader.js:116-543 | the definition of one module's outcome: the first throw, else nothing for a module without an exported object, else the new program and the partials to delete; its properties are the `Upgrade` lemmas in this table |
| Upgrade.TopProperty | lib/upgrader.js:167-205 | the definition of one exported property's effect, branch by branch as in the source; see `TopPropertyValid`, `LengthOptionThrows`, `QuotedSwitchIgnored` |
| Upgrade.FirstRequires | lib/upgrader.js:476-514 | the definition of the require dedup; see `FirstRequiresOrder`, `FirstRequiresUnique`, `FirstRequiresNames`, `DedupRequires` |
| Upgrade.RequiredName | lib/upgrader.js:477-503 | the definition of the name a one-argument `require` declaration is kept under, none for any other statement; see `FirstRequiresKeepsOthers` |
| Recognise.Route | lib/upgrader.js:666-686 | the definition of the `route` recogniser; see `RouteClaims`, `RouteRegisters`, `RouteFrame` |
| Recognise.AddHelpers | lib/upgrader.js:688-716 | the definition of the `addHelpers` recogniser; see `AddHelpersFrame`, `EnableHelpersRemoves` |
| Recognise.OnEvent | lib/upgrader.js:718-741 | the definition of the `onEvent` recogniser; see `OnEventQueues`, `OnEventStores`, `OnEventFrame` |
| Recognise.SuperCapture | lib/upgrader.js:743-748 | the definition of the `superCapture` recogniser; see `SuperCaptureRecords` |
| Recognise.Classify | lib/upgrader.js:262-279 | the definition of trying the recognisers in order; see `ClassifyDeclines`, `ClassifyFrame` |
| Recognise.FilterInits | lib/upgrader.js:260-280 | the definition of the init filter; see `FilterInitsKeepsOrder`, `FilterInitsFrame`, `PassiveInitsSurvive` |
| Construct.ParseConstruct | lib/upgrader.js:545-602 | the definition of `parseConstruct`; see `ParseConstructGrows`, `GateOffPartition`, `ParseConstructFailsFrom` |
| Construct.ParseStatement | lib/upgrader.js:547-600 | the definition of one construct statement; see `ParseStatementGrows` |
| Construct.PartialStatements | lib/upgrader.js:580-595 | the definition of the statements of an inlined partial; see `PartialStatementsGrows`, `HoistAll` |
| Fields.FieldKey | lib/upgrader.js:1033-1053 | the definition of `nameToLiteralOrIdentifier` with the throws around it; see `FieldKeyOfName` |
| Fields.ConvertElement | lib/upgrader.js:910-933 | the definition of one element's conversion; see `MixedFieldsConvert`, `UnsupportedStopsEarly` |
| Fields.HandleFieldsOption | lib/upgrader.js:894-948 | the definition of `handleFieldsOption`; see `HandleFieldsAppends`, `NonArrayFallsBack`, `AddFieldsExample` |
| Fields.InvokeHelper | lib/upgrader.js:953-998 | the definition of `invokeHelper`; see `InvokeHelperTwice`, `ConvertElementsOnce` |
| Moves.MoveHandler | lib/upgrader.js:400-406 | the definition of one deferred handler move; see `MoveHandlerSpec` |
| Moves.MoveHandlers | lib/upgrader.js:400-406 | the definition of the move loop; see `MoveHandlersEmpty` |
| Moves.ExtendFn | lib/upgrader.js:843-850 | the definition of an extend method; see `ExtendFnShape`, `ExtendFnRemoves`, `ExtendFnKeeps` |
| Output.Properties | lib/upgrader.js:228-472 | the definition of the new object's properties; see `PropertiesInOrder`, `PresentInSection`, `PropertiesPresent` |
| Output.MiddlewareAndRoute | lib/upgrader.js:612-623 | the definition of one route's value; a single handler that is not a function never reaches it, since the module fails first (see `Upgrade.UnprintableRouteFails`); see `RouteEmission` |
| Output.MethodsSection | lib/upgrader.js:814-870 | the definition of the `methods` and `extendMethods` sections; see `MethodsPresent`, `ExtendMethodsPresent` |
| Output.HelpersSection | lib/upgrader.js:767-812 | the definition of the `helpers` section; see `HelpersPresent` |
| BlankLines.Protect | lib/upgrader.js:752-761 | the definition of `protectBlankLines`; see `ProtectIsJoin`, `ProtectLinewise` |
| BlankLines.Restore | lib/upgrader.js:763-765 | the definition of `restoreBlankLines`; see `RestoreProtect`, `RestoreProtectIdentity` |
| BlankLines.DeleteMarkers | lib/upgrader.js:763-765 | the definition of the marker deletion; see `DeleteMarkersAroundNewline`, `DeleteMarkerAlone` |
| Text.Trim | lib/linter.js:178 | the definition of `String.prototype.trim` on the whitespace the model knows; see `TrimShape`, `TrimIdempotent` |
| Processor.ModuleProcessor.constructor | lib/upgrader.js:130-155 | the accumulators start empty |
| Processor.ModuleProcessor.Route | lib/upgrader.js:666-686 | writes the routes as `route` defines |
| Processor.ModuleProcessor.AddHelpers | lib/upgrader.js:688-716 | writes the helpers and methods as `addHelpers` defines |
| Processor.ModuleProcessor.OnEvent | lib/upgrader.js:718-741 | writes the handlers and the queue as `onEvent` defines |
| Processor.ModuleProcessor.SuperCapture | lib/upgrader.js:743-748 | writes the captures as `superCapture` defines |
| Processor.ModuleProcessor.Classify | lib/upgrader.js:262-279 | tries the recognisers in their order, as defined |
| Processor.ModuleProcessor.FilterInits | lib/upgrader.js:260-280 | the filter loop keeps the unclaimed inits and updates the tables as defined |
| Processor.ModuleProcessor.MoveHandlers | lib/upgrader.js:400-406 | the move loop over the queue, as defined |
| Processor.ModuleProcessor.InvokeHelper | lib/upgrader.js:953-998 | returns the helper call and adds the `require` once |
| Processor.ModuleProcessor.EnsureFields | lib/upgrader.js:872-892 | creates `fields` when missing |
| Processor.ModuleProcessor.PushField | lib/upgrader.js:947 | appends one property to `fields` |
| Processor.ModuleProcessor.ConvertElement | lib/upgrader.js:910-933 | converts one element as defined |
| Processor.ModuleProcessor.ConvertElements | lib/upgrader.js:908-934 | the element loop, stopping at the first unsupported element |
| Processor.ModuleProcessor.HandleFieldsOption | lib/upgrader.js:894-948 | converts a fields option as defined |
| Processor.ModuleProcessor.RemoveFields | lib/upgrader.js:190-202 | adds `remove` to `fields` |
| Processor.ModuleProcessor.ParseConstruct | lib/upgrader.js:545-602 | the statement loop of `parseConstruct`, as defined |
| Processor.ModuleProcessor.ParseStatement | lib/upgrader.js:547-600 | one construct statement, as defined |
| Processor.ModuleProcessor.PartialStatements | lib/upgrader.js:580-595 | the statements of a partial file, as defined |
| Processor.ModuleProcessor.TopProperty | lib/upgrader.js:167-205 | one exported property, as `Upgrade.TopProperty` defines, including the throw on an option named `length` |
| Processor.ModuleProcessor.TopProperties | lib/upgrader.js:166-206 | the property loop, as defined |
| Processor.ModuleProcessor.TopStatements | lib/upgrader.js:156-208 | the statement loop, as defined |
| Processor.Process | lib/upgrader.js:116-514 | one run over fresh accumulators gives exactly the outcome `ProcessModule` defines, including the throws of the pieces check and of an option named `length` |

## Left out

- Reading and writing files, `fs.unlinkSync` of inlined partials, git, and the
  module rename for pieces subclasses (lib/upgrader.js:213-216, a directory
  rename) are left out. The outcome carries the paths that would be deleted.
  The check before the rename, which throws without a `name` option, is
  modelled.
- Parsing with acorn, printing with escodegen, and attaching comments are left
  out. Modules are given as parsed statements; comments are a list on each node.
- `path.resolve` and reading a partial are the functions `resolve` and `read` of
  `Construct.Env`; a read that fails is an error.
- Regular expressions are abstract. A regex rule of the linter is given by its
  `exec`/`execAll` results, and `/^\s+$/` and `/\n +\n/` are written out as
  character tests.
- Property order of JavaScript objects with integer-like keys is not modelled.
  Every table keeps insertion order. Names such as `constructor` that every
  object inherits are not modelled either, in the legacy name map or the tables.
- `options` is an array in the source, used as a dictionary. The model uses an
  association list. Where the array shows through is modelled: an option named
  `length` throws, and so does reading `options.name` when it is missing. An
  option named `__proto__`, which would replace the array's prototype, is not
  modelled: it is stored like any other option.
- The linter's driver, `lint(extension, file)` and the rule table of
  `lib/linters.js` are left out. Rules are parameters of `LintModules`, and
  reports are returned instead of printed. The module list comes from a glob,
  so it is a parameter too.
- `app.js`, `dump.js` and `lib/glob-by-extension.js` are command-line plumbing
  and are not part of this model.
- Construct.ParseConstruct: nested partials are bounded by a `fuel` argument, the
  stand-in for the call stack. Running out is the error `PartialTooDeep`.
- JsonGet.Get: `Json` values have no prototype chain, so a segment naming an
  inherited member (`constructor`, `toString`) gives undefined.
- JsonGet.Member: a string's `length` and its indexes count the characters of
  a `seq<char>`, not UTF-16 code units as JavaScript does. The two differ on
  text outside the Basic Multilingual Plane.
- Linter.IndexToLine: the index and the column count characters, not UTF-16
  code units, with the same difference.
- Linter.MatchRule: regular expressions are abstract, so nothing relates a
  rule's `exec` results to its `execAll` results (that the single match is the
  first global one).
- Processor.ModuleProcessor: the source edits syntax nodes in place: a route
  handler's comments and `type` (lines 678 and 615), an event handler's `type`
  (733), an extend method's `params` (845) and `replaceIdentifier` (658). The
  model builds new nodes instead. When a module has several
  `module.exports = {…}` statements, only the last is replaced, and the earlier
  objects stay in the output: there the source prints the edited nodes, and the
  model keeps the original ones.
- Ast.Lit: number literals are integers (`LNum(int)`), so a literal such as
  `1.5` is not modelled. `Ast.LitKey` writes an integer in decimal digits,
  where `String(n)` switches to exponent notation from 1e21 on.
- Text.ToUpper, Text.ToLower: only ASCII case is changed. That is all
  `camelName` applies them to, since it keeps only ASCII letters and digits.

## Findings

| source | as written | input that shows it | evidently intended | confidence | as-written member | corrected member |
|---|---|---|---|---|---|---|
| lib/upgrader.js:559 | the `upgrade-required-files` switch is read from the module's own `options` table, which shadows the command-line options; its keys are `key.name`, so no parsed module can set it, and partial inlining (559-597) and the require dedup (476-514) never run | a module exporting `{ 'upgrade-required-files': true }`: the quoted key has no `key.name` and lands under "null" | read the command-line option of the same name | not executed | Upgrade.ModuleOptionsSwitchNeverOn | Construct.InlinePlainPartial |
