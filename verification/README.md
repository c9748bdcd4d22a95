# Fleet recipes and runtime, modelled in Dafny

Fleet lets people write small automations ("recipes") that are compiled into n8n workflows, and
runs agents whose writes need approval, whose documents are chunked, redacted and searched, and
whose answers must cite what they were given. This project models the logic of those parts and
proves what they promise, over every input, every run, or every interleaving of steps.

## What is here

**The recipe compiler** (`Text`, `Template`, `JsonString`, `JsExpression`, `JsValue`, `Meaning`,
`Operands`, `Recipe`, `Workflow`, `Naming`, `Patching`, `Compiler`, `CompileRecipe`, `Wiring`,
`Execution`, `Evaluation`, `Simulation`, `Preservation`, `Graph`, `Paths`, `Consequences`, `Calls`).
`RecipeCompiler.CompileRecipe` is the loop of `compile_recipe`, with its pending edges patched in
place; it is proved to produce `Workflows.Compiled(recipe)`. n8n gets a small semantics in
`Execution`: an item walks the graph, each arrival runs its node, a condition sends the item to output
0 or 1, and every parameter is *read back from its text* before it is evaluated. The central result is
`Preservation.CompiledRunIsTheRecipe`: that walk makes exactly the calls of a step-by-step
interpreter of the recipe, which knows each action's endpoint and keys by itself and not from the
compiler's tables.

**Guarding text** (`Guardrails`, `Json`, `Sse`, `Redaction`): quarantine wrap and strip, chat
events printed and parsed from arbitrarily cut chunks, masking of personal data.

**Documents and answers** (`Words`, `Chunks`, `Sorting`, `Ranking`, `Answering`, `Ingestion`,
`IngestTasks`): chunking, merging of search results, context budget and citations, ingest and delete
jobs that overlap and crash.

**Shared state** (`CacheKeys`, `SemanticCache`, `CacheHistory`, `Recipients`, `Approvals`, `KillSwitches`,
`BaseGraph`): processes as state machines over atomic store commands. Time stamps and logs in these
states are history: no step decides by them. Where the source has an object that changes
(`_Connections`, the approvals routers, the worker, `KillSwitch`), there is a class whose methods are
proved against the same functions the state machine uses.

## Where the code and its own words differ

The model follows the code.

- The recipe schema says that strings are checked against a pattern `_TEXT_RE`, which does not exist.
  The check is `check_text`; what it ensures for the compiler is `Template.BraceFreeLiterals`.
- A step id is matched with `$`, which also matches before a final newline; so is an email address.
  Both are accepted with one trailing newline.
- `delete_document_fully` says that a crash never leaves a row pointing at deleted data. It does:
  `IngestTasks.CrashedDeletionLeavesRows`. Ingesting again does not repair such rows:
  `IngestTasks.IngestMatchesExactlyWhen` says exactly when it leaves rows and vectors equal. What the
  order is good for is the other direction, no vector without a document row, and only as long as the
  jobs of a document keep apart: nothing in the code makes them, so an ingest that writes after a
  deletion took the vectors leaves some behind (`IngestTasks.OverlapLeavesVectors`).
  `IngestTasks.VectorsOutliveDocumentExactlyWhen` says exactly when vectors outlive their document,
  `IngestTasks.NoVectorWithoutDocument` that jobs that keep apart leave none.
- `_redact` replaces right to left "so earlier offsets stay valid". That holds for disjoint findings.
  When findings overlap, a later cut reaches into a tag already put, and behind a tag longer than what it
  replaced the end of the outer finding stays in the text: characters of a finding survive
  (`Redaction.NestedFindingLeaks`). For any number of findings `Redaction.SurvivesExactlyWhen` says which
  characters survive and `Redaction.LeaksExactlyWhen` when one of a finding does; `Redaction.NoCoveredSurvives`
  says that none does when each tag that a later-ending finding reaches is no longer than what it replaced,
  which covers disjoint findings. `Redaction.OverlapMasked` and the lemmas on it say exactly what two
  overlapping findings come to.
- The approvals module says an approver's edit is what goes out for every kind of approval. That holds
  for rows of `automation_recipe`, which are the only ones read again (`Approvals.EditedPayloadGoesOut`);
  the graph-backed resumers get the decision alone.
- A `+` chain with two leading references adds instead of concatenating when both are numbers
  (`Meaning.NumbersAreAdded`). With given step results it is the concatenation exactly when one of the values
  is a string and the sum of those before it reads like their concatenation
  (`Meaning.ChainIsSubstitutionHereExactlyWhen`); for all step results, exactly when one of the first two
  segments is text, which can be read off the recipe (`Meaning.ChainIsSubstitutionExactlyWhen`).
- A numeric condition against the word `true` or `false` is emitted as a boolean, which compares
  differently from the text (`Operands.ScalarMeansItsTextExactlyWhen`). `Preservation.CompiledRunIsTheRecipe`
  reads a condition as it was emitted and needs no premise. Comparing the texts instead decides the same
  exactly when no boolean word meets a number (`Evaluation.EmittedComparesTextsExactlyWhen`); that is the
  premise `Consequences.RunAlike`, met in every run of a recipe without such a word
  (`Consequences.NoBooleanWordsAlike`).
- A path word that starts with a digit is accepted by the reference pattern and is not a JavaScript
  property name: the printed parameter cannot be read. Both meanings of such a text are "fails", so
  the run theorem covers it.

## Model

| member | source | states |
|---|---|---|
| `Template.MatchAtComplete` | apps/api/fleet_api/recipes/schema.py:46-48 | every text written as a reference is matched in full by the reference pattern, whatever follows it, with the parts it was written from |
| `Template.FindIsLeftmost` | apps/api/fleet_api/recipes/schema.py:46-48 | searching finds the leftmost position where a reference starts, and none only if there is none |
| `Template.SplitLossless` | apps/api/fleet_api/recipes/compiler.py:133-148 | the literals and references a template is cut into, written back to back, are the template, with no empty literal and no reference hidden in one |
| `Template.SplitUnique` | apps/api/fleet_api/recipes/compiler.py:133-148 | any such cutting written out is found again by cutting: the two are inverse |
| `Template.BraceFreeLiterals` | apps/api/fleet_api/recipes/schema.py:60-75 | in an accepted text no literal between references holds a brace |
| `Template.TextsAcceptedExactlyWhen` | apps/api/fleet_api/recipes/schema.py:60-75 | a text with or without references is accepted if and only if none of its literals holds a brace and it does not start with `=` |
| `Text.SpacesSpelled` | apps/api/fleet_api/recipes/schema.py:46-48 | `\s` and `str.split` know exactly these 29 white space characters |
| `Text.WordsSpelled` | apps/api/fleet_api/recipes/schema.py:46-48 | `\w` within ASCII is an underscore, a digit or a letter in either case |
| `JsonString.UnquoteQuote` | apps/api/fleet_api/recipes/compiler.py:127-148 | a string literal written as section 7 of RFC 8259 demands is read back as the same string, whatever follows it |
| `JsonString.EscapeIsPrintable` | apps/api/fleet_api/recipes/compiler.py:127-148 | an escaped string holds printable ASCII only |
| `JsonString.EscapeKeepsBraceFree` | apps/api/fleet_api/recipes/compiler.py:127-148 | escaping brings no brace into a brace-free text |
| `JsExpression.ReadPrintedSum` | apps/api/fleet_api/recipes/compiler.py:127-148 | a printed `+` chain is read back as the same literals and references, and is unreadable exactly when a path has a digit-led word |
| `JsExpression.ReadPrintedParam` | apps/api/fleet_api/recipes/compiler.py:206-253 | in a printed operand the first `}}` is the final one, and the operand is read back |
| `JsExpression.ReadPrintedBody` | apps/api/fleet_api/recipes/compiler.py:151-157 | in a printed request body the first `}}` is the final one, and reading gives back the same keys and chains in order |
| `JsExpression.FirstCloseIsLast` | apps/api/fleet_api/recipes/compiler.py:151-157 | text in which no two closing braces meet is closed by the `}}` put behind it and not before |
| `JsExpression.PrintedSpelled` | apps/api/fleet_api/recipes/compiler.py:127-157 | how references, operands and bodies are written around their texts |
| `JsExpression.JsUnlessDigitLed` | apps/api/fleet_api/recipes/compiler.py:127-148 | the paths JavaScript cannot read are those with a word that starts with a digit |
| `JsValue.SumIsConcatExactlyWhen` | apps/api/fleet_api/recipes/compiler.py:127-148 | a `+` chain of any number of operands is the concatenation of them all if and only if one is string-like and the sum of those before the first such one, as text, is their concatenation |
| `JsValue.SumConcatenates` | apps/api/fleet_api/recipes/compiler.py:127-148 | a `+` chain with text among its first two operands is the concatenation of all its operands as text |
| `JsValue.ValuesShownAndAdded` | apps/api/fleet_api/recipes/compiler.py:127-148 | how each kind of value reads as text, and what `+` makes of two of them |
| `JsValue.GetFollows` | apps/api/fleet_api/recipes/compiler.py:140-147 | a path leads through the fields of objects to the value at its end |
| `JsValue.GetStops` | apps/api/fleet_api/recipes/compiler.py:140-147 | behind a value without the next field there is nothing |
| `Meaning.ChainIsSubstitutionExactlyWhen` | apps/api/fleet_api/recipes/compiler.py:127-148 | the emitted chain means the template with values put in, for all step results, if and only if one of the first two segments is text |
| `Meaning.ChainIsSubstitutionHereExactlyWhen` | apps/api/fleet_api/recipes/compiler.py:127-148 | with given step results the chain means the template with values put in if and only if its values read as text in that sense, for templates of any number of segments |
| `Meaning.ChainIsSubstitution` | apps/api/fleet_api/recipes/compiler.py:127-148 | with given step results the chain means the template with values put in as soon as one of the first two values is string-like |
| `Meaning.PairIsSubstitutionExactlyWhen` | apps/api/fleet_api/recipes/compiler.py:127-148 | for a template of two segments and given step results, that is so if and only if one of the two values is string-like |
| `Meaning.NumbersAreAdded` | apps/api/fleet_api/recipes/compiler.py:127-148 | an instance: two references that answer numbers evaluate to their sum instead of their digits side by side |
| `Operands.ScalarMeansItsTextExactlyWhen` | apps/api/fleet_api/recipes/compiler.py:215-221 | the emitted numeric right side compares like the text it was written as, if and only if that text is not a boolean word |
| `Operands.ConversionsSpelled` | apps/api/fleet_api/recipes/compiler.py:206-253 | numbers, booleans and blank text convert to a number without asking the engine |
| `Operands.WordsDoNotConvert` | apps/api/fleet_api/recipes/compiler.py:206-253 | a word of small letters does not convert, `true` and `false` included |
| `Operands.DigitsConvert` | apps/api/fleet_api/recipes/compiler.py:215-221 | digits convert as text and as an emitted scalar alike |
| `Operands.ScalarsSpelled` | apps/api/fleet_api/recipes/compiler.py:215-221 | between blanks, exactly `true`, `false`, the three non-finite words and the JSON numbers are emitted as scalars |
| `Operands.JsonNumbersSpelled` | apps/api/fleet_api/recipes/compiler.py:215-221 | a text counts as a JSON number if and only if it is written by the grammar of section 6 of RFC 8259 |
| `Recipes.CheckIdsAndReferences` | apps/api/fleet_api/recipes/schema.py:239-256 | the validator's loop over `seen` accepts exactly the recipes with distinct ids whose references name a different step declared before |
| `Recipes.ReferencesRunBefore` | apps/api/fleet_api/recipes/schema.py:246-250 | accepts exactly when every reference is to a seen id other than the step's own |
| `Recipes.AddBranchIds` | apps/api/fleet_api/recipes/schema.py:251-255 | accepts exactly when the branch ids are distinct and new, and then has seen them too |
| `Recipes.StepIdsSpelled` | apps/api/fleet_api/recipes/schema.py:50-50 | a step id is accepted if and only if it is 1 to 64 of the characters `a-z0-9_`, possibly with one final newline |
| `Recipes.LoneActionAccepted` | apps/api/fleet_api/recipes/schema.py:90-119 | a recipe of one action is accepted if and only if its id is valid, each text is within the limits of its field, holds no brace and does not start with `=` |
| `Recipes.PlainActionsAccepted` | apps/api/fleet_api/recipes/schema.py:222-256 | any number from 1 to 20 of actions without references, under distinct valid ids, is accepted, and no other number |
| `Recipes.LoneConditionAccepted` | apps/api/fleet_api/recipes/schema.py:181-216 | the same for a recipe of one condition, with its operands, its branches and distinct ids |
| `Naming.NamesDistinct` | apps/api/fleet_api/recipes/compiler.py:122-124 | distinct step ids give distinct node names, none of which is a trigger's name |
| `Naming.NameDeterminesId` | apps/api/fleet_api/recipes/compiler.py:122-124 | a node name belongs to one step id only |
| `Compiler.WriteExpression` | apps/api/fleet_api/recipes/compiler.py:127-148 | the cursor loop writes the printed chain of the template's segments, or fails on the first unknown step |
| `Compiler.WriteJsonBody` | apps/api/fleet_api/recipes/compiler.py:151-157 | the body is the printed object of all parameters in order, or the first unknown step among them |
| `Compiler.HttpNode` | apps/api/fleet_api/recipes/compiler.py:181-203 | the request node of an action: its service path, printed body and position, or its first unknown step |
| `Compiler.ConditionNode` | apps/api/fleet_api/recipes/compiler.py:206-253 | the condition node: printed left side, n8n's type and operation for the operator, and a right side that is a scalar only for a reference-free numeric comparison |
| `Evaluation.OperatorsByName` | apps/api/fleet_api/recipes/compiler.py:69-77 | n8n finds under the emitted type and operation the comparison the operator means |
| `Execution.HoldsExactly` | apps/api/fleet_api/recipes/compiler.py:69-77 | `contains` holds if and only if the right text stands somewhere in the left one |
| `Compiler.Connections.Add` | apps/api/fleet_api/recipes/compiler.py:262-266 | adding an edge pads the source's outputs with empty ones and appends one target to the chosen output |
| `Compiler.Connections.Connect` | apps/api/fleet_api/recipes/compiler.py:335-336 | every pending end gets an edge to the target, in order |
| `RecipeCompiler.CompileBranch` | apps/api/fleet_api/recipes/compiler.py:347-360 | compiling a branch whose references are known succeeds with its nodes in a row and chains its edges from the condition's output |
| `RecipeCompiler.CompileAction` | apps/api/fleet_api/recipes/compiler.py:324-338 | from the state reached before an action step the loop goes to the state reached after it |
| `RecipeCompiler.CompileCondition` | apps/api/fleet_api/recipes/compiler.py:340-362 | from the state reached before a condition the loop goes to the state reached after it, both branch ends pending |
| `RecipeCompiler.CompileRecipe` | apps/api/fleet_api/recipes/compiler.py:272-374 | every accepted recipe compiles without raising, to the workflow the specification gives |
| `Evaluation.ParamEvaluates` | apps/api/fleet_api/recipes/compiler.py:127-148 | evaluating a printed operand over node results equals the template's chain over step results |
| `Evaluation.ActionCallIsParams` | apps/api/fleet_api/recipes/compiler.py:43-50 | what the tables of paths and parameters give is the call each action stands for |
| `Evaluation.HttpExecutes` | apps/api/fleet_api/recipes/compiler.py:181-203 | running a request node, from its printed url and body, makes the call the action stands for, each parameter under its own key, and fails exactly when it does |
| `Evaluation.ConditionEvaluates` | apps/api/fleet_api/recipes/compiler.py:206-253 | running a condition node, from its printed operands and from the names of its type and operation, decides as the condition step does with the scalar that was emitted |
| `Evaluation.EmittedComparesTextsExactlyWhen` | apps/api/fleet_api/recipes/compiler.py:215-221 | a condition decides with the emitted scalar as with the text it was written as, if and only if no boolean word is compared with something that converts to a number |
| `Wiring.StepTargets` | apps/api/fleet_api/recipes/compiler.py:331-362 | where each output of each node of a step leads: along its branch, and rejoining at the following step |
| `Simulation.StepsSim` | apps/api/fleet_api/recipes/compiler.py:272-374 | the walk through the nodes of the remaining steps ends with the calls, results and item of interpreting them |
| `Preservation.CompiledRunIsTheRecipe` | apps/api/fleet_api/recipes/compiler.py:272-374 | for every accepted recipe, trigger, item and family of responses, the walk halts within as many node runs as there are nodes, having made exactly the calls of the step-by-step interpreter, which posts each action's parameters to its endpoint under their own keys and compares numerically with the scalar that was emitted |
| `Consequences.CompiledRunComparesTexts` | apps/api/fleet_api/recipes/compiler.py:215-221 | the same against the interpreter that compares the texts, in every run in which no condition compares a boolean word with a number |
| `Consequences.NoBooleanWordsAlike` | apps/api/fleet_api/recipes/compiler.py:215-221 | a recipe without a boolean word on the right of a numeric comparison meets that premise in every run |
| `Consequences.CompiledRunIsSubstitution` | apps/api/fleet_api/recipes/compiler.py:127-148 | the same against the reading in which references are replaced by their values, in every run in which also the values of each evaluated text read as text |
| `Consequences.PlainRecipeIsSubstitution` | apps/api/fleet_api/recipes/compiler.py:127-148 | a recipe whose texts have text among their first two segments, and no boolean word, meets the premises in every run |
| `Consequences.MachineNoEmail` | apps/api/fleet_api/recipes/compiler.py:44-50 | a workflow with no node at the email endpoint makes no email call, however it is wired |
| `Consequences.OnlyWriteExternalReachesEmail` | apps/api/fleet_api/recipes/schema.py:269-271 | a recipe without `has_write_external` never reaches the email endpoint |
| `Calls.EveryActionHasItsNode` | apps/api/fleet_api/recipes/compiler.py:181-203 | each of the five actions has a node in the workflow with its name, its url, its keys and texts in order, and text responses for Slack alone |
| `Calls.TriggersSpelled` | apps/api/fleet_api/recipes/compiler.py:283-322 | what starts a workflow: its schedule, if it has one, and always the webhook of a manual run |
| `Calls.RunMakesItsActions` | apps/api/fleet_api/recipes/compiler.py:272-374 | the calls of a run are those of the recipe's actions, each made at most once and in the order they are declared |
| `Calls.HasWriteExternalExactly` | apps/api/fleet_api/recipes/schema.py:269-271 | a recipe is shown as writing externally if and only if one of its actions, on a branch or not, sends an email |
| `Calls.EmailCallsAreEmailSteps` | apps/api/fleet_api/recipes/compiler.py:44-50 | every call to the email endpoint comes from an email step and holds what its `to`, `subject` and `body` mean, under these keys |
| `Calls.StringifyEntries` | apps/api/fleet_api/recipes/compiler.py:151-157 | a request holds exactly the entries of the body, without missing values and with NaN as null |
| `Calls.PlainEmailGoesOut` | apps/api/fleet_api/routers/service.py:183-227 | the call of an email step without references, queued, approved and resumed, sends the email the step was written with |
| `Graph.TargetsAreSuccessors` | apps/api/fleet_api/recipes/compiler.py:331-362 | the edges out of a node are exactly those of its place in the recipe, including empty branches |
| `Paths.NodesApart` | apps/api/fleet_api/recipes/compiler.py:272-374 | no two nodes share a name or a position |
| `Paths.Layout` | apps/api/fleet_api/recipes/compiler.py:324-362 | where each node stands: steps in columns of 240, branches above and below in the columns behind their condition, and the next step behind the longer branch |
| `Paths.EdgesGoRight` | apps/api/fleet_api/recipes/compiler.py:331-362 | an output has at most one target, which exists and lies strictly to the right |
| `Paths.EveryStepReachable` | apps/api/fleet_api/recipes/compiler.py:331-362 | from each trigger there is a path to each step's node and branch node |
| `Paths.HeadOnEveryPath` | apps/api/fleet_api/recipes/compiler.py:331-362 | every path from a trigger to a step's node passes the node of every earlier top-level step |
| `Paths.OneBranchOnPath` | apps/api/fleet_api/recipes/compiler.py:347-361 | every path past a condition takes all of one branch and nothing of the other |
| `Paths.ReferencesInScope` | apps/api/fleet_api/recipes/schema.py:246-250 | a referenced step is declared earlier and, if top-level, lies on every path to the node using it; a branch step lies on exactly the paths through its branch |
| `Guardrails.NeutraliseTokenFree` | apps/runtime/core/guardrails.py:36-45 | one pass leaves no tag token, also none assembled from what is around a removed one |
| `Guardrails.NeutraliseIdempotent` | apps/runtime/core/guardrails.py:36-45 | a second pass changes nothing |
| `Guardrails.TagsSpelled` | apps/runtime/core/guardrails.py:69-69 | the two tags as they are written around the nonce |
| `Guardrails.TokensSpelled` | apps/runtime/core/guardrails.py:24-24 | a text starts with a tag token if and only if it is a bracket, perhaps a slash, white space, the tag name in any case, and nothing that prolongs the name |
| `Guardrails.NeutraliseOnlyBrackets` | apps/runtime/core/guardrails.py:36-45 | angle brackets are replaced by their look-alikes at most, and nothing in text without a token |
| `Guardrails.TokenNeutralised` | apps/runtime/core/guardrails.py:36-45 | a token goes up to its closing bracket, and what follows is neutralised on its own |
| `Guardrails.StripUndoesWrap` | apps/runtime/core/guardrails.py:48-84 | stripping a wrapped content, string or list, leaves exactly the token-free text around it with one space between |
| `Json.ParsePrint` | apps/api/fleet_api/routers/chat.py:156-157 | parsing a printed JSON value gives it back |
| `Json.PrintPrintable` | apps/api/fleet_api/routers/chat.py:156-157 | printed JSON holds no newline or other control character |
| `Sse.ReadBlock` | apps/web/lib/chat-stream.ts:13-23 | the loop over a block's lines keeps the last event and data lines and spreads the parsed data, of whatever JSON type, behind the event's name; data that `Json.Read` does not take throws, which is all unparsable data and also JSON in another spacing than the server's or with numbers that are no integers |
| `Sse.LinesSpelled` | apps/web/lib/chat-stream.ts:16-16 | the lines of a block hold no newline and, joined by newlines, are the block |
| `Sse.SpreadByPosition` | apps/web/lib/chat-stream.ts:21-22 | an array spreads to exactly one property per position |
| `Sse.StringSpreads` | apps/web/lib/chat-stream.ts:21-22 | a string spreads to its characters, each under its position |
| `Sse.BlocksSpelled` | apps/web/lib/chat-stream.ts:13-23 | a block is no event exactly without an event line, with an empty event name or without a data line, and throws exactly when there are both and the data is not read |
| `Sse.ParsePrintedBlock` | apps/api/fleet_api/routers/chat.py:156-157 | a printed event is parsed back as that event |
| `Sse.ReadStream` | apps/web/lib/chat-stream.ts:43-59 | however the stream is cut into chunks, the buffering loop yields what splitting the whole stream at blank lines yields |
| `Sse.DrainStream` | apps/web/lib/chat-stream.ts:43-59 | splitting a printed stream gives back its events in order and nothing is thrown |
| `Sse.ReadPrintedStream` | apps/web/lib/chat-stream.ts:43-59 | for every list of events and every cutting of the printed stream the client yields exactly those events in order |
| `Sse.StreamIsAscii` | apps/api/fleet_api/routers/chat.py:156-157 | a printed stream is ASCII, so no cut falls inside a character |
| `Redaction.Redact` | apps/rag/fleet_rag/ingest/pii.py:132-136 | for disjoint findings in any order the right-to-left loop gives the left-to-right rendering; for any findings inside the text, exactly the characters that the walk `Survives` lets through survive, and no covered one when each tag that a later-ending finding reaches is no longer than what it replaced |
| `Redaction.SurvivesExactlyWhen` | apps/rag/fleet_rag/ingest/pii.py:132-136 | for any number of findings, overlapping or not: a character survives if and only if no cut hits the position that the tags put in before it have moved it to |
| `Redaction.MaskedIsRendered` | apps/rag/fleet_rag/ingest/pii.py:132-136 | masking in descending order equals the contribution of each position, front to back |
| `Redaction.NoCoveredSurvives` | apps/rag/fleet_rag/ingest/pii.py:132-136 | for any number of findings: when each tag that a later-ending finding reaches is no longer than what it replaced, no covered character survives, whatever overlaps or nests |
| `Redaction.FittingOrDisjointNest` | apps/rag/fleet_rag/ingest/pii.py:132-136 | disjoint findings meet that condition, and so do findings whose tags are all no longer than their spans |
| `Redaction.LeaksExactlyWhen` | apps/rag/fleet_rag/ingest/pii.py:132-136 | for any number of findings: some covered character survives if and only if one right before a start or an end of a finding does |
| `Redaction.LosesExactlyWhen` | apps/rag/fleet_rag/ingest/pii.py:132-136 | for any number of findings: some uncovered character is lost if and only if one at a start or an end of a finding is |
| `Redaction.OverlapMasked` | apps/rag/fleet_rag/ingest/pii.py:132-136 | the masked text of two overlapping findings in closed form: the tag put first loses its front, then the text behind it |
| `Redaction.OverlapSurvivors` | apps/rag/fleet_rag/ingest/pii.py:132-136 | exactly which characters survive two overlapping findings |
| `Redaction.OverlapLeaksExactlyWhen` | apps/rag/fleet_rag/ingest/pii.py:132-136 | a covered character survives two overlapping findings if and only if the one masked first ends first and its tag is longer than its span |
| `Redaction.OverlapLosesExactlyWhen` | apps/rag/fleet_rag/ingest/pii.py:132-136 | an uncovered character is lost if and only if the later of the two ends has moved before the end of the one masked last |
| `Redaction.NestedFindingLeaks` | apps/rag/fleet_rag/ingest/pii.py:132-136 | an instance of the leak: a short finding inside a longer one leaves four characters of the longer one in the text |
| `Redaction.OverlapGarbles` | apps/rag/fleet_rag/ingest/pii.py:132-136 | an instance of the closed form: the tag put first is cut to half a bracket |
| `Redaction.ApplyPolicy` | apps/rag/fleet_rag/ingest/pii.py:139-157 | which policy drops, keeps local, redacts or leaves the text as it is, and with what result: the rendering for disjoint findings, and no covered character when each tag that a later-ending finding reaches fits; only unknown policies fail |
| `Words.SplitAppend` | apps/rag/fleet_rag/ingest/chunk.py:26-62 | cutting a text anywhere but inside a word keeps its words |
| `Chunks.ChunkText` | apps/rag/fleet_rag/ingest/chunk.py:26-62 | the loop over `current` and `chunks` yields the packing the specification describes |
| `Chunks.CutWords` | apps/rag/fleet_rag/ingest/chunk.py:46-50 | a long paragraph is cut into consecutive pieces of the cap, the last one shorter |
| `Chunks.ChunksKeepWords` | apps/rag/fleet_rag/ingest/chunk.py:26-62 | the words of the chunks in order are the words of the text, through strip, join and split |
| `Chunks.ParagraphsOfJoined` | apps/rag/fleet_rag/ingest/chunk.py:28-28 | any stripped, non-empty texts without a blank line, joined by blank lines, are found again as the paragraphs |
| `Chunks.ChunksAreParagraphs` | apps/rag/fleet_rag/ingest/chunk.py:36-62 | with every paragraph within the cap, the chunks are consecutive groups of whole paragraphs joined by blank lines, each group within the cap |
| `Chunks.ChunksBounded` | apps/rag/fleet_rag/ingest/chunk.py:26-62 | every chunk has between one and the capped number of words |
| `Chunks.PackedFewest` | apps/rag/fleet_rag/ingest/chunk.py:36-62 | paragraphs within the cap are packed into no more chunks than any order-preserving packing needs |
| `Chunks.RunPackedFewest` | apps/rag/fleet_rag/ingest/chunk.py:36-62 | the same for a run of such paragraphs behind a long one |
| `Ranking.Merge` | apps/api/fleet_api/routers/chat.py:234-254 | the loop over collections, sort and cut gives the k best of all answers |
| `Sorting.SortPermutes` | apps/api/fleet_api/routers/chat.py:253-253 | sorting by a key in reverse only reorders, highest key first |
| `Sorting.SortKeepsTies` | apps/api/fleet_api/routers/chat.py:253-253 | items with the same key stay in their order |
| `Ranking.MergedBestIsBestOfAll` | apps/api/fleet_api/routers/chat.py:234-254 | merging each collection's k best gives the scores of the k best of their union |
| `Answering.TruncateKeepsPrefix` | apps/rag/fleet_rag/query/retrieve.py:42-53 | a truncated hit keeps its id, score, document, chunk reference and redaction flag and the first words of its content up to the cap, set apart by single blanks; a hit within the cap is unchanged to the character |
| `Answering.Retrieve` | apps/rag/fleet_rag/query/retrieve.py:56-74 | keeps the longest affordable prefix, never nothing, spending at most the larger of the two caps; each kept hit is the one found in its place with at most its content cut |
| `Answering.SpentIsWords` | apps/rag/fleet_rag/query/retrieve.py:65-73 | what a prefix spends is the number of words of its contents |
| `Answering.ResolveCitations` | apps/rag/fleet_rag/query/answer.py:47-57 | succeeds exactly when there is a position and all lie in range, with the hit at each position |
| `Answering.BuildAnswer` | apps/rag/fleet_rag/query/answer.py:60-72 | the first resolvable reply is returned; degraded exactly when there is no hit or no attempt resolves |
| `Answering.ParseCited` | apps/rag/fleet_rag/query/service.py:54-55 | the markers a text was written with are parsed out of it in order, unless the text between them holds or completes a marker of its own |
| `Answering.PromptIsFramed` | apps/runtime/core/guardrails.py:61-69 | the prompt is the frame around one excerpt per kept hit, in order, the n-th being the marker with number n and the defanged text of hit n |
| `Answering.AnswerQuery` | apps/rag/fleet_rag/query/service.py:58-116 | each citation of a grounded answer names the document and chunk of the hit found at the cited place, whose excerpt stood in the prompt under the cited number, after at most the allowed attempts; degraded only when there was no hit or no attempt cited kept hits alone |
| `Ingestion.KeepCompletes` | apps/rag/fleet_rag/ingest/pipeline.py:79-90 | hashes already recorded and hashes newly kept make up exactly those of the unblocked chunks |
| `Ingestion.Worker.RunIngestion` | apps/rag/fleet_rag/ingest/pipeline.py:79-136 | upserts one point per kept chunk and returns what to record |
| `Ingestion.Worker.RecordChunks` | apps/rag/fleet_rag/ingest/worker.py:59-85 | inserts a row per chunk and leaves an existing row of that point id alone, or nothing at all when the document row is missing |
| `Ingestion.Worker.IngestDocument` | apps/rag/fleet_rag/ingest/worker.py:102-175 | the stores after an ingest without a crash, also when its rows cannot be recorded; the document is marked ready exactly when they are |
| `Ingestion.Worker.DeleteDocumentFully` | apps/rag/fleet_rag/ingest/retention.py:43-70 | the stores after a deletion without a crash |
| `Ingestion.Worker.PurgeExpired` | apps/rag/fleet_rag/ingest/retention.py:73-108 | deletes the expired candidates in order and reports exactly the documents whose retention has passed, from their times |
| `Ingestion.PurgeErasesExactly` | apps/rag/fleet_rag/ingest/retention.py:73-108 | a purge leaves nothing of the documents it deletes and touches no row or vector of another |
| `Ingestion.ExpiredExactly` | apps/rag/fleet_rag/ingest/retention.py:22-28 | a candidate is expired if and only if its collection has a retention and that many days have passed since it was created |
| `Ingestion.PurgeErasesExpired` | apps/rag/fleet_rag/ingest/retention.py:73-108 | a purge erases a document if and only if one of its candidates is expired in that sense |
| `IngestTasks.RunKeeps` | apps/rag/fleet_rag/ingest/worker.py:102-175 | every step and every crash, in any interleaving, also of jobs on one document, keeps the invariant of rows, vectors, tasks and times |
| `IngestTasks.UploadHappens` | apps/rag/fleet_rag/ingest/worker.py:102-175 | a document with an object of its own and no chunk hash of a live one is always taken in, queued |
| `IngestTasks.NoVectorWithoutDocument` | apps/rag/fleet_rag/ingest/retention.py:43-70 | from any moment with no job at work on a stored document, if no ingest of it overlaps a deletion of it, or begins after one that left the object, no vector of it is left without its row |
| `IngestTasks.VectorsOutliveDocumentExactlyWhen` | apps/rag/fleet_rag/ingest/retention.py:53-70 | with the row of a document gone, vectors of it are left if and only if some were written after they were last deleted, which without a second deletion is the deletion by the task that removed the row |
| `IngestTasks.IngestedRowsAreVectors` | apps/rag/fleet_rag/ingest/worker.py:102-175 | a document once ingested has rows equal to vectors equal to its unblocked hashes, until a deletion takes its vectors |
| `IngestTasks.ReadyDocumentsAreIndexed` | apps/rag/fleet_rag/ingest/worker.py:149-169 | a document marked ready has rows equal to vectors equal to its unblocked hashes, until a deletion takes its vectors |
| `IngestTasks.CutUpsertIsMarked` | apps/rag/fleet_rag/ingest/worker.py:131-147 | an upsert cut off part-way ends its task, records no row and marks the document with an error |
| `IngestTasks.IngestMatchesExactlyWhen` | apps/rag/fleet_rag/ingest/worker.py:102-175 | an ingest run to its end after any crashes records the wanted rows; vectors equal them if and only if no row lacked its vector before |
| `IngestTasks.DeletionErases` | apps/rag/fleet_rag/ingest/retention.py:43-70 | a deletion run to its end after any crashes leaves nothing of the document and touches no other |
| `IngestTasks.CrashedDeletionLeavesRows` | apps/rag/fleet_rag/ingest/retention.py:53-70 | a deletion that crashes after its first step leaves all chunk rows and no vector |
| `IngestTasks.OverlapLeavesVectors` | apps/rag/fleet_rag/ingest/pipeline.py:131-131 | from any reachable state, an ingest that found something to write before a deletion began, and writes between its last steps or after them, leaves vectors without a document row |
| `CacheKeys.ScanFindsOwnExactly` | apps/runtime/core/semantic_cache.py:62-70 | a scan by prefix meets a key if and only if it was made for the same agent, collection and generation |
| `CacheKeys.PlainSpelled` | apps/runtime/core/semantic_cache.py:62-70 | the agent ids this is said of are those without a colon, `*`, `?`, `[` and backslash |
| `CacheKeys.CountersApart` | apps/runtime/core/semantic_cache.py:55-63 | no entry key is a generation counter's key, also for an agent called `gen` |
| `CacheKeys.ColonMixesAgentsExactlyWhen` | apps/runtime/core/semantic_cache.py:62-63 | when agent ids may hold colons and key ids hold none, a scan meets a key if and only if all three fields agree, or that key's agent is the scanning one extended by the collection while its collection is the generation scanned, or extended by collection and generation, with or without more behind them; for a scanning agent id free of `KEYS` wildcards, with which a scan is a test for the literal prefix |
| `SemanticCache.BestOfIsMaximal` | apps/runtime/core/semantic_cache.py:72-86 | the loop's best is the maximum of what it saw, or nothing when no similarity exceeds -1 |
| `SemanticCache.PickBest` | apps/runtime/core/semantic_cache.py:72-86 | the loop over what the reads returned, expired keys passed over, gives that best if it reaches the threshold |
| `SemanticCache.RunKeeps` | apps/runtime/core/semantic_cache.py:50-104 | every interleaving of single commands and expiries keeps the invariant that generations count invalidations |
| `SemanticCache.HitIsOwnBest` | apps/runtime/core/semantic_cache.py:65-86 | a hit was stored for the same agent, collection and generation, reaches the threshold and is best among what was seen |
| `CacheHistory.HitWasStored` | apps/runtime/core/semantic_cache.py:65-101 | in terms of the commands alone: a hit has the answer of an entry that was stored for the scope looked up, its score against the embedding looked up, and a store begun after every earlier invalidation |
| `CacheHistory.StoredIsFound` | apps/runtime/core/semantic_cache.py:65-101 | a lookup does at least as well as any entry of its scope set before it listed the keys, without an invalidation between the readings and not expired since |
| `CacheHistory.HitWasAlive` | apps/runtime/core/semantic_cache.py:65-101 | no lookup returns an entry that had expired when it listed the keys |
| `CacheHistory.StoredThenLookedUp` | apps/runtime/core/semantic_cache.py:65-101 | stored and then looked up undisturbed, at or above the threshold, an entry is found, or a better one |
| `CacheHistory.StoringThenLookingHappens` | apps/runtime/core/semantic_cache.py:65-101 | nothing stops these commands |
| `SemanticCache.NoStaleHit` | apps/runtime/core/semantic_cache.py:103-104 | no entry whose store read its generation before an invalidation is returned by a lookup begun after it |
| `SemanticCache.LiveEntriesConsidered` | apps/runtime/core/semantic_cache.py:65-86 | a finished lookup did at least as well as any matching entry that was there throughout |
| `SemanticCache.InvalidationNeverFails` | apps/runtime/core/semantic_cache.py:103-104 | the counter of a collection is never an entry, so it can always be incremented |
| `Recipients.AllowedExactly` | apps/mcp/fleet_mcp/servers/email.py:37-42 | a recipient is accepted if and only if it is `local@domain` with an allowed domain, possibly with one final newline |
| `Approvals.Desk.EmailSend` | apps/api/fleet_api/routers/service.py:183-227 | queues one pending row or refuses with 422 or 500, and sends nothing |
| `Approvals.Desk.DecideApproval` | apps/api/fleet_api/routers/approvals.py:255-287 | refuses with 422, 404, 409 or 500 and then changes nothing, or commits payload, status and approver at once |
| `Approvals.Desk.RunResumer` | apps/api/fleet_api/routers/approvals.py:186-227 | hands over at most one email, built from the row read again |
| `Approvals.OfRunExactly` | apps/api/fleet_api/routers/approvals.py:207-210 | selecting by run id finds exactly the rows of that run |
| `Approvals.OtherRowsAreQueued` | apps/api/fleet_api/routers/approvals.py:246-252 | a pending row of any other agent is queued behind the rest |
| `Approvals.ResumersSpelled` | apps/api/fleet_api/routers/approvals.py:246-252 | a row can be decided if and only if its agent is one of the five with a resumer |
| `Approvals.RunKeeps` | apps/api/fleet_api/routers/approvals.py:186-292 | every interleaving of queueing, deciding, resuming and crashing keeps decided rows as they are and never takes an email back |
| `Approvals.EverySentEmailIsApproved` | apps/api/fleet_api/routers/approvals.py:186-292 | each email sent is the payload of its own approved `automation_recipe` row, to an allowed recipient, and no row sends twice |
| `Approvals.DecisionFixesEmail` | apps/api/fleet_api/routers/approvals.py:272-290 | whatever happens after a decision, an email of that row carries the payload committed with it; a rejected row sends none |
| `Approvals.DecidedThenResumed` | apps/api/fleet_api/routers/approvals.py:186-292 | a pending recipe email alone in its run is sent once approved and resumed, as it stands or as edited, and is not once rejected |
| `Approvals.EmailOfExactly` | apps/api/fleet_api/routers/approvals.py:211-222 | a payload describes an email if and only if it says its three parts under `to`, `subject` and `body` |
| `Approvals.SentEmailsAreCommitted` | apps/api/fleet_api/routers/approvals.py:186-292 | every email sent is what the committed payload of its approved row says, to an address at `fleet.local` or `example.com` |
| `Approvals.EditedPayloadGoesOut` | apps/api/fleet_api/routers/approvals.py:195-222 | an email of a row approved with an edit is the edited one |
| `Approvals.QueuedApprovedSent` | apps/api/fleet_api/routers/service.py:183-227 | queued under a new run id, approved unchanged and resumed, exactly the queued email goes out |
| `KillSwitches.KillSwitch.IsAgentPaused` | apps/runtime/core/killswitch.py:53-62 | a fresh cached answer is returned as it is; any other is read and cached under the time of asking |
| `KillSwitches.KillSwitch.BlocksTool` | apps/runtime/core/killswitch.py:64-68 | blocks exactly the classes whose first six characters are `write:` while the global flag is set, uncached |
| `KillSwitches.KillSwitch.PauseAgent` | apps/runtime/core/killswitch.py:70-71 | sets the agent's flag; every other agent's flag and the global one are as before |
| `KillSwitches.KillSwitch.ResumeAgent` | apps/runtime/core/killswitch.py:73-74 | clears the agent's flag; every other agent's flag and the global one are as before |
| `KillSwitches.KillSwitch.SetGlobalReadOnly` | apps/runtime/core/killswitch.py:76-77 | sets or clears the global flag; every agent's flag is as before |
| `BaseGraph.StepsCleared` | apps/runtime/core/graph.py:110-154 | every interleaving keeps each run's tool cleared before it is executed, and at most one execution a run |
| `BaseGraph.ExternalWritesAreApproved` | apps/runtime/core/hitl.py:15-25 | an executed `write:external` tool was approved by a person, a `write:internal` one too unless autonomy was earned |
| `BaseGraph.ReadOnlyStopsWrites` | apps/runtime/core/graph.py:146-154 | once read-only mode is set, only tools already past their check still write, until it is unset |
| `BaseGraph.NoWriteAfterReadOnly` | apps/runtime/core/graph.py:146-154 | from any reachable state in read-only mode with no tool past its check, every tool executed before the mode is unset has class `read` |
| `BaseGraph.ReadOnlyModeDecides` | apps/runtime/core/graph.py:146-154 | setting read-only mode holds back a writing tool at its check, and unsetting it lets it through |
| `BaseGraph.UnpausedRunsReachTheModel` | apps/runtime/core/graph.py:82-108 | a run of an agent that neither a fresh answer nor the flag says is paused gets to its model call |
| `BaseGraph.CalledToolIsExecuted` | apps/runtime/core/graph.py:110-154 | a tool the model calls is executed exactly once, unless its approval is refused or it writes in read-only mode, and the run ends |
| `BaseGraph.AnswersAreRecent` | apps/runtime/core/killswitch.py:53-62 | each answer of `is_agent_paused` is the flag as a read less than five seconds earlier found it |
| `BaseGraph.PausedRunsNeverCallTheModel` | apps/runtime/core/graph.py:82-108 | after a pause that is not lifted, a run gated at least five seconds later never calls the model |
| `BaseGraph.RunsAfterPauseEndAtTheGate` | apps/runtime/core/graph.py:82-108 | a run of a paused agent that starts five seconds after the pause ends at its gate |
| `BaseGraph.RunsAfterResumePassTheGate` | apps/runtime/core/graph.py:82-108 | a run that starts five seconds after its agent was resumed passes its gate |

## Left out

- Validation of recipe names, descriptions and cron expressions, and of parameter dictionaries
  against their models (`extra="forbid"`): pattern checks that nothing here depends on.
- `describe_recipe`, and node fields other than name, position, url, body and operands (credentials,
  header and response options, webhook id, settings).
- `Preservation.CompiledRunIsTheRecipe`: a node that has not run reads as `Missing`, as in a reference
  to a branch not taken; n8n may stop such a run with an error instead. Values are JSON values with
  integers; JavaScript number formatting and conversion, and how n8n reads a value as text to compare it, are
  parameters of the engine.
- `RecipeCompiler.CompileRecipe`: says nothing about recipes the validator refuses; the compiler is
  only handed validated ones.
- `Json.ParsePrint`: reads the JSON that the server prints; numbers are integers.
- `Sse.ReadBlock`: JSON in another spacing than the server's, such as `{"a":1}`, and numbers that are no
  integers, such as `1.5`, come out as thrown, where `JSON.parse` reads them. A string spreads by
  characters, where JavaScript counts UTF-16 units.
- `Guardrails.StripUndoesWrap`: letters outside ASCII are a parameter, apart from the two replacement
  brackets and U+017F, which folds to `s`; nonces are any non-empty lower-case hex strings.
- Decimal digits outside ASCII, which `\d` also matches in citation markers.
- `detect_injection`, which only sets a flag.
- Presidio's scan, OCR, embeddings and model calls: their outputs are arbitrary.
- `IngestTasks.RunKeeps`: extraction gives the same chunks each time a document is ingested, and no chunk
  hash is shared by two documents that are stored or have a job or a vector left. Only the identity of rows
  and points is modelled, not their vectors, token counts and redaction flags. Each database transaction and
  each call of the vector store is one step, except that an upsert may be cut off part-way; an ingest fetches its
  object and reads the recorded hashes in two steps.
- `SemanticCache.RunKeeps`: agent ids are free of colons and `KEYS` wildcards, keys are never reused
  and generation counters are never evicted; similarity is any real-valued function, so rounding in
  `_cosine` is not covered.
- `Approvals.RunKeeps`: read, check and commit of a decision are one step. The code takes no row lock,
  so two decisions at the same instant are not covered. An email counts as sent when it is handed to
  the SMTP sender, whether or not the sender then fails.
- Resumers of agents other than `automation_recipe`, which resume graphs of their own, and
  `insights_publisher`, which has none.
- The agents table does not change during a run of the approval queue.
- `BaseGraph.StepsCleared`: a run starts on a new thread; state left on a thread by an earlier
  invocation is not modelled.
- `pg_ro` limits and allowlists, budget and sensitivity routing, role checks, API keys, pricing,
  memory windows, CRUD routers, migrations and the UI: finite branching and plumbing.
- HTTP, Postgres, Redis, MinIO, Qdrant, SMTP and n8n clients are abstract maps, atomic steps or logs.
