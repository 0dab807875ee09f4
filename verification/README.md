# A verified model of Rocket's core algorithms

Rocket is a web framework for Rust. This project models the parts of it whose correctness is
argued in comments, promised in documentation or left to tests, and proves what they promise
for every input, every run and every reachable state. Nothing was executed: the results are
Dafny proofs about the model. `dafny verify dfyconfig.toml` checks all of it.

| file | models | form |
|---|---|---|
| `Sentinel.dfy` | the sentinel query over a shared, possibly cyclic graph of types | loop with queue, parent map and memo |
| `TypeTree.dfy` | the visitors that turn handler types into that graph, and their composition with the query | recursive visitor objects with a stack and a flag |
| `UriMacro.dfy` | argument parsing and validation of `uri!` | loops over an index map and vectors |
| `UriExpand.dfy` | expansion of a validated call: three cursors walked in step | mutable cursors, loops |
| `UriCapture.dfy` | the names that the expansion's bindings capture in later arguments | functions |
| `FieldNames.dfy` | the non-transitive equality of field names and the compile-time duplicate search | nested search loops |
| `FormContext.dfy` | the context that `FromForm` derives: dispatch, push, finalise, validators | mutable context, loops |
| `EnumField.dfy` | enums as form values: derived parser, validator and printer | functions, one method |
| `Lifecycle.dfy` | routing, HEAD retry, error catching, response framing | mutable dispatcher, loops |
| `HeaderMap.dfy`, `IndexMap.dfy` | the header multimap and its owning iterator over an insertion-ordered table | mutable classes |
| `RawStr.dfy`, `Utf8.dfy` | HTML escaping, form decoding, splitting, over the grammar of section 4 of RFC 3629 | byte loops, an array written in place |
| `ConnectionPool.dfy` | permits and connection handles under arbitrary interleaving and cancellation | step system |
| `Accept.dfy` | `Accept::preferred` | loop |

A step-by-step operation of the source is a method proved equal to a specification function; what
the source promises is then proved about that function, by lemmas that speak of the input and
not of the steps. User code is arbitrary: handlers, catchers and fairings are functions of an
opaque world, field types' `FromForm` and validators are functions, and a sentinel's verdict is a
field of its sentry. Where the source panics, errors or reports a diagnostic, so does the model.

## Where code and documentation disagree

The model follows the code, and the exact condition under which each documented or expected claim
holds is proved.

* `strip_body` is described as leaving the size of the body if it exists. `Body::strip` turns an unsized or absent body
  into the default body, whose size is 0, so HEAD on such a body answers `Content-Length: 0` where GET
  sends no length. `LengthIsPreStripSize` and `HeadIsGetStripped` give the exact conditions,
  `UnsizedHeadHasLengthZero` an instance.
* The comment in `attribute/route/mod.rs` takes as an axiom that a type is not concrete when a type
  nested in it is not. The visitor's later writes win and a function pointer resets its flag, so
  `(impl Trait, fn())` counts as concrete. `NonConcretePropagates` gives the exact condition,
  `NonConcreteMayNotPropagate` the instance. The conclusion the comment draws, that the graph
  has no broken links, holds regardless (`NoBrokenLinks`).
* The sentinel graph is keyed by type id, not by occurrence, and a type whose parent is filtered out becomes a
  root. Every sentinel with no sentinel above it is asked, but one that only occurs below a sentinel may be
  asked too (`AliasIsQueried`, `UncleanIsQueried`). `ReachedAreExposedIff` and `AskedAreExposedIff` give the
  exact conditions.
* `dispatch_error` resets pending cookies once, before its loop: cookies of a catcher that failed are sent
  with the 500 catcher's response (`LastCatcherOwnsCookies`, with the instance `FailedCatcherCookieIsSent`), and
  after a success the cookies of handlers that forwarded are sent too (`DispatchIsBounded`).
* A comment in `Drop for Connection` says that the permit is released after the connection. Inside a runtime
  the connection is returned by a spawned job, and the permit may be free first; outside one it may not
  (`EarlyPermitIffAsync`, with the instance `PermitMayBeFreeEarly`).
* The `expect` in `Connection::run` is called an internal invariant. It can fail for a waiting run exactly if
  its future was cancelled before its blocking job got the lock (`CancelledRunMayPanic`).
* Re-adding what `HeaderMap::remove_all` returned restores every lookup, but a name stored with an
  empty list of values is forgotten (`ReAddRestores`).
* `preferred` is not always a maximum over mixed specificity: it is one exactly when some entry is greatest in
  both weight and specificity (`MaximumIffTop`). Otherwise the order of the header may decide (`OrderDecides`).
* An argument of `uri!` is bound to a temporary that has the parameter's name and the span of the caller's
  expression, so a later argument that mentions that name means the temporary (`MeansAsWrittenIff`, with the instance
  `CallCaptures`).

## Model

| member | source | states |
|---|---|---|
| Sentinel.BuildGraph | core/lib/src/sentinel.rs:395-403 | one pass leaves the roots, and under each parent id its children, complete and in input order |
| Sentinel.Query | core/lib/src/sentinel.rs:408-424 | terminates on every list, cyclic links included, with the verdict and `abort` calls of the one complete first-come traversal; only exposed sentinels are asked, and with one verdict per type the result is `Ok` if and only if no exposed sentinel aborts |
| Sentinel.Ask | core/lib/src/sentinel.rs:412-415 | popping one sentry keeps memo, calls and aborted list those of the order popped: a type's verdict is asked for once and reused |
| Sentinel.Open | core/lib/src/sentinel.rs:416-418 | popping one sentry keeps queue and map those of a first-come traversal: a type's children are enqueued when it is first opened, and never below a sentinel |
| Sentinel.TraversalIsUnique | core/lib/src/sentinel.rs:411-418 | the input fixes the order in which sentries are popped |
| Sentinel.QueryVisitsExposed | core/lib/src/sentinel.rs:405-419 | the popped sentries are exactly those reachable from a root along a path without a sentinel above them, each popped once |
| Sentinel.EnqueuedOnce | core/lib/src/sentinel.rs:416-417 | no sentry is enqueued twice, because its type's children leave the map when first opened |
| Sentinel.QueueIsBounded | core/lib/src/sentinel.rs:411-418 | popped and queued sentries together never outnumber the input: the termination argument |
| Sentinel.LevelsRise | core/lib/src/sentinel.rs:405-419 | distances from the roots never fall along the order popped |
| Sentinel.PathOf | core/lib/src/sentinel.rs:411-418 | every popped sentry has a sentinel-free root path of the length of its level |
| Sentinel.PathIsPopped | core/lib/src/sentinel.rs:411-418 | whatever a sentinel-free root path leads to is popped, at a level no larger than the path's length |
| Sentinel.NearestFirst | core/lib/src/sentinel.rs:405-419 | breadth first: a sentry popped earlier has a root path no longer than any root path of one popped later |
| Sentinel.CallsAreFirsts | core/lib/src/sentinel.rs:413 | `abort` runs exactly once for each type of popped sentinel, for the first one popped, and for nothing else |
| Sentinel.AbortedIsFilter | core/lib/src/sentinel.rs:412-415 | the memoised running list is the list of popped sentinels whose type's one call aborted, in the order popped |
| Sentinel.QueryReportsAborts | core/lib/src/sentinel.rs:387-424 | with one verdict per type, the error lists exactly the exposed sentinels whose type aborts |
| TypeTree.Visitor.VisitType | core/codegen/src/syn_ext.rs:161-182 | visiting appends every node in preorder with its immediate parent, known macros replaced by their expansion, and restores the parent stack |
| TypeTree.UnfoldWithTyMacros | core/codegen/src/syn_ext.rs:146-188 | the list has exactly the occurrences in the type, macros replaced, each once: entry by entry the type at a path of kid indices with the type above it, in lexicographic order of paths |
| TypeTree.UnfoldLists | core/codegen/src/syn_ext.rs:161-182 | so has the unfolding of any nested type, below whatever parent |
| TypeTree.OnePerConcrete | core/codegen/src/attribute/route/mod.rs:358-374 | one sentry for each concrete entry and none for any other, in the order listed |
| TypeTree.ParentOfListed | core/codegen/src/syn_ext.rs:162-181 | a listed node's parent is the nearest enclosing listed type, of which it is an immediate (expanded) kid, and that parent is itself listed |
| TypeTree.ConcreteVisitor.VisitType | core/codegen/src/syn_ext.rs:194-209 | the flag ends as the last mark written in the tree: later writes win |
| TypeTree.NonConcretePropagates | core/codegen/src/attribute/route/mod.rs:333-337 | the comment's axiom holds for a type if and only if it holds no opaque type or macro anywhere, or the last node to decide is one |
| TypeTree.NonConcreteMayNotPropagate | core/codegen/src/attribute/route/mod.rs:334-337 | the axiom is false of `(impl Trait, fn())` |
| TypeTree.NoBrokenLinks | core/codegen/src/attribute/route/mod.rs:328-345 | all the same, every parent link of the emitted sentries leads to a type that has a sentry |
| TypeTree.ExposedIsReached | core/codegen/src/attribute/route/mod.rs:358-374 | wherever the search has come to in a type tree, it reaches each concrete type below that has no sentinel above it |
| TypeTree.ReachedIsExposed | core/codegen/src/attribute/route/mod.rs:358-374 | in a forest closed under one step of the search, whatever the search comes to has the id of an exposed type |
| TypeTree.ReachedAreExposedIff | core/codegen/src/attribute/route/mod.rs:358-374 | for given sentinels, everything reached has an exposed id if and only if every listed concrete type does that starts a path, or is nested in a non-sentinel with an exposed id |
| TypeTree.AskedAreExposedIff | core/codegen/src/attribute/route/mod.rs:358-374 | no sentinel but exposed ones is asked, whatever types are sentinels, if and only if that one-step condition holds whatever types are sentinels |
| TypeTree.PlainForestIsClosed | core/codegen/src/attribute/route/mod.rs:358-374 | the condition holds where ids determine types and concrete types are concrete throughout |
| TypeTree.QueriedAreExposed | core/codegen/src/attribute/route/mod.rs:358-374 | composition of the visitors and the query: every sentinel type that occurs with no sentinel above it is asked, and no other is in a forest that meets the condition |
| TypeTree.AliasIsQueried | core/codegen/src/attribute/route/mod.rs:365-374 | where ids do not determine types, a sentinel that only occurs below another one is asked, through an alias |
| TypeTree.UncleanIsQueried | core/codegen/src/attribute/route/mod.rs:362-372 | where a concrete type holds an opaque one, so is a sentinel whose filtered parent makes it a root |
| UriMacro.ParseArgs | core/codegen/src/bang/uri_parsing.rs:159-183 | fails exactly when both kinds of argument occur; otherwise all arguments are kept and are of one kind |
| UriMacro.Validate | core/codegen/src/bang/uri_parsing.rs:363-409 | the loops over the index map give: positional arguments by count; for named ones the wildcards, else missing, extra and duplicate names in order, else the expressions in declaration order |
| UriMacro.CollectNames | core/codegen/src/bang/uri_parsing.rs:381-382 | the index map starts with each declared name once, in declaration order, without a value |
| UriMacro.UseArgs | core/codegen/src/bang/uri_parsing.rs:384-392 | after the loop the map holds the first expression given for each name; duplicates and extras are listed in order |
| UriMacro.UseOne | core/codegen/src/bang/uri_parsing.rs:387-391 | one argument fills its name's slot, or is a duplicate when the slot is filled, or an extra when there is none |
| UriMacro.Outcomes | core/codegen/src/bang/uri_parsing.rs:394-400 | the stored expressions come out in declaration order, and the names never used are the missing ones |
| UriMacro.AcceptedIsPermutation | core/codegen/src/bang/uri_parsing.rs:402-406 | nothing is missing, extra or duplicate if and only if the names used are a permutation of the declared names |
| UriMacro.ArgumentsAreSorted | core/codegen/src/bang/uri_parsing.rs:384-406 | conservation: arguments are counted exactly once among extras, duplicates and first uses, and first uses are the declared names not missing |
| UriMacro.SortedByName | core/codegen/src/bang/uri_parsing.rs:384-400 | for every name, how often it is an extra (each use, if undeclared), a duplicate (each use after the first, if declared) and missing (if declared and never used) |
| UriMacro.RefusalMeans | core/codegen/src/bang/uri_parsing.rs:366-406 | a refused call is told its kind: both counts, the wildcards, or the faults of its names |
| UriMacro.BadMeans | core/codegen/src/bang/uri_parsing.rs:394-406 | the names told as missing, extra and duplicate are those, in these places |
| UriMacro.FaultsInOrder | core/codegen/src/bang/uri_parsing.rs:384-400 | faults are told in the order of arguments, missing names in that of parameters |
| UriMacro.WildsMean | core/codegen/src/bang/uri_parsing.rs:376-379 | the wildcards told are exactly the parameters named `_`, in order |
| UriMacro.NamedIsAccepted | core/codegen/src/bang/uri_parsing.rs:375-406 | a named call without wildcards is accepted if and only if its names permute the declared ones |
| UriMacro.PermutationIsReordered | core/codegen/src/bang/uri_parsing.rs:394-403 | then the expression at a parameter's position is the one written under that parameter's name |
| UriMacro.NamedIsPositional | core/codegen/src/bang/uri_parsing.rs:363-409 | a named call whose names permute the parameters' validates to the same expressions as the positional call that gives each parameter what the named one gives it |
| UriExpand.ExplodePathParam | core/codegen/src/bang/uri.rs:147-161 | what one path parameter consumes from the two iterators, binds and emits, or that an `expect` fails |
| UriExpand.ExplodePath | core/codegen/src/bang/uri.rs:135-166 | static paths are copied; otherwise the loop's effect on bindings, parts and both iterators is that of the recursive walk |
| UriExpand.ExplodeQueryParam | core/codegen/src/bang/uri.rs:181-218 | the same for one query parameter; an ignored argument consumes both iterators and leaves only a type check |
| UriExpand.ExplodeQuery | core/codegen/src/bang/uri.rs:168-222 | absent and static queries are handled apart; otherwise the loop is the recursive walk |
| UriExpand.HasSkipped | core/codegen/src/bang/uri.rs:53-57 | the search finds an ignored path argument if and only if there is one |
| UriExpand.Expand | core/codegen/src/bang/uri.rs:224-246 | validation, the split of the expressions, and the two walks over shared handler arguments compose as specified, errors included |
| UriExpand.PathIgnoredIff | core/codegen/src/bang/uri.rs:53-57 | an accepted call is refused exactly if an argument for the path is `_` |
| UriExpand.PathPanics | core/codegen/src/bang/uri.rs:147-161 | the path's `expect`s fire if and only if expressions or handler arguments run short, and the walk leaves precisely the query's handler arguments |
| UriExpand.QueryPanics | core/codegen/src/bang/uri.rs:192-196 | the same for the query, however many arguments are `_` |
| UriExpand.ExpectsHold | core/codegen/src/bang/uri.rs:135-222 | after validation no `expect` fires if and only if there is a handler argument per named parameter; bindings then go with handler arguments one to one |
| UriExpand.ExpandedPathMeans | core/codegen/src/bang/uri.rs:135-166 | resolving the expansion's path through its bindings shows each parameter's own expression, at its own handler type, in route order |
| UriExpand.ExpandedQueryMeans | core/codegen/src/bang/uri.rs:168-222 | so does the query, under the parameter's name unless it trails, and skipped arguments leave no trace |
| UriExpand.NamedExpandsAlike | core/codegen/src/bang/uri.rs:42-63 | such a named call expands to the bindings and URI parts of the positional call |
| UriCapture.MeansAsWrittenIff | core/codegen/src/bang/uri.rs:119-133 | the arguments of an accepted call keep the values they have where it is written, whatever expressions and names mean, if and only if none mentions the name of a parameter given before it and none for an ignored parameter that of any given |
| UriCapture.CallCaptures | core/codegen/src/bang/uri.rs:126-131 | `uri!(route(id = 1, name = id))` is accepted and shows 1 for `name`, whatever the caller's `id` |
| FieldNames.ClashIsSharedKey | core/codegen/src/derive/form_field.rs:149-159 | two field names are equal if and only if some form key fits both |
| FieldNames.ClashIsNotTransitive | core/codegen/src/derive/form_field.rs:149-159 | that equality is not transitive |
| FieldNames.KeyOf | core/codegen/src/derive/form_field.rs:469-470 | the lookup always finds the key that lists the name, even among keys that list none: its `expect` holds |
| FieldNames.FirstDuplicate | core/codegen/src/derive/form_field.rs:459-485 | `None` if and only if no two listed names clash; else the least clashing pair, with the right owners, whose reported prefixes are equal if and only if the owners are |
| FieldNames.OwnerIsUnique | core/codegen/src/derive/from_form.rs:108-112 | prefix indices identify owners, also when fields list no names |
| FieldNames.NoClashNoAmbiguity | core/codegen/src/derive/form_field.rs:459-485 | the search accepts if and only if no form key whatever fits two listed names |
| FieldNames.AcceptedIsUnambiguous | core/codegen/src/derive/from_form.rs:108-116 | among accepted fields a form key fits one name of one field |
| FormContext.FieldsMap | core/codegen/src/derive/from_form.rs:22-58 | the generated dispatch is a direct push for a tuple field, else has an arm for exactly each listed name of each field |
| FormContext.Validate | core/codegen/src/derive/from_form.rs:103-123 | accepts exactly structs with a field, tuple structs with one, and no clashing names |
| FormContext.BelongingMeans | core/codegen/src/derive/from_form.rs:43-46 | the keys of a named field are those its listed names accept, exactly or in any case, or its identifier alone if it lists none |
| FormContext.TargetIsOwner | core/codegen/src/derive/from_form.rs:43-57 | for an accepted struct the first matching arm is the arm of the key's owner, whatever the order of arms; no arm matches a key without one |
| FormContext.FormState.constructor | core/codegen/src/derive/from_form.rs:182-200 | a fresh context has no errors, parent or field contexts |
| FormContext.FormState.PushItem | core/codegen/src/derive/from_form.rs:49-57 | an arriving field changes the parent, and either the owning field's context, initialised on first use, or in strict mode the errors |
| FormContext.FieldsAreIndependent | core/codegen/src/derive/from_form.rs:22-58 | after any arrivals a field is `None` if no value's key is its own, and else its type's initial context with exactly those values pushed, in order |
| FormContext.ParentIsLast | core/codegen/src/derive/from_form.rs:49-50 | `__parent` is that of the last value pushed |
| FormContext.ErrorsAreComplaints | core/codegen/src/derive/from_form.rs:52-56 | the errors recorded are those pushed and, in strict mode, one per key without an owner other than `_method`, in order of arrival |
| FormContext.InterleavingIsIrrelevant | core/codegen/src/derive/from_form.rs:22-58 | two forms with the same share for each field and the same complaints leave the same fields and errors |
| FormContext.FieldResult | core/codegen/src/derive/from_form.rs:275-293 | a field that fails to finalise always has a non-empty error |
| FormContext.MissingMeans | core/codegen/src/derive/from_form.rs:275-285 | a field without values has the attribute's default unless strict, or its type's; without one it fails as missing, under its name |
| FormContext.PresentMeans | core/codegen/src/derive/from_form.rs:281-293 | a field with values is its type's result, errors under the field's name, one unknown error if there are none |
| FormContext.FinalizeField | core/codegen/src/derive/from_form.rs:249-293 | a field yields its value and no error, or none and its errors |
| FormContext.FinalizeFields | core/codegen/src/derive/from_form.rs:249-293 | all fields are finalised, none short-circuits; errors follow those already there in field order |
| FormContext.RunValidator | core/codegen/src/derive/form_field.rs:372-385 | a validator runs exactly when every field it reads has a value, and its errors get the field's name |
| FormContext.RunValidators | core/codegen/src/derive/form_field.rs:346-388 | every validator is run and its errors appended in order |
| FormContext.VerdictMeans | core/codegen/src/derive/form_field.rs:359-385 | a validator checks the values of the fields it names, in order, and what it finds gets the name of its own field |
| FormContext.PassedOver | core/codegen/src/derive/form_field.rs:374-377 | it adds nothing if one of those fields has no value |
| FormContext.ErrorsInOrder | core/codegen/src/derive/from_form.rs:226-294 | complaints on arrival come first, then the fields' errors in order, then the validators' in order |
| FormContext.Finalize | core/codegen/src/derive/from_form.rs:226-294 | the `unwrap`s on fields never meet a missing value; the result is all the errors, or, when there are none, all the fields' values |
| FormContext.NoFieldErrors | core/codegen/src/derive/from_form.rs:289-293 | no field added an error if and only if every field has a value: the reason the `unwrap`s hold |
| FormContext.OkIffNothingRecorded | core/codegen/src/derive/from_form.rs:226-294 | there is no error if and only if none was recorded on arrival, every field has a value, and every validator is content or names no error |
| FormContext.ParseSucceedsIff | core/codegen/src/derive/from_form.rs:189-294 | end to end: a form parses if and only if no arrival is complained about, each field alone makes a value of its share of the form, and the validators are content |
| EnumField.Validate | core/codegen/src/derive/from_form_field.rs:19-40 | accepts exactly the non-empty enums without clashing values, and tells a clash inside a variant from one between variants |
| EnumField.FromValueAmong | core/codegen/src/derive/from_form_field.rs:61-88 | parsing yields a variant that fits, or an error offering all values exactly when none fits |
| EnumField.FitsMeans | core/codegen/src/derive/from_form_field.rs:79-87 | a text fits a variant exactly if it is one of its listed values, or its identifier if it lists none, in any letter case |
| EnumField.OfferedMeans | core/codegen/src/derive/from_form_field.rs:56-70 | the error offers every variant's values in order, and what is printed is the first of the variant's own |
| EnumField.OneVariantFits | core/codegen/src/derive/from_form_field.rs:24-37 | for an accepted enum, at most one variant fits a text |
| EnumField.DisplayParses | core/codegen/src/derive/uri_display.rs:73-82 | the printed value of a variant, in any letter case, parses to that variant |
| EnumField.OrderIsIrrelevant | core/codegen/src/derive/from_form_field.rs:61-67 | testing the variants in another order gives the same variant or fails alike |
| EnumField.RoundTripUnlessShadowed | core/codegen/src/derive/from_form_field.rs:79-87 | without the validator, printing and parsing agree if and only if no earlier variant fits the printed text |
| Lifecycle.Dispatcher.Route | core/lib/src/lifecycle.rs:197-224 | the loop over matching routes has the outcome and effects of trying them in order |
| Lifecycle.RoutingIsFirstOutcome | core/lib/src/lifecycle.rs:188-224 | handlers run in router order, each on the world, cookies and data the one before left and forwarded, up to the first that does not forward; the outcome is that handler's own, response included, a panic being a 500 error; or the last forward with its data; or, with no route, the initial data and 404 |
| Lifecycle.PassKeepsOps | core/lib/src/lifecycle.rs:205-221 | every handler that ran leaves its cookie operations, in order, forwarding ones included |
| Lifecycle.Dispatcher.InvokeCatcher | core/lib/src/lifecycle.rs:270-285 | the registered catcher or the default one, with the catcher's effects on the cookies |
| Lifecycle.Dispatcher.DispatchError | core/lib/src/lifecycle.rs:234-258 | the retry loop ends, with cookies reset once at the start |
| Lifecycle.CatchingIsBounded | core/lib/src/lifecycle.rs:226-258 | the catcher for the status runs on a reset jar; a second, for 500, exactly when it fails for another status, on what it left; the response is that of the catcher that succeeds, else the default 500; pending cookies are exactly those catchers' |
| Lifecycle.LastCatcherOwnsCookies | core/lib/src/lifecycle.rs:228-240 | the pending cookies are the last catcher's own if and only if it was the only one or the first set none |
| Lifecycle.FailedCatcherCookieIsSent | core/lib/src/lifecycle.rs:240-250 | an application whose failed catcher's cookie goes out with the 500 catcher's own response |
| Lifecycle.Dispatcher.Respond | core/lib/src/lifecycle.rs:98-117 | routing, the HEAD to GET retry and the error paths compose as specified |
| Lifecycle.DispatchIsBounded | core/lib/src/lifecycle.rs:91-117 | over any dispatch: one pass over the routes; a second, as GET on the forwarded data, if and only if a HEAD was forwarded; then the succeeding handler's own response, or the error path from the routing's final status; and which cookies are then pending |
| Lifecycle.Dispatcher.Finish | core/lib/src/lifecycle.rs:119-135 | cookies, then the `Server` header if absent, then the response fairings |
| Lifecycle.CookiesAreAppended | core/lib/src/lifecycle.rs:121-124 | every pending cookie becomes one `Set-Cookie` value behind those present, in order, and no other header changes |
| Lifecycle.FairingsSee | core/lib/src/lifecycle.rs:119-135 | the response fairings run once, with no cookies pending, on the answer with its cookies and with a `Server` header only if it had none; status, body and other headers unchanged |
| Lifecycle.Dispatcher.Dispatch | core/lib/src/lifecycle.rs:91-157 | the whole dispatch equals its specification, framing and `Alt-Svc` included |
| Lifecycle.NoForbiddenBody | core/lib/src/lifecycle.rs:137-146 | whatever handlers and fairings do, no body bytes answer HEAD or leave with status 204 or 304 (sections 9.3.2, 15.3.5 and 15.4.5 of RFC 9110) |
| Lifecycle.HeadersAfterFrame | core/lib/src/lifecycle.rs:137-153 | framing sets `Content-Length` and `Alt-Svc` when it has values for them, over any the handler set, and changes no other header |
| Lifecycle.DispatchWrites | core/lib/src/lifecycle.rs:91-157 | end to end: what leaves is what the fairings made of the routed or recovered response, but for a forbidden body, its length and `Alt-Svc`; every header is accounted for |
| Lifecycle.LengthIsPreStripSize | core/lib/src/lifecycle.rs:137-149 | the length written is the size before stripping, and none for 204, if and only if the body is not stripped or is of a kind that keeps its size; otherwise it is 0 |
| Lifecycle.ContentLengthReads | core/lib/src/lifecycle.rs:137-149 | for each kind of body, status and stripping, the one `Content-Length` that leaves, read in decimal: the preset size, or the one found by seeking, 0 when stripping loses it, and else what was there |
| Lifecycle.LengthIsByteCount | core/lib/src/lifecycle.rs:137-149 | a body that tells the number of its bytes is announced as that many, and carried whole unless stripped (section 8.6 of RFC 9110) |
| Lifecycle.DigitsWrite | core/lib/src/lifecycle.rs:148 | the length is written in decimal digits without leading zeros |
| Lifecycle.UnsizedHeadHasLengthZero | core/lib/src/response/body.rs:142-152 | an unsized body gets no length on GET and length 0 on HEAD |
| Lifecycle.HeadIsGetStripped | core/lib/src/lifecycle.rs:91-157 | then the HEAD response is GET's without its body: same status and headers, and the same `Content-Length` if and only if the stated condition on the body holds |
| Headers.HeaderMap.constructor | core/http/src/header/header.rs:644-645 | a new map is empty and valid |
| Headers.HeaderMap.Len | core/http/src/header/header.rs:305-307 | the count is the number of headers `iter` yields |
| Headers.HeaderMap.GetOne | core/http/src/header/header.rs:388-394 | the first value of the name in any letter case, none if absent or stored with no values |
| Headers.HeaderMap.Add | core/http/src/header/header.rs:521-524 | the value goes last among its name's values; the table stays well keyed |
| Headers.HeaderMap.AddAll | core/http/src/header/header.rs:577-583 | so do several, and the caller's list is drained |
| Headers.HeaderMap.Replace | core/http/src/header/header.rs:447-450 | the values are replaced, and the result says whether the name was there |
| Headers.HeaderMap.ReplaceAll | core/http/src/header/header.rs:499-503 | the values are replaced by those given, none included |
| Headers.HeaderMap.Remove | core/http/src/header/header.rs:603-605 | the slot is swap-removed |
| Headers.HeaderMap.RemoveAll | core/http/src/header/header.rs:644-647 | the map is left empty and the owning iterator has yielded just the headers of `iter`, in order |
| Headers.IntoIter.Next | core/http/src/header/header.rs:775-786 | yields the next pending header, past any number of empty value lists, and `None` only when none is left |
| Headers.IntoIter.Collect | core/http/src/header/header.rs:775-786 | collecting yields every pending header in order |
| Headers.StepRefines | core/http/src/header/header.rs:447-605 | each operation acts as on a plain map from folded name to first spelling and values: other names untouched, the first spelling kept, names unique also after `swap_remove` |
| Headers.RunRefines | core/http/src/header/header.rs:447-647 | so does every sequence of operations |
| Headers.ReAddRestores | core/http/src/header/header.rs:644-647 | re-adding everything removed restores `get` for every name, and the whole table if and only if no name was stored without values |
| IndexMap.PutRefines | core/http/src/header/header.rs:447-449 | `insert` updates one key of the plain map and keeps keys unique |
| IndexMap.SwapRemoveRefines | core/http/src/header/header.rs:603-605 | `swap_remove` drops one key of the plain map, loses no other and keeps keys unique |
| RawStr.HtmlEscape | core/http/src/raw_str.rs:395-458 | the lazy loop equals escaping each byte by itself; it borrows, unchanged, if and only if nothing needs escaping; valid UTF-8 stays valid, so the `unsafe` conversion is sound |
| RawStr.EscapeKeepsUtf8 | core/http/src/raw_str.rs:426-453 | the escaped bytes are valid UTF-8 if and only if the input is |
| RawStr.EscapeRoundTrip | core/http/src/raw_str.rs:407-422 | reading character references, named by their letters and numeric by their value, recovers every byte string |
| RawStr.EntitySpelling | core/http/src/raw_str.rs:408-415 | how each of the seven is spelled |
| RawStr.EscapeInjective | core/http/src/raw_str.rs:395-458 | no two inputs escape alike |
| RawStr.EscapedIsInert | core/http/src/raw_str.rs:398-422 | of the bytes ``& < > " ' / ` `` only a `&` occurs in the output, and it opens a character reference |
| RawStr.ReplacePlusInPlace | core/http/src/raw_str.rs:225-249 | overwriting found positions in a copy equals mapping each byte; it borrows if and only if there is no `+`; UTF-8 validity is unchanged |
| RawStr.DecodeIsOnePass | core/http/src/raw_str.rs:306-312 | replacing `+` and then percent-decoding is the one-pass decoder of section 5.1 of the URL Standard |
| RawStr.UrlDecode | core/http/src/raw_str.rs:306-312 | succeeds if and only if the decoded bytes are valid UTF-8, yields them, and borrows if and only if decoding changes nothing |
| RawStr.FormRoundTrip | core/http/src/raw_str.rs:306-312 | decoding undoes form encoding on every byte string |
| RawStr.HexDigitsMean | core/http/src/raw_str.rs:308 | percent-encoding reads hexadecimal digits in either case |
| RawStr.PlusesAreEncodedOnes | core/http/src/raw_str.rs:306-312 | the decoded text has exactly as many `+` as the input has encoded ones: none becomes a space and none is new |
| RawStr.PassOrderMatters | core/http/src/raw_str.rs:306-312 | decoding before replacing would give the same text if and only if no `+` is encoded |
| RawStr.SplitAtByte | core/http/src/raw_str.rs:768-785 | the text before and after the first occurrence of an ASCII byte, both valid UTF-8; everything and nothing otherwise |
| Utf8.AsciiIsBoundary | core/http/src/raw_str.rs:774-776 | an ASCII byte of valid UTF-8 is a character boundary on both sides |
| Utf8.ValidConcat | core/http/src/raw_str.rs:427-453 | after valid UTF-8, the whole is valid if and only if the rest is |
| Utf8.ValidIffEncoded | core/http/src/raw_str.rs:427-453 | valid is exactly what encodes a string of Unicode scalar values (section 3 of RFC 3629) |
| Uncased.FoldMeans | core/codegen/src/derive/form_field.rs:149-159 | uncased names are equal exactly if they are alike but for the case of ASCII letters |
| ConnectionPool.StepConserves | contrib/sync_db_pools/lib/src/connection.rs:101-126 | every step keeps free permits, permits of in-flight gets and permits of handles equal to the pool's size |
| ConnectionPool.StepKeepsInv | contrib/sync_db_pools/lib/src/connection.rs:101-211 | every step of `get`, `run` and `drop` keeps the invariant |
| ConnectionPool.RunsKeepInv | contrib/sync_db_pools/lib/src/connection.rs:101-211 | so does every finite interleaving |
| ConnectionPool.Safety | contrib/sync_db_pools/lib/src/connection.rs:101-211 | in every reachable state: conservation, one lock holder per connection, and each slot emptied at most once, exactly once when its drop job has run |
| ConnectionPool.ExpectFailsOnlyAfterCancel | contrib/sync_db_pools/lib/src/connection.rs:165-173 | `run`'s `expect` fails if and only if the drop job was first, and only for a run whose future was cancelled |
| ConnectionPool.CancelledRunMayPanic | contrib/sync_db_pools/lib/src/connection.rs:152-177 | in every reachable state, a waiting run can still come to a failed `expect`, by steps that do not cancel its own future, if and only if that future has been cancelled already |
| ConnectionPool.SomeRunPanics | contrib/sync_db_pools/lib/src/connection.rs:165-173 | a failed `expect` is reachable |
| ConnectionPool.EarlyPermitIsAsync | contrib/sync_db_pools/lib/src/connection.rs:196-209 | a dropped handle's connection is still out if and only if its job has yet to take it, and only if it was dropped inside a runtime |
| ConnectionPool.EarlyPermitIffAsync | contrib/sync_db_pools/lib/src/connection.rs:180-210 | from every reachable state, any handle that may be dropped can have its permit free with its connection still out, nothing else changed, if and only if it is dropped inside a runtime |
| ConnectionPool.PermitMayBeFreeEarly | contrib/sync_db_pools/lib/src/connection.rs:185-209 | a state with such an early permit is reachable, despite the comment |
| ConnectionPool.SomeTaskMoves | contrib/sync_db_pools/lib/src/connection.rs:165-205 | no deadlock: while a task of a connection is unfinished, some step of that connection is enabled |
| ConnectionPool.QuietPoolIsFull | contrib/sync_db_pools/lib/src/connection.rs:101-211 | with no `get` in flight and every handle gone, all permits are back |
| ConnectionPool.AllPermitsCanReturn | contrib/sync_db_pools/lib/src/connection.rs:101-211 | no permit is ever lost: from every reachable state the pool can come to rest with all of them free |
| Accept.Preferred | core/http/src/header/accept.rs:151-180 | the loop folds the pairwise rule, `Any` for an empty header, and no entry after the result beats it |
| Accept.NeverRefinedLater | core/http/src/header/accept.rs:165-168 | whatever the weights, no later entry covers strictly fewer types than the result |
| Accept.NarrowerIsPreferred | core/http/src/header/accept.rs:165-168 | of two entries of one weight the one that covers strictly fewer types is the result, in either order |
| Accept.NarrowerTypes | core/http/src/header/media_type.rs:456-458 | `t/s` covers strictly fewer types than `t/*`, and that than `*/*` |
| Accept.SameTypeCoversAlike | core/http/src/header/media_type.rs:562-566 | media types are equal exactly if they cover the same types |
| Accept.MaximumIffTop | core/http/src/header/accept.rs:151-180 | with weights in [0, 1], no entry of the header beats the result if and only if some entry has both the greatest rank, no `q` ranking first, and the greatest specificity |
| Accept.TopIsPreferred | core/http/src/header/accept.rs:151-180 | then the result has the weight and type of the first such entry and is the first of these with the most parameters |
| Accept.PreferredIsBest | core/http/src/header/accept.rs:151-180 | on any list of one specificity: the best weight, the type of the first such entry, and the first with the most parameters of that type (section 5.3.2 of RFC 7231) |
| Accept.BestIsUnique | core/http/src/header/accept.rs:151-180 | those tests single out the result |
| Accept.OrderDecides | core/http/src/header/accept.rs:165-168 | for two entries of unequal specificity the header's order decides if and only if the less specific one ranks higher, which is when neither is top |

## Left out

- TypeTree.QueriedAreExposed: for one fixed choice of sentinels the condition is sufficient for "no other is asked"; it is exact for everything reached (`ReachedAreExposedIff`) and over all choices (`AskedAreExposedIff`).
- Accept.Preferred: weights are exact reals, not `f32`; the parser's rounding of `q` is not modelled.
- RawStr.UrlDecode: the percent-encoding crate is not part of this model; its decoder is written after section 1.3 of the URL Standard, including when it borrows.
- Sentinel.QueryReportsAborts: the membership half assumes one verdict per type id, which `resolve!` gives by naming one implementation per type.
- FormContext.Finalize: rewriting of validator expressions is not modelled; a validator is a function of the fields it reads.
- EnumField.DisplayParses: stated before URL encoding; `UriDisplay` percent-encodes the value, which form decoding undoes.
- UriExpand.ExpandedPathMeans: treats arguments as closed values, which `UriCapture.MeansAsWrittenIff` says when they are; takes the handler's arguments to be its named parameters, distinct and in order, as the route attribute passes them.
- UriExpand.ExpandedQueryMeans: the same two limits.
- UriCapture.MeansAsWrittenIff: that a temporary is visible to later arguments is read off its span, as Rust's hygiene has it; that a moved temporary may not compile is not modelled.
- `RawStr::url_decode_lossy`, `percent_encode` and the other adapters: tables or one call into a library.
- Router matching and collisions, URI and parameter parsing, media-type parsing: the model takes their results as input.
- Fairing list internals, request fairings and the `_method` rewriting of `preprocess`: response fairings are one arbitrary function.
- The cookie jar: handlers' changes are opaque operations, and what they amount to is a parameter.
- Upgrades and I/O handlers, writing the response, servers, listeners, TLS: I/O.
- Seeking a body may fail or report a wrong end: `probe` is whatever it reports.
- Body bytes a seek failure leaves unread, and chunk sizes.
- Spans, diagnostics text, quoting and hygiene of the macros; `query_decls`.
- A connection that `pool.get_timeout` returns after its `get` was cancelled: no handle is made, and r2d2 takes it back.
- Fairness of the async scheduler and the semaphore: the step system has safety and absence of deadlock, not eventual progress.
- Dropping the pool itself, and jobs never run because the runtime shuts down.
- `erased.rs`: a lifetime argument of Rust's type system.
- Database drivers, template engines, configuration, testbench and benchmarks.
