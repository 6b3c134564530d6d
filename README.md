# JUnit 5 engine core, modelled in Dafny

This project models seven pieces of the JUnit 5 code base and proves what they promise:

- **`CompositeFilter`** (platform engine) combines a non-empty list of filters with AND. Its `apply` stops at the first excluding filter. Its predicate is the conjunction of the filters' predicates. Its string form joins the filters' strings.
- **`TestTemplateTestDescriptor`** (Jupiter) is the container of a `@TestTemplate` method. It asks the supporting invocation-context providers for contexts and numbers them `#1`, `#2`, … across all providers. Each context becomes a child that is attached and then handed to the dynamic test executor.
- **`DynamicContainerTestDescriptor`** (Jupiter) walks a dynamic container's stream of children. It numbers them from 1 and executes each in stream order. A `null` child fails the container.
- **`VintageExecutor`** (vintage engine) starts the engine descriptor and runs every JUnit 4 runner below it in order. A throwable that escapes a runner is reported as that runner's failure; a start is synthesised first when the runner had not been started. The engine then finishes successfully.
- **`TestClassCollector`** (vintage engine) keeps the classes that run completely and a `LinkedHashMap` from filtered classes to their filters. It turns both into test-class requests.
- **`CompleteTestClassesResolver`** (vintage engine) builds a `LinkedHashSet` of test classes. The classes come from the classpath-root selectors, then the package selectors, then the class selectors.
- **`MethodArgumentResolverEngine`** (early JUnit 5 engine) resolves each test-method parameter through the one registered resolver that supports it.

Layout:

- `common.dfy` (module `Common`) holds the shared model:
  - unique ids as lists of segments;
  - decimal rendering of invocation ordinals;
  - linked hash sets held as their iteration order (`InsertionOrder`);
  - the dynamic test executor, which records what it is handed.
- Each other file models one source class, in a module of its own.

Modelling conventions:

- A Java exception raised by `Preconditions` or by argument resolution is an `Err` result.
- A lazy stream is the finite sequence it emits. A `null` element is `None`.
- An object whose fields change is a `class`. These are the template descriptor's children, the listener's log, the executor's log and the collector's map. Everything else is a value.

## Model

| member | source | states |
|---|---|---|
| CompositeFilters.AlwaysIncluded | junit-platform-engine/src/main/java/org/junit/platform/engine/CompositeFilter.java:33-51 | the shared filter includes every element with reason "Always included", and its predicate holds for every element |
| CompositeFilters.AlwaysIncludedIsIdentity | junit-platform-engine/src/main/java/org/junit/platform/engine/CompositeFilter.java:33-51 | inserting the always-included filter at any position of a filter list does not change the composite's `apply` result |
| CompositeFilters.Create | junit-platform-engine/src/main/java/org/junit/platform/engine/CompositeFilter.java:55-57 | construction fails with "filters must not be empty" exactly when the list is empty; otherwise the composite holds the given filters in order |
| CompositeFilters.Evaluate | junit-platform-engine/src/main/java/org/junit/platform/engine/CompositeFilter.java:60-66 | the lazy pipeline never applies more filters than there are; when it excludes, the result is that of the last filter it applied; when it includes, the result is "Element was included by all filters." |
| CompositeFilters.Apply | junit-platform-engine/src/main/java/org/junit/platform/engine/CompositeFilter.java:59-66 | an excluded result is the very result one of the filters returned; an included result is always "Element was included by all filters." (which filter, and that all earlier ones include, is in ApplyIsFirstExclusion) |
| CompositeFilters.ApplyIsFirstExclusion | junit-platform-engine/src/main/java/org/junit/platform/engine/CompositeFilter.java:45-66 | if some filter excludes, `apply` returns the result of the first excluding filter, all earlier filters including; if none excludes, it returns the included result "Element was included by all filters." |
| CompositeFilters.ApplyIncludesIffAllInclude | junit-platform-engine/src/main/java/org/junit/platform/engine/CompositeFilter.java:23-66 | the composite includes an element if and only if every one of its filters includes it |
| CompositeFilters.ApplyShortCircuits | junit-platform-engine/src/main/java/org/junit/platform/engine/CompositeFilter.java:61-65 | the filters applied are a prefix in which all but the last include; when it stops early the last one applied excludes, and replacing everything after the prefix leaves the evaluation unchanged |
| CompositeFilters.Reduce | junit-platform-engine/src/main/java/org/junit/platform/engine/CompositeFilter.java:72-73 | folding a non-empty list of predicates with `Predicate::and` gives a predicate that holds iff every predicate in the list holds |
| CompositeFilters.ToPredicate | junit-platform-engine/src/main/java/org/junit/platform/engine/CompositeFilter.java:68-74 | `toPredicate` holds for an element iff every filter's predicate holds for it; defined on the non-empty lists the constructor guarantees |
| CompositeFilters.ToPredicateAgreesWithApply | junit-platform-engine/src/main/java/org/junit/platform/engine/CompositeFilter.java:68-74 | when every filter's predicate is its default (holds iff it includes), the composite predicate holds iff `apply` includes |
| CompositeFilters.ToString | junit-platform-engine/src/main/java/org/junit/platform/engine/CompositeFilter.java:76-82 | the string is empty exactly when there are no filters (its exact shape is in ToStringAppend) |
| CompositeFilters.ToStringAppend | junit-platform-engine/src/main/java/org/junit/platform/engine/CompositeFilter.java:76-82 | one filter prints as "(s)"; adding a filter at the end adds " and (s)" to the string |
| TestTemplates.InvocationNumbering | junit-jupiter-engine/src/main/java/org/junit/jupiter/engine/descriptor/TestTemplateTestDescriptor.java:79-83 | context c of supporting provider p is invocation number k, where k counts every context of the earlier providers, then c's position, from 1; its id is the template id plus "#k" and its parent is the template |
| TestTemplates.InvocationIdsUnique | junit-jupiter-engine/src/main/java/org/junit/jupiter/engine/descriptor/TestTemplateTestDescriptor.java:82-104 | every invocation id is one segment below the template's id, and no two invocations share an id |
| TestTemplates.Supporting | junit-jupiter-engine/src/main/java/org/junit/jupiter/engine/descriptor/TestTemplateTestDescriptor.java:91-93 | keeps exactly the providers that support the template (registry order and multiplicity are stated by SupportingAppend) |
| TestTemplates.SupportingAppend | junit-jupiter-engine/src/main/java/org/junit/jupiter/engine/descriptor/TestTemplateTestDescriptor.java:91-93 | the supporting providers of a list split in two are those of the first part followed by those of the second, and a single provider is kept exactly when it supports the template; together these fix the result as the in-order filter |
| TestTemplates.TestTemplateTestDescriptor.GetType | junit-jupiter-engine/src/main/java/org/junit/jupiter/engine/descriptor/TestTemplateTestDescriptor.java:43-46 | a template descriptor is a container |
| TestTemplates.TestTemplateTestDescriptor.MayRegisterTests | junit-jupiter-engine/src/main/java/org/junit/jupiter/engine/descriptor/TestTemplateTestDescriptor.java:48-51 | a template descriptor may register tests |
| TestTemplates.TestTemplateTestDescriptor.ValidateProviders | junit-jupiter-engine/src/main/java/org/junit/jupiter/engine/descriptor/TestTemplateTestDescriptor.java:88-98 | succeeds iff some provider supports the template, with the supporting providers in registry order; otherwise fails with the "You must register at least one … [method]" message |
| TestTemplates.TestTemplateTestDescriptor.CreateInvocationTestDescriptor | junit-jupiter-engine/src/main/java/org/junit/jupiter/engine/descriptor/TestTemplateTestDescriptor.java:100-104 | the new descriptor's id is the template id plus one segment ("test-template-invocation", "#" + index); it carries the context and the index and is not yet attached |
| TestTemplates.TestTemplateTestDescriptor.AddChild | junit-jupiter-engine/src/main/java/org/junit/jupiter/engine/descriptor/TestTemplateTestDescriptor.java:107 | the child gets this descriptor as its parent and is appended to the children (the sequence stands for the children set; see below) |
| TestTemplates.TestTemplateTestDescriptor.ExecuteInvocation | junit-jupiter-engine/src/main/java/org/junit/jupiter/engine/descriptor/TestTemplateTestDescriptor.java:106-109 | the descriptor is attached first, so the executor is handed it with its parent set |
| TestTemplates.TestTemplateTestDescriptor.ExecuteContexts | junit-jupiter-engine/src/main/java/org/junit/jupiter/engine/descriptor/TestTemplateTestDescriptor.java:80-83 | the contexts of one provider continue the numbering; each is attached and executed in emission order, and the counter ends at the last invocation's number |
| TestTemplates.TestTemplateTestDescriptor.ExecuteProviders | junit-jupiter-engine/src/main/java/org/junit/jupiter/engine/descriptor/TestTemplateTestDescriptor.java:78-83 | the contexts of all given providers, in provider order then emission order, are numbered from 1, and each is attached and handed to the executor in that order; the counter ends at the number of contexts |
| TestTemplates.TestTemplateTestDescriptor.Execute | junit-jupiter-engine/src/main/java/org/junit/jupiter/engine/descriptor/TestTemplateTestDescriptor.java:72-114 | with no supporting provider it fails with the provider message and changes nothing; otherwise children and executor both gain exactly the numbered invocations of all supporting providers' contexts in order, and it then fails with "No supporting … provided an invocation context" if there were none, else returns the context |
| DynamicContainers.FirstNull | junit-jupiter-engine/src/main/java/org/junit/jupiter/engine/descriptor/DynamicContainerTestDescriptor.java:57 | finds the first `null` in a child stream: every earlier child is non-null, and the one at the position, if any, is null |
| DynamicContainers.DynamicContainerTestDescriptor.GetType | junit-jupiter-engine/src/main/java/org/junit/jupiter/engine/descriptor/DynamicContainerTestDescriptor.java:42-45 | a dynamic container descriptor is a container |
| DynamicContainers.DynamicContainerTestDescriptor.ShouldBeSkipped | junit-jupiter-engine/src/main/java/org/junit/jupiter/engine/descriptor/DynamicContainerTestDescriptor.java:47-50 | a dynamic container is never skipped, and no reason is given |
| DynamicContainers.DynamicContainerTestDescriptor.ToDynamicDescriptor | junit-jupiter-engine/src/main/java/org/junit/jupiter/engine/descriptor/DynamicContainerTestDescriptor.java:64-66 | the child descriptor is made under this container with the given index and node, and keeps the container's test source |
| DynamicContainers.DynamicContainerTestDescriptor.Execute | junit-jupiter-engine/src/main/java/org/junit/jupiter/engine/descriptor/DynamicContainerTestDescriptor.java:52-62 | the children before the first `null` are executed in stream order with indices 1, 2, … and nothing else is executed; it fails with "individual dynamic node must not be null" iff there is a `null` child, and otherwise returns the context unchanged |
| VintageExecution.ReportUnexpectedFailure | junit-vintage-engine/src/main/java/org/junit/vintage/engine/execution/VintageExecutor.java:69-75 | the listener receives a start for the runner only when it was not started, then its finish with the given result |
| VintageExecution.ExecuteRunner | junit-vintage-engine/src/main/java/org/junit/vintage/engine/execution/VintageExecutor.java:57-67 | the listener receives what the JUnit 4 run reported, followed by the unexpected-failure events when the run threw |
| VintageExecution.ExecuteAllChildren | junit-vintage-engine/src/main/java/org/junit/vintage/engine/execution/VintageExecutor.java:47-55 | the listener receives the events of every runner, one runner after another, in the children's order |
| VintageExecution.Execute | junit-vintage-engine/src/main/java/org/junit/vintage/engine/execution/VintageExecutor.java:39-45 | the listener receives the engine's start, then the events of all runners, then the engine's successful finish |
| VintageExecution.EngineStartsFirstAndFinishesSuccessfully | junit-vintage-engine/src/main/java/org/junit/vintage/engine/execution/VintageExecutor.java:39-45 | the first event is the engine's start and the last is its successful finish, whatever the runners did |
| VintageExecution.ChildrenEventsAppend | junit-vintage-engine/src/main/java/org/junit/vintage/engine/execution/VintageExecutor.java:50-53 | running two lists of runners one after the other gives the events of the first list followed by those of the second |
| VintageExecution.RunnersExecuteInOrder | junit-vintage-engine/src/main/java/org/junit/vintage/engine/execution/VintageExecutor.java:47-67 | the events of runner i appear in full right after those of the runners before it, even when an earlier runner threw; the engine's finish still follows |
| VintageExecution.UnexpectedFailureIsPaired | junit-vintage-engine/src/main/java/org/junit/vintage/engine/execution/VintageExecutor.java:61-75 | when a run throws, the runner's last event is its failed finish; a start is added just before it exactly when the run had not started the runner, so the runner is started once if it was not, and no extra time if it was |
| VintageExecution.NormalRunAddsNothing | junit-vintage-engine/src/main/java/org/junit/vintage/engine/execution/VintageExecutor.java:61-63 | a run that does not throw adds nothing to what JUnit 4 reported |
| VintageExecution.FinishedRunnerThatThrowsFinishesAgain | junit-vintage-engine/src/main/java/org/junit/vintage/engine/execution/VintageExecutor.java:61-75 | a run that already started and finished the runner and then throws gets a second, failed finish for the runner, because only "not started" is checked |
| TestClassCollection.ClassesOf | junit-vintage-engine/src/main/java/org/junit/vintage/engine/discovery/TestClassCollector.java:34-36 | the classes of the `addFiltered` calls, one per call, in call order |
| TestClassCollection.FiltersForNonEmpty | junit-vintage-engine/src/main/java/org/junit/vintage/engine/discovery/TestClassCollector.java:35 | a class has at least one collected filter iff it was passed to `addFiltered` |
| TestClassCollection.AdditionUnfolds | junit-vintage-engine/src/main/java/org/junit/vintage/engine/discovery/TestClassCollector.java:34-36 | one more call adds its class to the end of the key order unless it is already a key, and appends its filter to that class's list only |
| TestClassCollection.TestClassCollector.constructor | junit-vintage-engine/src/main/java/org/junit/vintage/engine/discovery/TestClassCollector.java:27-32 | keeps the complete classes; the map starts empty and consistent with no calls |
| TestClassCollection.TestClassCollector.AddFiltered | junit-vintage-engine/src/main/java/org/junit/vintage/engine/discovery/TestClassCollector.java:34-36 | a new class becomes the last key with the list [filter]; a known class keeps its position and gets the filter appended; no other entry changes and the map stays the grouping of all calls so far |
| TestClassCollection.TestClassCollector.CompleteRequests | junit-vintage-engine/src/main/java/org/junit/vintage/engine/discovery/TestClassCollector.java:42-44 | one request per complete class, in order, each without filters |
| TestClassCollection.TestClassCollector.FilteredRequests | junit-vintage-engine/src/main/java/org/junit/vintage/engine/discovery/TestClassCollector.java:46-52 | one request per map key, in key order, each carrying every filter added for that class in call order |
| TestClassCollection.TestClassCollector.ToRequests | junit-vintage-engine/src/main/java/org/junit/vintage/engine/discovery/TestClassCollector.java:38-52 | first one request without filters per complete class, in order, then one request per filtered class in key order, each with every filter added for that class, in call order |
| TestClassCollection.FilteredRequestsAreFirstAdditionOrdered | junit-vintage-engine/src/main/java/org/junit/vintage/engine/discovery/TestClassCollector.java:28-52 | the filtered classes are duplicate-free, are exactly the classes passed to `addFiltered`, follow the order of each class's first call, and each has a non-empty filter list |
| CompleteTestClasses.FilterClasses | junit-vintage-engine/src/main/java/org/junit/vintage/engine/discovery/CompleteTestClassesResolver.java:61-69 | keeps exactly the classes that pass the class filter (order and multiplicity are stated by FilterClassesAppend) |
| CompleteTestClasses.FilterClassesAppend | junit-vintage-engine/src/main/java/org/junit/vintage/engine/discovery/CompleteTestClassesResolver.java:61-69 | filtering a list split in two gives the accepted classes of the first part followed by those of the second, and a single class is kept exactly when the filter accepts it; together these fix the result as the in-order filter |
| CompleteTestClasses.ClasspathRoots | junit-vintage-engine/src/main/java/org/junit/vintage/engine/discovery/CompleteTestClassesResolver.java:44-46 | the roots are exactly those of the request's classpath-root selectors (selector order and multiplicity are stated by ClasspathRootsAppend) |
| CompleteTestClasses.ClasspathRootsAppend | junit-vintage-engine/src/main/java/org/junit/vintage/engine/discovery/CompleteTestClassesResolver.java:44-46 | the selectors split in two give the first part's roots followed by the second's, and a single selector gives its root exactly when it is a classpath-root selector; together these fix the result as the in-order map of the matching selectors |
| CompleteTestClasses.PackageNames | junit-vintage-engine/src/main/java/org/junit/vintage/engine/discovery/CompleteTestClassesResolver.java:54-56 | the package names are exactly those of the request's package selectors (selector order and multiplicity are stated by PackageNamesAppend) |
| CompleteTestClasses.PackageNamesAppend | junit-vintage-engine/src/main/java/org/junit/vintage/engine/discovery/CompleteTestClassesResolver.java:54-56 | the selectors split in two give the first part's package names followed by the second's, and a single selector gives its package name exactly when it is a package selector; together these fix the result as the in-order map of the matching selectors |
| CompleteTestClasses.SelectedClasses | junit-vintage-engine/src/main/java/org/junit/vintage/engine/discovery/CompleteTestClassesResolver.java:64-66 | the classes are exactly those of the request's class selectors (selector order and multiplicity are stated by SelectedClassesAppend) |
| CompleteTestClasses.SelectedClassesAppend | junit-vintage-engine/src/main/java/org/junit/vintage/engine/discovery/CompleteTestClassesResolver.java:64-66 | the selectors split in two give the first part's classes followed by the second's, and a single selector gives its class exactly when it is a class selector; together these fix the result as the in-order map of the matching selectors |
| CompleteTestClasses.ResolveClasspathRootSelector | junit-vintage-engine/src/main/java/org/junit/vintage/engine/discovery/CompleteTestClassesResolver.java:41-49 | one list per selected root, in selector order; list i holds exactly the classes under root i that the filter accepts |
| CompleteTestClasses.ResolvePackageSelector | junit-vintage-engine/src/main/java/org/junit/vintage/engine/discovery/CompleteTestClassesResolver.java:51-59 | one list per selected package, in selector order; list i holds exactly the classes in package i that the filter accepts |
| CompleteTestClasses.ResolveClassSelector | junit-vintage-engine/src/main/java/org/junit/vintage/engine/discovery/CompleteTestClassesResolver.java:61-69 | holds exactly the classes named by a class selector that the filter accepts (selector order and multiplicity are stated by ResolveClassSelectorAppend) |
| CompleteTestClasses.ResolveClassSelectorAppend | junit-vintage-engine/src/main/java/org/junit/vintage/engine/discovery/CompleteTestClassesResolver.java:61-69 | selectors split in two give the first part's accepted classes followed by the second's, and a single selector gives its class exactly when it is a class selector whose class the filter accepts |
| CompleteTestClasses.AddAll | junit-vintage-engine/src/main/java/org/junit/vintage/engine/discovery/CompleteTestClassesResolver.java:35-37 | adding classes one by one to a linked hash set gives the set of everything added so far, in first-insertion order |
| CompleteTestClasses.AddEach | junit-vintage-engine/src/main/java/org/junit/vintage/engine/discovery/CompleteTestClassesResolver.java:35-36 | `forEach(testClasses::addAll)` over a stream of lists: the same as adding their concatenation |
| CompleteTestClasses.Resolve | junit-vintage-engine/src/main/java/org/junit/vintage/engine/discovery/CompleteTestClassesResolver.java:32-39 | the result is the linked hash set of the root scans, then the package scans, then the accepted selected classes |
| CompleteTestClasses.FromRootsMember | junit-vintage-engine/src/main/java/org/junit/vintage/engine/discovery/CompleteTestClassesResolver.java:41-49 | a class is among the root results iff the scan of some selected classpath root found it |
| CompleteTestClasses.FromPackagesMember | junit-vintage-engine/src/main/java/org/junit/vintage/engine/discovery/CompleteTestClassesResolver.java:51-59 | a class is among the package results iff the scan of some selected package found it |
| CompleteTestClasses.ResolvedClassesAreTheUnion | junit-vintage-engine/src/main/java/org/junit/vintage/engine/discovery/CompleteTestClassesResolver.java:32-39 | the resolved classes are duplicate-free and are exactly the union of all root scans, all package scans and the accepted selected classes |
| CompleteTestClasses.ResolvedClassesPassTheFilter | junit-vintage-engine/src/main/java/org/junit/vintage/engine/discovery/CompleteTestClassesResolver.java:34 | every resolved class passes both the name predicate and the potential-JUnit-4-class predicate |
| CompleteTestClasses.ResolvedClassesInFirstOccurrenceOrder | junit-vintage-engine/src/main/java/org/junit/vintage/engine/discovery/CompleteTestClassesResolver.java:33-37 | the resolved classes iterate in the order of their first occurrence among root scans, package scans and selected classes |
| Common.InsertionOrderContents | junit-vintage-engine/src/main/java/org/junit/vintage/engine/discovery/CompleteTestClassesResolver.java:33 | a linked hash set holds exactly the elements added to it, each once |
| Common.InsertionOrderIsFirstOccurrenceOrder | junit-vintage-engine/src/main/java/org/junit/vintage/engine/discovery/CompleteTestClassesResolver.java:33 | a linked hash set iterates in the order of each element's first insertion |
| Common.OrdinalInjective | junit-jupiter-engine/src/main/java/org/junit/jupiter/engine/descriptor/TestTemplateTestDescriptor.java:101 | different indices give different "#" + index segment values |
| MethodArguments.SupportingIndices | junit5-engine/src/main/java/org/junit/gen5/engine/junit5/execution/injection/MethodArgumentResolverEngine.java:59-60 | the matching resolvers are exactly those that support the parameter, in registry order |
| MethodArguments.Catch | junit5-engine/src/main/java/org/junit/gen5/engine/junit5/execution/injection/MethodArgumentResolverEngine.java:69-71 | an exception is wrapped in a new `ArgumentResolutionException` with it as the cause; an `Error` is not caught and passes unchanged |
| MethodArguments.MethodArgumentResolverEngine.ResolveArgument | junit5-engine/src/main/java/org/junit/gen5/engine/junit5/execution/injection/MethodArgumentResolverEngine.java:54-72 | two or more supporting resolvers give "Too many resolvers found for parameter: p" and none gives "No resolver found for parameter: p"; every exception, these included, is wrapped in a further `ArgumentResolutionException`; a success, and an `Error` (which the `catch (Exception …)` does not catch), is passed on unchanged from a supporting resolver |
| MethodArguments.SingleSupportingResolverDecides | junit5-engine/src/main/java/org/junit/gen5/engine/junit5/execution/injection/MethodArgumentResolverEngine.java:67-71 | with exactly one supporting resolver, the argument is that resolver's result; an exception it throws comes back wrapped and an `Error` unwrapped |
| MethodArguments.MethodArgumentResolverEngine.PrepareArguments | junit5-engine/src/main/java/org/junit/gen5/engine/junit5/execution/injection/MethodArgumentResolverEngine.java:33-52 | a method without parameters gets the empty list; it succeeds iff every parameter resolves, with one argument per parameter, argument i resolved from parameter i; otherwise it returns the failure of the first parameter that fails, all earlier ones having resolved |

## Left out

- The extension registry, the extension contexts, the logger, `JUnitCore` and `RunListenerAdapter` are collaborators, not modelled code. They appear as inputs: the providers' answers, the run outcome of each runner and the scan results.
- `TestTemplateInvocationTestDescriptor` and `TestFactoryTestDescriptor.createDynamicDescriptor` are not part of this model. Only the values handed to them are modelled. The `"test-template-invocation"` segment type is that class's constant.
- `TestRun` is not part of this model. `isNotStarted` is read off the events the run reported: the runner is not started iff no start for it was reported.
- `ClassFilter` and `ReflectionUtils` are not part of this model. A class filter accepts a class iff its name passes the name predicate and the class passes the class predicate. A scan returns the classes under the root or package, in scan order, that the filter accepts.
- The `toString` of the anonymous always-included filter ends in an identity hash code. The model keeps only the class-name part.
- Exceptions thrown by a filter, a provider, a predicate or a `supports` check are not modelled. Of the exceptions a resolver throws, only those from resolving are modelled.
- `DynamicContainers.DynamicContainerTestDescriptor.Execute`: closing the child stream (try-with-resources) is not modelled.
- The invocation and child counters are Java `int`s (`AtomicInteger`). The model's counters are unbounded, so wrap-around after 2^31 − 1 invocations is not modelled.
- The exception message of `new ArgumentResolutionException(cause)` is left out (`None`). Only the cause is kept.
- Which registry `MethodArgumentResolverEngine` uses (`PrimitiveMethodArgumentResolverRegistry`) is a parameter of the model.
- The order of `completeTestClasses` is the iteration order of the given set, taken as a sequence.
- `TestTemplates.TestTemplateTestDescriptor.AddChild`: a descriptor's children form an insertion-ordered set of descriptors, which are equal when their ids are. The model appends unconditionally. That is the same set on every path `Execute` takes, because the invocation ids it creates are pairwise distinct (InvocationIdsUnique). A template that already holds an invocation with the same id before `execute` runs again is not modelled.
- `VintageExecution.ExecutionEvent` holds the four listener calls: started, finished, skipped and dynamic test registered. Reporting entries are not modelled.
