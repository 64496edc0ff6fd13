# JNLP runtime bootstrap and six smaller cores, modelled in Dafny

This project models the runtime lifecycle and authorization gate of the JNLP
launcher (`JNLPRuntime`). It also models six smaller, self-contained cores
from the same source tree: Hudson's user registry, Geronimo's
substitution-group registry, eXist's XML library version checker, Camel's
HTTP endpoint defaults, Jooby's error handler, and UAA's redirect-target
selection after login.

`JNLPRuntime` keeps its process-wide settings behind the one-way flag
`initialized`. Each setter passes one of two guards first:

- the lifecycle check (`checkInitialized`) rejects every caller once the
  runtime is initialized;
- the exit-class check (`checkExitClass`) rejects a caller only when
  security is enabled, the runtime is initialized, and the caller is not
  the exit class.

`initialize` fills in default strategies, fails without a base directory,
creates the policy and the security manager, and installs both only when
security is enabled (the policy first). It then sets the flag.

Module `JnlpRuntime` (jnlp_runtime.dfy) holds the model in two forms:

- `RuntimeState` is the runtime as a value. It has one function per
  operation and a `Step` that dispatches a `Call`, which is a caller stack
  plus an operation. `Run` applies a sequence of calls. Lemmas about `Step`
  and `Run` prove properties of whole call sequences.
- Class `Runtime` holds the same fields as mutable state. Each of its
  methods is proved to change those fields exactly as the matching
  `RuntimeState` function says.

A thrown exception is an `Outcome` that leaves the state unchanged.

The other modules:

- `JnlpMessages` models `getMessage`.
- `HudsonUser` models `User`.
- `XmlBeansUtil` models the substitution-group registry and the error
  filter of `validateDD`.
- `XmlLibraryChecker` models `hasValidClassVersion` and `check`.
- `HttpCommonEndpoint` models the endpoint defaults, path, port and lazy
  binding.
- `ErrorHandler` models `errorMessage`, `DEFAULT` and `then`.
- `UaaSuccessHandler` models `determineTargetUrl`.
- `JavaLang` holds the `java.lang` behaviour these depend on: null,
  exceptions, `lastIndexOf`, `substring`, `replace`, `trim`, `compareTo`,
  `compareToIgnoreCase` and decimal rendering of an `int`.

Where the code and its design description disagree, the model follows the
code:

- `setInitialArgments` is guarded by the lifecycle check, not the exit-class
  check (14476_JNLPRuntime.java:702-708).
- When "RNoResource" is itself missing, `getMessage` of a missing key gives
  "Missing resource: RNoResource", not "Missing resource: " + key. See
  Findings. The callers of `getMessage` in the runtime use the lookup as
  written, so they show the same behaviour, including its
  NullPointerException. These callers are `initialize`, for both its
  "RConfigurationError" and its "BNoBase" message, and `getMessage(key, args)`.
- The security manager is created by every successful `initialize`. It is
  only installed when security is enabled.

## Model

| member | source | states |
|---|---|---|
| JnlpRuntime.Initial | 14476_JNLPRuntime.java:83-126 | The static defaults: update policy ALWAYS; verify, security and forks on; headless, debug and redirect off; no handler, indicator, base directory or security manager; not initialized |
| JnlpRuntime.RuntimeState.CheckInitialized | 14476_JNLPRuntime.java:642-645 | Fails with "JNLPRuntime already initialized." exactly when the runtime is initialized |
| JnlpRuntime.RuntimeState.CheckExitClass | 14476_JNLPRuntime.java:652-656 | Passes exactly when security is off, or the runtime is not initialized, or the caller is the exit class; otherwise fails with "Caller is not the exit class", or with a NullPointerException when there is no security manager |
| JnlpRuntime.RuntimeState.Set | 14476_JNLPRuntime.java:383-395 | A lifecycle-gated setter succeeds exactly before initialization; afterwards it throws and the state is unchanged |
| JnlpRuntime.RuntimeState.Configure | 14476_JNLPRuntime.java:356-359 | An exit-class-gated setter succeeds exactly when the exit-class check passes; a rejected call leaves the state unchanged |
| JnlpRuntime.RuntimeState.SetExitClass | 14476_JNLPRuntime.java:485-488 | Passes the exit-class check, then records the exit class in the security manager; a NullPointerException while there is no security manager |
| JnlpRuntime.RuntimeState.DisableExit | 14476_JNLPRuntime.java:490-497 | Any caller disables exit in the security manager; a NullPointerException while there is no security manager |
| JnlpRuntime.RuntimeState.SetInitialArguments | 14476_JNLPRuntime.java:702-708 | Lifecycle check first, then AllPermission is demanded when the JVM has a security manager, this runtime's or one other code installed; only success stores the arguments |
| JnlpRuntime.RuntimeState.GetSecurityDialogHandler | 14476_JNLPRuntime.java:446-452 | Throws a SecurityException exactly when the JVM has a security manager (this runtime's or another's) and the caller lacks AllPermission |
| JnlpRuntime.RuntimeState.GetApplication | 14476_JNLPRuntime.java:503-505 | A NullPointerException exactly while there is no security manager |
| JnlpRuntime.RuntimeState.Initialize | 14476_JNLPRuntime.java:182-193 | Throws "already initialized" on an initialized runtime; an application whose configuration fails to load exits with status 1, or with the exception the lookup of its error message throws |
| JnlpRuntime.ConfigurationErrorCases | 14476_JNLPRuntime.java:187-191 | The configuration-error exit is reached unless "RConfigurationError" is missing and "RNoResource" is empty; then a NullPointerException escapes `initialize` |
| JnlpRuntime.NoBaseDirectoryCases | 14476_JNLPRuntime.java:219-220 | The exception for a missing base directory, by bundle: the "BNoBase" text (null when empty); the "RNoResource" pattern formatted with "BNoBase"; "Missing resource: RNoResource" when both keys are missing; a NullPointerException when "RNoResource" is empty |
| JnlpRuntime.RuntimeState.Complete | 14476_JNLPRuntime.java:216-260 | Without a base directory, initialize throws what `new IllegalStateException(getMessage("BNoBase"))` gives with the lookup as written, and keeps the filled-in defaults; otherwise everything is installed |
| JnlpRuntime.Settings.WithDefaults | 14476_JNLPRuntime.java:204-217 | Headless when set or when the "java.awt.headless" property says so; a preset base directory is kept, else the derived one (possibly none) is used; security, verification, stream redirection and forking are unchanged |
| JnlpRuntime.Preferences.WithDefaults | 14476_JNLPRuntime.java:207-214 | After the defaults there is always a launch handler, and a download indicator unless headless; strategies already set are kept |
| JnlpRuntime.HeadlessProperty | 14476_JNLPRuntime.java:661-670 | Headless exactly when the property is set and, with its letters lowered, reads "true"; so "TRUE" counts and an unset property or any other text does not |
| JnlpRuntime.InstallLogContents | 14476_JNLPRuntime.java:222-258 | The policy and the security manager are installed exactly when security is enabled, the policy first; the SSL factory only when it can be created |
| JnlpRuntime.InitializeSucceedsIff | 14476_JNLPRuntime.java:182-262 | initialize succeeds exactly when the runtime is not initialized, the configuration loads or the caller is not an application, and a base directory is preset or derivable |
| JnlpRuntime.InitializeEstablishes | 14476_JNLPRuntime.java:207-260 | After a successful initialize: handler set, indicator set unless headless, base directory set and a preset one unchanged, fresh security manager, the install log appended |
| JnlpRuntime.InitializeFailureKeepsLifecycle | 14476_JNLPRuntime.java:216-220 | A failed initialize leaves the runtime uninitialized, installs nothing and creates no security manager |
| JnlpRuntime.InitializeFailureFillsDefaults | 14476_JNLPRuntime.java:207-220 | A failure at the base directory is not atomic: the handler and the other defaults are already filled in |
| JnlpRuntime.InitializeSucceedsAtMostOnce | 14476_JNLPRuntime.java:182-183 | In any sequence of calls, initialize succeeds at most once, and never once the runtime is initialized |
| JnlpRuntime.StepKeepsInitialized | 14476_JNLPRuntime.java:260 | No call ever resets `initialized` |
| JnlpRuntime.FrozenAfterInitialize | 14476_JNLPRuntime.java:383-439 | After initialization no sequence of calls changes the lifecycle-gated settings, the initial arguments or the installed hooks |
| JnlpRuntime.LifecycleGate | 14476_JNLPRuntime.java:642-645 | Every lifecycle-gated setter on an initialized runtime throws "already initialized" and changes nothing, whoever calls it; before initialization the setters succeed, and setInitialArgments needs AllPermission exactly when the JVM has a security manager |
| JnlpRuntime.ExitClassGate | 14476_JNLPRuntime.java:652-656 | Exit-class-gated setters succeed when security is off or before initialization, except setExitClass, which throws a NullPointerException before initialization; with security on after initialization they succeed exactly for the exit class; a rejected call changes nothing |
| JnlpRuntime.ExitClassChangesOnlyByExitClass | 14476_JNLPRuntime.java:480-488 | Once initialized with security on, only setExitClass called by the exit class changes the exit class |
| JnlpRuntime.ExitStaysDisabled | 14476_JNLPRuntime.java:490-497 | Once exit is disabled, it stays disabled whatever is called afterwards |
| JnlpRuntime.ReachableIsConsistent | 14476_JNLPRuntime.java:224-260 | In every reachable state, the security manager, the policy and the dialog handler exist exactly when initialized, and the installed hooks are one initialize's |
| JnlpRuntime.InstalledInOrder | 14476_JNLPRuntime.java:235-238 | In a reachable state the policy and manager are installed exactly when initialized with security on, the policy before the manager |
| JnlpRuntime.InitialArgumentsPermissionIrrelevant | 14476_JNLPRuntime.java:702-706 | In a reachable state without a security manager from other code, the AllPermission demand of setInitialArgments never changes the outcome; with one, an unprivileged caller gets a SecurityException before initialization |
| JnlpRuntime.Runtime.Initialize | 14476_JNLPRuntime.java:182-262 | The imperative initialize changes the fields exactly as `RuntimeState.Initialize` says |
| JnlpRuntime.Runtime.Install | 14476_JNLPRuntime.java:222-260 | Installs the hooks in order and sets `initialized` last, as `RuntimeState.Install` says |
| JnlpRuntime.Runtime.Perform | 14476_JNLPRuntime.java:356-708 | Every operation performed on the object agrees with `Step` on its snapshot |
| JnlpMessages.GetMessage | 14476_JNLPRuntime.java:600-614 | Present key: its text, with empty read as null; missing key: the "RNoResource" pattern formatted with the key; with no usable pattern: exactly "Missing resource: " + key |
| JnlpMessages.AsWrittenLosesMissingKey | 14476_JNLPRuntime.java:609-612 | As written, with "RNoResource" missing too, the result is "Missing resource: RNoResource", not the key asked for |
| JnlpMessages.AsWrittenThrowsOnEmptyNoResource | 14476_JNLPRuntime.java:603-610 | As written, an empty "RNoResource" makes a missing key throw a NullPointerException |
| JnlpMessages.CorrectedAgreesWithAsWritten | 14476_JNLPRuntime.java:600-614 | The corrected and as-written lookups agree whenever the key exists or "RNoResource" has text |
| JnlpMessages.MissingKeyIsNamed | 14476_JNLPRuntime.java:609-612 | With the usual "Missing resource: {0}" pattern, a missing key gives "Missing resource: " + key |
| JnlpMessages.GetMessageAsWritten | 14476_JNLPRuntime.java:600-614 | `getMessage(key)` as written: it throws exactly when the key is missing and "RNoResource" is empty, and then a NullPointerException; it gives null exactly for a present, empty value |
| JnlpMessages.AsWrittenCases | 14476_JNLPRuntime.java:600-614 | The lookup as written, case by case: present key; missing key with a usable, an empty or no "RNoResource" |
| JnlpMessages.GetMessageWith | 14476_JNLPRuntime.java:622-624 | Over the lookup as written: a present key is formatted, or throws a NullPointerException when empty; a missing key is formatted through the "RNoResource" pattern, throws when that is empty, and gives "Missing resource: RNoResource" when it is missing |
| HudsonUser.Sanitize | 61346_User.java:271 | Every '\\' and '/' becomes '_', nothing else changes; the result has neither character |
| HudsonUser.SanitizeIdempotent | 61346_User.java:271 | Sanitizing is idempotent and leaves sanitized ids as they are |
| HudsonUser.Registry.Get | 61346_User.java:268-281 | Null id gives null; a registered sanitized id gives the same object; absent with create: a new user under the sanitized id, named as its record says or by that id; absent without create: null, nothing added; at most one entry added |
| HudsonUser.Registry.GetOrCreate | 61346_User.java:286-288 | `get(id)` never returns null for a non-null id, and registers the result under the sanitized id |
| HudsonUser.Registry.LookupTwice | 61346_User.java:273-280 | Two lookups of ids that sanitize alike return the same object, and the registry grows by at most one |
| HudsonUser.User.constructor | 61346_User.java:107-111 | A new user's full name is the stored one when the record on disk has one, else its id; its properties are what `load` leaves |
| HudsonUser.User.Load | 61346_User.java:120-145 | A stored full name is restored; of the stored properties the nulls are dropped in order; each descriptor without an instance of its class adds its non-null default instance |
| HudsonUser.WithDefaultsCovers | 61346_User.java:137-145 | After load, every descriptor whose default instance exists has an instance of its class in the list |
| HudsonUser.LoadedPropertiesWin | 61346_User.java:137-145 | A loaded property is still the one found for its class after the defaults are added |
| HudsonUser.User.SetFullName | 61346_User.java:187-190 | A null or blank name stores the id; any other name is stored exactly as given |
| HudsonUser.User.GetProperty | 61346_User.java:229-235 | The first property that is an instance of the class, or null when there is none |
| HudsonUser.Replaced | 61346_User.java:207-216 | The first property of p's class is removed, the others keep their order, and p is last |
| HudsonUser.User.AddProperty | 61346_User.java:207-216 | The property list becomes `Replaced(old list, p)` |
| HudsonUser.AddedPropertyIsFound | 61346_User.java:207-235 | With at most one property of p's class before, getProperty of that class finds p after addProperty |
| HudsonUser.DuplicateShadowsAddedProperty | 61346_User.java:207-235 | With two properties of p's class before, the second one still shadows p |
| HudsonUser.User.Url | 61346_User.java:156-158 | "user/" followed by the id |
| HudsonUser.User.SearchUrl | 61346_User.java:160-162 | "/" followed by the user URL |
| HudsonUser.CompareUsers | 61346_User.java:113-115 | Users compare equal exactly when their ids are equal; swapping them negates the result |
| HudsonUser.CompareUsersTransitive | 61346_User.java:113-115 | The ordering of users is transitive |
| HudsonUser.User.HasPermission | 61346_User.java:499-507 | Any permission is granted when the authenticated name is the user's id; otherwise the base ACL decides |
| XmlBeansUtil.Union | 49564_XmlBeansUtil.java:161-167 | A name is in the union exactly when it is in either set |
| XmlBeansUtil.DifferenceMembers | 49564_XmlBeansUtil.java:169-175 | The old set intersected with the inverse of the given set is the set difference |
| XmlBeansUtil.RegisterThenUnregister | 49564_XmlBeansUtil.java:161-175 | Unregistering what was just registered leaves exactly the old members not in the removed set |
| XmlBeansUtil.SubstitutionGroups.Register | 49564_XmlBeansUtil.java:161-167 | A new group stores the given set as-is; a known group stores the union with its old set |
| XmlBeansUtil.SubstitutionGroups.Unregister | 49564_XmlBeansUtil.java:169-175 | No-op for an unknown group or a null set; otherwise the key stays and holds the difference |
| XmlBeansUtil.SubstitutionGroups.SetFor | 49564_XmlBeansUtil.java:177-179 | Null exactly for a group never registered, else its set |
| XmlBeansUtil.SubstitutionGroups.Select | 49564_XmlBeansUtil.java:181-186 | No elements for an unregistered group; else exactly the children whose name is in the group's set, in document order |
| XmlBeansUtil.SelectChildrenAppend | 49564_XmlBeansUtil.java:185 | Selecting children keeps document order: it distributes over concatenation |
| XmlBeansUtil.SubstitutionGroups.IsExplained | 49564_XmlBeansUtil.java:205-216 | The inner loop finds an expected name whose set contains the offending name exactly when the error is explained |
| XmlBeansUtil.SubstitutionGroups.RemoveExplained | 49564_XmlBeansUtil.java:203-218 | The iterator loop leaves exactly the unexplained errors, in order |
| XmlBeansUtil.SubstitutionGroups.UnexplainedMembers | 49564_XmlBeansUtil.java:203-218 | An error survives the filter exactly when it is not explained |
| XmlBeansUtil.SubstitutionGroups.UnexplainedAppend | 49564_XmlBeansUtil.java:203-218 | The filter keeps relative order: it distributes over concatenation |
| XmlBeansUtil.SubstitutionGroups.BuildReport | 49564_XmlBeansUtil.java:221-227 | The buffer is the header, then each remaining error followed by a blank line, then the descriptor |
| XmlBeansUtil.ErrorReport | 49564_XmlBeansUtil.java:221-227 | The message always begins "Invalid deployment descriptor: errors:" |
| XmlBeansUtil.ListingShowsEach | 49564_XmlBeansUtil.java:223-225 | Every remaining error appears in the listing, in its place |
| XmlBeansUtil.SubstitutionGroups.ValidateDD | 49564_XmlBeansUtil.java:195-228 | Throws exactly when the descriptor is invalid and some error is unexplained, with every such error in the message |
| XmlLibraryChecker.GetClassName | 20404_XmlLibraryChecker.java:76-86 | Input unchanged without '@'; otherwise the prefix before the last '@' |
| XmlLibraryChecker.SplitVersionFunctionParts | 20404_XmlLibraryChecker.java:310-315 | Split succeeds exactly when the last '.' precedes the last '('; class name before the last '.', method name up to the last '('; otherwise StringIndexOutOfBounds |
| XmlLibraryChecker.Verdict | 20404_XmlLibraryChecker.java:186-213 | False exactly when no candidate stops the loop; true exactly when the first stop is a good-enough version |
| XmlLibraryChecker.VerdictWithoutThrows | 20404_XmlLibraryChecker.java:186-213 | Without a failing lookup, the result is true exactly when some candidate's version compares case-insensitively at least its required one |
| XmlLibraryChecker.HasValidClassVersion | 20404_XmlLibraryChecker.java:179-214 | Returns the verdict, and appends to the caller's buffer exactly the header, one line per examined candidate and, on failure, the warning and hint |
| XmlLibraryChecker.LaterCandidatesIgnored | 20404_XmlLibraryChecker.java:194-197 | Candidates after the first stop change neither the result nor the message |
| XmlLibraryChecker.ReportStartsWithHeader | 20404_XmlLibraryChecker.java:184 | The appended text starts with "Looking for a valid " + type + "..." |
| XmlLibraryChecker.ReportEndsWithOk | 20404_XmlLibraryChecker.java:194-197 | When a valid candidate is found, the appended text ends with "OK!" and a separator |
| XmlLibraryChecker.ReportEndsWithWarning | 20404_XmlLibraryChecker.java:207-211 | When none is found, the appended text ends with the warning and the class-path hint |
| XmlLibraryChecker.StringBuilder.Append | 20404_XmlLibraryChecker.java:184-211 | The buffer is only ever appended to |
| XmlLibraryChecker.NewerXercesRejected | 20404_XmlLibraryChecker.java:194-195 | Lexicographic comparison ranks "Xerces-J 2.10.0" below the required "Xerces-J 2.9.1" |
| XmlLibraryChecker.Check | 20404_XmlLibraryChecker.java:130-163 | An invalid version is found exactly when the parser, transformer or resolver check fails; an exception from a version lookup propagates, the checks running in that order |
| HttpCommonEndpoint.Endpoint.constructor | 292111_HttpCommonEndpoint.java:40-111 | Defaults: throwExceptionOnFailure, chunked and copyHeaders on, okStatusCodeRange "200-299", no binding |
| HttpCommonEndpoint.Endpoint.Path | 292111_HttpCommonEndpoint.java:157-160 | A NullPointerException when the URI has no path; "/" for an empty path; the path otherwise |
| HttpCommonEndpoint.Endpoint.Port | 292111_HttpCommonEndpoint.java:162-171 | The URI port when not -1; else 443 for "https" and 80 for any other scheme |
| HttpCommonEndpoint.PortIsValid | 292111_HttpCommonEndpoint.java:162-171 | The derived port is in 0..65535 whenever the URI port is absent or valid |
| HttpCommonEndpoint.Endpoint.GetBinding | 292111_HttpCommonEndpoint.java:139-148 | With no binding, creates one copying the filter strategy, transferException and eagerCheckContentAvailable; otherwise returns the existing one |
| HttpCommonEndpoint.Endpoint.SetBinding | 292111_HttpCommonEndpoint.java:153-155 | Replaces the binding |
| HttpCommonEndpoint.Endpoint.SetTransferException | 292111_HttpCommonEndpoint.java:312-314 | Stores the transfer-exception flag and nothing else; a binding created earlier keeps its copy (see CopiedAtCreation) |
| HttpCommonEndpoint.Endpoint.GetBindingTwice | 292111_HttpCommonEndpoint.java:139-148 | Two getBinding calls return the same object |
| HttpCommonEndpoint.Endpoint.CopiedAtCreation | 292111_HttpCommonEndpoint.java:143-145 | An option changed after the binding was created does not reach it |
| ErrorHandler.ErrorMessageFields | 293371_ErrorHandler.java:109-119 | When method and path hold no space, the log line splits back into the method, the path, the decimal status value and the reason |
| ErrorHandler.MessageLineIff | 293371_ErrorHandler.java:54-56 | The "message:" line appears exactly when the cause message is non-null and differs from the status code's text, and it holds that message |
| ErrorHandler.PageEndsWithStatus | 293371_ErrorHandler.java:57-60 | Every page ends with the "status code:" line and the closing tags |
| ErrorHandler.BuildPage | 293371_ErrorHandler.java:33-60 | The builder's appends produce exactly the HTML page |
| ErrorHandler.JsonMessage | 293371_ErrorHandler.java:67 | The cause message, or the status reason when it is null |
| ErrorHandler.JsonBodyShape | 293371_ErrorHandler.java:70-71 | The body opens with `{"message":"`, then the message, and closes with `"}` |
| ErrorHandler.Default | 293371_ErrorHandler.java:27-73 | HTML when negotiation yields null or html, JSON otherwise; the response code is the status and the type matches the branch; the response is started |
| ErrorHandler.ApplyDefault | 293371_ErrorHandler.java:30-72 | The imperative branch logic leaves the context exactly as `Default` says |
| ErrorHandler.ThenRunsNextIff | 293371_ErrorHandler.java:91-98 | The first handler always runs; `next` runs exactly when the response has not started |
| ErrorHandler.NothingRunsAfterDefault | 293371_ErrorHandler.java:62-98 | A handler chained after DEFAULT never runs, since DEFAULT always sends |
| ErrorHandler.ThenAssociative | 293371_ErrorHandler.java:91-98 | Chaining handlers is associative |
| UaaSuccessHandler.IsApprovedFormRedirectUri | 46071_UaaSavedRequestAwareAuthenticationSuccessHandler.java:50-61 | Null or malformed URIs are not approved; a well-formed one exactly when its host equals the server name |
| UaaSuccessHandler.DetermineTargetUrl | 46071_UaaSavedRequestAwareAuthenticationSuccessHandler.java:37-48 | A set override attribute wins (a ClassCastException when not a String); else an approved form URI; else the inherited target |
| UaaSuccessHandler.OverrideIgnoresForm | 46071_UaaSavedRequestAwareAuthenticationSuccessHandler.java:38-42 | With an override attribute, the form parameters, host parser and inherited target do not matter |
| UaaSuccessHandler.FormTargetNeedsOwnHost | 46071_UaaSavedRequestAwareAuthenticationSuccessHandler.java:43-44 | Without an override, any result other than the inherited target is the form URI, whose host is the server's |
| UaaSuccessHandler.ApprovedFormReturned | 46071_UaaSavedRequestAwareAuthenticationSuccessHandler.java:43-44 | Without an override, a form URI whose host is the server's is the target |
| UaaSuccessHandler.UnapprovedFallsThrough | 46071_UaaSavedRequestAwareAuthenticationSuccessHandler.java:45-60 | A missing, malformed or foreign form URI falls through to the inherited target |

## Left out

- Concurrency: `initMutex`, the `volatile` fields, `synchronized` blocks, and the daemon thread that `startSecurityThreads` starts with its FIFO of security prompts. The model records only that the dialog handler exists after `initialize`.
- JnlpRuntime.SecurityManager.IsExitClass: `JNLPSecurityManager` is not part of this model. Its stack inspection is assumed: any caller qualifies while no exit class is set; otherwise the exit class must be on the caller's stack, which is an explicit parameter.
- The process exit that `disableExit` forbids is in `JNLPSecurityManager` too. `disableExit` is modelled as a one-way flag of the security manager.
- The getters of `JNLPRuntime`, `User` and `HttpCommonEndpoint` (`isHeadless`, `getBaseDir`, `getFullName`, `getProtocol` and the like) read one field and nothing else. They are the fields of `RuntimeState`, `Runtime`, `User` and `Endpoint`.
- I/O and environment in `initialize`: the configuration load, the system properties, icon loading, the base directory lookup, and whether an SSL context can be made. These are fields of the `Environment` input. `initializeStreams`, `System.setProperty`, the look and feel, the `ParserDelegator` hack and the output of the configuration-error message before `System.exit(1)` are left out. The lookup of that message is modelled; the exit is the `Exit(1)` outcome.
- What the installed policy, security manager, SSL socket factory, authenticator and proxy selector do. The model records only which ones are installed and in what order.
- `getDefaultBaseDir`'s properties file and directory creation. Its result is an input. `loadResources` is left out too: the resource bundle is a map given at construction.
- JnlpMessages.Format: `MessageFormat` is reduced to substituting every "{0}". Quoting and the other argument forms are left out.
- JavaLang.CompareToIgnoreCase and JavaLang.EqualsIgnoreCase fold ASCII letters only. Java also folds other Unicode letters.
- XStream persistence in `User`: the unmarshalling in `load` (its result is inputs: the stored full name and property list) and `save`. Also left out: `getAll`, `current`, `getUnknown`, RSS, builds and projects, Stapler request handling, `description`, `getProperties`, and `p.setUser(this)`.
- HudsonUser.UserProperty: property equality is value equality here. `ArrayList.remove(Object)` compares with `equals()`, which `UserProperty` does not override, so in the source it removes the first element identical to the one found. The first instance found by `getProperty` is that same element under both comparisons.
- In `XmlBeansUtil`: the `parse` overloads, `createXmlOptions` and `typedCopy`. `validate()` is foreign, so its verdict and error list are inputs. The ignored `NullPointerException`/`AssertionError` catch is left out. A `QNameSet` is modelled as a finite or co-finite set of names.
- In `XmlLibraryChecker`: the reflective call behind `getActualVersion` (its result is an input per candidate), `determineActual*Class`, logging and stderr output. `hasValidParser` and `hasValidTransformer` only call `hasValidClassVersion` and are not modelled separately.
- In `HttpCommonEndpoint`: the getters and setters of the options other than the transfer-exception flag, `connect`/`disconnect`, and the component wiring.
- In `ErrorHandler`: the log call, the mechanics of `ctx.accept` (its answer is a field of the context), and `StatusCode.toString()` (its text is a field of the status code).
- In the UAA handler: `java.net.URL`'s host parser is an abstract partial function, `super.determineTargetUrl` is an input, and logging is left out.
- ErrorHandler.Then carries no contract of its own; ThenRunsNextIff states what it does.
- ErrorHandler.Handler: handlers are total functions, so a first handler that throws, which skips `next` in the source, is not represented.
- JnlpRuntime.RuntimeState.SetExitClass: what `JNLPSecurityManager.setExitClass` does is not part of this model. It is modelled as a plain assignment, so a second call overwrites the exit class and a null argument clears it; a set-once, never-cleared exit class is not enforced.
- JnlpRuntime.Run: after an `Exit` outcome the process ends in the source, while `Run` goes on with the later calls; the lemmas over `Run` cover those extra runs as well.
- JnlpRuntime.RuntimeState.SystemManager: whether other code installed a JVM-wide security manager is an input of each call that asks; its installation and its own checks are not modelled.
- Strings are sequences of Unicode scalar values, not UTF-16 code units. Indices in `lastIndexOf`, `substring` and `trim`, and the sign of `compareTo` on characters outside the Basic Multilingual Plane, differ from Java.
- XmlBeansUtil.SubstitutionGroups.Register: the set is never null. The source stores null for a new group when `register(g, null)` is called.

## Findings

| source | as written | input that shows it | evidently intended | confidence | as-written member | corrected member |
|---|---|---|---|---|---|---|
| 14476_JNLPRuntime.java:609-612 | a missing key is reported through `getMessage("RNoResource", key)`; when "RNoResource" is missing too, the inner fallback names "RNoResource" and the pattern has no "{0}", so the key is lost | a bundle with neither "X" nor "RNoResource"; `getMessage("X")` gives "Missing resource: RNoResource" | "Missing resource: X" | medium, not executed | JnlpMessages.AsWrittenLosesMissingKey | JnlpMessages.GetMessage |
| 14476_JNLPRuntime.java:603-610 | an empty "RNoResource" reads as null, and `MessageFormat.format(null, …)` throws | a bundle mapping "RNoResource" to "" without "X"; `getMessage("X")` throws a NullPointerException | a total lookup that names the key | medium, not executed | JnlpMessages.AsWrittenThrowsOnEmptyNoResource | JnlpMessages.GetMessage |
