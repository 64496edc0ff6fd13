/** The JNLP runtime environment: process-wide settings behind a one-way
    `initialized` flag, the two guards that protect their setters (the
    lifecycle check and the exit-class check), and `initialize`, which fills
    in default strategies, installs the security policy and manager, and
    sets the flag.

    The runtime is modelled twice, as the class is specified: `RuntimeState`
    and its member functions are the state machine (one `Step` per call),
    and class `Runtime` holds the same settings as mutable fields, each of
    its methods proved to change them exactly as `Step` says. Properties of
    whole call sequences are lemmas about `Run`. */
module JnlpRuntime {
  import opened JavaLang
  import JnlpMessages

  /** A class, identified by name. */
  type ClassId = string
  /** The classes on the stack of a call: what the security manager inspects. */
  type CallStack = seq<ClassId>
  type Path = string

  datatype UpdatePolicy = Always | OtherPolicy(name: string)
  datatype LaunchHandler = DefaultLaunchHandler | AppLaunchHandler(id: nat)
  datatype DownloadIndicator = DefaultDownloadIndicator | AppDownloadIndicator(id: nat)
  datatype Image = NetxIcon | AppImage(id: nat)
  datatype ApplicationInstance = ApplicationInstance(id: nat)

  /** The state of the installed `JNLPSecurityManager` that this runtime uses:
      the exit class and whether exit has been disabled. */
  datatype SecurityManager = SecurityManager(exitClass: Option<ClassId>, exitDisabled: bool)
  {
    /** `isExitClass()`: any caller qualifies while no exit class is set;
        otherwise the exit class must be on the caller's stack. */
    predicate IsExitClass(caller: CallStack) {
      exitClass.None? || exitClass.value in caller
    }
  }

  /** The process-wide hooks `initialize` installs, in the order it installs them. */
  datatype Installation =
    | ServiceManagerStub | PolicySet | SecurityManagerSet
    | SslSocketFactorySet | AuthenticatorSet | ProxySelectorSet

  /** What `initialize` learns from its surroundings. */
  datatype Environment = Environment(
    configLoads: bool,            // the deployment configuration loads without error
    awtHeadless: Option<string>,  // the "java.awt.headless" system property
    iconLoads: bool,              // the netx icon resource can be read
    defaultBaseDir: Option<Path>, // what getDefaultBaseDir() finds or creates
    sslAvailable: bool)           // an SSL context can be created

  datatype Outcome = Done | Raised(exception: Exception) | Exit(status: int)

  datatype Transition = Transition(state: RuntimeState, outcome: Outcome)

  const AlreadyInitialized := IllegalStateException(Some("JNLPRuntime already initialized."))
  const NotExitClass := IllegalStateException(Some("Caller is not the exit class"))

  /** `new IllegalStateException(getMessage("BNoBase"))`, with the lookup as
      written: the exception the lookup itself throws propagates instead. */
  function NoBaseDirectory(resources: JnlpMessages.Resources): Exception {
    match JnlpMessages.GetMessageAsWritten(resources, "BNoBase")
    case Ok(message) => IllegalStateException(message)
    case Thrown(e) => e
  }

  /** What `initialize` throws without a base directory, by bundle: the
      "BNoBase" text; a missing "BNoBase" reported through the
      "RNoResource" pattern, or as "Missing resource: RNoResource" when that
      is missing too; and a NullPointerException when "RNoResource" is empty. */
  lemma NoBaseDirectoryCases(resources: JnlpMessages.Resources)
    ensures "BNoBase" in resources && resources["BNoBase"] != [] ==>
              NoBaseDirectory(resources) == IllegalStateException(Some(resources["BNoBase"]))
    ensures "BNoBase" in resources && resources["BNoBase"] == [] ==>
              NoBaseDirectory(resources) == IllegalStateException(None)
    ensures "BNoBase" !in resources && JnlpMessages.NoResourceKey in resources &&
            resources[JnlpMessages.NoResourceKey] != [] ==>
              NoBaseDirectory(resources) ==
                IllegalStateException(Some(JnlpMessages.Format(resources[JnlpMessages.NoResourceKey], "BNoBase")))
    ensures "BNoBase" !in resources && JnlpMessages.NoResourceKey in resources &&
            resources[JnlpMessages.NoResourceKey] == [] ==>
              NoBaseDirectory(resources) == NullPointerException
    ensures "BNoBase" !in resources && JnlpMessages.NoResourceKey !in resources ==>
              NoBaseDirectory(resources) ==
                IllegalStateException(Some(JnlpMessages.MissingPrefix + JnlpMessages.NoResourceKey))
  {
    JnlpMessages.AsWrittenCases(resources, "BNoBase");
  }

  /** An application whose configuration does not load:
      `getMessage("RConfigurationError")` goes to standard output and the JVM exits with
      status 1, unless the lookup as written throws first. */
  function ConfigurationError(resources: JnlpMessages.Resources): Outcome {
    match JnlpMessages.GetMessageAsWritten(resources, "RConfigurationError")
    case Ok(_) => Exit(1)
    case Thrown(e) => Raised(e)
  }

  /** The exit is reached unless "RConfigurationError" is missing and the
      "RNoResource" pattern is empty: then the NullPointerException of the
      lookup escapes `initialize`. */
  lemma ConfigurationErrorCases(resources: JnlpMessages.Resources)
    ensures ConfigurationError(resources) ==
              if "RConfigurationError" !in resources && JnlpMessages.NoResourceKey in resources &&
                 resources[JnlpMessages.NoResourceKey] == []
              then Raised(NullPointerException)
              else Exit(1)
  {
    JnlpMessages.AsWrittenCases(resources, "RConfigurationError");
  }

  /** What `initialize` installs: the policy before the security manager,
      both only when security is enabled; the SSL socket factory only when
      an SSL context can be created. */
  function InstallLog(securityEnabled: bool, sslAvailable: bool): seq<Installation>
  {
    [ServiceManagerStub]
    + (if securityEnabled then [PolicySet, SecurityManagerSet] else [])
    + (if sslAvailable then [SslSocketFactorySet] else [])
    + [AuthenticatorSet, ProxySelectorSet]
  }

  /** What `InstallLog` installs and in which order: the policy and the
      security manager exactly when security is enabled, the policy first;
      the SSL socket factory exactly when it can be created; the
      authenticator and the proxy selector always. */
  lemma InstallLogContents(securityEnabled: bool, sslAvailable: bool)
    ensures var log := InstallLog(securityEnabled, sslAvailable);
      && |log| == 3 + (if securityEnabled then 2 else 0) + (if sslAvailable then 1 else 0)
      && (PolicySet in log <==> securityEnabled)
      && (SecurityManagerSet in log <==> securityEnabled)
      && (securityEnabled ==> log[1] == PolicySet && log[2] == SecurityManagerSet)
      && (forall i, j :: 0 <= i < |log| && 0 <= j < |log| && log[i] == PolicySet && log[j] == SecurityManagerSet ==> i < j)
      && (SslSocketFactorySet in log <==> sslAvailable)
      && AuthenticatorSet in log && ProxySelectorSet in log
  {
  }

  /** The hooks of `InstallLog` appended to `log` one by one, in the order
      `initialize` installs them. */
  function Installing(log: seq<Installation>, securityEnabled: bool, sslAvailable: bool): (r: seq<Installation>)
    ensures r == log + InstallLog(securityEnabled, sslAvailable)
  {
    var stub := log + [ServiceManagerStub];
    var secured := if securityEnabled then stub + [PolicySet] + [SecurityManagerSet] else stub;
    var ssl := if sslAvailable then secured + [SslSocketFactorySet] else secured;
    ssl + [AuthenticatorSet, ProxySelectorSet]
  }

  /** A strategy that was not set, set to its default. */
  function OrElse<T>(current: Option<T>, fallback: T): (r: Option<T>)
    ensures r.Some?
    ensures current.Some? ==> r == current
    ensures current.None? ==> r == Some(fallback)
  {
    if current.None? then Some(fallback) else current
  }

  /** A value that was not set, taken from elsewhere (which may be null too). */
  function Either<T>(current: Option<T>, fallback: Option<T>): (r: Option<T>)
    ensures r.None? <==> current.None? && fallback.None?
    ensures current.Some? ==> r == current
    ensures current.None? ==> r == fallback
  {
    if current.None? then fallback else current
  }

  /** A graphical strategy: defaulted only when not headless. */
  function UnlessHeadless<T>(current: Option<T>, headless: bool, fallback: T): (r: Option<T>)
    ensures headless ==> r == current
    ensures !headless ==> r == OrElse(current, fallback)
  {
    if headless then current else OrElse(current, fallback)
  }

  /** loadWindowIcon, run only when not headless: an icon already set is
      kept; otherwise the netx icon if it can be read. */
  function LoadWindowIcon(current: Option<Image>, headless: bool, iconLoads: bool): (r: Option<Image>)
    ensures current.Some? || headless ==> r == current
    ensures current.None? && !headless ==> (r.Some? <==> iconLoads)
  {
    if !headless && current.None? && iconLoads then Some(NetxIcon) else current
  }

  /** checkHeadless: the property "java.awt.headless" equal to "true" in any case. */
  function HeadlessProperty(property: Option<string>): (r: bool)
    ensures r <==> property.Some? && ToLowerAsciiString(property.value) == "true"
    ensures property == Some("true") ==> r
    ensures property == Some("TRUE") ==> r
    ensures property.None? ==> !r
  {
    assert ToLowerAsciiString("true") == "true";
    assert ToLowerAsciiString("TRUE") == "true";
    property.Some? && EqualsIgnoreCase(property.value, "true")
  }

  /** A call: who makes it and which operation. */
  datatype Call = Call(caller: CallStack, op: Op)

  /** The assignments of the settings fixed at initialization: their
      setters call checkInitialized. */
  datatype Setting =
    | Headless(enabled: bool)
    | Verify(enabled: bool)
    | BaseDir(dir: Option<Path>)
    | SecurityEnabled(enabled: bool)
    | RedirectStreams(enabled: bool)
    | ForksAllowed(enabled: bool)

  /** The assignments of the strategies and switches that only the exit
      class may change once secured: their setters call checkExitClass. */
  datatype Preference =
    | WindowIcon(image: Option<Image>)
    | Debug(enabled: bool)
    | DefaultUpdatePolicy(policy: Option<UpdatePolicy>)
    | DefaultHandler(handler: Option<LaunchHandler>)
    | DefaultIndicator(indicator: Option<DownloadIndicator>)

  /** The operations that change the runtime: initialize, the setters of
      the two guarded groups, setInitialArgments, setExitClass and disableExit. */
  datatype Op =
    | Initialize(isApplication: bool, env: Environment)
    | Set(setting: Setting)
    | SetInitialArguments(args: Option<seq<string>>, hasAllPermission: bool, foreignManager: bool)
    | Configure(preference: Preference)
    | SetExitClass(exitClass: Option<ClassId>)
    | DisableExit
  {
    /** Setters guarded by checkInitialized. */
    predicate IsLifecycleGated() { Set? || SetInitialArguments? }

    /** Setters guarded by checkExitClass. */
    predicate IsExitClassGated() { Configure? || SetExitClass? }
  }

  /** The static fields that `initialize` freezes: every setter of theirs
      calls checkInitialized. */
  datatype Settings = Settings(
    headless: bool,
    verify: bool,
    baseDir: Option<Path>,
    securityEnabled: bool,
    redirectStreams: bool,
    forksAllowed: bool)
  {
    /** The assignment a lifecycle setter makes. */
    function Apply(setting: Setting): Settings {
      match setting
      case Headless(enabled) => this.(headless := enabled)
      case Verify(enabled) => this.(verify := enabled)
      case BaseDir(dir) => this.(baseDir := dir)
      case SecurityEnabled(enabled) => this.(securityEnabled := enabled)
      case RedirectStreams(enabled) => this.(redirectStreams := enabled)
      case ForksAllowed(enabled) => this.(forksAllowed := enabled)
    }

    /** What `initialize` fills in: headless when the property says so, and
        the default base directory when none was set. */
    function WithDefaults(env: Environment): (r: Settings)
      ensures r.headless <==> headless || HeadlessProperty(env.awtHeadless)
      ensures r.baseDir.Some? <==> baseDir.Some? || env.defaultBaseDir.Some?
      ensures baseDir.Some? ==> r.baseDir == baseDir
      ensures baseDir.None? ==> r.baseDir == env.defaultBaseDir
      ensures r.securityEnabled == securityEnabled
      ensures r.verify == verify && r.redirectStreams == redirectStreams && r.forksAllowed == forksAllowed
    {
      this.(headless := headless || HeadlessProperty(env.awtHeadless),
            baseDir := Either(baseDir, env.defaultBaseDir))
    }
  }

  /** The static fields that, once the runtime is secured, only the exit
      class may change: every setter of theirs calls checkExitClass. */
  datatype Preferences = Preferences(
    windowIcon: Option<Image>,
    debug: bool,
    updatePolicy: Option<UpdatePolicy>,
    handler: Option<LaunchHandler>,
    indicator: Option<DownloadIndicator>)
  {
    /** The assignment an exit-class-gated setter makes. */
    function Choose(preference: Preference): Preferences {
      match preference
      case WindowIcon(image) => this.(windowIcon := image)
      case Debug(enabled) => this.(debug := enabled)
      case DefaultUpdatePolicy(p) => this.(updatePolicy := p)
      case DefaultHandler(h) => this.(handler := h)
      case DefaultIndicator(i) => this.(indicator := i)
    }

    /** The default strategies `initialize` fills in where none was set:
        the icon and the download indicator only when not headless. */
    function WithDefaults(headless: bool, iconLoads: bool): (r: Preferences)
      ensures r.handler.Some? && (handler.Some? ==> r.handler == handler)
      ensures headless ==> r.indicator == indicator && r.windowIcon == windowIcon
      ensures !headless ==> r.indicator.Some? && (indicator.Some? ==> r.indicator == indicator)
      ensures r.debug == debug && r.updatePolicy == updatePolicy
    {
      this.(windowIcon := LoadWindowIcon(windowIcon, headless, iconLoads),
            indicator := UnlessHeadless(indicator, headless, DefaultDownloadIndicator),
            handler := OrElse(handler, DefaultLaunchHandler))
    }
  }

  /** The static fields of JNLPRuntime. `security` is null until
      `initialize` creates the security manager. */
  datatype RuntimeState = RuntimeState(
    resources: JnlpMessages.Resources,
    settings: Settings,
    preferences: Preferences,
    security: Option<SecurityManager>,
    policy: bool,
    dialogHandler: bool,
    initialized: bool,
    isWebstartApplication: bool,
    initialArguments: Option<seq<string>>,
    installed: seq<Installation>)
  {
    /** `System.getSecurityManager() != null`: this runtime installed its
        manager, or other code in the JVM installed one of its own. */
    predicate SystemManager(foreignManager: bool) {
      SecurityManagerSet in installed || foreignManager
    }

    /** checkInitialized: rejects every caller once the runtime is initialized. */
    function CheckInitialized(): (r: Option<Exception>)
      ensures r.Some? <==> initialized
      ensures r.Some? ==> r.value == AlreadyInitialized
    {
      if initialized then Some(AlreadyInitialized) else None
    }

    /** checkExitClass: rejects a caller only when security is enabled, the
        runtime is initialized and the caller is not the exit class (and
        dereferences the security manager to find that out). */
    function CheckExitClass(caller: CallStack): (r: Option<Exception>)
      ensures r.None? <==>
                !settings.securityEnabled || !initialized || (security.Some? && security.value.IsExitClass(caller))
      ensures r.Some? ==> r.value == (if security.None? then NullPointerException else NotExitClass)
    {
      if settings.securityEnabled && initialized then
        if security.None? then Some(NullPointerException)
        else if !security.value.IsExitClass(caller) then Some(NotExitClass)
        else None
      else None
    }

    /** The first part of initialize: the defaults of the settings and the
        strategies filled in, and the kind of client recorded. */
    function FillDefaults(isApplication: bool, env: Environment): (f: RuntimeState)
      ensures f.settings == settings.WithDefaults(env)
      ensures f.preferences == preferences.WithDefaults(f.settings.headless, env.iconLoads)
      ensures f.isWebstartApplication == isApplication
      ensures f.initialized == initialized && f.security == security && f.installed == installed
      ensures f.policy == policy && f.dialogHandler == dialogHandler
    {
      var settings' := settings.WithDefaults(env);
      this.(isWebstartApplication := isApplication,
            settings := settings',
            preferences := preferences.WithDefaults(settings'.headless, env.iconLoads))
    }

    /** The second part of initialize: the policy, a fresh security manager
        and the dialog handler created, the process-wide hooks installed,
        and the runtime marked initialized. */
    function Install(sslAvailable: bool): (f: RuntimeState)
      ensures f.initialized && f.policy && f.dialogHandler
      ensures f.security == Some(SecurityManager(None, false))
      ensures f.installed == installed + InstallLog(settings.securityEnabled, sslAvailable)
      ensures f.settings == settings && f.preferences == preferences
    {
      this.(
        policy := true,
        security := Some(SecurityManager(None, false)),
        dialogHandler := true,
        installed := installed + InstallLog(settings.securityEnabled, sslAvailable),
        initialized := true)
    }

    /** initialize(isApplication): rejected once initialized; a
        configuration that does not load ends an application with status 1
        (or with the exception its error message lookup throws);
        otherwise the defaults are filled in and, given a base directory,
        everything is installed. */
    function Initialize(isApplication: bool, env: Environment): (t: Transition)
      ensures initialized ==> t == Transition(this, Raised(AlreadyInitialized))
      ensures !initialized && !env.configLoads && isApplication ==>
                t == Transition(this, ConfigurationError(resources))
    {
      if initialized then Transition(this, Raised(AlreadyInitialized))
      else if !env.configLoads && isApplication then Transition(this, ConfigurationError(resources))
      else FillDefaults(isApplication, env).Complete(env.sslAvailable)
    }

    /** The rest of initialize once the defaults are filled in: without a
        base directory it throws, keeping what was filled in; otherwise the
        hooks are installed. */
    function Complete(sslAvailable: bool): (t: Transition)
      ensures t.outcome == Done <==> settings.baseDir.Some?
      ensures t.outcome != Done ==> t.state == this
      ensures t.outcome != Done ==>
                t.outcome == Raised(NoBaseDirectory(resources))
      ensures t.outcome == Done ==> t.state == Install(sslAvailable)
    {
      if settings.baseDir.None? then
        Transition(this, Raised(NoBaseDirectory(resources)))
      else
        Transition(Install(sslAvailable), Done)
    }

    /** setExitClass(c): guarded by checkExitClass, then handed to the
        security manager, which is null before initialization. */
    function SetExitClass(caller: CallStack, exitClass: Option<ClassId>): (t: Transition)
      ensures t.outcome == Done <==> CheckExitClass(caller).None? && security.Some?
      ensures security.None? ==> t.outcome == Raised(NullPointerException)
      ensures t.state.security == if t.outcome == Done then Some(security.value.(exitClass := exitClass)) else security
      ensures t.state == this.(security := t.state.security)
    {
      var check := CheckExitClass(caller);
      if check.Some? then Transition(this, Raised(check.value))
      else if security.None? then Transition(this, Raised(NullPointerException))
      else Transition(this.(security := Some(security.value.(exitClass := exitClass))), Done)
    }

    /** disableExit(): any caller; a null dereference before initialization. */
    function DisableExit(): (t: Transition)
      ensures t.outcome == Done <==> security.Some?
      ensures t.outcome != Done ==> t.outcome == Raised(NullPointerException)
      ensures t.state.security == if t.outcome == Done then Some(security.value.(exitDisabled := true)) else security
      ensures t.state == this.(security := t.state.security)
    {
      if security.None? then Transition(this, Raised(NullPointerException))
      else Transition(this.(security := Some(security.value.(exitDisabled := true))), Done)
    }

    /** setInitialArgments(args): checkInitialized, then AllPermission is
        demanded when the JVM has a security manager, this runtime's or one
        that other code installed (`foreignManager`). */
    function SetInitialArguments(args: Option<seq<string>>, hasAllPermission: bool, foreignManager: bool): (t: Transition)
      ensures t.outcome == Done <==> !initialized && (!SystemManager(foreignManager) || hasAllPermission)
      ensures !initialized && SystemManager(foreignManager) && !hasAllPermission ==>
                t.outcome == Raised(SecurityException)
      ensures t.outcome == Done ==> t.state == this.(initialArguments := args)
      ensures t.outcome != Done ==> t.state == this
    {
      var check := CheckInitialized();
      if check.Some? then Transition(this, Raised(check.value))
      else if SystemManager(foreignManager) && !hasAllPermission then Transition(this, Raised(SecurityException))
      else Transition(this.(initialArguments := args), Done)
    }

    /** A setter of the lifecycle group: checkInitialized, then the assignment. */
    function Set(setting: Setting): (t: Transition)
      ensures t.outcome == Done <==> !initialized
      ensures t.outcome != Done ==> t == Transition(this, Raised(AlreadyInitialized))
      ensures t.outcome == Done ==> t.state == this.(settings := settings.Apply(setting))
    {
      var check := CheckInitialized();
      if check.Some? then Transition(this, Raised(check.value))
      else Transition(this.(settings := settings.Apply(setting)), Done)
    }

    /** A setter of the exit-class group: checkExitClass, then the assignment. */
    function Configure(caller: CallStack, preference: Preference): (t: Transition)
      ensures t.outcome == Done <==> CheckExitClass(caller).None?
      ensures t.outcome != Done ==> t == Transition(this, Raised(CheckExitClass(caller).value))
      ensures t.outcome == Done ==> t.state == this.(preferences := preferences.Choose(preference))
    {
      var check := CheckExitClass(caller);
      if check.Some? then Transition(this, Raised(check.value))
      else Transition(this.(preferences := preferences.Choose(preference)), Done)
    }

    /** One call of an operation that changes the runtime. */
    function Step(c: Call): Transition {
      match c.op
      case Initialize(isApplication, env) => this.Initialize(isApplication, env)
      case Set(setting) => this.Set(setting)
      case SetInitialArguments(args, permitted, foreign) => this.SetInitialArguments(args, permitted, foreign)
      case Configure(preference) => this.Configure(c.caller, preference)
      case SetExitClass(exitClass) => this.SetExitClass(c.caller, exitClass)
      case DisableExit => this.DisableExit()
    }

    /** getSecurityDialogHandler(): demands AllPermission when the JVM has
        a security manager; returns whether the handler exists. */
    function GetSecurityDialogHandler(hasAllPermission: bool, foreignManager: bool): (r: Result<bool>)
      ensures r.Thrown? <==> SystemManager(foreignManager) && !hasAllPermission
      ensures r.Ok? ==> r.value == dialogHandler
    {
      if SystemManager(foreignManager) && !hasAllPermission then Thrown(SecurityException) else Ok(dialogHandler)
    }

    /** getApplication(): asks the security manager, which is null before
        initialization; `current` is what the manager would answer. */
    function GetApplication(current: Option<ApplicationInstance>): (r: Result<Option<ApplicationInstance>>)
      ensures r.Thrown? <==> security.None?
      ensures r.Ok? ==> r.value == current
    {
      if security.None? then Thrown(NullPointerException) else Ok(current)
    }
  }

  /** The static initial values of the fields: update policy ALWAYS,
      verification, security and forking on, headless mode, debugging and
      stream redirection off, and no launch handler or download indicator. */
  function Initial(resources: JnlpMessages.Resources): (r: RuntimeState)
    ensures r.preferences.updatePolicy == Some(Always)
    ensures r.settings.verify && r.settings.securityEnabled && r.settings.forksAllowed
    ensures !r.settings.headless && !r.preferences.debug && !r.settings.redirectStreams
    ensures r.preferences.handler.None? && r.preferences.indicator.None?
    ensures !r.initialized && r.security.None? && r.settings.baseDir.None?
  {
    RuntimeState(
      resources := resources,
      settings := Settings(
        headless := false, verify := true, baseDir := None,
        securityEnabled := true, redirectStreams := false, forksAllowed := true),
      preferences := Preferences(
        windowIcon := None, debug := false, updatePolicy := Some(Always),
        handler := None, indicator := None),
      security := None, policy := false, dialogHandler := false, initialized := false,
      isWebstartApplication := false, initialArguments := None, installed := [])
  }

  /** What holds of every state the runtime can reach: the security manager,
      the policy and the dialog handler exist exactly once initialized, and
      what is installed is what one successful `initialize` installs. */
  ghost predicate Consistent(s: RuntimeState) {
    && (s.security.Some? <==> s.initialized)
    && (s.policy <==> s.initialized)
    && (s.dialogHandler <==> s.initialized)
    && (!s.initialized ==> s.installed == [])
    && (s.initialized ==> s.installed == InstallLog(s.settings.securityEnabled, SslSocketFactorySet in s.installed))
  }

  /** The calls of a sequence, applied in order. An `Exit` outcome ends the
      process in the source; `Run` goes on applying the later calls, which
      only adds runs, so what the lemmas prove of every run holds of the
      runs that stop there too. */
  function Run(s: RuntimeState, calls: seq<Call>): RuntimeState
    decreases |calls|
  {
    if calls == [] then s else Run(s.Step(calls[0]).state, calls[1..])
  }

  /** How many calls of a sequence are successful `initialize` calls. */
  function InitializeSuccesses(s: RuntimeState, calls: seq<Call>): nat
    decreases |calls|
  {
    if calls == [] then 0
    else
      var t := s.Step(calls[0]);
      (if calls[0].op.Initialize? && t.outcome == Done then 1 else 0) + InitializeSuccesses(t.state, calls[1..])
  }

  /** The initial values are consistent. */
  lemma InitialIsConsistent(resources: JnlpMessages.Resources)
    ensures Consistent(Initial(resources))
    ensures !Initial(resources).initialized && Initial(resources).settings.securityEnabled
  {
  }

  /** `initialize` succeeds exactly on a runtime not yet initialized, when
      the configuration loads (or the caller is not an application), and a
      base directory is set or can be found. */
  lemma InitializeSucceedsIff(s: RuntimeState, isApplication: bool, env: Environment)
    ensures s.Initialize(isApplication, env).outcome == Done <==>
              !s.initialized && (env.configLoads || !isApplication) &&
              (s.settings.baseDir.Some? || env.defaultBaseDir.Some?)
  {
    if !s.initialized && (env.configLoads || !isApplication) {
      var f := s.FillDefaults(isApplication, env);
      assert f.settings.baseDir.Some? <==> s.settings.baseDir.Some? || env.defaultBaseDir.Some?;
    }
  }

  /** A successful `initialize` leaves a launch handler, a download
      indicator unless headless, a base directory (the one set, if any), a
      fresh security manager and the hooks of `InstallLog` installed. */
  lemma InitializeEstablishes(s: RuntimeState, isApplication: bool, env: Environment)
    requires s.Initialize(isApplication, env).outcome == Done
    ensures var r := s.Initialize(isApplication, env).state;
      && r.initialized && r.policy && r.dialogHandler
      && r.preferences.handler.Some?
      && (!r.settings.headless ==> r.preferences.indicator.Some?)
      && r.settings.baseDir.Some?
      && (s.settings.baseDir.Some? ==> r.settings.baseDir == s.settings.baseDir)
      && r.security == Some(SecurityManager(None, false))
      && r.settings.securityEnabled == s.settings.securityEnabled
      && r.installed == s.installed + InstallLog(s.settings.securityEnabled, env.sslAvailable)
  {
    var f := s.FillDefaults(isApplication, env);
    assert s.Initialize(isApplication, env).state == f.Install(env.sslAvailable);
  }

  /** A failed `initialize` leaves the lifecycle as it was: not initialized
      again, nothing installed, no security manager created. */
  lemma InitializeFailureKeepsLifecycle(s: RuntimeState, isApplication: bool, env: Environment)
    requires s.Initialize(isApplication, env).outcome != Done
    ensures var r := s.Initialize(isApplication, env).state;
      && r.initialized == s.initialized && r.installed == s.installed && r.security == s.security
      && r.policy == s.policy && r.dialogHandler == s.dialogHandler
  {
    if !s.initialized && (env.configLoads || !isApplication) {
      assert s.Initialize(isApplication, env).state == s.FillDefaults(isApplication, env);
    }
  }

  /** A failed `initialize` on a runtime not yet initialized that got past
      the configuration still filled in the defaults: the failure at the
      base directory is not atomic. */
  lemma InitializeFailureFillsDefaults(s: RuntimeState, isApplication: bool, env: Environment)
    requires !s.initialized && (env.configLoads || !isApplication)
    requires s.settings.baseDir.None? && env.defaultBaseDir.None?
    ensures s.Initialize(isApplication, env) ==
              Transition(s.FillDefaults(isApplication, env),
                         Raised(NoBaseDirectory(s.resources)))
    ensures s.Initialize(isApplication, env).state.preferences.handler.Some?
  {
  }

  /** The lifecycle-gated settings and the installed hooks of `s` are
      still those of `r`, which is initialized. */
  ghost predicate Frozen(s: RuntimeState, r: RuntimeState) {
    && r.initialized
    && r.settings == s.settings
    && r.initialArguments == s.initialArguments
    && r.installed == s.installed
  }

  /** The exit class recorded in a security manager that may be null. */
  function ExitClassOf(security: Option<SecurityManager>): Option<ClassId> {
    if security.None? then None else security.value.exitClass
  }

  /** What a call `c` from state `s` to state `r` keeps: an initialized
      runtime frozen, consistency, a disabled exit, and an exit class that
      only the exit class itself replaces. */
  ghost predicate Preserved(s: RuntimeState, c: Call, r: RuntimeState) {
    && (s.initialized ==> Frozen(s, r))
    && (Consistent(s) ==> Consistent(r))
    && (Consistent(s) && s.security.Some? && s.security.value.exitDisabled ==>
          r.security.Some? && r.security.value.exitDisabled)
    && (Consistent(s) && s.initialized && s.settings.securityEnabled &&
        ExitClassOf(r.security) != ExitClassOf(s.security) ==>
          c.op.SetExitClass? && s.security.value.IsExitClass(c.caller))
  }

  /** Replacing an existing security manager keeps the runtime consistent. */
  lemma SecurityReplacedKeepsConsistent(s: RuntimeState, m: SecurityManager)
    requires Consistent(s) && s.security.Some?
    ensures Consistent(s.(security := Some(m)))
  {
  }

  // One lemma per kind of operation, each proving `Preserved` for it;
  // `StepPreserves` puts them together.

  lemma InitializePreserves(s: RuntimeState, c: Call)
    requires c.op.Initialize?
    ensures Preserved(s, c, s.Step(c).state)
  {
    var t := s.Initialize(c.op.isApplication, c.op.env);
    assert s.Step(c) == t;
    if t.outcome == Done {
      InitializeSucceedsIff(s, c.op.isApplication, c.op.env);
      InitializeEstablishes(s, c.op.isApplication, c.op.env);
      assert s.installed == [] ==> t.state.installed == InstallLog(s.settings.securityEnabled, c.op.env.sslAvailable);
    } else {
      InitializeFailureKeepsLifecycle(s, c.op.isApplication, c.op.env);
    }
  }

  lemma SetPreserves(s: RuntimeState, c: Call)
    requires c.op.Set?
    ensures Preserved(s, c, s.Step(c).state)
  {
    assert s.Step(c) == s.Set(c.op.setting);
  }

  lemma SetInitialArgumentsPreserves(s: RuntimeState, c: Call)
    requires c.op.SetInitialArguments?
    ensures Preserved(s, c, s.Step(c).state)
  {
    assert s.Step(c) == s.SetInitialArguments(c.op.args, c.op.hasAllPermission, c.op.foreignManager);
  }

  lemma ConfigurePreserves(s: RuntimeState, c: Call)
    requires c.op.Configure?
    ensures Preserved(s, c, s.Step(c).state)
  {
    assert s.Step(c) == s.Configure(c.caller, c.op.preference);
  }

  lemma SetExitClassPreserves(s: RuntimeState, c: Call)
    requires c.op.SetExitClass?
    ensures Preserved(s, c, s.Step(c).state)
  {
    var t := s.SetExitClass(c.caller, c.op.exitClass);
    assert s.Step(c) == t;
    if t.outcome == Done && Consistent(s) {
      SecurityReplacedKeepsConsistent(s, t.state.security.value);
    }
  }

  lemma DisableExitPreserves(s: RuntimeState, c: Call)
    requires c.op.DisableExit?
    ensures Preserved(s, c, s.Step(c).state)
  {
    var t := s.DisableExit();
    assert s.Step(c) == t;
    if t.outcome == Done && Consistent(s) {
      SecurityReplacedKeepsConsistent(s, t.state.security.value);
    }
  }

  /** Every call keeps what `Preserved` lists. */
  lemma StepPreserves(s: RuntimeState, c: Call)
    ensures Preserved(s, c, s.Step(c).state)
  {
    match c.op
    case Initialize(_, _) => InitializePreserves(s, c);
    case Set(_) => SetPreserves(s, c);
    case SetInitialArguments(_, _, _) => SetInitialArgumentsPreserves(s, c);
    case Configure(_) => ConfigurePreserves(s, c);
    case SetExitClass(_) => SetExitClassPreserves(s, c);
    case DisableExit => DisableExitPreserves(s, c);
  }

  /** No call ever resets `initialized`. */
  lemma StepKeepsInitialized(s: RuntimeState, c: Call)
    requires s.initialized
    ensures s.Step(c).state.initialized
  {
    StepPreserves(s, c);
  }

  /** Every call keeps the runtime consistent. */
  lemma StepPreservesConsistent(s: RuntimeState, c: Call)
    requires Consistent(s)
    ensures Consistent(s.Step(c).state)
  {
    StepPreserves(s, c);
  }

  /** Every sequence of calls keeps the runtime consistent. */
  lemma {:induction false} RunPreservesConsistent(s: RuntimeState, calls: seq<Call>)
    requires Consistent(s)
    ensures Consistent(Run(s, calls))
    decreases |calls|
  {
    if calls != [] {
      StepPreservesConsistent(s, calls[0]);
      RunPreservesConsistent(s.Step(calls[0]).state, calls[1..]);
    }
  }

  /** Every state reached from the initial values is consistent. */
  lemma ReachableIsConsistent(resources: JnlpMessages.Resources, calls: seq<Call>)
    ensures Consistent(Run(Initial(resources), calls))
  {
    InitialIsConsistent(resources);
    RunPreservesConsistent(Initial(resources), calls);
  }

  /** `initialize` succeeds at most once in any sequence of calls, and never
      once the runtime is initialized. */
  lemma {:induction false} InitializeSucceedsAtMostOnce(s: RuntimeState, calls: seq<Call>)
    ensures InitializeSuccesses(s, calls) <= if s.initialized then 0 else 1
    decreases |calls|
  {
    if calls != [] {
      var t := s.Step(calls[0]);
      InitializeSucceedsAtMostOnce(t.state, calls[1..]);
      if s.initialized {
        StepKeepsInitialized(s, calls[0]);
      } else if calls[0].op.Initialize? && t.outcome == Done {
        InitializeEstablishes(s, calls[0].op.isApplication, calls[0].op.env);
      }
    }
  }

  /** One call on an initialized runtime leaves the lifecycle-gated
      settings and the installed hooks as they are. */
  lemma StepFrozen(s: RuntimeState, c: Call)
    requires s.initialized
    ensures Frozen(s, s.Step(c).state)
  {
    StepPreserves(s, c);
  }

  /** After initialization the lifecycle-gated settings never change again,
      nor does `initialized` itself. */
  lemma {:induction false} FrozenAfterInitialize(s: RuntimeState, calls: seq<Call>)
    requires s.initialized
    ensures Frozen(s, Run(s, calls))
    decreases |calls|
  {
    if calls != [] {
      StepFrozen(s, calls[0]);
      FrozenAfterInitialize(s.Step(calls[0]).state, calls[1..]);
    }
  }

  /** A lifecycle-gated setter on an initialized runtime throws
      "already initialized" and changes nothing, whoever calls it; before
      initialization a setter of the group always succeeds, and
      setInitialArgments does unless a security manager is installed and
      the caller lacks AllPermission. */
  lemma LifecycleGate(s: RuntimeState, c: Call)
    requires c.op.IsLifecycleGated()
    ensures s.initialized ==> s.Step(c) == Transition(s, Raised(AlreadyInitialized))
    ensures !s.initialized && c.op.Set? ==> s.Step(c).outcome == Done
    ensures !s.initialized && c.op.SetInitialArguments? ==>
              (s.Step(c).outcome == Done <==> !s.SystemManager(c.op.foreignManager) || c.op.hasAllPermission)
  {
    if c.op.Set? {
      assert s.Step(c) == s.Set(c.op.setting);
    } else {
      assert s.Step(c) == s.SetInitialArguments(c.op.args, c.op.hasAllPermission, c.op.foreignManager);
    }
  }

  /** An exit-class-gated setter succeeds whenever security is disabled or
      the runtime is not initialized (setExitClass then still needs the
      security manager, which exists only once initialized); otherwise
      exactly when the caller is the exit class. A rejected call changes
      nothing. */
  lemma ExitClassGate(s: RuntimeState, c: Call)
    requires Consistent(s) && c.op.IsExitClassGated()
    ensures s.Step(c).outcome != Done ==> s.Step(c).state == s
    ensures c.op.Configure? && (!s.settings.securityEnabled || !s.initialized) ==> s.Step(c).outcome == Done
    ensures c.op.SetExitClass? && !s.initialized ==> s.Step(c) == Transition(s, Raised(NullPointerException))
    ensures c.op.SetExitClass? && !s.settings.securityEnabled && s.initialized ==> s.Step(c).outcome == Done
    ensures s.settings.securityEnabled && s.initialized ==>
              (s.Step(c).outcome == Done <==> s.security.value.IsExitClass(c.caller))
    ensures s.settings.securityEnabled && s.initialized && !s.security.value.IsExitClass(c.caller) ==>
              s.Step(c) == Transition(s, Raised(NotExitClass))
  {
    if c.op.Configure? {
      assert s.Step(c) == s.Configure(c.caller, c.op.preference);
    } else {
      assert s.Step(c) == s.SetExitClass(c.caller, c.op.exitClass);
    }
  }

  /** On a reachable runtime the AllPermission demand of setInitialArgments
      decides nothing unless other code installed a security manager: the
      lifecycle check has already rejected the call whenever this runtime's
      own manager is installed. With a foreign manager, the demand rejects
      an unprivileged caller before initialization. */
  lemma InitialArgumentsPermissionIrrelevant(s: RuntimeState, args: Option<seq<string>>, caller: CallStack)
    requires Consistent(s)
    ensures s.Step(Call(caller, SetInitialArguments(args, true, false))) ==
            s.Step(Call(caller, SetInitialArguments(args, false, false)))
    ensures !s.initialized ==>
              s.Step(Call(caller, SetInitialArguments(args, false, true))) == Transition(s, Raised(SecurityException)) &&
              s.Step(Call(caller, SetInitialArguments(args, true, true))).outcome == Done
  {
    if SecurityManagerSet in s.installed {
      assert s.initialized;
    }
  }

  /** The policy and the security manager are installed exactly when security
      is enabled and the runtime initialized, the policy first. */
  lemma InstalledInOrder(s: RuntimeState)
    requires Consistent(s)
    ensures SecurityManagerSet in s.installed <==> s.initialized && s.settings.securityEnabled
    ensures PolicySet in s.installed <==> s.initialized && s.settings.securityEnabled
    ensures forall i, j :: 0 <= i < |s.installed| && 0 <= j < |s.installed| &&
              s.installed[i] == PolicySet && s.installed[j] == SecurityManagerSet
              ==> i < j
  {
  }

  /** One call keeps a disabled exit disabled. */
  lemma StepKeepsExitDisabled(s: RuntimeState, c: Call)
    requires Consistent(s) && s.security.Some? && s.security.value.exitDisabled
    ensures s.Step(c).state.security.Some? && s.Step(c).state.security.value.exitDisabled
  {
    StepPreserves(s, c);
  }

  /** Once exit is disabled it stays disabled, whatever is called after. */
  lemma {:induction false} ExitStaysDisabled(s: RuntimeState, calls: seq<Call>)
    requires Consistent(s) && s.security.Some? && s.security.value.exitDisabled
    ensures Run(s, calls).security.Some? && Run(s, calls).security.value.exitDisabled
    decreases |calls|
  {
    if calls != [] {
      StepPreservesConsistent(s, calls[0]);
      StepKeepsExitDisabled(s, calls[0]);
      ExitStaysDisabled(s.Step(calls[0]).state, calls[1..]);
    }
  }

  /** Once the runtime is initialized with security enabled, only a call
      of setExitClass whose caller is the exit class changes the exit class. */
  lemma ExitClassChangesOnlyByExitClass(s: RuntimeState, c: Call)
    requires Consistent(s) && s.initialized && s.settings.securityEnabled
    requires ExitClassOf(s.Step(c).state.security) != ExitClassOf(s.security)
    ensures c.op.SetExitClass? && s.security.value.IsExitClass(c.caller)
  {
    StepPreserves(s, c);
  }

  /** The runtime itself: the static fields of JNLPRuntime as mutable fields
      (the two guarded groups each held as one record), and one method per
      operation, each proved to do what the state machine says. */
  class Runtime {
    var resources: JnlpMessages.Resources
    var settings: Settings
    var preferences: Preferences
    var security: Option<SecurityManager>
    var policy: bool
    var dialogHandler: bool
    var initialized: bool
    var isWebstartApplication: bool
    var initialArguments: Option<seq<string>>
    var installed: seq<Installation>

    /** The values of the fields, as a state of the state machine. */
    function Snapshot(): RuntimeState
      reads this
    {
      RuntimeState(resources, settings, preferences, security, policy, dialogHandler,
                   initialized, isWebstartApplication, initialArguments, installed)
    }

    /** The static initializers, with the resource bundle already loaded. */
    constructor (bundle: JnlpMessages.Resources)
      ensures Snapshot() == Initial(bundle)
    {
      resources := bundle;
      settings := Settings(
        headless := false, verify := true, baseDir := None,
        securityEnabled := true, redirectStreams := false, forksAllowed := true);
      preferences := Preferences(
        windowIcon := None, debug := false, updatePolicy := Some(Always),
        handler := None, indicator := None);
      security := None;
      policy := false;
      dialogHandler := false;
      initialized := false;
      isWebstartApplication := false;
      initialArguments := None;
      installed := [];
    }

    method CheckInitialized() returns (failure: Option<Exception>)
      ensures failure == Snapshot().CheckInitialized()
    {
      failure := None;
      if initialized {
        failure := Some(AlreadyInitialized);
      }
    }

    method CheckExitClass(caller: CallStack) returns (failure: Option<Exception>)
      ensures failure == Snapshot().CheckExitClass(caller)
    {
      failure := None;
      if settings.securityEnabled && initialized {
        if security.None? {
          failure := Some(NullPointerException);
        } else if !security.value.IsExitClass(caller) {
          failure := Some(NotExitClass);
        }
      }
    }

    method Initialize(isApplication: bool, env: Environment) returns (outcome: Outcome)
      modifies this
      ensures Transition(Snapshot(), outcome) == old(Snapshot()).Initialize(isApplication, env)
    {
      var failure := CheckInitialized();
      if failure.Some? {
        return Raised(failure.value);
      }
      if !env.configLoads && isApplication {
        return ConfigurationError(resources);
      }
      FillDefaults(isApplication, env);
      if settings.baseDir.None? {
        return Raised(NoBaseDirectory(resources));
      }
      Install(env.sslAvailable);
      outcome := Done;
    }

    /** The defaults `initialize` fills in before it checks the base directory. */
    method FillDefaults(isApplication: bool, env: Environment)
      modifies this
      ensures Snapshot() == old(Snapshot()).FillDefaults(isApplication, env)
    {
      isWebstartApplication := isApplication;
      FillSettings(env);
      FillPreferences(env.iconLoads);
    }

    /** checkHeadless unless already headless, then the default base directory. */
    method FillSettings(env: Environment)
      modifies this`settings
      ensures settings == old(settings).WithDefaults(env)
    {
      if !settings.headless {
        if HeadlessProperty(env.awtHeadless) {
          settings := settings.(headless := true);
        }
      }
      if settings.baseDir.None? {
        settings := settings.(baseDir := env.defaultBaseDir);
      }
    }

    /** The window icon and the download indicator unless headless, then
        the launch handler. */
    method FillPreferences(iconLoads: bool)
      modifies this`preferences
      ensures preferences == old(preferences).WithDefaults(settings.headless, iconLoads)
    {
      if !settings.headless && preferences.windowIcon.None? && iconLoads {
        preferences := preferences.(windowIcon := Some(NetxIcon));
      }
      if !settings.headless && preferences.indicator.None? {
        preferences := preferences.(indicator := Some(DefaultDownloadIndicator));
      }
      if preferences.handler.None? {
        preferences := preferences.(handler := Some(DefaultLaunchHandler));
      }
    }

    /** The hooks `initialize` installs, in order, and the flag it sets last. */
    method Install(sslAvailable: bool)
      modifies this
      ensures Snapshot() == old(Snapshot()).Install(sslAvailable)
    {
      installed := installed + [ServiceManagerStub];
      policy := true;
      security := Some(SecurityManager(None, false));
      if settings.securityEnabled {
        installed := installed + [PolicySet];
        installed := installed + [SecurityManagerSet];
      }
      dialogHandler := true;
      if sslAvailable {
        installed := installed + [SslSocketFactorySet];
      }
      installed := installed + [AuthenticatorSet, ProxySelectorSet];
      assert installed == Installing(old(installed), settings.securityEnabled, sslAvailable);
      initialized := true;
    }

    /** A lifecycle-gated setter (setHeadless, setVerify, setBaseDir,
        setSecurityEnabled, setRedirectStreams, setForksAllowed). */
    method Set(setting: Setting) returns (outcome: Outcome)
      modifies this
      ensures Transition(Snapshot(), outcome) == old(Snapshot()).Set(setting)
    {
      var failure := CheckInitialized();
      if failure.Some? {
        return Raised(failure.value);
      }
      match setting {
        case Headless(enabled) => settings := settings.(headless := enabled);
        case Verify(enabled) => settings := settings.(verify := enabled);
        case BaseDir(dir) => settings := settings.(baseDir := dir);
        case SecurityEnabled(enabled) => settings := settings.(securityEnabled := enabled);
        case RedirectStreams(enabled) => settings := settings.(redirectStreams := enabled);
        case ForksAllowed(enabled) => settings := settings.(forksAllowed := enabled);
      }
      outcome := Done;
    }

    /** An exit-class-gated setter (setWindowIcon, setDebug,
        setDefaultUpdatePolicy, setDefaultLaunchHandler,
        setDefaultDownloadIndicator). */
    method Configure(caller: CallStack, preference: Preference) returns (outcome: Outcome)
      modifies this
      ensures Transition(Snapshot(), outcome) == old(Snapshot()).Configure(caller, preference)
    {
      var failure := CheckExitClass(caller);
      if failure.Some? {
        return Raised(failure.value);
      }
      match preference {
        case WindowIcon(image) => preferences := preferences.(windowIcon := image);
        case Debug(enabled) => preferences := preferences.(debug := enabled);
        case DefaultUpdatePolicy(p) => preferences := preferences.(updatePolicy := p);
        case DefaultHandler(h) => preferences := preferences.(handler := h);
        case DefaultIndicator(i) => preferences := preferences.(indicator := i);
      }
      outcome := Done;
    }

    method SetExitClass(caller: CallStack, exitClass: Option<ClassId>) returns (outcome: Outcome)
      modifies this
      ensures Transition(Snapshot(), outcome) == old(Snapshot()).SetExitClass(caller, exitClass)
    {
      var failure := CheckExitClass(caller);
      if failure.Some? {
        return Raised(failure.value);
      }
      if security.None? {
        return Raised(NullPointerException);
      }
      security := Some(security.value.(exitClass := exitClass));
      outcome := Done;
    }

    method DisableExit() returns (outcome: Outcome)
      modifies this
      ensures Transition(Snapshot(), outcome) == old(Snapshot()).DisableExit()
    {
      if security.None? {
        return Raised(NullPointerException);
      }
      security := Some(security.value.(exitDisabled := true));
      outcome := Done;
    }

    method SetInitialArguments(args: Option<seq<string>>, hasAllPermission: bool, foreignManager: bool) returns (outcome: Outcome)
      modifies this
      ensures Transition(Snapshot(), outcome) == old(Snapshot()).SetInitialArguments(args, hasAllPermission, foreignManager)
    {
      var failure := CheckInitialized();
      if failure.Some? {
        return Raised(failure.value);
      }
      if (SecurityManagerSet in installed || foreignManager) && !hasAllPermission {
        return Raised(SecurityException);
      }
      initialArguments := args;
      outcome := Done;
    }

    /** One call, dispatched to the method of its operation. */
    method Perform(c: Call) returns (outcome: Outcome)
      modifies this
      ensures Transition(Snapshot(), outcome) == old(Snapshot()).Step(c)
    {
      match c.op
      case Initialize(isApplication, env) => outcome := Initialize(isApplication, env);
      case Set(setting) => outcome := Set(setting);
      case SetInitialArguments(args, permitted, foreign) => outcome := SetInitialArguments(args, permitted, foreign);
      case Configure(preference) => outcome := Configure(c.caller, preference);
      case SetExitClass(exitClass) => outcome := SetExitClass(c.caller, exitClass);
      case DisableExit => outcome := DisableExit();
    }
  }
}
