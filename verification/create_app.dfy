/** The scaffolding command's pure decisions: which package manager runs it, where the
    project goes and what it is called, and whether dependencies are installed and a git
    repository initialised. The environment is passed in: the user agent variable, which
    files exist, the working directory, and `path.basename` / `path.resolve`. */
module CreateApp {
  import opened Wrappers
  import opened Strings

  datatype PackageManager = Bun | Pnpm | Yarn | Npm

  /** The name printed and run, which is also the user-agent substring looked for. */
  function Name(pm: PackageManager): string {
    match pm
    case Bun => "bun"
    case Pnpm => "pnpm"
    case Yarn => "yarn"
    case Npm => "npm"
  }

  /** The position of a package manager in the detection order. */
  function Priority(pm: PackageManager): nat {
    match pm
    case Bun => 0
    case Pnpm => 1
    case Yarn => 2
    case Npm => 3
  }

  /** The lock file that betrays a package manager. */
  function LockFile(pm: PackageManager): string {
    match pm
    case Bun => "bun.lockb"
    case Pnpm => "pnpm-lock.yaml"
    case Yarn => "yarn.lock"
    case Npm => "package-lock.json"
  }

  /** The user-agent test: a present, non-empty agent is searched for "bun", "pnpm",
      "yarn" and "npm" in that order; the first name found wins. */
  function FromUserAgent(userAgent: Option<string>): (r: Option<PackageManager>)
    ensures r.Some? ==> Truthy(userAgent) && Contains(userAgent.value, Name(r.value))
    ensures r.Some? ==> forall p :: Priority(p) < Priority(r.value) ==> !Contains(userAgent.value, Name(p))
    ensures r.None? ==> !Truthy(userAgent) || forall p :: !Contains(userAgent.value, Name(p))
  {
    if !Truthy(userAgent) then None
    else
      var ua := userAgent.value;
      if Contains(ua, "bun") then Some(Bun)
      else if Contains(ua, "pnpm") then Some(Pnpm)
      else if Contains(ua, "yarn") then Some(Yarn)
      else if Contains(ua, "npm") then Some(Npm)
      else None
  }

  /** The lock-file test in the working directory, in the same order. */
  function FromLockFiles(fileExists: string -> bool): (r: Option<PackageManager>)
    ensures r.Some? ==> fileExists(LockFile(r.value))
    ensures r.Some? ==> forall p :: Priority(p) < Priority(r.value) ==> !fileExists(LockFile(p))
    ensures r.None? ==> forall p :: !fileExists(LockFile(p))
  {
    if fileExists("bun.lockb") then Some(Bun)
    else if fileExists("pnpm-lock.yaml") then Some(Pnpm)
    else if fileExists("yarn.lock") then Some(Yarn)
    else if fileExists("package-lock.json") then Some(Npm)
    else None
  }

  /** `detectPackageManager`: the user agent first, then the lock files; nothing found
      is an error. */
  function DetectPackageManager(userAgent: Option<string>, fileExists: string -> bool): (r: Result<PackageManager, string>)
    ensures FromUserAgent(userAgent).Some? ==> r == Success(FromUserAgent(userAgent).value)
    ensures FromUserAgent(userAgent).None? && FromLockFiles(fileExists).Some? ==> r == Success(FromLockFiles(fileExists).value)
    ensures r.Failure? <==> FromUserAgent(userAgent).None? && FromLockFiles(fileExists).None?
  {
    match FromUserAgent(userAgent)
    case Some(pm) => Success(pm)
    case None =>
      match FromLockFiles(fileExists)
      case Some(pm) => Success(pm)
      case None => Failure("Could not detect package manager. Please run with npm, yarn, pnpm, or bun.")
  }

  /** "npm" occurs inside "pnpm", so only the order of the tests keeps a pnpm agent from
      being taken for npm: an agent naming pnpm is never detected as npm, and is
      detected as pnpm unless it also names bun. */
  lemma PnpmNeverNpm(userAgent: string, fileExists: string -> bool)
    requires Contains(userAgent, "pnpm")
    ensures Contains(userAgent, "npm")
    ensures DetectPackageManager(Some(userAgent), fileExists) != Success(Npm)
    ensures !Contains(userAgent, "bun") ==> DetectPackageManager(Some(userAgent), fileExists) == Success(Pnpm)
  {
    var i :| 0 <= i <= |userAgent| - 4 && OccursAt(userAgent, "pnpm", i);
    assert userAgent[i + 1..i + 4] == "pnpm"[1..];
    assert OccursAt(userAgent, "npm", i + 1);
  }

  /** Without a user agent the lock files decide, and one lock file alone decides
      for its own package manager. */
  lemma LockFileDecides(fileExists: string -> bool, pm: PackageManager)
    requires fileExists(LockFile(pm)) && forall p :: p != pm ==> !fileExists(LockFile(p))
    ensures DetectPackageManager(None, fileExists) == Success(pm)
  {
  }

  // ----- project location -----

  /** The arguments that mean "the current directory". */
  predicate IsCurrentDir(name: string) {
    name == "./" || name == "."
  }

  datatype Project = Project(name: string, path: string)

  /** The filesystem facts the command consults. */
  datatype Env = Env(
    cwd: string,
    basename: string -> string,
    resolve: string -> string,
    fileExists: string -> bool,
    cwdEntries: seq<string>)

  /** The project name and path: `.` or `./`, given as the argument or typed at the
      prompt, means the working directory, named after its last component; any other
      name is resolved against the working directory. The prompt is used only when the
      argument is absent or empty, and an empty answer is an error. */
  function ResolveProject(arg: Option<string>, answer: Option<string>, env: Env): (r: Result<Project, string>)
    ensures Truthy(arg) && IsCurrentDir(arg.value) ==> r == Success(Project(env.basename(env.cwd), env.cwd))
    ensures Truthy(arg) && !IsCurrentDir(arg.value) ==> r == Success(Project(arg.value, env.resolve(arg.value)))
    ensures !Truthy(arg) && !Truthy(answer) ==> r.Failure?
    ensures !Truthy(arg) && Truthy(answer) ==>
      r == Success(if IsCurrentDir(answer.value) then Project(env.basename(env.cwd), env.cwd)
                   else Project(answer.value, env.resolve(answer.value)))
  {
    var name :=
      if Truthy(arg) then arg
      else if Truthy(answer) then answer
      else None;
    if name.None? then Failure("Project name is required")
    else if IsCurrentDir(name.value) then Success(Project(env.basename(env.cwd), env.cwd))
    else Success(Project(name.value, env.resolve(name.value)))
  }

  /** The target checks: another directory must not exist yet; the working directory
      must hold nothing but dot-files. */
  function CheckTarget(p: Project, env: Env): (r: Result<Project, string>)
    ensures r.Success? ==> r.value == p
    ensures p.path != env.cwd ==> (r.Success? <==> !env.fileExists(p.path))
    ensures p.path == env.cwd ==> (r.Success? <==> forall e :: e in env.cwdEntries ==> StartsWith(e, "."))
  {
    if p.path != env.cwd && env.fileExists(p.path) then
      Failure("Directory " + p.name + " already exists")
    else if p.path == env.cwd && exists e :: e in env.cwdEntries && !StartsWith(e, ".") then
      Failure("Current directory is not empty")
    else Success(p)
  }

  /** Scaffolding into `.` and into `./` lands in the same place under the same name,
      whichever way the dot was given, and then only needs the directory to be free of
      visible files. */
  lemma CurrentDirForms(arg: Option<string>, answer: Option<string>, env: Env)
    requires (Truthy(arg) && IsCurrentDir(arg.value)) || (!Truthy(arg) && Truthy(answer) && IsCurrentDir(answer.value))
    ensures ResolveProject(arg, answer, env) == ResolveProject(Some("."), None, env)
    ensures ResolveProject(arg, answer, env).value.path == env.cwd
    ensures CheckTarget(ResolveProject(arg, answer, env).value, env).Success?
        <==> forall e :: e in env.cwdEntries ==> StartsWith(e, ".")
  {
  }

  // ----- install and git -----

  datatype CreateAppOptions = CreateAppOptions(template: string, skipInstall: Option<bool>, skipGit: Option<bool>)

  /** The options when none are passed. */
  const DefaultOptions := CreateAppOptions("default", None, None)

  /** A flag after the prompt: an explicit value is kept; an undefined one becomes the
      negated answer, and an unanswered question (`undefined`) negates to `true`. */
  function SettleFlag(flag: Option<bool>, answer: Option<bool>): (r: bool)
    ensures flag.Some? ==> r == flag.value
    ensures flag.None? ==> (r <==> answer != Some(true))
  {
    if flag.Some? then flag.value else answer != Some(true)
  }

  /** `skipInstall` and `skipGit` after the set-up prompt, which asks only about the
      flags that are undefined. */
  function SettleOptions(o: CreateAppOptions, shouldInstall: Option<bool>, shouldInitGit: Option<bool>): (r: CreateAppOptions)
    ensures r.template == o.template
    ensures r.skipInstall.Some? && r.skipGit.Some?
    ensures o.skipInstall.Some? ==> r.skipInstall == o.skipInstall
    ensures o.skipGit.Some? ==> r.skipGit == o.skipGit
    ensures o.skipInstall.None? ==> r.skipInstall == Some(shouldInstall != Some(true))
    ensures o.skipGit.None? ==> r.skipGit == Some(shouldInitGit != Some(true))
  {
    o.(skipInstall := Some(SettleFlag(o.skipInstall, shouldInstall)),
       skipGit := Some(SettleFlag(o.skipGit, shouldInitGit)))
  }

  /** Once settled, the options ignore any further answers, and explicitly given flags
      ignore the answers from the start. */
  lemma SettleIdempotent(o: CreateAppOptions, a1: Option<bool>, g1: Option<bool>, a2: Option<bool>, g2: Option<bool>)
    ensures SettleOptions(SettleOptions(o, a1, g1), a2, g2) == SettleOptions(o, a1, g1)
    ensures o.skipInstall.Some? && o.skipGit.Some? ==> SettleOptions(o, a1, g1) == SettleOptions(o, a2, g2)
  {
  }
}
