/**
 * Where the window icon is read from (`get_icon_path`, app/src/icon.c:19-58).
 *
 * The environment, the build configuration, the success of `strdup` and the
 * platform helper `get_local_file_path` are inputs: the lookup itself is
 * platform I/O.
 */
module IconPath {
  import opened Wrappers

  const PORTABLE_ICON_FILENAME := "icon.png"
  const DEFAULT_ICON_SUFFIX := "/share/icons/hicolor/256x256/apps/scrcpy.png"

  /** The build: installed under a prefix, or portable (icon next to the executable). */
  datatype Build = Installed(prefix: string) | Portable

  datatype Environment = Environment(
    /** The value of SCRCPY_ICON_PATH; None when the variable is not set. */
    iconPathVariable: Option<string>,
    build: Build,
    /** Whether `strdup` can allocate the copy. */
    canAllocate: bool,
    /** `get_local_file_path`: a path next to the executable, or None on failure. */
    localFilePath: string -> Option<string>)

  /** The compiled-in path of an installed build. */
  function DefaultIconPath(prefix: string): (p: string)
    ensures |p| == |prefix| + |DEFAULT_ICON_SUFFIX|
    ensures p[..|prefix|] == prefix && p[|prefix|..] == DEFAULT_ICON_SUFFIX
  {
    prefix + DEFAULT_ICON_SUFFIX
  }

  /**
   * The path to load the icon from, freshly allocated, or None when no path
   * could be obtained. A set variable wins whatever its value, the empty
   * string included, and whatever the build; otherwise an installed build
   * uses the default path and a portable one the local `icon.png`.
   */
  function GetIconPath(env: Environment): (r: Option<string>)
    ensures env.iconPathVariable.Some? ==>
      r == (if env.canAllocate then Some(env.iconPathVariable.value) else None)
    ensures env.iconPathVariable.None? && env.build.Installed? ==>
      r == (if env.canAllocate then Some(DefaultIconPath(env.build.prefix)) else None)
    ensures env.iconPathVariable.None? && env.build.Portable? ==>
      r == env.localFilePath(PORTABLE_ICON_FILENAME)
  {
    match env.iconPathVariable
    case Some(value) =>
      if env.canAllocate then Some(value) else None
    case None =>
      match env.build
      case Installed(prefix) =>
        if env.canAllocate then Some(DefaultIconPath(prefix)) else None
      case Portable =>
        env.localFilePath(PORTABLE_ICON_FILENAME)
  }

  /** The variable takes precedence: with it set, the build makes no difference. */
  lemma VariableOverridesBuild(env: Environment, other: Build)
    requires env.iconPathVariable.Some?
    ensures GetIconPath(env) == GetIconPath(env.(build := other))
    ensures GetIconPath(env).Some? ==> GetIconPath(env).value == env.iconPathVariable.value
  {
  }

  /**
   * Without the variable, an installed build copies the default path, failing
   * only when the copy cannot be allocated, and a portable build consults the
   * executable's directory whatever the allocator would do.
   */
  lemma FallbackByBuild(env: Environment, prefix: string)
    requires env.iconPathVariable.None?
    ensures env.canAllocate ==> GetIconPath(env.(build := Installed(prefix))) == Some(prefix + DEFAULT_ICON_SUFFIX)
    ensures !env.canAllocate ==> GetIconPath(env.(build := Installed(prefix))) == None
    ensures GetIconPath(env.(build := Portable)) == env.localFilePath("icon.png")
  {
  }
}
