/** Types shared by the dependency resolver and the two generations of `logic()`. */
module Common {

  datatype Option<+T> = None | Some(value: T) {
    function GetOr(default: T): T {
      match this
      case Some(v) => v
      case None => default
    }
  }

  datatype Result<+T, +E> = Success(value: T) | Failure(error: E)

  /** The operating systems the program distinguishes (`'macos'`, `'linux'`, `'windows'`). */
  datatype Os = MacOS | Linux | Windows

  function OsName(os: Os): string {
    match os
    case MacOS => "macos"
    case Linux => "linux"
    case Windows => "windows"
  }

  /** The six browser drivers the program knows, in the order its substring checks try them. */
  datatype Browser = Firefox | Opera | Chrome | Brave | Edge | Safari

  function DriverName(b: Browser): string {
    match b
    case Firefox => "firefox"
    case Opera => "opera"
    case Chrome => "chrome"
    case Brave => "brave"
    case Edge => "edge"
    case Safari => "safari"
  }

  /** Position of a driver in the `if 'firefox' in ... elif 'opera' in ...` chains. */
  function Rank(b: Browser): nat {
    match b
    case Firefox => 0
    case Opera => 1
    case Chrome => 2
    case Brave => 3
    case Edge => 4
    case Safari => 5
  }

  /** Python exceptions that escape `logic()` uncaught. */
  datatype PyError =
    | KeyError        // a dictionary lookup on a missing key
    | IndexError      // a list index out of range
    | AttributeError  // `with driver:` when `driver` is None

  /** Why the program called `sys.exit()`. */
  datatype ExitReason =
    | NotWritingToAnyFiles
    | UnsupportedOs
    | UrlError
    | InvalidDriver
    | UnsupportedEdge
    | SafariSetupInstructions
    | UnableToUpdateDriver
    | ElementsNotLoaded
}
