/**
 * Driver selection shared by both generations of `logic()`: the substring
 * chain of `check_driver`, the exact-name chain of `open_user_driver` when
 * headless, and the Brave and Edge launch configurations, which are the
 * same in both files.
 */
module Drivers {
  import opened Common
  import opened PyStr

  /**
   * `check_driver`'s `if 'firefox' in user_driver ... elif 'safari' in
   * user_driver` chain: the driver whose name is tested first among those
   * that occur in `name`, if any.
   */
  function MatchDriver(name: string): Option<Browser> {
    if Contains(name, DriverName(Firefox)) then Some(Firefox)
    else if Contains(name, DriverName(Opera)) then Some(Opera)
    else if Contains(name, DriverName(Chrome)) then Some(Chrome)
    else if Contains(name, DriverName(Brave)) then Some(Brave)
    else if Contains(name, DriverName(Edge)) then Some(Edge)
    else if Contains(name, DriverName(Safari)) then Some(Safari)
    else None
  }

  /** `name` contains the name of `b` and of no driver tested before it. */
  ghost predicate FirstMatch(name: string, b: Browser) {
    && Contains(name, DriverName(b))
    && forall c :: Rank(c) < Rank(b) ==> !Contains(name, DriverName(c))
  }

  /** First match wins, and no match is reported only when no name occurs at all. */
  lemma MatchDriverFirstMatch(name: string)
    ensures forall b :: MatchDriver(name) == Some(b) <==> FirstMatch(name, b)
    ensures MatchDriver(name).None? <==> forall b :: !Contains(name, DriverName(b))
  {
    forall b ensures MatchDriver(name) == Some(b) <==> FirstMatch(name, b) {
      forall c | Rank(c) < Rank(b) ensures MatchDriver(name) == Some(b) ==> !Contains(name, DriverName(c)) {
        match c
        case Firefox => case Opera => case Chrome => case Brave => case Edge => case Safari =>
      }
      match b
      case Firefox => case Opera => case Chrome => case Brave => case Edge => case Safari =>
    }
    forall b ensures MatchDriver(name).None? ==> !Contains(name, DriverName(b)) {
      match b
      case Firefox => case Opera => case Chrome => case Brave => case Edge => case Safari =>
    }
  }

  /** No driver name tested before `b`'s occurs in `b`'s own name. */
  lemma EarlierNamesAbsent(b: Browser)
    ensures forall c :: Rank(c) < Rank(b) ==> !Contains(DriverName(b), DriverName(c))
  {
    forall c | Rank(c) < Rank(b) ensures !Contains(DriverName(b), DriverName(c)) {
      match c
      case Firefox => MissingCharacter(DriverName(b), "firefox", if b == Safari then 'x' else 'f');
      case Opera => MissingCharacter(DriverName(b), "opera", if b == Chrome then 'p' else 'o');
      case Chrome => MissingCharacter(DriverName(b), "chrome", 'c');
      case Brave => MissingCharacter(DriverName(b), "brave", 'b');
      case Edge => MissingCharacter(DriverName(b), "edge", 'd');
    }
  }

  /** A driver's own name selects that driver. */
  lemma OwnNameSelectsItself(b: Browser)
    ensures MatchDriver(DriverName(b)) == Some(b)
  {
    ContainsItself(DriverName(b));
    EarlierNamesAbsent(b);
    MatchDriverFirstMatch(DriverName(b));
    assert FirstMatch(DriverName(b), b);
  }

  /** A name holding two driver names selects the one tested first, whatever their order in it. */
  lemma MatchDriverPrefersFirefox()
    ensures MatchDriver("chrome-firefox") == Some(Firefox)
  {
    assert "chrome-firefox" == "chrome-" + "firefox" + "";
    ContainsConcat("chrome-", "firefox", "");
  }

  /** A name needs only to contain a driver's name. */
  lemma MatchDriverByContainment()
    ensures MatchDriver("firefox2") == Some(Firefox)
  {
    assert "firefox2" == "" + "firefox" + "2";
    ContainsConcat("", "firefox", "2");
  }

  /** A name holding no driver's name selects nothing. */
  lemma MatchDriverNoMatch()
    ensures MatchDriver("ie") == None
  {
    MissingCharacter("ie", "firefox", 'f');
    MissingCharacter("ie", "opera", 'o');
    MissingCharacter("ie", "chrome", 'c');
    MissingCharacter("ie", "brave", 'b');
    MissingCharacter("ie", "edge", 'd');
    MissingCharacter("ie", "safari", 's');
  }

  /**
   * `open_user_driver`'s headless chain, `if user_driver == 'firefox' ...
   * elif user_driver == 'edge'`: equality, not containment.  Any other
   * name falls off the end of the chain and the function returns None.
   */
  function HeadlessChoice(name: string): Option<Browser> {
    if name == "firefox" then Some(Firefox)
    else if name == "opera" then Some(Opera)
    else if name == "safari" then Some(Safari)
    else if name == "chrome" then Some(Chrome)
    else if name == "brave" then Some(Brave)
    else if name == "edge" then Some(Edge)
    else None
  }

  /** The headless chain picks a driver exactly for the six exact names, and then the one check_driver picks. */
  lemma HeadlessChoiceIsExact(name: string)
    ensures forall b :: HeadlessChoice(name) == Some(b) <==> name == DriverName(b)
    ensures HeadlessChoice(name).Some? ==> MatchDriver(name) == HeadlessChoice(name)
  {
    forall b ensures HeadlessChoice(name) == Some(b) <==> name == DriverName(b) {
      match b
      case Firefox => case Opera => case Chrome => case Brave => case Edge => case Safari =>
    }
    if HeadlessChoice(name).Some? {
      OwnNameSelectsItself(HeadlessChoice(name).value);
    }
  }

  /** A name `check_driver` accepts can still miss the headless chain. */
  lemma HeadlessChoiceExample()
    ensures MatchDriver("firefox2") == Some(Firefox)
    ensures HeadlessChoice("firefox2") == None
  {
    MatchDriverByContainment();
  }

  /** The Selenium class a launch instantiates. */
  datatype WebDriverClass = FirefoxClass | OperaClass | ChromeClass | EdgeClass | SafariClass

  /** The class each driver is launched with: Brave borrows Chrome's. */
  function ClassOf(b: Browser): WebDriverClass {
    match b
    case Firefox => FirefoxClass
    case Opera => OperaClass
    case Chrome => ChromeClass
    case Brave => ChromeClass
    case Edge => EdgeClass
    case Safari => SafariClass
  }

  /** The drivers whose headless setup passes a headless option; the others only print that it is unsupported. */
  predicate HasHeadlessOption(b: Browser) {
    b == Firefox || b == Opera || b == Chrome
  }

  /**
   * One call of a Selenium constructor: the class, whether a headless
   * option was passed, and the `binary_location` and `executable_path`
   * given to it, if any.
   */
  datatype Launch = Launch(
    cls: WebDriverClass,
    headless: bool,
    binaryLocation: Option<string>,
    executablePath: Option<string>)

  /**
   * `configure_bravedriver`: Brave runs under the Chrome class with its own
   * binary and driver, on the drive `drive` under Windows and at fixed
   * macOS paths elsewhere.
   */
  const BraveBinaryWindows := ":\\Program Files (x86)\\BraveSoftware\\Brave-Browser\\Application\\brave.exe"
  const BraveDriverWindows := ":\\Windows\\bravedriver.exe"
  const BraveBinaryMac := "/Applications/Brave Browser.app/Contents/MacOS/Brave Browser"
  const BraveDriverMac := "/usr/local/bin/bravedriver"

  const EdgeDriverWindows := ":\\Windows\\msedgedriver.exe"

  function ConfigureBrave(os: Os, drive: string): (l: Launch)
    ensures l.cls == ChromeClass && !l.headless
    ensures l.binaryLocation.Some? && l.executablePath.Some?
    ensures os == Windows ==> drive <= l.binaryLocation.value && drive <= l.executablePath.value
    ensures os == Windows ==>
      l.binaryLocation == Some(drive + BraveBinaryWindows) && l.executablePath == Some(drive + BraveDriverWindows)
    ensures os != Windows ==> l.binaryLocation == Some(BraveBinaryMac) && l.executablePath == Some(BraveDriverMac)
  {
    if os == Windows then
      Launch(ChromeClass, false, Some(drive + BraveBinaryWindows), Some(drive + BraveDriverWindows))
    else
      Launch(ChromeClass, false, Some(BraveBinaryMac), Some(BraveDriverMac))
  }

  /** `configure_edgedriver`: Edge is launched on Windows only; elsewhere the program exits. */
  function ConfigureEdge(os: Os, drive: string): (r: Result<Launch, ExitReason>)
    ensures r.Success? <==> os == Windows
    ensures r.Failure? ==> r.error == UnsupportedEdge
    ensures r.Success? ==> r.value.cls == EdgeClass && !r.value.headless && r.value.binaryLocation.None?
    ensures r.Success? ==> r.value.executablePath == Some(drive + EdgeDriverWindows)
  {
    if os == Windows then
      Success(Launch(EdgeClass, false, None, Some(drive + EdgeDriverWindows)))
    else
      Failure(UnsupportedEdge)
  }
}
