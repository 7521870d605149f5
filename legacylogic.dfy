/**
 * The older `logic()` of yt_videos_list/execute.py: the platform
 * classifier, `check_user_input` (URL, output guard, default driver and
 * `check_driver` with its `'invalid'` sentinel), `open_user_driver`, one
 * retry after `download_dependencies.run()`, the file name and the
 * writes.  The differences from the newer `logic()` in module `DevLogic`
 * are stated as lemmas about both.
 *
 * What the machine and the browser report (`platform.system()`, the drive
 * letter, whether a session could be created, whether the download pass
 * raised, the channel-name element, how many videos the scroll found) are
 * inputs in `Environment`.
 */
module LegacyLogic {
  import opened Common
  import opened PyStr
  import opened Drivers
  import DevLogic

  // ---------------------------------------------------------------------------
  // determine_user_os

  /** `determine_user_os`: the first of `darwin`, `linux`, `windows` that begins the lower-cased platform name. */
  function DetermineUserOs(platformName: string): Result<Os, ExitReason> {
    var p := Lower(platformName);
    if StartsWith(p, "darwin") then Success(MacOS)
    else if StartsWith(p, "linux") then Success(Linux)
    else if StartsWith(p, "windows") then Success(Windows)
    else Failure(UnsupportedOs)
  }

  /** The prefix `determine_user_os` tests for each OS. */
  function OsPrefix(os: Os): string {
    match os
    case MacOS => "darwin"
    case Linux => "linux"
    case Windows => "windows"
  }

  /** The three prefixes begin with different letters, so at most one of them begins any name. */
  lemma OsPrefixesExclusive(s: string, x: Os, y: Os)
    requires StartsWith(s, OsPrefix(x)) && StartsWith(s, OsPrefix(y))
    ensures x == y
  {
    assert OsPrefix(x)[0] == s[0] == OsPrefix(y)[0];
  }

  /**
   * The platform name selects an OS exactly when that OS's prefix begins its
   * lower-cased form; since the prefixes exclude each other, the order of
   * the tests does not matter.  Every other name exits.
   */
  lemma DetermineUserOsIff(platformName: string)
    ensures forall os :: DetermineUserOs(platformName) == Success(os) <==> StartsWith(Lower(platformName), OsPrefix(os))
    ensures DetermineUserOs(platformName).Failure? <==> forall os :: !StartsWith(Lower(platformName), OsPrefix(os))
    ensures DetermineUserOs(platformName).Failure? ==> DetermineUserOs(platformName).error == UnsupportedOs
  {
    var p := Lower(platformName);
    forall os ensures DetermineUserOs(platformName) == Success(os) <==> StartsWith(p, OsPrefix(os)) {
      if StartsWith(p, OsPrefix(os)) {
        match DetermineUserOs(platformName)
        case Success(x) => OsPrefixesExclusive(p, x, os);
        case Failure(_) =>
      }
    }
    forall os ensures DetermineUserOs(platformName).Failure? ==> !StartsWith(p, OsPrefix(os)) {
      match os
      case MacOS => case Linux => case Windows =>
    }
  }

  /**
   * A platform name whose lower-cased first letter is none of `d`, `l`, `w`
   * (`'Java'`, `'FreeBSD'`, `'CYGWIN_NT-10.0'`), or the empty name
   * `platform.system()` gives when it cannot tell, exits.
   */
  lemma UnknownPlatformExits(platformName: string)
    requires platformName == [] || LowerChar(platformName[0]) !in "dlw"
    ensures DetermineUserOs(platformName) == Failure(UnsupportedOs)
  {
    if platformName != [] {
      assert Lower(platformName)[0] == LowerChar(platformName[0]);
    }
  }

  /** Case does not matter: `'Darwin'`, as macOS reports itself, selects macOS. */
  lemma DarwinIsMacOS()
    ensures DetermineUserOs("Darwin") == Success(MacOS)
  {
    assert Lower("Darwin") == "darwin";
  }

  /** Cygwin's platform name begins with `CYGWIN`, so a Cygwin user is told the OS is unsupported. */
  lemma CygwinExits()
    ensures DetermineUserOs("CYGWIN_NT-10.0") == Failure(UnsupportedOs)
  {
    UnknownPlatformExits("CYGWIN_NT-10.0");
  }

  // ---------------------------------------------------------------------------
  // check_user_input

  /** The URL `check_user_input` builds from the channel and its type. */
  function LegacyUrl(channel: string, channelType: string): (url: string)
    ensures DevLogic.BaseUrl + "/" <= url
    ensures url[|DevLogic.BaseUrl| + 1..] == channelType + "/" + channel + "/" + DevLogic.Videos
  {
    var url := DevLogic.BaseUrl + "/" + channelType + "/" + channel + "/" + DevLogic.Videos;
    assert url == (DevLogic.BaseUrl + "/") + (channelType + "/" + channel + "/" + DevLogic.Videos);
    url
  }

  /**
   * The newer `process_url`, given the URL the older version builds,
   * rebuilds exactly that URL, as long as the channel and its type are
   * single path segments and no `youtube.com/` occurs in them.
   */
  lemma ProcessUrlKeepsLegacyUrl(channel: string, channelType: string)
    requires '/' !in channelType && '/' !in channel
    requires !Contains(channelType + "/" + channel + "/" + DevLogic.Videos, DevLogic.Marker)
    ensures DevLogic.ProcessUrl(LegacyUrl(channel, channelType)) == Success(LegacyUrl(channel, channelType))
  {
    var rest := "/" + DevLogic.Videos;
    DevLogic.HostHasNoMarker();
    LegacyUrlShape(channel, channelType, rest);
    DevLogic.ProcessUrlReads("https://www.", channelType, channel, rest, "");
  }

  /** The older URL as the pieces `ProcessUrlReads` takes apart. */
  lemma LegacyUrlShape(channel: string, channelType: string, rest: string)
    requires rest == "/" + DevLogic.Videos
    ensures LegacyUrl(channel, channelType) == "https://www." + DevLogic.Marker + channelType + "/" + channel + rest + ""
    ensures channelType + "/" + channel + rest == channelType + "/" + channel + "/" + DevLogic.Videos
  {
    HostAndMarker();
  }

  lemma HostAndMarker()
    ensures "https://www." + DevLogic.Marker == DevLogic.BaseUrl + "/"
  {
  }

  /** `check_user_input`'s output guard: only `txt` and `csv` count; `docx` is never looked at. */
  function FormatGuard(txt: bool, csv: bool, docx: bool): (exit: Option<ExitReason>)
    ensures exit.Some? <==> !txt && !csv
    ensures exit.Some? ==> exit.value == NotWritingToAnyFiles
  {
    if !txt && !csv then Some(NotWritingToAnyFiles) else None
  }

  /** The two guards disagree only on a run that asks for the newer version's markdown alone. */
  lemma GuardsDifferOnMarkdownOnly(txt: bool, csv: bool, docx: bool, markdown: bool)
    ensures FormatGuard(txt, csv, docx) != DevLogic.VerifyWritingToAtLeastOneFile(txt, csv, markdown)
      <==> !txt && !csv && markdown
  {
  }

  /** `check_driver`'s result: a constructor, or the sentinel `'invalid'`. */
  datatype DriverChoice = Selected(browser: Browser) | Invalid

  /**
   * `check_driver`: the first driver name contained in `userDriver`; for
   * Safari, exit off macOS before anything is launched; `'invalid'` when
   * no name occurs.
   */
  function CheckDriver(userDriver: string, os: Os): Result<DriverChoice, ExitReason> {
    match MatchDriver(userDriver)
    case None => Success(Invalid)
    case Some(Safari) => if os != MacOS then Failure(SafariSetupInstructions) else Success(Selected(Safari))
    case Some(b) => Success(Selected(b))
  }

  /** `check_driver` selects what the substring chain selects, except Safari off macOS, which exits. */
  lemma CheckDriverSelects(userDriver: string, os: Os)
    ensures forall b :: (CheckDriver(userDriver, os) == Success(Selected(b))
      <==> MatchDriver(userDriver) == Some(b) && (b == Safari ==> os == MacOS))
    ensures CheckDriver(userDriver, os) == Success(Invalid) <==> MatchDriver(userDriver).None?
    ensures CheckDriver(userDriver, os).Failure? <==> MatchDriver(userDriver) == Some(Safari) && os != MacOS
    ensures CheckDriver(userDriver, os).Failure? ==> CheckDriver(userDriver, os).error == SafariSetupInstructions
  {
  }

  /**
   * `check_user_input`: the URL, the output guard, the default driver and
   * `check_driver`, whose sentinel is an exit.  Success holds the URL, the
   * driver name after defaulting and the selection.
   */
  function UserInput(channel: string, channelType: string, txt: bool, csv: bool, docx: bool,
                          userDriver: Option<string>, os: Os): (r: Result<(string, string, Browser), ExitReason>)
    ensures r == Failure(NotWritingToAnyFiles) <==> !txt && !csv
    ensures r == Failure(SafariSetupInstructions) <==>
      (txt || csv) && MatchDriver(DevLogic.DefaultDriver(userDriver)) == Some(Safari) && os != MacOS
    ensures r == Failure(InvalidDriver) <==> (txt || csv) && MatchDriver(DevLogic.DefaultDriver(userDriver)).None?
    ensures r.Failure? ==> r.error in {NotWritingToAnyFiles, SafariSetupInstructions, InvalidDriver}
    ensures r.Success? <==>
      && (txt || csv)
      && MatchDriver(DevLogic.DefaultDriver(userDriver)).Some?
      && (MatchDriver(DevLogic.DefaultDriver(userDriver)) == Some(Safari) ==> os == MacOS)
    ensures r.Success? ==>
      && (txt || csv)
      && r.value.0 == LegacyUrl(channel, channelType)
      && r.value.1 == DevLogic.DefaultDriver(userDriver)
      && MatchDriver(r.value.1) == Some(r.value.2)
      && (r.value.2 == Safari ==> os == MacOS)
  {
    var url := LegacyUrl(channel, channelType);
    match FormatGuard(txt, csv, docx)
    case Some(x) => Failure(x)
    case None =>
      var name := DevLogic.DefaultDriver(userDriver);
      CheckDriverSelects(name, os);
      match CheckDriver(name, os)
      case Failure(x) => Failure(x)
      case Success(Invalid) => Failure(InvalidDriver)
      case Success(Selected(b)) => Success((url, name, b))
  }

  // ---------------------------------------------------------------------------
  // open_user_driver

  /**
   * A call of the constructor `check_driver` returned: a Selenium class for
   * firefox, opera, chrome and safari (with the headless option for the
   * first three when `headless`), a `configure_*` function for brave and
   * edge.  Safari was guarded in `check_driver` and is no longer checked.
   */
  function SeleniumDriver(selected: Browser, headless: bool, os: Os, drive: string): Result<Launch, ExitReason> {
    match selected
    case Firefox => Success(Launch(FirefoxClass, headless, None, None))
    case Opera => Success(Launch(OperaClass, headless, None, None))
    case Chrome => Success(Launch(ChromeClass, headless, None, None))
    case Brave => Success(ConfigureBrave(os, drive))
    case Edge => ConfigureEdge(os, drive)
    case Safari => Success(Launch(SafariClass, false, None, None))
  }

  /** `open_user_driver`: the same dispatch as the newer version's, over the older constructors. */
  function OpenUserDriver(userDriver: string, selected: Browser, headless: bool, os: Os, drive: string): (r: Result<Option<Launch>, ExitReason>)
    ensures r.Failure? ==> r.error == UnsupportedEdge
  {
    if !headless then DevLogic.Returned(SeleniumDriver(selected, false, os, drive))
    else
      match HeadlessChoice(userDriver)
      case None => Success(None)
      case Some(Firefox) => DevLogic.Returned(SeleniumDriver(selected, true, os, drive))
      case Some(Opera) => DevLogic.Returned(SeleniumDriver(selected, true, os, drive))
      case Some(Safari) => DevLogic.Returned(SeleniumDriver(selected, false, os, drive))
      case Some(Chrome) => DevLogic.Returned(SeleniumDriver(selected, true, os, drive))
      case Some(Brave) => Success(Some(ConfigureBrave(os, drive)))
      case Some(Edge) => DevLogic.Returned(ConfigureEdge(os, drive))
  }

  /** Both constructors agree on every driver except Safari off macOS. */
  lemma SeleniumDriversAgree(selected: Browser, headless: bool, os: Os, drive: string)
    requires selected == Safari ==> os == MacOS
    ensures SeleniumDriver(selected, headless, os, drive) == DevLogic.SeleniumDriver(selected, headless, os, drive)
  {
  }

  /**
   * Wherever `check_driver` lets a selection through, the older
   * `open_user_driver` does what the newer one does: the only change
   * between the two is where the Safari guard sits.
   */
  lemma OpenUserDriversAgree(userDriver: string, selected: Browser, headless: bool, os: Os, drive: string)
    requires selected == Safari ==> os == MacOS
    ensures OpenUserDriver(userDriver, selected, headless, os, drive) == DevLogic.OpenUserDriver(userDriver, selected, headless, os, drive)
  {
    SeleniumDriversAgree(selected, headless, os, drive);
    SeleniumDriversAgree(selected, false, os, drive);
  }

  /**
   * What opening the driver `check_user_input` selected does: it exits
   * exactly for Edge off Windows, returns None exactly for a headless
   * name that is not exact, and otherwise launches the selected class.
   */
  lemma OpenUserDriverOutcome(userDriver: string, selected: Browser, headless: bool, os: Os, drive: string)
    requires MatchDriver(userDriver) == Some(selected)
    requires selected == Safari ==> os == MacOS
    ensures var r := OpenUserDriver(userDriver, selected, headless, os, drive);
      && (r.Failure? <==> DevLogic.ReachesSetup(userDriver, headless) && selected == Edge && os != Windows)
      && (r == Success(None) <==> !DevLogic.ReachesSetup(userDriver, headless))
      && (r.Success? && r.value.Some? ==>
            r.value.value.cls == ClassOf(selected) && r.value.value.headless == (headless && HasHeadlessOption(selected)))
  {
    OpenUserDriversAgree(userDriver, selected, headless, os, drive);
    DevLogic.OpenUserDriverOutcome(userDriver, headless, os, drive);
  }

  // ---------------------------------------------------------------------------
  // determine_file_name

  const VideosListSuffix := "_videos_list"

  /** `determine_file_name`: a given name unchanged, else the channel's name without spaces and `_videos_list`. */
  function DetermineFileName(fileName: Option<string>, channelName: string): (r: string)
    ensures fileName.Some? ==> r == fileName.value
    ensures fileName.None? ==>
      var n := |r| - |VideosListSuffix|;
      && 0 <= n && r[n..] == VideosListSuffix
      && ' ' !in r
      && forall x :: x != ' ' ==> multiset(r[..n])[x] == multiset(channelName)[x]
    ensures fileName.None? ==> r == RemoveChar(channelName, ' ') + VideosListSuffix
  {
    match fileName
    case Some(f) => f
    case None =>
      var stem := RemoveChar(channelName, ' ');
      SuffixAfterStem(stem, channelName);
      stem + VideosListSuffix
  }

  lemma SuffixAfterStem(stem: string, channelName: string)
    requires ' ' !in stem
    requires forall x :: x != ' ' ==> multiset(stem)[x] == multiset(channelName)[x]
    ensures var r := stem + VideosListSuffix; var n := |r| - |VideosListSuffix|;
      && 0 <= n && r[n..] == VideosListSuffix
      && ' ' !in r
      && forall x :: x != ' ' ==> multiset(r[..n])[x] == multiset(channelName)[x]
  {
    var r := stem + VideosListSuffix;
    assert r[..|stem|] == stem;
    assert r[|stem|..] == VideosListSuffix;
  }

  /** A strip that removes nothing changes nothing. */
  lemma StripFull(s: string, chars: string)
    requires |Strip(s, chars)| == |s|
    ensures Strip(s, chars) == s
  {
    var i := StripStart(s, chars);
    assert s[0..|s|] == s;
  }

  /** Three strips in a row give back the name exactly when each of them leaves it alone. */
  lemma ThreeStripsFixed(f: string, a: string, b: string, c: string)
    ensures Strip(Strip(Strip(f, a), b), c) == f <==> Strip(f, a) == f && Strip(f, b) == f && Strip(f, c) == f
  {
    var m1 := Strip(f, a);
    var m2 := Strip(m1, b);
    var m3 := Strip(m2, c);
    var i1 := StripStart(f, a);
    var i2 := StripStart(m1, b);
    var i3 := StripStart(m2, c);
    if m3 == f {
      StripFull(f, a);
      StripFull(m1, b);
    }
  }

  /** A strip leaves a name alone exactly when neither end is in the set. */
  lemma StripLeavesAlone(s: string, chars: string)
    ensures Strip(s, chars) == s <==> s == [] || (s[0] !in chars && s[|s| - 1] !in chars)
  {
    if s == [] || (s[0] !in chars && s[|s| - 1] !in chars) {
      DevLogic.StripKeeps(s, chars);
    }
  }

  /** Three strips in a row give back the name exactly when neither end is in any of the sets. */
  lemma ThreeStripsFixedIff(f: string, a: string, b: string, c: string)
    ensures Strip(Strip(Strip(f, a), b), c) == f <==> f == [] || (f[0] !in a + b + c && f[|f| - 1] !in a + b + c)
  {
    ThreeStripsFixed(f, a, b, c);
    StripLeavesAlone(f, a);
    StripLeavesAlone(f, b);
    StripLeavesAlone(f, c);
  }

  /**
   * A given file name: the older version keeps it as it is; the newer one
   * agrees exactly when neither end of the name is one of the characters
   * `.`, `c`, `s`, `v`, `t`, `x`, `m`, `d`.
   */
  lemma GivenNamesAgreeIff(f: string, channelName: string, reverseChronological: bool)
    ensures DevLogic.DetermineFileName(Some(f), channelName, reverseChronological) == DetermineFileName(Some(f), channelName)
      <==> f == [] || (f[0] !in ".csv" + ".txt" + ".md" && f[|f| - 1] !in ".csv" + ".txt" + ".md")
  {
    GivenNames(f, channelName, reverseChronological);
    ThreeStripsFixedIff(f, ".csv", ".txt", ".md");
  }

  lemma GivenNames(f: string, channelName: string, reverseChronological: bool)
    ensures DevLogic.DetermineFileName(Some(f), channelName, reverseChronological) == Strip(Strip(Strip(f, ".csv"), ".txt"), ".md")
    ensures DetermineFileName(Some(f), channelName) == f
  {
  }

  // ---------------------------------------------------------------------------
  // The writes

  /** The two files the older version writes. */
  datatype Format = Txt | Csv

  /** The two guarded writes, `if txt is True: ... if csv is True: ...`, in order. */
  function Writes(txt: bool, csv: bool): (w: seq<Format>)
    ensures Txt in w <==> txt
    ensures Csv in w <==> csv
    ensures |w| <= 2 && (|w| == 2 ==> w == [Txt, Csv])
  {
    (if txt then [Txt] else []) + (if csv then [Csv] else [])
  }

  /** The files written for a scraped list: none for an empty list, else the guarded writes. */
  function WriteGate(videoCount: nat, txt: bool, csv: bool): (w: seq<Format>)
    ensures videoCount == 0 ==> w == []
    ensures videoCount > 0 ==> w == Writes(txt, csv)
  {
    if videoCount == 0 then [] else Writes(txt, csv)
  }

  // ---------------------------------------------------------------------------
  // A run of logic()

  /** The arguments of the older `logic()` that the modelled decisions read. */
  datatype Arguments = Arguments(
    channel: string,
    channelType: string,
    fileName: Option<string>,
    txt: bool,
    csv: bool,
    docx: bool,
    headless: bool,
    userDriver: Option<string>)

  /** What the machine, the network and the browser report during a run. */
  datatype Environment = Environment(
    platformName: string,        // platform.system()
    drive: string,               // get_drive_letter(), read on Windows only
    firstOpenFails: bool,        // the first session raises WebDriverException
    downloadFails: bool,         // download_dependencies.run() raises
    retryOpenFails: bool,        // the session launched after it raises too
    channelName: string,         // the text of the channel-name element
    videoCount: nat)             // how many videos scroll_to_bottom returns

  /**
   * How the older `logic()` ends: an exit, an uncaught exception, a return
   * after the setup instructions, or a return after the scrape, with the
   * files written for `fileName`.
   */
  datatype Outcome =
    | Exited(reason: ExitReason)
    | Raised(error: PyError)
    | ShowedSetupInstructions
    | Finished(url: string, launch: Launch, fileName: string, written: seq<Format>)

  datatype LegacyRun = LegacyRun(outcome: Outcome, attempts: nat, downloaded: bool)

  /** `user_os = determine_user_os()` then `check_user_input()`: the two steps before any launch. */
  function Prepare(a: Arguments, e: Environment): (r: Result<(Os, string, string, Browser), ExitReason>)
    ensures r == Failure(UnsupportedOs) <==> DetermineUserOs(e.platformName).Failure?
    ensures DetermineUserOs(e.platformName).Success? ==>
      var input := UserInput(a.channel, a.channelType, a.txt, a.csv, a.docx, a.userDriver, DetermineUserOs(e.platformName).value);
      && (r.Failure? <==> input.Failure?)
      && (r.Failure? ==> r.error == input.error)
    ensures r.Failure? ==> (r.error == NotWritingToAnyFiles <==> DetermineUserOs(e.platformName).Success? && !a.txt && !a.csv)
    ensures r.Success? ==>
      && DetermineUserOs(e.platformName) == Success(r.value.0)
      && UserInput(a.channel, a.channelType, a.txt, a.csv, a.docx, a.userDriver, r.value.0)
           == Success((r.value.1, r.value.2, r.value.3))
  {
    match DetermineUserOs(e.platformName)
    case Failure(x) => Failure(x)
    case Success(os) =>
      match UserInput(a.channel, a.channelType, a.txt, a.csv, a.docx, a.userDriver, os)
      case Failure(x) => Failure(x)
      case Success((url, name, selected)) => Success((os, url, name, selected))
  }

  /** `with driver:` and its body: the file name, the scroll, the empty-list return and the writes. */
  function Scrape(url: string, driver: Option<Launch>, a: Arguments, e: Environment): (o: Outcome)
    ensures o.Raised? ==> o.error == AttributeError
    ensures !o.Exited? && !o.ShowedSetupInstructions?
  {
    match driver
    case None => Raised(AttributeError)
    case Some(l) => Finished(url, l, DetermineFileName(a.fileName, e.channelName), WriteGate(e.videoCount, a.txt, a.csv))
  }

  /**
   * A whole run of the older `logic()`.  The retry, `download_dependencies.run()`
   * and a second `open_user_driver()`, sits under a bare `except:`, so any
   * failure in it shows the setup instructions and returns.
   */
  function Run(a: Arguments, e: Environment): LegacyRun {
    match Prepare(a, e)
    case Failure(x) => LegacyRun(Exited(x), 0, false)
    case Success((os, url, name, selected)) => RunFrom(os, url, name, selected, a, e)
  }

  /** The run from the first `open_user_driver()` on. */
  function RunFrom(os: Os, url: string, name: string, selected: Browser, a: Arguments, e: Environment): LegacyRun {
    match OpenUserDriver(name, selected, a.headless, os, e.drive)
    case Failure(x) => LegacyRun(Exited(x), 1, false)
    case Success(launched) =>
      if launched.Some? && e.firstOpenFails then
        if e.downloadFails then LegacyRun(ShowedSetupInstructions, 1, true)
        else if e.retryOpenFails then LegacyRun(ShowedSetupInstructions, 2, true)
        else LegacyRun(Scrape(url, launched, a, e), 2, true)
      else LegacyRun(Scrape(url, launched, a, e), 1, false)
  }

  /** The platform is classified first: an unknown one exits before the arguments are even checked. */
  lemma UnknownOsExitsFirst(a: Arguments, e: Environment)
    requires DetermineUserOs(e.platformName).Failure?
    ensures Run(a, e) == LegacyRun(Exited(UnsupportedOs), 0, false)
  {
  }

  /** On a known platform the program exits before any launch exactly when neither txt nor csv is asked for. */
  lemma NoFormatExits(a: Arguments, e: Environment)
    ensures Run(a, e).outcome == Exited(NotWritingToAnyFiles)
      <==> DetermineUserOs(e.platformName).Success? && !a.txt && !a.csv
    ensures Run(a, e).outcome == Exited(NotWritingToAnyFiles) ==> Run(a, e).attempts == 0
  {
    if Prepare(a, e).Success? {
      var (os, url, name, selected) := Prepare(a, e).value;
      OpenUserDriverNeverExitsForFormat(name, selected, a.headless, os, e.drive);
    }
  }

  lemma OpenUserDriverNeverExitsForFormat(name: string, selected: Browser, headless: bool, os: Os, drive: string)
    ensures OpenUserDriver(name, selected, headless, os, drive) != Failure(NotWritingToAnyFiles)
  {
  }

  /** The `docx` flag changes nothing about a run. */
  lemma DocxIgnored(a: Arguments, e: Environment, docx: bool)
    ensures Run(a.(docx := docx), e) == Run(a, e)
  {
    var b := a.(docx := docx);
    assert Prepare(b, e) == Prepare(a, e);
    if Prepare(a, e).Success? {
      var (os, url, name, selected) := Prepare(a, e).value;
      assert RunFrom(os, url, name, selected, b, e) == RunFrom(os, url, name, selected, a, e);
    }
  }

  /**
   * Safari off macOS exits inside `check_driver`, before any launch, even
   * for a headless name that is not exact; the newer version would reach
   * `with driver:` with None for such a name and raise instead.
   */
  lemma SafariExitsBeforeLaunch(a: Arguments, e: Environment)
    requires DetermineUserOs(e.platformName).Success? && DetermineUserOs(e.platformName).value != MacOS
    requires a.txt || a.csv
    requires MatchDriver(DevLogic.DefaultDriver(a.userDriver)) == Some(Safari)
    ensures Run(a, e) == LegacyRun(Exited(SafariSetupInstructions), 0, false)
  {
    CheckDriverSelects(DevLogic.DefaultDriver(a.userDriver), DetermineUserOs(e.platformName).value);
  }

  /** Once input checking has passed, the run never ends with one of the exits taken before the launch. */
  lemma NotFromRunFrom(a: Arguments, e: Environment)
    requires Prepare(a, e).Success?
    ensures var run := Run(a, e);
      && run.outcome != Exited(UnsupportedOs) && run.outcome != Exited(NotWritingToAnyFiles)
      && run.outcome != Exited(SafariSetupInstructions) && run.outcome != Exited(InvalidDriver)
  {
  }

  /**
   * On a known platform with a format chosen, a driver name that matches no
   * driver gives the `'invalid'` sentinel and the program exits before any
   * browser is tried.
   */
  lemma UnknownNameExits(a: Arguments, e: Environment)
    ensures Run(a, e).outcome == Exited(InvalidDriver) <==>
      && DetermineUserOs(e.platformName).Success?
      && (a.txt || a.csv)
      && MatchDriver(DevLogic.DefaultDriver(a.userDriver)).None?
    ensures Run(a, e).outcome == Exited(InvalidDriver) ==> Run(a, e) == LegacyRun(Exited(InvalidDriver), 0, false)
  {
    if Prepare(a, e).Success? {
      NotFromRunFrom(a, e);
    }
  }

  /** The first launch succeeded in building a driver but its session raised WebDriverException. */
  predicate FirstOpenRaises(a: Arguments, e: Environment) {
    && Prepare(a, e).Success?
    && (var (os, _, name, selected) := Prepare(a, e).value;
        var r := OpenUserDriver(name, selected, a.headless, os, e.drive);
        r.Success? && r.value.Some?)
    && e.firstOpenFails
  }

  /**
   * At most two attempts, the download pass runs exactly when the first
   * session raised, and a failed download or a failed retry shows the
   * setup instructions and returns normally: the older version never
   * exits after a launch failed.
   */
  lemma RetryFailureReturns(a: Arguments, e: Environment)
    ensures var run := Run(a, e);
      && run.attempts <= 2
      && (run.downloaded <==> FirstOpenRaises(a, e))
      && (run.attempts == 2 <==> FirstOpenRaises(a, e) && !e.downloadFails)
      && (run.outcome == ShowedSetupInstructions <==> FirstOpenRaises(a, e) && (e.downloadFails || e.retryOpenFails))
      && (FirstOpenRaises(a, e) ==> !run.outcome.Exited?)
  {
  }

  /**
   * Every run that scrapes used the URL `check_user_input` built, the
   * driver `check_driver` selected and the name `determine_file_name`
   * gives; it writes nothing for an empty list and otherwise exactly the
   * requested files, of which there is at least one.
   */
  lemma FinishedRun(a: Arguments, e: Environment)
    ensures var run := Run(a, e);
      run.outcome.Finished? ==>
        && run.outcome.url == LegacyUrl(a.channel, a.channelType)
        && MatchDriver(DevLogic.DefaultDriver(a.userDriver)).Some?
        && run.outcome.launch.cls == ClassOf(MatchDriver(DevLogic.DefaultDriver(a.userDriver)).value)
        && run.outcome.fileName == DetermineFileName(a.fileName, e.channelName)
        && (e.videoCount == 0 <==> run.outcome.written == [])
        && (e.videoCount > 0 ==> (Txt in run.outcome.written <==> a.txt) && (Csv in run.outcome.written <==> a.csv))
  {
    if Prepare(a, e).Success? {
      var (os, url, name, selected) := Prepare(a, e).value;
      OpenUserDriverOutcome(name, selected, a.headless, os, e.drive);
    }
  }

  // ---------------------------------------------------------------------------
  // The closure state

  /**
   * The closure state of one older `logic()` call: `user_driver`, which
   * `check_user_input` rebinds, `driver`, which the first attempt or the
   * retry binds, the count of `open_user_driver` calls, whether the
   * download pass ran, and the files written so far.
   */
  class Session {
    var userDriver: Option<string>
    var driver: Option<Launch>
    var attempts: nat
    var downloaded: bool
    var written: seq<Format>

    constructor (userDriver: Option<string>)
      ensures this.userDriver == userDriver && driver == None && attempts == 0 && !downloaded && written == []
    {
      this.userDriver := userDriver;
      driver := None;
      attempts := 0;
      downloaded := false;
      written := [];
    }

    /** `check_user_input`: the URL, the output guard, then the default driver and `check_driver`. */
    method CheckUserInput(a: Arguments, os: Os) returns (r: Result<(string, Browser), ExitReason>)
      requires userDriver == a.userDriver
      modifies this
      ensures driver == old(driver) && attempts == old(attempts) && downloaded == old(downloaded) && written == old(written)
      ensures r.Success? ==> userDriver == Some(DevLogic.DefaultDriver(a.userDriver))
      ensures var spec := UserInput(a.channel, a.channelType, a.txt, a.csv, a.docx, a.userDriver, os);
        && (r.Failure? <==> spec.Failure?)
        && (r.Failure? ==> r.error == spec.error)
        && (r.Success? ==> r.value == (spec.value.0, spec.value.2))
    {
      var url := LegacyUrl(a.channel, a.channelType);
      var exit := FormatGuard(a.txt, a.csv, a.docx);
      if exit.Some? {
        return Failure(exit.value);
      }
      if userDriver.None? {
        userDriver := Some("firefox");
      }
      var choice := CheckDriver(userDriver.value, os);
      if choice.Failure? {
        return Failure(choice.error);
      }
      if choice.value.Invalid? {
        return Failure(InvalidDriver);
      }
      r := Success((url, choice.value.browser));
    }

    /** One call of `open_user_driver`. */
    method Open(selected: Browser, headless: bool, os: Os, drive: string) returns (r: Result<Option<Launch>, ExitReason>)
      requires userDriver.Some?
      modifies this
      ensures attempts == old(attempts) + 1
      ensures userDriver == old(userDriver) && driver == old(driver) && downloaded == old(downloaded) && written == old(written)
      ensures r == OpenUserDriver(userDriver.value, selected, headless, os, drive)
    {
      attempts := attempts + 1;
      r := OpenUserDriver(userDriver.value, selected, headless, os, drive);
    }

    /** The two guarded writes at the end of `logic()`, after the empty-list return. */
    method WriteFiles(videoCount: nat, txt: bool, csv: bool)
      modifies this
      ensures written == old(written) + WriteGate(videoCount, txt, csv)
      ensures userDriver == old(userDriver) && driver == old(driver) && attempts == old(attempts) && downloaded == old(downloaded)
    {
      if videoCount == 0 {
        return;
      }
      if txt {
        written := written + [Txt];
      }
      if csv {
        written := written + [Csv];
      }
    }

    /** `logic()` from `determine_user_os()` to its last write. */
    method Logic(a: Arguments, e: Environment) returns (outcome: Outcome)
      requires userDriver == a.userDriver && driver.None? && attempts == 0 && !downloaded && written == []
      modifies this
      ensures LegacyRun(outcome, attempts, downloaded) == Run(a, e)
      ensures outcome.Finished? ==> written == outcome.written && driver == Some(outcome.launch)
      ensures !outcome.Finished? ==> written == []
    {
      var os := DetermineUserOs(e.platformName);
      if os.Failure? {
        return Exited(os.error);
      }
      var input := CheckUserInput(a, os.value);
      if input.Failure? {
        return Exited(input.error);
      }
      assert Prepare(a, e) == Success((os.value, input.value.0, userDriver.value, input.value.1));
      outcome := OpenAndScrape(os.value, input.value.0, input.value.1, a, e);
    }

    /** The attempts to open the selected driver, then the body of `with driver:`. */
    method OpenAndScrape(os: Os, url: string, selected: Browser, a: Arguments, e: Environment) returns (outcome: Outcome)
      requires userDriver.Some? && driver.None? && attempts == 0 && !downloaded && written == []
      modifies this
      ensures userDriver == old(userDriver)
      ensures LegacyRun(outcome, attempts, downloaded) == RunFrom(os, url, userDriver.value, selected, a, e)
      ensures outcome.Finished? ==> written == outcome.written && driver == Some(outcome.launch)
      ensures !outcome.Finished? ==> written == []
    {
      var launched := Open(selected, a.headless, os, e.drive);
      if launched.Failure? {
        outcome := Exited(launched.error);
      } else if launched.value.Some? && e.firstOpenFails {
        downloaded := true;
        if e.downloadFails {
          outcome := ShowedSetupInstructions;
        } else {
          var reopened := Open(selected, a.headless, os, e.drive);
          if e.retryOpenFails {
            outcome := ShowedSetupInstructions;
          } else {
            driver := reopened.value;
            outcome := WithDriver(url, a, e);
          }
        }
      } else {
        driver := launched.value;
        outcome := WithDriver(url, a, e);
      }
    }

    /** `with driver:`: None raises; otherwise the file name, the scroll and the writes. */
    method WithDriver(url: string, a: Arguments, e: Environment) returns (outcome: Outcome)
      requires written == []
      modifies this
      ensures outcome == Scrape(url, driver, a, e)
      ensures userDriver == old(userDriver) && driver == old(driver) && attempts == old(attempts) && downloaded == old(downloaded)
      ensures outcome.Finished? ==> written == outcome.written
      ensures !outcome.Finished? ==> written == []
    {
      if driver.None? {
        return Raised(AttributeError);
      }
      var fileName := DetermineFileName(a.fileName, e.channelName);
      WriteFiles(e.videoCount, a.txt, a.csv);
      outcome := Finished(url, driver.value, fileName, written);
    }
  }
}
