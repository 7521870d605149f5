/**
 * The newer `logic()` of python/dev/execute.py: the output-format guard,
 * the URL parser, driver selection, opening the driver with one retry
 * after a dependency download, the element wait and the file name.
 *
 * What the machine and the browser report (the OS, the drive letter,
 * whether a Selenium session could be created, whether the channel-name
 * element loaded, its text) are inputs in `Environment`.  The result of a
 * run is a `DevRun`: how it ended, how many times `open_user_driver` was
 * called, and the trace of the download pass if one happened.
 */
module DevLogic {
  import opened Common
  import opened PyStr
  import opened Drivers
  import Dependencies

  /** `verify_writing_to_at_least_one_file`: the exit it takes, if any. */
  function VerifyWritingToAtLeastOneFile(txt: bool, csv: bool, markdown: bool): (exit: Option<ExitReason>)
    ensures exit.Some? <==> !txt && !csv && !markdown
    ensures exit.Some? ==> exit.value == NotWritingToAnyFiles
  {
    if !txt && !csv && !markdown then Some(NotWritingToAnyFiles) else None
  }

  const Marker := "youtube.com/"
  const BaseUrl := "https://www.youtube.com"
  const Videos := "videos"

  /**
   * Reference definition of `url.split('youtube.com/')[1]`: the text after
   * the first `youtube.com/`, up to the next one if there is one.
   */
  function ChannelInfo(url: string): string
    requires Contains(url, Marker)
  {
    var i := Find(url, Marker).value;
    Split(url[i + |Marker|..], Marker)[0]
  }

  /**
   * `process_url`: the first two `/`-separated segments of the channel
   * information, rebuilt into the canonical videos URL; a missing segment
   * is the `IndexError` that makes the program exit.
   */
  function ProcessUrl(url: string): (r: Result<string, ExitReason>)
    ensures r.Failure? ==> r.error == UrlError
  {
    var parts := Split(url, Marker);
    if |parts| < 2 then Failure(UrlError)
    else
      var segments := Split(parts[1], "/");
      if |segments| < 2 then Failure(UrlError)
      else Success(BaseUrl + "/" + segments[0] + "/" + segments[1] + "/" + Videos)
  }

  /** `process_url` fails exactly when the marker is missing or the channel information holds no `/`. */
  lemma ProcessUrlFailsIff(url: string)
    ensures ProcessUrl(url).Success? <==> Contains(url, Marker) && '/' in ChannelInfo(url)
  {
    var parts := Split(url, Marker);
    if |parts| >= 2 {
      ContainsChar(parts[1], '/');
    }
  }

  /** The URL `process_url` builds from the segments it finds. */
  lemma ProcessUrlFromSegments(url: string, info: string, t: string, c: string)
    requires |Split(url, Marker)| >= 2 && Split(url, Marker)[1] == info
    requires |Split(info, "/")| >= 2 && Split(info, "/")[0] == t && Split(info, "/")[1] == c
    ensures ProcessUrl(url) == Success(BaseUrl + "/" + t + "/" + c + "/" + Videos)
  {
  }

  /** The first `/`-separated segment of `c` followed by more path is `c`. */
  lemma FirstSegment(c: string, rest: string)
    requires '/' !in c
    requires rest == [] || rest[0] == '/'
    ensures Split(c + rest, "/")[0] == c
  {
    if rest == [] {
      assert c + rest == c;
      SplitCharNone(c, '/');
    } else {
      assert c + rest == c + ['/'] + rest[1..];
      SplitCharFirst(c, '/', rest[1..]);
    }
  }

  /** The first two `/`-separated segments of `t/c` followed by more path are `t` and `c`. */
  lemma FirstTwoSegments(t: string, c: string, rest: string)
    requires '/' !in t && '/' !in c
    requires rest == [] || rest[0] == '/'
    ensures var segments := Split(t + "/" + c + rest, "/");
      |segments| >= 2 && segments[0] == t && segments[1] == c
  {
    var u := c + rest;
    assert t + "/" + c + rest == t + ['/'] + u;
    SplitCharFirst(t, '/', u);
    FirstSegment(c, rest);
  }

  /** The last character of the marker occurs in it only there, so an occurrence cannot straddle a boundary. */
  lemma MarkerEndsUniquely()
    ensures forall k :: 0 <= k < |Marker| - 1 ==> Marker[k] != Marker[|Marker| - 1]
  {
  }

  /** The channel information is the text between the first marker and the next. */
  lemma {:induction false} ChannelInfoAfter(p: string, info: string, tail: string)
    requires !Contains(p, Marker) && !Contains(info, Marker)
    requires tail == [] || Marker <= tail
    ensures Contains(p + Marker + info + tail, Marker)
    ensures ChannelInfo(p + Marker + info + tail) == info
    ensures |Split(p + Marker + info + tail, Marker)| >= 2 && Split(p + Marker + info + tail, Marker)[1] == info
  {
    var url := p + Marker + info + tail;
    MarkerEndsUniquely();
    assert url == p + Marker + (info + tail);
    SplitAfterFirst(p, Marker, info + tail);
    ContainsConcat(p, Marker, info + tail);
    if tail == [] {
      assert info + tail == info;
    } else {
      assert info + tail == info + Marker + tail[|Marker|..];
      SplitAfterFirst(info, Marker, tail[|Marker|..]);
    }
    assert Split(info + tail, Marker)[0] == info;
    assert url[..|p|] == p;
    assert Find(url, Marker) == Some(|p|);
    assert url[|p| + |Marker|..] == info + tail;
  }

  /**
   * `process_url` reads the channel type `t` and the channel `c` from any
   * URL that holds them after its first marker, whatever precedes the
   * marker and whatever follows `c` (more path, or another marker).
   */
  lemma {:induction false} ProcessUrlReads(p: string, t: string, c: string, rest: string, tail: string)
    requires !Contains(p, Marker)
    requires '/' !in t && '/' !in c
    requires rest == [] || rest[0] == '/'
    requires !Contains(t + "/" + c + rest, Marker)
    requires tail == [] || Marker <= tail
    ensures ProcessUrl(p + Marker + t + "/" + c + rest + tail) == Success(BaseUrl + "/" + t + "/" + c + "/" + Videos)
  {
    var info := t + "/" + c + rest;
    var url := p + Marker + t + "/" + c + rest + tail;
    assert url == p + Marker + info + tail;
    ChannelInfoAfter(p, info, tail);
    FirstTwoSegments(t, c, rest);
    ProcessUrlFromSegments(url, info, t, c);
  }

  /** The scheme and host in front of the marker hold no marker. */
  lemma HostHasNoMarker()
    ensures !Contains("https://www.", Marker)
  {
    MissingCharacter("https://www.", Marker, 'y');
  }

  lemma ExampleUrlSplits()
    ensures "https://www.youtube.com/user/schafer5" == "https://www." + Marker + "user" + "/" + "schafer5" + "" + ""
  {
  }

  lemma ExampleInfoHasNoMarker()
    ensures !Contains("user" + "/" + "schafer5" + "", Marker)
  {
    assert "user" + "/" + "schafer5" + "" == "user/schafer5";
    MissingCharacter("user/schafer5", Marker, 'y');
  }

  lemma ExampleVideosUrl()
    ensures BaseUrl + "/" + "user" + "/" + "schafer5" + "/" + Videos == "https://www.youtube.com/user/schafer5/videos"
  {
  }

  /** A channel URL as a user would paste it is rebuilt into the videos page. */
  lemma ProcessUrlExample()
    ensures ProcessUrl("https://www.youtube.com/user/schafer5") == Success("https://www.youtube.com/user/schafer5/videos")
  {
    HostHasNoMarker();
    ExampleUrlSplits();
    ExampleInfoHasNoMarker();
    ExampleVideosUrl();
    ProcessUrlReads("https://www.", "user", "schafer5", "", "");
  }

  lemma ShortUrlParts()
    ensures "https://www.youtube.com/schafer5" == "https://www." + Marker + "schafer5" + ""
    ensures !Contains("schafer5", Marker) && '/' !in "schafer5"
  {
    MissingCharacter("schafer5", Marker, 'y');
  }

  /** A URL with only one segment after the marker is refused. */
  lemma ProcessUrlNeedsTwoSegments()
    ensures ProcessUrl("https://www.youtube.com/schafer5") == Failure(UrlError)
  {
    HostHasNoMarker();
    ShortUrlParts();
    ChannelInfoAfter("https://www.", "schafer5", "");
    ProcessUrlFailsIff("https://www.youtube.com/schafer5");
  }


  /** `check_driver`'s default: an unset driver becomes `'firefox'`. */
  function DefaultDriver(userDriver: Option<string>): (name: string)
    ensures userDriver.Some? ==> name == userDriver.value
    ensures userDriver.None? ==> name == DriverName(Firefox) && MatchDriver(name) == Some(Firefox)
  {
    OwnNameSelectsItself(Firefox);
    userDriver.GetOr("firefox")
  }

  /** `configure_safaridriver`: Safari is launched on macOS only; elsewhere the program exits. */
  function ConfigureSafari(os: Os): (r: Result<Launch, ExitReason>)
    ensures r.Success? <==> os == MacOS
    ensures r.Failure? ==> r.error == SafariSetupInstructions
    ensures r.Success? ==> r.value == Launch(SafariClass, false, None, None)
  {
    if os == MacOS then Success(Launch(SafariClass, false, None, None)) else Failure(SafariSetupInstructions)
  }

  /**
   * A call of `seleniumdriver`, the constructor `check_driver` returned:
   * a Selenium class for firefox, opera and chrome (with the headless
   * option when `headless`), a `configure_*` function for the others.
   */
  function SeleniumDriver(selected: Browser, headless: bool, os: Os, drive: string): Result<Launch, ExitReason> {
    match selected
    case Firefox => Success(Launch(FirefoxClass, headless, None, None))
    case Opera => Success(Launch(OperaClass, headless, None, None))
    case Chrome => Success(Launch(ChromeClass, headless, None, None))
    case Brave => Success(ConfigureBrave(os, drive))
    case Edge => ConfigureEdge(os, drive)
    case Safari => ConfigureSafari(os)
  }

  /** A launched driver as the value `open_user_driver` returns. */
  function Returned(r: Result<Launch, ExitReason>): Result<Option<Launch>, ExitReason> {
    match r
    case Success(l) => Success(Some(l))
    case Failure(e) => Failure(e)
  }

  /**
   * `open_user_driver`: `seleniumdriver()` unless headless; when headless,
   * the `set_up_headless_*` function of the driver named exactly
   * `userDriver`, or None when no name is equal.
   */
  function OpenUserDriver(userDriver: string, selected: Browser, headless: bool, os: Os, drive: string): (r: Result<Option<Launch>, ExitReason>)
    ensures r.Failure? ==> r.error == UnsupportedEdge || r.error == SafariSetupInstructions
  {
    if !headless then Returned(SeleniumDriver(selected, false, os, drive))
    else
      match HeadlessChoice(userDriver)
      case None => Success(None)
      case Some(Firefox) => Returned(SeleniumDriver(selected, true, os, drive))
      case Some(Opera) => Returned(SeleniumDriver(selected, true, os, drive))
      case Some(Safari) => Returned(SeleniumDriver(selected, false, os, drive))
      case Some(Chrome) => Returned(SeleniumDriver(selected, true, os, drive))
      case Some(Brave) => Success(Some(ConfigureBrave(os, drive)))
      case Some(Edge) => Returned(ConfigureEdge(os, drive))
  }

  /** The driver name reaches a `set_up_*` function: always when not headless, only for an exact name when headless. */
  predicate ReachesSetup(userDriver: string, headless: bool) {
    !headless || HeadlessChoice(userDriver).Some?
  }

  /** What `OpenUserDriver` does with a launch that reaches the selected driver's setup. */
  predicate LaunchesSelected(r: Result<Option<Launch>, ExitReason>, selected: Browser, headless: bool, os: Os) {
    && (r.Failure? <==> (selected == Edge && os != Windows) || (selected == Safari && os != MacOS))
    && (r.Failure? ==> r.error == (if selected == Edge then UnsupportedEdge else SafariSetupInstructions))
    && (r.Success? ==> r.value.Some? && r.value.value.cls == ClassOf(selected)
                       && r.value.value.headless == (headless && HasHeadlessOption(selected)))
  }

  lemma OpenNotHeadless(userDriver: string, selected: Browser, os: Os, drive: string)
    ensures LaunchesSelected(OpenUserDriver(userDriver, selected, false, os, drive), selected, false, os)
  {
    match selected
    case Firefox => case Opera => case Chrome => case Brave => case Edge => case Safari =>
  }

  lemma OpenHeadlessExact(userDriver: string, selected: Browser, os: Os, drive: string)
    requires HeadlessChoice(userDriver) == Some(selected)
    ensures LaunchesSelected(OpenUserDriver(userDriver, selected, true, os, drive), selected, true, os)
  {
    match selected
    case Firefox => case Opera => case Chrome => case Brave => case Edge => case Safari =>
  }

  /** `OpenUserDriverOutcome` for a selection the headless chain agrees with whenever it picks a driver. */
  lemma OpenSelectedOutcome(userDriver: string, selected: Browser, headless: bool, os: Os, drive: string)
    requires headless && HeadlessChoice(userDriver).Some? ==> HeadlessChoice(userDriver) == Some(selected)
    ensures var r := OpenUserDriver(userDriver, selected, headless, os, drive);
      && (r.Failure? <==> ReachesSetup(userDriver, headless) && ((selected == Edge && os != Windows) || (selected == Safari && os != MacOS)))
      && (r.Failure? ==> r.error == (if selected == Edge then UnsupportedEdge else SafariSetupInstructions))
      && (r == Success(None) <==> !ReachesSetup(userDriver, headless))
      && (r.Success? && r.value.Some? ==>
            r.value.value.cls == ClassOf(selected) && r.value.value.headless == (headless && HasHeadlessOption(selected)))
  {
    if !headless {
      OpenNotHeadless(userDriver, selected, os, drive);
    } else if HeadlessChoice(userDriver).Some? {
      OpenHeadlessExact(userDriver, selected, os, drive);
    }
  }

  /**
   * What opening the driver `check_driver` selected does: it exits
   * exactly for Edge off Windows and Safari off macOS, returns None exactly
   * for a headless name that is not exact, and otherwise launches the
   * selected driver's class, headless only where a headless option exists.
   */
  lemma OpenUserDriverOutcome(userDriver: string, headless: bool, os: Os, drive: string)
    requires MatchDriver(userDriver).Some?
    ensures var selected := MatchDriver(userDriver).value;
      var r := OpenUserDriver(userDriver, selected, headless, os, drive);
      && (r.Failure? <==> ReachesSetup(userDriver, headless) && ((selected == Edge && os != Windows) || (selected == Safari && os != MacOS)))
      && (r.Failure? ==> r.error == (if selected == Edge then UnsupportedEdge else SafariSetupInstructions))
      && (r == Success(None) <==> !ReachesSetup(userDriver, headless))
      && (r.Success? && r.value.Some? ==>
            r.value.value.cls == ClassOf(selected) && r.value.value.headless == (headless && HasHeadlessOption(selected)))
  {
    HeadlessChoiceIsExact(userDriver);
    OpenSelectedOutcome(userDriver, MatchDriver(userDriver).value, headless, os, drive);
  }

  /** For an exact driver name, headless and non-headless open the same class and fail in the same way. */
  lemma HeadlessOpensSameDriver(b: Browser, os: Os, drive: string)
    ensures var h := OpenUserDriver(DriverName(b), b, true, os, drive);
      var n := OpenUserDriver(DriverName(b), b, false, os, drive);
      && h.Failure? == n.Failure?
      && (h.Failure? ==> h.error == n.error)
      && (h.Success? ==> h.value.Some? && n.value.Some? && h.value.value.cls == n.value.value.cls)
  {
    OwnNameSelectsItself(b);
    OpenUserDriverOutcome(DriverName(b), true, os, drive);
    OpenUserDriverOutcome(DriverName(b), false, os, drive);
    HeadlessChoiceIsExact(DriverName(b));
  }

  /** The suffix a default file name ends with. */
  function ListSuffix(reverseChronological: bool): string {
    if reverseChronological then "reverse_chronological_videos_list" else "chronological_videos_list"
  }

  /** `file_name.strip('.csv').strip('.txt').strip('.md')`. */
  function StripExtensions(fileName: string): string {
    Strip(Strip(Strip(fileName, ".csv"), ".txt"), ".md")
  }

  /** Two strips in a row leave a slice of `s`, with only characters of either set removed. */
  lemma StripTwice(s: string, a: string, b: string) returns (i: int)
    ensures StrippedAt(s, a + b, Strip(Strip(s, a), b), i)
  {
    var m := Strip(s, a);
    var i1 := StripStart(s, a);
    var i2 := StripStart(m, b);
    i := StrippedAtCompose(s, a, m, i1, b, Strip(m, b), i2);
  }

  /** Three strips in a row leave a slice of `s`, with only characters of the three sets removed. */
  lemma StripThrice(s: string, a: string, b: string, c: string) returns (i: int)
    ensures StrippedAt(s, a + b + c, Strip(Strip(Strip(s, a), b), c), i)
  {
    var m := Strip(Strip(s, a), b);
    var i2 := StripTwice(s, a, b);
    var i3 := StripStart(m, c);
    i := StrippedAtCompose(s, a + b, m, i2, c, Strip(m, c), i3);
  }

  /**
   * The three strips leave the slice of the given name starting at `i`,
   * remove nothing but characters of `.csv`, `.txt` and `.md`, and leave no
   * character of `.md` at either end.
   */
  lemma StripExtensionsIsSlice(fileName: string) returns (i: int)
    ensures StrippedAt(fileName, ".csv" + ".txt" + ".md", StripExtensions(fileName), i)
    ensures var r := StripExtensions(fileName); r == [] || (r[0] !in ".md" && r[|r| - 1] !in ".md")
  {
    i := StripThrice(fileName, ".csv", ".txt", ".md");
  }

  /** A name with no character of `chars` at either end is left alone. */
  lemma StripKeeps(s: string, chars: string)
    requires s == [] || (s[0] !in chars && s[|s| - 1] !in chars)
    ensures Strip(s, chars) == s
  {
    assert s[0..|s|] == s;
    StripUnique(s, chars, s, 0);
  }

  /** Three strips that end in a name each later strip leaves alone. */
  lemma StripChain(f: string, a: string, b: string, c: string, r: string)
    requires Strip(f, a) == r && Strip(r, b) == r && Strip(r, c) == r
    ensures Strip(Strip(Strip(f, a), b), c) == r
  {
  }

  lemma StripCsvFromVideos()
    ensures Strip("videos.csv", ".csv") == "ideo"
  {
    assert StrippedAt("videos.csv", ".csv", "ideo", 1) by {
      assert "videos.csv"[1..5] == "ideo";
    }
    StripUnique("videos.csv", ".csv", "ideo", 1);
  }

  lemma StripTxtKeepsIdeo()
    ensures Strip("ideo", ".txt") == "ideo"
  {
    assert 'i' !in ".txt" && 'o' !in ".txt";
    StripKeeps("ideo", ".txt");
  }

  lemma StripMdKeepsIdeo()
    ensures Strip("ideo", ".md") == "ideo"
  {
    assert 'i' !in ".md" && 'o' !in ".md";
    StripKeeps("ideo", ".md");
  }

  /** `strip` takes sets of characters, not suffixes: `'videos.csv'` loses its `v` too. */
  lemma StripExtensionsExample()
    ensures StripExtensions("videos.csv") == "ideo"
  {
    StripCsvFromVideos();
    StripTxtKeepsIdeo();
    StripMdKeepsIdeo();
    StripChain("videos.csv", ".csv", ".txt", ".md", "ideo");
  }

  lemma ListSuffixHasNoSpace(reverseChronological: bool)
    ensures ' ' !in ListSuffix(reverseChronological)
  {
  }

  /** `stem + '_' + suffix` splits back into the stem, the `_` and the suffix. */
  lemma JoinedName(stem: string, suffix: string, channelName: string)
    requires ' ' !in stem && ' ' !in suffix
    requires forall x :: x != ' ' ==> multiset(stem)[x] == multiset(channelName)[x]
    ensures var r := stem + "_" + suffix; var n := |r| - |suffix|;
      && 1 <= n && r[n..] == suffix && r[n - 1] == '_'
      && ' ' !in r
      && forall x :: x != ' ' ==> multiset(r[..n - 1])[x] == multiset(channelName)[x]
  {
    var r := stem + "_" + suffix;
    assert r[..|stem|] == stem;
    assert r[|stem| + 1..] == suffix;
  }

  /** The default name: the channel's name without spaces, `_`, and the order's suffix. */
  function DefaultFileName(channelName: string, reverseChronological: bool): (r: string)
    ensures var n := |r| - |ListSuffix(reverseChronological)|;
      && 1 <= n && r[n..] == ListSuffix(reverseChronological) && r[n - 1] == '_'
      && ' ' !in r
      && forall x :: x != ' ' ==> multiset(r[..n - 1])[x] == multiset(channelName)[x]
    ensures r == RemoveChar(channelName, ' ') + "_" + ListSuffix(reverseChronological)
  {
    var stem := RemoveChar(channelName, ' ');
    var suffix := ListSuffix(reverseChronological);
    ListSuffixHasNoSpace(reverseChronological);
    JoinedName(stem, suffix, channelName);
    stem + "_" + suffix
  }

  /** Removing the one space between two space-free words joins them. */
  lemma RemoveOneSpace(a: string, b: string)
    requires ' ' !in a && ' ' !in b
    ensures RemoveChar(a + " " + b, ' ') == a + b
  {
    var sp := " ";
    assert |sp| == 1 && sp[0] == ' ';
    var ab := a + sp;
    RemoveCharConcat(ab, b, ' ');
    RemoveCharConcat(a, sp, ' ');
    RemoveCharAbsent(a, ' ');
    RemoveCharAbsent(b, ' ');
    assert RemoveChar(sp, ' ') == [];
    assert RemoveChar(ab, ' ') == a;
  }

  lemma ExampleChannelName()
    ensures "Corey Schafer" == "Corey" + " " + "Schafer"
    ensures ' ' !in "Corey" && ' ' !in "Schafer"
    ensures "Corey" + "Schafer" == "CoreySchafer"
  {
  }

  /** `'Corey Schafer'.replace(' ', '')`. */
  lemma RemoveSpaceExample()
    ensures RemoveChar("Corey Schafer", ' ') == "CoreySchafer"
  {
    ExampleChannelName();
    RemoveOneSpace("Corey", "Schafer");
  }

  lemma ExampleFileNameJoin()
    ensures "CoreySchafer" + "_" + ListSuffix(false) == "CoreySchafer_chronological_videos_list"
  {
  }

  /** A channel name's spaces are dropped and the rest is kept in order. */
  lemma DefaultFileNameExample()
    ensures DefaultFileName("Corey Schafer", false) == "CoreySchafer_chronological_videos_list"
  {
    RemoveSpaceExample();
    ExampleFileNameJoin();
  }

  /** `determine_file_name`. */
  function DetermineFileName(fileName: Option<string>, channelName: string, reverseChronological: bool): string {
    match fileName
    case Some(f) => StripExtensions(f)
    case None => DefaultFileName(channelName, reverseChronological)
  }

  /** The arguments of `logic()` that the modelled decisions read. */
  datatype Arguments = Arguments(
    url: string,
    fileName: Option<string>,
    txt: bool,
    csv: bool,
    markdown: bool,
    reverseChronological: bool,
    headless: bool,
    userDriver: Option<string>)

  /** What the machine, the download pass and the browser report. */
  datatype Environment = Environment(
    os: Os,                                              // determine_user_os()
    drive: string,                                       // get_drive_letter(), read on Windows only
    firstOpenFails: bool,                                // the first session raises WebDriverException
    retryOpenFails: bool,                                // so does the one launched after the download pass
    installed: map<string, string>,                      // browser versions found by the download pass
    downloads: map<Browser, map<Os, seq<string>>>,       // its per-driver command lists
    elementsLoad: bool,                                  // the channel-name element loads within the wait
    channelName: string)                                 // and holds this text

  /** How `logic()` ends: an exit, an uncaught exception, or the file name `run_scraper` returns. */
  datatype Outcome =
    | Exited(reason: ExitReason)
    | Raised(error: PyError)
    | Scraped(fileName: string, url: string, launch: Launch)

  datatype DevRun = DevRun(outcome: Outcome, attempts: nat, download: Option<Dependencies.Trace>)

  /**
   * The three steps before any driver is launched, in program order: the
   * output guard, `process_url` and `check_driver`.  Success holds the
   * canonical URL, the driver name after defaulting and the selection.
   */
  function Prepare(a: Arguments): (r: Result<(string, string, Browser), ExitReason>)
    ensures r == Failure(NotWritingToAnyFiles) <==> !a.txt && !a.csv && !a.markdown
    ensures r == Failure(UrlError) <==> (a.txt || a.csv || a.markdown) && ProcessUrl(a.url).Failure?
    ensures r == Failure(InvalidDriver) <==>
      (a.txt || a.csv || a.markdown) && ProcessUrl(a.url).Success? && MatchDriver(DefaultDriver(a.userDriver)).None?
    ensures r.Failure? ==> r.error == NotWritingToAnyFiles || r.error == UrlError || r.error == InvalidDriver
    ensures r.Success? <==>
      (a.txt || a.csv || a.markdown) && ProcessUrl(a.url).Success? && MatchDriver(DefaultDriver(a.userDriver)).Some?
    ensures r.Success? ==>
      && (a.txt || a.csv || a.markdown)
      && ProcessUrl(a.url) == Success(r.value.0)
      && r.value.1 == DefaultDriver(a.userDriver)
      && MatchDriver(r.value.1) == Some(r.value.2)
  {
    match VerifyWritingToAtLeastOneFile(a.txt, a.csv, a.markdown)
    case Some(x) => Failure(x)
    case None =>
      match ProcessUrl(a.url)
      case Failure(x) => Failure(x)
      case Success(url) =>
        var name := DefaultDriver(a.userDriver);
        match MatchDriver(name)
        case None => Failure(InvalidDriver)
        case Some(selected) => Success((url, name, selected))
  }

  /** `run_scraper` up to the file name: `with driver:` needs a driver, then the wait must succeed. */
  function RunScraper(url: string, driver: Option<Launch>, a: Arguments, e: Environment): (o: Outcome)
    ensures o.Exited? ==> o.reason == ElementsNotLoaded
    ensures o.Raised? ==> o.error == AttributeError
    ensures o.Raised? <==> driver.None?
  {
    match driver
    case None => Raised(AttributeError)
    case Some(l) =>
      if !e.elementsLoad then Exited(ElementsNotLoaded)
      else Scraped(DetermineFileName(a.fileName, e.channelName, a.reverseChronological), url, l)
  }

  /**
   * A whole run of `logic()`.  A WebDriverException can only come from a
   * launch, so the retry happens only when the first call returned one;
   * the retried call returns the same launch as the first.
   */
  function Run(a: Arguments, e: Environment, table: Dependencies.Table): DevRun {
    match Prepare(a)
    case Failure(x) => DevRun(Exited(x), 0, None)
    case Success((url, name, selected)) => RunFrom(url, name, selected, a, e, table)
  }

  /** The run from the first `open_user_driver` call on, once `check_driver` has selected a driver. */
  function RunFrom(url: string, name: string, selected: Browser, a: Arguments, e: Environment, table: Dependencies.Table): DevRun {
    match OpenUserDriver(name, selected, a.headless, e.os, e.drive)
    case Failure(x) => DevRun(Exited(x), 1, None)
    case Success(launched) =>
      if launched.Some? && e.firstOpenFails then
        var dl := Dependencies.DownloadAll(table, e.os, e.installed, e.downloads);
        if dl.raised.Some? then DevRun(Raised(dl.raised.value), 1, Some(dl))
        else if e.retryOpenFails then DevRun(Exited(UnableToUpdateDriver), 2, Some(dl))
        else DevRun(RunScraper(url, launched, a, e), 2, Some(dl))
      else DevRun(RunScraper(url, launched, a, e), 1, None)
  }

  /** The program exits before doing anything else exactly when no output format is chosen. */
  lemma NoFormatExitsFirst(a: Arguments, e: Environment, table: Dependencies.Table)
    ensures var run := Run(a, e, table);
      run.outcome == Exited(NotWritingToAnyFiles) <==> !a.txt && !a.csv && !a.markdown
    ensures !a.txt && !a.csv && !a.markdown ==> Run(a, e, table) == DevRun(Exited(NotWritingToAnyFiles), 0, None)
  {
  }

  /** The first launch succeeded in building a driver but its session raised WebDriverException. */
  predicate FirstOpenRaises(a: Arguments, e: Environment) {
    && Prepare(a).Success?
    && (var (_, name, selected) := Prepare(a).value;
        var r := OpenUserDriver(name, selected, a.headless, e.os, e.drive);
        r.Success? && r.value.Some?)
    && e.firstOpenFails
  }

  /**
   * At most two attempts: the download pass runs exactly when the first
   * session raised WebDriverException, its exception ends the run, and the
   * driver is launched a second time exactly when the pass raised nothing;
   * a second failure is the `UnableToUpdateDriver` exit and nothing else is.
   */
  lemma OneRetryAfterDownload(a: Arguments, e: Environment, table: Dependencies.Table)
    ensures var run := Run(a, e, table);
      && run.attempts <= 2
      && (run.download.Some? <==> FirstOpenRaises(a, e))
      && (run.download.Some? ==> run.download.value == Dependencies.DownloadAll(table, e.os, e.installed, e.downloads))
      && (run.download.Some? && run.download.value.raised.Some? ==>
            run.outcome == Raised(run.download.value.raised.value) && run.attempts == 1)
      && (run.attempts == 2 <==> FirstOpenRaises(a, e) && run.download.value.raised.None?)
      && (run.outcome == Exited(UnableToUpdateDriver) <==> run.attempts == 2 && e.retryOpenFails)
  {
  }

  /**
   * Edge off Windows and Safari off macOS end the run with their exits at
   * the first attempt, unless a headless name is not exact, in which case
   * no driver is built and `with driver:` raises.
   */
  lemma OsGuards(a: Arguments, e: Environment, table: Dependencies.Table)
    requires Prepare(a).Success?
    requires var selected := Prepare(a).value.2;
      (selected == Edge && e.os != Windows) || (selected == Safari && e.os != MacOS)
    ensures var run := Run(a, e, table);
      var (_, name, selected) := Prepare(a).value;
      && run.download.None?
      && (ReachesSetup(name, a.headless) ==>
            run.outcome == Exited(if selected == Edge then UnsupportedEdge else SafariSetupInstructions) && run.attempts == 1)
      && (!ReachesSetup(name, a.headless) ==> run.outcome == Raised(AttributeError))
  {
    var (_, name, selected) := Prepare(a).value;
    OpenUserDriverOutcome(name, a.headless, e.os, e.drive);
  }

  /** A headless run whose driver name is accepted by substring but is not exact crashes at `with driver:`. */
  lemma HeadlessInexactNameRaises(a: Arguments, e: Environment, table: Dependencies.Table)
    requires Prepare(a).Success? && a.headless && HeadlessChoice(Prepare(a).value.1).None?
    ensures Run(a, e, table) == DevRun(Raised(AttributeError), 1, None)
  {
  }

  /** A URL that `process_url` rejects exits with the URL error before any browser is tried. */
  lemma BadUrlExits(a: Arguments, e: Environment, table: Dependencies.Table)
    ensures Run(a, e, table).outcome == Exited(UrlError) <==> (a.txt || a.csv || a.markdown) && ProcessUrl(a.url).Failure?
    ensures Run(a, e, table).outcome == Exited(UrlError) ==> Run(a, e, table) == DevRun(Exited(UrlError), 0, None)
  {
    if Prepare(a).Success? {
      NotFromRunFrom(a, e, table);
    }
  }

  /** A driver name that matches no driver exits with the invalid-driver message before any browser is tried. */
  lemma UnknownNameExits(a: Arguments, e: Environment, table: Dependencies.Table)
    ensures Run(a, e, table).outcome == Exited(InvalidDriver) <==>
      (a.txt || a.csv || a.markdown) && ProcessUrl(a.url).Success? && MatchDriver(DefaultDriver(a.userDriver)).None?
    ensures Run(a, e, table).outcome == Exited(InvalidDriver) ==> Run(a, e, table) == DevRun(Exited(InvalidDriver), 0, None)
  {
    if Prepare(a).Success? {
      NotFromRunFrom(a, e, table);
    }
  }

  /** Once a driver is selected, the run never ends with one of the exits taken before the launch. */
  lemma NotFromRunFrom(a: Arguments, e: Environment, table: Dependencies.Table)
    requires Prepare(a).Success?
    ensures var run := Run(a, e, table);
      run.outcome != Exited(NotWritingToAnyFiles) && run.outcome != Exited(UrlError) && run.outcome != Exited(InvalidDriver)
  {
  }

  /** The name `'firefox'` opens Firefox, with the headless option exactly when headless. */
  lemma FirefoxNameLaunches(name: string, headless: bool, os: Os, drive: string)
    requires name == DriverName(Firefox)
    ensures OpenUserDriver(name, Firefox, headless, os, drive) == Success(Some(Launch(FirefoxClass, headless, None, None)))
  {
    HeadlessChoiceIsExact(name);
  }

  /**
   * With no driver given, the default `'firefox'` is an exact name, so even
   * a headless run launches Firefox and reaches `with driver:` with it; the
   * only exception such a run can end with is one of the download pass.
   */
  lemma NoDriverNameLaunchesFirefox(a: Arguments, e: Environment, table: Dependencies.Table)
    requires a.userDriver.None? && Prepare(a).Success?
    ensures Prepare(a).value.1 == DriverName(Firefox) && Prepare(a).value.2 == Firefox
    ensures !e.firstOpenFails ==>
      Run(a, e, table) == DevRun(RunScraper(Prepare(a).value.0, Some(Launch(FirefoxClass, a.headless, None, None)), a, e), 1, None)
    ensures var run := Run(a, e, table);
      run.outcome.Raised? ==> run.download.Some? && run.download.value.raised == Some(run.outcome.error)
  {
    var (url, name, selected) := Prepare(a).value;
    OwnNameSelectsItself(Firefox);
    FirefoxNameLaunches(name, a.headless, e.os, e.drive);
  }

  /**
   * A run scrapes exactly when every step succeeded, and then it returns
   * `determine_file_name()` for the canonical URL and the selected driver.
   */
  lemma ScrapedRun(a: Arguments, e: Environment, table: Dependencies.Table)
    ensures var run := Run(a, e, table);
      run.outcome.Scraped? ==>
        && (a.txt || a.csv || a.markdown)
        && ProcessUrl(a.url) == Success(run.outcome.url)
        && MatchDriver(DefaultDriver(a.userDriver)).Some?
        && run.outcome.launch.cls == ClassOf(MatchDriver(DefaultDriver(a.userDriver)).value)
        && e.elementsLoad
        && run.outcome.fileName == DetermineFileName(a.fileName, e.channelName, a.reverseChronological)
  {
    if Prepare(a).Success? {
      var (_, name, selected) := Prepare(a).value;
      OpenUserDriverOutcome(name, a.headless, e.os, e.drive);
    }
  }

  /** The run gets a driver: every step before `run_scraper` succeeds and a launch is bound. */
  predicate GetsDriver(a: Arguments, e: Environment, table: Dependencies.Table) {
    && Prepare(a).Success?
    && (var (_, name, selected) := Prepare(a).value;
        var r := OpenUserDriver(name, selected, a.headless, e.os, e.drive);
        r.Success? && r.value.Some?)
    && (e.firstOpenFails ==>
          Dependencies.DownloadAll(table, e.os, e.installed, e.downloads).raised.None? && !e.retryOpenFails)
  }

  /** Once a driver is bound, the run scrapes when the channel element loads and exits when the wait times out. */
  lemma WaitDecidesScraping(a: Arguments, e: Environment, table: Dependencies.Table)
    ensures var run := Run(a, e, table);
      && (run.outcome.Scraped? <==> GetsDriver(a, e, table) && e.elementsLoad)
      && (run.outcome == Exited(ElementsNotLoaded) <==> GetsDriver(a, e, table) && !e.elementsLoad)
  {
    if Prepare(a).Success? {
      var (_, name, selected) := Prepare(a).value;
      OpenUserDriverOutcome(name, a.headless, e.os, e.drive);
    }
  }

  /**
   * The closure state of one `logic()` call: `user_driver`, which
   * `check_driver` rebinds, and `driver`, which the first attempt or
   * `handle_opening_webdriver_exception` binds; with the count of
   * `open_user_driver` calls and the download pass's trace.
   */
  class Session {
    var userDriver: Option<string>
    var driver: Option<Launch>
    var attempts: nat
    var download: Option<Dependencies.Trace>

    constructor (userDriver: Option<string>)
      ensures this.userDriver == userDriver && driver == None && attempts == 0 && download == None
    {
      this.userDriver := userDriver;
      driver := None;
      attempts := 0;
      download := None;
    }

    /** `check_driver`: default the name, then select by substring or exit. */
    method CheckDriver() returns (selected: Result<Browser, ExitReason>)
      modifies this
      ensures userDriver == Some(DefaultDriver(old(userDriver)))
      ensures driver == old(driver) && attempts == old(attempts) && download == old(download)
      ensures selected.Success? <==> MatchDriver(userDriver.value).Some?
      ensures selected.Success? ==> selected.value == MatchDriver(userDriver.value).value
      ensures selected.Failure? ==> selected.error == InvalidDriver
    {
      if userDriver.None? {
        userDriver := Some("firefox");
      }
      var choice := MatchDriver(userDriver.value);
      if choice.None? {
        return Failure(InvalidDriver);
      }
      selected := Success(choice.value);
    }

    /** One call of `open_user_driver`. */
    method Open(selected: Browser, headless: bool, os: Os, drive: string) returns (r: Result<Option<Launch>, ExitReason>)
      requires userDriver.Some?
      modifies this
      ensures attempts == old(attempts) + 1
      ensures userDriver == old(userDriver) && driver == old(driver) && download == old(download)
      ensures r == OpenUserDriver(userDriver.value, selected, headless, os, drive)
    {
      attempts := attempts + 1;
      r := OpenUserDriver(userDriver.value, selected, headless, os, drive);
    }

    /**
     * `handle_opening_webdriver_exception`: download the dependencies, then
     * open again; a second WebDriverException exits, and an exception of
     * the download pass propagates.
     */
    method HandleOpeningWebdriverException(selected: Browser, headless: bool, e: Environment, table: Dependencies.Table)
      returns (exit: Option<ExitReason>, raised: Option<PyError>)
      requires userDriver.Some?
      requires OpenUserDriver(userDriver.value, selected, headless, e.os, e.drive).Success?
      modifies this
      ensures userDriver == old(userDriver)
      ensures download == Some(Dependencies.DownloadAll(table, e.os, e.installed, e.downloads))
      ensures raised == download.value.raised
      ensures raised.Some? ==> exit.None? && attempts == old(attempts) && driver == old(driver)
      ensures raised.None? ==> attempts == old(attempts) + 1
      ensures raised.None? && e.retryOpenFails ==> exit == Some(UnableToUpdateDriver) && driver == old(driver)
      ensures raised.None? && !e.retryOpenFails ==>
        exit.None? && driver == OpenUserDriver(userDriver.value, selected, headless, e.os, e.drive).value
    {
      var t, visited := Dependencies.DownloadAllDependencies(table, e.os, e.installed, e.downloads);
      download := Some(t);
      raised := t.raised;
      exit := None;
      if raised.None? {
        var launched := Open(selected, headless, e.os, e.drive);
        if e.retryOpenFails {
          exit := Some(UnableToUpdateDriver);
        } else {
          driver := launched.value;
        }
      }
    }

    /** `logic()` from its first statement to the value `run_scraper` returns. */
    method Logic(a: Arguments, e: Environment, table: Dependencies.Table) returns (outcome: Outcome)
      requires userDriver == a.userDriver && driver.None? && attempts == 0 && download.None?
      modifies this
      ensures DevRun(outcome, attempts, download) == Run(a, e, table)
      ensures outcome.Scraped? ==> driver == Some(outcome.launch) && userDriver == Some(DefaultDriver(a.userDriver))
    {
      var exit := VerifyWritingToAtLeastOneFile(a.txt, a.csv, a.markdown);
      if exit.Some? {
        return Exited(exit.value);
      }
      var url := ProcessUrl(a.url);
      if url.Failure? {
        return Exited(url.error);
      }
      var selected := CheckDriver();
      if selected.Failure? {
        return Exited(selected.error);
      }
      assert Prepare(a) == Success((url.value, userDriver.value, selected.value));
      outcome := OpenAndScrape(url.value, selected.value, a, e, table);
    }

    /** The attempts to open the selected driver, then `run_scraper`. */
    method OpenAndScrape(url: string, selected: Browser, a: Arguments, e: Environment, table: Dependencies.Table)
      returns (outcome: Outcome)
      requires userDriver.Some? && driver.None? && attempts == 0 && download.None?
      modifies this
      ensures userDriver == old(userDriver)
      ensures DevRun(outcome, attempts, download) == RunFrom(url, userDriver.value, selected, a, e, table)
      ensures outcome.Scraped? ==> driver == Some(outcome.launch)
    {
      var launched := Open(selected, a.headless, e.os, e.drive);
      if launched.Failure? {
        outcome := Exited(launched.error);
      } else if launched.value.Some? && e.firstOpenFails {
        var exit, raised := HandleOpeningWebdriverException(selected, a.headless, e, table);
        if raised.Some? {
          outcome := Raised(raised.value);
        } else if exit.Some? {
          outcome := Exited(exit.value);
        } else {
          outcome := RunScraper(url, driver, a, e);
        }
      } else {
        driver := launched.value;
        outcome := RunScraper(url, driver, a, e);
      }
    }
  }
}
