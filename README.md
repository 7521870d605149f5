# yt-videos-list: driver downloads and the scraper's decision logic

yt-videos-list scrapes the list of videos of a YouTube channel with a
Selenium browser session. Before it opens a browser it makes a series of
decisions, and this project models those decisions and proves properties
about them:

- **The driver downloader** (`python/dev/download/selenium_webdriver_dependencies.py`).
  - `APPLICATION_NAME` gives the drivers of each OS, in declared order.
  - The `row_in_list` table maps a browser's major version to a negative row offset.
  - That offset indexes, from the end, the per-driver, per-OS list of download commands.
  - The downloader prints the entry before the row as a comment, then prints and runs the entry at the row.
  - The loop over the drivers ends at the first exception.
- **The newer `logic()`** (`python/dev/execute.py`).
  - The output-format guard.
  - The URL parser.
  - Driver selection by substring, and headless dispatch by exact name.
  - The Edge and Safari OS guards.
  - One retry after a dependency download.
  - The element wait.
  - The file name, built with Python's character-set `strip`.
- **The older `logic()`** (`yt_videos_list/execute.py`).
  - The OS classifier.
  - The URL built from the channel and its type.
  - The guard that ignores `docx`.
  - The `'invalid'` sentinel, and the Safari check done at selection time.
  - A retry that returns instead of exiting.
  - The unchanged file name and the `_videos_list` default.
  - The empty-list and txt/csv write gate.

Modules (one per file):

- `Common`: the shared enumerations, `Option` and `Result`.
- `PyStr`: the Python `str` operations the program uses. These are `in`, `split`, `strip`, `replace`, `lower`, `startswith` and `str(int)`, each with Python's meaning on the inputs the program gives them. Two are narrower than Python's: `lower` lowercases ASCII letters only, and `str(int)` is defined for non-negative integers only.
- `RowTable`: the `row_in_list` literal. Each driver also has a closed-form reference "band" function, and the table is proved to follow it.
- `Dependencies`: the downloader.
- `Drivers`: the parts shared by both versions of `logic()`.
- `DevLogic`: the newer `logic()`.
- `LegacyLogic`: the older `logic()`, with lemmas relating it to the newer one.

How the model is built:

- Each program's run is a function (`DevLogic.Run`, `LegacyLogic.Run`).
- The closure variables that `logic()` reassigns through `nonlocal` are the fields of a `Session` class. These are `user_driver`, `driver`, the number of attempts and the download pass.
- Each `Session.Logic` method is proved to produce exactly what the run function gives.

How the original program behaves:

- `strip('.csv')` removes any of the characters `.`, `c`, `s` and `v` from both ends; it does not remove a suffix. For example `videos.csv` becomes `ideo` (`DevLogic.StripExtensionsExample`).
- New releases are added at the front of each download list, so a row nearer -1 is an older driver. The table is not monotone for Chrome: version 82 gets -23, the row of version 78, which is an older driver than versions 79 (-25), 80 (-27) and 81 (-29) get. So 82 breaks monotonicity against each of 79, 80 and 81 (`RowTable.ChromeEightyTwo`, `RowTable.ChromeEightyTwoOutOfOrder`, `RowTable.ChromeIsNotMonotone`).

## Model

| member | source | states |
|---|---|---|
| Dependencies.ApplicationName | python/dev/download/selenium_webdriver_dependencies.py:9-30 | the drivers of each OS come in declared order (firefox, opera, chrome, brave, edge); every application name on Linux is empty |
| Dependencies.Drivers | python/dev/download/selenium_webdriver_dependencies.py:9-30 | the keys of `APPLICATION_NAME[os]` are firefox, opera and chrome on Linux, and all five drivers on macOS and Windows |
| Dependencies.BrowserName | python/dev/download/selenium_webdriver_dependencies.py:35 | `APPLICATION_NAME[os][driver]` exists exactly for the drivers of that OS |
| Dependencies.MajorVersion | python/dev/download/selenium_webdriver_dependencies.py:39 | `split('.')[0]` is the longest prefix without a dot: the whole string if it has no dot, otherwise the text before the first dot |
| Dependencies.PyIndex | python/dev/download/selenium_webdriver_dependencies.py:299-301 | Python list indexing succeeds exactly for `-len <= i < len`; any other index raises IndexError |
| Dependencies.PrependKeepsNegativeIndex | python/dev/download/selenium_webdriver_dependencies.py:50 | a negative index in range picks the same element after any entries are prepended, namely `L[len + i]` |
| Dependencies.RowInListCountsFromEnd | python/dev/download/selenium_webdriver_dependencies.py:50-296 | every offset in `row_in_list` is negative |
| Dependencies.LookupIn | python/dev/download/selenium_webdriver_dependencies.py:297 | `row_in_list[driver][major]` succeeds exactly when the driver is a key and the string is `str` of a listed version; otherwise it raises KeyError, with no nearest-version fallback |
| Dependencies.RowInListLookup | python/dev/download/selenium_webdriver_dependencies.py:297 | the program's own table: Safari is never found, and any row that is found is a negative odd number in [-75, -1] |
| Dependencies.ListedVersionIsFound | python/dev/download/selenium_webdriver_dependencies.py:297 | the decimal string of every listed version finds that version's row |
| Dependencies.Lookup | python/dev/download/selenium_webdriver_dependencies.py:35 | `APPLICATION_NAME[user_os][driver]`: a name is found exactly when the driver occurs among the OS's entries, and it is the name paired with that driver |
| Dependencies.ExecuteRow | python/dev/download/selenium_webdriver_dependencies.py:297-301 | the trace from a looked-up row on: see `ExecuteRowOutcome` and `PrependKeepsRow` |
| Dependencies.ExecuteDownloadCommand | python/dev/download/selenium_webdriver_dependencies.py:49-301 | `execute_download_command`: see `ExecuteDownloadCommandOutcome` and `PrependKeepsDownload` |
| Dependencies.DownloadSpecificDependency | python/dev/download/selenium_webdriver_dependencies.py:33-42 | `download_specific_dependency`: see `DownloadSpecificDependencyOutcome` |
| Dependencies.DownloadAll | python/dev/download/selenium_webdriver_dependencies.py:44-47 | `download_all_dependencies` as a value: see the method `DownloadAllDependencies`, whose result it is, and `InTurnStopsAt` |
| Dependencies.DownloadList | python/dev/download/selenium_webdriver_dependencies.py:299-301 | `driver_downloads_for_os[driver][os]` is the given list when both keys exist, and otherwise a KeyError |
| Dependencies.ExecuteRowOutcome | python/dev/download/selenium_webdriver_dependencies.py:297-301 | for a negative row, the command runs exactly when the list holds at least `abs(row)+1` entries; the events are then: header, entry `row-1` followed by " #", entry `row` printed, entry `row` sent to the shell; each error path and where it stops is given |
| Dependencies.ExecuteDownloadCommandOutcome | python/dev/download/selenium_webdriver_dependencies.py:49-301 | the same, with the row taken from any table whose offsets are negative; a failed lookup raises KeyError before anything is printed |
| Dependencies.PrependKeepsRow | python/dev/download/selenium_webdriver_dependencies.py:50 | when a row's download succeeds, prepending entries to its list leaves the whole trace unchanged |
| Dependencies.PrependKeepsDownload | python/dev/download/selenium_webdriver_dependencies.py:50 | the same for `execute_download_command` with the row from the table |
| Dependencies.DownloadSpecificDependencyOutcome | python/dev/download/selenium_webdriver_dependencies.py:33-42 | a missing browser is only reported; an installed one reports its version, then downloads for the major version of that version |
| Dependencies.InTurnRaisesNothingIff | python/dev/download/selenium_webdriver_dependencies.py:46-47 | running the drivers in turn raises nothing exactly when no driver raises |
| Dependencies.InTurnStopsAt | python/dev/download/selenium_webdriver_dependencies.py:46-47 | the first driver that raises ends the pass, and its exception is the pass's exception |
| Dependencies.ForEachDriver | python/dev/download/selenium_webdriver_dependencies.py:46-47 | the loop produces the in-turn composition of the per-driver steps; it visits a prefix of the drivers, all of them when nothing raised, and otherwise stops at the first driver that raised |
| Dependencies.DownloadAllDependencies | python/dev/download/selenium_webdriver_dependencies.py:44-47 | the update banner comes first, then `download_specific_dependency` for each driver of `APPLICATION_NAME[os]` in order; the drivers visited are as for ForEachDriver |
| RowTable.RowInList | python/dev/download/selenium_webdriver_dependencies.py:51-296 | `row_in_list` has a sub-table for exactly the five drivers other than Safari |
| RowTable.FirefoxRowsFollowBand | python/dev/download/selenium_webdriver_dependencies.py:52-105 | every Firefox entry is the reference Firefox band at that version, and no version is older than 60 |
| RowTable.OperaRowsFollowBand | python/dev/download/selenium_webdriver_dependencies.py:106-173 | the same for Opera (oldest 46) |
| RowTable.ChromeRowsFollowBand | python/dev/download/selenium_webdriver_dependencies.py:174-221 | the same for Chrome (oldest 67), including 82 mapping to -23 |
| RowTable.BraveRowsFollowBand | python/dev/download/selenium_webdriver_dependencies.py:222-260 | the same for Brave (oldest 75) |
| RowTable.EdgeRowsFollowBand | python/dev/download/selenium_webdriver_dependencies.py:261-295 | the same for Edge (oldest 79) |
| RowTable.TableFacts | python/dev/download/selenium_webdriver_dependencies.py:51-296 | each driver's sub-table follows its band |
| RowTable.BandIsNegativeOdd | python/dev/download/selenium_webdriver_dependencies.py:51-296 | every band value is a negative odd number in [-75, -1]; one release takes two list rows |
| RowTable.BandIsAntitone | python/dev/download/selenium_webdriver_dependencies.py:51-296 | for every driver except Chrome, a newer major version never has a less negative band value |
| RowTable.OffsetsAreNegativeOdd | python/dev/download/selenium_webdriver_dependencies.py:50-296 | every offset in the table is a negative odd number in [-75, -1] |
| RowTable.OldestEntry | python/dev/download/selenium_webdriver_dependencies.py:51-296 | each driver's table lists its oldest version and maps it to -1 |
| RowTable.OldestVersionMapsToMinusOne | python/dev/download/selenium_webdriver_dependencies.py:51-296 | for each driver, the oldest listed version (firefox 60, opera 46, chrome 67, brave 75, edge 79) maps to -1 and is older than every other key |
| RowTable.EntriesOrdered | python/dev/download/selenium_webdriver_dependencies.py:52-295 | for Firefox, Opera, Brave and Edge, a newer listed version never maps to a less negative offset |
| RowTable.NewerNeverOlderExceptChrome | python/dev/download/selenium_webdriver_dependencies.py:52-295 | the same, as a property of each whole sub-table |
| RowTable.ChromeEightyTwo | python/dev/download/selenium_webdriver_dependencies.py:203-208 | Chrome 81, 82 and 83 map to -29, -23 and -31, and 82 shares the row of 78 |
| RowTable.ChromeEightyTwoOutOfOrder | python/dev/download/selenium_webdriver_dependencies.py:175-221 | among the listed Chrome versions below 82, exactly 79, 80 and 81 get a newer row than 82; every listed version above 82 gets a newer row too |
| RowTable.ChromeNinetyFive | python/dev/download/selenium_webdriver_dependencies.py:191 | `row_in_list['chrome']['95']` is -55 |
| RowTable.ChromeIsNotMonotone | python/dev/download/selenium_webdriver_dependencies.py:174-221 | Chrome's sub-table is not monotone |
| RowTable.DictKeys | python/dev/download/selenium_webdriver_dependencies.py:297 | a string is a key of a sub-table exactly when it is `str` of a listed version, and then it maps to that version's offset |
| PyStr.Find | python/dev/execute.py:52-57 | the substring test `in`: the first position of an occurrence, with no occurrence before it |
| PyStr.Split | python/dev/execute.py:34-36 | `str.split(sep)`: joining the pieces with `sep` gives back the string, and no piece contains `sep` |
| PyStr.SplitAfterFirst | python/dev/execute.py:34 | splitting at the first occurrence gives the text before it, followed by the split of the rest |
| PyStr.Strip | python/dev/execute.py:190 | `str.strip(chars)` gives a slice of its input: only characters in `chars` are removed, and neither end of the result is in `chars` |
| PyStr.StripUnique | python/dev/execute.py:190 | any slice with those two properties is the strip result |
| PyStr.StripIdempotent | python/dev/execute.py:190 | stripping twice with the same characters changes nothing more |
| PyStr.RemoveChar | python/dev/execute.py:192 | `replace(' ', '')` removes every space and keeps every other character, with its count; a one-character string is kept unless it is the removed character |
| PyStr.RemoveCharConcat | python/dev/execute.py:192 | removing a character from a concatenation removes it from each part, so the kept characters stay in their order |
| PyStr.RemoveCharAbsent | python/dev/execute.py:192 | a string without the character is left unchanged |
| PyStr.DecimalStringRoundTrip | python/dev/download/selenium_webdriver_dependencies.py:297 | `str(n)` is a canonical decimal numeral that spells `n` |
| PyStr.DecimalValueRoundTrip | python/dev/download/selenium_webdriver_dependencies.py:297 | a canonical decimal numeral is `str` of its value |
| PyStr.DecimalStringInjective | python/dev/download/selenium_webdriver_dependencies.py:297 | different versions have different decimal strings, so the string keys are those of the numeric table |
| Drivers.MatchDriver | python/dev/execute.py:52-60 | `check_driver`'s `in` chain: see `MatchDriverFirstMatch` and `OwnNameSelectsItself` |
| Drivers.HeadlessChoice | python/dev/execute.py:66-72 | the headless `==` chain: see `HeadlessChoiceIsExact` |
| Drivers.MatchDriverFirstMatch | python/dev/execute.py:52-60 | the chain selects a driver exactly when that driver's name occurs in the argument and no name tested before it does; it selects nothing exactly when no driver name occurs |
| Drivers.OwnNameSelectsItself | python/dev/execute.py:52-57 | each driver's own name selects that driver |
| Drivers.MatchDriverPrefersFirefox | python/dev/execute.py:52-57 | `'chrome-firefox'` selects Firefox |
| Drivers.MatchDriverByContainment | python/dev/execute.py:52 | `'firefox2'` selects Firefox |
| Drivers.MatchDriverNoMatch | python/dev/execute.py:58-60 | `'ie'` selects nothing |
| Drivers.HeadlessChoiceIsExact | python/dev/execute.py:66-72 | the headless chain picks a driver exactly when the argument equals that driver's name, and then it is the one `check_driver` picks |
| Drivers.HeadlessChoiceExample | python/dev/execute.py:63-72 | `'firefox2'` is accepted by substring but misses the headless chain |
| Drivers.ConfigureBrave | python/dev/execute.py:108-118 | Brave always launches under the Chrome class, not headless, with a binary and a driver path: on Windows the drive letter followed by the Brave install path and `:\Windows\bravedriver.exe`, elsewhere the fixed macOS application and `/usr/local/bin/bravedriver` paths |
| Drivers.ConfigureEdge | python/dev/execute.py:120-133 | Edge launches exactly on Windows, with the drive letter's `msedgedriver.exe`; on any other OS the program exits with the unsupported-Edge message |
| DevLogic.VerifyWritingToAtLeastOneFile | python/dev/execute.py:25-29 | the program exits exactly when txt, csv and markdown are all False |
| DevLogic.ProcessUrl | python/dev/execute.py:32-43 | the only failure is the URL-error exit |
| DevLogic.ProcessUrlFailsIff | python/dev/execute.py:33-40 | the URL is accepted exactly when it contains `youtube.com/` and the text after the first one, up to the next, contains a second segment |
| DevLogic.ProcessUrlReads | python/dev/execute.py:32-43 | for any URL made of a prefix, `youtube.com/`, type, `/`, channel, and more path or a later `youtube.com/`, the result is `https://www.youtube.com/type/channel/videos` |
| DevLogic.ChannelInfoAfter | python/dev/execute.py:34 | the element at index 1 of `split('youtube.com/')` is the text between the first occurrence and the next |
| DevLogic.ProcessUrlExample | python/dev/execute.py:32-43 | `https://www.youtube.com/user/schafer5` becomes `https://www.youtube.com/user/schafer5/videos` |
| DevLogic.ProcessUrlNeedsTwoSegments | python/dev/execute.py:36-40 | a URL with only one segment after `youtube.com/` is the URL-error exit |
| DevLogic.DefaultDriver | python/dev/execute.py:48-51 | a given driver name is kept; with none, the name is `firefox`, which selects Firefox |
| DevLogic.ConfigureSafari | python/dev/execute.py:135-139 | Safari launches exactly on macOS, and shows the setup instructions and exits elsewhere |
| DevLogic.SeleniumDriver | python/dev/execute.py:75-139 | the call of the constructor `check_driver` returned, or of a headless set-up function: see `OpenNotHeadless`, `OpenHeadlessExact` and `OpenSelectedOutcome` |
| DevLogic.OpenUserDriver | python/dev/execute.py:63-72 | opening only fails with the Edge or the Safari exit |
| DevLogic.OpenNotHeadless | python/dev/execute.py:64-65 | without headless, the selected driver's constructor is always called: it either launches that driver's class or takes that driver's OS exit |
| DevLogic.OpenHeadlessExact | python/dev/execute.py:66-72 | when headless and the name is exact, the same holds, with the headless option only for Firefox, Opera and Chrome |
| DevLogic.OpenSelectedOutcome | python/dev/execute.py:63-72 | the full case analysis: an OS exit exactly when setup is reached for Edge off Windows or Safari off macOS; the value None exactly when headless and the name is not exact; otherwise the selected driver's launch |
| DevLogic.OpenUserDriverOutcome | python/dev/execute.py:46-72 | the same, for the driver `check_driver` selected from the name |
| DevLogic.HeadlessOpensSameDriver | python/dev/execute.py:75-105 | for a driver's exact name, opening headless and not headless launch the same class and fail the same way |
| DevLogic.StripExtensions | python/dev/execute.py:190 | the three strips of a given file name: see `StripExtensionsIsSlice` and `StripExtensionsExample` |
| DevLogic.StripExtensionsIsSlice | python/dev/execute.py:190 | the three strips leave a slice of the file name, with only characters of `.csvtxmd` removed; neither end is in `.md` |
| DevLogic.StripExtensionsExample | python/dev/execute.py:190 | `videos.csv` becomes `ideo` |
| DevLogic.DefaultFileName | python/dev/execute.py:191-194 | with no file name: the channel name with its spaces removed and its other characters in order, then `_`, then the reverse-chronological or chronological list suffix; no spaces, and the same count of every other character as the channel name |
| DevLogic.RemoveOneSpace | python/dev/execute.py:192 | two space-free words joined by one space lose only that space |
| DevLogic.RemoveSpaceExample | python/dev/execute.py:192 | `Corey Schafer` becomes `CoreySchafer` |
| DevLogic.DefaultFileNameExample | python/dev/execute.py:191-194 | the channel `Corey Schafer`, in chronological order, gives `CoreySchafer_chronological_videos_list` |
| DevLogic.DetermineFileName | python/dev/execute.py:188-194 | `determine_file_name`: a given name is stripped (see `StripExtensionsIsSlice`), a missing one is built by `DefaultFileName`; `LegacyLogic.GivenNamesAgreeIff` compares it with the older version |
| DevLogic.Prepare | python/dev/execute.py:205-208 | the guard, `process_url` and `check_driver` run in that order: the no-format exit exactly when no format is chosen, the URL-error exit exactly when a format is chosen and the URL is rejected, the invalid-driver exit exactly when both passed and no driver name occurs; success exactly when all three pass, carrying the canonical URL and the selected driver |
| DevLogic.RunScraper | python/dev/execute.py:164-185 | the only exit is the element timeout; the scraper raises exactly when there is no driver, and then it is AttributeError at `with driver:` |
| DevLogic.Run | python/dev/execute.py:205-214 | the whole of `logic()`: see `NoFormatExitsFirst`, `BadUrlExits`, `UnknownNameExits`, `OneRetryAfterDownload`, `ScrapedRun` and `Session.Logic` |
| DevLogic.RunFrom | python/dev/execute.py:209-214 | `logic()` from the first `open_user_driver()` on: see `OneRetryAfterDownload`, `WaitDecidesScraping` and `Session.OpenAndScrape` |
| DevLogic.NoFormatExitsFirst | python/dev/execute.py:205 | the run ends with the no-format exit exactly when no format is chosen, and then before anything else happens |
| DevLogic.OneRetryAfterDownload | python/dev/execute.py:148-161 | at most two attempts; the download pass runs exactly when the first session raised, and an exception from it ends the run; the driver is retried exactly when the pass raised nothing; the update-failed exit happens exactly when the retry fails |
| DevLogic.OsGuards | python/dev/execute.py:120-139 | Edge off Windows and Safari off macOS exit at the first attempt, with no download, whenever their setup is reached |
| DevLogic.HeadlessInexactNameRaises | python/dev/execute.py:63-72 | headless with a name that is accepted but not exact gives no driver, and the run raises AttributeError |
| DevLogic.BadUrlExits | python/dev/execute.py:32-43 | the run takes the URL-error exit exactly when a format is chosen and `process_url` rejects the URL, and it has then made no attempt |
| DevLogic.UnknownNameExits | python/dev/execute.py:46-60 | the run takes the invalid-driver exit exactly when a format is chosen, the URL is accepted and no driver name occurs in the (defaulted) name, and it has then made no attempt |
| DevLogic.NotFromRunFrom | python/dev/execute.py:205-214 | once the three checks pass, the later steps never take one of their exits |
| DevLogic.FirefoxNameLaunches | python/dev/execute.py:63-72 | the name `firefox` launches the Firefox class on every OS, with the headless option exactly when headless is set |
| DevLogic.NoDriverNameLaunchesFirefox | python/dev/execute.py:48-72 | with no driver name the selected driver is Firefox; when the first open does not raise, the run scrapes with a Firefox launch, and any exception comes from the download pass |
| DevLogic.ScrapedRun | python/dev/execute.py:164-194 | a run that scrapes had a format, the canonical URL, the selected driver's class, a loaded element, and the file name from `determine_file_name` |
| DevLogic.WaitDecidesScraping | python/dev/execute.py:170-175 | once a driver is bound, the run scrapes exactly when the element loads, and otherwise takes the timeout exit |
| DevLogic.Session.constructor | python/dev/execute.py:19 | a session starts with the given driver name, no driver, no attempts and no download |
| DevLogic.Session.CheckDriver | python/dev/execute.py:46-60 | the stored driver name is defaulted to Firefox; the result is the substring match, or the invalid-driver exit |
| DevLogic.Session.Open | python/dev/execute.py:63-72 | one attempt is counted, and the result is `OpenUserDriver` for the stored name |
| DevLogic.Session.HandleOpeningWebdriverException | python/dev/execute.py:148-161 | the download pass is recorded; if it raised, there is no retry; otherwise the one retry binds the driver, or takes the update-failed exit |
| DevLogic.Session.Logic | python/dev/execute.py:205-214 | the session's steps give exactly what `Run` gives; a scraping run has its driver bound and its name defaulted |
| DevLogic.Session.OpenAndScrape | python/dev/execute.py:209-214 | the steps from the first open on give exactly what `RunFrom` gives |
| LegacyLogic.OsPrefixesExclusive | yt_videos_list/execute.py:114-117 | no platform name starts with two of the prefixes |
| LegacyLogic.DetermineUserOs | yt_videos_list/execute.py:114-120 | `determine_user_os`: see `DetermineUserOsIff` and `OsPrefixesExclusive` |
| LegacyLogic.DetermineUserOsIff | yt_videos_list/execute.py:114-120 | an OS is chosen exactly when the lowercased platform name starts with its prefix (darwin, linux, windows); any other name is the unsupported-OS exit |
| LegacyLogic.UnknownPlatformExits | yt_videos_list/execute.py:118-120 | an empty name, or one whose first letter lowercased is not d, l or w, exits |
| LegacyLogic.DarwinIsMacOS | yt_videos_list/execute.py:115 | `Darwin` is macOS |
| LegacyLogic.CygwinExits | yt_videos_list/execute.py:114-120 | `CYGWIN_NT-10.0` is the unsupported-OS exit |
| LegacyLogic.LegacyUrl | yt_videos_list/execute.py:129-131 | the URL is `https://www.youtube.com/`, then the channel type, `/`, the channel and `/videos` |
| LegacyLogic.ProcessUrlKeepsLegacyUrl | yt_videos_list/execute.py:129-131 | for slash-free arguments, the newer `process_url` gives back the older URL unchanged |
| LegacyLogic.FormatGuard | yt_videos_list/execute.py:133-136 | the program exits exactly when txt and csv are both False; docx plays no part |
| LegacyLogic.GuardsDifferOnMarkdownOnly | yt_videos_list/execute.py:133-136 | the older and newer guards disagree exactly when only markdown is chosen |
| LegacyLogic.CheckDriver | yt_videos_list/execute.py:55-68 | the older `check_driver`: see `CheckDriverSelects` |
| LegacyLogic.CheckDriverSelects | yt_videos_list/execute.py:55-68 | the same substring selection as the newer version, except that Safari off macOS shows the setup instructions and exits; no match gives the `'invalid'` sentinel |
| LegacyLogic.UserInput | yt_videos_list/execute.py:127-145 | the no-format exit happens exactly when txt and csv are False; the Safari exit exactly when a format is chosen and Safari is selected off macOS; the sentinel exit exactly when a format is chosen and no driver name occurs; success exactly otherwise, carrying the URL, the defaulted name and the selection |
| LegacyLogic.OpenUserDriver | yt_videos_list/execute.py:103-112 | opening only fails with the Edge exit |
| LegacyLogic.SeleniumDriver | yt_videos_list/execute.py:27-101 | the call of the older constructor or headless set-up function: see `SeleniumDriversAgree` |
| LegacyLogic.SeleniumDriversAgree | yt_videos_list/execute.py:27-65 | wherever Safari has passed its check, the older constructors launch what the newer ones do |
| LegacyLogic.OpenUserDriversAgree | yt_videos_list/execute.py:103-112 | wherever Safari has passed its check, the older `open_user_driver` equals the newer one |
| LegacyLogic.OpenUserDriverOutcome | yt_videos_list/execute.py:70-112 | the Edge exit happens exactly when setup is reached off Windows; the value None happens exactly when headless and the name is not exact; otherwise the selected driver's class is launched |
| LegacyLogic.DetermineFileName | yt_videos_list/execute.py:20-25 | a given file name is returned unchanged; otherwise the result is the channel name with its spaces removed and its other characters in order, then `_videos_list` |
| LegacyLogic.GivenNamesAgreeIff | yt_videos_list/execute.py:20-22 | the two versions agree on a given name exactly when it is empty, or when neither end is one of `.csvtxmd` |
| LegacyLogic.ThreeStripsFixedIff | yt_videos_list/execute.py:20-22 | three strips leave a name unchanged exactly when neither end is in any of the three sets |
| LegacyLogic.Writes | yt_videos_list/execute.py:173-174 | the txt file is written exactly when txt is set and the csv file exactly when csv is set, txt first |
| LegacyLogic.WriteGate | yt_videos_list/execute.py:170-174 | an empty video list writes nothing; otherwise the writes follow the txt and csv flags |
| LegacyLogic.Prepare | yt_videos_list/execute.py:150-151 | the unsupported-OS exit happens exactly when the platform is unknown; for a known OS, the step fails exactly when `check_user_input` fails, and with its exit |
| LegacyLogic.Scrape | yt_videos_list/execute.py:165-174 | inside `with driver:` the run never exits; a missing driver raises AttributeError |
| LegacyLogic.Run | yt_videos_list/execute.py:150-174 | the whole of the older `logic()`: see `UnknownOsExitsFirst`, `NoFormatExits`, `UnknownNameExits`, `RetryFailureReturns`, `FinishedRun` and `Session.Logic` |
| LegacyLogic.RunFrom | yt_videos_list/execute.py:152-174 | the older `logic()` from the first `open_user_driver()` on: see `RetryFailureReturns`, `FinishedRun` and `Session.OpenAndScrape` |
| LegacyLogic.UnknownOsExitsFirst | yt_videos_list/execute.py:150 | an unknown platform exits before the arguments are checked |
| LegacyLogic.NoFormatExits | yt_videos_list/execute.py:133-136 | the run takes the no-format exit exactly when the OS is known and txt and csv are both False, and it has then made no attempt |
| LegacyLogic.OpenUserDriverNeverExitsForFormat | yt_videos_list/execute.py:103-112 | opening a driver never gives the no-format exit |
| LegacyLogic.DocxIgnored | yt_videos_list/execute.py:133-136 | changing docx never changes the run |
| LegacyLogic.UnknownNameExits | yt_videos_list/execute.py:142-144 | the run takes the sentinel exit exactly when the OS is known, a format is chosen and no driver name occurs, and it has then made no attempt |
| LegacyLogic.NotFromRunFrom | yt_videos_list/execute.py:150-164 | once the OS and input checks pass, the later steps never take one of their exits |
| LegacyLogic.SafariExitsBeforeLaunch | yt_videos_list/execute.py:61-64 | Safari off macOS exits during the input check, before any attempt |
| LegacyLogic.RetryFailureReturns | yt_videos_list/execute.py:153-164 | at most two attempts; the download runs exactly when the first session raised; a failed download or a failed retry shows the setup instructions and returns; after a launch failure the run never exits |
| LegacyLogic.FinishedRun | yt_videos_list/execute.py:165-174 | a finished run has the older URL, the selected driver's class and the older file name; it writes nothing exactly when the list is empty, and otherwise follows the txt and csv flags |
| LegacyLogic.Session.constructor | yt_videos_list/execute.py:15 | a session starts with the given driver name, no driver, no attempts, no download and no files written |
| LegacyLogic.Session.CheckUserInput | yt_videos_list/execute.py:127-145 | the result matches `UserInput`; on success the stored name is defaulted |
| LegacyLogic.Session.Open | yt_videos_list/execute.py:103-112 | one attempt is counted, and the result is the older `OpenUserDriver` for the stored name |
| LegacyLogic.Session.WriteFiles | yt_videos_list/execute.py:170-174 | the files written grow by exactly the write gate's formats |
| LegacyLogic.Session.Logic | yt_videos_list/execute.py:150-174 | the session's steps give exactly what `Run` gives; files are written only by a finished run, and they are its files |
| LegacyLogic.Session.OpenAndScrape | yt_videos_list/execute.py:152-174 | the steps from the first open on give exactly what `RunFrom` gives |
| LegacyLogic.Session.WithDriver | yt_videos_list/execute.py:165-174 | the body of `with driver:` gives exactly what `Scrape` gives, and writes the files it reports |

## Left out

- Selenium is not modelled. This covers browser sessions, `driver.get`, window size and position, `WebDriverWait` with the XPath and class-name lookups, and scrolling (`create_file.scroll_to_bottom`). Whether a session can be created, whether the channel-name element loads, its text, and the number of videos found are all inputs (`Environment`).
- The `create_file` writers and the `yield_logger` log file are left out, because they are file I/O. A write is recorded only as its format (`Txt`/`Csv`). The write formats, `chronological`, `reverse_chronological` (except in the file-name suffix), `scroll_pause_time`, `log_silently` and `execution_type` only affect messages and writers.
- Console messages are left out. The model keeps only the events the downloader prints that carry data (the header, the comment and the command) and not the message text. The prints in `logic()` are not modelled.
- `os.system` is not run. The command is recorded as a `Shell` event.
- The download command lists in `driver_downloads_for_os` are a parameter (`downloads`). The notifications module that holds them is not part of this model.
- The OS probes are inputs. `platform.system()` is the platform name in the older version. `determine_user_os` of the newer version, `get_drive_letter`, `verify_browser_exists` and `get_browser_version` are the `os`, `drive` and `installed` inputs. `python/dev/download/user_os_info.py`, `windows_info.py`, `selenium_linux/macos/windows.py` and `yt_videos_list/windows.py` are not part of this model.
- `globals()[f'selenium_{user_os}']` is replaced by the `Os` enumeration.
- The older version's `download_dependencies.run()` is not part of this model. Whether it fails is the input `downloadFails`. Its bare `except:` catches any failure of the download or of the retry.
- `time.perf_counter` timing is left out, because it is floating-point wall-clock time.
- `python/tests/test_cross_platform_drivers.py` is left out. It installs packages and drives real browsers.
- `sys.exit()` is an `Exited` outcome, and an uncaught exception is a `Raised` outcome.
- DevLogic.RunScraper: `with None:` is modelled as an AttributeError, which is what Python up to 3.10 raises; Python 3.11 and later raise TypeError. The same holds for LegacyLogic.Scrape.
- The flags `txt`, `csv`, `markdown` and `headless` are modelled as `bool`. The source tests them by identity (`is False` at python/dev/execute.py:26 and 64, yt_videos_list/execute.py:104 and 133; `is True` at yt_videos_list/execute.py:173-174), so a non-bool value such as 0 or None behaves differently: `headless=0` takes the headless branch. Such values are not modelled.
- Dependencies.DownloadAllDependencies: the row table is the `table` parameter, so the loop is proved for any table. `RowTable.RowInList` is the program's own table, and `RowInListCountsFromEnd` shows that it meets the lemmas' requirement.
- DevLogic.RunFrom: the retry after the download pass launches the same driver configuration as the first attempt. Only whether it raises is an input.
- PyStr.Lower: only ASCII letters are lowercased. Platform names are ASCII.
- `str(version)` keys: the table is keyed by numbers in the model. `RowTable.DictKeys` shows that the string keys of the source are exactly the canonical decimal strings of those numbers.
