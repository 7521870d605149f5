/**
 * The `row_in_list` table of the dependency downloader.  For each driver it
 * maps a browser's major version to a negative index into that driver's list
 * of download commands.  The list alternates comment line and command line,
 * newest release first, so an index `-2k-1` selects the command line of the
 * k-th release counted from the oldest, and `-1` is the oldest entry.
 *
 * The source keys each inner dictionary by the decimal string of the major
 * version; here the literal is keyed by the number that string spells, and
 * `Dict` rebuilds the string-keyed dictionary (module `Dependencies` looks
 * versions up in it).  Each table is written out verbatim in decade-sized
 * pieces.  The reference definitions `FirefoxBand` and its siblings give
 * each driver's offset in closed form.  Every piece is checked against its
 * reference definition, and the properties of the whole table are proved
 * from them.
 */
module RowTable {
  import opened Common
  import opened PyStr

  /** Every key of `rows` is a version no older than driver `d`'s oldest one and maps to its reference offset. */
  ghost predicate FollowsBand(rows: map<nat, int>, d: Browser) {
    forall n :: n in rows ==> OldestMajor(d) <= n && rows[n] == Band(d, n)
  }

  /** Two tables that follow the band make a table that follows it. */
  lemma UnionFollowsBand(a: map<nat, int>, b: map<nat, int>, d: Browser)
    requires FollowsBand(a, d) && FollowsBand(b, d)
    ensures FollowsBand(a + b, d)
  {
  }

  /** A newer browser never maps to an older driver release (an index nearer -1). */
  ghost predicate NewerNeverOlder(rows: map<nat, int>) {
    forall m, n :: m in rows && n in rows && m <= n ==> rows[n] <= rows[m]
  }

  /** `rows` lists driver `d`'s oldest version and maps it to the last row. */
  ghost predicate ListsOldestLast(rows: map<nat, int>, d: Browser) {
    OldestMajor(d) in rows && rows[OldestMajor(d)] == -1
  }

  ghost predicate NegativeOdd(x: int) {
    -75 <= x <= -1 && x % 2 == 1
  }

  /** The oldest browser major version each driver's table lists. */
  function OldestMajor(d: Browser): nat {
    match d
    case Firefox => 60
    case Opera => 46
    case Chrome => 67
    case Brave => 75
    case Edge => 79
    case Safari => 0
  }

  // Reference definitions: the offset for Firefox/Opera/... major version n.

  function FirefoxBand(n: nat): int {
    if n >= 92 then -11
    else if n >= 87 then -9
    else if n >= 84 then -7
    else if n >= 82 then -5
    else if n >= 78 then -3
    else -1
  }

  function OperaBand(n: nat): int {
    if n >= 89 then -75
    else if n == 88 then -73
    else if n >= 85 then -71
    else if n >= 62 then 99 - 2 * n
    else if n >= 60 then -23
    else if n >= 58 then -21
    else if n >= 52 then 95 - 2 * n
    else if n >= 50 then -7
    else if n >= 48 then 93 - 2 * n
    else -1
  }

  /**
   * Rows nearer -1 are older releases.  Chrome's table gives version 82,
   * for which Chrome had no release, the row of version 78: an older
   * driver than both 81 and 83 get.
   */
  function ChromeBand(n: nat): int {
    if n >= 97 then -59
    else if n >= 83 then 135 - 2 * n
    else if n == 82 then -23
    else if n >= 73 then 133 - 2 * n
    else if n >= 71 then -11
    else if n == 70 then -9
    else if n == 69 then -7
    else if n == 68 then -3
    else -1
  }

  function BraveBand(n: nat): int {
    if n >= 103 then -51
    else if n == 102 then -49
    else if n >= 99 then -47
    else if n >= 83 then 151 - 2 * n
    else if n >= 81 then -13
    else if n >= 75 then 149 - 2 * n
    else -1
  }

  function EdgeBand(n: nat): int {
    if n >= 98 then -39
    else if n >= 79 then 157 - 2 * n
    else -1
  }

  function Band(d: Browser, n: nat): int {
    match d
    case Firefox => FirefoxBand(n)
    case Opera => OperaBand(n)
    case Chrome => ChromeBand(n)
    case Brave => BraveBand(n)
    case Edge => EdgeBand(n)
    case Safari => -1
  }

  // row_in_list['firefox'], newest first as in the source
  const Firefox100s: map<nat, int> := map[
    111 := -11, 110 := -11, 109 := -11, 108 := -11, 107 := -11, 106 := -11,
    105 := -11, 104 := -11, 103 := -11, 102 := -11, 101 := -11, 100 := -11
  ]

  lemma Firefox100sFollowBand()
    ensures FollowsBand(Firefox100s, Firefox)
  {
  }

  const Firefox90s: map<nat, int> := map[
    99 := -11, 98 := -11, 97 := -11, 96 := -11, 95 := -11, 94 := -11,
    93 := -11, 92 := -11, 91 := -9, 90 := -9
  ]

  lemma Firefox90sFollowBand()
    ensures FollowsBand(Firefox90s, Firefox)
  {
  }

  const Firefox80s: map<nat, int> := map[
    89 := -9, 88 := -9, 87 := -9, 86 := -7, 85 := -7, 84 := -7,
    83 := -5, 82 := -5, 81 := -3, 80 := -3
  ]

  lemma Firefox80sFollowBand()
    ensures FollowsBand(Firefox80s, Firefox)
  {
  }

  const Firefox70s: map<nat, int> := map[
    79 := -3, 78 := -3, 77 := -1, 76 := -1, 75 := -1, 74 := -1,
    73 := -1, 72 := -1, 71 := -1, 70 := -1
  ]

  lemma Firefox70sFollowBand()
    ensures FollowsBand(Firefox70s, Firefox)
  {
  }

  const Firefox60s: map<nat, int> := map[
    69 := -1, 68 := -1, 67 := -1, 66 := -1, 65 := -1, 64 := -1,
    63 := -1, 62 := -1, 61 := -1, 60 := -1
  ]

  lemma Firefox60sFollowBand()
    ensures FollowsBand(Firefox60s, Firefox)
  {
  }

  const FirefoxRows: map<nat, int> :=
    Firefox100s + Firefox90s + Firefox80s + Firefox70s + Firefox60s

  lemma FirefoxRowsFollowBand()
    ensures FollowsBand(FirefoxRows, Firefox)
  {
    Firefox100sFollowBand();
    Firefox90sFollowBand();
    Firefox80sFollowBand();
    Firefox70sFollowBand();
    Firefox60sFollowBand();
    UnionFollowsBand(Firefox100s, Firefox90s, Firefox);
    UnionFollowsBand(Firefox100s + Firefox90s, Firefox80s, Firefox);
    UnionFollowsBand(Firefox100s + Firefox90s + Firefox80s, Firefox70s, Firefox);
    UnionFollowsBand(Firefox100s + Firefox90s + Firefox80s + Firefox70s, Firefox60s, Firefox);
  }

  // row_in_list['opera'], newest first as in the source
  const Opera100s: map<nat, int> := map[
    111 := -75, 110 := -75, 109 := -75, 108 := -75, 107 := -75, 106 := -75,
    105 := -75, 104 := -75, 103 := -75, 102 := -75, 101 := -75, 100 := -75
  ]

  lemma Opera100sFollowBand()
    ensures FollowsBand(Opera100s, Opera)
  {
  }

  const Opera90s: map<nat, int> := map[
    99 := -75, 98 := -75, 97 := -75, 96 := -75, 95 := -75, 94 := -75,
    93 := -75, 92 := -75, 91 := -75, 90 := -75
  ]

  lemma Opera90sFollowBand()
    ensures FollowsBand(Opera90s, Opera)
  {
  }

  const Opera80s: map<nat, int> := map[
    89 := -75, 88 := -73, 87 := -71, 86 := -71, 85 := -71, 84 := -69,
    83 := -67, 82 := -65, 81 := -63, 80 := -61
  ]

  lemma Opera80sFollowBand()
    ensures FollowsBand(Opera80s, Opera)
  {
  }

  const Opera70s: map<nat, int> := map[
    79 := -59, 78 := -57, 77 := -55, 76 := -53, 75 := -51, 74 := -49,
    73 := -47, 72 := -45, 71 := -43, 70 := -41
  ]

  lemma Opera70sFollowBand()
    ensures FollowsBand(Opera70s, Opera)
  {
  }

  const Opera60s: map<nat, int> := map[
    69 := -39, 68 := -37, 67 := -35, 66 := -33, 65 := -31, 64 := -29,
    63 := -27, 62 := -25, 61 := -23, 60 := -23
  ]

  lemma Opera60sFollowBand()
    ensures FollowsBand(Opera60s, Opera)
  {
  }

  const Opera50s: map<nat, int> := map[
    59 := -21, 58 := -21, 57 := -19, 56 := -17, 55 := -15, 54 := -13,
    53 := -11, 52 := -9, 51 := -7, 50 := -7
  ]

  lemma Opera50sFollowBand()
    ensures FollowsBand(Opera50s, Opera)
  {
  }

  const Opera40s: map<nat, int> := map[
    49 := -5, 48 := -3, 47 := -1, 46 := -1
  ]

  lemma Opera40sFollowBand()
    ensures FollowsBand(Opera40s, Opera)
  {
  }

  const OperaRows: map<nat, int> :=
    Opera100s + Opera90s + Opera80s + Opera70s + Opera60s + Opera50s + Opera40s

  lemma OperaRowsFollowBand()
    ensures FollowsBand(OperaRows, Opera)
  {
    Opera100sFollowBand();
    Opera90sFollowBand();
    Opera80sFollowBand();
    Opera70sFollowBand();
    Opera60sFollowBand();
    Opera50sFollowBand();
    Opera40sFollowBand();
    UnionFollowsBand(Opera100s, Opera90s, Opera);
    UnionFollowsBand(Opera100s + Opera90s, Opera80s, Opera);
    UnionFollowsBand(Opera100s + Opera90s + Opera80s, Opera70s, Opera);
    UnionFollowsBand(Opera100s + Opera90s + Opera80s + Opera70s, Opera60s, Opera);
    UnionFollowsBand(Opera100s + Opera90s + Opera80s + Opera70s + Opera60s, Opera50s, Opera);
    UnionFollowsBand(Opera100s + Opera90s + Opera80s + Opera70s + Opera60s + Opera50s, Opera40s, Opera);
  }

  // row_in_list['chrome'], newest first as in the source
  const Chrome100s: map<nat, int> := map[
    111 := -59, 110 := -59, 109 := -59, 108 := -59, 107 := -59, 106 := -59,
    105 := -59, 104 := -59, 103 := -59, 102 := -59, 101 := -59, 100 := -59
  ]

  lemma Chrome100sFollowBand()
    ensures FollowsBand(Chrome100s, Chrome)
  {
  }

  const Chrome90s: map<nat, int> := map[
    99 := -59, 98 := -59, 97 := -59, 96 := -57, 95 := -55, 94 := -53,
    93 := -51, 92 := -49, 91 := -47, 90 := -45
  ]

  lemma Chrome90sFollowBand()
    ensures FollowsBand(Chrome90s, Chrome)
  {
  }

  const Chrome80s: map<nat, int> := map[
    89 := -43, 88 := -41, 87 := -39, 86 := -37, 85 := -35, 84 := -33,
    83 := -31, 82 := -23, 81 := -29, 80 := -27
  ]

  lemma Chrome80sFollowBand()
    ensures FollowsBand(Chrome80s, Chrome)
  {
  }

  const Chrome70s: map<nat, int> := map[
    79 := -25, 78 := -23, 77 := -21, 76 := -19, 75 := -17, 74 := -15,
    73 := -13, 72 := -11, 71 := -11, 70 := -9
  ]

  lemma Chrome70sFollowBand()
    ensures FollowsBand(Chrome70s, Chrome)
  {
  }

  const Chrome60s: map<nat, int> := map[
    69 := -7, 68 := -3, 67 := -1
  ]

  lemma Chrome60sFollowBand()
    ensures FollowsBand(Chrome60s, Chrome)
  {
  }

  const ChromeRows: map<nat, int> :=
    Chrome100s + Chrome90s + Chrome80s + Chrome70s + Chrome60s

  lemma ChromeRowsFollowBand()
    ensures FollowsBand(ChromeRows, Chrome)
  {
    Chrome100sFollowBand();
    Chrome90sFollowBand();
    Chrome80sFollowBand();
    Chrome70sFollowBand();
    Chrome60sFollowBand();
    UnionFollowsBand(Chrome100s, Chrome90s, Chrome);
    UnionFollowsBand(Chrome100s + Chrome90s, Chrome80s, Chrome);
    UnionFollowsBand(Chrome100s + Chrome90s + Chrome80s, Chrome70s, Chrome);
    UnionFollowsBand(Chrome100s + Chrome90s + Chrome80s + Chrome70s, Chrome60s, Chrome);
  }

  // row_in_list['brave'], newest first as in the source
  const Brave100s: map<nat, int> := map[
    111 := -51, 110 := -51, 109 := -51, 108 := -51, 107 := -51, 106 := -51,
    105 := -51, 104 := -51, 103 := -51, 102 := -49, 101 := -47, 100 := -47
  ]

  lemma Brave100sFollowBand()
    ensures FollowsBand(Brave100s, Brave)
  {
  }

  const Brave90s: map<nat, int> := map[
    99 := -47, 98 := -45, 97 := -43, 96 := -41, 95 := -39, 94 := -37,
    93 := -35, 92 := -33, 91 := -31, 90 := -29
  ]

  lemma Brave90sFollowBand()
    ensures FollowsBand(Brave90s, Brave)
  {
  }

  const Brave80s: map<nat, int> := map[
    89 := -27, 88 := -25, 87 := -23, 86 := -21, 85 := -19, 84 := -17,
    83 := -15, 82 := -13, 81 := -13, 80 := -11
  ]

  lemma Brave80sFollowBand()
    ensures FollowsBand(Brave80s, Brave)
  {
  }

  const Brave70s: map<nat, int> := map[
    79 := -9, 78 := -7, 77 := -5, 76 := -3, 75 := -1
  ]

  lemma Brave70sFollowBand()
    ensures FollowsBand(Brave70s, Brave)
  {
  }

  const BraveRows: map<nat, int> :=
    Brave100s + Brave90s + Brave80s + Brave70s

  lemma BraveRowsFollowBand()
    ensures FollowsBand(BraveRows, Brave)
  {
    Brave100sFollowBand();
    Brave90sFollowBand();
    Brave80sFollowBand();
    Brave70sFollowBand();
    UnionFollowsBand(Brave100s, Brave90s, Brave);
    UnionFollowsBand(Brave100s + Brave90s, Brave80s, Brave);
    UnionFollowsBand(Brave100s + Brave90s + Brave80s, Brave70s, Brave);
  }

  // row_in_list['edge'], newest first as in the source
  const Edge100s: map<nat, int> := map[
    111 := -39, 110 := -39, 109 := -39, 108 := -39, 107 := -39, 106 := -39,
    105 := -39, 104 := -39, 103 := -39, 102 := -39, 101 := -39, 100 := -39
  ]

  lemma Edge100sFollowBand()
    ensures FollowsBand(Edge100s, Edge)
  {
  }

  const Edge90s: map<nat, int> := map[
    99 := -39, 98 := -39, 97 := -37, 96 := -35, 95 := -33, 94 := -31,
    93 := -29, 92 := -27, 91 := -25, 90 := -23
  ]

  lemma Edge90sFollowBand()
    ensures FollowsBand(Edge90s, Edge)
  {
  }

  const Edge80s: map<nat, int> := map[
    89 := -21, 88 := -19, 87 := -17, 86 := -15, 85 := -13, 84 := -11,
    83 := -9, 82 := -7, 81 := -5, 80 := -3
  ]

  lemma Edge80sFollowBand()
    ensures FollowsBand(Edge80s, Edge)
  {
  }

  const Edge70s: map<nat, int> := map[
    79 := -1
  ]

  lemma Edge70sFollowBand()
    ensures FollowsBand(Edge70s, Edge)
  {
  }

  const EdgeRows: map<nat, int> :=
    Edge100s + Edge90s + Edge80s + Edge70s

  lemma EdgeRowsFollowBand()
    ensures FollowsBand(EdgeRows, Edge)
  {
    Edge100sFollowBand();
    Edge90sFollowBand();
    Edge80sFollowBand();
    Edge70sFollowBand();
    UnionFollowsBand(Edge100s, Edge90s, Edge);
    UnionFollowsBand(Edge100s + Edge90s, Edge80s, Edge);
    UnionFollowsBand(Edge100s + Edge90s + Edge80s, Edge70s, Edge);
  }

  /**
   * `row_in_list[driver]`, keyed by number: the five drivers' tables.  Safari
   * has no entry, so looking it up raises `KeyError`.
   */
  function RowInList(d: Browser): (r: Option<map<nat, int>>)
    ensures r.Some? <==> d != Safari
  {
    match d
    case Firefox => Some(FirefoxRows)
    case Opera => Some(OperaRows)
    case Chrome => Some(ChromeRows)
    case Brave => Some(BraveRows)
    case Edge => Some(EdgeRows)
    case Safari => None
  }

  lemma FirefoxTableFollowsBand()
    ensures FollowsBand(RowInList(Firefox).value, Firefox)
  {
    FirefoxRowsFollowBand();
  }

  lemma OperaTableFollowsBand()
    ensures FollowsBand(RowInList(Opera).value, Opera)
  {
    OperaRowsFollowBand();
  }

  lemma ChromeTableFollowsBand()
    ensures FollowsBand(RowInList(Chrome).value, Chrome)
  {
    ChromeRowsFollowBand();
  }

  lemma BraveTableFollowsBand()
    ensures FollowsBand(RowInList(Brave).value, Brave)
  {
    BraveRowsFollowBand();
  }

  lemma EdgeTableFollowsBand()
    ensures FollowsBand(RowInList(Edge).value, Edge)
  {
    EdgeRowsFollowBand();
  }

  lemma TableFacts(d: Browser)
    requires d != Safari
    ensures FollowsBand(RowInList(d).value, d)
  {
    match d
    case Firefox => FirefoxTableFollowsBand();
    case Opera => OperaTableFollowsBand();
    case Chrome => ChromeTableFollowsBand();
    case Brave => BraveTableFollowsBand();
    case Edge => EdgeTableFollowsBand();
  }

  lemma BandIsNegativeOdd(d: Browser, n: nat)
    ensures NegativeOdd(Band(d, n))
  {
  }

  lemma BandIsAntitone(d: Browser, m: nat, n: nat)
    requires d != Chrome
    requires m <= n
    ensures Band(d, n) <= Band(d, m)
  {
  }

  /** One entry of the table: an odd offset in [-75, -1] for a version no older than the driver's oldest. */
  lemma EntryFacts(d: Browser, n: nat)
    requires RowInList(d).Some? && n in RowInList(d).value
    ensures NegativeOdd(RowInList(d).value[n])
    ensures OldestMajor(d) <= n
  {
    TableFacts(d);
    BandIsNegativeOdd(d, n);
  }

  /** Each release occupies two list rows, so every offset is odd, and none reaches past row -75. */
  lemma OffsetsAreNegativeOdd()
    ensures forall d, n :: RowInList(d).Some? && n in RowInList(d).value ==> NegativeOdd(RowInList(d).value[n])
  {
    forall d, n | RowInList(d).Some? && n in RowInList(d).value
      ensures NegativeOdd(RowInList(d).value[n])
    {
      EntryFacts(d, n);
    }
  }

  lemma FirefoxOldest()
    ensures ListsOldestLast(FirefoxRows, Firefox)
  {
    assert 60 in Firefox60s;
    FirefoxRowsFollowBand();
  }

  lemma FirefoxTableOldest(d: Browser)
    requires d == Firefox
    ensures ListsOldestLast(RowInList(d).value, d)
  {
    FirefoxOldest();
  }

  lemma OperaOldest()
    ensures ListsOldestLast(OperaRows, Opera)
  {
    assert 46 in Opera40s;
    OperaRowsFollowBand();
  }

  lemma OperaTableOldest(d: Browser)
    requires d == Opera
    ensures ListsOldestLast(RowInList(d).value, d)
  {
    OperaOldest();
  }

  lemma ChromeOldest()
    ensures ListsOldestLast(ChromeRows, Chrome)
  {
    assert 67 in Chrome60s;
    ChromeRowsFollowBand();
  }

  lemma ChromeTableOldest(d: Browser)
    requires d == Chrome
    ensures ListsOldestLast(RowInList(d).value, d)
  {
    ChromeOldest();
  }

  lemma BraveOldest()
    ensures ListsOldestLast(BraveRows, Brave)
  {
    assert 75 in Brave70s;
    BraveRowsFollowBand();
  }

  lemma BraveTableOldest(d: Browser)
    requires d == Brave
    ensures ListsOldestLast(RowInList(d).value, d)
  {
    BraveOldest();
  }

  lemma EdgeOldest()
    ensures ListsOldestLast(EdgeRows, Edge)
  {
    assert 79 in Edge70s;
    EdgeRowsFollowBand();
  }

  lemma EdgeTableOldest(d: Browser)
    requires d == Edge
    ensures ListsOldestLast(RowInList(d).value, d)
  {
    EdgeOldest();
  }

  lemma OldestEntry(d: Browser)
    requires RowInList(d).Some?
    ensures ListsOldestLast(RowInList(d).value, d)
  {
    match d
    case Firefox => FirefoxTableOldest(d);
    case Opera => OperaTableOldest(d);
    case Chrome => ChromeTableOldest(d);
    case Brave => BraveTableOldest(d);
    case Edge => EdgeTableOldest(d);
  }

  /** The oldest listed version of each driver is its smallest key and selects the last row, -1. */
  lemma OldestVersionMapsToMinusOne()
    ensures forall d :: RowInList(d).Some? ==>
      && OldestMajor(d) in RowInList(d).value
      && RowInList(d).value[OldestMajor(d)] == -1
      && forall n :: n in RowInList(d).value ==> OldestMajor(d) <= n
  {
    forall d | RowInList(d).Some?
      ensures OldestMajor(d) in RowInList(d).value
      ensures RowInList(d).value[OldestMajor(d)] == -1
      ensures forall n :: n in RowInList(d).value ==> OldestMajor(d) <= n
    {
      OldestEntry(d);
      forall n | n in RowInList(d).value
        ensures OldestMajor(d) <= n
      {
        EntryFacts(d, n);
      }
    }
  }

  lemma EntriesOrdered(d: Browser, m: nat, n: nat)
    requires d != Chrome && RowInList(d).Some?
    requires m in RowInList(d).value && n in RowInList(d).value && m <= n
    ensures RowInList(d).value[n] <= RowInList(d).value[m]
  {
    TableFacts(d);
    BandIsAntitone(d, m, n);
  }

  /** For every driver but Chrome, a newer browser never gets an older driver release. */
  lemma NewerNeverOlderExceptChrome()
    ensures forall d :: RowInList(d).Some? && d != Chrome ==> NewerNeverOlder(RowInList(d).value)
  {
    forall d, m, n | RowInList(d).Some? && d != Chrome && m in RowInList(d).value
        && n in RowInList(d).value && m <= n
      ensures RowInList(d).value[n] <= RowInList(d).value[m]
    {
      EntriesOrdered(d, m, n);
    }
  }

  /**
   * Chrome 82 maps to the row of Chrome 78, an older driver than Chrome 81
   * gets.
   */
  lemma ChromeEightyTwo()
    ensures 78 in ChromeRows && 81 in ChromeRows && 82 in ChromeRows && 83 in ChromeRows
    ensures ChromeRows[81] == -29 && ChromeRows[82] == -23 && ChromeRows[83] == -31
    ensures ChromeRows[82] == ChromeRows[78]
  {
    assert 81 in Chrome80s && 82 in Chrome80s && 83 in Chrome80s;
    assert 78 in Chrome70s;
    ChromeRowsFollowBand();
  }

  /** Around 82, Chrome's band gives a newer row exactly to 79, 80, 81 and every version above 82. */
  lemma ChromeBandAroundEightyTwo(v: nat)
    ensures v < 82 ==> (ChromeBand(v) < ChromeBand(82) <==> 79 <= v)
    ensures v > 82 ==> ChromeBand(v) < ChromeBand(82)
  {
  }

  /**
   * The listed versions below 82 that get a newer row than 82 are exactly
   * 79, 80 and 81; every listed version above 82 gets a newer row too.
   */
  lemma ChromeEightyTwoOutOfOrder(v: nat)
    requires v in ChromeRows
    ensures 82 in ChromeRows
    ensures v < 82 ==> (ChromeRows[v] < ChromeRows[82] <==> 79 <= v)
    ensures v > 82 ==> ChromeRows[v] < ChromeRows[82]
  {
    ChromeEightyTwo();
    ChromeRowsFollowBand();
    assert ChromeRows[v] == ChromeBand(v);
    ChromeBandAroundEightyTwo(v);
  }

  /** `row_in_list['chrome']['95']` is -55. */
  lemma ChromeNinetyFive()
    ensures 95 in ChromeRows && ChromeRows[95] == -55
  {
    assert 95 in Chrome90s;
    ChromeRowsFollowBand();
  }

  lemma ChromeRowsNotMonotone()
    ensures !NewerNeverOlder(ChromeRows)
  {
    ChromeEightyTwo();
  }

  /** So Chrome's table, unlike the others, is not monotone. */
  lemma ChromeIsNotMonotone()
    ensures !NewerNeverOlder(RowInList(Chrome).value)
  {
    ChromeRowsNotMonotone();
  }

  /**
   * The string-keyed dictionary the source writes for a table: the key for
   * major version `n` is `str(n)`.  A string is a key exactly when it is a
   * numeral the table lists, so `'095'`, `'95.0'` and `' 95'` are not keys.
   */
  function Dict(rows: map<nat, int>): map<string, int> {
    DecimalStringInjective();
    map n | n in rows :: DecimalString(n) := rows[n]
  }

  /** A string is a key exactly when it is `str` of a listed version, and it then maps to that version's offset. */
  lemma DictKeys(rows: map<nat, int>)
    ensures forall s :: s in Dict(rows) <==> IsDecimalNumeral(s) && DecimalValue(s) in rows
    ensures forall s :: s in Dict(rows) ==> Dict(rows)[s] == rows[DecimalValue(s)]
  {
    forall n | n in rows ensures IsDecimalNumeral(DecimalString(n)) && DecimalValue(DecimalString(n)) == n {
      DecimalStringRoundTrip(n);
    }
    forall s | IsDecimalNumeral(s) ensures DecimalString(DecimalValue(s)) == s {
      DecimalValueRoundTrip(s);
    }
  }
}
