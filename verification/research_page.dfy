/**
 * The state rules of the research page (src/components/ResearchPage.js),
 * without the rendering: the search box, the comma-separated keyword field
 * with its limit of ten keywords, the research settings, and the search
 * history that starting a research run extends.
 */
module ResearchPage {

  // ---------------------------------------------------------------------------
  // Keyword parsing: value.split(',').map(k => k.trim()).filter(k => k)
  // ---------------------------------------------------------------------------

  /**
   * What JavaScript's `String.prototype.trim` removes: the WhiteSpace
   * characters (tab, vertical tab, form feed, space, no-break space, the byte
   * order mark and the other space separators) and the line terminators.
   */
  predicate IsJsSpace(c: char) {
    var n := c as int;
    (0x09 <= n <= 0x0D) || n == 0x20 || n == 0xA0 || n == 0x1680 || (0x2000 <= n <= 0x200A)
    || n == 0x2028 || n == 0x2029 || n == 0x202F || n == 0x205F || n == 0x3000 || n == 0xFEFF
  }

  /** No JavaScript whitespace at either end. */
  predicate Trimmed(s: string) {
    s != [] ==> !IsJsSpace(s[0]) && !IsJsSpace(s[|s| - 1])
  }

  /** `ps.join(',')`; the inverse of `SplitComma`. */
  function JoinComma(ps: seq<string>): string {
    if ps == [] then ""
    else if |ps| == 1 then ps[0]
    else ps[0] + "," + JoinComma(ps[1..])
  }

  /** The number of commas in `s`. */
  function Commas(s: string): nat {
    if s == [] then 0 else (if s[0] == ',' then 1 else 0) + Commas(s[1..])
  }

  /**
   * `s.split(',')`: the pieces between commas, one more than there are commas
   * (so the empty string gives one empty piece), none holding a comma.
   */
  function SplitComma(s: string): (r: seq<string>)
    ensures |r| == Commas(s) + 1
    ensures forall p :: p in r ==> ',' !in p
  {
    if s == [] then [""]
    else
      var rest := SplitComma(s[1..]);
      assert s == [s[0]] + s[1..];
      if s[0] == ',' then [""] + rest
      else
        assert ',' !in rest[0];
        [[s[0]] + rest[0]] + rest[1..]
  }

  /** An empty first piece contributes only its comma. */
  lemma JoinEmptyFirst(ps: seq<string>)
    requires ps != []
    ensures JoinComma([""] + ps) == "," + JoinComma(ps)
  {
    assert ([""] + ps)[1..] == ps;
  }

  /** A character put before the first piece comes first in the join. */
  lemma JoinPrepend(c: char, ps: seq<string>)
    requires ps != []
    ensures JoinComma([[c] + ps[0]] + ps[1..]) == [c] + JoinComma(ps)
  {
    var qs := [[c] + ps[0]] + ps[1..];
    assert qs[1..] == ps[1..];
  }

  /** Joining the pieces of `s` back with commas gives `s`. */
  lemma {:induction false} JoinSplit(s: string)
    ensures JoinComma(SplitComma(s)) == s
    decreases |s|
  {
    if s != [] {
      var rest := SplitComma(s[1..]);
      JoinSplit(s[1..]);
      if s[0] == ',' {
        JoinEmptyFirst(rest);
      } else {
        JoinPrepend(s[0], rest);
      }
      assert [s[0]] + s[1..] == s;
    }
  }

  /** `s.trim()`: no whitespace left at either end, nothing but whitespace cut away. */
  function Trim(s: string): (r: string)
    ensures Trimmed(r) && |r| <= |s|
    ensures forall c :: c in r ==> c in s
    ensures Trimmed(s) ==> r == s
    decreases |s|
  {
    if s != [] && IsJsSpace(s[0]) then Trim(s[1..])
    else if s != [] && IsJsSpace(s[|s| - 1]) then Trim(s[..|s| - 1])
    else s
  }

  /**
   * Every character of `s` is JavaScript whitespace. The text cleaner has its
   * own `AllSpaces` over Python's `isspace` set, which is a different set.
   */
  predicate AllSpaces(s: string) {
    forall j :: 0 <= j < |s| ==> IsJsSpace(s[j])
  }

  /** Whitespace followed by whitespace is whitespace. */
  lemma AllSpacesConcat(a: string, b: string)
    requires AllSpaces(a) && AllSpaces(b)
    ensures AllSpaces(a + b)
  {
    assert forall j :: |a| <= j < |a + b| ==> (a + b)[j] == b[j - |a|];
  }

  /** `s` is whitespace, then `r`, then whitespace. */
  ghost predicate AmidSpaces(s: string, r: string) {
    exists a, b :: AllSpaces(a) && AllSpaces(b) && s == a + r + b
  }

  /** One more whitespace character in front keeps `r` amid whitespace. */
  lemma AmidSpacesFront(s: string, r: string)
    requires s != [] && IsJsSpace(s[0]) && AmidSpaces(s[1..], r)
    ensures AmidSpaces(s, r)
  {
    var a, b :| AllSpaces(a) && AllSpaces(b) && s[1..] == a + r + b;
    AllSpacesConcat([s[0]], a);
    assert s == ([s[0]] + a) + r + b;
  }

  /** One more whitespace character at the end keeps `r` amid whitespace. */
  lemma AmidSpacesBack(s: string, r: string)
    requires s != [] && IsJsSpace(s[|s| - 1]) && AmidSpaces(s[..|s| - 1], r)
    ensures AmidSpaces(s, r)
  {
    var a, b :| AllSpaces(a) && AllSpaces(b) && s[..|s| - 1] == a + r + b;
    AllSpacesConcat(b, [s[|s| - 1]]);
    assert s == a + r + (b + [s[|s| - 1]]);
  }

  /** What `Trim` keeps lies between whitespace: `s` is whitespace, `Trim(s)`, whitespace. */
  lemma {:induction false} TrimCutsSpaces(s: string)
    ensures AmidSpaces(s, Trim(s))
    decreases |s|
  {
    if s != [] && IsJsSpace(s[0]) {
      TrimCutsSpaces(s[1..]);
      AmidSpacesFront(s, Trim(s));
    } else if s != [] && IsJsSpace(s[|s| - 1]) {
      TrimCutsSpaces(s[..|s| - 1]);
      AmidSpacesBack(s, Trim(s));
    } else {
      var empty: string := [];
      assert AllSpaces(empty) && s == empty + s + empty;
    }
  }

  /** `.map(k => k.trim())`. */
  function TrimAll(ps: seq<string>): (r: seq<string>)
    ensures |r| == |ps|
    ensures forall i :: 0 <= i < |ps| ==> r[i] == Trim(ps[i])
  {
    if ps == [] then [] else [Trim(ps[0])] + TrimAll(ps[1..])
  }

  /** `.filter(k => k)`: only the empty string is falsy. */
  function NonEmpty(ps: seq<string>): (r: seq<string>)
    ensures |r| <= |ps|
    ensures forall k :: k in r <==> k in ps && k != ""
    ensures (forall k :: k in ps ==> k != "") ==> r == ps
  {
    if ps == [] then []
    else
      assert ps[0] in ps && forall k :: k in ps[1..] ==> k in ps;
      if ps[0] == "" then NonEmpty(ps[1..])
      else [ps[0]] + NonEmpty(ps[1..])
  }

  /** The filter works element by element, so it distributes over concatenation. */
  lemma {:induction false} NonEmptyConcat(a: seq<string>, b: seq<string>)
    ensures NonEmpty(a + b) == NonEmpty(a) + NonEmpty(b)
    decreases |a|
  {
    if a == [] {
      assert a + b == b;
    } else {
      assert (a + b)[0] == a[0] && (a + b)[1..] == a[1..] + b;
      NonEmptyConcat(a[1..], b);
      if a[0] != "" {
        assert [a[0]] + (NonEmpty(a[1..]) + NonEmpty(b)) == ([a[0]] + NonEmpty(a[1..])) + NonEmpty(b);
      }
    }
  }

  /** A keyword as the page stores it: non-empty, trimmed, without a comma. */
  predicate IsKeyword(k: string) {
    k != "" && Trimmed(k) && ',' !in k
  }

  /**
   * The keyword list of a field value: the non-empty trimmed pieces between
   * commas. There are never more keywords than commas plus one.
   */
  function ParseKeywords(value: string): (r: seq<string>)
    ensures forall k :: k in r ==> IsKeyword(k)
    ensures |r| <= Commas(value) + 1
  {
    var pieces := SplitComma(value);
    var trimmed := TrimAll(pieces);
    assert forall i :: 0 <= i < |pieces| ==> pieces[i] in pieces;
    NonEmpty(trimmed)
  }

  /** Splitting the comma-join of comma-free pieces gives the pieces back. */
  lemma {:induction false} SplitJoin(ps: seq<string>)
    requires ps != []
    requires forall p :: p in ps ==> ',' !in p
    ensures SplitComma(JoinComma(ps)) == ps
    decreases ps
  {
    if |ps| == 1 {
      SplitOfCommaFree(ps[0]);
    } else {
      assert forall p :: p in ps[1..] ==> p in ps;
      SplitJoin(ps[1..]);
      SplitAfterComma(ps[0], JoinComma(ps[1..]));
    }
  }

  /** A comma-free string is one piece. */
  lemma {:induction false} SplitOfCommaFree(p: string)
    requires ',' !in p
    ensures SplitComma(p) == [p]
    decreases |p|
  {
    if p != [] {
      assert p[0] != ',';
      assert forall c :: c in p[1..] ==> c in p;
      SplitOfCommaFree(p[1..]);
      assert [p[0]] + p[1..] == p;
    }
  }

  /** Splitting `p + "," + rest` with `p` comma-free puts `p` before the pieces of `rest`. */
  lemma {:induction false} SplitAfterComma(p: string, rest: string)
    requires ',' !in p
    ensures SplitComma(p + "," + rest) == [p] + SplitComma(rest)
    decreases |p|
  {
    var t := p + "," + rest;
    if p == [] {
      assert t == [','] + rest;
      assert t[1..] == rest;
    } else {
      assert t[0] == p[0] && t[1..] == p[1..] + "," + rest;
      assert ',' !in p[1..] by {
        assert forall j :: 0 <= j < |p| - 1 ==> p[1..][j] == p[j + 1];
      }
      SplitAfterComma(p[1..], rest);
      var pieces := SplitComma(t[1..]);
      assert pieces[0] == p[1..] && pieces[1..] == SplitComma(rest);
      assert [p[0]] + p[1..] == p;
    }
  }

  /**
   * Writing a keyword list back as a comma-separated field value and parsing
   * it again gives the same list: the parsed form is a fixed point.
   */
  lemma ParseJoinRoundTrip(ks: seq<string>)
    requires forall k :: k in ks ==> IsKeyword(k)
    ensures ParseKeywords(JoinComma(ks)) == ks
  {
    if ks != [] {
      assert forall i :: 0 <= i < |ks| ==> ks[i] in ks;
      SplitJoin(ks);
      assert TrimAll(ks) == ks;
    }
  }

  // ---------------------------------------------------------------------------
  // The search history
  // ---------------------------------------------------------------------------

  /** The most keywords the keyword field accepts. */
  const MaxKeywords: nat := 10

  /** The most entries the search history keeps. */
  const MaxHistory: nat := 10

  datatype Status = Completed | InProgress

  /** An entry of the search history; `time` is the locale time string of the moment it was added. */
  datatype HistoryEntry = HistoryEntry(time: string, query: string, status: Status, sources: nat)

  function Min(a: nat, b: nat): nat {
    if a <= b then a else b
  }

  /**
   * `prev => [entry, ...prev.slice(0, 9)]`: the new entry first, then the
   * newest previous entries in their order, never more than ten in all.
   */
  function PushHistory(prev: seq<HistoryEntry>, entry: HistoryEntry): (r: seq<HistoryEntry>)
    ensures |r| == Min(|prev| + 1, MaxHistory)
    ensures r[0] == entry
    ensures forall i :: 1 <= i < |r| ==> r[i] == prev[i - 1]
  {
    [entry] + prev[..Min(|prev|, MaxHistory - 1)]
  }

  /** The four sample entries the history starts with. */
  const SampleHistory: seq<HistoryEntry> := [
    HistoryEntry("14:32:15", "AI market trends", Completed, 15),
    HistoryEntry("14:28:42", "blockchain technology 2024", Completed, 22),
    HistoryEntry("14:15:18", "renewable energy investments", Completed, 18),
    HistoryEntry("13:52:33", "quantum computing applications", InProgress, 0)
  ]

  /** The record that starting a research run stores for the output page. */
  datatype ResearchData = ResearchData(
    query: string,
    timeRange: string,
    reportLength: string,
    keywords: seq<string>,
    numberOfSources: string,
    outputFormat: string,
    timestamp: string)

  // ---------------------------------------------------------------------------
  // The component state and its handlers
  // ---------------------------------------------------------------------------

  class Page {
    var searchQuery: string
    var timeRange: string
    var reportLength: string
    var keywords: string
    var numberOfSources: string
    var outputFormat: string
    var searchHistory: seq<HistoryEntry>
    var isSearching: bool

    /**
     * The state the handlers keep: the keyword field parses to at most ten
     * keywords, the history holds at most ten entries, and the page is
     * searching exactly when the search box is not empty.
     */
    ghost predicate Valid()
      reads this
    {
      && |ParseKeywords(keywords)| <= MaxKeywords
      && |searchHistory| <= MaxHistory
      && (isSearching <==> searchQuery != "")
    }

    /** The initial state: empty fields, default settings and four sample history entries. */
    constructor ()
      ensures Valid()
      ensures searchQuery == "" && keywords == "" && !isSearching
      ensures timeRange == "7" && reportLength == "medium"
      ensures numberOfSources == "10" && outputFormat == "markdown"
      ensures searchHistory == SampleHistory
    {
      searchQuery := "";
      timeRange := "7";
      reportLength := "medium";
      keywords := "";
      numberOfSources := "10";
      outputFormat := "markdown";
      searchHistory := SampleHistory;
      isSearching := false;
    }

    /** `handleSearchChange`: store the query; the page is searching exactly when it is not empty. */
    method HandleSearchChange(value: string)
      requires Valid()
      modifies this
      ensures Valid()
      ensures searchQuery == value
      ensures isSearching <==> |value| > 0
      ensures keywords == old(keywords) && searchHistory == old(searchHistory)
      ensures timeRange == old(timeRange) && reportLength == old(reportLength)
      ensures numberOfSources == old(numberOfSources) && outputFormat == old(outputFormat)
    {
      searchQuery := value;
      isSearching := |value| > 0;
    }

    /** `handleKeywordChange`: an edit is stored only when it parses to at most ten keywords. */
    method HandleKeywordChange(value: string)
      requires Valid()
      modifies this
      ensures Valid()
      ensures keywords == if |ParseKeywords(value)| <= MaxKeywords then value else old(keywords)
      ensures searchQuery == old(searchQuery) && isSearching == old(isSearching)
      ensures searchHistory == old(searchHistory)
      ensures timeRange == old(timeRange) && reportLength == old(reportLength)
      ensures numberOfSources == old(numberOfSources) && outputFormat == old(outputFormat)
    {
      var keywordArray := ParseKeywords(value);
      if |keywordArray| <= MaxKeywords {
        keywords := value;
      }
    }

    /**
     * `handleStartResearch`: the record for the output page carries the
     * current settings and the parsed keywords (at most ten), and the history
     * gains an in-progress entry for the current query with no sources.
     * `timestamp` and `time` are the two readings of the clock.
     */
    method HandleStartResearch(timestamp: string, time: string) returns (data: ResearchData)
      requires Valid()
      modifies this
      ensures Valid()
      ensures data == ResearchData(searchQuery, timeRange, reportLength, ParseKeywords(keywords),
                                   numberOfSources, outputFormat, timestamp)
      ensures |data.keywords| <= MaxKeywords
      ensures searchHistory == PushHistory(old(searchHistory), HistoryEntry(time, searchQuery, InProgress, 0))
      ensures searchQuery == old(searchQuery) && isSearching == old(isSearching)
      ensures keywords == old(keywords)
      ensures timeRange == old(timeRange) && reportLength == old(reportLength)
      ensures numberOfSources == old(numberOfSources) && outputFormat == old(outputFormat)
    {
      data := ResearchData(searchQuery, timeRange, reportLength, ParseKeywords(keywords),
                           numberOfSources, outputFormat, timestamp);
      var newSearchEntry := HistoryEntry(time, searchQuery, InProgress, 0);
      searchHistory := PushHistory(searchHistory, newSearchEntry);
    }

    /** The time-range select. */
    method SetTimeRange(value: string)
      requires Valid()
      modifies this`timeRange
      ensures Valid() && timeRange == value
    {
      timeRange := value;
    }

    /** The report-length select. */
    method SetReportLength(value: string)
      requires Valid()
      modifies this`reportLength
      ensures Valid() && reportLength == value
    {
      reportLength := value;
    }

    /** The number-of-sources select. */
    method SetNumberOfSources(value: string)
      requires Valid()
      modifies this`numberOfSources
      ensures Valid() && numberOfSources == value
    {
      numberOfSources := value;
    }

    /** The output-format select. */
    method SetOutputFormat(value: string)
      requires Valid()
      modifies this`outputFormat
      ensures Valid() && outputFormat == value
    {
      outputFormat := value;
    }
  }
}
