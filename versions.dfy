/** Version recovery for setup.py files (find_pattern, find_dunder_version,
    find_plain_version, find_setup_py_dunder_version, detect_version_attribute,
    detect_version_in_locations and get_module_scripts in
    src/_packagedcode/pypi.py).

    The three regular expressions are written out as matchers over the text
    of a file.  With re.MULTILINE, `^` matches at the start of the text and
    just after each "\n"; `\s` is a whitespace character and may be a line
    break; `.` is any character but "\n".  re.search reports the match that
    starts at the first position where the pattern matches, and the captured
    group is stripped.

    The file system is a map from path to file content, the existence of the
    `src` directory is a flag, and the directory walk is the sequence of
    (directory, file names) pairs os.walk would yield.
 */
module Versions {
  import opened Basics

  // ----- scanning helpers -----

  predicate IsQuote(c: char) {
    c == '\'' || c == '"'
  }

  /** `^` under re.MULTILINE: the start of the text or just after "\n". */
  predicate LineStart(s: string, p: nat) {
    p <= |s| && (p == 0 || s[p - 1] == '\n')
  }

  /** s holds w at position i. */
  predicate HasAt(s: string, i: nat, w: string) {
    i + |w| <= |s| && s[i..i + |w|] == w
  }

  predicate AllSpaces(s: string, i: nat, j: nat)
    requires i <= j <= |s|
  {
    forall k :: i <= k < j ==> IsSpace(s[k])
  }

  predicate NoQuotes(s: string, i: nat, j: nat)
    requires i <= j <= |s|
  {
    forall k :: i <= k < j ==> !IsQuote(s[k])
  }

  predicate NoNewline(s: string, i: nat, j: nat)
    requires i <= j <= |s|
  {
    forall k :: i <= k < j ==> s[k] != '\n'
  }

  /** The end of the run of whitespace starting at i (greedy `\s*`). */
  function SkipSpaces(s: string, i: nat): (j: nat)
    requires i <= |s|
    ensures i <= j <= |s| && AllSpaces(s, i, j)
    ensures j < |s| ==> !IsSpace(s[j])
    decreases |s| - i
  {
    if i < |s| && IsSpace(s[i]) then SkipSpaces(s, i + 1) else i
  }

  /** The end of the run of non-quote characters starting at i (greedy `[^'"]*`). */
  function SkipNonQuotes(s: string, i: nat): (j: nat)
    requires i <= |s|
    ensures i <= j <= |s| && NoQuotes(s, i, j)
    ensures j < |s| ==> IsQuote(s[j])
    decreases |s| - i
  {
    if i < |s| && !IsQuote(s[i]) then SkipNonQuotes(s, i + 1) else i
  }

  /** The first "\n" at or after i, or |s| (how far `.*` can reach). */
  function LineEnd(s: string, i: nat): (j: nat)
    requires i <= |s|
    ensures i <= j <= |s| && NoNewline(s, i, j)
    ensures j < |s| ==> s[j] == '\n'
    decreases |s| - i
  {
    if i < |s| && s[i] != '\n' then LineEnd(s, i + 1) else i
  }

  /** The last position k with lo <= k and k + |w| <= hi where s holds w. */
  function LastAt(s: string, w: string, lo: nat, hi: nat): (r: Option<nat>)
    requires lo <= hi <= |s|
    ensures r.Some? ==> lo <= r.value && r.value + |w| <= hi && HasAt(s, r.value, w)
    decreases hi
  {
    if hi < lo + |w| then None
    else if HasAt(s, hi - |w|, w) then Some(hi - |w|)
    else LastAt(s, w, lo, hi - 1)
  }

  /** LastAt finds an occurrence whenever there is one, and no later one
      exists. */
  lemma {:induction false} LastAtIsLast(s: string, w: string, lo: nat, hi: nat, k: nat)
    requires lo <= hi <= |s|
    requires lo <= k && k + |w| <= hi && HasAt(s, k, w)
    ensures LastAt(s, w, lo, hi).Some? && k <= LastAt(s, w, lo, hi).value
    decreases hi
  {
    if k + |w| < hi && !HasAt(s, hi - |w|, w) {
      LastAtIsLast(s, w, lo, hi - 1, k);
    }
  }

  // ----- the patterns -----

  /** The three patterns of the version detectors:
      `^__version__\s*=\s*['"]([^'"]*)['"]`,
      `^version\s*=\s*['"]([^'"]*)['"]` and
      `^\s*version\s*=\s*(.*__version__)`. */
  datatype Pattern = DunderAssignment | PlainAssignment | SetupVersionArgument

  /** The match of `<word>\s*=\s*['"]([^'"]*)['"]` starting at p, as the
      bounds of its group.  Each greedy repetition is followed by a character
      it cannot consume, so no backtracking can find another match. */
  function QuotedAt(s: string, p: nat, word: string): (r: Option<(nat, nat)>)
    requires p <= |s|
    ensures r.Some? ==> r.value.0 <= r.value.1 <= |s|
  {
    if !HasAt(s, p, word) then None
    else
      var e := SkipSpaces(s, p + |word|);
      if e == |s| || s[e] != '=' then None
      else
        var q := SkipSpaces(s, e + 1);
        if q == |s| || !IsQuote(s[q]) then None
        else
          var g := SkipNonQuotes(s, q + 1);
          if g == |s| then None else Some((q + 1, g))
  }

  /** The regular expression `<word>\s*=\s*['"]([^'"]*)['"]` matches s from
      p, with "=" at e and its group s[g0..g1]. */
  predicate QuotedMatch(s: string, p: nat, word: string, e: nat, g0: nat, g1: nat) {
    p + |word| <= e && e + 2 <= g0 <= g1 < |s|
    && HasAt(s, p, word) && AllSpaces(s, p + |word|, e) && s[e] == '='
    && AllSpaces(s, e + 1, g0 - 1) && IsQuote(s[g0 - 1])
    && NoQuotes(s, g0, g1) && IsQuote(s[g1])
  }

  /** QuotedAt finds a match of the regular expression, and it is the only
      one: the pattern matches at p exactly when QuotedAt says so. */
  lemma QuotedAtIsTheMatch(s: string, p: nat, word: string)
    requires p <= |s|
    ensures QuotedAt(s, p, word).Some? ==>
      exists e: nat :: QuotedMatch(s, p, word, e, QuotedAt(s, p, word).value.0, QuotedAt(s, p, word).value.1)
    ensures forall e: nat, g0: nat, g1: nat :: QuotedMatch(s, p, word, e, g0, g1) ==> QuotedAt(s, p, word) == Some((g0, g1))
  {
    if QuotedAt(s, p, word).Some? {
      var e := SkipSpaces(s, p + |word|);
      var (g0, g1) := QuotedAt(s, p, word).value;
      assert QuotedMatch(s, p, word, e, g0, g1);
    }
    forall e: nat, g0: nat, g1: nat | QuotedMatch(s, p, word, e, g0, g1)
      ensures QuotedAt(s, p, word) == Some((g0, g1))
    {
      SkipSpacesStopsAt(s, p + |word|, e);
      SkipSpacesStopsAt(s, e + 1, g0 - 1);
      SkipNonQuotesStopsAt(s, g0, g1);
    }
  }

  /** A run of whitespace followed by a non-space character is exactly what
      SkipSpaces skips. */
  lemma SkipSpacesStopsAt(s: string, i: nat, j: nat)
    requires i <= j < |s| && AllSpaces(s, i, j) && !IsSpace(s[j])
    ensures SkipSpaces(s, i) == j
  {
  }

  lemma SkipNonQuotesStopsAt(s: string, i: nat, j: nat)
    requires i <= j < |s| && NoQuotes(s, i, j) && IsQuote(s[j])
    ensures SkipNonQuotes(s, i) == j
  {
  }

  /** The match of `\s*version\s*=\s*(.*__version__)` starting at p, as the
      bounds of its group: the greedy `\s*` runs before "version", around
      "=" and before the group (line breaks included), and the greedy `.*`
      reaches the last "__version__" on the line where the group starts. */
  function SetupArgAt(s: string, p: nat): (r: Option<(nat, nat)>)
    requires p <= |s|
    ensures r.Some? ==> r.value.0 <= r.value.1 <= |s|
  {
    var a := SkipSpaces(s, p);
    if !HasAt(s, a, "version") then None else SetupArgAfterWord(s, a + 7)
  }

  /** The rest of the match after "version": `\s*=\s*(.*__version__)`. */
  function SetupArgAfterWord(s: string, i: nat): (r: Option<(nat, nat)>)
    requires i <= |s|
    ensures r.Some? ==> r.value.0 <= r.value.1 <= |s|
  {
    var e := SkipSpaces(s, i);
    if e == |s| || s[e] != '=' then None else SetupArgGroup(s, SkipSpaces(s, e + 1))
  }

  /** The group `(.*__version__)` starting at g: up to the end of the last
      "__version__" before the end of the line. */
  function SetupArgGroup(s: string, g: nat): (r: Option<(nat, nat)>)
    requires g <= |s|
    ensures r.Some? ==> g <= r.value.1 <= |s|
  {
    match LastAt(s, "__version__", g, LineEnd(s, g))
    case None => None
    case Some(k) => Some((g, k + 11))
  }

  /** The regular expression `\s*version\s*=\s*(.*__version__)` matches s
      from p, with "version" at a, "=" at e and its group s[g..k + 11]. */
  predicate SetupArgMatch(s: string, p: nat, a: nat, e: nat, g: nat, k: nat) {
    p <= a && a + 7 <= e < g <= k && k + 11 <= |s|
    && AllSpaces(s, p, a) && HasAt(s, a, "version")
    && AllSpaces(s, a + 7, e) && s[e] == '='
    && AllSpaces(s, e + 1, g) && NoNewline(s, g, k + 11) && HasAt(s, k, "__version__")
  }

  /** SetupArgAt finds a match of the regular expression, matches whenever
      the expression does, and its group is the one Python's greedy
      repetitions report: it starts no earlier and ends no earlier than the
      group of any other match at p. */
  lemma SetupArgAtIsGreedyMatch(s: string, p: nat)
    requires p <= |s|
    ensures SetupArgAt(s, p).Some? ==>
      exists a: nat, e: nat, k: nat :: SetupArgMatch(s, p, a, e, SetupArgAt(s, p).value.0, k) && SetupArgAt(s, p).value.1 == k + 11
    ensures forall a: nat, e: nat, g: nat, k: nat :: SetupArgMatch(s, p, a, e, g, k) ==>
      SetupArgAt(s, p).Some? && g <= SetupArgAt(s, p).value.0 && k + 11 <= SetupArgAt(s, p).value.1
  {
    if SetupArgAt(s, p).Some? {
      var a, e, k := SetupArgAtSound(s, p);
    }
    forall a: nat, e: nat, g: nat, k: nat | SetupArgMatch(s, p, a, e, g, k)
      ensures SetupArgAt(s, p).Some? && g <= SetupArgAt(s, p).value.0 && k + 11 <= SetupArgAt(s, p).value.1
    {
      SetupArgAtMaximal(s, p, a, e, g, k);
    }
  }

  /** What SetupArgAt reports is a match, with "version" at a, "=" at e and
      the last "__version__" of its group at k. */
  lemma SetupArgAtSound(s: string, p: nat) returns (a: nat, e: nat, k: nat)
    requires p <= |s| && SetupArgAt(s, p).Some?
    ensures SetupArgMatch(s, p, a, e, SetupArgAt(s, p).value.0, k) && SetupArgAt(s, p).value.1 == k + 11
  {
    a := SkipSpaces(s, p);
    e := SkipSpaces(s, a + 7);
    var (g, end) := SetupArgAt(s, p).value;
    k := LastAt(s, "__version__", g, LineEnd(s, g)).value;
    assert s[k] == "__version__"[0];
  }

  /** Any match at p is found, and its group lies within the one reported. */
  lemma {:induction false} SetupArgAtMaximal(s: string, p: nat, a: nat, e: nat, g: nat, k: nat)
    requires SetupArgMatch(s, p, a, e, g, k)
    ensures SetupArgAt(s, p).Some? && g <= SetupArgAt(s, p).value.0 && k + 11 <= SetupArgAt(s, p).value.1
  {
    SetupArgPrefix(s, p, a, e);
    SetupArgGroupMaximal(s, e + 1, g, k);
  }

  /** Up to the "=", a match leaves SetupArgAt no choice. */
  lemma {:induction false} SetupArgPrefix(s: string, p: nat, a: nat, e: nat)
    requires p <= a && a + 7 <= e < |s|
    requires AllSpaces(s, p, a) && HasAt(s, a, "version") && AllSpaces(s, a + 7, e) && s[e] == '='
    ensures SetupArgAt(s, p) == SetupArgGroup(s, SkipSpaces(s, e + 1))
  {
    SetupArgWord(s, p, a);
    SkipSpacesStopsAt(s, a + 7, e);
    SetupArgEquals(s, a + 7, e);
  }

  lemma {:induction false} SetupArgWord(s: string, p: nat, a: nat)
    requires p <= a && a + 7 <= |s| && AllSpaces(s, p, a) && HasAt(s, a, "version")
    ensures SetupArgAt(s, p) == SetupArgAfterWord(s, a + 7)
  {
    HasAtHead(s, a, "version");
    SkipSpacesStopsAt(s, p, a);
  }

  lemma {:induction false} SetupArgEquals(s: string, i: nat, e: nat)
    requires i <= e < |s| && SkipSpaces(s, i) == e && s[e] == '='
    ensures SetupArgAfterWord(s, i) == SetupArgGroup(s, SkipSpaces(s, e + 1))
  {
  }

  /** After the "=", the group SetupArgAt reports covers that of any match. */
  lemma {:induction false} SetupArgGroupMaximal(s: string, i: nat, g: nat, k: nat)
    requires i <= g <= k && k + 11 <= |s|
    requires AllSpaces(s, i, g) && NoNewline(s, g, k + 11) && HasAt(s, k, "__version__")
    ensures var g' := SkipSpaces(s, i);
      SetupArgGroup(s, g').Some? && g <= SetupArgGroup(s, g').value.0 && k + 11 <= SetupArgGroup(s, g').value.1
  {
    var w := "__version__";
    HasAtHead(s, k, w);
    SkipSpacesReaches(s, i, g);
    SkipSpacesBefore(s, i, k);
    var g' := SkipSpaces(s, i);
    assert NoNewline(s, g', k + 11);
    LineEndReaches(s, g', k + 11);
    LastAtIsLast(s, w, g', LineEnd(s, g'), k);
  }

  lemma HasAtHead(s: string, i: nat, w: string)
    requires HasAt(s, i, w) && w != []
    ensures s[i] == w[0]
  {
    assert s[i..i + |w|][0] == s[i];
  }

  /** SkipSpaces passes over a run of whitespace. */
  lemma SkipSpacesReaches(s: string, i: nat, j: nat)
    requires i <= j <= |s| && AllSpaces(s, i, j)
    ensures j <= SkipSpaces(s, i)
  {
  }

  /** SkipSpaces stops at or before any non-space character. */
  lemma SkipSpacesBefore(s: string, i: nat, j: nat)
    requires i <= j < |s| && !IsSpace(s[j])
    ensures SkipSpaces(s, i) <= j
  {
  }

  /** LineEnd passes over a run without "\n". */
  lemma LineEndReaches(s: string, i: nat, j: nat)
    requires i <= j <= |s| && NoNewline(s, i, j)
    ensures j <= LineEnd(s, i)
  {
  }

  /** The match of pat starting at p. */
  function MatchAt(s: string, p: nat, pat: Pattern): (r: Option<(nat, nat)>)
    requires p <= |s|
    ensures r.Some? ==> r.value.0 <= r.value.1 <= |s|
  {
    match pat
    case DunderAssignment => QuotedAt(s, p, "__version__")
    case PlainAssignment => QuotedAt(s, p, "version")
    case SetupVersionArgument => SetupArgAt(s, p)
  }

  /** The match of pat at each position 0 .. |s|, where `^` allows one. */
  function LineMatches(s: string, pat: Pattern): (ms: seq<Option<(nat, nat)>>)
    ensures |ms| == |s| + 1
    ensures forall p :: 0 <= p <= |s| ==> ms[p] == if LineStart(s, p) then MatchAt(s, p, pat) else None
  {
    seq(|s| + 1, p requires 0 <= p <= |s| => if LineStart(s, p) then MatchAt(s, p, pat) else None)
  }

  /** The first match of a left-to-right scan. */
  function FirstSome<T>(ms: seq<Option<T>>): Option<T> {
    if ms == [] then None
    else if ms[0].Some? then ms[0]
    else FirstSome(ms[1..])
  }

  /** The scan reports the first position that has a match, and nothing
      exactly when no position has one. */
  lemma {:induction false} FirstSomeIsFirst<T>(ms: seq<Option<T>>)
    ensures FirstSome(ms).None? <==> forall i :: 0 <= i < |ms| ==> ms[i].None?
    ensures FirstSome(ms).Some? ==>
      exists i :: 0 <= i < |ms| && ms[i] == FirstSome(ms) && forall j :: 0 <= j < i ==> ms[j].None?
  {
    if ms != [] && ms[0].None? {
      FirstSomeIsFirst(ms[1..]);
      assert forall i :: 1 <= i < |ms| ==> ms[i] == ms[1..][i - 1];
      if FirstSome(ms).Some? {
        var i :| 0 <= i < |ms[1..]| && ms[1..][i] == FirstSome(ms[1..]) && forall j :: 0 <= j < i ==> ms[1..][j].None?;
        assert ms[i + 1] == FirstSome(ms);
      }
    }
  }

  /** re.search with re.MULTILINE: the match at the first line start where
      pat matches, as the bounds of its group. */
  function Search(s: string, pat: Pattern): (r: Option<(nat, nat)>)
    ensures r.Some? ==> r.value.0 <= r.value.1 <= |s|
  {
    var ms := LineMatches(s, pat);
    FirstSomeIsFirst(ms);
    FirstSome(ms)
  }

  /** find_pattern(location, pattern) on the content of the file: the
      stripped group of the first match, or None. */
  function FindPattern(content: string, pat: Pattern): (r: Option<string>)
    ensures r.Some? ==> r.value == Strip(r.value)
  {
    match Search(content, pat)
    case None => None
    case Some((g0, g1)) =>
      StripIdempotent(content[g0..g1]);
      Some(Strip(content[g0..g1]))
  }

  /** find_dunder_version */
  function FindDunderVersion(content: string): Option<string> {
    FindPattern(content, DunderAssignment)
  }

  /** find_plain_version */
  function FindPlainVersion(content: string): Option<string> {
    FindPattern(content, PlainAssignment)
  }

  /** find_setup_py_dunder_version */
  function FindSetupPyDunderVersion(content: string): Option<string> {
    FindPattern(content, SetupVersionArgument)
  }

  /** A dunder or plain version is the stripped text between the quotes of
      an assignment at the first line start where one appears; none is found
      exactly when no line start holds such an assignment. */
  lemma QuotedVersionIsFirstAssignment(content: string, pat: Pattern)
    requires pat != SetupVersionArgument
    ensures var word := if pat == DunderAssignment then "__version__" else "version";
      (FindPattern(content, pat).None? <==>
         forall p: nat, e: nat, g0: nat, g1: nat :: p <= |content| && LineStart(content, p) ==> !QuotedMatch(content, p, word, e, g0, g1))
      && (FindPattern(content, pat).Some? ==>
            exists p: nat, e: nat, g0: nat, g1: nat :: LineStart(content, p) && QuotedMatch(content, p, word, e, g0, g1)
              && FindPattern(content, pat) == Some(Strip(content[g0..g1]))
              && forall q: nat :: q < p && LineStart(content, q) ==> QuotedAt(content, q, word).None?)
  {
    var word := if pat == DunderAssignment then "__version__" else "version";
    SearchIsFirstLineMatch(content, pat);
    forall p: nat | p <= |content|
      ensures MatchAt(content, p, pat) == QuotedAt(content, p, word)
    {
    }
    forall p: nat | p <= |content| {
      QuotedAtIsTheMatch(content, p, word);
    }
    if Search(content, pat).Some? {
      QuotedVersionFound(content, pat, word);
    }
  }

  lemma QuotedVersionFound(content: string, pat: Pattern, word: string)
    requires pat != SetupVersionArgument && Search(content, pat).Some?
    requires word == if pat == DunderAssignment then "__version__" else "version"
    ensures exists p: nat, e: nat, g0: nat, g1: nat ::
              LineStart(content, p) && QuotedMatch(content, p, word, e, g0, g1)
              && FindPattern(content, pat) == Some(Strip(content[g0..g1]))
              && forall q: nat :: q < p && LineStart(content, q) ==> QuotedAt(content, q, word).None?
  {
    SearchIsFirstLineMatch(content, pat);
    var p: nat :| p <= |content| && LineStart(content, p) && MatchAt(content, p, pat) == Search(content, pat)
                   && forall q: nat :: q < p && LineStart(content, q) ==> MatchAt(content, q, pat).None?;
    forall q: nat | q <= |content|
      ensures MatchAt(content, q, pat) == QuotedAt(content, q, word)
    {
    }
    QuotedAtIsTheMatch(content, p, word);
    var g0 := Search(content, pat).value.0;
    var g1 := Search(content, pat).value.1;
    var e: nat :| QuotedMatch(content, p, word, e, g0, g1);
    FoundIsStrippedGroup(content, pat, g0, g1);
  }

  /** find_pattern returns the stripped group of the match re.search reports. */
  lemma FoundIsStrippedGroup(content: string, pat: Pattern, g0: nat, g1: nat)
    requires Search(content, pat).Some?
    requires Search(content, pat).value.0 == g0 && Search(content, pat).value.1 == g1
    ensures g0 <= g1 <= |content| && FindPattern(content, pat) == Some(Strip(content[g0..g1]))
  {
  }

  /** find_setup_py_dunder_version finds nothing exactly when no line start
      holds a `version = ...__version__` argument. */
  lemma SetupVersionAbsent(content: string)
    ensures FindSetupPyDunderVersion(content).None? <==>
      forall p: nat, a: nat, e: nat, g: nat, k: nat :: p <= |content| && LineStart(content, p) ==> !SetupArgMatch(content, p, a, e, g, k)
  {
    SearchIsFirstLineMatch(content, SetupVersionArgument);
    forall p: nat | p <= |content| {
      SetupArgAtIsGreedyMatch(content, p);
    }
  }

  /** Otherwise re.search reports the group of the argument at the first line
      start that holds one, taken as Python's greedy repetitions take it: the
      match there whose group starts and ends no earlier than any other.
      FoundIsStrippedGroup turns that group into the version. */
  lemma SetupVersionIsFirstArgument(content: string, p: nat, a: nat, e: nat, g: nat, k: nat)
    requires LineStart(content, p) && SetupArgMatch(content, p, a, e, g, k)
    requires forall q: nat, a': nat, e': nat, g': nat, k': nat ::
      q < p && LineStart(content, q) ==> !SetupArgMatch(content, q, a', e', g', k')
    requires forall a': nat, e': nat, g': nat, k': nat ::
      SetupArgMatch(content, p, a', e', g', k') ==> g' <= g && k' <= k
    ensures Search(content, SetupVersionArgument).Some?
    ensures Search(content, SetupVersionArgument).value.0 == g && Search(content, SetupVersionArgument).value.1 == k + 11
  {
    forall q: nat | q < p && LineStart(content, q)
      ensures MatchAt(content, q, SetupVersionArgument).None?
    {
      SetupArgAtIsGreedyMatch(content, q);
    }
    GreedyArgIsReported(content, p, a, e, g, k);
    SearchFindsFirstLineMatch(content, SetupVersionArgument, p);
  }

  /** The match at p whose group starts and ends no earlier than any other is
      the one SetupArgAt reports. */
  lemma GreedyArgIsReported(content: string, p: nat, a: nat, e: nat, g: nat, k: nat)
    requires SetupArgMatch(content, p, a, e, g, k)
    requires forall a': nat, e': nat, g': nat, k': nat ::
      SetupArgMatch(content, p, a', e', g', k') ==> g' <= g && k' <= k
    ensures p <= |content| && SetupArgAt(content, p).Some?
    ensures SetupArgAt(content, p).value.0 == g && SetupArgAt(content, p).value.1 == k + 11
  {
    SetupArgAtMaximal(content, p, a, e, g, k);
    var a0, e0, k0 := SetupArgAtSound(content, p);
    var r := SetupArgAt(content, p).value;
    GreedyBound(content, p, g, k, a0, e0, r.0, k0);
  }

  lemma GreedyBound(content: string, p: nat, g: nat, k: nat, a0: nat, e0: nat, g0: nat, k0: nat)
    requires SetupArgMatch(content, p, a0, e0, g0, k0)
    requires forall a': nat, e': nat, g': nat, k': nat ::
      SetupArgMatch(content, p, a', e', g', k') ==> g' <= g && k' <= k
    ensures g0 <= g && k0 <= k
  {
  }

  /** A line start with a match and none before it is what re.search reports. */
  lemma SearchFindsFirstLineMatch(s: string, pat: Pattern, p: nat)
    requires p <= |s| && LineStart(s, p) && MatchAt(s, p, pat).Some?
    requires forall q: nat :: q < p && LineStart(s, q) ==> MatchAt(s, q, pat).None?
    ensures Search(s, pat) == MatchAt(s, p, pat)
  {
    SearchIsFirstLineMatch(s, pat);
    var p0: nat :| p0 <= |s| && LineStart(s, p0) && MatchAt(s, p0, pat) == Search(s, pat)
                   && forall q: nat :: q < p0 && LineStart(s, q) ==> MatchAt(s, q, pat).None?;
    assert p0 == p;
  }

  /** re.search with re.MULTILINE reports the match at the first line start
      that has one, and nothing exactly when no line start has one. */
  lemma SearchIsFirstLineMatch(s: string, pat: Pattern)
    ensures Search(s, pat).None? <==> forall p: nat :: p <= |s| && LineStart(s, p) ==> MatchAt(s, p, pat).None?
    ensures Search(s, pat).Some? ==>
      exists p: nat :: p <= |s| && LineStart(s, p) && MatchAt(s, p, pat) == Search(s, pat)
        && forall q: nat :: q < p && LineStart(s, q) ==> MatchAt(s, q, pat).None?
  {
    var ms := LineMatches(s, pat);
    FirstSomeIsFirst(ms);
    if Search(s, pat).Some? {
      var p :| 0 <= p < |ms| && ms[p] == FirstSome(ms) && forall j :: 0 <= j < p ==> ms[j].None?;
      assert LineStart(s, p) && MatchAt(s, p, pat) == Search(s, pat);
    }
  }

  /** A match at the start of the text is the one re.search reports. */
  lemma SearchAtStart(s: string, pat: Pattern)
    requires MatchAt(s, 0, pat).Some?
    ensures Search(s, pat) == MatchAt(s, 0, pat)
  {
    var ms := LineMatches(s, pat);
    assert ms[0] == MatchAt(s, 0, pat);
  }

  /** In a text of one line, only a match at its start can be reported. */
  lemma SearchOneLine(s: string, pat: Pattern)
    requires forall i :: 0 <= i < |s| ==> s[i] != '\n'
    requires MatchAt(s, 0, pat).None?
    ensures Search(s, pat).None?
  {
    var ms := LineMatches(s, pat);
    FirstSomeIsFirst(ms);
    forall p | 0 <= p < |ms| ensures ms[p].None? {
      if p > 0 {
        assert s[p - 1] != '\n';
      }
    }
  }

  /** `__version__ = "1.2.3"` gives "1.2.3". */
  lemma DunderVersionExample(s: string)
    requires s == "__version__ = \"1.2.3\""
    ensures FindDunderVersion(s) == Some("1.2.3")
  {
    DunderExampleMatch(s);
    QuotedAtIsTheMatch(s, 0, "__version__");
    SearchAtStart(s, DunderAssignment);
    assert s[15..20] == "1.2.3";
    StripLeftOfUnpadded("1.2.3");
    StripRightOfUnpadded("1.2.3");
  }

  lemma DunderExampleMatch(s: string)
    requires s == "__version__ = \"1.2.3\""
    ensures QuotedMatch(s, 0, "__version__", 12, 15, 20)
  {
    assert HasAt(s, 0, "__version__") by {
      assert s[0..11] == "__version__";
    }
    assert s[11] == ' ' && s[12] == '=' && s[13] == ' ' && s[14] == '"' && s[20] == '"';
    assert NoQuotes(s, 15, 20) by {
      assert s[15..20] == "1.2.3";
    }
  }

  /** A file whose only version is `version = '0.9'` has no dunder version,
      and its plain version is "0.9". */
  lemma PlainVersionExample(s: string)
    requires s == "version = '0.9'"
    ensures FindDunderVersion(s) == None
    ensures FindPlainVersion(s) == Some("0.9")
  {
    assert !HasAt(s, 0, "__version__") by {
      assert s[0] != "__version__"[0];
    }
    SearchOneLine(s, DunderAssignment);
    PlainExampleMatch(s);
    QuotedAtIsTheMatch(s, 0, "version");
    SearchAtStart(s, PlainAssignment);
    assert s[11..14] == "0.9";
    StripLeftOfUnpadded("0.9");
    StripRightOfUnpadded("0.9");
  }

  lemma PlainExampleMatch(s: string)
    requires s == "version = '0.9'"
    ensures QuotedMatch(s, 0, "version", 8, 11, 14)
  {
    assert HasAt(s, 0, "version") by {
      assert s[0..7] == "version";
    }
    assert s[7] == ' ' && s[8] == '=' && s[9] == ' ' && s[10] == '\'' && s[14] == '\'';
    assert NoQuotes(s, 11, 14) by {
      assert s[11..14] == "0.9";
    }
  }

  // ----- detect_version_in_locations -----

  /** The version the loop of detect_version_in_locations returns: the first
      truthy detection in a candidate that exists, in order. */
  function FirstVersion(locs: seq<string>, files: map<string, string>, detector: string -> Option<string>)
    : Option<string>
  {
    if locs == [] then None
    else if locs[0] in files && TruthyStr(detector(files[locs[0]])) then detector(files[locs[0]])
    else FirstVersion(locs[1..], files, detector)
  }

  /** A candidate that exists and whose detection is not empty. */
  predicate Detects(loc: string, files: map<string, string>, detector: string -> Option<string>) {
    loc in files && TruthyStr(detector(files[loc]))
  }

  /** The first candidate that exists and yields a non-empty version wins;
      missing files, files without a match and empty matches are passed
      over; nothing is found exactly when no candidate yields a version. */
  lemma {:induction false} FirstVersionIsFirst(locs: seq<string>, files: map<string, string>,
                                               detector: string -> Option<string>)
    ensures FirstVersion(locs, files, detector).None? <==>
      forall i :: 0 <= i < |locs| ==> !Detects(locs[i], files, detector)
    ensures FirstVersion(locs, files, detector).Some? ==>
      exists i :: 0 <= i < |locs| && Detects(locs[i], files, detector)
                  && FirstVersion(locs, files, detector) == detector(files[locs[i]])
                  && forall j :: 0 <= j < i ==> !Detects(locs[j], files, detector)
  {
    if locs != [] {
      FirstVersionIsFirst(locs[1..], files, detector);
      assert forall i :: 1 <= i < |locs| ==> locs[i] == locs[1..][i - 1];
      if !Detects(locs[0], files, detector) && FirstVersion(locs, files, detector).Some? {
        var i :| 0 <= i < |locs[1..]| && Detects(locs[1..][i], files, detector)
                 && FirstVersion(locs[1..], files, detector) == detector(files[locs[1..][i]])
                 && forall j :: 0 <= j < i ==> !Detects(locs[1..][j], files, detector);
        assert Detects(locs[i + 1], files, detector);
      }
    }
  }

  /** detect_version_in_locations(candidate_locs, detector) */
  method DetectVersionInLocations(locs: seq<string>, files: map<string, string>,
                                  detector: string -> Option<string>)
    returns (version: Option<string>)
    ensures version == FirstVersion(locs, files, detector)
    ensures version.Some? ==> version.value != []
  {
    for i := 0 to |locs|
      invariant FirstVersion(locs[i..], files, detector) == FirstVersion(locs, files, detector)
    {
      assert locs[i..][1..] == locs[i + 1..];
      var loc := locs[i];
      if loc !in files {
        continue;
      }
      var v := detector(files[loc]);
      if TruthyStr(v) {
        return v;
      }
    }
    return None;
  }

  // ----- get_module_scripts -----

  /** os.path.join(a, b) on POSIX: an absolute b replaces the path, an empty
      path or one ending in "/" is extended as is, any other gets a "/". */
  function PathJoin(a: string, b: string): (r: string)
    ensures EndsWith(r, b)
  {
    if StartsWith(b, "/") then b
    else if a == [] || EndsWith(a, "/") then a + b
    else a + "/" + b
  }

  /** os.path.join(a, *segments) */
  function PathJoinAll(a: string, segments: seq<string>): (r: string)
    ensures segments != [] ==> EndsWith(r, segments[|segments| - 1])
  {
    if segments == [] then a
    else PathJoin(PathJoinAll(a, segments[..|segments| - 1]), segments[|segments| - 1])
  }

  /** One directory of the walk: its path and the names of its files. */
  datatype WalkEntry = WalkEntry(top: string, files: seq<string>)

  /** The paths of the interesting files of one directory, in order. */
  function MatchingFiles(top: string, files: seq<string>, names: seq<string>): seq<string> {
    if files == [] then []
    else
      var f := files[|files| - 1];
      MatchingFiles(top, files[..|files| - 1], names) + (if f in names then [PathJoin(top, f)] else [])
  }

  /** The paths of the interesting files of the given directories, in order. */
  function ScriptsIn(walk: seq<WalkEntry>, names: seq<string>): seq<string> {
    if walk == [] then []
    else ScriptsIn(walk[..|walk| - 1], names) + MatchingFiles(walk[|walk| - 1].top, walk[|walk| - 1].files, names)
  }

  /** How many directories of a walk of n are visited with a depth budget of
      maxDepth: the counter stops the walk when it reaches 0, which a negative
      budget never does. */
  function Visited(n: nat, maxDepth: int): (k: nat)
    ensures k <= n
    ensures 0 <= maxDepth ==> k <= maxDepth
  {
    if 0 <= maxDepth < n then maxDepth else n
  }

  /** get_module_scripts(location, max_depth, interesting_names) over the
      directories os.walk yields from location. */
  method GetModuleScripts(walk: seq<WalkEntry>, maxDepth: int, names: seq<string>) returns (paths: seq<string>)
    ensures paths == ScriptsIn(walk[..Visited(|walk|, maxDepth)], names)
  {
    paths := [];
    var currentDepth := maxDepth;
    var i := 0;
    while i < |walk|
      invariant 0 <= i <= Visited(|walk|, maxDepth)
      invariant currentDepth == maxDepth - i
      invariant paths == ScriptsIn(walk[..i], names)
    {
      if currentDepth == 0 {
        break;
      }
      var top, files := walk[i].top, walk[i].files;
      for j := 0 to |files|
        invariant paths == ScriptsIn(walk[..i], names) + MatchingFiles(top, files[..j], names)
      {
        assert files[..j + 1][..j] == files[..j];
        if files[j] in names {
          paths := paths + [PathJoin(top, files[j])];
        }
      }
      assert files[..|files|] == files;
      assert walk[..i + 1][..i] == walk[..i];
      currentDepth := currentDepth - 1;
      i := i + 1;
    }
  }

  /** A path is found in a directory exactly when it joins the directory
      with one of its file names that is interesting. */
  lemma {:induction false} MatchingFilesContent(top: string, files: seq<string>, names: seq<string>, x: string)
    ensures x in MatchingFiles(top, files, names) <==>
      exists f :: f in files && f in names && x == PathJoin(top, f)
  {
    if files != [] {
      var init := files[..|files| - 1];
      MatchingFilesContent(top, init, names, x);
      assert files == init + [files[|files| - 1]];
    }
  }

  /** The scripts of a walk are the interesting files of the visited
      directories, and only those. */
  lemma {:induction false} ScriptsInContent(walk: seq<WalkEntry>, names: seq<string>, x: string)
    ensures x in ScriptsIn(walk, names) <==>
      exists i, f :: 0 <= i < |walk| && f in walk[i].files && f in names && x == PathJoin(walk[i].top, f)
  {
    if walk != [] {
      var init := walk[..|walk| - 1];
      var last := walk[|walk| - 1];
      ScriptsInContent(init, names, x);
      MatchingFilesContent(last.top, last.files, names, x);
      assert forall i :: 0 <= i < |init| ==> init[i] == walk[i];
      if x in MatchingFiles(last.top, last.files, names) {
        var f :| f in last.files && f in names && x == PathJoin(last.top, f);
        assert 0 <= |walk| - 1 < |walk| && f in walk[|walk| - 1].files;
      }
    }
  }

  /** get_module_scripts yields files from the first max_depth directories
      the walk visits (all of them for a negative budget), whatever their
      depth in the tree. */
  lemma ModuleScriptsFromVisitedDirectories(walk: seq<WalkEntry>, maxDepth: int, names: seq<string>, x: string)
    ensures var visited := walk[..Visited(|walk|, maxDepth)];
      (0 <= maxDepth ==> |visited| <= maxDepth)
      && (x in ScriptsIn(visited, names) <==>
            exists i, f :: 0 <= i < |visited| && f in walk[i].files && f in names && x == PathJoin(walk[i].top, f))
  {
    var visited := walk[..Visited(|walk|, maxDepth)];
    ScriptsInContent(visited, names, x);
    assert forall i :: 0 <= i < |visited| ==> visited[i] == walk[i];
  }

  // ----- detect_version_attribute -----

  /** The conventional names of a module that declares a version. */
  const SpecialNames: seq<string> := [
    "__init__.py", "__main__.py", "__version__.py", "__about__.py", "__version.py",
    "_version.py", "version.py", "VERSION.py", "package_data.py"]

  /** The segments of a dotted setup version argument without its last one
      (`a.b.__version__` gives ["a", "b"]), or none. */
  function Segments(arg: Option<string>): (segments: seq<string>)
    ensures segments != [] <==> TruthyStr(arg) && '.' in arg.value
  {
    if TruthyStr(arg) && '.' in arg.value then
      var parts := Split(arg.value, '.');
      assert IndexOf(arg.value, '.') < |arg.value|;
      parts[..|parts| - 1]
    else []
  }

  /** The segments of the module file: the last segment becomes a ".py" file. */
  function ModuleFile(segments: seq<string>): seq<string>
    requires segments != []
  {
    segments[..|segments| - 1] + [segments[|segments| - 1] + ".py"]
  }

  /** The special-name candidates under the segments prefix, as path segments. */
  function SpecialSegments(prefix: seq<string>): (cs: seq<seq<string>>)
    ensures |cs| == |SpecialNames|
    ensures forall i :: 0 <= i < |SpecialNames| ==> cs[i] == prefix + [SpecialNames[i]]
  {
    seq(|SpecialNames|, i requires 0 <= i < |SpecialNames| => prefix + [SpecialNames[i]])
  }

  /** The candidates built before the walk, as path segments below the
      setup.py directory: the special names under the segments, then under
      src/ and the segments when src exists, then the module file, then the
      module file under src/. */
  function CandidateSegments(segments: seq<string>, hasSrc: bool): seq<seq<string>> {
    if segments == [] then []
    else
      SpecialSegments(segments)
      + (if hasSrc then SpecialSegments(["src"] + segments) else [])
      + [ModuleFile(segments)]
      + (if hasSrc then [["src"] + ModuleFile(segments)] else [])
  }

  /** The candidate locations built before the walk. */
  function CandidatePaths(setupDir: string, segments: seq<string>, hasSrc: bool): (locs: seq<string>)
    ensures var cs := CandidateSegments(segments, hasSrc);
      |locs| == |cs| && forall i :: 0 <= i < |cs| ==> locs[i] == PathJoinAll(setupDir, cs[i])
  {
    var cs := CandidateSegments(segments, hasSrc);
    seq(|cs|, i requires 0 <= i < |cs| => PathJoinAll(setupDir, cs[i]))
  }

  /** The candidate list of detect_version_attribute, built by appends. */
  method CandidateLocations(setupDir: string, segments: seq<string>, hasSrc: bool) returns (locs: seq<string>)
    ensures locs == CandidatePaths(setupDir, segments, hasSrc)
  {
    var candidates: seq<seq<string>> := [];
    if segments != [] {
      for i := 0 to |SpecialNames|
        invariant candidates == SpecialSegments(segments)[..i]
      {
        candidates := candidates + [segments + [SpecialNames[i]]];
      }
      var specials := candidates;
      if hasSrc {
        for i := 0 to |SpecialNames|
          invariant candidates == specials + SpecialSegments(["src"] + segments)[..i]
        {
          candidates := candidates + [["src"] + segments + [SpecialNames[i]]];
        }
      }
      var base := candidates;
      assert base == SpecialSegments(segments) + (if hasSrc then SpecialSegments(["src"] + segments) else []);
      if |segments| > 1 {
        var heads := segments[..|segments| - 1];
        var tail := segments[|segments| - 1];
        candidates := candidates + [heads + [tail + ".py"]];
        if hasSrc {
          assert ["src"] + heads + [tail + ".py"] == ["src"] + ModuleFile(segments);
          candidates := candidates + [["src"] + heads + [tail + ".py"]];
        }
      } else {
        var seg := segments[0];
        assert [seg + ".py"] == ModuleFile(segments);
        candidates := candidates + [[seg + ".py"]];
        if hasSrc {
          assert ["src", seg + ".py"] == ["src"] + ModuleFile(segments);
          candidates := candidates + [["src", seg + ".py"]];
        }
      }
      assert candidates == base + [ModuleFile(segments)] + (if hasSrc then [["src"] + ModuleFile(segments)] else []);
    }
    assert candidates == CandidateSegments(segments, hasSrc);
    locs := seq(|candidates|, i requires 0 <= i < |candidates| => PathJoinAll(setupDir, candidates[i]));
  }

  /** Every special name is a ".py" file name. */
  lemma SpecialNamesArePy()
    ensures forall i :: 0 <= i < |SpecialNames| ==> EndsWith(SpecialNames[i], ".py")
  {
    assert EndsWith(SpecialNames[0], ".py") && EndsWith(SpecialNames[1], ".py") && EndsWith(SpecialNames[2], ".py");
    assert EndsWith(SpecialNames[3], ".py") && EndsWith(SpecialNames[4], ".py") && EndsWith(SpecialNames[5], ".py");
    assert EndsWith(SpecialNames[6], ".py") && EndsWith(SpecialNames[7], ".py") && EndsWith(SpecialNames[8], ".py");
  }

  lemma EndsWithTrans(a: string, b: string, c: string)
    requires EndsWith(a, b) && EndsWith(b, c)
    ensures EndsWith(a, c)
  {
    assert a[|a| - |c|..] == b[|b| - |c|..];
  }

  /** The candidates before the walk are 10 entries (20 when src exists)
      for a dotted argument and none otherwise, laid out as special names,
      the same under src/, then the module file and the module file under
      src/; every one of them names a ".py" file. */
  lemma CandidatePathsLayout(setupDir: string, segments: seq<string>, hasSrc: bool)
    ensures var locs := CandidatePaths(setupDir, segments, hasSrc);
      (segments == [] ==> locs == [])
      && (segments != [] ==> |locs| == (if hasSrc then 20 else 10))
      && (segments != [] ==> forall i :: 0 <= i < 9 ==>
            locs[i] == PathJoinAll(setupDir, segments + [SpecialNames[i]])
            && (hasSrc ==> locs[9 + i] == PathJoinAll(setupDir, ["src"] + segments + [SpecialNames[i]])))
      && (segments != [] ==> locs[if hasSrc then 18 else 9] == PathJoinAll(setupDir, ModuleFile(segments)))
      && (segments != [] && hasSrc ==> locs[19] == PathJoinAll(setupDir, ["src"] + ModuleFile(segments)))
      && forall i :: 0 <= i < |locs| ==> EndsWith(locs[i], ".py")
  {
    var cs := CandidateSegments(segments, hasSrc);
    var locs := CandidatePaths(setupDir, segments, hasSrc);
    CandidateSegmentsLayout(segments, hasSrc);
    CandidateSegmentsArePy(segments, hasSrc);
    forall i | 0 <= i < |locs| ensures EndsWith(locs[i], ".py") {
      EndsWithTrans(locs[i], cs[i][|cs[i]| - 1], ".py");
    }
  }

  /** The candidate segments: the special names, the same under src/, the
      module file and the module file under src/. */
  lemma CandidateSegmentsLayout(segments: seq<string>, hasSrc: bool)
    ensures var cs := CandidateSegments(segments, hasSrc);
      (segments == [] ==> cs == [])
      && (segments != [] ==> |cs| == (if hasSrc then 20 else 10))
      && (segments != [] ==> forall i :: 0 <= i < 9 ==>
            cs[i] == segments + [SpecialNames[i]]
            && (hasSrc ==> cs[9 + i] == ["src"] + segments + [SpecialNames[i]]))
      && (segments != [] ==> cs[if hasSrc then 18 else 9] == ModuleFile(segments))
      && (segments != [] && hasSrc ==> cs[19] == ["src"] + ModuleFile(segments))
  {
    if segments != [] {
      var cs := CandidateSegments(segments, hasSrc);
      var specials := SpecialSegments(segments);
      if hasSrc {
        var srcSpecials := SpecialSegments(["src"] + segments);
        var m := ModuleFile(segments);
        assert cs == specials + srcSpecials + [m, ["src"] + m];
        forall i | 0 <= i < 9 ensures cs[9 + i] == ["src"] + segments + [SpecialNames[i]] {
          assert cs[9 + i] == srcSpecials[i];
        }
      } else {
        assert cs == specials + [ModuleFile(segments)];
      }
    }
  }

  /** Every candidate's last segment names a ".py" file. */
  lemma CandidateSegmentsArePy(segments: seq<string>, hasSrc: bool)
    ensures var cs := CandidateSegments(segments, hasSrc);
      forall i :: 0 <= i < |cs| ==> |cs[i]| > 0 && EndsWith(cs[i][|cs[i]| - 1], ".py")
  {
    var cs := CandidateSegments(segments, hasSrc);
    if segments != [] {
      var n := |SpecialNames|;
      var t := segments[|segments| - 1] + ".py";
      CandidateSegmentsLayout(segments, hasSrc);
      SpecialNamesArePy();
      forall i | 0 <= i < |cs| ensures |cs[i]| > 0 && EndsWith(cs[i][|cs[i]| - 1], ".py") {
        if i < n {
          assert cs[i][|cs[i]| - 1] == SpecialNames[i];
        } else if hasSrc && i < 2 * n {
          assert cs[i][|cs[i]| - 1] == SpecialNames[i - n];
        } else {
          assert cs[i][|cs[i]| - 1] == t;
        }
      }
    }
  }

  /** The depth budget detect_version_attribute gives get_module_scripts. */
  const MaxDepth: int := 4

  /** All candidate locations: those built from the setup version argument,
      then the interesting files of the walk. */
  function AllCandidates(setupContent: string, setupDir: string, hasSrc: bool, walk: seq<WalkEntry>)
    : seq<string>
  {
    CandidatePaths(setupDir, Segments(FindSetupPyDunderVersion(setupContent)), hasSrc)
    + ScriptsIn(walk[..Visited(|walk|, MaxDepth)], SpecialNames)
  }

  /** setup.py uses its own `__version__`: the version argument is exactly
      `__version__` and setup.py assigns a non-empty dunder version. */
  predicate SelfReferential(setupContent: string) {
    FindSetupPyDunderVersion(setupContent) == Some("__version__")
    && TruthyStr(FindDunderVersion(setupContent))
  }

  /** The version detect_version_attribute returns. */
  function DetectedVersion(setupContent: string, setupDir: string, hasSrc: bool,
                           files: map<string, string>, walk: seq<WalkEntry>): Option<string>
  {
    if SelfReferential(setupContent) then FindDunderVersion(setupContent)
    else
      var candidates := AllCandidates(setupContent, setupDir, hasSrc, walk);
      var dunder := FirstVersion(candidates, files, FindDunderVersion);
      if dunder.Some? then dunder else FirstVersion(candidates, files, FindPlainVersion)
  }

  /** detect_version_attribute(setup_location), given the content of
      setup.py, its directory, whether its src directory exists, the files
      that exist with their contents, and the walk of its directory. */
  method DetectVersionAttribute(setupContent: string, setupDir: string, hasSrc: bool,
                                files: map<string, string>, walk: seq<WalkEntry>)
    returns (version: Option<string>)
    ensures version == DetectedVersion(setupContent, setupDir, hasSrc, files, walk)
  {
    var setupVersionArg := FindSetupPyDunderVersion(setupContent);
    var setupPyVersion := FindDunderVersion(setupContent);
    if setupVersionArg == Some("__version__") && TruthyStr(setupPyVersion) {
      return setupPyVersion;
    }
    var segments := Segments(setupVersionArg);
    var candidates := CandidateLocations(setupDir, segments, hasSrc);
    var scripts := GetModuleScripts(walk, MaxDepth, SpecialNames);
    candidates := candidates + scripts;
    version := DetectVersionInLocations(candidates, files, FindDunderVersion);
    if version.Some? {
      return version;
    }
    version := DetectVersionInLocations(candidates, files, FindPlainVersion);
  }

  /** The detection order: a self-referential setup.py gives its own dunder
      version; otherwise the dunder detector is tried on every candidate
      before the plain detector on any, and within a detector the first
      candidate that exists and yields a non-empty value wins. */
  lemma DunderBeforePlain(setupContent: string, setupDir: string, hasSrc: bool,
                          files: map<string, string>, walk: seq<WalkEntry>)
    ensures var r := DetectedVersion(setupContent, setupDir, hasSrc, files, walk);
      var cs := AllCandidates(setupContent, setupDir, hasSrc, walk);
      (SelfReferential(setupContent) ==> r == FindDunderVersion(setupContent) && TruthyStr(r))
      && (!SelfReferential(setupContent) ==>
            (r.Some? ==> r.value != [])
            && ((exists i :: 0 <= i < |cs| && Detects(cs[i], files, FindDunderVersion)) ==>
                  exists i :: 0 <= i < |cs| && Detects(cs[i], files, FindDunderVersion)
                              && r == FindDunderVersion(files[cs[i]])
                              && forall j :: 0 <= j < i ==> !Detects(cs[j], files, FindDunderVersion))
            && ((forall i :: 0 <= i < |cs| ==> !Detects(cs[i], files, FindDunderVersion)) ==>
                  r == FirstVersion(cs, files, FindPlainVersion))
            && (r.None? <==>
                  forall i :: 0 <= i < |cs| ==>
                    !Detects(cs[i], files, FindDunderVersion) && !Detects(cs[i], files, FindPlainVersion)))
  {
    if !SelfReferential(setupContent) {
      var cs := AllCandidates(setupContent, setupDir, hasSrc, walk);
      var r := DetectedVersion(setupContent, setupDir, hasSrc, files, walk);
      var dunder := FirstVersion(cs, files, FindDunderVersion);
      assert r == if dunder.Some? then dunder else FirstVersion(cs, files, FindPlainVersion);
      FirstThenSecond(cs, files, FindDunderVersion, FindPlainVersion, r);
    }
  }

  /** Trying a first detector on every candidate and then a second one. */
  lemma FirstThenSecond(cs: seq<string>, files: map<string, string>,
                        first: string -> Option<string>, second: string -> Option<string>, r: Option<string>)
    requires var v := FirstVersion(cs, files, first); r == if v.Some? then v else FirstVersion(cs, files, second)
    ensures r.Some? ==> r.value != []
    ensures (exists i :: 0 <= i < |cs| && Detects(cs[i], files, first)) ==>
      exists i :: 0 <= i < |cs| && Detects(cs[i], files, first)
                  && r == first(files[cs[i]])
                  && forall j :: 0 <= j < i ==> !Detects(cs[j], files, first)
    ensures (forall i :: 0 <= i < |cs| ==> !Detects(cs[i], files, first)) ==> r == FirstVersion(cs, files, second)
    ensures r.None? <==>
      forall i :: 0 <= i < |cs| ==> !Detects(cs[i], files, first) && !Detects(cs[i], files, second)
  {
    FirstVersionIsFirst(cs, files, first);
    FirstVersionIsFirst(cs, files, second);
  }

  /** The number of candidates tried before the walk's files: 20 for a
      dotted version argument when src exists, 10 without src, 0 for an
      argument without a dot. */
  lemma CandidateCount(setupContent: string, setupDir: string, hasSrc: bool, walk: seq<WalkEntry>)
    ensures var arg := FindSetupPyDunderVersion(setupContent);
      |AllCandidates(setupContent, setupDir, hasSrc, walk)|
      == (if TruthyStr(arg) && '.' in arg.value then (if hasSrc then 20 else 10) else 0)
         + |ScriptsIn(walk[..Visited(|walk|, MaxDepth)], SpecialNames)|
  {
    CandidatePathsLayout(setupDir, Segments(FindSetupPyDunderVersion(setupContent)), hasSrc);
  }
}
