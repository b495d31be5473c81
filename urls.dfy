/** Package URLs (get_pypi_urls and get_urls with its add_url in
    src/_packagedcode/pypi.py).

    get_urls starts from the computed PyPI URLs and fills four canonical
    slots (homepage_url, bug_tracking_url, code_view_url, vcs_url) from the
    homepage field, the "label, url" project URL entries and the download URL.
    A slot, once set, is never overwritten; a URL that finds its slot taken,
    or whose label names no slot, goes to extra_data under its label.
 */
module Urls {
  import opened Basics
  import opened Attributes

  /** A Python str-or-None as a Value. */
  function OptValue(o: Option<string>): Value {
    match o
    case None => Null
    case Some(s) => Str(s)
  }

  /** Python `a and b` for str-or-None operands. */
  function And(a: Option<string>, b: Value): Value {
    if TruthyStr(a) then b else OptValue(a)
  }

  /** get_pypi_urls(name, version) */
  function GetPypiUrls(name: Option<string>, version: Option<string>): (urls: map<string, Value>)
    ensures urls.Keys == {"repository_homepage_url", "repository_download_url", "api_data_url"}
  {
    if !TruthyStr(name) then
      map["repository_homepage_url" := OptValue(name), "repository_download_url" := OptValue(name),
          "api_data_url" := OptValue(name)]
    else
      var n := name.value;
      var api :=
        if TruthyStr(version) then Str("https://pypi.org/pypi/" + n + "/" + version.value + "/json")
        else Str("https://pypi.org/pypi/" + n + "/json");
      var download :=
        And(version, Str("https://pypi.org/packages/source/" + n[..1] + "/" + n + "/" + n + "-"
                         + version.GetOr("") + ".tar.gz"));
      map["repository_homepage_url" := Str("https://pypi.org/project/" + n),
          "repository_download_url" := download, "api_data_url" := api]
  }

  /** Each computed URL is set exactly when the values it is built from are
      set; otherwise it is the first unset one of them (None or ""). */
  lemma PypiUrlsPresence(name: Option<string>, version: Option<string>)
    ensures var urls := GetPypiUrls(name, version);
      (Truthy(urls["repository_homepage_url"]) <==> TruthyStr(name))
      && (Truthy(urls["api_data_url"]) <==> TruthyStr(name))
      && (Truthy(urls["repository_download_url"]) <==> TruthyStr(name) && TruthyStr(version))
      && (!TruthyStr(name) ==>
            urls["repository_homepage_url"] == OptValue(name)
            && urls["api_data_url"] == OptValue(name)
            && urls["repository_download_url"] == OptValue(name))
      && (TruthyStr(name) && !TruthyStr(version) ==> urls["repository_download_url"] == OptValue(version))
  {
  }

  // ----- add_url -----

  /** The two dicts get_urls fills: the URL slots and extra_data. */
  datatype UrlState = UrlState(urls: map<string, Value>, extra: map<string, Value>)

  /** add_url(url, utype, attribute) on st: a false url changes nothing; the
      attribute's slot takes the url when it is not taken; otherwise a
      non-empty utype files the url under extra_data. */
  function AddUrlStep(st: UrlState, url: Value, utype: Option<string>, attribute: Option<string>): UrlState {
    if !Truthy(url) then st
    else if TruthyStr(attribute) && attribute.value !in st.urls then st.(urls := st.urls[attribute.value := url])
    else if TruthyStr(utype) then st.(extra := st.extra[utype.value := url])
    else st
  }

  /** The urls and extra_data dicts that add_url updates in place. */
  class UrlCollector {
    var urls: map<string, Value>
    var extraData: map<string, Value>

    constructor(urls0: map<string, Value>, extra0: map<string, Value>)
      ensures urls == urls0 && extraData == extra0
    {
      urls := urls0;
      extraData := extra0;
    }

    function State(): UrlState
      reads this
    {
      UrlState(urls, extraData)
    }

    /** add_url(_url, _utype, _attribute) */
    method AddUrl(url: Value, utype: Option<string>, attribute: Option<string>)
      modifies this
      ensures State() == AddUrlStep(old(State()), url, utype, attribute)
    {
      if Truthy(url) {
        if TruthyStr(attribute) && attribute.value !in urls {
          urls := urls[attribute.value := url];
        } else if TruthyStr(utype) {
          extraData := extraData[utype.value := url];
        }
      }
    }
  }

  /** A URL already in a slot stays there, and a key of extra_data is only
      ever added or changed under the utype given. */
  lemma AddUrlKeepsSlots(st: UrlState, url: Value, utype: Option<string>, attribute: Option<string>)
    ensures var st' := AddUrlStep(st, url, utype, attribute);
      (forall k :: k in st.urls ==> k in st'.urls && st'.urls[k] == st.urls[k])
      && (forall k :: k in st'.urls && k !in st.urls ==> attribute == Some(k) && st'.urls[k] == url)
      && (forall k :: k in st.extra ==> k in st'.extra)
      && (forall k :: k in st'.extra && (k !in st.extra || st'.extra[k] != st.extra[k]) ==>
            utype == Some(k) && st'.extra[k] == url)
  {
  }

  // ----- project URL entries -----

  /** The lower-cased labels that name each slot. */
  const BugLabels: seq<string> := ["tracker", "bug reports", "github: issues", "bug tracker", "issues", "issue tracker"]
  const CodeLabels: seq<string> := ["source", "source code", "code"]
  const VcsLabels: seq<string> := ["github", "gitlab", "github: repo", "repository"]
  const HomeLabels: seq<string> := ["website", "homepage", "home"]

  /** The slot a lower-cased label names, if any: the elif chain of the
      project URL loop. */
  function RoleOf(utypel: string): (slot: Option<string>)
    ensures slot.Some? ==> utypel != [] && slot.value != []
  {
    if utypel in BugLabels then Some("bug_tracking_url")
    else if utypel in CodeLabels then Some("code_view_url")
    else if utypel in VcsLabels then Some("vcs_url")
    else if utypel in HomeLabels then Some("homepage_url")
    else None
  }

  /** The stripped label of a "label, url" entry: the text before its first comma. */
  function Label(entry: string): (l: string)
    ensures |l| <= |entry|
  {
    Strip(PartitionHead(entry, ','))
  }

  /** A project URL entry with its label and the slot the label names. */
  datatype Classified = Classified(entry: string, utype: string, role: Option<string>)

  /** An entry with a label or a slot is not empty (so add_url never drops it). */
  predicate WellClassified(c: Classified) {
    ((c.utype != [] || c.role.Some?) ==> c.entry != [])
    && (c.role.Some? ==> c.role.value != [])
  }

  /** How the loop classifies one entry: its stripped label, and the slot
      that label names when compared lower-cased. */
  function Classify(entry: string): (c: Classified)
    ensures c.entry == entry && c.utype == Label(entry) && c.role == RoleOf(Lower(c.utype))
    ensures WellClassified(c)
  {
    Classified(entry, Label(entry), RoleOf(Lower(Label(entry))))
  }

  function ClassifyAll(entries: seq<string>): (cs: seq<Classified>)
    ensures |cs| == |entries| && forall i :: 0 <= i < |entries| ==> cs[i] == Classify(entries[i])
  {
    seq(|entries|, i requires 0 <= i < |entries| => Classify(entries[i]))
  }

  /** One iteration of the project URL loop: the whole raw entry is added,
      under the slot its label names and with its label as utype. */
  function EntryStep(st: UrlState, c: Classified): UrlState {
    AddUrlStep(st, Str(c.entry), Some(c.utype), c.role)
  }

  /** The project URL loop over classified entries, from state st. */
  function AddEntries(st: UrlState, cs: seq<Classified>): UrlState {
    if cs == [] then st
    else EntryStep(AddEntries(st, cs[..|cs| - 1]), cs[|cs| - 1])
  }

  /** `Home-page or url or home` */
  function HomepageValue(m: MetaInfo): Value {
    Or(Or(GetAttribute(m, "Home-page", false), GetAttribute(m, "url", false)), GetAttribute(m, "home", false))
  }

  /** `get_attribute(.., "Project-URL", multiple=True) or get_attribute(.., "project_urls") or []`,
      as the entries the loop iterates. */
  function ProjectUrlEntries(m: MetaInfo): seq<string> {
    Elements(Or(Or(GetAttribute(m, "Project-URL", true), GetAttribute(m, "project_urls", false)), List([])))
  }

  /** The result of get_urls: the URL slots and the extra_data mapping when it
      is not empty. */
  datatype UrlsResult = UrlsResult(urls: map<string, Value>, extraData: Option<map<string, Value>>)

  /** The homepage step, the project URL loop and the download step of
      get_urls, from the computed URLs and the given extra_data. */
  function HomepageStep(st: UrlState, homepage: Value): UrlState {
    AddUrlStep(st, homepage, None, Some("homepage_url"))
  }

  function DownloadStep(st: UrlState, download: Value): UrlState {
    AddUrlStep(st, download, Some("Download-URL"), Some("vcs_url"))
  }

  function CollectUrls(urls0: map<string, Value>, extra0: map<string, Value>, homepage: Value,
                       cs: seq<Classified>, download: Value): UrlState
  {
    DownloadStep(AddEntries(HomepageStep(UrlState(urls0, extra0), homepage), cs), download)
  }

  function UrlsOf(st: UrlState): UrlsResult {
    UrlsResult(st.urls, if st.extra != map[] then Some(st.extra) else None)
  }

  /** get_urls(metainfo, name, version, extra_data) */
  method GetUrls(m: MetaInfo, name: Option<string>, version: Option<string>, extra0: map<string, Value>)
    returns (r: UrlsResult)
    ensures r == UrlsOf(CollectUrls(GetPypiUrls(name, version), extra0, HomepageValue(m),
                                    ClassifyAll(ProjectUrlEntries(m)), GetAttribute(m, "Download-URL", false)))
    ensures r.extraData.Some? ==> r.extraData.value != map[]
  {
    var c := new UrlCollector(GetPypiUrls(name, version), extra0);
    var homepage := HomepageValue(m);
    c.AddUrl(homepage, None, Some("homepage_url"));
    AddProjectUrls(c, ProjectUrlEntries(m));
    var download := GetAttribute(m, "Download-URL", false);
    c.AddUrl(download, Some("Download-URL"), Some("vcs_url"));
    if c.extraData != map[] {
      r := UrlsResult(c.urls, Some(c.extraData));
    } else {
      r := UrlsResult(c.urls, None);
    }
  }

  /** The loop of get_urls over the project URL entries. */
  method AddProjectUrls(c: UrlCollector, entries: seq<string>)
    modifies c
    ensures c.State() == AddEntries(old(c.State()), ClassifyAll(entries))
  {
    ghost var st1 := c.State();
    ghost var cs := ClassifyAll(entries);
    for i := 0 to |entries|
      invariant c.State() == AddEntries(st1, cs[..i])
    {
      assert cs[..i + 1][..i] == cs[..i];
      var url := entries[i];
      var utype := Strip(PartitionHead(url, ','));
      var utypel := Lower(utype);
      assert cs[i] == Classified(url, utype, RoleOf(utypel));
      c.AddUrl(Str(url), Some(utype), RoleOf(utypel));
    }
    assert cs[..|entries|] == cs;
  }

  // ----- properties of the URL slots -----

  /** Slots set before the project URL loop keep their values through it. */
  lemma {:induction false} AddEntriesKeepsSlots(st: UrlState, cs: seq<Classified>)
    ensures var st' := AddEntries(st, cs);
      forall k :: k in st.urls ==> k in st'.urls && st'.urls[k] == st.urls[k]
  {
    if cs != [] {
      var init := cs[..|cs| - 1];
      var last := cs[|cs| - 1];
      AddEntriesKeepsSlots(st, init);
      AddUrlKeepsSlots(AddEntries(st, init), Str(last.entry), Some(last.utype), last.role);
    }
  }

  /** The computed PyPI URLs are never replaced, and a truthy homepage field
      is the homepage, whatever the project URLs and the download URL say. */
  lemma HomepageFieldWins(urls0: map<string, Value>, extra0: map<string, Value>,
                          homepage: Value, cs: seq<Classified>, download: Value)
    requires "homepage_url" !in urls0
    ensures var r := CollectUrls(urls0, extra0, homepage, cs, download);
      (forall k :: k in urls0 ==> k in r.urls && r.urls[k] == urls0[k])
      && (Truthy(homepage) ==> "homepage_url" in r.urls && r.urls["homepage_url"] == homepage)
  {
    var st0 := UrlState(urls0, extra0);
    var st1 := HomepageStep(st0, homepage);
    var st2 := AddEntries(st1, cs);
    AddUrlKeepsSlots(st0, homepage, None, Some("homepage_url"));
    AddEntriesKeepsSlots(st1, cs);
    AddUrlKeepsSlots(st2, download, Some("Download-URL"), Some("vcs_url"));
  }

  /** None of the four slots is among the computed PyPI URLs. */
  lemma PypiUrlsLeaveSlotsFree(name: Option<string>, version: Option<string>)
    ensures var urls0 := GetPypiUrls(name, version);
      "homepage_url" !in urls0 && "bug_tracking_url" !in urls0
      && "code_view_url" !in urls0 && "vcs_url" !in urls0
  {
    var urls0 := GetPypiUrls(name, version);
    assert urls0.Keys == {"repository_homepage_url", "repository_download_url", "api_data_url"};
    assert "homepage_url"[0] != "repository_homepage_url"[0] && "homepage_url"[0] != "api_data_url"[0];
    assert "bug_tracking_url"[0] != "repository_homepage_url"[0] && "bug_tracking_url"[0] != "api_data_url"[0];
    assert "code_view_url"[0] != "repository_homepage_url"[0] && "code_view_url"[0] != "api_data_url"[0];
    assert "vcs_url"[0] != "repository_homepage_url"[0] && "vcs_url"[0] != "api_data_url"[0];
  }

  /** The download URL fills vcs_url only when no project URL did; otherwise
      it is kept in extra_data under "Download-URL". */
  lemma DownloadUrlRule(before: UrlState, download: Value)
    ensures var r := DownloadStep(before, download);
      (Truthy(download) && "vcs_url" !in before.urls ==>
         r.urls == before.urls["vcs_url" := download] && r.extra == before.extra)
      && (Truthy(download) && "vcs_url" in before.urls ==>
            r.urls == before.urls && r.extra == before.extra["Download-URL" := download])
      && (!Truthy(download) ==> r == before)
  {
  }

  /** An entry whose label is empty (after stripping) changes nothing. */
  lemma EmptyLabelDropped(st: UrlState, entry: string)
    requires Label(entry) == []
    ensures EntryStep(st, Classify(entry)) == st
  {
    var c := Classify(entry);
    assert Lower(c.utype) == [];
    assert c.role.None?;
  }

  /** An entry with a label whose slot is unknown or taken is filed in
      extra_data under that label. */
  lemma EntryToExtra(st: UrlState, c: Classified)
    requires c.utype != [] && WellClassified(c)
    requires c.role.None? || c.role.value in st.urls
    ensures EntryStep(st, c) == st.(extra := st.extra[c.utype := Str(c.entry)])
  {
  }

  /** An entry leaves the extra_data value of every other label alone. */
  lemma EntryKeepsOtherExtra(st: UrlState, c: Classified, utype: string)
    requires c.utype != utype
    ensures var st' := EntryStep(st, c);
      (utype in st'.extra <==> utype in st.extra) && (utype in st.extra ==> st'.extra[utype] == st.extra[utype])
  {
  }

  /** The last entry with a label goes to extra_data, and stays there, when
      its label names no slot or names one already taken at its own turn
      (by the fields before the loop or by an earlier entry). */
  lemma {:induction false} LastEntryWinsInExtra(st: UrlState, cs: seq<Classified>, utype: string, i: nat)
    requires utype != []
    requires forall j :: 0 <= j < |cs| ==> WellClassified(cs[j])
    requires i < |cs| && cs[i].utype == utype
    requires cs[i].role.None? || cs[i].role.value in AddEntries(st, cs[..i]).urls
    requires forall j :: i < j < |cs| ==> cs[j].utype != utype
    ensures var st' := AddEntries(st, cs);
      utype in st'.extra && st'.extra[utype] == Str(cs[i].entry)
  {
    var init := cs[..|cs| - 1];
    var last := cs[|cs| - 1];
    var mid := AddEntries(st, init);
    assert AddEntries(st, cs) == EntryStep(mid, last);
    assert forall j :: 0 <= j < |init| ==> init[j] == cs[j];
    if i == |cs| - 1 {
      assert init == cs[..i];
      assert WellClassified(last);
      EntryToExtra(mid, last);
    } else {
      assert init[..i] == cs[..i];
      LastEntryWinsInExtra(st, init, utype, i);
      EntryKeepsOtherExtra(mid, last, utype);
    }
  }

  /** Once an entry naming a slot has been added, that slot is taken. */
  lemma {:induction false} SlotTakenAfterEntry(st: UrlState, cs: seq<Classified>, j: nat, n: nat)
    requires j < n <= |cs| && cs[j].role.Some? && WellClassified(cs[j])
    ensures cs[j].role.value in AddEntries(st, cs[..n]).urls
  {
    var prefix := cs[..n];
    var mid := AddEntries(st, prefix[..n - 1]);
    assert prefix[..n - 1] == cs[..n - 1];
    assert AddEntries(st, prefix) == EntryStep(mid, prefix[n - 1]);
    if n == j + 1 {
      assert prefix[n - 1] == cs[j];
    } else {
      SlotTakenAfterEntry(st, cs, j, n - 1);
      AddUrlKeepsSlots(mid, Str(prefix[n - 1].entry), Some(prefix[n - 1].utype), prefix[n - 1].role);
    }
  }

  /** Two entries with the same slot label: the first fills the slot when it
      is free, and the second, finding it taken, is the one in extra_data. */
  lemma SameLabelTwice(st: UrlState, a: string, b: string, slot: string)
    requires Label(a) == Label(b) && RoleOf(Lower(Label(a))) == Some(slot)
    requires slot !in st.urls
    ensures var st' := AddEntries(st, ClassifyAll([a, b]));
      slot in st'.urls && st'.urls[slot] == Str(a)
      && Label(b) in st'.extra && st'.extra[Label(b)] == Str(b)
  {
    var cs := ClassifyAll([a, b]);
    FirstEntryFillsSlot(st, cs, slot, 0);
    SlotTakenAfterEntry(st, cs, 0, 1);
    LastEntryWinsInExtra(st, cs, Label(b), 1);
  }

  /** A label of no entry keeps its extra_data value through the loop. */
  lemma {:induction false} AbsentLabelKeepsExtra(st: UrlState, cs: seq<Classified>, utype: string)
    requires forall j :: 0 <= j < |cs| ==> cs[j].utype != utype
    ensures var st' := AddEntries(st, cs);
      (utype in st'.extra <==> utype in st.extra) && (utype in st.extra ==> st'.extra[utype] == st.extra[utype])
  {
    if cs != [] {
      var init := cs[..|cs| - 1];
      assert forall j :: 0 <= j < |init| ==> init[j] == cs[j];
      AbsentLabelKeepsExtra(st, init, utype);
      EntryKeepsOtherExtra(AddEntries(st, init), cs[|cs| - 1], utype);
    }
  }

  /** The same for the entries of a metadata object: the last project URL
      with a label is the one in extra_data when that label names no slot, or
      names one taken by the time its entry is reached. */
  lemma ProjectUrlLastWins(st: UrlState, entries: seq<string>, utype: string, i: nat)
    requires utype != []
    requires i < |entries| && Label(entries[i]) == utype
    requires RoleOf(Lower(utype)).None?
             || RoleOf(Lower(utype)).value in AddEntries(st, ClassifyAll(entries[..i])).urls
    requires forall j :: i < j < |entries| ==> Label(entries[j]) != utype
    ensures var st' := AddEntries(st, ClassifyAll(entries));
      utype in st'.extra && st'.extra[utype] == Str(entries[i])
  {
    var cs := ClassifyAll(entries);
    assert ClassifyAll(entries[..i]) == cs[..i];
    LastEntryWinsInExtra(st, cs, utype, i);
  }

  /** The first entry naming a slot that is still free before the loop is
      the one that fills it. */
  lemma {:induction false} FirstEntryFillsSlot(st: UrlState, cs: seq<Classified>, slot: string, i: nat)
    requires slot !in st.urls
    requires forall j :: 0 <= j < |cs| ==> WellClassified(cs[j])
    requires i < |cs| && cs[i].role == Some(slot)
    requires forall j :: 0 <= j < i ==> cs[j].role != Some(slot)
    ensures var st' := AddEntries(st, cs);
      slot in st'.urls && st'.urls[slot] == Str(cs[i].entry)
  {
    var init := cs[..|cs| - 1];
    var last := cs[|cs| - 1];
    var mid := AddEntries(st, init);
    assert forall j :: 0 <= j < |init| ==> init[j] == cs[j];
    if i < |cs| - 1 {
      FirstEntryFillsSlot(st, init, slot, i);
      AddUrlKeepsSlots(mid, Str(last.entry), Some(last.utype), last.role);
    } else {
      NoEntryNoSlot(st, init, slot);
      assert AddEntries(st, cs) == EntryStep(mid, last);
      assert WellClassified(last);
    }
  }

  /** A slot no entry names stays free. */
  lemma {:induction false} NoEntryNoSlot(st: UrlState, cs: seq<Classified>, slot: string)
    requires slot !in st.urls
    requires forall j :: 0 <= j < |cs| ==> cs[j].role != Some(slot)
    ensures slot !in AddEntries(st, cs).urls
  {
    if cs != [] {
      var init := cs[..|cs| - 1];
      NoEntryNoSlot(st, init, slot);
      var last := cs[|cs| - 1];
      AddUrlKeepsSlots(AddEntries(st, init), Str(last.entry), Some(last.utype), last.role);
    }
  }

  /** extra_data is reported exactly when it is not empty. */
  lemma ExtraDataOnlyWhenNonEmpty(st: UrlState)
    ensures UrlsOf(st).extraData.Some? <==> st.extra != map[]
    ensures UrlsOf(st).extraData.Some? ==> UrlsOf(st).extraData.value == st.extra
    ensures UrlsOf(st).urls == st.urls
  {
  }
}
