/** Classifiers, declared licence and keywords (get_classifiers,
    get_declared_license and get_keywords in src/_packagedcode/pypi.py).
 */
module Classifiers {
  import opened Basics
  import opened Attributes

  predicate IsLicenseClassifier(c: string) {
    StartsWith(c, "License")
  }

  /** The licence classifiers of cs, in their order. */
  function LicenseOnes(cs: seq<string>): seq<string> {
    if cs == [] then []
    else LicenseOnes(cs[..|cs| - 1]) + (if IsLicenseClassifier(cs[|cs| - 1]) then [cs[|cs| - 1]] else [])
  }

  /** The other classifiers of cs, in their order. */
  function OtherOnes(cs: seq<string>): seq<string> {
    if cs == [] then []
    else OtherOnes(cs[..|cs| - 1]) + (if IsLicenseClassifier(cs[|cs| - 1]) then [] else [cs[|cs| - 1]])
  }

  /** `get_attribute(m, "Classifier", True) or get_attribute(m, "Classifiers", True)`,
      as the sequence the loop iterates (a str iterates as its characters). */
  function ClassifierList(m: MetaInfo): seq<string> {
    var v := Or(GetAttribute(m, "Classifier", true), GetAttribute(m, "Classifiers", true));
    if Truthy(v) then Elements(v) else []
  }

  /** get_classifiers(metainfo) */
  method GetClassifiers(m: MetaInfo) returns (license: seq<string>, other: seq<string>)
    ensures license == LicenseOnes(ClassifierList(m))
    ensures other == OtherOnes(ClassifierList(m))
  {
    var v := Or(GetAttribute(m, "Classifier", true), GetAttribute(m, "Classifiers", true));
    if !Truthy(v) {
      return [], [];
    }
    var cs := Elements(v);
    license, other := [], [];
    for i := 0 to |cs|
      invariant license == LicenseOnes(cs[..i])
      invariant other == OtherOnes(cs[..i])
    {
      assert cs[..i + 1][..i] == cs[..i];
      if IsLicenseClassifier(cs[i]) {
        license := license + [cs[i]];
      } else {
        other := other + [cs[i]];
      }
    }
    assert cs[..|cs|] == cs;
  }

  /** The two lists partition the classifiers: every licence classifier goes to
      the first, every other one to the second, nothing is lost or added. */
  lemma ClassifierPartition(cs: seq<string>)
    ensures forall c :: c in LicenseOnes(cs) ==> IsLicenseClassifier(c) && c in cs
    ensures forall c :: c in OtherOnes(cs) ==> !IsLicenseClassifier(c) && c in cs
    ensures multiset(LicenseOnes(cs)) + multiset(OtherOnes(cs)) == multiset(cs)
  {
    LicenseOnesSound(cs);
    OtherOnesSound(cs);
    PartitionCount(cs);
  }

  lemma {:induction false} LicenseOnesSound(cs: seq<string>)
    ensures forall c :: c in LicenseOnes(cs) ==> IsLicenseClassifier(c) && c in cs
  {
    if cs != [] {
      var init, last := cs[..|cs| - 1], cs[|cs| - 1];
      LicenseOnesSound(init);
      assert LicenseOnes(cs) == LicenseOnes(init) + (if IsLicenseClassifier(last) then [last] else []);
      assert forall c :: c in init ==> c in cs;
    }
  }

  lemma {:induction false} OtherOnesSound(cs: seq<string>)
    ensures forall c :: c in OtherOnes(cs) ==> !IsLicenseClassifier(c) && c in cs
  {
    if cs != [] {
      var init, last := cs[..|cs| - 1], cs[|cs| - 1];
      OtherOnesSound(init);
      assert OtherOnes(cs) == OtherOnes(init) + (if IsLicenseClassifier(last) then [] else [last]);
      assert forall c :: c in init ==> c in cs;
    }
  }

  lemma {:induction false} PartitionCount(cs: seq<string>)
    ensures multiset(LicenseOnes(cs)) + multiset(OtherOnes(cs)) == multiset(cs)
  {
    if cs != [] {
      var init, last := cs[..|cs| - 1], cs[|cs| - 1];
      PartitionCount(init);
      assert cs == init + [last];
      assert multiset(cs) == multiset(init) + multiset{last};
    }
  }

  /** There is a licence classifier exactly when LicenseOnes is not empty. */
  lemma {:induction false} LicenseOnesEmpty(cs: seq<string>)
    ensures LicenseOnes(cs) == [] <==> forall i :: 0 <= i < |cs| ==> !IsLicenseClassifier(cs[i])
  {
    if cs != [] {
      var init := cs[..|cs| - 1];
      LicenseOnesEmpty(init);
      assert forall i :: 0 <= i < |init| ==> init[i] == cs[i];
    }
  }

  /** The declared-licence mapping: its "license" and "classifiers" keys. */
  datatype DeclaredLicense = DeclaredLicense(license: Option<Value>, classifiers: Option<seq<string>>)

  /** get_declared_license(metainfo) */
  function GetDeclaredLicense(m: MetaInfo): (r: DeclaredLicense)
    ensures var lic := GetAttribute(m, "License", false);
      (r.license.Some? <==> Truthy(lic) && lic != Str("UNKNOWN"))
      && (r.license.Some? ==> r.license.value == lic)
    ensures r.classifiers.Some? <==> exists i :: 0 <= i < |ClassifierList(m)| && IsLicenseClassifier(ClassifierList(m)[i])
    ensures r.classifiers.Some? ==>
      r.classifiers.value == LicenseOnes(ClassifierList(m))
      && forall c :: c in r.classifiers.value ==> IsLicenseClassifier(c) && c in ClassifierList(m)
  {
    var lic := GetAttribute(m, "License", false);
    var lcs := LicenseOnes(ClassifierList(m));
    LicenseOnesEmpty(ClassifierList(m));
    ClassifierPartition(ClassifierList(m));
    DeclaredLicense(
      if Truthy(lic) && lic != Str("UNKNOWN") then Some(lic) else None,
      if lcs != [] then Some(lcs) else None)
  }

  // ----- keywords -----

  /** The keyword field as a list: a str is split on commas, a list is taken as is. */
  function KeywordParts(v: Value): seq<string> {
    match v
    case Null => []
    case Str(s) => Split(s, ',')
    case List(xs) => xs
  }

  /** `[k.strip() for k in kws if k and k.strip()]` */
  function StrippedKeywords(parts: seq<string>): (r: seq<string>)
    ensures |r| <= |parts|
  {
    if parts == [] then []
    else
      var k := parts[|parts| - 1];
      StrippedKeywords(parts[..|parts| - 1]) + (if k != [] && Strip(k) != [] then [Strip(k)] else [])
  }

  /** Every kept keyword is non-empty and already stripped, and every
      non-blank part yields one. */
  lemma StrippedKeywordsClean(parts: seq<string>)
    ensures forall k :: k in StrippedKeywords(parts) ==> k != [] && Strip(k) == k
    ensures forall p :: p in parts && Strip(p) != [] ==> Strip(p) in StrippedKeywords(parts)
  {
    StrippedKeywordsStripped(parts);
    StrippedKeywordsComplete(parts);
  }

  lemma {:induction false} StrippedKeywordsStripped(parts: seq<string>)
    ensures forall k :: k in StrippedKeywords(parts) ==> k != [] && Strip(k) == k
  {
    if parts != [] {
      var init, last := parts[..|parts| - 1], parts[|parts| - 1];
      StrippedKeywordsStripped(init);
      StripIdempotent(last);
      assert StrippedKeywords(parts)
        == StrippedKeywords(init) + (if last != [] && Strip(last) != [] then [Strip(last)] else []);
    }
  }

  lemma {:induction false} StrippedKeywordsComplete(parts: seq<string>)
    ensures forall p :: p in parts && Strip(p) != [] ==> Strip(p) in StrippedKeywords(parts)
  {
    if parts != [] {
      var init, last := parts[..|parts| - 1], parts[|parts| - 1];
      StrippedKeywordsComplete(init);
      assert parts == init + [last];
      var r := StrippedKeywords(parts);
      assert r == StrippedKeywords(init) + (if last != [] && Strip(last) != [] then [Strip(last)] else []);
      forall p | p in parts && Strip(p) != [] ensures Strip(p) in r {
        if p != last {
          assert p in init;
        }
      }
    }
  }

  /** The keywords get_keywords returns. */
  function Keywords(m: MetaInfo): seq<string> {
    var kws := GetAttribute(m, "Keywords", false);
    (if Truthy(kws) then StrippedKeywords(KeywordParts(kws)) else []) + OtherOnes(ClassifierList(m))
  }

  /** get_keywords(metainfo): the stripped, non-blank keywords of the keyword
      field, followed by the classifiers that are not licence classifiers. */
  method GetKeywords(m: MetaInfo) returns (keywords: seq<string>)
    ensures keywords == Keywords(m)
  {
    keywords := [];
    var kws := Or(GetAttribute(m, "Keywords", false), List([]));
    if Truthy(kws) {
      keywords := keywords + StrippedKeywords(KeywordParts(kws));
    }
    var _, other := GetClassifiers(m);
    keywords := keywords + other;
  }

  /** What the keywords consist of: the keyword field's entries, stripped and
      non-blank, then the non-licence classifiers in order. */
  lemma KeywordsContent(m: MetaInfo)
    ensures var kws := GetAttribute(m, "Keywords", false);
      var own := if Truthy(kws) then StrippedKeywords(KeywordParts(kws)) else [];
      Keywords(m) == own + OtherOnes(ClassifierList(m))
      && (forall k :: k in own ==> k != [] && Strip(k) == k)
      && (forall k :: k in OtherOnes(ClassifierList(m)) ==> !IsLicenseClassifier(k))
  {
    var kws := GetAttribute(m, "Keywords", false);
    StrippedKeywordsClean(KeywordParts(kws));
    ClassifierPartition(ClassifierList(m));
  }

  /** Keywords are not de-duplicated: a keyword listed twice is kept twice. */
  lemma KeywordsKeepDuplicates(m: MetaInfo, k: string)
    requires k != [] && ',' !in k && Strip(k) == k
    requires m == MetaInfo(map["Keywords" := Str(k + "," + k)], None, None)
    ensures Keywords(m) == [k, k]
  {
    KeywordsOfKeywordField(m, Str(k + "," + k));
    SplitRepeated(k);
    assert StrippedKeywords([k, k]) == [k, k] by {
      assert [k, k][..1] == [k];
      assert StrippedKeywords([k]) == [k];
    }
  }

  /** With only a truthy keyword field, the keywords are those of the field. */
  lemma KeywordsOfKeywordField(m: MetaInfo, v: Value)
    requires Truthy(v)
    requires m == MetaInfo(map["Keywords" := v], None, None)
    ensures Keywords(m) == StrippedKeywords(KeywordParts(v))
  {
    assert ReplaceDash("Keywords") == "Keywords";
    ShapeInvariance("Keywords", v, false);
    OnlyKeywordsNoClassifiers(m, v);
  }

  lemma OnlyKeywordsNoClassifiers(m: MetaInfo, v: Value)
    requires m == MetaInfo(map["Keywords" := v], None, None)
    ensures ClassifierList(m) == []
  {
    assert ReplaceDash("Classifier") == "Classifier" && Lower("Classifier") == "classifier";
    assert ReplaceDash("Classifiers") == "Classifiers" && Lower("Classifiers") == "classifiers";
  }

  lemma SplitRepeated(k: string)
    requires ',' !in k
    ensures Split(k + "," + k, ',') == [k, k]
  {
    var s := k + "," + k;
    assert s[|k|] == ',';
    assert forall j :: 0 <= j < |k| ==> s[j] == k[j];
    assert IndexOf(s, ',') == |k|;
    assert s[..|k|] == k && s[|k| + 1..] == k;
    assert IndexOf(k, ',') == |k|;
  }
}
