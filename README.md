# PyPI metadata normalisation, modelled in Dafny

This project models the metadata-normalisation core of `src/_packagedcode/pypi.py`
(python-inspector). That code reads package descriptors (PKG-INFO and METADATA files,
setup.py, setup.cfg, requirements files, Pipfile and conda manifests) and turns them
into one package record. The model covers these parts:

- **Attribute lookup** (`Attributes`): `get_attribute` over a metadata object. The object
  is given by its named attributes and its optional `get` and `get_all` accessors.
- **Descriptions** (`Descriptions`): `clean_description`, which removes the 8-space padding.
  Python's `splitlines` and `"\n".join` are written out.
- **Classifiers, licence, keywords** (`Classifiers`): `get_classifiers`,
  `get_declared_license` and `get_keywords`.
- **Parties** (`Parties`): `get_parties`, and the author rule of `SetupCfgHandler.parse`
  taken over the parsed `[metadata]` section.
- **Dependencies** (`Requirements`): `get_requires_dependencies`, `is_simple_requires`,
  `get_extra`, `get_setup_py_dependencies`, `get_dparse2_supported_file_name`, and the
  per-record loops of `parse_with_dparse2` and `get_requirements_txt_dependencies`.
  PEP 508 environment markers are sequences of items: a clause, a connective or a group.
  The `==` and `===` operators are PEP 440 "Version matching" and "Arbitrary equality".
  `canonicalize_name` is the PEP 503 "Normalized Names" rule.
- **setup.py arguments** (`SetupPy`): `get_setup_py_args` over a small syntax tree.
- **URLs** (`Urls`): `get_pypi_urls`, and `get_urls` with its in-place `add_url`. The
  `urls` and `extra_data` dicts are the fields of a `UrlCollector` object.
- **Version recovery** (`Versions`): the three regular-expression detectors, written as
  matchers; `detect_version_attribute`; `detect_version_in_locations`; and
  `get_module_scripts`.
- **Wheel padding** (`Base64Padding`): the `=` padding that `urlsafe_b64decode` adds.

`Basics` gives Python's values (None, str, list of str), truthiness, and the str methods
the code uses.

Behaviour of the code that is easy to misread:

- `clean_description` is not idempotent. A second line with 16 leading spaces loses 8
  of them on each call (`Descriptions.CleanDescriptionNotIdempotent`).
- Keywords are not de-duplicated (`Classifiers.KeywordsKeepDuplicates`).
- `get_attribute` tries `get_all` before `get`. So a multiple read of a field held
  once as the string `x` gives `x` from a dict or a named attribute, but the list
  `[x]` from an email message (`Attributes.ShapeInvariance`).
- A requirement string that `Requirement(...)` rejects is not skipped. The exception
  propagates, so the whole of `get_requires_dependencies` fails (`Result.Err`).
- `extracted_requirement` from `get_requires_dependencies` is None when there are no
  specifiers, not the raw requirement text.
- `get_urls` stores the whole raw `"label, url"` entry, not just the URL after the comma.
- `get_module_scripts` counts the directories it visits, not their depth in the tree,
  although its docstring speaks of a depth.
- `"latest.txt"` ends with `"test.txt"`, so that file's requirements get the
  development scope.

## Model

| member | source | states |
|---|---|---|
| `Attributes.GetAttribute` | src/_packagedcode/pypi.py:538-573 | With `multiple`, the result is a truthy value or `[]`, never None. Without it, a falsy result becomes None. |
| `Attributes.GetAttributeOrder` | src/_packagedcode/pypi.py:555-573 | The result is the first truthy value among: the attribute with `-` replaced by `_`, that attribute lower-cased, `get_all` with the name and then lower-cased (only with `multiple`), and `get` with the name and then lower-cased. Otherwise it is `[]` or None. |
| `Attributes.GetAttributeIsFirstTruthyCandidate` | src/_packagedcode/pypi.py:555-573 | The result is one of the lookups, every earlier lookup is falsy, or all lookups are falsy and the default is returned. |
| `Attributes.ShapeInvariance` | src/_packagedcode/pypi.py:538-573 | A field exposed as a named attribute or through a dict's `get` gives its value, multiple or not. A message holding it once as `x` (`get` answers `x`, `get_all` answers `[x]`) agrees on a single read but gives `[x]` on a multiple read. |
| `Attributes.MessageReadsAllHeaders` | src/_packagedcode/pypi.py:538-573 | A multiple read of a message gives every value of a repeated header; a single read gives the first. |
| `Attributes.DashRewriteOnlyForAttributes` | src/_packagedcode/pypi.py:555-563 | `-` is rewritten to `_` for attribute lookup only. A dict key `Home_page` does not answer `Home-page`. |
| `Descriptions.EmptyDescription` | src/_packagedcode/pypi.py:604-605 | None or an empty description gives `""`. |
| `Descriptions.CleanDescriptionLines` | src/_packagedcode/pypi.py:604-617 | Without padding on the first two lines, the result is the stripped text. Otherwise it has the same number of lines, and each line loses its first 8 characters exactly when it starts with 8 spaces. |
| `Descriptions.CleaningDecidedBySecondLine` | src/_packagedcode/pypi.py:604-613 | After stripping, cleaning happens exactly when the second line starts with 8 spaces. |
| `Descriptions.CleanDescriptionNotIdempotent` | src/_packagedcode/pypi.py:604-617 | Cleaning twice differs from cleaning once on `"a\n" + 16 spaces + text`. |
| `Descriptions.SplitJoin` | src/_packagedcode/pypi.py:606-617 | Splitting the `"\n"`-joined lines gives the lines back when none contains a line break and the last is not empty. |
| `Classifiers.GetClassifiers` | src/_packagedcode/pypi.py:648-667 | The licence and other classifiers of `Classifier`, falling back to `Classifiers`, each list in input order. |
| `Classifiers.ClassifierPartition` | src/_packagedcode/pypi.py:660-667 | The two lists partition the classifiers by the prefix `License`: nothing is lost or added. |
| `Classifiers.LicenseOnesEmpty` | src/_packagedcode/pypi.py:660-667 | There are no licence classifiers exactly when no classifier starts with `License`. |
| `Classifiers.GetDeclaredLicense` | src/_packagedcode/pypi.py:630-645 | `license` is present exactly when the licence is truthy and not `UNKNOWN`. `classifiers` is present exactly when some classifier is a licence classifier, and then holds them in order. |
| `Classifiers.StrippedKeywordsClean` | src/_packagedcode/pypi.py:682 | Every kept keyword is stripped and non-empty, and every non-blank part gives one. |
| `Classifiers.GetKeywords` | src/_packagedcode/pypi.py:670-689 | The keywords are the stripped parts of the keyword field, then the non-licence classifiers. |
| `Classifiers.KeywordsContent` | src/_packagedcode/pypi.py:670-689 | The keyword field's part comes first and is stripped and non-blank; the classifier part holds no licence classifier. |
| `Classifiers.KeywordsKeepDuplicates` | src/_packagedcode/pypi.py:675-689 | `"k,k"` gives `[k, k]`: keywords are not de-duplicated. |
| `Parties.GetParties` | src/_packagedcode/pypi.py:692-722 | At most 2 parties, author before maintainer. A party is emitted exactly when its name or email is truthy. A falsy name or email is stored as None. Every party is a person. |
| `Parties.CfgParties` | src/_packagedcode/pypi.py:361-377 | setup.cfg gives one author party exactly when `author` is set and non-empty, and never a maintainer. Its email is `author_email` when that option is set and non-empty, None otherwise (empty options are skipped when the section is read). |
| `Parties.EmailAloneDiffers` | src/_packagedcode/pypi.py:367-377 | An email without an author gives a party in `get_parties` but none from setup.cfg. |
| `Requirements.CanonicalizeIsCanonical` | src/_packagedcode/pypi.py:782 | A normalised name has no `_` or `.`, no repeated `-`, and no upper-case letter. |
| `Requirements.CanonicalizeIdempotent` | src/_packagedcode/pypi.py:782 | Normalising a name twice is normalising it once. |
| `Requirements.PinnedVersion` | src/_packagedcode/pypi.py:794-801 | A version is pinned exactly when there is one specifier and its operator is `==` or `===`. The pinned version is that specifier's version. |
| `Requirements.ExtraInFirstClause` | src/_packagedcode/pypi.py:822-845 | The extra is the value of the first top-level clause `extra == value`. Reversed operands, other operators, connectives and groups never give one. |
| `Requirements.ScopeOf` | src/_packagedcode/pypi.py:806 | The scope is a non-empty extra, otherwise the default scope. |
| `Requirements.GetRequiresDependencies` | src/_packagedcode/pypi.py:771-819 | A value that is not a non-empty list gives no dependencies. Otherwise there is one dependency per string, in order, or the error of a string that does not parse. |
| `Requirements.RequiresDependenciesShape` | src/_packagedcode/pypi.py:780-817 | Success happens exactly when every string parses. The i-th dependency is built from the i-th string. An error names a string that does not parse. |
| `Requirements.RequirementDependencyPinning` | src/_packagedcode/pypi.py:781-817 | Resolved exactly when pinned, and the purl carries a version exactly then. `extracted_requirement` is None exactly when there are no specifiers. Always runtime and not optional. The scope is the extra or the default. |
| `Requirements.GetSetupPyDependencies` | src/_packagedcode/pypi.py:725-750 | Install, then tests, then setup dependencies, with those default scopes. The first error wins. A present `extras_require` fails. |
| `Requirements.ParseWithDparse2` | src/_packagedcode/pypi.py:881-918 | One dependent package per parsed record, in order. |
| `Requirements.Dparse2Pinning` | src/_packagedcode/pypi.py:882-918 | The name is kept as written and the scope is always `install`. `extracted_requirement` defaults to the name. The pinning rule is the same as above. |
| `Requirements.SupportedFileName` | src/_packagedcode/pypi.py:852-863 | A file name is returned exactly when it ends with one of the listed names. |
| `Requirements.GetDparse2SupportedFileName` | src/_packagedcode/pypi.py:848-863 | Supported exactly when the name ends with `Pipfile.lock`, `Pipfile`, `conda.yml` or `setup.cfg`. |
| `Requirements.GetRequirementsTxtDependencies` | src/_packagedcode/pypi.py:491-533 | One dependent package per parsed requirement line, in order. |
| `Requirements.RequirementsFileScope` | src/_packagedcode/pypi.py:493-531 | Files ending in `dev.txt`, `test.txt` or `tests.txt` give development, not runtime, optional. All others give install, runtime, not optional. There is a purl exactly when the line has a name. |
| `Requirements.DevelopmentFileExamples` | src/_packagedcode/pypi.py:509-515 | `latest.txt` and `requirements-dev.txt` are development files; `requirements.txt` is not. |
| `SetupPy.EltStrings` | src/_packagedcode/pypi.py:962 | The element list fails exactly when an element has no string. Calls are skipped. |
| `SetupPy.EltStringsContent` | src/_packagedcode/pypi.py:962 | The strings kept are exactly the string elements. |
| `SetupPy.AddKeywords` | src/_packagedcode/pypi.py:945-965 | The keyword loop adds string and display arguments in order, as `KeywordsFrom` defines. |
| `SetupPy.GetSetupPyArgs` | src/_packagedcode/pypi.py:923-969 | The statement loop reads only `setup`/`main` calls that are expression or assignment statements. |
| `SetupPy.StatementsAreKeywords` | src/_packagedcode/pypi.py:933-965 | Reading the statements is reading the keyword arguments of the setup calls one after the other. |
| `SetupPy.KeywordsFromFails` | src/_packagedcode/pypi.py:945-965 | Extraction fails exactly when a display holds an element with no string. |
| `SetupPy.KeywordsFromKeys` | src/_packagedcode/pypi.py:945-965 | The names found are exactly the names of literal keyword arguments. Other names keep their values. |
| `SetupPy.KeywordsFromLastWins` | src/_packagedcode/pypi.py:945-965 | Each name holds the value of its last literal keyword argument. |
| `SetupPy.ArgsAreStrOrList` | src/_packagedcode/pypi.py:945-967 | Every extracted value is a str or a list of str. |
| `Urls.GetPypiUrls` | src/_packagedcode/pypi.py:972-994 | Exactly the three computed URL keys. |
| `Urls.PypiUrlsPresence` | src/_packagedcode/pypi.py:976-988 | Each computed URL is set exactly when name (and version, for the download URL) are truthy. Otherwise it is the falsy operand. |
| `Urls.UrlCollector.AddUrl` | src/_packagedcode/pypi.py:1040-1049 | `add_url` updates the two dicts in place as `AddUrlStep` says. |
| `Urls.AddUrlKeepsSlots` | src/_packagedcode/pypi.py:1045-1049 | A filled slot is never overwritten. Only the given slot or utype changes. |
| `Urls.RoleOf` | src/_packagedcode/pypi.py:1064-1096 | Only a non-empty label names a slot, and every slot name is non-empty. |
| `Urls.Classify` | src/_packagedcode/pypi.py:1060-1064 | An entry's label is its stripped text before the first comma. Its role is looked up lower-cased. The whole entry is kept. |
| `Urls.AddProjectUrls` | src/_packagedcode/pypi.py:1058-1096 | The project-URL loop adds each raw entry under its label's slot and its label. |
| `Urls.GetUrls` | src/_packagedcode/pypi.py:997-1107 | Homepage, then project URLs, then the download URL, from the PyPI URLs. `extra_data` is attached only when it is non-empty. |
| `Urls.AddEntriesKeepsSlots` | src/_packagedcode/pypi.py:1058-1096 | Slots filled before the loop keep their values. |
| `Urls.HomepageFieldWins` | src/_packagedcode/pypi.py:1051-1106 | The PyPI URLs are never replaced, and a truthy homepage field is the homepage. |
| `Urls.PypiUrlsLeaveSlotsFree` | src/_packagedcode/pypi.py:990-994 | None of the four canonical slots is among the computed URLs. |
| `Urls.DownloadUrlRule` | src/_packagedcode/pypi.py:1098-1101 | `Download-URL` fills `vcs_url` only when it is unset. Otherwise it goes to `extra_data["Download-URL"]`. |
| `Urls.EmptyLabelDropped` | src/_packagedcode/pypi.py:1094-1096 | An entry with an empty label and no role changes nothing. |
| `Urls.EntryToExtra` | src/_packagedcode/pypi.py:1045-1049 | An entry whose role is unknown or taken goes to `extra_data` under its label. |
| `Urls.EntryKeepsOtherExtra` | src/_packagedcode/pypi.py:1045-1049 | An entry leaves every other label's `extra_data` value alone. |
| `Urls.LastEntryWinsInExtra` | src/_packagedcode/pypi.py:1058-1096 | The last entry with a label is the one in `extra_data` when its label names no slot, or names one already taken when that entry is reached (by a field before the loop or by an earlier entry). |
| `Urls.SlotTakenAfterEntry` | src/_packagedcode/pypi.py:1045-1049 | Once an entry naming a slot has been added, that slot is taken. |
| `Urls.SameLabelTwice` | src/_packagedcode/pypi.py:1058-1096 | Two entries with the same slot label (two `Source` entries, say): the first fills the free slot, the second goes to `extra_data` under the label. |
| `Urls.AbsentLabelKeepsExtra` | src/_packagedcode/pypi.py:1058-1096 | A label no entry has keeps its `extra_data` value. |
| `Urls.ProjectUrlLastWins` | src/_packagedcode/pypi.py:1058-1096 | The same rule over the raw entries: the last entry with a label is in `extra_data` when the label names no slot or one taken by the time that entry is reached. |
| `Urls.FirstEntryFillsSlot` | src/_packagedcode/pypi.py:1058-1096 | The first entry naming a free slot fills it. |
| `Urls.NoEntryNoSlot` | src/_packagedcode/pypi.py:1058-1096 | A slot that no entry names stays free. |
| `Urls.ExtraDataOnlyWhenNonEmpty` | src/_packagedcode/pypi.py:1103-1106 | `extra_data` is reported exactly when it is non-empty. |
| `Versions.QuotedAtIsTheMatch` | src/_packagedcode/pypi.py:1139 | The dunder/plain matcher at a position succeeds exactly when the regular expression matches there, and it gives that match's group. The match is unique. |
| `Versions.SetupArgAtIsGreedyMatch` | src/_packagedcode/pypi.py:1174 | The setup-argument matcher succeeds exactly when `\s*version\s*=\s*(.*__version__)` matches. Its group is the greedy one: it starts no earlier and ends no earlier than any other match. |
| `Versions.FirstSomeIsFirst` | src/_packagedcode/pypi.py:1124 | `re.search` reports the first position with a match, and nothing exactly when no position matches. |
| `Versions.FindPattern` | src/_packagedcode/pypi.py:1110-1126 | A found value is already stripped. |
| `Versions.SearchIsFirstLineMatch` | src/_packagedcode/pypi.py:1124 | With `re.MULTILINE`, `re.search` reports the match at the first line start that has one, and nothing exactly when no line start has one. |
| `Versions.SetupVersionAbsent` | src/_packagedcode/pypi.py:1158-1177 | `find_setup_py_dunder_version` finds nothing exactly when no line start holds a match of `^\s*version\s*=\s*(.*__version__)`. |
| `Versions.SetupVersionIsFirstArgument` | src/_packagedcode/pypi.py:1158-1177 | Otherwise `re.search` reports the group of the match at the first line start that holds one, and of the match there whose group starts and ends no earlier than any other (Python's greedy choice). |
| `Versions.FoundIsStrippedGroup` | src/_packagedcode/pypi.py:1110-1126 | `find_pattern` returns the stripped text of the group `re.search` reports. With the rows above, the setup.py version is the stripped greedy group at the first matching line start. |
| `Versions.SearchFindsFirstLineMatch` | src/_packagedcode/pypi.py:1124 | A line start with a match, and none before it, is the match `re.search` reports. |
| `Versions.SetupArgAtSound` | src/_packagedcode/pypi.py:1174 | What the setup-argument matcher reports is a match of the expression. |
| `Versions.GreedyArgIsReported` | src/_packagedcode/pypi.py:1174 | The match whose group starts and ends no earlier than any other is the one the matcher reports. |
| `Versions.QuotedVersionIsFirstAssignment` | src/_packagedcode/pypi.py:1129-1155 | A dunder or plain version is the stripped quoted text of the assignment at the first line start that has one. None is found exactly when no line start has one. |
| `Versions.QuotedVersionFound` | src/_packagedcode/pypi.py:1129-1155 | When a dunder or plain version is found, it is the stripped quoted text of the assignment at the first line start that has one. |
| `Versions.DunderVersionExample` | src/_packagedcode/pypi.py:1139-1140 | `__version__ = "1.2.3"` gives `1.2.3`. |
| `Versions.PlainVersionExample` | src/_packagedcode/pypi.py:1151-1152 | `version = '0.9'` gives no dunder version, and gives the plain version `0.9`. |
| `Versions.FirstVersionIsFirst` | src/_packagedcode/pypi.py:1287-1307 | The first candidate that exists and gives a non-empty version wins. Nothing is found exactly when no candidate does. |
| `Versions.DetectVersionInLocations` | src/_packagedcode/pypi.py:1282-1307 | The loop returns that first version, which is never empty. |
| `Versions.GetModuleScripts` | src/_packagedcode/pypi.py:1310-1329 | The interesting files of the first `max_depth` walked directories, in walk order. A negative budget walks everything. |
| `Versions.ScriptsInContent` | src/_packagedcode/pypi.py:1319-1325 | A path is yielded exactly when it joins a walked directory with one of its files whose name is interesting. |
| `Versions.ModuleScriptsFromVisitedDirectories` | src/_packagedcode/pypi.py:1318-1329 | At most `max_depth` directories are visited, and exactly their interesting files are yielded. |
| `Versions.Segments` | src/_packagedcode/pypi.py:1213-1216 | Segments exist exactly when the setup version argument is truthy and contains a dot. |
| `Versions.CandidateLocations` | src/_packagedcode/pypi.py:1234-1256 | The appended candidate list, joined under the setup.py directory. |
| `Versions.CandidatePathsLayout` | src/_packagedcode/pypi.py:1218-1256 | 10 candidates, or 20 with `src`, for a dotted argument, and none otherwise. They are laid out as special names, special names under `src`, the module file, and the module file under `src`. Each ends in `.py`. |
| `Versions.CandidateCount` | src/_packagedcode/pypi.py:1213-1263 | The walk's files come after 20, 10 or 0 built candidates. |
| `Versions.DetectVersionAttribute` | src/_packagedcode/pypi.py:1181-1279 | The method computes `DetectedVersion`. |
| `Versions.DunderBeforePlain` | src/_packagedcode/pypi.py:1201-1279 | A self-referential setup.py gives its own dunder version. Otherwise the first candidate with a non-empty dunder version wins. The plain detector is used only when no candidate has one. None is returned exactly when no candidate gives either. |
| `Base64Padding.PadLength` | src/_packagedcode/pypi.py:169 | The pad is 1 to 4 characters long and makes the length a multiple of 4. It is 4 exactly when the length already is a multiple of 4. |
| `Base64Padding.Padded` | src/_packagedcode/pypi.py:169 | The data is kept, followed by 1 to 4 `=`, to a multiple of 4. |
| `Base64Padding.AlignedDataGetsFullBlock` | src/_packagedcode/pypi.py:169 | Aligned data gets `====`. |

## Left out

- File access is not modelled (`open`, `io.open`, `os.path.exists`, `os.walk`,
  `get_legacy_description`). Files are a map from path to content, the existence of
  `src/` is a flag, and the walk is the given sequence of (directory, files) pairs.
- Directories are assumed not to sit at candidate paths, so opening one is not modelled.
  UTF-8 decoding errors are not modelled either.
- `fileutils.parent_directory` and `location.rstrip(os.sep)` are not modelled. The
  setup.py directory and the walk are inputs.
- Archive traversal (`PypiWheelHandler`, `PypiEggHandler`, `pkginfo2.SDist`) is not
  modelled, nor are the handlers' datasource ids and path patterns.
- Library parsers are not modelled: `importlib_metadata`, `ConfigParser`, `json`,
  `dparse2.parse`, `pip_requirements_parser`, `ast.parse`, and the PEP 508 grammar of
  `packaging.requirements.Requirement`. Their parsed outputs are inputs. The requirement
  parser is a function that may reject a string.
- `str(SpecifierSet)` is a render function given as a parameter. `PackageURL.to_string`
  is left out: purls stay as a `Purl` value.
- `build_description` and `get_description` are not modelled: `build_description` lives
  in `_packagedcode.utils`, which is not part of this model.
- `get_dist_dependencies` and `parse_metadata` are adapters over libraries and are not
  modelled.
- The base64 decoding itself is not modelled, only its padding.
- Logging and `TRACE` are not modelled.
- Values are None, str or list of str. Tuples, dicts and numbers are not modelled, so
  the `repr` branch of `get_keywords` cannot be reached. Because of this,
  `is_simple_requires` needs no element check.
- In `get_setup_py_args`, a `**kwargs` keyword (no name) and a non-string constant
  inside a list display are not modelled.
- `str.lower` is modelled for ASCII letters only. `\s` in the patterns is Python's
  `str.isspace` set.
- `os.path.join` follows the POSIX rules; Windows paths are not modelled.
