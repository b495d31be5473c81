/** Dependencies: requirement strings, setup.py requirement arguments,
    dparse2 dependency records and pip requirements-file records turned into
    dependent packages (get_requires_dependencies, is_simple_requires,
    get_extra, get_setup_py_dependencies, parse_with_dparse2,
    get_requirements_txt_dependencies and get_dparse2_supported_file_name in
    src/_packagedcode/pypi.py).

    The PEP 508 requirement parser, the dparse2 and pip-requirements parsers
    and the rendering of a specifier set are not part of this model: their
    outputs are inputs here (a parse function, a render function, and the
    parsed records).
 */
module Requirements {
  import opened Basics

  /** One version specifier: its operator and its version (PEP 440). */
  datatype Specifier = Specifier(op: string, version: string)

  /** An operand of a PEP 508 environment marker clause. */
  datatype Operand = Variable(name: string) | Literal(value: string)

  /** The items of a parsed marker: a clause (lhs, op, rhs), a connective
      ("and"/"or"), or a parenthesised group of items. */
  datatype MarkerItem =
    | Clause(lhs: Operand, op: string, rhs: Operand)
    | Connective(word: string)
    | Group(items: seq<MarkerItem>)

  /** A parsed requirement: name, the elements of its specifier set, and its
      marker when it has one. */
  datatype Requirement = Requirement(name: string, specifiers: seq<Specifier>, marker: Option<seq<MarkerItem>>)

  /** A package URL, before rendering to a string. */
  datatype Purl = Purl(purlType: string, name: string, version: Option<string>)

  /** models.DependentPackage, with the purl left unrendered. */
  datatype DependentPackage = DependentPackage(
    purl: Option<Purl>,
    scope: string,
    isRuntime: bool,
    isOptional: bool,
    isResolved: bool,
    extractedRequirement: Option<string>)

  datatype Error =
    | InvalidRequirement(text: string)  // Requirement(text) raises
    | NotAMapping(key: string)          // `.items()` on a value that is not a dict

  // ----- PEP 503 name normalisation -----

  predicate IsNameSeparator(c: char) {
    c == '-' || c == '_' || c == '.'
  }

  /** s without its leading run of separators. */
  function DropSeparators(s: string): (r: string)
    ensures |r| <= |s| && r == s[|s| - |r|..]
    ensures r == [] || !IsNameSeparator(r[0])
  {
    if s != [] && IsNameSeparator(s[0]) then DropSeparators(s[1..]) else s
  }

  /** canonicalize_name: each run of '-', '_' and '.' becomes one '-', then
      the name is lower-cased (ASCII letters only). */
  function Canonicalize(s: string): string
    decreases |s|
  {
    if s == [] then []
    else if IsNameSeparator(s[0]) then "-" + Canonicalize(DropSeparators(s[1..]))
    else [LowerChar(s[0])] + Canonicalize(s[1..])
  }

  /** A canonical name: no '_' or '.', no two '-' in a row, no upper-case letter. */
  predicate IsCanonical(s: string) {
    (forall i :: 0 <= i < |s| ==> s[i] != '_' && s[i] != '.' && !('A' <= s[i] <= 'Z'))
    && forall i :: 0 <= i < |s| - 1 ==> !(s[i] == '-' && s[i + 1] == '-')
  }

  lemma {:induction false} CanonicalizeIsCanonical(s: string)
    ensures IsCanonical(Canonicalize(s))
    ensures s != [] && IsNameSeparator(s[0]) ==> Canonicalize(s) != [] && Canonicalize(s)[0] == '-'
    ensures s != [] && !IsNameSeparator(s[0]) ==> Canonicalize(s) != [] && Canonicalize(s)[0] != '-'
    decreases |s|
  {
    if s != [] {
      if IsNameSeparator(s[0]) {
        var rest := DropSeparators(s[1..]);
        CanonicalizeIsCanonical(rest);
        var c := Canonicalize(rest);
        assert Canonicalize(s) == ['-'] + c;
        ConsCanonical('-', c);
      } else {
        CanonicalizeIsCanonical(s[1..]);
        var c := Canonicalize(s[1..]);
        assert Canonicalize(s) == [LowerChar(s[0])] + c;
        ConsCanonical(LowerChar(s[0]), c);
      }
    }
  }

  /** A canonical name stays canonical with an allowed first character in
      front; a '-' needs a name that does not start with '-'. */
  lemma ConsCanonical(x: char, c: string)
    requires IsCanonical(c) && x != '_' && x != '.' && !('A' <= x <= 'Z')
    requires x == '-' ==> c == [] || c[0] != '-'
    ensures IsCanonical([x] + c)
  {
    var r := [x] + c;
    assert forall i :: 0 <= i < |c| ==> r[i + 1] == c[i];
  }

  /** A canonical name is its own canonical form. */
  lemma {:induction false} CanonicalizeCanonical(s: string)
    requires IsCanonical(s)
    ensures Canonicalize(s) == s
    decreases |s|
  {
    if s != [] {
      assert IsCanonical(s[1..]) by {
        assert forall i :: 0 <= i < |s[1..]| ==> s[1..][i] == s[i + 1];
      }
      if IsNameSeparator(s[0]) {
        assert s[0] == '-';
        assert DropSeparators(s[1..]) == s[1..] by {
          if |s| > 1 { assert s[1] != '-'; }
        }
      }
      CanonicalizeCanonical(s[1..]);
    }
  }

  /** Normalising a name twice is normalising it once. */
  lemma CanonicalizeIdempotent(s: string)
    ensures Canonicalize(Canonicalize(s)) == Canonicalize(s)
  {
    CanonicalizeIsCanonical(s);
    CanonicalizeCanonical(Canonicalize(s));
  }

  // ----- pinning -----

  predicate IsEqualityOperator(op: string) {
    op == "==" || op == "==="
  }

  /** The pinned version: the version of the only specifier when there is
      exactly one and it is `==` (version matching) or `===` (arbitrary
      equality). */
  function PinnedVersion(specs: seq<Specifier>): (v: Option<string>)
    ensures v.Some? <==> |specs| == 1 && IsEqualityOperator(specs[0].op)
    ensures v.Some? ==> v.value == specs[0].version
  {
    if |specs| == 1 && IsEqualityOperator(specs[0].op) then Some(specs[0].version) else None
  }

  // ----- environment markers -----

  /** The length Python sees for a marker item (a clause is a 3-tuple). */
  function ItemLength(mark: MarkerItem): nat {
    match mark
    case Clause(_, _, _) => 3
    case Connective(w) => |w|
    case Group(items) => |items|
  }

  /** The loop guard as written: `not isinstance(mark, tuple) and not len(mark) == 3`. */
  predicate SkippedByGuard(mark: MarkerItem) {
    !mark.Clause? && ItemLength(mark) != 3
  }

  /** A top-level clause `extra == "<value>"` with the operands in that order. */
  predicate IsExtraClause(mark: MarkerItem) {
    mark.Clause? && mark.lhs == Variable("extra") && mark.op == "==" && mark.rhs.Literal?
  }

  /** The loop of get_extra over the top-level marker items, as written.  An
      item the guard lets through and that is not a clause unpacks into
      characters (a three-letter connective) or marker items (a group of
      three), none of which is a Variable, so it never matches. */
  function ExtraIn(marks: seq<MarkerItem>): Option<string>
  {
    if marks == [] then None
    else if SkippedByGuard(marks[0]) then ExtraIn(marks[1..])
    else if IsExtraClause(marks[0]) then Some(marks[0].rhs.value)
    else ExtraIn(marks[1..])
  }

  /** get_extra(marker) */
  function GetExtra(marker: Option<seq<MarkerItem>>): Option<string> {
    match marker
    case None => None
    case Some(marks) => ExtraIn(marks)
  }

  /** get_extra yields v exactly when the first top-level `extra == ...`
      clause has value v; connectives, groups, reversed operands and other
      operators never yield an extra, and the guard's `and` changes nothing. */
  lemma {:induction false} ExtraInFirstClause(marks: seq<MarkerItem>)
    ensures ExtraIn(marks).None? <==> forall i :: 0 <= i < |marks| ==> !IsExtraClause(marks[i])
    ensures ExtraIn(marks).Some? ==>
      exists i :: 0 <= i < |marks| && IsExtraClause(marks[i]) && marks[i].rhs.value == ExtraIn(marks).value
                  && forall j :: 0 <= j < i ==> !IsExtraClause(marks[j])
  {
    if marks != [] {
      ExtraInFirstClause(marks[1..]);
      assert forall i :: 1 <= i < |marks| ==> marks[i] == marks[1..][i - 1];
      if !IsExtraClause(marks[0]) && ExtraIn(marks).Some? {
        var i :| 0 <= i < |marks[1..]| && IsExtraClause(marks[1..][i])
                 && marks[1..][i].rhs.value == ExtraIn(marks).value
                 && forall j :: 0 <= j < i ==> !IsExtraClause(marks[1..][j]);
        assert IsExtraClause(marks[i + 1]) && forall j :: 0 <= j < i + 1 ==> !IsExtraClause(marks[j]);
      }
    }
  }

  /** `get_extra(req.marker) or default_scope`: an empty extra falls back too. */
  function ScopeOf(extra: Option<string>, defaultScope: string): (scope: string)
    ensures TruthyStr(extra) ==> scope == extra.value
    ensures !TruthyStr(extra) ==> scope == defaultScope
  {
    if TruthyStr(extra) then extra.value else defaultScope
  }

  // ----- get_requires_dependencies -----

  /** is_simple_requires(requires): a non-empty list (of str) */
  predicate IsSimpleRequires(requirements: Value) {
    requirements.List? && requirements.items != []
  }

  /** The dependent package built for one parsed requirement. */
  function RequirementDependency(req: Requirement, defaultScope: string, render: seq<Specifier> -> string)
    : DependentPackage
  {
    var pinned := PinnedVersion(req.specifiers);
    DependentPackage(
      Some(Purl("pypi", Canonicalize(req.name), pinned)),
      ScopeOf(GetExtra(req.marker), defaultScope),
      true, false, pinned.Some?,
      if req.specifiers == [] then None else Some(render(req.specifiers)))
  }

  /** The dependencies of requirement strings xs, or the error of the first
      string that does not parse. */
  function RequiresDependencies(xs: seq<string>, defaultScope: string,
                                parse: string -> Option<Requirement>, render: seq<Specifier> -> string)
    : Result<seq<DependentPackage>, Error>
  {
    if xs == [] then Ok([])
    else
      match parse(xs[0])
      case None => Err(InvalidRequirement(xs[0]))
      case Some(req) =>
        match RequiresDependencies(xs[1..], defaultScope, parse, render)
        case Err(e) => Err(e)
        case Ok(ds) => Ok([RequirementDependency(req, defaultScope, render)] + ds)
  }

  /** ds followed by the dependencies in r, or r's error. */
  function PrependOk(ds: seq<DependentPackage>, r: Result<seq<DependentPackage>, Error>)
    : Result<seq<DependentPackage>, Error>
  {
    match r
    case Ok(rest) => Ok(ds + rest)
    case Err(e) => Err(e)
  }

  lemma PrependOkTwice(ds: seq<DependentPackage>, es: seq<DependentPackage>, r: Result<seq<DependentPackage>, Error>)
    ensures PrependOk(ds, PrependOk(es, r)) == PrependOk(ds + es, r)
  {
    if r.Ok? {
      assert ds + (es + r.value) == ds + es + r.value;
    }
  }

  /** get_requires_dependencies(requires, default_scope): nothing for a value
      that is not a non-empty list; otherwise one dependency per requirement
      string, in order, failing on the first string that does not parse. */
  method GetRequiresDependencies(requirements: Value, defaultScope: string,
                                 parse: string -> Option<Requirement>, render: seq<Specifier> -> string)
    returns (r: Result<seq<DependentPackage>, Error>)
    ensures !IsSimpleRequires(requirements) ==> r == Ok([])
    ensures IsSimpleRequires(requirements) ==> r == RequiresDependencies(requirements.items, defaultScope, parse, render)
  {
    if !IsSimpleRequires(requirements) {
      return Ok([]);
    }
    var xs := requirements.items;
    var deps: seq<DependentPackage> := [];
    var i := 0;
    assert xs[0..] == xs;
    assert PrependOk([], RequiresDependencies(xs, defaultScope, parse, render))
        == RequiresDependencies(xs, defaultScope, parse, render) by {
      var R := RequiresDependencies(xs, defaultScope, parse, render);
      if R.Ok? { assert [] + R.value == R.value; }
    }
    while i < |xs|
      invariant 0 <= i <= |xs|
      invariant PrependOk(deps, RequiresDependencies(xs[i..], defaultScope, parse, render))
             == RequiresDependencies(xs, defaultScope, parse, render)
    {
      var req := parse(xs[i]);
      if req.None? {
        return Err(InvalidRequirement(xs[i]));
      }
      var d := RequirementDependency(req.value, defaultScope, render);
      assert xs[i..][1..] == xs[i + 1..];
      assert RequiresDependencies(xs[i..], defaultScope, parse, render)
          == PrependOk([d], RequiresDependencies(xs[i + 1..], defaultScope, parse, render));
      PrependOkTwice(deps, [d], RequiresDependencies(xs[i + 1..], defaultScope, parse, render));
      deps := deps + [d];
      i := i + 1;
    }
    assert xs[i..] == [];
    assert deps + [] == deps;
    return Ok(deps);
  }

  /** On success there is one dependency per requirement string, each the
      dependency of that string's parse. */
  lemma {:induction false} RequiresDependenciesShape(xs: seq<string>, defaultScope: string,
                                                     parse: string -> Option<Requirement>,
                                                     render: seq<Specifier> -> string)
    ensures var r := RequiresDependencies(xs, defaultScope, parse, render);
      (r.Ok? <==> forall i :: 0 <= i < |xs| ==> parse(xs[i]).Some?)
      && (r.Ok? ==>
            |r.value| == |xs|
            && forall i :: 0 <= i < |xs| ==>
                 r.value[i] == RequirementDependency(parse(xs[i]).value, defaultScope, render))
      && (r.Err? ==> exists i :: 0 <= i < |xs| && parse(xs[i]).None? && r.error == InvalidRequirement(xs[i]))
  {
    if xs != [] {
      RequiresDependenciesShape(xs[1..], defaultScope, parse, render);
      assert forall i :: 1 <= i < |xs| ==> xs[i] == xs[1..][i - 1];
      var r := RequiresDependencies(xs[1..], defaultScope, parse, render);
      if parse(xs[0]).Some? && r.Err? {
        var i :| 0 <= i < |xs[1..]| && parse(xs[1..][i]).None? && r.error == InvalidRequirement(xs[1..][i]);
        assert parse(xs[i + 1]).None?;
      }
    }
  }

  /** The pinning rule: a dependency is resolved exactly when its specifier
      set is a single `==` or `===`, and then its purl carries that version;
      the extracted requirement is absent exactly when there are no
      specifiers; the scope is the marker's extra or the default; it is
      always a runtime, non-optional dependency. */
  lemma RequirementDependencyPinning(req: Requirement, defaultScope: string, render: seq<Specifier> -> string)
    ensures var d := RequirementDependency(req, defaultScope, render);
      d.purl.Some? && d.purl.value.purlType == "pypi"
      && d.purl.value.name == Canonicalize(req.name)
      && (d.isResolved <==> |req.specifiers| == 1 && IsEqualityOperator(req.specifiers[0].op))
      && (d.isResolved <==> d.purl.value.version.Some?)
      && (d.isResolved ==> d.purl.value.version == Some(req.specifiers[0].version))
      && (d.extractedRequirement.None? <==> req.specifiers == [])
      && d.isRuntime && !d.isOptional
      && (TruthyStr(GetExtra(req.marker)) ==> d.scope == GetExtra(req.marker).value)
      && (!TruthyStr(GetExtra(req.marker)) ==> d.scope == defaultScope)
  {
  }

  // ----- get_setup_py_dependencies -----

  /** `setup_args.get(key)` */
  function ArgOf(args: map<string, Value>, key: string): Value {
    if key in args then args[key] else Null
  }

  /** What get_requires_dependencies returns for one value. */
  function RequiresOf(requirements: Value, defaultScope: string,
                      parse: string -> Option<Requirement>, render: seq<Specifier> -> string)
    : Result<seq<DependentPackage>, Error>
  {
    if IsSimpleRequires(requirements) then RequiresDependencies(requirements.items, defaultScope, parse, render)
    else Ok([])
  }

  /** get_setup_py_dependencies(setup_args): the install, tests and setup
      requirements with their default scopes, in that order, or the first
      error.  Setup arguments hold only str and list values, so an
      "extras_require" argument, when present, makes `.items()` fail. */
  method GetSetupPyDependencies(args: map<string, Value>,
                                parse: string -> Option<Requirement>, render: seq<Specifier> -> string)
    returns (r: Result<seq<DependentPackage>, Error>)
    ensures var install := RequiresOf(ArgOf(args, "install_requires"), "install", parse, render);
      var tests := RequiresOf(ArgOf(args, "tests_requires"), "tests", parse, render);
      var setup := RequiresOf(ArgOf(args, "setup_requires"), "setup", parse, render);
      (r.Ok? <==> install.Ok? && tests.Ok? && setup.Ok? && "extras_require" !in args)
      && (r.Ok? ==> r.value == install.value + tests.value + setup.value)
      && (r.Err? ==>
            r.error == if install.Err? then install.error
                       else if tests.Err? then tests.error
                       else if setup.Err? then setup.error
                       else NotAMapping("extras_require"))
  {
    var dependencies: seq<DependentPackage> := [];
    var install := GetRequiresDependencies(ArgOf(args, "install_requires"), "install", parse, render);
    if install.Err? {
      return Err(install.error);
    }
    dependencies := dependencies + install.value;
    var tests := GetRequiresDependencies(ArgOf(args, "tests_requires"), "tests", parse, render);
    if tests.Err? {
      return Err(tests.error);
    }
    dependencies := dependencies + tests.value;
    var setup := GetRequiresDependencies(ArgOf(args, "setup_requires"), "setup", parse, render);
    if setup.Err? {
      return Err(setup.error);
    }
    dependencies := dependencies + setup.value;
    if "extras_require" in args {
      return Err(NotAMapping("extras_require"));
    }
    return Ok(dependencies);
  }

  // ----- parse_with_dparse2 -----

  /** A dependency record of a dparse2-parsed manifest. */
  datatype Dparse2Dependency = Dparse2Dependency(name: string, specifiers: seq<Specifier>)

  /** The dependent package parse_with_dparse2 builds for one record. */
  function Dparse2DependentPackage(dep: Dparse2Dependency, render: seq<Specifier> -> string): DependentPackage {
    var pinned := PinnedVersion(dep.specifiers);
    DependentPackage(
      Some(Purl("pypi", dep.name, pinned)), "install", true, false, pinned.Some?,
      Some(if dep.specifiers == [] then dep.name else render(dep.specifiers)))
  }

  /** The loop of parse_with_dparse2 over the parsed dependency records. */
  method ParseWithDparse2(deps: seq<Dparse2Dependency>, render: seq<Specifier> -> string)
    returns (packages: seq<DependentPackage>)
    ensures |packages| == |deps|
    ensures forall i :: 0 <= i < |deps| ==> packages[i] == Dparse2DependentPackage(deps[i], render)
  {
    packages := [];
    for i := 0 to |deps|
      invariant |packages| == i
      invariant forall j :: 0 <= j < i ==> packages[j] == Dparse2DependentPackage(deps[j], render)
    {
      var requirement := deps[i].name;
      var isResolved := false;
      var purl := Purl("pypi", deps[i].name, None);
      var specs := deps[i].specifiers;
      if specs != [] {
        requirement := render(specs);
        if |specs| == 1 && IsEqualityOperator(specs[0].op) {
          isResolved := true;
          purl := purl.(version := Some(specs[0].version));
        }
      }
      packages := packages + [DependentPackage(Some(purl), "install", true, false, isResolved, Some(requirement))];
    }
  }

  /** For dparse2 records the name is kept as written (not normalised), the
      scope is always "install", the extracted requirement defaults to the
      name, and the pinning rule is the same as for requirement strings. */
  lemma Dparse2Pinning(dep: Dparse2Dependency, render: seq<Specifier> -> string)
    ensures var d := Dparse2DependentPackage(dep, render);
      d.purl == Some(Purl("pypi", dep.name, d.purl.value.version))
      && d.scope == "install" && d.isRuntime && !d.isOptional
      && (d.isResolved <==> |dep.specifiers| == 1 && IsEqualityOperator(dep.specifiers[0].op))
      && (d.isResolved <==> d.purl.value.version.Some?)
      && (d.isResolved ==> d.purl.value.version == Some(dep.specifiers[0].version))
      && (dep.specifiers == [] ==> d.extractedRequirement == Some(dep.name))
      && (dep.specifiers != [] ==> d.extractedRequirement == Some(render(dep.specifiers)))
  {
  }

  // ----- get_dparse2_supported_file_name -----

  const Dparse2FileNames: seq<string> := ["Pipfile.lock", "Pipfile", "conda.yml", "setup.cfg"]

  /** The early-return search of get_dparse2_supported_file_name over names. */
  function SupportedFileName(fileName: string, names: seq<string>): (r: Option<string>)
    ensures r.Some? <==> exists i :: 0 <= i < |names| && EndsWith(fileName, names[i])
    ensures r.Some? ==> r.value == fileName
  {
    if names == [] then None
    else if EndsWith(fileName, names[0]) then Some(fileName)
    else
      var r := SupportedFileName(fileName, names[1..]);
      assert forall i :: 1 <= i < |names| ==> names[i] == names[1..][i - 1];
      r
  }

  /** get_dparse2_supported_file_name(file_name) */
  function GetDparse2SupportedFileName(fileName: string): (r: Option<string>)
    ensures r.Some? <==>
      EndsWith(fileName, "Pipfile.lock") || EndsWith(fileName, "Pipfile")
      || EndsWith(fileName, "conda.yml") || EndsWith(fileName, "setup.cfg")
    ensures r.Some? ==> r.value == fileName
  {
    var r := SupportedFileName(fileName, Dparse2FileNames);
    assert forall i :: 0 <= i < |Dparse2FileNames| ==>
      Dparse2FileNames[i] in {"Pipfile.lock", "Pipfile", "conda.yml", "setup.cfg"};
    assert Dparse2FileNames[0] == "Pipfile.lock" && Dparse2FileNames[1] == "Pipfile";
    assert Dparse2FileNames[2] == "conda.yml" && Dparse2FileNames[3] == "setup.cfg";
    r
  }

  // ----- get_requirements_txt_dependencies -----

  /** A requirement line of a pip requirements file, as the parser reports it. */
  datatype PipRequirement = PipRequirement(
    name: Option<string>,
    pinnedVersion: Option<string>,
    isEditable: bool,
    isPinned: bool,
    dumpWithName: string,
    dumpWithoutName: string)

  /** A file whose name ends in dev.txt, test.txt or tests.txt holds
      development requirements. */
  predicate IsDevelopmentFile(location: string) {
    EndsWith(location, "dev.txt") || EndsWith(location, "test.txt") || EndsWith(location, "tests.txt")
  }

  /** The dependent package for one requirement line of the file at location. */
  function PipDependentPackage(location: string, req: PipRequirement): DependentPackage {
    var dev := IsDevelopmentFile(location);
    DependentPackage(
      if TruthyStr(req.name) then Some(Purl("pypi", req.name.value, req.pinnedVersion)) else None,
      if dev then "development" else "install",
      !dev, dev, req.isPinned,
      Some(if req.isEditable then req.dumpWithoutName else req.dumpWithName))
  }

  /** The loop of get_requirements_txt_dependencies over the parsed lines. */
  method GetRequirementsTxtDependencies(location: string, reqs: seq<PipRequirement>)
    returns (packages: seq<DependentPackage>)
    ensures |packages| == |reqs|
    ensures forall i :: 0 <= i < |reqs| ==> packages[i] == PipDependentPackage(location, reqs[i])
  {
    packages := [];
    for i := 0 to |reqs|
      invariant |packages| == i
      invariant forall j :: 0 <= j < i ==> packages[j] == PipDependentPackage(location, reqs[j])
    {
      var req := reqs[i];
      var purl: Option<Purl> := None;
      if TruthyStr(req.name) {
        purl := Some(Purl("pypi", req.name.value, req.pinnedVersion));
      }
      var requirement := if req.isEditable then req.dumpWithoutName else req.dumpWithName;
      var scope, isRuntime, isOptional;
      if EndsWith(location, "dev.txt") || EndsWith(location, "test.txt") || EndsWith(location, "tests.txt") {
        scope, isRuntime, isOptional := "development", false, true;
      } else {
        scope, isRuntime, isOptional := "install", true, false;
      }
      packages := packages + [DependentPackage(purl, scope, isRuntime, isOptional, req.isPinned, Some(requirement))];
    }
  }

  /** Every line of a development file is a development, optional,
      non-runtime dependency; every line of any other file an install,
      runtime, non-optional one. */
  lemma RequirementsFileScope(location: string, req: PipRequirement)
    ensures var d := PipDependentPackage(location, req);
      (IsDevelopmentFile(location) ==> d.scope == "development" && !d.isRuntime && d.isOptional)
      && (!IsDevelopmentFile(location) ==> d.scope == "install" && d.isRuntime && !d.isOptional)
      && (d.purl.Some? <==> TruthyStr(req.name))
  {
  }

  /** "latest.txt" ends with "test.txt", so it is read as a development file;
      "requirements-dev.txt" is one too, "requirements.txt" is not. */
  lemma DevelopmentFileExamples()
    ensures IsDevelopmentFile("latest.txt")
    ensures IsDevelopmentFile("requirements-dev.txt")
    ensures !IsDevelopmentFile("requirements.txt")
  {
    assert "latest.txt"[2..] == "test.txt";
    assert "requirements-dev.txt"[13..] == "dev.txt";
    assert "requirements.txt"[9..] != "dev.txt";
    assert "requirements.txt"[8..] != "test.txt";
    assert "requirements.txt"[7..] != "tests.txt";
  }
}
