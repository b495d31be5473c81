/** setup.py argument extraction (get_setup_py_args in
    src/_packagedcode/pypi.py), over the parsed module given as a small
    syntax tree.

    Only top-level expression statements and assignments whose value is a
    call of a plain name `setup` or `main` count.  Of their keyword
    arguments, a string literal is kept as a str, a list, tuple or set
    display as the list of its string elements (call elements are skipped,
    any other element has no string and makes the extraction fail), and
    anything else is ignored.  A later keyword of the same name replaces an
    earlier one.
 */
module SetupPy {
  import opened Basics

  /** An element of a list, tuple or set display. */
  datatype Elt = EStr(s: string) | ECall | ENoStr

  /** The value of a keyword argument. */
  datatype KwValue = KStr(s: string) | KSeq(elts: seq<Elt>) | KOther

  datatype Keyword = Keyword(arg: string, value: KwValue)

  /** What is called: a plain name, or any other expression. */
  datatype Func = Name(id: string) | OtherFunc

  datatype Expr = Call(func: Func, keywords: seq<Keyword>) | OtherExpr

  /** A top-level statement: an expression statement, an assignment, or any
      other statement. */
  datatype Stmt = ExprStmt(value: Expr) | AssignStmt(value: Expr) | OtherStmt

  /** `elt.s` on an element that is neither a string nor a call. */
  datatype SetupPyError = NoStringAttribute

  /** A statement that get_setup_py_args looks into. */
  predicate IsSetupCall(stmt: Stmt) {
    !stmt.OtherStmt? && stmt.value.Call? && stmt.value.func.Name?
    && (stmt.value.func.id == "setup" || stmt.value.func.id == "main")
  }

  /** `[elt.s for elt in elts if not isinstance(elt, ast.Call)]`, or None when
      an element has no string. */
  function EltStrings(elts: seq<Elt>): (r: Option<seq<string>>)
    ensures r.None? <==> exists i :: 0 <= i < |elts| && elts[i] == ENoStr
    ensures r.Some? ==> |r.value| <= |elts|
  {
    if elts == [] then Some([])
    else
      var rest := EltStrings(elts[1..]);
      assert forall i :: 1 <= i < |elts| ==> elts[i] == elts[1..][i - 1];
      match elts[0]
      case ENoStr => None
      case ECall => rest
      case EStr(s) => if rest.Some? then Some([s] + rest.value) else None
  }

  /** The string elements, in order, with the calls skipped. */
  lemma {:induction false} EltStringsContent(elts: seq<Elt>)
    requires EltStrings(elts).Some?
    ensures forall s :: s in EltStrings(elts).value <==> EStr(s) in elts
  {
    if elts != [] {
      EltStringsContent(elts[1..]);
      assert elts == [elts[0]] + elts[1..];
    }
  }

  /** One keyword argument added to the arguments found so far. */
  function KeywordStep(args: map<string, Value>, kw: Keyword): Result<map<string, Value>, SetupPyError> {
    match kw.value
    case KStr(s) => Ok(args[kw.arg := Str(s)])
    case KSeq(elts) =>
      (match EltStrings(elts)
       case None => Err(NoStringAttribute)
       case Some(xs) => Ok(args[kw.arg := List(xs)]))
    case KOther => Ok(args)
  }

  /** The keyword arguments kws, in order, added to args. */
  function KeywordsFrom(args: map<string, Value>, kws: seq<Keyword>): Result<map<string, Value>, SetupPyError>
    decreases |kws|
  {
    if kws == [] then Ok(args)
    else
      match KeywordStep(args, kws[0])
      case Err(e) => Err(e)
      case Ok(a) => KeywordsFrom(a, kws[1..])
  }

  /** The statements of body, in order, added to args. */
  function StatementsFrom(args: map<string, Value>, body: seq<Stmt>): Result<map<string, Value>, SetupPyError>
    decreases |body|
  {
    if body == [] then Ok(args)
    else if !IsSetupCall(body[0]) then StatementsFrom(args, body[1..])
    else
      match KeywordsFrom(args, body[0].value.keywords)
      case Err(e) => Err(e)
      case Ok(a) => StatementsFrom(a, body[1..])
  }

  /** The keyword arguments of the keywords loop, added to args in place. */
  method AddKeywords(args0: map<string, Value>, kws: seq<Keyword>)
    returns (r: Result<map<string, Value>, SetupPyError>)
    ensures r == KeywordsFrom(args0, kws)
  {
    var args := args0;
    var j := 0;
    while j < |kws|
      invariant 0 <= j <= |kws|
      invariant KeywordsFrom(args, kws[j..]) == KeywordsFrom(args0, kws)
    {
      assert kws[j..][1..] == kws[j + 1..];
      var kw := kws[j];
      match kw.value {
        case KStr(s) =>
          args := args[kw.arg := Str(s)];
        case KSeq(elts) =>
          var value := EltStrings(elts);
          if value.None? {
            return Err(NoStringAttribute);
          }
          args := args[kw.arg := List(value.value)];
        case KOther =>
      }
      j := j + 1;
    }
    return Ok(args);
  }

  /** get_setup_py_args over the statements of the parsed setup.py. */
  method GetSetupPyArgs(body: seq<Stmt>) returns (r: Result<map<string, Value>, SetupPyError>)
    ensures r == StatementsFrom(map[], body)
  {
    var args: map<string, Value> := map[];
    var i := 0;
    while i < |body|
      invariant 0 <= i <= |body|
      invariant StatementsFrom(args, body[i..]) == StatementsFrom(map[], body)
    {
      assert body[i..][1..] == body[i + 1..];
      var statement := body[i];
      if IsSetupCall(statement) {
        var found := AddKeywords(args, statement.value.keywords);
        if found.Err? {
          return Err(found.error);
        }
        args := found.value;
      }
      i := i + 1;
    }
    return Ok(args);
  }

  // ----- what the extracted arguments are -----

  /** The keyword arguments of the setup and main calls, in order. */
  function SetupKeywords(body: seq<Stmt>): seq<Keyword> {
    if body == [] then []
    else (if IsSetupCall(body[0]) then body[0].value.keywords else []) + SetupKeywords(body[1..])
  }

  lemma {:induction false} KeywordsFromAppend(args: map<string, Value>, xs: seq<Keyword>, ys: seq<Keyword>)
    ensures KeywordsFrom(args, xs + ys)
         == match KeywordsFrom(args, xs)
            case Err(e) => Err(e)
            case Ok(a) => KeywordsFrom(a, ys)
    decreases |xs|
  {
    if xs == [] {
      assert xs + ys == ys;
    } else {
      assert (xs + ys)[0] == xs[0] && (xs + ys)[1..] == xs[1..] + ys;
      match KeywordStep(args, xs[0])
      case Err(_) =>
      case Ok(a) => KeywordsFromAppend(a, xs[1..], ys);
    }
  }

  /** Reading the statements is reading the keyword arguments of the setup
      and main calls one after the other. */
  lemma {:induction false} StatementsAreKeywords(args: map<string, Value>, body: seq<Stmt>)
    ensures StatementsFrom(args, body) == KeywordsFrom(args, SetupKeywords(body))
    decreases |body|
  {
    if body != [] {
      var own := if IsSetupCall(body[0]) then body[0].value.keywords else [];
      KeywordsFromAppend(args, own, SetupKeywords(body[1..]));
      if IsSetupCall(body[0]) {
        match KeywordsFrom(args, own)
        case Err(_) =>
        case Ok(a) => StatementsAreKeywords(a, body[1..]);
      } else {
        StatementsAreKeywords(args, body[1..]);
      }
    }
  }

  /** A keyword argument whose value is a string or a display (the only kind
      that is stored). */
  predicate IsLiteral(kw: Keyword) {
    kw.value.KStr? || kw.value.KSeq?
  }

  /** The value a stored keyword argument gets. */
  function LiteralValue(kw: Keyword): Value
    requires IsLiteral(kw) && (kw.value.KSeq? ==> EltStrings(kw.value.elts).Some?)
  {
    match kw.value
    case KStr(s) => Str(s)
    case KSeq(elts) => List(EltStrings(elts).value)
  }

  /** The extraction fails exactly when a display holds an element with no
      string. */
  lemma {:induction false} KeywordsFromFails(args: map<string, Value>, kws: seq<Keyword>)
    ensures KeywordsFrom(args, kws).Err?
        <==> exists i :: 0 <= i < |kws| && kws[i].value.KSeq? && EltStrings(kws[i].value.elts).None?
    decreases |kws|
  {
    if kws != [] {
      assert forall i :: 1 <= i < |kws| ==> kws[i] == kws[1..][i - 1];
      match KeywordStep(args, kws[0])
      case Err(_) =>
      case Ok(a) => KeywordsFromFails(a, kws[1..]);
    }
  }

  /** On success the names found are those of args and those of the literal
      keyword arguments, and a name no literal keyword argument has keeps its
      value. */
  lemma {:induction false} KeywordsFromKeys(args: map<string, Value>, kws: seq<Keyword>)
    ensures var r := KeywordsFrom(args, kws);
      r.Ok? ==>
        (forall k :: k in r.value <==> k in args || exists i :: 0 <= i < |kws| && kws[i].arg == k && IsLiteral(kws[i]))
        && (forall k :: k in args && (forall i :: 0 <= i < |kws| ==> !(kws[i].arg == k && IsLiteral(kws[i])))
              ==> r.value[k] == args[k])
    decreases |kws|
  {
    if kws != [] {
      assert forall i :: 1 <= i < |kws| ==> kws[i] == kws[1..][i - 1];
      match KeywordStep(args, kws[0])
      case Err(_) =>
      case Ok(a) => KeywordsFromKeys(a, kws[1..]);
    }
  }

  /** On success each name has the value of the last literal keyword
      argument of that name. */
  lemma {:induction false} KeywordsFromLastWins(args: map<string, Value>, kws: seq<Keyword>, i: nat)
    requires i < |kws| && IsLiteral(kws[i])
    requires forall j :: i < j < |kws| ==> !(kws[j].arg == kws[i].arg && IsLiteral(kws[j]))
    requires kws[i].value.KSeq? ==> EltStrings(kws[i].value.elts).Some?
    ensures var r := KeywordsFrom(args, kws);
      r.Ok? ==> kws[i].arg in r.value && r.value[kws[i].arg] == LiteralValue(kws[i])
    decreases |kws|
  {
    KeywordsFromFails(args, kws);
    match KeywordStep(args, kws[0])
    case Err(_) =>
    case Ok(a) =>
      if i > 0 {
        assert forall j :: i - 1 < j < |kws[1..]| ==> kws[1..][j] == kws[j + 1];
        KeywordsFromLastWins(a, kws[1..], i - 1);
      } else {
        assert forall j :: 0 <= j < |kws[1..]| ==> !(kws[1..][j].arg == kws[0].arg && IsLiteral(kws[1..][j]));
        KeywordsFromKeys(a, kws[1..]);
      }
  }

  /** Every value found is a str or a list of str. */
  lemma ArgsAreStrOrList(body: seq<Stmt>)
    ensures var r := StatementsFrom(map[], body);
      r.Ok? ==> forall k :: k in r.value ==> r.value[k].Str? || r.value[k].List?
  {
    var kws := SetupKeywords(body);
    StatementsAreKeywords(map[], body);
    KeywordsFromKeys(map[], kws);
    var r := StatementsFrom(map[], body);
    if r.Ok? {
      forall k | k in r.value ensures r.value[k].Str? || r.value[k].List? {
        var i :| 0 <= i < |kws| && kws[i].arg == k && IsLiteral(kws[i]);
        var last := LastLiteral(kws, k, i);
        KeywordsFromFails(map[], kws);
        KeywordsFromLastWins(map[], kws, last);
      }
    }
  }

  /** The index of the last literal keyword argument named k, at or after i. */
  lemma {:induction false} LastLiteral(kws: seq<Keyword>, k: string, i: nat) returns (last: nat)
    requires i < |kws| && kws[i].arg == k && IsLiteral(kws[i])
    ensures i <= last < |kws| && kws[last].arg == k && IsLiteral(kws[last])
    ensures forall j :: last < j < |kws| ==> !(kws[j].arg == kws[last].arg && IsLiteral(kws[j]))
    decreases |kws| - i
  {
    if exists j :: i < j < |kws| && kws[j].arg == k && IsLiteral(kws[j]) {
      var j :| i < j < |kws| && kws[j].arg == k && IsLiteral(kws[j]);
      last := LastLiteral(kws, k, j);
    } else {
      last := i;
    }
  }
}
