/** Uniform field lookup over the three shapes a metadata object comes in
    (get_attribute in src/_packagedcode/pypi.py).

    A pkginfo distribution exposes fields as named attributes, an email message
    through `get` and `get_all`, and a plain dict through `get`.  A metadata
    object is modelled by what it exposes: its named attributes, and its `get`
    and `get_all` accessors when it has them (each as the mapping from the
    queried key to the value it returns).
 */
module Attributes {
  import opened Basics

  datatype MetaInfo = MetaInfo(
    attrs: map<string, Value>,
    get: Option<map<string, Value>>,
    getAll: Option<map<string, Value>>)

  /** getattr(metainfo, name, default) */
  function GetAttr(m: MetaInfo, name: string, default: Value): Value {
    if name in m.attrs then m.attrs[name] else default
  }

  /** getter(name, default) for an accessor that exists */
  function Lookup(g: map<string, Value>, name: string, default: Value): Value {
    if name in g then g[name] else default
  }

  /** The inner attr_getter: dashes become underscores, then the name as is
      and lower-cased. */
  function AttrGetter(m: MetaInfo, name: string, default: Value): Value {
    var a := ReplaceDash(name);
    Or(GetAttr(m, a, default), GetAttr(m, Lower(a), default))
  }

  /** The inner item_getter: the name as given, then lower-cased; no dash
      rewriting.  A missing accessor yields the default. */
  function ItemGetter(getter: Option<map<string, Value>>, name: string, default: Value): Value {
    match getter
    case None => default
    case Some(g) => Or(Lookup(g, name, default), Lookup(g, Lower(name), default))
  }

  /** get_attribute(metainfo, name, multiple) */
  function GetAttribute(m: MetaInfo, name: string, multiple: bool): (r: Value)
    ensures multiple ==> Truthy(r) || r == List([])
    ensures !multiple ==> Truthy(r) || r == Null
  {
    if multiple then
      Or(Or(Or(AttrGetter(m, name, List([])), ItemGetter(m.getAll, name, List([]))),
            ItemGetter(m.get, name, List([]))),
         List([]))
    else
      Or(Or(AttrGetter(m, name, Null), ItemGetter(m.get, name, Null)), Null)
  }

  // ----- an independent statement of the lookup order -----

  /** The lookups get_attribute tries, in order.  A missing attribute, key or
      accessor contributes a false value. */
  function Candidates(m: MetaInfo, name: string, multiple: bool): seq<Value> {
    var a := ReplaceDash(name);
    var attrs := [GetAttr(m, a, Null), GetAttr(m, Lower(a), Null)];
    var all := AccessorCandidates(m.getAll, name);
    var single := AccessorCandidates(m.get, name);
    if multiple then attrs + all + single else attrs + single
  }

  /** The first truthy value of vs, or fallback. */
  function FirstTruthy(vs: seq<Value>, fallback: Value): Value {
    if vs == [] then fallback
    else if Truthy(vs[0]) then vs[0]
    else FirstTruthy(vs[1..], fallback)
  }

  lemma {:induction false} FirstTruthyIsFirst(vs: seq<Value>, fallback: Value)
    ensures var r := FirstTruthy(vs, fallback);
      (r == fallback && forall i :: 0 <= i < |vs| ==> !Truthy(vs[i]))
      || exists i :: 0 <= i < |vs| && r == vs[i] && Truthy(vs[i])
                     && forall j :: 0 <= j < i ==> !Truthy(vs[j])
  {
    if vs != [] && !Truthy(vs[0]) {
      FirstTruthyIsFirst(vs[1..], fallback);
      var r := FirstTruthy(vs, fallback);
      if !(r == fallback && forall i :: 0 <= i < |vs| ==> !Truthy(vs[i])) {
        var i :| 0 <= i < |vs| - 1 && r == vs[1..][i] && Truthy(vs[1..][i])
                 && forall j :: 0 <= j < i ==> !Truthy(vs[1..][j]);
        assert r == vs[i + 1] && forall j :: 0 <= j < i + 1 ==> !Truthy(vs[j]);
      }
    }
  }

  lemma {:induction false} FirstTruthyAppend(xs: seq<Value>, ys: seq<Value>, fallback: Value)
    ensures FirstTruthy(xs + ys, fallback) == FirstTruthy(xs, FirstTruthy(ys, fallback))
  {
    if xs == [] {
      assert xs + ys == ys;
    } else {
      assert (xs + ys)[1..] == xs[1..] + ys;
      FirstTruthyAppend(xs[1..], ys, fallback);
    }
  }

  lemma FirstTruthyPair(x: Value, y: Value, fallback: Value)
    ensures FirstTruthy([x, y], fallback) == Or(x, Or(y, fallback))
  {
    assert [x, y][1..] == [y];
    assert [y][1..] == [];
    assert FirstTruthy([y], fallback) == if Truthy(y) then y else FirstTruthy([], fallback);
    assert FirstTruthy([x, y], fallback) == if Truthy(x) then x else FirstTruthy([y], fallback);
  }

  /** The lookups of one accessor, in order: the name as given, then lower-cased. */
  function AccessorCandidates(getter: Option<map<string, Value>>, name: string): seq<Value> {
    match getter
    case Some(g) => [Lookup(g, name, Null), Lookup(g, Lower(name), Null)]
    case None => []
  }

  lemma AccessorCandidatesFirst(getter: Option<map<string, Value>>, name: string, fallback: Value)
    ensures FirstTruthy(AccessorCandidates(getter, name), fallback)
         == (if getter.None? then fallback
             else Or(Lookup(getter.value, name, Null), Or(Lookup(getter.value, Lower(name), Null), fallback)))
  {
    if getter.Some? {
      FirstTruthyPair(Lookup(getter.value, name, Null), Lookup(getter.value, Lower(name), Null), fallback);
    }
  }

  /** get_attribute returns the first truthy value among, in order: the
      attribute with dashes replaced by underscores, that attribute
      lower-cased, then (only when multiple) get_all with the name as given and
      lower-cased, then get with the name as given and lower-cased.  When all
      are false it returns [] (multiple) or None. */
  lemma GetAttributeOrder(m: MetaInfo, name: string, multiple: bool)
    ensures GetAttribute(m, name, multiple)
         == FirstTruthy(Candidates(m, name, multiple), if multiple then List([]) else Null)
  {
    var a := ReplaceDash(name);
    var d: Value := if multiple then List([]) else Null;
    var attrs := [GetAttr(m, a, Null), GetAttr(m, Lower(a), Null)];
    var all := AccessorCandidates(m.getAll, name);
    var single := AccessorCandidates(m.get, name);
    AccessorCandidatesFirst(m.get, name, d);
    FirstTruthyPair(attrs[0], attrs[1], FirstTruthy(all + single, d));
    FirstTruthyPair(attrs[0], attrs[1], FirstTruthy(single, d));
    if multiple {
      assert Candidates(m, name, multiple) == attrs + (all + single);
      FirstTruthyAppend(attrs, all + single, d);
      FirstTruthyAppend(all, single, d);
      AccessorCandidatesFirst(m.getAll, name, FirstTruthy(single, d));
    } else {
      assert Candidates(m, name, multiple) == attrs + single;
      FirstTruthyAppend(attrs, single, d);
    }
  }

  /** The result is one of the candidate lookups (the first truthy one), or
      the empty default when every lookup is false. */
  lemma GetAttributeIsFirstTruthyCandidate(m: MetaInfo, name: string, multiple: bool)
    ensures var r := GetAttribute(m, name, multiple);
      var cs := Candidates(m, name, multiple);
      (r == (if multiple then List([]) else Null) && forall i :: 0 <= i < |cs| ==> !Truthy(cs[i]))
      || exists i :: 0 <= i < |cs| && r == cs[i] && Truthy(cs[i])
                     && forall j :: 0 <= j < i ==> !Truthy(cs[j])
  {
    GetAttributeOrder(m, name, multiple);
    FirstTruthyIsFirst(Candidates(m, name, multiple), if multiple then List([]) else Null);
  }

  /** An email message carrying the header `name` once for each value of xs:
      `get` answers the first value, `get_all` the list of all of them. */
  function MessageOf(name: string, xs: seq<string>): (m: MetaInfo)
    requires xs != []
    ensures m.attrs == map[] && m.get.Some? && m.getAll.Some?
  {
    MetaInfo(map[], Some(map[name := Str(xs[0])]), Some(map[name := List(xs)]))
  }

  /** The same logical field read from a pkginfo-like object (named
      attribute) or a dict (get) gives the same value, multiple or not.  An
      email message holding that field once as the string x agrees with them
      on a single read, but a multiple read goes through `get_all` and answers
      the one-element list [x] where the object and the dict answer x. */
  lemma ShapeInvariance(name: string, v: Value, multiple: bool)
    requires Truthy(v)
    ensures GetAttribute(MetaInfo(map[ReplaceDash(name) := v], None, None), name, multiple) == v
    ensures GetAttribute(MetaInfo(map[], Some(map[name := v]), None), name, multiple) == v
    ensures v.Str? ==> GetAttribute(MessageOf(name, [v.s]), name, multiple)
                       == (if multiple then List([v.s]) else v)
  {
  }

  /** A multiple read of a message gives every value of the repeated header,
      a single read only the first one. */
  lemma MessageReadsAllHeaders(name: string, xs: seq<string>)
    requires xs != [] && xs[0] != []
    ensures GetAttribute(MessageOf(name, xs), name, true) == List(xs)
    ensures GetAttribute(MessageOf(name, xs), name, false) == Str(xs[0])
  {
  }

  /** Dash rewriting applies to attributes only: a dict holding "Home_page"
      does not answer a lookup of "Home-page". */
  lemma DashRewriteOnlyForAttributes(v: Value)
    requires Truthy(v)
    ensures GetAttribute(MetaInfo(map["Home_page" := v], None, None), "Home-page", false) == v
    ensures GetAttribute(MetaInfo(map[], Some(map["Home_page" := v]), None), "Home-page", false) == Null
  {
    assert ReplaceDash("Home-page") == "Home_page";
    assert Lower("Home-page") == "home-page";
  }
}
