/** A page's property tree (`WikiPageProperty`) and the flag classifiers of
    `WikiFilePage`. A property set is an ordered list of keys with a value
    per key; a value carries a text and, for `SymbolicLinks`, the ordered
    list of its link children. */
module Properties {
  import opened Text

  datatype Link = Link(name: string, path: string)

  datatype Value = Value(text: string, links: seq<Link>)

  /** `keys` is the iteration order of `keySet()`; `values` the children. */
  datatype Props = Props(keys: seq<string>, values: map<string, Value>)

  const HELP := "Help"
  const SYMBOLIC_LINKS := "SymbolicLinks"
  const SUITES := "Suites"
  const LAST_MODIFYING_USER := "LastModifyingUser"
  const TEST := "Test"
  const SUITE := "Suite"
  const STATIC := "Static"

  const PAGE_TYPE_ATTRIBUTES: seq<string> := [STATIC, TEST, SUITE]
  const NON_SECURITY_ATTRIBUTES: seq<string> :=
    ["Edit", "Versions", "Properties", "Refactor", "WhereUsed",
     "RecentChanges", "Files", "Search", "Prune"]
  const SECURITY_ATTRIBUTES: seq<string> := ["secure-read", "secure-write", "secure-test"]

  const TRUTHY: seq<string> := ["y", "yes", "t", "true", "1"]
  const FALSY: seq<string> := ["n", "no", "f", "false", "0"]

  predicate DistinctKeys(keys: seq<string>)
  {
    forall i, j :: 0 <= i < j < |keys| ==> keys[i] != keys[j]
  }

  /** The key list and the map describe the same keys, each once. */
  predicate Valid(p: Props)
  {
    DistinctKeys(p.keys) &&
    (forall k :: k in p.values ==> k in p.keys) && (forall k :: k in p.keys ==> k in p.values)
  }

  const Empty := Props([], map[])

  function Lookup(p: Props, key: string): Option<Value>
  {
    if key in p.values then Some(p.values[key]) else None
  }

  datatype Option<T> = None | Some(value: T)

  /** `WikiPageProperty.set(key, value)`: a new key goes last, an existing
      key keeps its place and gets the new value. */
  function Set(p: Props, key: string, v: Value): (r: Props)
    requires Valid(p)
    ensures Valid(r)
    ensures r.values == p.values[key := v]
    ensures key in p.values ==> r.keys == p.keys
    ensures key !in p.values ==> r.keys == p.keys + [key]
  {
    if key in p.values then Props(p.keys, p.values[key := v])
    else Props(p.keys + [key], p.values[key := v])
  }

  /** The keys other than `key`, in their order. */
  function Without(keys: seq<string>, key: string): (r: seq<string>)
    ensures forall k :: k in r <==> k in keys && k != key
    ensures DistinctKeys(keys) ==> DistinctKeys(r)
    ensures key !in keys ==> r == keys
  {
    if keys == [] then []
    else if keys[0] == key then Without(keys[1..], key)
    else
      var rest := Without(keys[1..], key);
      assert DistinctKeys(keys) ==> keys[0] !in keys[1..];
      assert key !in keys ==> keys == [keys[0]] + keys[1..];
      [keys[0]] + rest
  }

  /** Removing a key works piece by piece, so the other keys keep their
      relative order. */
  lemma {:induction false} WithoutConcat(a: seq<string>, b: seq<string>, key: string)
    ensures Without(a + b, key) == Without(a, key) + Without(b, key)
  {
    if a != [] {
      assert (a + b)[0] == a[0] && (a + b)[1..] == a[1..] + b;
      WithoutConcat(a[1..], b, key);
      if a[0] == key {
        assert Without(a + b, key) == Without(a[1..] + b, key);
        assert Without(a, key) == Without(a[1..], key);
      } else {
        assert Without(a + b, key) == [a[0]] + Without(a[1..] + b, key);
        assert Without(a, key) == [a[0]] + Without(a[1..], key);
      }
    } else {
      assert a + b == b;
    }
  }

  /** `WikiPageProperty.remove(key)`. */
  function Remove(p: Props, key: string): (r: Props)
    requires Valid(p)
    ensures Valid(r)
    ensures r.values == p.values - {key}
    ensures r.keys == Without(p.keys, key)
    ensures key !in p.values ==> r == p
  {
    Props(Without(p.keys, key), p.values - {key})
  }

  /** The names of a list of link children, in order. */
  function Names(links: seq<Link>): seq<string>
  {
    seq(|links|, i requires 0 <= i < |links| => links[i].name)
  }

  predicate DistinctNames(links: seq<Link>)
  {
    DistinctKeys(Names(links))
  }

  /** `symLinks.set(linkName, linkPath)` on the link children: an existing
      name keeps its place and gets the new path, a new name goes last. */
  function SetLink(links: seq<Link>, l: Link): (r: seq<Link>)
    ensures Names(r) == if l.name in Names(links) then Names(links) else Names(links) + [l.name]
    ensures l.name !in Names(links) ==> r == links + [l]
  {
    if links == [] then [l]
    else
      NamesCons(links[0], links[1..]);
      assert links == [links[0]] + links[1..];
      if links[0].name == l.name then
        NamesCons(l, links[1..]);
        [l] + links[1..]
      else
        var rest := SetLink(links[1..], l);
        NamesCons(links[0], rest);
        assert l.name !in Names(links[1..]) ==> [links[0]] + rest == links + [l];
        [links[0]] + rest
  }

  /** The link set is in the result; among distinct names the link of that
      name is replaced by the new one in its place, and every other link is
      kept where it was. */
  lemma SetLinkReplaces(links: seq<Link>, l: Link)
    ensures l in SetLink(links, l)
    ensures DistinctNames(links) ==>
      forall i :: 0 <= i < |links| ==> SetLink(links, l)[i] == if links[i].name == l.name then l else links[i]
  {
    SetLinkContains(links, l);
    if DistinctNames(links) {
      SetLinkDistinct(links, l);
    }
  }

  lemma {:induction false} SetLinkContains(links: seq<Link>, l: Link)
    ensures l in SetLink(links, l)
  {
    if links != [] && links[0].name != l.name {
      SetLinkContains(links[1..], l);
      assert SetLink(links, l) == [links[0]] + SetLink(links[1..], l);
    }
  }

  lemma {:induction false} SetLinkDistinct(links: seq<Link>, l: Link)
    requires DistinctNames(links)
    ensures forall i :: 0 <= i < |links| ==> SetLink(links, l)[i] == if links[i].name == l.name then l else links[i]
  {
    if links != [] {
      DistinctTail(links);
      if links[0].name == l.name {
        SetLinkAtHead(links, l);
      } else {
        SetLinkDistinct(links[1..], l);
        SetLinkPastHead(links, l);
      }
    }
  }

  /** The first link has the name being set, and no other link has it. */
  lemma SetLinkAtHead(links: seq<Link>, l: Link)
    requires links != [] && links[0].name == l.name
    requires forall i :: 1 <= i < |links| ==> links[i].name != links[0].name
    ensures forall i :: 0 <= i < |links| ==> SetLink(links, l)[i] == if links[i].name == l.name then l else links[i]
  {
    assert SetLink(links, l) == [l] + links[1..];
  }

  /** The first link has another name, and the rest already satisfies the
      replacement law. */
  lemma SetLinkPastHead(links: seq<Link>, l: Link)
    requires links != [] && links[0].name != l.name
    requires forall i :: 0 <= i < |links[1..]| ==>
      SetLink(links[1..], l)[i] == if links[1..][i].name == l.name then l else links[1..][i]
    ensures forall i :: 0 <= i < |links| ==> SetLink(links, l)[i] == if links[i].name == l.name then l else links[i]
  {
    var rest := SetLink(links[1..], l);
    assert SetLink(links, l) == [links[0]] + rest;
    forall i | 1 <= i < |links|
      ensures SetLink(links, l)[i] == if links[i].name == l.name then l else links[i]
    {
      assert SetLink(links, l)[i] == rest[i - 1] && links[1..][i - 1] == links[i];
    }
  }

  /** Without its first link a list with distinct names still has distinct
      names, none of them the first one's. */
  lemma DistinctTail(links: seq<Link>)
    requires links != [] && DistinctNames(links)
    ensures DistinctNames(links[1..])
    ensures forall i :: 1 <= i < |links| ==> links[i].name != links[0].name
  {
    assert forall i :: 0 <= i < |links| ==> Names(links)[i] == links[i].name;
    assert forall i :: 0 <= i < |links| - 1 ==> Names(links[1..])[i] == links[i + 1].name;
  }

  lemma NamesCons(l: Link, links: seq<Link>)
    ensures Names([l] + links) == [l.name] + Names(links)
  {
  }

  lemma SetLinkKeepsDistinct(links: seq<Link>, l: Link)
    requires DistinctNames(links)
    ensures DistinctNames(SetLink(links, l))
  {
  }

  /** The link children after setting each of `ls` in turn. */
  function AddLinks(base: seq<Link>, ls: seq<Link>): seq<Link>
  {
    if ls == [] then base else SetLink(AddLinks(base, ls[..|ls| - 1]), ls[|ls| - 1])
  }

  /** Setting links with pairwise different names one by one rebuilds the
      same list in the same order. */
  lemma {:induction false} AddDistinctLinks(ls: seq<Link>)
    requires DistinctNames(ls)
    ensures AddLinks([], ls) == ls
  {
    if ls != [] {
      var init, last := ls[..|ls| - 1], ls[|ls| - 1];
      assert init + [last] == ls;
      NamesSnoc(init, last);
      DistinctSnoc(Names(init), last.name);
      AddDistinctLinks(init);
    }
  }

  /** The names of `names` in the order of their first occurrence, each once. */
  function Dedup(names: seq<string>): seq<string>
  {
    if names == [] then []
    else
      var init, last := names[..|names| - 1], names[|names| - 1];
      if last in init then Dedup(init) else Dedup(init) + [last]
  }

  lemma {:induction false} DedupMembers(names: seq<string>)
    ensures forall n :: n in Dedup(names) <==> n in names
  {
    if names != [] {
      var init := names[..|names| - 1];
      DedupMembers(init);
      assert names == init + [names[|names| - 1]];
    }
  }

  /** The last of `ls` named `name`, if any. */
  function LastWith(ls: seq<Link>, name: string): Option<Link>
  {
    if ls == [] then None
    else if ls[|ls| - 1].name == name then Some(ls[|ls| - 1])
    else LastWith(ls[..|ls| - 1], name)
  }

  /** Setting links one by one into an empty list keeps one link per name,
      in the order the names first appear, and for each name the last link
      set under it. */
  lemma AddLinksLast(ls: seq<Link>)
    ensures DistinctNames(AddLinks([], ls))
    ensures Names(AddLinks([], ls)) == Dedup(Names(ls))
    ensures forall i :: 0 <= i < |AddLinks([], ls)| ==>
      LastWith(ls, AddLinks([], ls)[i].name) == Some(AddLinks([], ls)[i])
  {
    AddLinksDistinct(ls);
    AddLinksNames([], ls);
    AddLinksPaths([], ls);
  }

  lemma {:induction false} AddLinksNames(base: seq<Link>, ls: seq<Link>)
    requires base == []
    ensures Names(AddLinks(base, ls)) == Dedup(Names(ls))
  {
    if ls != [] {
      AddLinksNames(base, ls[..|ls| - 1]);
      AddLinksDistinct(ls[..|ls| - 1]);
      SetLinkNames(ls, AddLinks(base, ls[..|ls| - 1]));
    }
  }

  lemma {:induction false} AddLinksDistinct(ls: seq<Link>)
    ensures DistinctNames(AddLinks([], ls))
  {
    if ls != [] {
      AddLinksDistinct(ls[..|ls| - 1]);
      SetLinkKeepsDistinct(AddLinks([], ls[..|ls| - 1]), ls[|ls| - 1]);
    }
  }

  /** One step of `AddLinksNames`. */
  lemma SetLinkNames(ls: seq<Link>, a: seq<Link>)
    requires ls != [] && DistinctNames(a) && Names(a) == Dedup(Names(ls[..|ls| - 1]))
    ensures Names(SetLink(a, ls[|ls| - 1])) == Dedup(Names(ls))
  {
    var init, last := ls[..|ls| - 1], ls[|ls| - 1];
    assert ls == init + [last];
    NamesSnoc(init, last);
    DedupSnoc(Names(init), last.name);
    DedupMembers(Names(init));
  }

  lemma DedupSnoc(names: seq<string>, n: string)
    ensures Dedup(names + [n]) == if n in names then Dedup(names) else Dedup(names) + [n]
  {
    assert (names + [n])[..|names|] == names;
  }

  lemma {:induction false} AddLinksPaths(base: seq<Link>, ls: seq<Link>)
    requires base == []
    ensures forall i :: 0 <= i < |AddLinks(base, ls)| ==>
      LastWith(ls, AddLinks(base, ls)[i].name) == Some(AddLinks(base, ls)[i])
  {
    if ls != [] {
      AddLinksPaths(base, ls[..|ls| - 1]);
      AddLinksDistinct(ls[..|ls| - 1]);
      SetLinkPaths(ls, ls[|ls| - 1], AddLinks(base, ls[..|ls| - 1]));
    }
  }

  /** One step of `AddLinksPaths`: setting `last` keeps every link the last
      one of its name. */
  lemma SetLinkPaths(ls: seq<Link>, last: Link, a: seq<Link>)
    requires ls != [] && last == ls[|ls| - 1] && DistinctNames(a)
    requires forall i :: 0 <= i < |a| ==> LastWith(ls[..|ls| - 1], a[i].name) == Some(a[i])
    ensures forall i :: 0 <= i < |SetLink(a, last)| ==>
      LastWith(ls, SetLink(a, last)[i].name) == Some(SetLink(a, last)[i])
  {
    var init := ls[..|ls| - 1];
    assert ls == init + [last];
    var r := SetLink(a, last);
    SetLinkReplaces(a, last);
    forall i | 0 <= i < |r|
      ensures LastWith(init + [last], r[i].name) == Some(r[i])
    {
      LastWithSnoc(init, last, r[i].name);
      if i < |a| {
        assert r[i] == if a[i].name == last.name then last else a[i];
      } else {
        assert r == a + [last];
      }
    }
  }

  lemma LastWithSnoc(init: seq<Link>, last: Link, name: string)
    ensures LastWith(init + [last], name) == if name == last.name then Some(last) else LastWith(init, name)
  {
    assert (init + [last])[..|init|] == init;
  }

  lemma NamesSnoc(init: seq<Link>, last: Link)
    ensures Names(init + [last]) == Names(init) + [last.name]
  {
  }

  /** A list of distinct keys with one appended: the prefix is distinct and
      lacks the new key. */
  lemma DistinctSnoc(init: seq<string>, last: string)
    requires DistinctKeys(init + [last])
    ensures DistinctKeys(init) && last !in init
  {
    forall i, j | 0 <= i < j < |init| ensures init[i] != init[j] {
      assert (init + [last])[i] == init[i] && (init + [last])[j] == init[j];
    }
    forall i | 0 <= i < |init| ensures init[i] != last {
      assert (init + [last])[i] == init[i] && (init + [last])[|init|] == last;
    }
  }

  /** `qualifiesAs`: does `value` equal one of `qualifiers`? */
  predicate QualifiesAs(value: string, qualifiers: seq<string>)
  {
    if qualifiers == [] then false
    else if qualifiers[0] == value then true
    else QualifiesAs(value, qualifiers[1..])
  }

  /** The search loop of `qualifiesAs` is list membership. */
  lemma {:induction false} QualifiesAsMember(value: string, qualifiers: seq<string>)
    ensures QualifiesAs(value, qualifiers) <==> value in qualifiers
  {
    if qualifiers != [] && qualifiers[0] != value {
      QualifiesAsMember(value, qualifiers[1..]);
      assert qualifiers == [qualifiers[0]] + qualifiers[1..];
    }
  }

  /** A flag key is one of the three attribute lists. */
  lemma BooleanPropertyMember(key: string)
    ensures IsBooleanProperty(key) <==>
      key in PAGE_TYPE_ATTRIBUTES || key in NON_SECURITY_ATTRIBUTES || key in SECURITY_ATTRIBUTES
  {
    QualifiesAsMember(key, PAGE_TYPE_ATTRIBUTES);
    QualifiesAsMember(key, NON_SECURITY_ATTRIBUTES);
    QualifiesAsMember(key, SECURITY_ATTRIBUTES);
  }

  /** A page-type, non-security or security attribute: a flag key. */
  predicate IsBooleanProperty(key: string)
  {
    QualifiesAs(key, PAGE_TYPE_ATTRIBUTES) ||
    QualifiesAs(key, NON_SECURITY_ATTRIBUTES) ||
    QualifiesAs(key, SECURITY_ATTRIBUTES)
  }

  predicate IsTruthy(value: string)
  {
    QualifiesAs(ToLower(value), TRUTHY)
  }

  predicate IsFalsy(value: string)
  {
    QualifiesAs(ToLower(value), FALSY)
  }

  /** `isBlank`: nothing but characters that `String.trim` removes. */
  predicate IsBlank(value: string)
  {
    forall i :: 0 <= i < |value| ==> value[i] <= ' '
  }

  /** The keys the codec treats specially are not flags. */
  lemma HelpIsNotFlag()
    ensures !IsBooleanProperty(HELP)
  {
    BooleanPropertyMember(HELP);
    assert HELP !in PAGE_TYPE_ATTRIBUTES && HELP !in SECURITY_ATTRIBUTES;
    assert HELP !in NON_SECURITY_ATTRIBUTES;
  }

  lemma SymbolicLinksIsNotFlag()
    ensures !IsBooleanProperty(SYMBOLIC_LINKS)
  {
    BooleanPropertyMember(SYMBOLIC_LINKS);
    assert SYMBOLIC_LINKS !in PAGE_TYPE_ATTRIBUTES && SYMBOLIC_LINKS !in SECURITY_ATTRIBUTES;
    assert SYMBOLIC_LINKS !in NON_SECURITY_ATTRIBUTES;
  }

  lemma SuitesIsNotFlag()
    ensures !IsBooleanProperty(SUITES)
  {
    BooleanPropertyMember(SUITES);
    assert SUITES !in PAGE_TYPE_ATTRIBUTES && SUITES !in SECURITY_ATTRIBUTES;
    assert SUITES !in NON_SECURITY_ATTRIBUTES;
  }

  lemma PageTypesAreFlags()
    ensures IsBooleanProperty(TEST) && IsBooleanProperty(SUITE) && IsBooleanProperty(STATIC)
  {
    BooleanPropertyMember(TEST);
    BooleanPropertyMember(SUITE);
    BooleanPropertyMember(STATIC);
    assert PAGE_TYPE_ATTRIBUTES[1] == TEST && PAGE_TYPE_ATTRIBUTES[2] == SUITE;
  }

  /** No value is both truthy (or blank) and falsy, so the decoder's
      branches are exclusive. */
  lemma FlagValuesExclusive(value: string)
    ensures !(IsTruthy(value) && IsFalsy(value))
    ensures !(IsBlank(value) && IsFalsy(value))
  {
    var low := ToLower(value);
    QualifiesAsMember(low, TRUTHY);
    QualifiesAsMember(low, FALSY);
    TruthyNotFalsy(low);
    if IsBlank(value) {
      BlankNotFalsy(value);
    }
  }

  lemma TruthyNotFalsy(low: string)
    ensures !(low in TRUTHY && low in FALSY)
  {
    assert forall t :: t in TRUTHY ==> t !in FALSY;
  }

  lemma BlankNotFalsy(value: string)
    requires IsBlank(value)
    ensures ToLower(value) !in FALSY
  {
    var low := ToLower(value);
    assert forall t :: t in FALSY ==> |t| > 0 && t[0] > ' ';
    assert |low| == 0 || low[0] <= ' ';
  }

  /** The classifiers ignore letter case: a value is truthy exactly when its
      lower-cased form is listed, and upper- or lower-casing it first changes
      nothing. */
  lemma TruthyIgnoresCase(value: string)
    ensures IsTruthy(value) <==> ToLower(value) in TRUTHY
    ensures IsTruthy(ToUpper(value)) <==> IsTruthy(value)
    ensures IsTruthy(ToLower(value)) <==> IsTruthy(value)
  {
    QualifiesAsMember(ToLower(value), TRUTHY);
    LowerForgetsCase(value);
  }

  lemma FalsyIgnoresCase(value: string)
    ensures IsFalsy(value) <==> ToLower(value) in FALSY
    ensures IsFalsy(ToUpper(value)) <==> IsFalsy(value)
    ensures IsFalsy(ToLower(value)) <==> IsFalsy(value)
  {
    QualifiesAsMember(ToLower(value), FALSY);
    LowerForgetsCase(value);
  }

  /** A value that is neither blank, truthy nor falsy. */
  lemma OtherValue()
    ensures !IsBlank("maybe") && !IsTruthy("maybe") && !IsFalsy("maybe")
  {
    assert "maybe"[0] == 'm';
    assert ToLower("maybe") == "maybe";
    QualifiesAsMember("maybe", TRUTHY);
    QualifiesAsMember("maybe", FALSY);
    assert "maybe" !in TRUTHY && "maybe" !in FALSY;
  }
}
