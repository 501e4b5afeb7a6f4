/** What the front-matter encoder emits, and the entry-level round trip:
    decoding the entries of an encoded header into the same defaults gives
    back the page's flags, `Help` and symbolic links. */
module FrontMatterLaws {
  import opened Text
  import opened Properties
  import opened FrontMatter

  // ------------------------------------------------------ emitted lines

  lemma {:induction false} PageLinesMember(page: Props, defaults: Props, keys: seq<string>, h: HeaderLine)
    requires forall k :: k in keys ==> k in page.values
    ensures h in PageLines(page, defaults, keys) <==> h.key in keys && h in PageLine(page, defaults, h.key)
  {
    if keys != [] {
      var init, last := keys[..|keys| - 1], keys[|keys| - 1];
      assert keys == init + [last];
      PageLinesMember(page, defaults, init, h);
      PageLineShape(page, defaults, last);
      assert PageLines(page, defaults, keys) == PageLines(page, defaults, init) + PageLine(page, defaults, last);
    }
  }

  lemma {:induction false} DefaultLinesMember(page: Props, keys: seq<string>, h: HeaderLine)
    ensures h in DefaultLines(page, keys) <==> h.key in keys && h in DefaultLine(page, h.key)
  {
    if keys != [] {
      var init, last := keys[..|keys| - 1], keys[|keys| - 1];
      assert keys == init + [last];
      DefaultLinesMember(page, init, h);
      DefaultLineShape(page, last);
      assert DefaultLines(page, keys) == DefaultLines(page, init) + DefaultLine(page, last);
    }
  }

  lemma HeaderLinesMember(page: Props, defaults: Props, h: HeaderLine)
    requires Valid(page) && Valid(defaults)
    ensures h in HeaderLines(page, defaults) <==>
      (h.key in page.values && h in PageLine(page, defaults, h.key)) ||
      (h.key in defaults.values && h in DefaultLine(page, h.key))
  {
    PageLinesMember(page, defaults, page.keys, h);
    DefaultLinesMember(page, defaults.keys, h);
  }

  lemma BareLine(page: Props, defaults: Props, k: string)
    requires Valid(page) && Valid(defaults)
    ensures Bare(k) in HeaderLines(page, defaults) <==>
      IsBooleanProperty(k) && k in page.values && k !in defaults.values
  {
    HeaderLinesMember(page, defaults, Bare(k));
  }

  lemma PairLine(page: Props, defaults: Props, k: string, v: string)
    requires Valid(page) && Valid(defaults)
    ensures Pair(k, v) in HeaderLines(page, defaults) <==>
      (k == HELP && k in page.values && v == page.values[k].text) ||
      (IsBooleanProperty(k) && k in defaults.values && k !in page.values && v == "no")
  {
    HelpIsNotFlag();
    HeaderLinesMember(page, defaults, Pair(k, v));
    if k in page.values {
      PagePairLine(page, defaults, k, v);
    }
  }

  lemma PagePairLine(page: Props, defaults: Props, k: string, v: string)
    requires k in page.values && !IsBooleanProperty(HELP)
    ensures Pair(k, v) in PageLine(page, defaults, k) <==> k == HELP && v == page.values[k].text
  {
  }

  lemma BlockLine(page: Props, defaults: Props, k: string, ls: seq<Link>)
    requires Valid(page) && Valid(defaults)
    ensures Block(k, ls) in HeaderLines(page, defaults) <==>
      k == SYMBOLIC_LINKS && k in page.values && ls == page.values[k].links
  {
    SymbolicLinksIsNotFlag();
    HeaderLinesMember(page, defaults, Block(k, ls));
    if k in page.values {
      PageBlockLine(page, defaults, k, ls);
    }
  }

  lemma PageBlockLine(page: Props, defaults: Props, k: string, ls: seq<Link>)
    requires k in page.values && !IsBooleanProperty(SYMBOLIC_LINKS)
    ensures Block(k, ls) in PageLine(page, defaults, k) <==> k == SYMBOLIC_LINKS && ls == page.values[k].links
  {
  }

  /** The header holds a bare `key` exactly for the flags the page has and
      the defaults lack, `Help: <value>` for the page's `Help`, `key: no`
      exactly for the inherited flags the page lacks, and the
      `SymbolicLinks` block for the page's links; nothing else. */
  lemma EncoderLines(page: Props, defaults: Props)
    requires Valid(page) && Valid(defaults)
    ensures forall k :: Bare(k) in HeaderLines(page, defaults) <==>
      IsBooleanProperty(k) && k in page.values && k !in defaults.values
    ensures forall k, v :: Pair(k, v) in HeaderLines(page, defaults) <==>
      (k == HELP && k in page.values && v == page.values[k].text) ||
      (IsBooleanProperty(k) && k in defaults.values && k !in page.values && v == "no")
    ensures forall k, ls :: Block(k, ls) in HeaderLines(page, defaults) <==>
      k == SYMBOLIC_LINKS && k in page.values && ls == page.values[k].links
  {
    forall k {
      BareLine(page, defaults, k);
    }
    forall k, v {
      PairLine(page, defaults, k, v);
    }
    forall k, ls {
      BlockLine(page, defaults, k, ls);
    }
  }

  /** Only flags, `Help` and `SymbolicLinks` are written; `Suites`, for one,
      never is. */
  lemma EncoderWritesOnlyKnownKeys(page: Props, defaults: Props)
    requires Valid(page) && Valid(defaults)
    ensures forall h :: h in HeaderLines(page, defaults) ==>
      IsBooleanProperty(h.key) || h.key == HELP || h.key == SYMBOLIC_LINKS
    ensures forall h :: h in HeaderLines(page, defaults) ==> h.key != SUITES
  {
    SuitesIsNotFlag();
    forall h | h in HeaderLines(page, defaults)
      ensures IsBooleanProperty(h.key) || h.key == HELP || h.key == SYMBOLIC_LINKS
    {
      HeaderLinesMember(page, defaults, h);
    }
  }

  /** The header is empty exactly when there are no lines; otherwise it is
      the lines, sorted, joined by newlines and fenced by `---`. */
  lemma EncoderFraming(page: Props, defaults: Props)
    requires Valid(page)
    ensures Yaml(page, defaults) == "" <==> HeaderLines(page, defaults) == []
    ensures HeaderLines(page, defaults) != [] ==>
      var sorted := Sort(Texts(HeaderLines(page, defaults)));
      && Sorted(sorted)
      && multiset(sorted) == multiset(Texts(HeaderLines(page, defaults)))
      && Yaml(page, defaults) == "---\n" + Join(sorted, '\n') + "\n---\n"
  {
    var lines := Texts(HeaderLines(page, defaults));
    assert |Sort(lines)| == |multiset(Sort(lines))| == |multiset(lines)| == |lines|;
  }

  /** Any sorted arrangement of the lines is the one the encoder writes. */
  lemma EncoderOrderIsCanonical(page: Props, defaults: Props, lines: seq<string>)
    requires Valid(page)
    requires Sorted(lines) && multiset(lines) == multiset(Texts(HeaderLines(page, defaults)))
    ensures Yaml(page, defaults) == Frame(lines)
  {
    SortedPermutationUnique(lines, Sort(Texts(HeaderLines(page, defaults))));
  }

  // ------------------------------------------------------ round trip

  lemma {:induction false} FilterAppend(a: seq<Item>, b: seq<Item>, key: string)
    ensures Filter(a + b, key) == Filter(a, key) + Filter(b, key)
  {
    if b != [] {
      var init, last := b[..|b| - 1], b[|b| - 1];
      FilterAppend(a, init, key);
      assert (a + b)[..|a + b| - 1] == a + init;
      assert (a + b)[|a + b| - 1] == last;
      var tail := if Mentions(last, key) then [last] else [];
      calc {
        Filter(a + b, key);
        Filter(a + init, key) + tail;
        Filter(a, key) + Filter(init, key) + tail;
        Filter(a, key) + (Filter(init, key) + tail);
      }
    } else {
      assert a + b == a;
    }
  }

  lemma AsItemsAppend(a: seq<HeaderLine>, b: seq<HeaderLine>)
    ensures AsItems(a + b) == AsItems(a) + AsItems(b)
  {
  }

  /** Appending at most one line, about `k`, adds its entry to the entries
      about `k` and nothing to those about any other key. */
  lemma FilterSnoc(prefix: seq<HeaderLine>, line: seq<HeaderLine>, k: string, key: string)
    requires |line| <= 1 && forall h :: h in line ==> h.key == k
    ensures Filter(AsItems(prefix + line), key) ==
      Filter(AsItems(prefix), key) + (if k == key then AsItems(line) else [])
  {
    AsItemsAppend(prefix, line);
    FilterAppend(AsItems(prefix), AsItems(line), key);
    if |line| == 1 {
      assert AsItems(line) == [AsItem(line[0])];
      assert AsItems(line)[..0] == [];
    } else {
      assert AsItems(line) == [];
    }
  }

  lemma PageLineShape(page: Props, defaults: Props, key: string)
    requires key in page.values
    ensures |PageLine(page, defaults, key)| <= 1
    ensures forall h :: h in PageLine(page, defaults, key) ==> h.key == key
  {
  }

  lemma DefaultLineShape(page: Props, key: string)
    ensures |DefaultLine(page, key)| <= 1
    ensures forall h :: h in DefaultLine(page, key) ==> h.key == key
    ensures DefaultLine(page, key) != [] ==> key !in page.values
  {
  }

  lemma {:induction false} FilterPageLines(page: Props, defaults: Props, keys: seq<string>, key: string)
    requires DistinctKeys(keys) && forall k :: k in keys ==> k in page.values
    ensures Filter(AsItems(PageLines(page, defaults, keys)), key) ==
      if key in keys then AsItems(PageLine(page, defaults, key)) else []
  {
    if keys != [] {
      var init, last := keys[..|keys| - 1], keys[|keys| - 1];
      assert keys == init + [last];
      assert DistinctKeys(init);
      assert last !in init;
      assert key in keys <==> key in init || key == last;
      assert PageLines(page, defaults, keys) == PageLines(page, defaults, init) + PageLine(page, defaults, last);
      FilterPageLines(page, defaults, init, key);
      PageLineShape(page, defaults, last);
      FilterSnoc(PageLines(page, defaults, init), PageLine(page, defaults, last), last, key);
    }
  }

  lemma {:induction false} FilterDefaultLines(page: Props, keys: seq<string>, key: string)
    requires DistinctKeys(keys)
    ensures Filter(AsItems(DefaultLines(page, keys)), key) ==
      if key in keys then AsItems(DefaultLine(page, key)) else []
  {
    if keys != [] {
      var init, last := keys[..|keys| - 1], keys[|keys| - 1];
      assert keys == init + [last];
      assert DistinctKeys(init);
      assert last !in init;
      assert key in keys <==> key in init || key == last;
      assert DefaultLines(page, keys) == DefaultLines(page, init) + DefaultLine(page, last);
      FilterDefaultLines(page, init, key);
      DefaultLineShape(page, last);
      FilterSnoc(DefaultLines(page, init), DefaultLine(page, last), last, key);
    }
  }

  /** The header lines about one key. */
  function LinesAbout(page: Props, defaults: Props, key: string): seq<HeaderLine>
  {
    (if key in page.values then PageLine(page, defaults, key) else []) +
    (if key in defaults.values then DefaultLine(page, key) else [])
  }

  lemma FilterHeader(page: Props, defaults: Props, key: string)
    requires Valid(page) && Valid(defaults)
    ensures Filter(AsItems(HeaderLines(page, defaults)), key) == AsItems(LinesAbout(page, defaults, key))
    ensures |LinesAbout(page, defaults, key)| <= 1
  {
    var pl, dl := PageLines(page, defaults, page.keys), DefaultLines(page, defaults.keys);
    assert HeaderLines(page, defaults) == pl + dl;
    AsItemsAppend(pl, dl);
    FilterAppend(AsItems(pl), AsItems(dl), key);
    FilterPageLines(page, defaults, page.keys, key);
    FilterDefaultLines(page, defaults.keys, key);
    var fromPage := if key in page.values then PageLine(page, defaults, key) else [];
    var fromDefaults := if key in defaults.values then DefaultLine(page, key) else [];
    assert LinesAbout(page, defaults, key) == fromPage + fromDefaults;
    AsItemsAppend(fromPage, fromDefaults);
    if key in page.values {
      PageLineShape(page, defaults, key);
    }
    DefaultLineShape(page, key);
    assert fromDefaults != [] ==> key !in page.values;
  }

  /** The value the round trip gives a key. */
  function Expected(page: Props, defaults: Props, key: string): Option<Value>
  {
    if IsBooleanProperty(key) then
      if key !in page.values then None
      else if key in defaults.values then Some(defaults.values[key])
      else Some(Value("", []))
    else if key == HELP && key in page.values then Some(Value(page.values[key].text, []))
    else if key == SYMBOLIC_LINKS && key in page.values then Some(Value("", page.values[key].links))
    else Lookup(defaults, key)
  }

  lemma NoIsFalsy()
    ensures IsFalsy("no")
  {
    assert ToLower("no") == "no";
    QualifiesAsMember("no", FALSY);
    assert FALSY[1] == "no";
  }

  lemma MergeOne(p: Props, h: HeaderLine)
    requires Valid(p)
    ensures Merge(p, AsItems([h])) == Apply(p, AsItem(h))
  {
    assert AsItems([h]) == [AsItem(h)];
    assert [AsItem(h)][..0] == [];
  }

  /** The lines about a flag: bare when the page adds it, `key: no` when
      the page drops an inherited one, none otherwise. */
  lemma FlagLinesAbout(page: Props, defaults: Props, key: string)
    requires IsBooleanProperty(key)
    ensures LinesAbout(page, defaults, key) ==
      if key in page.values then (if key in defaults.values then [] else [Bare(key)])
      else if key in defaults.values then [Pair(key, "no")] else []
  {
    HelpIsNotFlag();
    SymbolicLinksIsNotFlag();
  }

  lemma OtherLinesAbout(page: Props, defaults: Props, key: string)
    requires !IsBooleanProperty(key)
    ensures LinesAbout(page, defaults, key) ==
      if key == HELP && key in page.values then [Pair(key, page.values[key].text)]
      else if key == SYMBOLIC_LINKS && key in page.values then [Block(key, page.values[key].links)]
      else []
  {
  }

  lemma DecodeFlagLines(page: Props, defaults: Props, key: string)
    requires Valid(defaults) && IsBooleanProperty(key)
    ensures Lookup(Merge(defaults, AsItems(LinesAbout(page, defaults, key))), key) == Expected(page, defaults, key)
  {
    FlagLinesAbout(page, defaults, key);
    if key in page.values && key !in defaults.values {
      MergeOne(defaults, Bare(key));
      FlagDecoding(defaults, key, "", []);
    } else if key !in page.values && key in defaults.values {
      MergeOne(defaults, Pair(key, "no"));
      NoIsFalsy();
      FlagDecoding(defaults, key, "no", []);
    } else {
      assert AsItems([]) == [];
    }
  }

  lemma DecodeOtherLines(page: Props, defaults: Props, key: string)
    requires Valid(defaults) && !IsBooleanProperty(key)
    requires SYMBOLIC_LINKS in page.values ==> DistinctNames(page.values[SYMBOLIC_LINKS].links)
    ensures Lookup(Merge(defaults, AsItems(LinesAbout(page, defaults, key))), key) == Expected(page, defaults, key)
  {
    OtherLinesAbout(page, defaults, key);
    if key == HELP && key in page.values {
      DecodeHelpLine(defaults, key, page.values[key].text);
    } else if key == SYMBOLIC_LINKS && key in page.values {
      DecodeLinksLine(defaults, key, page.values[key].links);
    } else {
      assert AsItems([]) == [];
    }
  }

  lemma DecodeHelpLine(defaults: Props, key: string, text: string)
    requires Valid(defaults) && key == HELP && !IsBooleanProperty(key)
    ensures Lookup(Merge(defaults, AsItems([Pair(key, text)])), key) == Some(Value(text, []))
  {
    MergeOne(defaults, Pair(key, text));
    assert Apply(defaults, KeyValue(key, text, [])) == Set(defaults, key, Value(text, []));
  }

  lemma DecodeLinksLine(defaults: Props, key: string, links: seq<Link>)
    requires Valid(defaults) && key == SYMBOLIC_LINKS && !IsBooleanProperty(key) && DistinctNames(links)
    ensures Lookup(Merge(defaults, AsItems([Block(key, links)])), key) == Some(Value("", links))
  {
    var item := KeyValue(key, "", links);
    assert AsItem(Block(key, links)) == item;
    MergeOne(defaults, Block(key, links));
    assert key != HELP;
    assert Apply(defaults, item) == Set(defaults, key, Value("", AddLinks([], links)));
    AddDistinctLinks(links);
  }

  /** Decoding the lines about `key` into the defaults gives `Expected`. */
  lemma DecodeLinesAbout(page: Props, defaults: Props, key: string)
    requires Valid(defaults)
    requires SYMBOLIC_LINKS in page.values ==> DistinctNames(page.values[SYMBOLIC_LINKS].links)
    ensures Lookup(Merge(defaults, AsItems(LinesAbout(page, defaults, key))), key) == Expected(page, defaults, key)
  {
    if IsBooleanProperty(key) {
      DecodeFlagLines(page, defaults, key);
    } else {
      DecodeOtherLines(page, defaults, key);
    }
  }

  /** Entry-level round trip: decoding the encoder's entries, in any order
      (so also in the sorted order of the written lines), into the same
      defaults yields each key's `Expected` value. */
  lemma {:induction false} RoundTripAt(page: Props, defaults: Props, items: seq<Item>, key: string)
    requires Valid(page) && Valid(defaults)
    requires SYMBOLIC_LINKS in page.values ==> DistinctNames(page.values[SYMBOLIC_LINKS].links)
    requires multiset(items) == multiset(AsItems(HeaderLines(page, defaults)))
    ensures Lookup(Merge(defaults, items), key) == Expected(page, defaults, key)
  {
    FilterHeader(page, defaults, key);
    FilterOfPermutation(items, AsItems(HeaderLines(page, defaults)), key);
    MergeLocal(defaults, items, key);
    MergeLocal(defaults, AsItems(LinesAbout(page, defaults, key)), key);
    FilterOfPermutation(AsItems(LinesAbout(page, defaults, key)), AsItems(LinesAbout(page, defaults, key)), key);
    DecodeLinesAbout(page, defaults, key);
  }

  /** `r` holds exactly the page's flags (those that are new relative to
      the defaults blank, inherited ones with the default's value), the
      page's `Help` and the page's symbolic links; every other key has its
      default. */
  ghost predicate Restores(page: Props, defaults: Props, r: Props)
  {
    && (forall k :: IsBooleanProperty(k) ==> (k in r.values <==> k in page.values))
    && (forall k :: IsBooleanProperty(k) && k in page.values && k !in defaults.values ==>
         k in r.values && r.values[k] == Value("", []))
    && (forall k :: IsBooleanProperty(k) && k in page.values && k in defaults.values ==>
         Lookup(r, k) == Lookup(defaults, k))
    && (HELP in page.values ==> Lookup(r, HELP) == Some(Value(page.values[HELP].text, [])))
    && (SYMBOLIC_LINKS in page.values ==>
         Lookup(r, SYMBOLIC_LINKS) == Some(Value("", page.values[SYMBOLIC_LINKS].links)))
    && (forall k ::
         (!IsBooleanProperty(k) && (k != HELP || HELP !in page.values) &&
          (k != SYMBOLIC_LINKS || SYMBOLIC_LINKS !in page.values)) ==>
         Lookup(r, k) == Lookup(defaults, k))
  }

  /** Entry-level round trip: decoding the encoder's entries, in any order,
      into the same defaults restores the page. */
  lemma RoundTrip(page: Props, defaults: Props, items: seq<Item>)
    requires Valid(page) && Valid(defaults)
    requires SYMBOLIC_LINKS in page.values ==> DistinctNames(page.values[SYMBOLIC_LINKS].links)
    requires multiset(items) == multiset(AsItems(HeaderLines(page, defaults)))
    ensures Restores(page, defaults, Merge(defaults, items))
  {
    forall k | IsBooleanProperty(k) ensures k in Merge(defaults, items).values <==> k in page.values {
      RoundTripAt(page, defaults, items, k);
    }
    forall k | IsBooleanProperty(k) && k in page.values && k !in defaults.values
      ensures k in Merge(defaults, items).values && Merge(defaults, items).values[k] == Value("", [])
    {
      RoundTripAt(page, defaults, items, k);
    }
    forall k | IsBooleanProperty(k) && k in page.values && k in defaults.values
      ensures Lookup(Merge(defaults, items), k) == Lookup(defaults, k)
    {
      RoundTripAt(page, defaults, items, k);
    }
    HelpIsNotFlag();
    SymbolicLinksIsNotFlag();
    RoundTripAt(page, defaults, items, HELP);
    RoundTripAt(page, defaults, items, SYMBOLIC_LINKS);
    forall k | !IsBooleanProperty(k) && (k != HELP || HELP !in page.values) &&
      (k != SYMBOLIC_LINKS || SYMBOLIC_LINKS !in page.values)
      ensures Lookup(Merge(defaults, items), k) == Lookup(defaults, k)
    {
      RoundTripAt(page, defaults, items, k);
    }
  }

  // ------------------------------------------------------ re-encoding

  ghost predicate NoDup<T>(s: seq<T>)
  {
    forall i, j :: 0 <= i < j < |s| ==> s[i] != s[j]
  }

  lemma {:induction false} NoDupCount<T>(s: seq<T>, x: T)
    requires NoDup(s)
    ensures multiset(s)[x] == if x in s then 1 else 0
  {
    if s != [] {
      var init, last := s[..|s| - 1], s[|s| - 1];
      assert s == init + [last];
      assert NoDup(init);
      assert last !in init;
      NoDupCount(init, x);
    }
  }

  /** Two lists without repeats that hold the same elements are
      permutations of each other. */
  lemma DistinctSameMultiset<T>(a: seq<T>, b: seq<T>)
    requires NoDup(a) && NoDup(b) && forall x :: x in a <==> x in b
    ensures multiset(a) == multiset(b)
  {
    forall x ensures multiset(a)[x] == multiset(b)[x] {
      NoDupCount(a, x);
      NoDupCount(b, x);
    }
  }

  /** The texts of permuted lines are permuted texts. */
  lemma {:induction false} TextsPermutation(a: seq<HeaderLine>, b: seq<HeaderLine>)
    requires multiset(a) == multiset(b)
    ensures multiset(Texts(a)) == multiset(Texts(b))
    decreases |a|
  {
    if a == [] {
      assert |b| == |multiset(b)| == 0;
    } else {
      var init, last := a[..|a| - 1], a[|a| - 1];
      assert a == init + [last];
      assert last in multiset(b);
      var j :| 0 <= j < |b| && b[j] == last;
      var rest := b[..j] + b[j + 1..];
      assert b == b[..j] + [last] + b[j + 1..];
      assert multiset(rest) == multiset(b) - multiset{last};
      assert multiset(init) == multiset(a) - multiset{last};
      TextsPermutation(init, rest);
      TextsAppend(init, [last]);
      TextsAppend(b[..j], [last]);
      TextsAppend(b[..j] + [last], b[j + 1..]);
      TextsAppend(b[..j], b[j + 1..]);
      TextsOne(last);
    }
  }

  predicate DistinctLineKeys(hs: seq<HeaderLine>)
  {
    forall i, j :: 0 <= i < j < |hs| ==> hs[i].key != hs[j].key
  }

  lemma DistinctLineKeysAppend(a: seq<HeaderLine>, b: seq<HeaderLine>)
    requires DistinctLineKeys(a) && DistinctLineKeys(b)
    requires forall h, g :: h in a && g in b ==> h.key != g.key
    ensures DistinctLineKeys(a + b)
  {
    forall i, j | 0 <= i < j < |a + b| ensures (a + b)[i].key != (a + b)[j].key {
      if j >= |a| && i < |a| {
        assert (a + b)[i] == a[i] && (a + b)[j] == b[j - |a|];
      }
    }
  }

  lemma {:induction false} PageLinesKeys(page: Props, defaults: Props, keys: seq<string>)
    requires DistinctKeys(keys) && forall k :: k in keys ==> k in page.values
    ensures DistinctLineKeys(PageLines(page, defaults, keys))
    ensures forall h :: h in PageLines(page, defaults, keys) ==> h.key in keys
  {
    if keys != [] {
      var init, last := keys[..|keys| - 1], keys[|keys| - 1];
      assert keys == init + [last];
      assert DistinctKeys(init);
      assert last !in init;
      PageLinesKeys(page, defaults, init);
      PageLineShape(page, defaults, last);
      DistinctLineKeysAppend(PageLines(page, defaults, init), PageLine(page, defaults, last));
    }
  }

  lemma {:induction false} DefaultLinesKeys(page: Props, keys: seq<string>)
    requires DistinctKeys(keys)
    ensures DistinctLineKeys(DefaultLines(page, keys))
    ensures forall h :: h in DefaultLines(page, keys) ==> h.key in keys && h.key !in page.values
  {
    if keys != [] {
      var init, last := keys[..|keys| - 1], keys[|keys| - 1];
      assert keys == init + [last];
      assert DistinctKeys(init);
      assert last !in init;
      DefaultLinesKeys(page, init);
      DefaultLineShape(page, last);
      DistinctLineKeysAppend(DefaultLines(page, init), DefaultLine(page, last));
    }
  }

  /** No two header lines are about the same key. */
  lemma HeaderLinesDistinct(page: Props, defaults: Props)
    requires Valid(page) && Valid(defaults)
    ensures NoDup(HeaderLines(page, defaults))
  {
    PageLinesKeys(page, defaults, page.keys);
    DefaultLinesKeys(page, defaults.keys);
    DistinctLineKeysAppend(PageLines(page, defaults, page.keys), DefaultLines(page, defaults.keys));
  }

  lemma SameBareLine(page: Props, defaults: Props, r: Props, k: string)
    requires Valid(page) && Valid(defaults) && Valid(r)
    requires Lookup(r, k) == Expected(page, defaults, k)
    ensures Bare(k) in HeaderLines(r, defaults) <==> Bare(k) in HeaderLines(page, defaults)
  {
    BareLine(page, defaults, k);
    BareLine(r, defaults, k);
  }

  lemma SamePairLine(page: Props, defaults: Props, r: Props, k: string, v: string)
    requires Valid(page) && Valid(defaults) && Valid(r)
    requires HELP in defaults.values ==> HELP in page.values
    requires Lookup(r, k) == Expected(page, defaults, k)
    ensures Pair(k, v) in HeaderLines(r, defaults) <==> Pair(k, v) in HeaderLines(page, defaults)
  {
    HelpIsNotFlag();
    PairLine(page, defaults, k, v);
    PairLine(r, defaults, k, v);
  }

  lemma SameBlockLine(page: Props, defaults: Props, r: Props, k: string, ls: seq<Link>)
    requires Valid(page) && Valid(defaults) && Valid(r)
    requires SYMBOLIC_LINKS in defaults.values ==> SYMBOLIC_LINKS in page.values
    requires Lookup(r, k) == Expected(page, defaults, k)
    ensures Block(k, ls) in HeaderLines(r, defaults) <==> Block(k, ls) in HeaderLines(page, defaults)
  {
    SymbolicLinksIsNotFlag();
    BlockLine(page, defaults, k, ls);
    BlockLine(r, defaults, k, ls);
  }

  /** Two property sets that agree on `Expected` produce the same lines,
      provided the page holds `Help` and `SymbolicLinks` whenever the
      defaults do. */
  lemma SameHeaderLines(page: Props, defaults: Props, r: Props)
    requires Valid(page) && Valid(defaults) && Valid(r)
    requires HELP in defaults.values ==> HELP in page.values
    requires SYMBOLIC_LINKS in defaults.values ==> SYMBOLIC_LINKS in page.values
    requires forall k :: Lookup(r, k) == Expected(page, defaults, k)
    ensures forall h :: h in HeaderLines(r, defaults) <==> h in HeaderLines(page, defaults)
  {
    forall h ensures h in HeaderLines(r, defaults) <==> h in HeaderLines(page, defaults) {
      match h
      case Bare(k) => SameBareLine(page, defaults, r, k);
      case Pair(k, v) => SamePairLine(page, defaults, r, k, v);
      case Block(k, ls) => SameBlockLine(page, defaults, r, k, ls);
    }
  }

  /** Reading a header back and writing it again gives the same bytes, when
      the page holds `Help` and `SymbolicLinks` whenever the defaults do. */
  lemma ReencodeIdempotent(page: Props, defaults: Props, items: seq<Item>)
    requires Valid(page) && Valid(defaults)
    requires SYMBOLIC_LINKS in page.values ==> DistinctNames(page.values[SYMBOLIC_LINKS].links)
    requires HELP in defaults.values ==> HELP in page.values
    requires SYMBOLIC_LINKS in defaults.values ==> SYMBOLIC_LINKS in page.values
    requires multiset(items) == multiset(AsItems(HeaderLines(page, defaults)))
    ensures Yaml(Merge(defaults, items), defaults) == Yaml(page, defaults)
  {
    var r := Merge(defaults, items);
    forall k ensures Lookup(r, k) == Expected(page, defaults, k) {
      RoundTripAt(page, defaults, items, k);
    }
    SameHeaderLines(page, defaults, r);
    HeaderLinesDistinct(page, defaults);
    HeaderLinesDistinct(r, defaults);
    DistinctSameMultiset(HeaderLines(r, defaults), HeaderLines(page, defaults));
    TextsPermutation(HeaderLines(r, defaults), HeaderLines(page, defaults));
    SortedPermutationUnique(Sort(Texts(HeaderLines(r, defaults))), Sort(Texts(HeaderLines(page, defaults))));
  }
}
