/** The front-matter codec of `WikiFilePage`: `mergeWikiPageProperties`
    folds the parsed key/value entries of a page file's header into a copy
    of the default properties, and `propertiesYaml` writes a property set,
    relative to the defaults, as a sorted header fenced by `---` lines. */
module FrontMatter {
  import opened Text
  import opened Properties

  /** A child of the FrontMatter symbol: a key/value entry (for
      `SymbolicLinks`, with its indented `name: path` entries), or any other
      symbol, which the decoder skips. */
  datatype Item = KeyValue(key: string, value: string, links: seq<Link>) | OtherSymbol

  // ---------------------------------------------------------------- decoder

  /** The decoder's effect of one entry. */
  function Apply(p: Props, item: Item): (r: Props)
    requires Valid(p)
    ensures Valid(r)
  {
    match item
    case OtherSymbol => p
    case KeyValue(key, value, links) =>
      if IsBooleanProperty(key) then
        if IsBlank(value) || IsTruthy(value) then Set(p, key, Value(value, []))
        else if IsFalsy(value) then Remove(p, key)
        else p
      else if key == HELP then Set(p, key, Value(value, []))
      else if key == SYMBOLIC_LINKS then Set(p, key, Value("", AddLinks([], links)))
      else p
  }

  /** The properties after folding all of `items`, first to last, into `p`. */
  function Merge(p: Props, items: seq<Item>): (r: Props)
    requires Valid(p)
    ensures Valid(r)
  {
    if items == [] then p else Apply(Merge(p, items[..|items| - 1]), items[|items| - 1])
  }

  /** `mergeWikiPageProperties`: updates a copy of the defaults entry by entry. */
  method MergeWikiPageProperties(properties: Props, frontMatter: seq<Item>) returns (r: Props)
    requires Valid(properties)
    ensures r == Merge(properties, frontMatter)
  {
    r := properties;
    var i := 0;
    while i < |frontMatter|
      invariant 0 <= i <= |frontMatter|
      invariant r == Merge(properties, frontMatter[..i])
    {
      assert frontMatter[..i + 1][..i] == frontMatter[..i];
      r := MergeEntry(r, frontMatter[i]);
      i := i + 1;
    }
    assert frontMatter[..i] == frontMatter;
  }

  /** The body of the decoder's loop, for one child of the FrontMatter symbol. */
  method MergeEntry(properties: Props, keyValue: Item) returns (r: Props)
    requires Valid(properties)
    ensures r == Apply(properties, keyValue)
  {
    r := properties;
    if keyValue.KeyValue? {
      var key, value := keyValue.key, keyValue.value;
      if IsBooleanProperty(key) {
        if IsBlank(value) || IsTruthy(value) {
          r := Set(r, key, Value(value, []));
        } else if IsFalsy(value) {
          r := Remove(r, key);
        }
      } else if key == HELP {
        r := Set(r, key, Value(value, []));
      } else if key == SYMBOLIC_LINKS {
        var symLinks := CollectLinks(keyValue.links);
        r := Set(r, key, Value("", symLinks));
      }
    }
  }

  /** Sets the link entries of a `SymbolicLinks` entry one by one into a
      fresh sub-property. */
  method CollectLinks(links: seq<Link>) returns (symLinks: seq<Link>)
    ensures symLinks == AddLinks([], links)
  {
    symLinks := [];
    var j := 0;
    while j < |links|
      invariant 0 <= j <= |links|
      invariant symLinks == AddLinks([], links[..j])
    {
      assert links[..j + 1][..j] == links[..j];
      symLinks := SetLink(symLinks, links[j]);
      j := j + 1;
    }
    assert links[..j] == links;
  }

  /** A flag entry sets its key for a blank or truthy value, removes it for a
      falsy one and is ignored otherwise; no other key changes. */
  lemma FlagDecoding(p: Props, key: string, value: string, links: seq<Link>)
    requires Valid(p) && IsBooleanProperty(key)
    ensures forall k :: k != key ==> Lookup(Apply(p, KeyValue(key, value, links)), k) == Lookup(p, k)
    ensures IsBlank(value) || IsTruthy(value) ==>
      Lookup(Apply(p, KeyValue(key, value, links)), key) == Some(Value(value, []))
    ensures IsFalsy(value) ==> Lookup(Apply(p, KeyValue(key, value, links)), key) == None
    ensures !IsBlank(value) && !IsTruthy(value) && !IsFalsy(value) ==>
      Apply(p, KeyValue(key, value, links)) == p
  {
    FlagValuesExclusive(value);
  }

  /** `Help` is stored verbatim, `SymbolicLinks` becomes the sub-property of
      its link entries, and any other non-flag key is ignored. */
  lemma OtherKeyDecoding(p: Props, key: string, value: string, links: seq<Link>)
    requires Valid(p) && !IsBooleanProperty(key)
    ensures forall k :: k != key ==> Lookup(Apply(p, KeyValue(key, value, links)), k) == Lookup(p, k)
    ensures key == HELP ==> Lookup(Apply(p, KeyValue(key, value, links)), key) == Some(Value(value, []))
    ensures key == SYMBOLIC_LINKS ==>
      var v := Lookup(Apply(p, KeyValue(key, value, links)), key);
      && v.Some? && v.value.text == ""
      && Names(v.value.links) == Dedup(Names(links))
      && forall i :: 0 <= i < |v.value.links| ==> LastWith(links, v.value.links[i].name) == Some(v.value.links[i])
    ensures key == SYMBOLIC_LINKS && DistinctNames(links) ==>
      Lookup(Apply(p, KeyValue(key, value, links)), key) == Some(Value("", links))
    ensures key != HELP && key != SYMBOLIC_LINKS ==> Apply(p, KeyValue(key, value, links)) == p
  {
    if key == SYMBOLIC_LINKS {
      SymbolicLinksDecoding(p, key, value, links);
    }
  }

  lemma SymbolicLinksDecoding(p: Props, key: string, value: string, links: seq<Link>)
    requires Valid(p) && key == SYMBOLIC_LINKS
    ensures Lookup(Apply(p, KeyValue(key, value, links)), key) == Some(Value("", AddLinks([], links)))
    ensures DistinctNames(links) ==> AddLinks([], links) == links
    ensures Names(AddLinks([], links)) == Dedup(Names(links))
    ensures forall i :: 0 <= i < |AddLinks([], links)| ==>
      LastWith(links, AddLinks([], links)[i].name) == Some(AddLinks([], links)[i])
  {
    SymbolicLinksIsNotFlag();
    AddLinksLast(links);
    if DistinctNames(links) {
      AddDistinctLinks(links);
    }
  }

  predicate Mentions(item: Item, key: string)
  {
    item.KeyValue? && item.key == key
  }

  /** The entries of `items` about `key`, in order. */
  function Filter(items: seq<Item>, key: string): seq<Item>
  {
    if items == [] then []
    else
      var last := items[|items| - 1];
      Filter(items[..|items| - 1], key) + (if Mentions(last, key) then [last] else [])
  }

  lemma ApplyElsewhere(p: Props, item: Item, key: string)
    requires Valid(p) && !Mentions(item, key)
    ensures Lookup(Apply(p, item), key) == Lookup(p, key)
  {
  }

  lemma ApplyLocal(p: Props, q: Props, item: Item, key: string)
    requires Valid(p) && Valid(q) && Mentions(item, key) && Lookup(p, key) == Lookup(q, key)
    ensures Lookup(Apply(p, item), key) == Lookup(Apply(q, item), key)
  {
  }

  /** What the decoder does to one key depends only on the entries about
      that key. */
  lemma {:induction false} MergeLocal(p: Props, items: seq<Item>, key: string)
    requires Valid(p)
    ensures Lookup(Merge(p, items), key) == Lookup(Merge(p, Filter(items, key)), key)
  {
    if items != [] {
      var init, last := items[..|items| - 1], items[|items| - 1];
      MergeLocal(p, init, key);
      var f := Filter(init, key);
      if Mentions(last, key) {
        assert (f + [last])[..|f|] == f;
        ApplyLocal(Merge(p, init), Merge(p, f), last, key);
      } else {
        assert f + [] == f;
        ApplyElsewhere(Merge(p, init), last, key);
      }
    }
  }

  lemma {:induction false} FilterCount(items: seq<Item>, key: string, x: Item)
    ensures multiset(Filter(items, key))[x] == if Mentions(x, key) then multiset(items)[x] else 0
  {
    if items != [] {
      var init, last := items[..|items| - 1], items[|items| - 1];
      FilterCount(init, key, x);
      assert items == init + [last];
    }
  }

  /** A list with at most one entry about `key` determines the entries about
      `key` of every permutation of it. */
  lemma FilterOfPermutation(items: seq<Item>, ref: seq<Item>, key: string)
    requires multiset(items) == multiset(ref) && |Filter(ref, key)| <= 1
    ensures Filter(items, key) == Filter(ref, key)
  {
    var a, b := Filter(items, key), Filter(ref, key);
    FilteredMultisets(items, ref, key);
    SmallSeqOfMultiset(a, b);
  }

  lemma FilteredMultisets(items: seq<Item>, ref: seq<Item>, key: string)
    requires multiset(items) == multiset(ref)
    ensures multiset(Filter(items, key)) == multiset(Filter(ref, key))
  {
    forall x ensures multiset(Filter(items, key))[x] == multiset(Filter(ref, key))[x] {
      FilterCount(items, key, x);
      FilterCount(ref, key, x);
    }
  }

  lemma SmallSeqOfMultiset<T>(a: seq<T>, b: seq<T>)
    requires multiset(a) == multiset(b) && |b| <= 1
    ensures a == b
  {
    assert |a| == |multiset(a)| == |multiset(b)| == |b|;
    if |b| == 1 {
      assert a[0] in multiset(b);
    }
  }

  // ---------------------------------------------------------------- encoder

  /** A header line as the encoder writes it: a bare flag, `key: value`, or
      the `SymbolicLinks` block with its indented links. */
  datatype HeaderLine = Bare(key: string) | Pair(key: string, value: string) | Block(key: string, links: seq<Link>)

  function LinksText(links: seq<Link>): string
  {
    if links == [] then ""
    else
      var last := links[|links| - 1];
      LinksText(links[..|links| - 1]) + "\n  " + last.name + ": " + last.path
  }

  function LineText(h: HeaderLine): string
  {
    match h
    case Bare(k) => k
    case Pair(k, v) => k + ": " + v
    case Block(k, links) => k + LinksText(links)
  }

  /** The entry the front-matter grammar reads back from a header line. */
  function AsItem(h: HeaderLine): Item
  {
    match h
    case Bare(k) => KeyValue(k, "", [])
    case Pair(k, v) => KeyValue(k, v, [])
    case Block(k, links) => KeyValue(k, "", links)
  }

  function Texts(hs: seq<HeaderLine>): seq<string>
  {
    seq(|hs|, i requires 0 <= i < |hs| => LineText(hs[i]))
  }

  function AsItems(hs: seq<HeaderLine>): seq<Item>
  {
    seq(|hs|, i requires 0 <= i < |hs| => AsItem(hs[i]))
  }

  /** The line written for a key of the page's own properties, if any. */
  function PageLine(page: Props, defaults: Props, key: string): seq<HeaderLine>
    requires key in page.values
  {
    if IsBooleanProperty(key) && key !in defaults.values then [Bare(key)]
    else if key == HELP then [Pair(key, page.values[key].text)]
    else if key == SYMBOLIC_LINKS then [Block(key, page.values[key].links)]
    else []
  }

  /** The line written for a key of the defaults: `key: no` for an inherited
      flag the page does not have. */
  function DefaultLine(page: Props, key: string): seq<HeaderLine>
  {
    if IsBooleanProperty(key) && key !in page.values then [Pair(key, "no")] else []
  }

  function PageLines(page: Props, defaults: Props, keys: seq<string>): seq<HeaderLine>
    requires forall k :: k in keys ==> k in page.values
  {
    if keys == [] then []
    else PageLines(page, defaults, keys[..|keys| - 1]) + PageLine(page, defaults, keys[|keys| - 1])
  }

  function DefaultLines(page: Props, keys: seq<string>): seq<HeaderLine>
  {
    if keys == [] then []
    else DefaultLines(page, keys[..|keys| - 1]) + DefaultLine(page, keys[|keys| - 1])
  }

  /** The header lines in the order `propertiesYaml` collects them. */
  function HeaderLines(page: Props, defaults: Props): seq<HeaderLine>
    requires Valid(page)
  {
    PageLines(page, defaults, page.keys) + DefaultLines(page, defaults.keys)
  }

  function Frame(lines: seq<string>): string
  {
    if lines == [] then "" else "---\n" + Join(lines, '\n') + "\n---\n"
  }

  /** The header `propertiesYaml` writes for `page` relative to `defaults`. */
  function Yaml(page: Props, defaults: Props): string
    requires Valid(page)
  {
    Frame(Sort(Texts(HeaderLines(page, defaults))))
  }

  lemma TextsOne(h: HeaderLine)
    ensures Texts([h]) == [LineText(h)]
  {
  }

  lemma TextsAppend(hs: seq<HeaderLine>, extra: seq<HeaderLine>)
    ensures Texts(hs + extra) == Texts(hs) + Texts(extra)
  {
  }

  lemma TextsSnoc(hs: seq<HeaderLine>, extra: seq<HeaderLine>)
    requires |extra| <= 1
    ensures Texts(hs + extra) == Texts(hs) + Texts(extra)
  {
  }

  /** `propertiesYaml`: collects the lines in a list, sorts them and frames
      them. */
  method PropertiesYaml(pageProperties: Props, defaultProperties: Props) returns (yaml: string)
    requires Valid(pageProperties)
    ensures yaml == Yaml(pageProperties, defaultProperties)
  {
    var fromPage := CollectPageLines(pageProperties, defaultProperties);
    var fromDefaults := CollectDefaultLines(pageProperties, defaultProperties.keys);
    var lines := fromPage + fromDefaults;
    TextsAppend(PageLines(pageProperties, defaultProperties, pageProperties.keys),
                DefaultLines(pageProperties, defaultProperties.keys));
    var sorted := Sort(lines);
    yaml := if |sorted| == 0 then "" else "---\n" + Join(sorted, '\n') + "\n---\n";
  }

  /** The encoder's first loop, over the keys of the page's properties. */
  method CollectPageLines(pageProperties: Props, defaultProperties: Props) returns (lines: seq<string>)
    requires Valid(pageProperties)
    ensures lines == Texts(PageLines(pageProperties, defaultProperties, pageProperties.keys))
  {
    lines := [];
    var keys := pageProperties.keys;
    var i := 0;
    while i < |keys|
      invariant 0 <= i <= |keys|
      invariant lines == Texts(PageLines(pageProperties, defaultProperties, keys[..i]))
    {
      assert keys[..i + 1][..i] == keys[..i];
      TextsSnoc(PageLines(pageProperties, defaultProperties, keys[..i]),
                PageLine(pageProperties, defaultProperties, keys[i]));
      lines := AddPageLine(lines, pageProperties, defaultProperties, keys[i]);
      i := i + 1;
    }
    assert keys[..i] == keys;
  }

  /** The encoder's second loop, over the keys of the defaults. */
  method CollectDefaultLines(pageProperties: Props, defaultKeys: seq<string>) returns (lines: seq<string>)
    ensures lines == Texts(DefaultLines(pageProperties, defaultKeys))
  {
    lines := [];
    var i := 0;
    while i < |defaultKeys|
      invariant 0 <= i <= |defaultKeys|
      invariant lines == Texts(DefaultLines(pageProperties, defaultKeys[..i]))
    {
      assert defaultKeys[..i + 1][..i] == defaultKeys[..i];
      TextsSnoc(DefaultLines(pageProperties, defaultKeys[..i]), DefaultLine(pageProperties, defaultKeys[i]));
      lines := AddDefaultLine(lines, pageProperties, defaultKeys[i]);
      i := i + 1;
    }
    assert defaultKeys[..i] == defaultKeys;
  }

  /** The body of the encoder's first loop, for one key of the page. */
  method AddPageLine(lines: seq<string>, pageProperties: Props, defaultProperties: Props, key: string)
    returns (r: seq<string>)
    requires key in pageProperties.values
    ensures r == lines + Texts(PageLine(pageProperties, defaultProperties, key))
  {
    r := lines;
    if IsBooleanProperty(key) && key !in defaultProperties.values {
      r := r + [key];
    } else if key == HELP {
      r := r + [key + ": " + pageProperties.values[key].text];
    } else if key == SYMBOLIC_LINKS {
      var builder := SymbolicLinksBlock(key, pageProperties.values[key].links);
      r := r + [builder];
    }
  }

  /** The body of the encoder's second loop, for one key of the defaults. */
  method AddDefaultLine(lines: seq<string>, pageProperties: Props, key: string) returns (r: seq<string>)
    ensures r == lines + Texts(DefaultLine(pageProperties, key))
  {
    r := lines;
    if IsBooleanProperty(key) && key !in pageProperties.values {
      TextsOne(Pair(key, "no"));
      assert ": " + "no" == ": no";
      assert key + ": " + "no" == key + ": no";
      r := r + [key + ": no"];
    } else {
      assert Texts([]) == [];
    }
  }

  /** The string builder of the `SymbolicLinks` line. */
  method SymbolicLinksBlock(key: string, symLinks: seq<Link>) returns (builder: string)
    ensures builder == key + LinksText(symLinks)
  {
    builder := key;
    var j := 0;
    while j < |symLinks|
      invariant 0 <= j <= |symLinks|
      invariant builder == key + LinksText(symLinks[..j])
    {
      assert symLinks[..j + 1][..j] == symLinks[..j];
      builder := builder + "\n  " + symLinks[j].name + ": " + symLinks[j].path;
      j := j + 1;
    }
    assert symLinks[..j] == symLinks;
  }
}
