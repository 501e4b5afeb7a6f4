/** `WikiFilePage`: a page stored as one `<path>.wiki` file whose text is
    the front-matter header followed by the wiki content. The page caches
    the data it loads, writes new revisions through its versions
    controller and finds its children through its sub-wiki page factory. */
module FilePage {
  import opened Text
  import opened Properties
  import opened FrontMatter
  import opened FrontMatterLaws
  import opened Versions

  const FILE_EXTENSION := ".wiki"

  /** `wikiFile()`: the page's own file, next to its folder of children. */
  function WikiFile(path: string): (file: string)
    ensures |file| == |path| + |FILE_EXTENSION|
    ensures file[..|path|] == path && file[|path|..] == FILE_EXTENSION
  {
    path + FILE_EXTENSION
  }

  /** Different pages have different files. */
  lemma WikiFileInjective(a: string, b: string)
    requires WikiFile(a) == WikiFile(b)
    ensures a == b
  {
    assert a == WikiFile(a)[..|a|];
    assert b == WikiFile(b)[..|b|];
  }

  /** A page's file is never inside its own folder of children. */
  lemma WikiFileOutsideFolder(path: string)
    ensures !IsPrefix(path + "/", WikiFile(path))
  {
    var file, folder := WikiFile(path), path + "/";
    assert file[|path|] == '.' && folder[|path|] == '/';
    assert |folder| <= |file| ==> file[..|folder|][|path|] != folder[|path|];
  }

  datatype PageData = PageData(content: string, properties: Props)

  /** A top-level symbol of a parsed page file: the front matter with its
      entries, or text. */
  datatype Symbol = FrontMatterSymbol(entries: seq<Item>, content: string) | TextSymbol(content: string)

  /** The parse step of `getDataVersion`: with exactly a front-matter symbol
      and one more symbol, the entries are merged into the defaults and the
      content is that second symbol's; otherwise the defaults and the whole
      text. */
  function LoadData(text: string, tree: seq<Symbol>, defaults: Props): (d: PageData)
    requires Valid(defaults)
    ensures Valid(d.properties)
  {
    if |tree| == 2 && tree[0].FrontMatterSymbol? then
      PageData(tree[1].content, Merge(defaults, tree[0].entries))
    else
      PageData(text, defaults)
  }

  /** `data.getAttribute(LastModifyingUser)`. */
  function Author(properties: Props): (r: Option<string>)
    ensures r.Some? <==> LAST_MODIFYING_USER in properties.values
    ensures r.Some? ==> r.value == properties.values[LAST_MODIFYING_USER].text
  {
    match Lookup(properties, LAST_MODIFYING_USER)
    case None => None
    case Some(v) => Some(v.text)
  }

  /** What the wikitext parser must do with a file the page wrote, for the
      page to read back what it wrote: split it into the header's entries,
      in some order, and the content; or, when there is no header at all,
      not find a front-matter shape. */
  ghost predicate ParsesBack(parse: string -> seq<Symbol>, page: Props, defaults: Props, body: string)
    requires Valid(page)
  {
    var tree := parse(Yaml(page, defaults) + body);
    (|tree| == 2 && tree[0].FrontMatterSymbol? &&
     multiset(tree[0].entries) == multiset(AsItems(HeaderLines(page, defaults))) &&
     tree[1].content == body) ||
    (HeaderLines(page, defaults) == [] && !(|tree| == 2 && tree[0].FrontMatterSymbol?))
  }

  /** Loading the text written for `page` and `body` gives back the content
      and restores the page's properties. */
  lemma CommitThenLoad(parse: string -> seq<Symbol>, page: Props, defaults: Props, body: string)
    requires Valid(page) && Valid(defaults)
    requires SYMBOLIC_LINKS in page.values ==> DistinctNames(page.values[SYMBOLIC_LINKS].links)
    requires ParsesBack(parse, page, defaults, body)
    ensures LoadData(Yaml(page, defaults) + body, parse(Yaml(page, defaults) + body), defaults).content == body
    ensures Restores(page, defaults,
      LoadData(Yaml(page, defaults) + body, parse(Yaml(page, defaults) + body), defaults).properties)
  {
    var text := Yaml(page, defaults) + body;
    var tree := parse(text);
    if |tree| == 2 && tree[0].FrontMatterSymbol? {
      RoundTrip(page, defaults, tree[0].entries);
    } else {
      EncoderFraming(page, defaults);
      assert text == body;
      assert AsItems([]) == [];
      RoundTrip(page, defaults, []);
    }
  }

  /** The case `ParsesBack` leaves out: a page that writes no header, whose
      content itself parses as a front matter and a shorter rest, does not
      read its content back; the content's own block is taken for
      properties. */
  lemma HeaderlessContentMisread(parse: string -> seq<Symbol>, page: Props, defaults: Props, body: string)
    requires Valid(page) && Valid(defaults) && HeaderLines(page, defaults) == []
    requires |parse(body)| == 2 && parse(body)[0].FrontMatterSymbol? && |parse(body)[1].content| < |body|
    ensures LoadData(Yaml(page, defaults) + body, parse(Yaml(page, defaults) + body), defaults).content != body
    ensures LoadData(Yaml(page, defaults) + body, parse(Yaml(page, defaults) + body), defaults).properties ==
      Merge(defaults, parse(body)[0].entries)
  {
    EncoderFraming(page, defaults);
    assert Yaml(page, defaults) + body == body;
  }

  class WikiFilePage {
    const path: string
    const name: string
    /** `None` is the head revision. */
    const versionName: Option<nat>
    const versionsController: VersionsController
    const subWikiPageFactory: SubWikiPageFactory
    /** `defaultPageProperties()`, which the page inherits. */
    const defaults: Props
    /** The wikitext parser with the front-matter and text symbol types. */
    const parse: string -> seq<Symbol>
    var pageData: Option<PageData>

    constructor (path: string, name: string, versionName: Option<nat>, versionsController: VersionsController,
                 subWikiPageFactory: SubWikiPageFactory, defaults: Props, parse: string -> seq<Symbol>)
      ensures this.path == path && this.name == name && this.versionName == versionName
      ensures this.versionsController == versionsController && this.subWikiPageFactory == subWikiPageFactory
      ensures this.defaults == defaults && this.parse == parse
      ensures pageData == None
    {
      this.path := path;
      this.name := name;
      this.versionName := versionName;
      this.versionsController := versionsController;
      this.subWikiPageFactory := subWikiPageFactory;
      this.defaults := defaults;
      this.parse := parse;
      pageData := None;
    }

    /** `getDataVersion()`: the data of the page's revision. */
    function DataVersion(): (r: Result<PageData>)
      requires Valid(defaults)
      reads versionsController
      ensures r.Err? <==> versionsController.RevisionData(versionName, WikiFile(path)).Err?
      ensures r.Ok? ==> Valid(r.value.properties)
      ensures r.Ok? ==>
        var text := versionsController.RevisionData(versionName, WikiFile(path)).value.content;
        r.value == LoadData(text, parse(text), defaults)
    {
      match versionsController.RevisionData(versionName, WikiFile(path))
      case Err(f) => Err(f)
      case Ok(version) => Ok(LoadData(version.content, parse(version.content), defaults))
    }

    /** `getData()`: loads and caches the revision's data on first use and
        hands out the cached value from then on; a load failure leaves the
        cache empty. */
    method GetData() returns (r: Result<PageData>)
      requires Valid(defaults)
      modifies this
      ensures old(pageData).Some? ==> pageData == old(pageData) && r == Ok(pageData.value)
      ensures old(pageData).None? && DataVersion().Ok? ==>
        pageData == Some(DataVersion().value) && r == Ok(DataVersion().value)
      ensures old(pageData).None? && DataVersion().Err? ==>
        pageData == None && r == Err(PageDataLoadFailure(path))
    {
      if pageData.None? {
        var loaded := DataVersion();
        if loaded.Err? {
          return Err(PageDataLoadFailure(path));
        }
        pageData := Some(loaded.value);
      }
      r := Ok(pageData.value);
    }

    /** The revision `commit` writes: the header for the data's properties
        followed by its content, into the page's file, by the data's last
        modifying user. */
    function CommittedVersion(data: PageData): (v: FileVersion)
      requires Valid(data.properties)
      ensures v.file == WikiFile(path)
      ensures |v.content| == |Yaml(data.properties, defaults)| + |data.content|
      ensures v.content[..|Yaml(data.properties, defaults)|] == Yaml(data.properties, defaults)
      ensures v.content[|Yaml(data.properties, defaults)|..] == data.content
      ensures v.author == Author(data.properties)
    {
      FileVersion(WikiFile(path), Yaml(data.properties, defaults) + data.content, Author(data.properties))
    }

    /** `commit(data)`: clears the cache (taking `resetCache` to do so),
        then appends the committed revision to the page file's history. */
    method Commit(data: PageData) returns (info: VersionInfo)
      requires Valid(data.properties)
      modifies this, versionsController
      ensures pageData == None
      ensures versionsController.files ==
        old(versionsController.files)[WikiFile(path) :=
          Revisions(old(versionsController.files), WikiFile(path)) + [CommittedVersion(data)]]
      ensures info == VersionInfo(|Revisions(old(versionsController.files), WikiFile(path))|, Author(data.properties))
      ensures versionsController.RevisionData(None, WikiFile(path)) == Ok(CommittedVersion(data))
      ensures Versions() == old(Versions()) + [info]
    {
      pageData := None;
      ghost var before := Versions();
      ghost var revs := Revisions(versionsController.files, WikiFile(path));
      var yaml := PropertiesYaml(data.properties, defaults);
      info := versionsController.MakeVersion(FileVersion(WikiFile(path), yaml + data.content, Author(data.properties)));
      HistoryAppend(versionsController, WikiFile(path), before, revs, CommittedVersion(data));
    }

    /** `getVersion(versionName)`: probes the controller, then returns a new
        page with the same path, name, controller, factory and defaults,
        pinned to that version and with nothing cached. */
    method GetVersion(versionName: Option<nat>) returns (r: Result<WikiFilePage>)
      ensures versionsController.RevisionData(versionName, WikiFile(path)).Err? ==>
        r == Err(VersionLoadFailure(versionName, path))
      ensures versionsController.RevisionData(versionName, WikiFile(path)).Ok? ==>
        && r.Ok? && fresh(r.value)
        && r.value.path == path && r.value.name == name && r.value.versionName == versionName
        && r.value.versionsController == versionsController && r.value.subWikiPageFactory == subWikiPageFactory
        && r.value.defaults == defaults && r.value.parse == parse && r.value.pageData == None
    {
      if versionsController.RevisionData(versionName, WikiFile(path)).Err? {
        return Err(VersionLoadFailure(versionName, path));
      }
      var page := new WikiFilePage(path, name, versionName, versionsController, subWikiPageFactory, defaults, parse);
      r := Ok(page);
    }

    /** `getVersions()`. */
    function Versions(): (r: seq<VersionInfo>)
      reads versionsController
      ensures |r| == |Revisions(versionsController.files, WikiFile(path))|
      ensures forall i :: 0 <= i < |r| ==>
        r[i] == VersionInfo(i, Revisions(versionsController.files, WikiFile(path))[i].author)
    {
      versionsController.History(WikiFile(path))
    }

    /** `getChildPage(childName)`: the child's path, if it exists. */
    function ChildPage(childName: string): (r: Option<string>)
      ensures r.Some? <==> (path, childName) in subWikiPageFactory.children
      ensures r.Some? ==> r.value == subWikiPageFactory.children[(path, childName)]
    {
      subWikiPageFactory.ChildPage(path, childName)
    }

    /** `remove()`: deletes the page file and the files under the page's
        folder. */
    method Remove()
      modifies versionsController
      ensures versionsController.files == Deleted(old(versionsController.files), path, WikiFile(path))
    {
      versionsController.Delete(path, WikiFile(path));
    }

    /** `removeChildPage(childName)`: removes the child, through the same
        controller, if the factory finds it; otherwise does nothing. */
    method RemoveChildPage(childName: string)
      modifies versionsController
      ensures ChildPage(childName).None? ==> versionsController.files == old(versionsController.files)
      ensures ChildPage(childName).Some? ==>
        versionsController.files ==
          Deleted(old(versionsController.files), ChildPage(childName).value, WikiFile(ChildPage(childName).value))
    {
      var child := ChildPage(childName);
      if child.Some? {
        versionsController.Delete(child.value, WikiFile(child.value));
      }
    }
  }

  /** A page whose revision text has no front-matter shape loads that whole
      text as its content, with the defaults as its properties. */
  lemma NoFrontMatterFallback(page: WikiFilePage)
    requires Valid(page.defaults)
    requires page.versionsController.RevisionData(page.versionName, WikiFile(page.path)).Ok?
    requires
      var tree := page.parse(page.versionsController.RevisionData(page.versionName, WikiFile(page.path)).value.content);
      !(|tree| == 2 && tree[0].FrontMatterSymbol?)
    ensures page.DataVersion() ==
      Ok(PageData(page.versionsController.RevisionData(page.versionName, WikiFile(page.path)).value.content, page.defaults))
  {
  }

  /** Two `getData` calls in a row give equal data; the second comes from
      the cache. */
  method GetDataTwice(page: WikiFilePage) returns (first: Result<PageData>, second: Result<PageData>)
    requires Valid(page.defaults)
    modifies page
    ensures first.Ok? ==> second == first
    ensures first.Err? ==> first == Err(PageDataLoadFailure(page.path))
  {
    first := page.GetData();
    second := page.GetData();
  }

  /** A commit to a page on the head revision followed by `getData` gives
      back the committed content and restores the committed properties,
      when the parser reads the written header back. */
  method CommitThenGetData(page: WikiFilePage, data: PageData) returns (r: Result<PageData>)
    requires Valid(page.defaults) && Valid(data.properties) && page.versionName.None?
    requires SYMBOLIC_LINKS in data.properties.values ==> DistinctNames(data.properties.values[SYMBOLIC_LINKS].links)
    requires ParsesBack(page.parse, data.properties, page.defaults, data.content)
    modifies page, page.versionsController
    ensures r.Ok? && r.value.content == data.content
    ensures Restores(data.properties, page.defaults, r.value.properties)
  {
    var _ := page.Commit(data);
    r := page.GetData();
    CommitThenLoad(page.parse, data.properties, page.defaults, data.content);
  }
}
