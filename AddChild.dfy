/** The child-creation policy of the add-child responder: the new page's
    name must be a single WikiWord, its page type comes from an explicit
    `pageType` or else from its name, `Help` and `Suites` are seeded from
    the request, and the response is a redirect or `Invalid Child Name`. */
module AddChild {
  import opened Text
  import opened Properties
  import opened FilePage
  import opened WikiWord

  // ------------------------------------------------------------ page type

  datatype PageType = Static | Test | Suite

  /** The page type for a request: an explicit `Static`, `Test` or `Suite`
      wins; otherwise a name containing `Suite` makes a suite, else one
      containing `Test` a test, else a static page. */
  function ChosenType(name: string, pageType: string): PageType
  {
    if pageType == STATIC then Static
    else if pageType == TEST then Test
    else if pageType == SUITE then Suite
    else if Contains(name, SUITE) then Suite
    else if Contains(name, TEST) then Test
    else Static
  }

  /** The flag a page type sets, if any. */
  function TypeFlag(t: PageType): (r: Option<string>)
    ensures r.Some? ==> IsBooleanProperty(r.value)
    ensures t == Static <==> r.None?
  {
    PageTypesAreFlags();
    match t
    case Static => None
    case Test => Some(TEST)
    case Suite => Some(SUITE)
  }

  // ------------------------------------------------------------ child data

  /** The request inputs the policy reads; a missing input is empty. */
  datatype Request = Request(resource: seq<string>, pageName: string, pageContent: string,
                             pageType: string, helpText: string, suites: string)

  /** The defaults without the `Test` and `Suite` flags. */
  function WithoutTypeFlags(defaults: Props): (p: Props)
    requires Valid(defaults)
    ensures Valid(p)
    ensures forall k :: Lookup(p, k) == if k == TEST || k == SUITE then None else Lookup(defaults, k)
  {
    Remove(Remove(defaults, TEST), SUITE)
  }

  /** Sets the flag of page type `t`, if it has one. */
  function WithTypeFlag(p: Props, t: PageType): (r: Props)
    requires Valid(p)
    ensures Valid(r)
    ensures TypeFlag(t).None? ==> r == p
    ensures TypeFlag(t).Some? ==> Lookup(r, TypeFlag(t).value) == Some(Value("", []))
    ensures forall k :: TypeFlag(t) != Some(k) ==> Lookup(r, k) == Lookup(p, k)
  {
    match TypeFlag(t)
    case None => p
    case Some(flag) => Set(p, flag, Value("", []))
  }

  /** Sets `key` to a request input that was given (is not empty). */
  function WithInput(p: Props, key: string, input: string): (r: Props)
    requires Valid(p)
    ensures Valid(r)
    ensures input != "" ==> Lookup(r, key) == Some(Value(input, []))
    ensures input == "" ==> r == p
    ensures forall k :: k != key ==> Lookup(r, k) == Lookup(p, k)
  {
    if input != "" then Set(p, key, Value(input, [])) else p
  }

  /** The new child's properties: the defaults without `Test` and `Suite`,
      then the chosen type's flag, then `Help` and `Suites` when given. */
  function ChildProperties(defaults: Props, request: Request): (p: Props)
    requires Valid(defaults)
    ensures Valid(p)
  {
    var typed := WithTypeFlag(WithoutTypeFlags(defaults), ChosenType(request.pageName, request.pageType));
    WithInput(WithInput(typed, HELP, request.helpText), SUITES, request.suites)
  }

  /** The child is a test exactly when the chosen type is `Test`, a suite
      exactly when it is `Suite`, never both; `Help` and `Suites` are the
      request's when given and the defaults' otherwise, and every other
      key keeps its default. */
  lemma ChildAttributes(defaults: Props, request: Request)
    requires Valid(defaults)
    ensures var p := ChildProperties(defaults, request);
      && (TEST in p.values <==> ChosenType(request.pageName, request.pageType) == Test)
      && (SUITE in p.values <==> ChosenType(request.pageName, request.pageType) == Suite)
      && !(TEST in p.values && SUITE in p.values)
      && (request.helpText != "" ==> Lookup(p, HELP) == Some(Value(request.helpText, [])))
      && (request.helpText == "" ==> Lookup(p, HELP) == Lookup(defaults, HELP))
      && (request.suites != "" ==> Lookup(p, SUITES) == Some(Value(request.suites, [])))
      && (request.suites == "" ==> Lookup(p, SUITES) == Lookup(defaults, SUITES))
      && (forall k :: k != TEST && k != SUITE && k != HELP && k != SUITES ==> Lookup(p, k) == Lookup(defaults, k))
  {
    var t := ChosenType(request.pageName, request.pageType);
    var cleared := WithoutTypeFlags(defaults);
    var typed := WithTypeFlag(cleared, t);
    var helped := WithInput(typed, HELP, request.helpText);
    var p := WithInput(helped, SUITES, request.suites);
    assert Lookup(p, TEST) == Lookup(typed, TEST);
    assert Lookup(p, SUITE) == Lookup(typed, SUITE);
    assert Lookup(cleared, TEST) == None && Lookup(cleared, SUITE) == None;
    assert Lookup(p, HELP) == Lookup(helped, HELP);
    assert Lookup(typed, HELP) == Lookup(defaults, HELP);
    assert Lookup(typed, SUITES) == Lookup(defaults, SUITES);
  }

  // ------------------------------------------------------------ responses

  datatype Response = Response(status: nat, body: string)

  const INVALID_CHILD_NAME := "Invalid Child Name"
  const REDIRECT := Response(303, "")
  const INVALID_NAME := Response(400, INVALID_CHILD_NAME)
  const PARENT_NOT_FOUND := Response(404, "")

  /** The pages of a wiki by path. */
  type Pages = map<seq<string>, PageData>

  datatype Outcome = Outcome(response: Response, pages: Pages)

  /** What a request does to a page tree: an invalid name is rejected and
      nothing changes; under an existing parent a valid name creates the
      child, with the request's content, and redirects. */
  function Create(pages: Pages, defaults: Props, request: Request): (r: Outcome)
    requires Valid(defaults)
    ensures r.response == REDIRECT <==> IsWikiWord(request.pageName) && request.resource in pages
    ensures r.response != REDIRECT ==> r.pages == pages
    ensures !IsWikiWord(request.pageName) ==> r.response == INVALID_NAME
    ensures r.response == REDIRECT ==>
      && r.pages.Keys == pages.Keys + {request.resource + [request.pageName]}
      && r.pages[request.resource + [request.pageName]].content == request.pageContent
      && r.pages[request.resource + [request.pageName]].properties == ChildProperties(defaults, request)
      && (forall q :: q in pages && q != request.resource + [request.pageName] ==> r.pages[q] == pages[q])
  {
    if !IsWikiWord(request.pageName) then Outcome(INVALID_NAME, pages)
    else if request.resource !in pages then Outcome(PARENT_NOT_FOUND, pages)
    else
      var child := request.resource + [request.pageName];
      Outcome(REDIRECT, pages[child := PageData(request.pageContent, ChildProperties(defaults, request))])
  }

  /** The wiki the responder works on. */
  class PageTree {
    var pages: Pages
    /** The properties a new page starts from. */
    const defaults: Props

    constructor (pages: Pages, defaults: Props)
      ensures this.pages == pages && this.defaults == defaults
    {
      this.pages := pages;
      this.defaults := defaults;
    }

    /** `makeResponse` for an add-child request. */
    method AddChild(request: Request) returns (response: Response)
      requires Valid(defaults)
      modifies this
      ensures Outcome(response, pages) == Create(old(pages), defaults, request)
    {
      if !IsWikiWord(request.pageName) {
        return INVALID_NAME;
      }
      if request.resource !in pages {
        return PARENT_NOT_FOUND;
      }
      var properties := ChildProperties(defaults, request);
      pages := pages[request.resource + [request.pageName] := PageData(request.pageContent, properties)];
      response := REDIRECT;
    }
  }

  // ------------------------------------------------------------ scenarios

  function ScenarioRequest(name: string, pageType: string, helpText: string, suites: string): Request
  {
    Request(["TestPage"], name, "child content", pageType, helpText, suites)
  }

  /** `hasAttribute` on the page at `path`. */
  predicate HasAttribute(pages: Pages, path: seq<string>, key: string)
  {
    path in pages && key in pages[path].properties.values
  }

  /** `getAttribute` on the page at `path`. */
  function Attribute(pages: Pages, path: seq<string>, key: string): Option<string>
  {
    if path in pages && key in pages[path].properties.values then Some(pages[path].properties.values[key].text)
    else None
  }

  /** A valid name under `TestPage` redirects with an empty body. */
  lemma RedirectResponse(pages: Pages, defaults: Props)
    requires Valid(defaults) && ["TestPage"] in pages
    ensures Create(pages, defaults, ScenarioRequest("ChildPage", "", "", "")).response == Response(303, "")
  {
    CapitalizedNamesAreWikiWords();
  }

  /** An explicit `pageType` decides the created child's type whatever its
      name: it is a test exactly for `Test` and a suite exactly for `Suite`. */
  lemma ExplicitTypeWins(pages: Pages, defaults: Props, request: Request)
    requires Valid(defaults) && IsWikiWord(request.pageName) && request.resource in pages
    requires request.pageType == STATIC || request.pageType == TEST || request.pageType == SUITE
    ensures var r := Create(pages, defaults, request);
      && (HasAttribute(r.pages, request.resource + [request.pageName], TEST) <==> request.pageType == TEST)
      && (HasAttribute(r.pages, request.resource + [request.pageName], SUITE) <==> request.pageType == SUITE)
  {
    ChildAttributes(defaults, request);
  }

  /** Without an explicit `pageType` the created child's name decides: a
      name containing `Suite` makes a suite, otherwise one containing `Test`
      makes a test. */
  lemma InferredType(pages: Pages, defaults: Props, request: Request)
    requires Valid(defaults) && IsWikiWord(request.pageName) && request.resource in pages
    requires request.pageType != STATIC && request.pageType != TEST && request.pageType != SUITE
    ensures var r := Create(pages, defaults, request);
      && (HasAttribute(r.pages, request.resource + [request.pageName], SUITE) <==> Contains(request.pageName, SUITE))
      && (HasAttribute(r.pages, request.resource + [request.pageName], TEST) <==>
            !Contains(request.pageName, SUITE) && Contains(request.pageName, TEST))
  {
    ChildAttributes(defaults, request);
  }

  /** A child made under an existing parent, with a given `helpText` and
      `suites`, has them as its `Help` and `Suites`. */
  lemma ChildPageIsMade(pages: Pages, defaults: Props, request: Request)
    requires Valid(defaults) && IsWikiWord(request.pageName) && request.resource in pages
    requires request.helpText != "" && request.suites != ""
    ensures var r := Create(pages, defaults, request);
      && request.resource + [request.pageName] in r.pages
      && Attribute(r.pages, request.resource + [request.pageName], HELP) == Some(request.helpText)
      && Attribute(r.pages, request.resource + [request.pageName], SUITES) == Some(request.suites)
  {
    ChildAttributes(defaults, request);
  }

  /** A name that is not a WikiWord makes no page and is answered with
      status 400 and `Invalid Child Name`. */
  lemma InvalidNameRejected(pages: Pages, defaults: Props, request: Request)
    requires Valid(defaults) && !IsWikiWord(request.pageName)
    ensures Create(pages, defaults, request).pages == pages
    ensures Create(pages, defaults, request).response.status == 400
    ensures Contains(Create(pages, defaults, request).response.body, INVALID_CHILD_NAME)
  {
    ContainsAt(INVALID_CHILD_NAME, INVALID_CHILD_NAME, 0);
  }

  /** An empty name makes no page. */
  lemma NoPageForEmptyName(pages: Pages, defaults: Props)
    requires Valid(defaults) && ["TestPage", "ChildPage"] !in pages
    ensures var r := Create(pages, defaults, ScenarioRequest("", "", "", ""));
      ["TestPage", "ChildPage"] !in r.pages && r.response.status == 400
  {
    RejectedNames();
  }

  /** Every character of a string that `s` contains occurs in `s`. */
  lemma ContainedChars(s: string, t: string)
    ensures Contains(s, t) ==> forall c :: c in t ==> c in s
  {
    if Contains(s, t) {
      var i := ContainsWitness(s, t);
      forall c | c in t ensures c in s {
        var j :| 0 <= j < |t| && t[j] == c;
        assert s[i..i + |t|][j] == s[i + j];
      }
    }
  }

  /** A word that lacks a character of `t` does not contain `t`. */
  lemma MissingChar(s: string, t: string, c: char)
    requires c in t && c !in s
    ensures !Contains(s, t)
  {
    ContainedChars(s, t);
  }

  lemma StaticPageType()
    ensures !Contains("StaticPage", SUITE) && !Contains("StaticPage", TEST)
  {
    assert SUITE[1] == 'u' && TEST[2] == 's';
    assert forall i :: 0 <= i < |"StaticPage"| ==> "StaticPage"[i] != 'u' && "StaticPage"[i] != 's';
    MissingChar("StaticPage", SUITE, 'u');
    MissingChar("StaticPage", TEST, 's');
  }

  lemma TestPageType()
    ensures !Contains("TestPage", SUITE) && Contains("TestPage", TEST)
  {
    assert SUITE[1] == 'u';
    assert forall i :: 0 <= i < |"TestPage"| ==> "TestPage"[i] != 'u';
    MissingChar("TestPage", SUITE, 'u');
    assert "TestPage"[0..4] == TEST;
    ContainsAt("TestPage", TEST, 0);
  }

  lemma SuitePageType()
    ensures Contains("SuitePage", SUITE)
  {
    assert "SuitePage"[0..5] == SUITE;
    ContainsAt("SuitePage", SUITE, 0);
  }

  /** The flags of the child a scenario creates. */
  lemma ScenarioFlags(pages: Pages, defaults: Props, name: string, pageType: string, test: bool, suite: bool)
    requires Valid(defaults) && ["TestPage"] in pages && IsWikiWord(name)
    requires ChosenType(name, pageType) == (if test then Test else if suite then Suite else Static)
    requires !(test && suite)
    ensures var r := Create(pages, defaults, ScenarioRequest(name, pageType, "", ""));
      && (HasAttribute(r.pages, ["TestPage", name], TEST) <==> test)
      && (HasAttribute(r.pages, ["TestPage", name], SUITE) <==> suite)
  {
    var request := ScenarioRequest(name, pageType, "", "");
    ChildAttributes(defaults, request);
    assert request.resource + [request.pageName] == ["TestPage", name];
  }

  /** With no `pageType`: `StaticPage` gets neither flag, `TestPage` only
      `Test`, `SuitePage` only `Suite`. */
  lemma TypeFromName(pages: Pages, defaults: Props)
    requires Valid(defaults) && ["TestPage"] in pages
    ensures var r := Create(pages, defaults, ScenarioRequest("StaticPage", "", "", ""));
      !HasAttribute(r.pages, ["TestPage", "StaticPage"], TEST) && !HasAttribute(r.pages, ["TestPage", "StaticPage"], SUITE)
    ensures var r := Create(pages, defaults, ScenarioRequest("TestPage", "", "", ""));
      HasAttribute(r.pages, ["TestPage", "TestPage"], TEST) && !HasAttribute(r.pages, ["TestPage", "TestPage"], SUITE)
    ensures var r := Create(pages, defaults, ScenarioRequest("SuitePage", "", "", ""));
      !HasAttribute(r.pages, ["TestPage", "SuitePage"], TEST) && HasAttribute(r.pages, ["TestPage", "SuitePage"], SUITE)
  {
    CapitalizedNamesAreWikiWords();
    StaticPageType();
    TestPageType();
    SuitePageType();
    ScenarioFlags(pages, defaults, "StaticPage", "", false, false);
    ScenarioFlags(pages, defaults, "TestPage", "", true, false);
    ScenarioFlags(pages, defaults, "SuitePage", "", false, true);
  }

  /** `pageType=Static` on `TestChildPage` gives neither flag; `Test` or
      `Suite` on `ChildPage` gives exactly that flag. */
  lemma TypeFromRequest(pages: Pages, defaults: Props)
    requires Valid(defaults) && ["TestPage"] in pages
    ensures var r := Create(pages, defaults, ScenarioRequest("TestChildPage", STATIC, "", ""));
      !HasAttribute(r.pages, ["TestPage", "TestChildPage"], TEST) && !HasAttribute(r.pages, ["TestPage", "TestChildPage"], SUITE)
    ensures var r := Create(pages, defaults, ScenarioRequest("ChildPage", TEST, "", ""));
      HasAttribute(r.pages, ["TestPage", "ChildPage"], TEST) && !HasAttribute(r.pages, ["TestPage", "ChildPage"], SUITE)
    ensures var r := Create(pages, defaults, ScenarioRequest("ChildPage", SUITE, "", ""));
      !HasAttribute(r.pages, ["TestPage", "ChildPage"], TEST) && HasAttribute(r.pages, ["TestPage", "ChildPage"], SUITE)
  {
    CapitalizedNamesAreWikiWords();
    assert ChosenType("TestChildPage", STATIC) == Static;
    assert ChosenType("ChildPage", TEST) == Test && ChosenType("ChildPage", SUITE) == Suite;
    ScenarioFlags(pages, defaults, "TestChildPage", STATIC, false, false);
    ScenarioFlags(pages, defaults, "ChildPage", TEST, true, false);
    ScenarioFlags(pages, defaults, "ChildPage", SUITE, false, true);
  }
}
