# WikiFilePage front matter, data cache and child creation

This project models three parts of FitNesse's file-backed wiki page, `WikiFilePage`, in Dafny. A page is stored as a single `<path>.wiki` file.

**1. The front-matter codec.**
- `propertiesYaml` writes a page's property set as a sorted header fenced by `---` lines. It writes the set relative to the default properties:
  - a bare line for an added flag;
  - `key: no` for an inherited flag the page drops;
  - `Help: <text>`;
  - the `SymbolicLinks` block with one indented `name: path` line per link.
- `mergeWikiPageProperties` folds the parsed header entries back into a copy of the defaults. It uses the flag classifiers `isBooleanProperty`, `isTruthy` and `isFalsy`.
- What is proved:
  - which lines the encoder writes, in both directions;
  - its framing and sorted order;
  - how each kind of entry decodes;
  - an entry-level round trip for entries in any order;
  - re-encoding a header read back gives the same text.

**2. The page object.**
- `getData` fills and then reuses its `pageData` cache.
- `getDataVersion` falls back to the defaults when there is no front matter.
- `commit` writes header plus content as a new revision, by the page's `LastModifyingUser`.
- `getVersion` makes a page pinned to a version.
- `getVersions`, `getChildPage`, `remove`, `removeChildPage` and the `.wiki` file-name rule are modelled too.
- The versions controller is a class holding a map from file name to its list of revisions. The sub-wiki page factory is a partial map from (parent, child name) to the child's path.
- The wikitext parser is a function parameter of the page.
- The read-back of a commit is proved under two stated hypotheses: the parser splits the written text into the header's entries and the content (`ParsesBack`), and `resetCache` empties the page's cache.

**3. The child-creation policy that `AddChildPageResponderTest` asserts.**
- The name must be a WikiWord.
- An explicit `pageType` of `Static`, `Test` or `Suite` wins. Otherwise a name containing `Suite` makes a suite, else one containing `Test` makes a test.
- A given `helpText` and `suites` become `Help` and `Suites`.
- The response is a 303 redirect, a 400 whose body contains `Invalid Child Name`, or a 404 when the parent page is missing. Nothing is created on failure.
- Every scenario of the test is a lemma.

Modules: `Text` (Java string order, sort, join and split, lower and upper case, substring search), `Properties` (`WikiPageProperty` and the classifiers), `FrontMatter` (decoder and encoder, as the loops of the source and as the functions that specify them), `FrontMatterLaws` (the encoder's lines and the round trip), `Versions` (the collaborators), `FilePage` (`WikiFilePage`), `WikiWord` (page-name shape) and `AddChild` (the creation policy).

## Model

| member | source | states |
|---|---|---|
| Text.Insert | src/fitnesse/wiki/fs/WikiFilePage.java:238 | inserting into a sorted list keeps it sorted and adds exactly that element to its multiset |
| Text.Sort | src/fitnesse/wiki/fs/WikiFilePage.java:238 | `Collections.sort` on the lines: the result is sorted and a permutation of the input |
| Text.SortedPermutationUnique | src/fitnesse/wiki/fs/WikiFilePage.java:238 | two sorted permutations of the same lines are equal, so the sorted header is independent of the order lines were collected in |
| Text.LessEqTotal | src/fitnesse/wiki/fs/WikiFilePage.java:238 | `compareTo` order is total |
| Text.LessEqAntisymmetric | src/fitnesse/wiki/fs/WikiFilePage.java:238 | `compareTo` order is antisymmetric |
| Text.LessEqTransitive | src/fitnesse/wiki/fs/WikiFilePage.java:238 | `compareTo` order is transitive |
| Text.SplitJoin | src/fitnesse/wiki/fs/WikiFilePage.java:239 | `StringUtils.join` loses nothing: splitting the joined lines at the separator gives back the lines, when no line contains the separator |
| Text.JoinLength | src/fitnesse/wiki/fs/WikiFilePage.java:239 | joined length is the total line length plus one separator between each pair of lines |
| Properties.Set | src/fitnesse/wiki/fs/WikiFilePage.java:163 | `set(key, value)`: the key maps to the value, an existing key keeps its place, a new key goes last, the set stays well formed |
| Properties.Remove | src/fitnesse/wiki/fs/WikiFilePage.java:165 | `remove(key)`: exactly that key is gone, the other keys keep their order, a missing key changes nothing, and the set stays well formed |
| Properties.Without | src/fitnesse/wiki/fs/WikiFilePage.java:165 | the key list after a removal holds exactly the other keys and stays duplicate-free; without the key it is unchanged |
| Properties.WithoutConcat | src/fitnesse/wiki/fs/WikiFilePage.java:165 | removal distributes over concatenation, so the remaining keys keep their relative order |
| Properties.SetLink | src/fitnesse/wiki/fs/WikiFilePage.java:176 | `symLinks.set(name, path)`: an existing name keeps its place among the names, a new name is appended with its link |
| Properties.SetLinkReplaces | src/fitnesse/wiki/fs/WikiFilePage.java:176 | the link set is in the result; among distinct names, the link of that name is replaced by the new one in its place and every other link is kept where it was |
| Properties.SetLinkKeepsDistinct | src/fitnesse/wiki/fs/WikiFilePage.java:176 | setting a link keeps the link names distinct |
| Properties.AddDistinctLinks | src/fitnesse/wiki/fs/WikiFilePage.java:170-177 | setting links with distinct names one by one into a fresh sub-property rebuilds that list, in order |
| Properties.AddLinksLast | src/fitnesse/wiki/fs/WikiFilePage.java:170-177 | setting any link entries one by one into a fresh sub-property keeps one link per name, with the names in the order of their first appearance, each link the last one given under its name |
| Properties.QualifiesAsMember | src/fitnesse/wiki/fs/WikiFilePage.java:198-203 | `qualifiesAs` holds exactly when the value is one of the qualifiers |
| Properties.BooleanPropertyMember | src/fitnesse/wiki/fs/WikiFilePage.java:184-188 | a key is a flag exactly when it is a page-type, non-security or security attribute |
| Properties.HelpIsNotFlag | src/fitnesse/wiki/fs/WikiFilePage.java:184-188 | `Help` is not a flag |
| Properties.SymbolicLinksIsNotFlag | src/fitnesse/wiki/fs/WikiFilePage.java:184-188 | `SymbolicLinks` is not a flag |
| Properties.SuitesIsNotFlag | src/fitnesse/wiki/fs/WikiFilePage.java:184-188 | `Suites` is not a flag |
| Properties.PageTypesAreFlags | src/fitnesse/wiki/fs/WikiFilePage.java:184-185 | `Static`, `Test` and `Suite` are flags |
| Properties.FlagValuesExclusive | src/fitnesse/wiki/fs/WikiFilePage.java:161-166 | no value is both truthy and falsy, or both blank and falsy, so the decoder's branches never overlap |
| Properties.TruthyIgnoresCase | src/fitnesse/wiki/fs/WikiFilePage.java:190-192 | for every value: it is truthy exactly when its lower-cased form is one of the truthy words, and upper- or lower-casing it first does not change the answer |
| Properties.FalsyIgnoresCase | src/fitnesse/wiki/fs/WikiFilePage.java:194-196 | for every value: it is falsy exactly when its lower-cased form is one of the falsy words, and upper- or lower-casing it first does not change the answer |
| Properties.OtherValue | src/fitnesse/wiki/fs/WikiFilePage.java:161-166 | some value (`maybe`) is neither blank, truthy nor falsy |
| FrontMatter.Apply | src/fitnesse/wiki/fs/WikiFilePage.java:158-179 | one entry's effect keeps the property set well formed |
| FrontMatter.Merge | src/fitnesse/wiki/fs/WikiFilePage.java:156-182 | folding entries keeps the property set well formed |
| FrontMatter.MergeWikiPageProperties | src/fitnesse/wiki/fs/WikiFilePage.java:156-182 | the loop's result is the fold of all entries, first to last, into the defaults |
| FrontMatter.MergeEntry | src/fitnesse/wiki/fs/WikiFilePage.java:158-179 | the loop body applies exactly one entry's effect |
| FrontMatter.CollectLinks | src/fitnesse/wiki/fs/WikiFilePage.java:170-177 | the inner loop sets each link entry in turn into a fresh sub-property |
| FrontMatter.FlagDecoding | src/fitnesse/wiki/fs/WikiFilePage.java:161-166 | a flag entry sets its key (with that value) for a blank or truthy value and removes it for a falsy one; any other value leaves the properties unchanged; no other key changes |
| FrontMatter.OtherKeyDecoding | src/fitnesse/wiki/fs/WikiFilePage.java:167-178 | `Help` is stored verbatim; `SymbolicLinks` becomes a sub-property with one link per name, names in order of first appearance, each name with the last path given for it (so distinct names come back as given); any other non-flag key leaves the properties unchanged; no other key changes |
| FrontMatter.MergeLocal | src/fitnesse/wiki/fs/WikiFilePage.java:156-182 | the decoded value of a key depends only on the entries about that key |
| FrontMatter.PropertiesYaml | src/fitnesse/wiki/fs/WikiFilePage.java:215-240 | the method's output is `Yaml`: the header lines, sorted and framed |
| FrontMatter.CollectPageLines | src/fitnesse/wiki/fs/WikiFilePage.java:218-232 | the first loop collects the line of each page key, in key order |
| FrontMatter.CollectDefaultLines | src/fitnesse/wiki/fs/WikiFilePage.java:233-237 | the second loop collects the line of each default key, in key order |
| FrontMatter.AddPageLine | src/fitnesse/wiki/fs/WikiFilePage.java:219-231 | one page key adds its bare, `Help` or `SymbolicLinks` line, or nothing |
| FrontMatter.AddDefaultLine | src/fitnesse/wiki/fs/WikiFilePage.java:234-236 | one default key adds `key: no` for a flag the page lacks, otherwise nothing |
| FrontMatter.SymbolicLinksBlock | src/fitnesse/wiki/fs/WikiFilePage.java:224-230 | the string builder writes the key and then `\n  name: path` for each link, in order |
| FrontMatterLaws.BareLine | src/fitnesse/wiki/fs/WikiFilePage.java:219-220 | a bare `key` line is written exactly for a flag that the page has and the defaults lack |
| FrontMatterLaws.PairLine | src/fitnesse/wiki/fs/WikiFilePage.java:221-235 | a `key: value` line is written exactly for the page's `Help` with its text, or for an inherited flag the page lacks with `no` |
| FrontMatterLaws.BlockLine | src/fitnesse/wiki/fs/WikiFilePage.java:223-231 | a links block is written exactly for the page's `SymbolicLinks`, with its links |
| FrontMatterLaws.EncoderLines | src/fitnesse/wiki/fs/WikiFilePage.java:218-237 | all three of the above, for every key, value and link list |
| FrontMatterLaws.EncoderWritesOnlyKnownKeys | src/fitnesse/wiki/fs/WikiFilePage.java:218-237 | every written line is about a flag, `Help` or `SymbolicLinks`; no `Suites` line is ever written |
| FrontMatterLaws.HeaderLinesMember | src/fitnesse/wiki/fs/WikiFilePage.java:218-237 | a line is in the header exactly when a page key or a default key writes it |
| FrontMatterLaws.EncoderFraming | src/fitnesse/wiki/fs/WikiFilePage.java:238-239 | the header is `""` exactly when there are no lines; otherwise it is `---\n` + the sorted lines joined by newlines + `\n---\n`, sorted and a permutation of the lines |
| FrontMatterLaws.EncoderOrderIsCanonical | src/fitnesse/wiki/fs/WikiFilePage.java:238-239 | any sorted arrangement of the lines frames to the same header |
| FrontMatterLaws.FilterHeader | src/fitnesse/wiki/fs/WikiFilePage.java:218-237 | the header holds at most one line per key, and the entries about a key are the lines about it |
| FrontMatterLaws.HeaderLinesDistinct | src/fitnesse/wiki/fs/WikiFilePage.java:218-237 | no line appears twice in a header |
| FrontMatterLaws.DecodeLinesAbout | src/fitnesse/wiki/fs/WikiFilePage.java:156-182 | decoding the lines about one key into the defaults gives that key's expected value |
| FrontMatterLaws.RoundTripAt | src/fitnesse/wiki/fs/WikiFilePage.java:156-182 | the encoder's entries, in any order, decode into the defaults to give every key its expected value: a flag the page has comes back as the defaults' flag when inherited and as a blank flag when added, a flag the page lacks is absent, the page's `Help` and links come back, and every other key keeps its default |
| FrontMatterLaws.RoundTrip | src/fitnesse/wiki/fs/WikiFilePage.java:156-182 | the same for all keys at once: exactly the page's flag set, the same `Help`, the same symbolic links, blank values for new flags, other keys as in the defaults |
| FrontMatterLaws.SameHeaderLines | src/fitnesse/wiki/fs/WikiFilePage.java:218-237 | a property set that decodes to the expected values writes the same lines as the page, when the page holds `Help` and `SymbolicLinks` whenever the defaults do |
| FrontMatterLaws.ReencodeIdempotent | src/fitnesse/wiki/fs/WikiFilePage.java:215-240 | writing the header of the properties read back from a header gives that same header text, when the page holds `Help` and `SymbolicLinks` whenever the defaults do |
| Versions.VersionsController.MakeVersion | src/fitnesse/wiki/fs/WikiFilePage.java:116 | `makeVersion`: appends the revision to its file's history, answers its number and author, and makes it the head |
| Versions.VersionsController.Delete | src/fitnesse/wiki/fs/WikiFilePage.java:74 | the controller's files become `Deleted` |
| Versions.MakeVersionElsewhere | src/fitnesse/wiki/fs/WikiFilePage.java:116 | writing one file's revision leaves every other file's history alone |
| FilePage.WikiFileInjective | src/fitnesse/wiki/fs/WikiFilePage.java:205-207 | different pages have different files |
| FilePage.WikiFileOutsideFolder | src/fitnesse/wiki/fs/WikiFilePage.java:205-207 | a page's file is not under its own sub-wiki folder, so `delete(path, wikiFile())` drops both separately |
| FilePage.LoadData | src/fitnesse/wiki/fs/WikiFilePage.java:136-153 | the loaded properties are always a well-formed property set |
| FilePage.NoFrontMatterFallback | src/fitnesse/wiki/fs/WikiFilePage.java:138-152 | a page whose revision text does not parse into exactly a front matter and one more symbol loads that whole text as its content, with the defaults as its properties |
| FilePage.CommitThenLoad | src/fitnesse/wiki/fs/WikiFilePage.java:127-154 | loading the text written for a page gives back its content and restores its flags, `Help` and links, when the parser reads the header back |
| FilePage.HeaderlessContentMisread | src/fitnesse/wiki/fs/WikiFilePage.java:138-144 | a page that writes no header, whose content itself parses as a front matter and a shorter rest, does not get its content back, and its properties become the content block merged into the defaults |
| FilePage.WikiFilePage.constructor | src/fitnesse/wiki/fs/WikiFilePage.java:34-42 | the page keeps its path, name, version, controller and factory, with nothing cached |
| FilePage.WikiFilePage.DataVersion | src/fitnesse/wiki/fs/WikiFilePage.java:127-154 | `getDataVersion` fails exactly when the revision is missing; otherwise it answers the data loaded from exactly that revision's text, with well-formed properties |
| FilePage.WikiFilePage.GetData | src/fitnesse/wiki/fs/WikiFilePage.java:86-95 | with data cached, it answers the cache unchanged; with none, it loads, caches and answers the loaded data, or fails with `PageDataLoadFailure` and caches nothing |
| FilePage.WikiFilePage.Commit | src/fitnesse/wiki/fs/WikiFilePage.java:113-120 | clears the cache; appends to the page file's history, and to nothing else, one revision whose text is the header for the data's properties followed by its content (`CommittedVersion`, lines 242-264) and whose author is `LastModifyingUser`; answers its version info; that revision becomes the head and `getVersions` grows by exactly that info |
| FilePage.WikiFilePage.GetVersion | src/fitnesse/wiki/fs/WikiFilePage.java:103-110 | a missing version is a `VersionLoadFailure`; otherwise a new page with the same path, name, collaborators and defaults, pinned to that version, with nothing cached |
| FilePage.WikiFilePage.Versions | src/fitnesse/wiki/fs/WikiFilePage.java:98-100 | one version entry per revision of the page file, numbered in order and carrying that revision's author |
| FilePage.WikiFilePage.ChildPage | src/fitnesse/wiki/fs/WikiFilePage.java:59-61 | a child page is found exactly when the factory knows it under this page, and it is the page the factory has under this page's path and that name |
| FilePage.WikiFilePage.Remove | src/fitnesse/wiki/fs/WikiFilePage.java:72-78 | deletes the page file and everything under the page folder |
| FilePage.WikiFilePage.RemoveChildPage | src/fitnesse/wiki/fs/WikiFilePage.java:64-69 | removes the child's file and folder when the factory finds the child, and changes nothing otherwise |
| FilePage.GetDataTwice | src/fitnesse/wiki/fs/WikiFilePage.java:86-95 | a second `getData` answers data equal to the first |
| FilePage.CommitThenGetData | src/fitnesse/wiki/fs/WikiFilePage.java:113-154 | on a head page, `getData` after `commit` succeeds with the committed content and restores the committed flags, `Help` and links |
| WikiWord.WikiWordShape | src/fitnesse/responders/editing/AddChildPageResponderTest.java:78-95 | a WikiWord is nonempty, has no dot or white space, and does not start with a digit |
| WikiWord.ChildPageIsWikiWord | src/fitnesse/responders/editing/AddChildPageResponderTest.java:33 | `ChildPage` is a WikiWord |
| WikiWord.CapitalizedNamesAreWikiWords | src/fitnesse/responders/editing/AddChildPageResponderTest.java:107-163 | `ChildPage`, `StaticPage`, `TestPage`, `SuitePage` and `TestChildPage` are WikiWords |
| WikiWord.NotWikiWordAt | src/fitnesse/responders/editing/AddChildPageResponderTest.java:84-94 | a name with a dot or a space anywhere, or a digit first, is not a WikiWord |
| WikiWord.RejectedNames | src/fitnesse/responders/editing/AddChildPageResponderTest.java:78-95 | `""`, `hello goodbye`, `1man1mission` and `PageOne.PageTwo` are not WikiWords |
| AddChild.TypeFlag | src/fitnesse/responders/editing/AddChildPageResponderTest.java:133-167 | a page type's flag is a flag key; `Static` has none |
| AddChild.ExplicitTypeWins | src/fitnesse/responders/editing/AddChildPageResponderTest.java:138-163 | with an explicit `Static`, `Test` or `Suite`, the created child is a test exactly for `Test` and a suite exactly for `Suite`, whatever its name |
| AddChild.InferredType | src/fitnesse/responders/editing/AddChildPageResponderTest.java:107-131 | with no explicit type, the created child is a suite exactly when its name contains `Suite`, and a test exactly when it contains `Test` but not `Suite` |
| AddChild.WithoutTypeFlags | src/fitnesse/responders/editing/AddChildPageResponderTest.java:107-131 | the child starts from the defaults with `Test` and `Suite` cleared and every other key kept |
| AddChild.WithInput | src/fitnesse/responders/editing/AddChildPageResponderTest.java:56-67 | a given input sets its key to the input; an empty one changes nothing |
| AddChild.ChildAttributes | src/fitnesse/responders/editing/AddChildPageResponderTest.java:107-167 | the child is a test exactly when the chosen type is `Test` and a suite exactly when it is `Suite`, never both; `Help` and `Suites` are the request's when given and the defaults' when not; every other key keeps its default |
| AddChild.Create | src/fitnesse/responders/editing/AddChildPageResponderTest.java:46-95 | a redirect exactly for a WikiWord name under an existing parent, which adds the child at `parent.name` with the request's content and the child properties and keeps every other page; otherwise nothing changes, and a non-WikiWord name gives `Invalid Child Name` |
| AddChild.PageTree.AddChild | src/fitnesse/responders/editing/AddChildPageResponderTest.java:62-63 | `makeResponse` answers and updates the page tree as `Create` says |
| AddChild.RedirectResponse | src/fitnesse/responders/editing/AddChildPageResponderTest.java:47-52 | `ChildPage` under `TestPage` gets status 303 and an empty body |
| AddChild.ChildPageIsMade | src/fitnesse/responders/editing/AddChildPageResponderTest.java:56-67 | after a valid request with `helpText` and `suites`, the child exists and its `Help` and `Suites` are those inputs |
| AddChild.InvalidNameRejected | src/fitnesse/responders/editing/AddChildPageResponderTest.java:78-95 | a non-WikiWord name creates nothing and gets status 400 with a body containing `Invalid Child Name` |
| AddChild.NoPageForEmptyName | src/fitnesse/responders/editing/AddChildPageResponderTest.java:70-75 | an empty name does not create `TestPage.ChildPage` and gets status 400 |
| AddChild.StaticPageType | src/fitnesse/responders/editing/AddChildPageResponderTest.java:107-113 | `StaticPage` contains neither `Suite` nor `Test` |
| AddChild.TestPageType | src/fitnesse/responders/editing/AddChildPageResponderTest.java:115-122 | `TestPage` contains `Test` but not `Suite` |
| AddChild.SuitePageType | src/fitnesse/responders/editing/AddChildPageResponderTest.java:124-131 | `SuitePage` contains `Suite` |
| AddChild.ScenarioFlags | src/fitnesse/responders/editing/AddChildPageResponderTest.java:133-167 | the child under `TestPage` has `Test` exactly for a chosen test and `Suite` exactly for a chosen suite |
| AddChild.TypeFromName | src/fitnesse/responders/editing/AddChildPageResponderTest.java:107-131 | with no `pageType`: `StaticPage` has neither flag, `TestPage` only `Test`, `SuitePage` only `Suite` |
| AddChild.TypeFromRequest | src/fitnesse/responders/editing/AddChildPageResponderTest.java:138-163 | `pageType=Static` on `TestChildPage` sets neither flag; `Test` or `Suite` on `ChildPage` sets exactly that flag |

## Left out

- I/O is not modelled. This covers reading a revision's `InputStream`, UTF-8 byte conversion (`FileUtil`) and `ByteArrayInputStream`. Revision contents are strings.
- Write failures are not modelled. The abstract controller's `makeVersion` and `delete` always succeed, so the `IOException` wrapping in `commit` and `remove` has no model. A missing revision is the only load failure: it is the `Err` the page turns into `PageDataLoadFailure` or `VersionLoadFailure`.
- `getLastModificationTime` and `Date` are left out: timestamps are not part of any property proved here.
- The wikitext parser, `SymbolProvider` and the front-matter tokenizer are not part of this model. The page holds the parser as a function from text to top-level symbols.
- FilePage.CommitThenGetData and FilePage.CommitThenLoad: both assume, as a precondition (`ParsesBack`), that the parser splits the written text into the header's entries (in some order) and the content. With empty content this means the parser still answers a second, empty text symbol after the front matter; without it `getDataVersion` would not see two symbols and would read the header as content. When the page writes no header lines, `ParsesBack` further demands that the content alone parses without a front-matter shape. Content that itself opens with a `---` block is excluded: there `propertiesYaml` writes nothing, `getDataVersion` reads the content's own block as properties and drops it from the content, and the commit does not read back (FilePage.HeaderlessContentMisread).
- FilePage.WikiFilePage.Commit: `resetCache` belongs to a base class that is not part of this model. The model takes it to set `pageData` back to empty.
- FilePage.WikiFilePage.GetData: the defensive copy `new PageData(pageData)` is equality of values here. Aliasing of the returned object is not modelled.
- `defaultPageProperties()`, `VariableSource`, the parent page and `isRoot` live in base classes. They are not part of this model. The defaults are a constant of each page.
- `addChildPage`, which answers `null`, and `getChildren` are not modelled. Neither takes part in the properties proved here, and the child listing order belongs to the factory.
- Versions.SubWikiPageFactory.ChildPage: the factory is a fixed map from (parent path, child name) to the child's path, not a page object. Removing a child does not update it.
- Versions.VersionsController.RevisionData: `getRevisionData` answers an array of which the page reads element 0. The model answers that one revision. Version names are indexes (`nat`) into a file's history, and "no name" is the head revision.
- Text.LessEq compares characters by code point. Java's `compareTo` compares UTF-16 code units. The two orders differ only for characters outside the Basic Multilingual Plane.
- Text.LowerChar lower-cases ASCII letters only. `toLowerCase` also maps other alphabets, but no truthy or falsy word depends on that.
- FrontMatter.PropertiesYaml sorts a new sequence instead of the `ArrayList` in place.
- FrontMatterLaws.ReencodeIdempotent is stated only for a page that holds `Help` and `SymbolicLinks` whenever the defaults do. A page that lacks them reads them back from the defaults, and writing that set again adds their lines.
- FrontMatterLaws.SameHeaderLines carries the same condition, for the same reason.
- FrontMatterLaws.RoundTrip and FilePage.CommitThenLoad do not restore keys the encoder never writes, such as `Suites` or `LastModifyingUser`. Those come back as the defaults' values. Likewise a flag's value comes back blank, or as the default's when the flag is inherited. This is what the source does.
- `AddChildPageResponder` itself is not part of this model. Its policy is reconstructed from the test, and the model makes these choices of its own:
  - AddChild.Create answers 404 with nothing created when the parent is missing; the test never exercises this.
  - It overwrites an existing child of the same name.
  - It clears `Test` and `Suite` inherited from the defaults before setting the chosen type's flag (AddChild.WithoutTypeFlags).
  - It sets the chosen type's flag with a blank value.
  - It treats a `pageType` other than `Static`, `Test` or `Suite` like an empty one.
- AddChild.ChildPageIsMade is stated for every WikiWord name, help text and tag, and WikiWord.ChildPageIsWikiWord covers the test's `ChildPage`. It does not restate the test's check that the page is absent before the request.
- The HTTP layer (`MockRequest`, `SimpleResponse`, `FitNesseContext`, `PageCrawler`) is not modelled. A response is a status and a body, and the wiki is a map from page path to page data.
- Two behaviours follow the code and the test rather than a looser reading of the policy:
  - An empty child name is answered with 400 and `Invalid Child Name`, as the test expects, not with a silent redirect.
  - A flag entry whose value is neither blank, truthy nor falsy is ignored, as `mergeWikiPageProperties` does, not set to that value.
- Properties.PAGE_TYPE_ATTRIBUTES, NON_SECURITY_ATTRIBUTES and SECURITY_ATTRIBUTES (Properties.dfy:23-27) are the attribute lists of `PageData`, which is not part of this model; the lists are copied as constants.
- Properties.IsBlank: `fitnesse.util.StringUtils.isBlank` is not part of this model. The model takes it to mean "nothing left after `trim`", that is, every character is at most a space; a definition through `Character.isWhitespace` would also count some characters above U+0020 as blank.
- FilePage.WikiFilePage.RemoveChildPage takes the child's own `remove()` to delete through this page's versions controller; a child page backed by another controller is not modelled.
- Properties.Valid does not demand distinct link names under `SymbolicLinks`. `WikiPageProperty` keys its children by name, so the source has this by construction. The model instead states `DistinctNames` as a precondition of FrontMatterLaws.DecodeLinesAbout, RoundTripAt, RoundTrip, ReencodeIdempotent and FilePage.CommitThenLoad and CommitThenGetData, and of the helper lemmas they use. Every link list the decoder builds has distinct names (Properties.AddLinksLast).
