/** The WikiWord shape that a page name must have: two or more humps, each
    a capital followed by lower-case letters or digits. */
module WikiWord {
  import opened Properties

  predicate IsUpper(c: char) { 'A' <= c <= 'Z' }

  predicate IsLowerOrDigit(c: char) { 'a' <= c <= 'z' || '0' <= c <= '9' }

  /** The length of the longest prefix of lower-case letters and digits. */
  function TailLength(s: string): (n: nat)
    ensures n <= |s|
  {
    if s != [] && IsLowerOrDigit(s[0]) then 1 + TailLength(s[1..]) else 0
  }

  lemma {:induction false} TailLengthPrefix(s: string)
    ensures forall i :: 0 <= i < TailLength(s) ==> IsLowerOrDigit(s[i])
  {
    if s != [] && IsLowerOrDigit(s[0]) {
      TailLengthPrefix(s[1..]);
      forall i | 0 < i < TailLength(s) ensures IsLowerOrDigit(s[i]) {
        assert s[i] == s[1..][i - 1];
      }
    }
  }

  /** The number of humps `[A-Z][a-z0-9]+` that `s` is made of, or `None`
      when it is not made of such humps. */
  function Humps(s: string): Option<nat>
    decreases |s|
  {
    if s == [] then Some(0)
    else if !IsUpper(s[0]) then None
    else
      var k := TailLength(s[1..]);
      if k == 0 then None
      else match Humps(s[1 + k..])
        case None => None
        case Some(n) => Some(n + 1)
  }

  /** The WikiWord shape `[A-Z][a-z0-9]+([A-Z][a-z0-9]+)+`. */
  predicate IsWikiWord(s: string)
  {
    Humps(s).Some? && Humps(s).value >= 2
  }

  /** A string made of humps holds only letters and digits and starts with
      a capital. */
  lemma {:induction false} HumpsChars(s: string)
    requires Humps(s).Some?
    ensures forall i :: 0 <= i < |s| ==> IsUpper(s[i]) || IsLowerOrDigit(s[i])
    ensures s != [] ==> IsUpper(s[0])
    decreases |s|
  {
    if s != [] {
      var k := TailLength(s[1..]);
      TailLengthPrefix(s[1..]);
      HumpsChars(s[1 + k..]);
      forall i | 0 <= i < |s| ensures IsUpper(s[i]) || IsLowerOrDigit(s[i]) {
        if 1 <= i < 1 + k {
          assert s[i] == s[1..][i - 1];
        } else if i >= 1 + k {
          assert s[i] == s[1 + k..][i - 1 - k];
        }
      }
    }
  }

  /** A WikiWord is not empty, has no dot and no white space, and does not
      start with a digit. */
  lemma WikiWordShape(s: string)
    requires IsWikiWord(s)
    ensures s != []
    ensures forall i :: 0 <= i < |s| ==> s[i] != '.' && s[i] != ' ' && s[i] != '\t' && s[i] != '\n'
    ensures !('0' <= s[0] <= '9')
  {
    HumpsChars(s);
  }

  lemma {:induction false} TailLengthOf(tail: string, rest: string)
    requires forall i :: 0 <= i < |tail| ==> IsLowerOrDigit(tail[i])
    requires rest == [] || !IsLowerOrDigit(rest[0])
    ensures TailLength(tail + rest) == |tail|
  {
    if tail != [] {
      assert (tail + rest)[1..] == tail[1..] + rest;
      TailLengthOf(tail[1..], rest);
    } else {
      assert tail + rest == rest;
    }
  }

  function Succ(h: Option<nat>): Option<nat>
  {
    match h
    case None => None
    case Some(n) => Some(n + 1)
  }

  /** A capital followed by `k` lower-case letters or digits and then a
      capital or the end: one hump more than what follows. */
  lemma HumpStep(s: string, k: nat)
    requires 0 < k && 1 + k <= |s| && IsUpper(s[0])
    requires forall i :: 1 <= i < 1 + k ==> IsLowerOrDigit(s[i])
    requires 1 + k == |s| || IsUpper(s[1 + k])
    ensures Humps(s) == Succ(Humps(s[1 + k..]))
  {
    var tail, rest := s[1..1 + k], s[1 + k..];
    assert forall i :: 0 <= i < |tail| ==> tail[i] == s[1 + i];
    assert rest == [] || rest[0] == s[1 + k];
    assert s[1..] == tail + rest;
    TailLengthOf(tail, rest);
    assert TailLength(s[1..]) == k;
  }

  /** Two humps, of `k` and `m` trailing characters. */
  lemma TwoHumps(w: string, k: nat, m: nat)
    requires 0 < k && 0 < m && |w| == 2 + k + m
    requires IsUpper(w[0]) && IsUpper(w[1 + k])
    requires forall i :: 1 <= i < 1 + k ==> IsLowerOrDigit(w[i])
    requires forall i :: 2 + k <= i < |w| ==> IsLowerOrDigit(w[i])
    ensures Humps(w) == Some(2)
  {
    var r := w[1 + k..];
    HumpStep(w, k);
    assert |r| == 1 + m && r[0] == w[1 + k];
    assert forall i :: 1 <= i < 1 + m ==> r[i] == w[1 + k + i];
    HumpStep(r, m);
    assert r[1 + m..] == [];
  }

  lemma ChildPageIsWikiWord()
    ensures IsWikiWord("ChildPage")
  {
    TwoHumps("ChildPage", 4, 3);
  }

  lemma StaticPageIsWikiWord()
    ensures IsWikiWord("StaticPage")
  {
    TwoHumps("StaticPage", 5, 3);
  }

  lemma TestPageIsWikiWord()
    ensures IsWikiWord("TestPage")
  {
    TwoHumps("TestPage", 3, 3);
  }

  lemma SuitePageIsWikiWord()
    ensures IsWikiWord("SuitePage")
  {
    TwoHumps("SuitePage", 4, 3);
  }

  lemma TestChildPageIsWikiWord()
    ensures IsWikiWord("TestChildPage")
  {
    HumpStep("TestChildPage", 3);
    assert "TestChildPage"[4..] == "ChildPage";
    ChildPageIsWikiWord();
  }

  /** The names the scenarios accept. */
  lemma CapitalizedNamesAreWikiWords()
    ensures IsWikiWord("ChildPage") && IsWikiWord("StaticPage") && IsWikiWord("TestPage")
    ensures IsWikiWord("SuitePage") && IsWikiWord("TestChildPage")
  {
    ChildPageIsWikiWord();
    StaticPageIsWikiWord();
    TestPageIsWikiWord();
    SuitePageIsWikiWord();
    TestChildPageIsWikiWord();
  }

  /** The names the scenarios reject. */
  lemma RejectedNames()
    ensures !IsWikiWord("") && !IsWikiWord("hello goodbye")
    ensures !IsWikiWord("1man1mission") && !IsWikiWord("PageOne.PageTwo")
  {
    NotWikiWordAt("hello goodbye", 5);
    NotWikiWordAt("1man1mission", 0);
    NotWikiWordAt("PageOne.PageTwo", 7);
  }

  lemma NotWikiWordAt(s: string, i: nat)
    requires i < |s| && (s[i] == '.' || s[i] == ' ' || (i == 0 && '0' <= s[i] <= '9'))
    ensures !IsWikiWord(s)
  {
    if IsWikiWord(s) {
      WikiWordShape(s);
    }
  }

}
