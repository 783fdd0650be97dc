/**
 * The tab bar of the feed page: "My Tribes", "Everywhere", one tab per keyword
 * of the caller's profile, and a "Search" tab when the requested tab names an
 * activity.
 */
module Tabs {

  datatype Tab = Tab(title: string, slug: string)

  const MyTribes := Tab("My Tribes", "my_tribes")
  const Everywhere := Tab("Everywhere", "everywhere")
  const KeywordPrefix := "keyword-"
  const ActivityMarker := "activity:"

  predicate IsUpper(c: char) { 'A' <= c <= 'Z' }
  predicate IsLower(c: char) { 'a' <= c <= 'z' }
  predicate IsCased(c: char) { IsUpper(c) || IsLower(c) }

  function ToUpper(c: char): (u: char)
    ensures IsCased(c) ==> IsUpper(u)
    ensures IsLower(c) ==> u as int == c as int - 32
    ensures !IsLower(c) ==> u == c
  {
    if IsLower(c) then (c as int - 32) as char else c
  }

  function ToLower(c: char): (l: char)
    ensures IsCased(c) ==> IsLower(l)
    ensures IsUpper(c) ==> l as int == c as int + 32
    ensures !IsUpper(c) ==> l == c
  {
    if IsUpper(c) then (c as int + 32) as char else c
  }

  /** One character of `str.title()`: a letter is upper-cased when it starts a run
      of letters and lower-cased otherwise; every other character is kept. */
  function TitleAt(s: string, i: int): (c: char)
    requires 0 <= i < |s|
    ensures IsCased(c) <==> IsCased(s[i])
    ensures ToLower(c) == ToLower(s[i])
    ensures !IsCased(s[i]) ==> c == s[i]
    ensures IsCased(s[i]) ==> (IsUpper(c) <==> (i == 0 || !IsCased(s[i - 1])))
  {
    if !IsCased(s[i]) then s[i]
    else if i == 0 || !IsCased(s[i - 1]) then ToUpper(s[i])
    else ToLower(s[i])
  }

  /** Python's `str.title()` on ASCII text. */
  function Title(s: string): (t: string)
    ensures |t| == |s|
    ensures forall i :: 0 <= i < |s| ==> (IsCased(t[i]) <==> IsCased(s[i]))
    ensures forall i :: 0 <= i < |s| ==> ToLower(t[i]) == ToLower(s[i])
    ensures forall i :: 0 <= i < |s| && !IsCased(s[i]) ==> t[i] == s[i]
    ensures forall i :: 0 <= i < |s| && IsCased(s[i]) ==>
      (IsUpper(t[i]) <==> (i == 0 || !IsCased(s[i - 1])))
  {
    var t := seq(|s|, i requires 0 <= i < |s| => TitleAt(s, i));
    assert forall i :: 0 <= i < |s| ==> t[i] == TitleAt(s, i);
    t
  }

  /** Title-casing is idempotent: a title is its own title. */
  lemma TitleIdempotent(s: string)
    ensures Title(Title(s)) == Title(s)
  {
    var t := Title(s);
    var tt := Title(t);
    forall i | 0 <= i < |s| ensures tt[i] == t[i] {
      if IsCased(t[i]) {
        assert IsUpper(tt[i]) <==> IsUpper(t[i]);
      }
    }
  }

  /** Python's `sub in s`. */
  predicate Contains(s: string, sub: string) {
    (|sub| <= |s| && s[..|sub|] == sub) || (s != [] && Contains(s[1..], sub))
  }

  /** `Contains` finds `sub` at every offset where it occurs ... */
  lemma {:induction false} ContainsAt(s: string, sub: string, i: nat)
    requires i + |sub| <= |s| && s[i..i + |sub|] == sub
    ensures Contains(s, sub)
  {
    if i > 0 {
      assert s[1..][i - 1..i - 1 + |sub|] == s[i..i + |sub|];
      ContainsAt(s[1..], sub, i - 1);
    }
  }

  /** ... and only where it occurs: a match yields its offset. */
  lemma {:induction false} ContainsWitness(s: string, sub: string) returns (i: nat)
    requires Contains(s, sub)
    ensures i + |sub| <= |s| && s[i..i + |sub|] == sub
  {
    if |sub| <= |s| && s[..|sub|] == sub {
      i := 0;
    } else {
      var j := ContainsWitness(s[1..], sub);
      assert s[1..][j..j + |sub|] == s[j + 1..j + 1 + |sub|];
      i := j + 1;
    }
  }

  /** `'my_tribes' if request.user.is_authenticated else 'everywhere'`. */
  function DefaultTab(authenticated: bool): (slug: string)
    ensures slug == (if authenticated then MyTribes.slug else Everywhere.slug)
  {
    if authenticated then "my_tribes" else "everywhere"
  }

  /** The default tab is always one the bar shows: the first tab for an authenticated
      caller and the second otherwise. */
  lemma DefaultTabIsShown(keywords: seq<string>, tab: string, tabs: seq<Tab>, authenticated: bool)
    requires TabsFor(keywords, tab, tabs)
    ensures DefaultTab(authenticated) == (if authenticated then tabs[0].slug else tabs[1].slug)
  {
  }

  /** The tab list the feed page shows for the profile's `keywords` and the requested `tab`. */
  predicate TabsFor(keywords: seq<string>, tab: string, tabs: seq<Tab>) {
    |tabs| == 2 + |keywords| + (if Contains(tab, ActivityMarker) then 1 else 0) &&
    tabs[0] == MyTribes && tabs[1] == Everywhere &&
    (forall i :: 0 <= i < |keywords| ==> tabs[2 + i] == Tab(Title(keywords[i]), KeywordPrefix + keywords[i])) &&
    (Contains(tab, ActivityMarker) ==> tabs[|tabs| - 1] == Tab("Search", tab))
  }

  /** Builds the tab list as the feed page does, one append at a time. */
  method BuildTabs(keywords: seq<string>, tab: string) returns (tabs: seq<Tab>)
    ensures TabsFor(keywords, tab, tabs)
  {
    tabs := [MyTribes, Everywhere];
    for k := 0 to |keywords|
      invariant |tabs| == 2 + k
      invariant tabs[0] == MyTribes && tabs[1] == Everywhere
      invariant forall i :: 0 <= i < k ==> tabs[2 + i] == Tab(Title(keywords[i]), KeywordPrefix + keywords[i])
    {
      tabs := tabs + [Tab(Title(keywords[k]), KeywordPrefix + keywords[k])];
    }
    if Contains(tab, ActivityMarker) {
      tabs := tabs + [Tab("Search", tab)];
    }
  }

  /** A keyword's tab slug always names its keyword, so distinct keywords give distinct
      slugs, none of which is a fixed tab's slug. */
  lemma KeywordSlugsDistinct(keywords: seq<string>, tab: string, tabs: seq<Tab>, i: int, j: int)
    requires TabsFor(keywords, tab, tabs)
    requires 0 <= i < |keywords| && 0 <= j < |keywords| && keywords[i] != keywords[j]
    ensures tabs[2 + i].slug != tabs[2 + j].slug
    ensures tabs[2 + i].slug != MyTribes.slug && tabs[2 + i].slug != Everywhere.slug
  {
    assert tabs[2 + i].slug[|KeywordPrefix|..] == keywords[i];
    assert tabs[2 + j].slug[|KeywordPrefix|..] == keywords[j];
    assert tabs[2 + i].slug[0] == 'k';
  }
}
