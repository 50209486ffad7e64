/**
 * The related-content fetch: the request URL built from a place name, the
 * titles collected from the response's `pages` array, and the one
 * notification that lists them. The HTTP GET and the JSON parsing are
 * foreign calls; their outcome is the `Response` value.
 */
module RelatedContent {
  import opened Optional
  import opened Notifications

  const UrlPrefix: string := "https://en.wikipedia.org/api/rest_v1/page/related/"
  const BodyPrefix: string := "Contenidos relacionados en Wikipedia: "
  const Separator: string := ", "

  /**
   * What reading the URL and parsing its body yields. `Unavailable` is every
   * failure before the `pages` array is in hand: a network error, a non-200
   * status, a body that is not JSON, no `pages` array. Otherwise one entry
   * per page, in response order: the page's title, or None when
   * `getJSONObject(i).getString("title")` throws for that page.
   */
  datatype Response = Unavailable | Pages(pages: seq<Option<string>>)

  /** The character `replace(" ", "_")` puts in place of `ch`. */
  function Underscored(ch: char): char
  {
    if ch == ' ' then '_' else ch
  }

  /** Every space becomes an underscore; nothing else changes. */
  function ReplaceSpaces(s: string): (r: string)
    ensures |r| == |s|
    ensures forall i :: 0 <= i < |s| ==> r[i] == Underscored(s[i])
    ensures ' ' !in r
  {
    if s == [] then [] else [Underscored(s[0])] + ReplaceSpaces(s[1..])
  }

  /** The URL fetched for `placeName`: the fixed prefix followed by the place name with spaces underscored. */
  function RelatedUrl(placeName: string): (url: string)
    ensures |url| == |UrlPrefix| + |placeName|
    ensures url[..|UrlPrefix|] == UrlPrefix
    ensures ' ' !in url[|UrlPrefix|..]
    ensures forall i :: 0 <= i < |placeName| ==> url[|UrlPrefix| + i] == Underscored(placeName[i])
  {
    UrlPrefix + ReplaceSpaces(placeName)
  }

  predicate SpaceOrUnderscore(ch: char)
  {
    ch == ' ' || ch == '_'
  }

  /** Two place names are fetched at the same URL iff they differ only by swapping spaces and underscores. */
  lemma SameUrlIff(a: string, b: string)
    ensures RelatedUrl(a) == RelatedUrl(b) <==>
      |a| == |b| &&
      forall i :: 0 <= i < |a| ==> a[i] == b[i] || (SpaceOrUnderscore(a[i]) && SpaceOrUnderscore(b[i]))
  {
    var ua, ub := RelatedUrl(a), RelatedUrl(b);
    if |a| == |b| && forall i :: 0 <= i < |a| ==> a[i] == b[i] || (SpaceOrUnderscore(a[i]) && SpaceOrUnderscore(b[i])) {
      assert forall i :: 0 <= i < |ua| ==> ua[i] == ub[i] by {
        forall i | 0 <= i < |ua| ensures ua[i] == ub[i] {
          if i >= |UrlPrefix| {
            assert ua[i] == Underscored(a[i - |UrlPrefix|]);
            assert ub[i] == Underscored(b[i - |UrlPrefix|]);
          } else {
            assert ua[i] == ua[..|UrlPrefix|][i] == ub[..|UrlPrefix|][i] == ub[i];
          }
        }
      }
    }
    if ua == ub {
      forall i | 0 <= i < |a|
        ensures a[i] == b[i] || (SpaceOrUnderscore(a[i]) && SpaceOrUnderscore(b[i]))
      {
        assert ua[|UrlPrefix| + i] == ub[|UrlPrefix| + i];
      }
    }
  }

  /** Underscoring twice is underscoring once, and a name without spaces is left as it is. */
  lemma ReplaceSpacesIdempotent(s: string)
    ensures ReplaceSpaces(ReplaceSpaces(s)) == ReplaceSpaces(s)
    ensures ' ' !in s ==> ReplaceSpaces(s) == s
  {
    var r := ReplaceSpaces(s);
    assert ReplaceSpaces(r) == r by {
      forall i | 0 <= i < |r| ensures ReplaceSpaces(r)[i] == r[i] {
        assert r[i] != ' ';
      }
    }
    if ' ' !in s {
      forall i | 0 <= i < |s| ensures r[i] == s[i] {
        assert s[i] != ' ';
      }
    }
  }

  /** The example of a place whose name has a space and a non-ASCII letter. */
  lemma SanJoseUrl()
    ensures RelatedUrl("San José") == UrlPrefix + "San_José"
  {
    assert ReplaceSpaces("San José") == "San_José";
  }

  /** The combined length of the items. */
  function TotalLength(items: seq<string>): nat
    decreases |items|
  {
    if items == [] then 0 else |items[0]| + TotalLength(items[1..])
  }

  /**
   * `joinToString(", ")`: the items separated by ", ", with no prefix or
   * suffix. The result starts with the first item and is as long as all
   * items plus one separator between each two.
   */
  function Join(items: seq<string>): (r: string)
    ensures |items| == 0 ==> r == ""
    ensures |items| > 0 ==> |r| == TotalLength(items) + |Separator| * (|items| - 1)
    ensures |items| > 0 ==> r[..|items[0]|] == items[0]
    decreases |items|
  {
    if |items| == 0 then ""
    else if |items| == 1 then items[0]
    else items[0] + Separator + Join(items[1..])
  }

  /**
   * Cutting a string at every ", ": the inverse of `Join` for items without
   * a comma. There is always at least one piece.
   */
  function Split(s: string): (parts: seq<string>)
    ensures |parts| >= 1
    decreases |s|
  {
    if |s| < 2 then [s]
    else if s[0] == ',' && s[1] == ' ' then [""] + Split(s[2..])
    else
      var rest := Split(s[1..]);
      [[s[0]] + rest[0]] + rest[1..]
  }

  /** A comma-free prefix is glued onto the first piece of what follows it. */
  lemma {:induction false} SplitCommaFreePrefix(t: string, rest: string)
    requires ',' !in t
    ensures Split(t + rest) == [t + Split(rest)[0]] + Split(rest)[1..]
    decreases |t|
  {
    var r := Split(rest);
    if t == [] {
      assert t + rest == rest;
      assert t + r[0] == r[0];
      assert r == [r[0]] + r[1..];
    } else {
      var s := t + rest;
      if |s| < 2 {
        assert t == [s[0]] && rest == [];
      } else {
        assert s[0] == t[0] && s[0] != ',';
        assert s[1..] == t[1..] + rest;
        SplitCommaFreePrefix(t[1..], rest);
        assert [t[0]] + (t[1..] + r[0]) == t + r[0];
      }
    }
  }

  /** Splitting the joined titles gives the titles back, when no title has a comma. */
  lemma {:induction false} SplitJoin(items: seq<string>)
    requires |items| >= 1
    requires forall i :: 0 <= i < |items| ==> ',' !in items[i]
    ensures Split(Join(items)) == items
    decreases |items|
  {
    if |items| == 1 {
      SplitCommaFreePrefix(items[0], "");
      assert items[0] + "" == items[0];
    } else {
      var tail := Join(items[1..]);
      SplitJoin(items[1..]);
      var s := Separator + tail;
      assert s[2..] == tail;
      assert Split(s) == [""] + items[1..];
      SplitCommaFreePrefix(items[0], s);
      assert Join(items) == items[0] + s;
      assert Split(s)[0] == "" && Split(s)[1..] == items[1..];
      assert items[0] + "" == items[0];
      assert items == [items[0]] + items[1..];
    }
  }

  /** The body for the three titles "A", "B", "C". */
  lemma ThreeTitlesBody()
    ensures BodyPrefix + Join(["A", "B", "C"]) == BodyPrefix + "A, B, C"
  {
    assert ["A", "B", "C"][1..] == ["B", "C"];
    assert ["B", "C"][1..] == ["C"];
    assert Join(["C"]) == "C";
    assert Join(["B", "C"]) == "B" + Separator + "C";
    assert Join(["A", "B", "C"]) == "A" + Separator + ("B" + Separator + "C");
  }

  /** Every page of the response carries a title. */
  predicate AllTitled(pages: seq<Option<string>>)
  {
    forall i :: 0 <= i < |pages| ==> pages[i].Some?
  }

  /** The titles of fully titled pages, in response order. */
  function TitlesOf(pages: seq<Option<string>>): seq<string>
    requires AllTitled(pages)
  {
    seq(|pages|, i requires 0 <= i < |pages| && AllTitled(pages) => pages[i].value)
  }

  /**
   * The `for` loop over the pages array, filling `relatedArticles`. The first
   * page without a title throws out of the loop: None.
   */
  method CollectTitles(pages: seq<Option<string>>) returns (titles: Option<seq<string>>)
    ensures titles.Some? <==> AllTitled(pages)
    ensures titles.Some? ==> |titles.value| == |pages|
    ensures titles.Some? ==> forall i :: 0 <= i < |pages| ==> titles.value[i] == pages[i].value
    ensures titles.Some? ==> titles.value == TitlesOf(pages)
  {
    var relatedArticles: seq<string> := [];
    var i := 0;
    while i < |pages|
      invariant 0 <= i <= |pages|
      invariant |relatedArticles| == i
      invariant forall k :: 0 <= k < i ==> pages[k].Some? && relatedArticles[k] == pages[k].value
    {
      match pages[i]
      case None =>
        return None;
      case Some(title) =>
        relatedArticles := relatedArticles + [title];
      i := i + 1;
    }
    return Some(relatedArticles);
  }

  /**
   * The notifications the fetch sends for `placeName` given the response: one
   * iff the response has at least one page and every page has a title, and
   * none otherwise (failure, no pages, or a page without a title). That one
   * carries the place name and a body that starts with the fixed prefix.
   */
  function RelatedNotices(placeName: string, response: Response): (r: seq<Notice>)
    ensures |r| <= 1
    ensures |r| == 1 <==> response.Pages? && |response.pages| > 0 && AllTitled(response.pages)
    ensures |r| == 1 ==> r[0].payload == Some(placeName) && r[0].message.Related?
    ensures |r| == 1 ==>
      |r[0].message.body| >= |BodyPrefix| && r[0].message.body[..|BodyPrefix|] == BodyPrefix
  {
    match response
    case Unavailable => []
    case Pages(pages) =>
      if |pages| > 0 && AllTitled(pages) then
        [Notice(Related(BodyPrefix + Join(TitlesOf(pages))), Some(placeName))]
      else []
  }

  /**
   * The body of the notification the fetch sends lists the page titles in
   * response order, one per page.
   */
  lemma RelatedBodyListsTitles(placeName: string, response: Response)
    ensures |RelatedNotices(placeName, response)| == 1 ==>
      exists titles: seq<string> ::
        |titles| == |response.pages| &&
        (forall i :: 0 <= i < |titles| ==> response.pages[i] == Some(titles[i])) &&
        RelatedNotices(placeName, response)[0].message == Related(BodyPrefix + Join(titles))
  {
    if |RelatedNotices(placeName, response)| == 1 {
      var titles := TitlesOf(response.pages);
      assert forall i :: 0 <= i < |titles| ==> response.pages[i] == Some(titles[i]);
    }
  }
}
