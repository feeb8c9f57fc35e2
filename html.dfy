/** The `link[title=RSS]` selection both resolvers run over a channel page. */
module Html {
  import opened Wrappers
  import opened Xml

  /** What the selector `link[title=RSS]` matches: a `link` element whose `title` is exactly "RSS". */
  predicate IsRssLink(n: Node)
  {
    n.name == "link" && "title" in n.attrs && n.attrs["title"] == "RSS"
  }

  /** The position of the first node at or after `from` that the selector matches. */
  function FirstRssLinkFrom(ds: seq<Node>, from: nat): (r: Option<nat>)
    ensures r.Some? ==> from <= r.value < |ds| && IsRssLink(ds[r.value])
    ensures r.Some? ==> forall j :: from <= j < r.value ==> !IsRssLink(ds[j])
    ensures r.None? ==> forall j :: from <= j < |ds| ==> !IsRssLink(ds[j])
    decreases |ds| - from
  {
    if from >= |ds| then None
    else if IsRssLink(ds[from]) then Some(from)
    else FirstRssLinkFrom(ds, from + 1)
  }

  /**
   * `select(..).next().unwrap()` followed by `attr("href").unwrap()`: the
   * `href` of the first matching element; a page without one, or whose
   * first one has no `href`, panics.
   */
  function RssHref(page: Node): (r: Run<string>)
    ensures r.Returns? <==>
      (exists k :: 0 <= k < |Descendants(page)| && IsRssLink(Descendants(page)[k])) &&
      "href" in Descendants(page)[FirstRssLinkFrom(Descendants(page), 0).value].attrs
    ensures r.Returns? ==>
      var k := FirstRssLinkFrom(Descendants(page), 0).value;
      r.value == Descendants(page)[k].attrs["href"] &&
      forall j :: 0 <= j < k ==> !IsRssLink(Descendants(page)[j])
    ensures r.Panics? ==> r.reason == UnwrapNone
  {
    var ds := Descendants(page);
    match FirstRssLinkFrom(ds, 0)
    case None => Panics(UnwrapNone)
    case Some(k) =>
      if "href" in ds[k].attrs then Returns(ds[k].attrs["href"]) else Panics(UnwrapNone)
  }
}
