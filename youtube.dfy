/**
 * src/youtube/mod.rs: discovery of a channel's RSS URL, and extraction of
 * entries by ONE forward cursor per entry: each field is the first node of
 * its name after the node the previous field was taken from.
 */
module Youtube {
  import opened Wrappers
  import opened Xml
  import opened Io
  import Html
  import Feed

  /** One video entry, with the fields the extractor fills. */
  datatype FeedEntry = FeedEntry(
    source: Feed.Source,
    id: string,
    title: string,
    link: string,
    published: Option<DateTime>,
    thumbnail: Option<string>)

  /** The errors that `?` propagates: a failed request or body, or a malformed document. */
  datatype MimError = RequestFailed | MalformedXml

  /**
   * `get_rss_url`: fetch the channel page and take the `href` of its first
   * `link[title=RSS]`. A failed fetch is an error; a page without such a
   * link, or whose link has no `href`, panics.
   */
  function RssUrl(handler: string, env: Env): (r: Run<Result<string, MimError>>)
    ensures env.fetch(YoutubeHost + handler).None? ==> r == Returns(Err(RequestFailed))
    ensures env.fetch(YoutubeHost + handler).Some? ==>
      var page := env.parseHtml(env.fetch(YoutubeHost + handler).value);
      (r.Returns? <==> Html.RssHref(page).Returns?) &&
      (r.Returns? ==> r.value == Ok(Html.RssHref(page).value)) &&
      (r.Panics? ==> r.reason == UnwrapNone)
  {
    match env.fetch(YoutubeHost + handler)
    case None => Returns(Err(RequestFailed))
    case Some(body) =>
      match Html.RssHref(env.parseHtml(body))
      case Returns(href) => Returns(Ok(href))
      case Panics(why) => Panics(why)
  }

  /** The names the cursor searches for, in the order of the `find` calls. */
  const FieldOrder: seq<string> := ["id", "title", "link", "published", "group"]

  /**
   * Where successive `find`s for `names` land when the cursor starts at
   * `from`: each search starts just after the previous match, and after a
   * failed search the cursor is exhausted.
   */
  function Positions(ds: seq<Node>, from: nat, names: seq<string>): (r: seq<Option<nat>>)
    ensures |r| == |names|
    decreases names
  {
    if names == [] then []
    else
      var p := FindFrom(ds, from, names[0]);
      [p] + Positions(ds, Resume(ds, p), names[1..])
  }

  /** A search that succeeds lands on a node of the searched name, at or after the start. */
  lemma {:induction false} PositionsFound(ds: seq<Node>, from: nat, names: seq<string>, k: nat)
    requires k < |names| && Positions(ds, from, names)[k].Some?
    ensures from <= Positions(ds, from, names)[k].value < |ds|
    ensures ds[Positions(ds, from, names)[k].value].name == names[k]
    decreases names
  {
    var p := FindFrom(ds, from, names[0]);
    if k > 0 {
      PositionsFound(ds, Resume(ds, p), names[1..], k - 1);
    }
  }

  /** Each search starts strictly after the previous match: the matches increase. */
  lemma {:induction false} PositionsIncrease(ds: seq<Node>, from: nat, names: seq<string>, k: nat, j: nat)
    requires k < j < |names|
    requires Positions(ds, from, names)[k].Some? && Positions(ds, from, names)[j].Some?
    ensures Positions(ds, from, names)[k].value < Positions(ds, from, names)[j].value
    decreases names
  {
    var p := FindFrom(ds, from, names[0]);
    if k > 0 {
      PositionsIncrease(ds, Resume(ds, p), names[1..], k - 1, j - 1);
    } else {
      PositionsFound(ds, Resume(ds, p), names[1..], j - 1);
    }
  }

  /** An exhausted cursor finds nothing. */
  lemma {:induction false} PositionsAtEnd(ds: seq<Node>, from: nat, names: seq<string>, k: nat)
    requires from >= |ds| && k < |names|
    ensures Positions(ds, from, names)[k].None?
    decreases names
  {
    if k > 0 {
      PositionsAtEnd(ds, |ds|, names[1..], k - 1);
    }
  }

  /** Once a search fails, every later search fails too. */
  lemma {:induction false} PositionsExhausted(ds: seq<Node>, from: nat, names: seq<string>, k: nat, j: nat)
    requires k < j < |names| && Positions(ds, from, names)[k].None?
    ensures Positions(ds, from, names)[j].None?
    decreases names
  {
    var p := FindFrom(ds, from, names[0]);
    if k > 0 {
      PositionsExhausted(ds, Resume(ds, p), names[1..], k - 1, j - 1);
    } else {
      PositionsAtEnd(ds, |ds|, names[1..], j - 1);
    }
  }

  /** `names` occur in `ds` in this order, each strictly after the previous one, from `from` on. */
  predicate OccursInOrder(ds: seq<Node>, from: nat, names: seq<string>)
    decreases names
  {
    names == [] ||
    exists i :: from <= i < |ds| && ds[i].name == names[0] && OccursInOrder(ds, i + 1, names[1..])
  }

  lemma {:induction false} OccursInOrderEarlier(ds: seq<Node>, lo: nat, hi: nat, names: seq<string>)
    requires lo <= hi && OccursInOrder(ds, hi, names)
    ensures OccursInOrder(ds, lo, names)
  {
  }

  /**
   * The greedy cursor finds the last name exactly when the names occur in
   * that order at all: taking the earliest match never loses a later one.
   */
  lemma {:induction false} PositionsLastFoundIff(ds: seq<Node>, from: nat, names: seq<string>)
    requires names != []
    ensures Positions(ds, from, names)[|names| - 1].Some? <==> OccursInOrder(ds, from, names)
    decreases names
  {
    var p := FindFrom(ds, from, names[0]);
    var rest := names[1..];
    match p
    case None =>
      if rest != [] {
        PositionsAtEnd(ds, |ds|, rest, |rest| - 1);
      }
      assert !OccursInOrder(ds, from, names);
    case Some(i0) =>
      if rest == [] {
        assert OccursInOrder(ds, i0 + 1, rest);
      } else {
        PositionsLastFoundIff(ds, i0 + 1, rest);
        if OccursInOrder(ds, from, names) {
          var i :| from <= i < |ds| && ds[i].name == names[0] && OccursInOrder(ds, i + 1, rest);
          OccursInOrderEarlier(ds, i0 + 1, i + 1, rest);
        }
      }
  }

  /**
   * What the closure in `get_rss_entries` makes of one `entry` node: the
   * `id`, `title` and `link` found by the cursor, the text found for
   * `published` parsed (a found node without text hands "" to the parser), and the
   * `url` of the first `thumbnail` below the `group`; a missing `group`
   * panics in `unwrap`.
   */
  function RssEntryOf(entry: Node, parse: string -> Option<DateTime>): (r: Run<FeedEntry>)
    ensures r.Panics? ==> r.reason == UnwrapNone
    ensures r.Returns? ==> r.value.source == Feed.Youtube && r.value.thumbnail.Some?
  {
    var ds := Descendants(entry);
    var id := FindFrom(ds, 0, "id");
    var title := FindFrom(ds, Resume(ds, id), "title");
    var link := FindFrom(ds, Resume(ds, title), "link");
    var published := FindFrom(ds, Resume(ds, link), "published");
    match FindFrom(ds, Resume(ds, published), "group")
    case None => Panics(UnwrapNone)
    case Some(g) =>
      var media := Descendants(ds[g]);
      Returns(FeedEntry(
        Feed.Youtube,
        TextOf(At(ds, id)),
        TextOf(At(ds, title)),
        AttrOf(At(ds, link), "href"),
        parse(TextOf(At(ds, published))),
        Some(AttrOf(At(media, FindFrom(media, 0, "thumbnail")), "url"))))
  }

  /**
   * An entry is extracted without a panic exactly when its descendants hold
   * an `id`, then a `title`, a `link`, a `published` and a `group`, in
   * that order; a `title` before the first `id`, say, is not enough.
   */
  lemma RssEntryReturnsIff(entry: Node, parse: string -> Option<DateTime>)
    ensures RssEntryOf(entry, parse).Returns? <==> OccursInOrder(Descendants(entry), 0, FieldOrder)
  {
    FieldPositions(Descendants(entry));
    PositionsLastFoundIff(Descendants(entry), 0, FieldOrder);
  }

  /** When the `id` search fails, the cursor is exhausted and the entry panics. */
  lemma NoIdPanics(entry: Node, parse: string -> Option<DateTime>)
    requires forall j :: 0 <= j < |Descendants(entry)| ==> Descendants(entry)[j].name != "id"
    ensures RssEntryOf(entry, parse) == Panics(UnwrapNone)
  {
    var ps := Positions(Descendants(entry), 0, FieldOrder);
    FieldPositions(Descendants(entry));
    assert ps[0].None?;
    PositionsExhausted(Descendants(entry), 0, FieldOrder, 0, 4);
  }

  /** The five searches of the cursor, one after the other. */
  lemma FieldPositions(ds: seq<Node>)
    ensures var p0 := FindFrom(ds, 0, "id");
      var p1 := FindFrom(ds, Resume(ds, p0), "title");
      var p2 := FindFrom(ds, Resume(ds, p1), "link");
      var p3 := FindFrom(ds, Resume(ds, p2), "published");
      var p4 := FindFrom(ds, Resume(ds, p3), "group");
      Positions(ds, 0, FieldOrder) == [p0, p1, p2, p3, p4]
  {
    var p0 := FindFrom(ds, 0, "id");
    var p1 := FindFrom(ds, Resume(ds, p0), "title");
    var p2 := FindFrom(ds, Resume(ds, p1), "link");
    var p3 := FindFrom(ds, Resume(ds, p2), "published");
    var p4 := FindFrom(ds, Resume(ds, p3), "group");
    PositionsCons(ds, Resume(ds, p3), ["group"]);
    assert Positions(ds, Resume(ds, p4), []) == [];
    PositionsCons(ds, Resume(ds, p2), ["published", "group"]);
    PositionsCons(ds, Resume(ds, p1), ["link", "published", "group"]);
    PositionsCons(ds, Resume(ds, p0), ["title", "link", "published", "group"]);
    PositionsCons(ds, 0, FieldOrder);
  }

  lemma PositionsCons(ds: seq<Node>, from: nat, names: seq<string>)
    requires names != []
    ensures Positions(ds, from, names) ==
      [FindFrom(ds, from, names[0])] + Positions(ds, Resume(ds, FindFrom(ds, from, names[0])), names[1..])
  {
  }

  /** The closure mapped over the `entry` nodes. */
  function Extractor(parse: string -> Option<DateTime>): (r: Node -> Run<FeedEntry>)
  {
    entry => RssEntryOf(entry, parse)
  }

  /**
   * The per-entry closure: one `descendants()` iterator consumed by five
   * successive `find`s, then a fresh iterator below the `group`.
   */
  method ExtractRssEntry(entry: Node, parse: string -> Option<DateTime>) returns (r: Run<FeedEntry>)
    ensures r == Extractor(parse)(entry) == RssEntryOf(entry, parse)
  {
    var descendants := new Cursor(entry);
    var idNode := descendants.Find("id");
    var id := TextOf(idNode);
    var titleNode := descendants.Find("title");
    var title := TextOf(titleNode);
    var linkNode := descendants.Find("link");
    var link := AttrOf(linkNode, "href");
    var publishedNode := descendants.Find("published");
    var published := TextOf(publishedNode);
    var media := descendants.Find("group");
    if media.None? {
      return Panics(UnwrapNone);
    }
    var below := new Cursor(media.value);
    var thumbnailNode := below.Find("thumbnail");
    var thumbnail := AttrOf(thumbnailNode, "url");
    r := Returns(FeedEntry(Feed.Youtube, id, title, link, parse(published), Some(thumbnail)));
  }

  /** Every entry that comes out is a YouTube entry with a thumbnail; a panic is an `unwrap`. */
  lemma RssEntriesAreYoutube(entryNodes: seq<Node>, parse: string -> Option<DateTime>)
    ensures var r := Collect(MapSeq(entryNodes, Extractor(parse)));
      (r.Returns? ==> forall e :: e in r.value ==> e.source == Feed.Youtube && e.thumbnail.Some?) &&
      (r.Panics? ==> r.reason == UnwrapNone)
  {
    var runs := MapSeq(entryNodes, Extractor(parse));
    var r := Collect(runs);
    CollectMeaning(runs);
    if r.Returns? {
      forall e | e in r.value
        ensures e.source == Feed.Youtube && e.thumbnail.Some?
      {
        var k :| 0 <= k < |r.value| && r.value[k] == e;
        assert runs[k] == RssEntryOf(entryNodes[k], parse) == Returns(e);
      }
    } else {
      var k :| 0 <= k < |runs| && runs[k] == Panics(r.reason);
      assert runs[k] == RssEntryOf(entryNodes[k], parse);
    }
  }

  /** The iterator chain over the document: one extraction per `entry` node, in document order. */
  method ParseRssEntries(root: Node, parse: string -> Option<DateTime>) returns (r: Run<seq<FeedEntry>>)
    ensures r == Collect(MapSeq(EntryNodes(root), Extractor(parse)))
  {
    var entryNodes := EntryNodes(root);
    ghost var f := Extractor(parse);
    var entries: seq<FeedEntry> := [];
    var i := 0;
    while i < |entryNodes|
      invariant 0 <= i <= |entryNodes|
      invariant Collect(MapSeq(entryNodes[..i], f)) == Returns(entries)
    {
      var e := ExtractRssEntry(entryNodes[i], parse);
      CollectStep(entryNodes, i, f, entries);
      if e.Panics? {
        return Panics(e.reason);
      }
      entries := entries + [e.value];
      i := i + 1;
    }
    assert entryNodes[..i] == entryNodes;
    r := Returns(entries);
  }

  /**
   * `get_rss_entries`: fetch the document and parse it; a failed fetch and
   * a malformed document are errors returned to the caller, and a panic
   * of the extraction aborts.
   */
  method GetRssEntries(rssUrl: string, env: Env) returns (r: Run<Result<seq<FeedEntry>, MimError>>)
    ensures env.fetch(rssUrl).None? ==> r == Returns(Err(RequestFailed))
    ensures env.fetch(rssUrl).Some? && env.parseXml(env.fetch(rssUrl).value).None? ==>
      r == Returns(Err(MalformedXml))
    ensures env.fetch(rssUrl).Some? && env.parseXml(env.fetch(rssUrl).value).Some? ==>
      var entries := Collect(MapSeq(EntryNodes(env.parseXml(env.fetch(rssUrl).value).value), Extractor(env.parseRfc3339)));
      (r.Panics? <==> entries.Panics?) &&
      (r.Panics? ==> r.reason == entries.reason) &&
      (r.Returns? ==> r.value == Ok(entries.value))
  {
    match env.fetch(rssUrl)
    case None =>
      r := Returns(Err(RequestFailed));
    case Some(content) =>
      match env.parseXml(content)
      case None =>
        r := Returns(Err(MalformedXml));
      case Some(rss) =>
        var entries := ParseRssEntries(rss, env.parseRfc3339);
        match entries
        case Panics(why) =>
          r := Panics(why);
        case Returns(es) =>
          r := Returns(Ok(es));
  }
}
