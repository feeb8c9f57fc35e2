/**
 * src/feed/mod.rs: the feed configuration values, their display and token
 * parsing, URL resolution, and the extraction of entries from a syndication
 * document by a last-write-wins fold over each entry's descendants.
 */
module Feed {
  import opened Wrappers
  import opened Xml
  import opened Io
  import Html

  datatype Source = RSS | Youtube

  datatype Category = Entertainment | Music | Technology

  /** `#[default]` of each enum. */
  const DefaultSource: Source := RSS
  const DefaultCategory: Category := Entertainment

  /** A subscription: `url`, when present, overrides resolution from `id` and `source`. */
  datatype Feed = Feed(id: string, source: Source, category: Category, url: Option<string>)

  /** One syndicated item, as the generic extractor fills it. */
  datatype Entry = Entry(id: string, title: string, link: string, published: Option<DateTime>)

  /** `Entry::default()`: empty strings and no timestamp. */
  const EmptyEntry: Entry := Entry("", "", "", None)

  // ---------------------------------------------------------------------
  // Display and From<String>

  /** `Display for Source`: the capitalised name. */
  function SourceName(s: Source): (r: string)
  {
    match s
    case RSS => "RSS"
    case Youtube => "Youtube"
  }

  /** `From<String> for Source`: only the lower-case tokens; anything else panics. */
  function SourceFrom(token: string): (r: Run<Source>)
    ensures r == Returns(RSS) <==> token == "rss"
    ensures r == Returns(Youtube) <==> token == "youtube"
    ensures r.Panics? <==> token != "rss" && token != "youtube"
    ensures r.Panics? ==> r.reason == Unimplemented("Invalid command")
  {
    match token
    case "rss" => Returns(RSS)
    case "youtube" => Returns(Youtube)
    case _ => Panics(Unimplemented("Invalid command"))
  }

  /** `Display for Category`: the capitalised name. */
  function CategoryName(c: Category): (r: string)
  {
    match c
    case Entertainment => "Entertainment"
    case Music => "Music"
    case Technology => "Technology"
  }

  /** `From<String> for Category`: only the lower-case tokens; anything else panics. */
  function CategoryFrom(token: string): (r: Run<Category>)
    ensures r == Returns(Entertainment) <==> token == "entertainment"
    ensures r == Returns(Music) <==> token == "music"
    ensures r == Returns(Technology) <==> token == "technology"
    ensures r.Panics? <==> token != "entertainment" && token != "music" && token != "technology"
    ensures r.Panics? ==> r.reason == Unimplemented("Invalid command")
  {
    match token
    case "entertainment" => Returns(Entertainment)
    case "music" => Returns(Music)
    case "technology" => Returns(Technology)
    case _ => Panics(Unimplemented("Invalid command"))
  }

  /** ASCII lower-casing, to relate displayed names to tokens. */
  function Lower(s: string): (r: string)
    ensures |r| == |s|
  {
    seq(|s|, k requires 0 <= k < |s| => if 'A' <= s[k] <= 'Z' then s[k] - 'A' + 'a' else s[k])
  }

  /** Parsing what Display prints panics: display-then-parse does not round-trip. */
  lemma DisplayedSourceRejected(s: Source)
    ensures SourceFrom(SourceName(s)).Panics?
  {
  }

  /** Parsing the lower-cased display name gives the source back. */
  lemma LoweredSourceNameParses(s: Source)
    ensures SourceFrom(Lower(SourceName(s))) == Returns(s)
  {
    match s
    case RSS => assert Lower("RSS") == "rss";
    case Youtube => assert Lower("Youtube") == "youtube";
  }

  /** Parsing what Display prints panics for every category too. */
  lemma DisplayedCategoryRejected(c: Category)
    ensures CategoryFrom(CategoryName(c)).Panics?
  {
  }

  /** Parsing the lower-cased display name gives the category back. */
  lemma LoweredCategoryNameParses(c: Category)
    ensures CategoryFrom(Lower(CategoryName(c))) == Returns(c)
  {
    match c
    case Entertainment => assert Lower("Entertainment") == "entertainment";
    case Music => assert Lower("Music") == "music";
    case Technology => assert Lower("Technology") == "technology";
  }

  // ---------------------------------------------------------------------
  // URL resolution

  /**
   * `get_url`: the explicit URL verbatim; otherwise, for a YouTube feed,
   * the `href` of the first `link[title=RSS]` of the fetched channel page
   * (None when the fetch fails, a panic when the page has no such link or
   * it has no `href`); any other source is unimplemented.
   */
  function GetUrl(feed: Feed, env: Env): (r: Run<Option<string>>)
    ensures feed.url.Some? ==> r == Returns(feed.url)
    ensures feed.url.None? && feed.source != Youtube ==> r == Panics(Unimplemented(""))
    ensures feed.url.None? && feed.source == Youtube && env.fetch(YoutubeHost + feed.id).None? ==>
      r == Returns(None)
    ensures feed.url.None? && feed.source == Youtube && env.fetch(YoutubeHost + feed.id).Some? ==>
      var page := env.parseHtml(env.fetch(YoutubeHost + feed.id).value);
      (r.Returns? <==> Html.RssHref(page).Returns?) &&
      (r.Returns? ==> r.value == Some(Html.RssHref(page).value)) &&
      (r.Panics? ==> r.reason == UnwrapNone)
  {
    if feed.url.Some? then Returns(feed.url)
    else
      match feed.source
      case Youtube =>
        (match env.fetch(YoutubeHost + feed.id)
         case None => Returns(None)
         case Some(body) =>
           (match Html.RssHref(env.parseHtml(body))
            case Returns(href) => Returns(Some(href))
            case Panics(why) => Panics(why)))
      case _ => Panics(Unimplemented(""))
  }

  /** The resolved URL is never the empty Option except after a failed channel-page fetch. */
  lemma {:induction false} GetUrlNoneOnlyOnFetchFailure(feed: Feed, env: Env)
    requires GetUrl(feed, env) == Returns(None)
    ensures feed.url.None? && feed.source == Youtube && env.fetch(YoutubeHost + feed.id).None?
  {
  }

  // ---------------------------------------------------------------------
  // Entry extraction

  /** The `published` field from a node: None for no node or empty text, else the parse (None on failure). */
  function PublishedOf(node: Option<Node>, parse: string -> Option<DateTime>): (r: Option<DateTime>)
    ensures TextOf(node) == "" ==> r == None
    ensures TextOf(node) != "" ==> r == parse(TextOf(node))
  {
    var text := TextOf(node);
    if text == "" then None else parse(text)
  }

  /**
   * What the fold over `ds` leaves in each field: the value taken from the
   * LAST node of that name (id and title: its text; link: its `href`;
   * published: its parsed text), or the default when there is none.
   */
  function LastWriteEntry(ds: seq<Node>, parse: string -> Option<DateTime>): (r: Entry)
  {
    Entry(
      TextOf(At(ds, LastIndex(ds, "id"))),
      TextOf(At(ds, LastIndex(ds, "title"))),
      AttrOf(At(ds, LastIndex(ds, "link")), "href"),
      PublishedOf(At(ds, LastIndex(ds, "published")), parse))
  }

  /** With nothing seen, the fold's accumulator is `Entry::default()`. */
  lemma LastWriteEntryEmpty(parse: string -> Option<DateTime>)
    ensures LastWriteEntry([], parse) == EmptyEntry
  {
  }

  /**
   * One more node: an `id`/`title`/`link`/`published` node overwrites
   * exactly its own field, and any other name leaves the entry unchanged.
   */
  lemma {:induction false} LastWriteEntrySnoc(ds: seq<Node>, d: Node, parse: string -> Option<DateTime>)
    ensures d.name == "id" ==>
      LastWriteEntry(ds + [d], parse) == LastWriteEntry(ds, parse).(id := TextOf(Some(d)))
    ensures d.name == "title" ==>
      LastWriteEntry(ds + [d], parse) == LastWriteEntry(ds, parse).(title := TextOf(Some(d)))
    ensures d.name == "link" ==>
      LastWriteEntry(ds + [d], parse) == LastWriteEntry(ds, parse).(link := AttrOf(Some(d), "href"))
    ensures d.name == "published" ==>
      LastWriteEntry(ds + [d], parse) == LastWriteEntry(ds, parse).(published := PublishedOf(Some(d), parse))
    ensures d.name !in {"id", "title", "link", "published"} ==>
      LastWriteEntry(ds + [d], parse) == LastWriteEntry(ds, parse)
  {
    var ds' := ds + [d];
    assert ds'[..|ds'| - 1] == ds;
  }

  /** Nodes named anything else than the four fields do not change what the fold produces. */
  lemma {:induction false} IgnoredNamesChangeNothing(ds: seq<Node>, extra: seq<Node>, parse: string -> Option<DateTime>)
    requires forall k :: 0 <= k < |extra| ==> extra[k].name !in {"id", "title", "link", "published"}
    ensures LastWriteEntry(ds + extra, parse) == LastWriteEntry(ds, parse)
    decreases |extra|
  {
    if extra != [] {
      var init, x := extra[..|extra| - 1], extra[|extra| - 1];
      assert ds + extra == (ds + init) + [x];
      LastWriteEntrySnoc(ds + init, x, parse);
      IgnoredNamesChangeNothing(ds, init, parse);
    } else {
      assert ds + extra == ds;
    }
  }

  /**
   * The `for_each` over one entry's descendants: starting from the default
   * entry, each descendant overwrites the field its name selects.
   */
  method ExtractEntry(entry: Node, parse: string -> Option<DateTime>) returns (e: Entry)
    ensures e == LastWriteEntry(Descendants(entry), parse)
  {
    var ds := Descendants(entry);
    e := EmptyEntry;
    var i := 0;
    while i < |ds|
      invariant 0 <= i <= |ds|
      invariant e == LastWriteEntry(ds[..i], parse)
    {
      var d := ds[i];
      assert ds[..i + 1] == ds[..i] + [d];
      LastWriteEntrySnoc(ds[..i], d, parse);
      match d.name {
        case "id" => e := e.(id := TextOf(Some(d)));
        case "title" => e := e.(title := TextOf(Some(d)));
        case "published" =>
          var published := TextOf(Some(d));
          e := e.(published := if published == "" then None else parse(published));
        case "link" => e := e.(link := AttrOf(Some(d), "href"));
        case _ =>
      }
      i := i + 1;
    }
    assert ds[..i] == ds;
  }

  /** The entries the fold produces for the given `entry` nodes, one each, in order. */
  function EntriesOf(entryNodes: seq<Node>, parse: string -> Option<DateTime>): (r: seq<Entry>)
    ensures |r| == |entryNodes|
    ensures forall k :: 0 <= k < |r| ==> r[k] == LastWriteEntry(Descendants(entryNodes[k]), parse)
  {
    seq(|entryNodes|, k requires 0 <= k < |entryNodes| => LastWriteEntry(Descendants(entryNodes[k]), parse))
  }

  /**
   * The `filter`/`map`/`collect` over the document: one entry per `entry`
   * node, in document order, each extracted by `ExtractEntry`.
   */
  method ParseEntries(root: Node, parse: string -> Option<DateTime>) returns (entries: seq<Entry>)
    ensures entries == EntriesOf(EntryNodes(root), parse)
    ensures |entries| == |EntryNodes(root)|
  {
    var entryNodes := EntryNodes(root);
    entries := [];
    var i := 0;
    while i < |entryNodes|
      invariant 0 <= i <= |entryNodes|
      invariant entries == EntriesOf(entryNodes[..i], parse)
    {
      var e := ExtractEntry(entryNodes[i], parse);
      assert entryNodes[..i + 1] == entryNodes[..i] + [entryNodes[i]];
      EntriesOfSnoc(entryNodes[..i], entryNodes[i], parse);
      entries := entries + [e];
      i := i + 1;
    }
    assert entryNodes[..i] == entryNodes;
  }

  lemma EntriesOfSnoc(entryNodes: seq<Node>, d: Node, parse: string -> Option<DateTime>)
    ensures EntriesOf(entryNodes + [d], parse) == EntriesOf(entryNodes, parse) + [LastWriteEntry(Descendants(d), parse)]
  {
    assert forall k :: 0 <= k < |entryNodes| ==> (entryNodes + [d])[k] == entryNodes[k];
  }

  /**
   * `get_entries`: resolve the URL, fetch it, parse it, extract. A missing
   * URL, a failed fetch and a malformed document all give no entries; only
   * a panic of `get_url` escapes.
   */
  method GetEntries(feed: Feed, env: Env) returns (r: Run<seq<Entry>>)
    ensures r.Panics? <==> GetUrl(feed, env).Panics?
    ensures r.Panics? ==> r.reason == GetUrl(feed, env).reason
    ensures GetUrl(feed, env) == Returns(None) ==> r == Returns([])
    ensures GetUrl(feed, env).Returns? && GetUrl(feed, env).value.Some? ==>
      var url := GetUrl(feed, env).value.value;
      r.Returns? &&
      (env.fetch(url).None? ==> r.value == []) &&
      (env.fetch(url).Some? && env.parseXml(env.fetch(url).value).None? ==> r.value == []) &&
      (env.fetch(url).Some? && env.parseXml(env.fetch(url).value).Some? ==>
        var root := env.parseXml(env.fetch(url).value).value;
        r.value == EntriesOf(EntryNodes(root), env.parseRfc3339))
  {
    match GetUrl(feed, env)
    case Panics(why) =>
      r := Panics(why);
    case Returns(None) =>
      r := Returns([]);
    case Returns(Some(url)) =>
      match env.fetch(url)
      case None =>
        r := Returns([]);
      case Some(content) =>
        match env.parseXml(content)
        case None =>
          r := Returns([]);
        case Some(root) =>
          var entries := ParseEntries(root, env.parseRfc3339);
          r := Returns(entries);
  }
}
