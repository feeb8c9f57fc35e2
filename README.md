# mim feed core, modelled in Dafny

mim is a command-line reader for content feeds. A user configures feeds.
Each feed has an identifier, a source (RSS or YouTube), a category and an
optional explicit URL. For each feed, mim resolves its syndication URL,
fetches the syndication document, and turns every `entry` element into a
uniform entry record.

The project models the core of that pipeline:

- `wrappers.dfy` (module `Wrappers`): `Option`, `Result` and `Run`. A `Run`
  is the outcome of a Rust call that may panic: it either returns a value or
  panics with `unimplemented!` or with an `unwrap()` on `None`. This module
  also holds `collect` over a lazy iterator whose items may panic.
- `xml.dfy` (module `Xml`): an already-parsed document tree and its
  pre-order `descendants()` traversal (the node itself first). It holds the
  two total accessors `get_text_from_node` and `get_attr_from_node`, the
  searches over a traversal, and class `Cursor`. A `Cursor` is one
  `descendants()` iterator whose `find` consumes nodes up to and including
  the match.
- `io.dfy` (module `Io`): the collaborators the core calls but does not
  implement. These are the HTTP fetch, the XML parser, the HTML parser and
  the RFC 3339 timestamp parser. Each is a function passed in as a field
  of `Env`. The module also declares the fixed YouTube host prefix as the
  constant `YoutubeHost`.
- `html.dfy` (module `Html`): the selector `link[title=RSS]` and the `href`
  taken from its first match.
- `feed.dfy` (module `Feed`): `Source`, `Category` and their display and
  token parsing. It also holds `Feed`, `Entry`, URL resolution (`get_url`)
  and the generic extractor (`get_entries`). The extractor is a
  last-write-wins fold over each entry's descendants. Method `ExtractEntry`
  is that fold, and function `LastWriteEntry` specifies it declaratively:
  each field comes from the last node of its name.
- `youtube.dfy` (module `Youtube`): channel RSS URL discovery and the
  YouTube extractor. The extractor uses ONE forward cursor per entry, so
  each field is the first node of its name after the previous field's node.
  Method `ExtractRssEntry` drives a `Cursor`. Function `RssEntryOf`
  specifies it by chained first-match searches. Lemma `RssEntryReturnsIff`
  shows that an entry is extracted without a panic exactly when its five
  fields occur in that order.

Behaviour of the code worth knowing:

- A channel page without a `link[title=RSS]` element, or whose first such
  element has no `href`, makes `get_url` and `get_rss_url` panic (`unwrap`).
- `get_url` on a non-YouTube feed without an explicit URL panics with
  `unimplemented!()`.
- The generic extractor in `src/feed/mod.rs` fills no thumbnail. Its
  `Entry` has no such field, and a `group` element is ignored there.
- `get_rss_entries` returns a malformed document as an error. It does not
  return an empty sequence.
- A fetch is a failure only when the transport or the body read fails. No
  HTTP status is checked.
- `Display` gives capitalised names (`RSS`, `Youtube`, `Music`). Parsing
  accepts only the lowercase tokens, so display-then-parse does not round
  trip.
- `src/youtube/mod.rs` imports `FeedEntry` and `FeedSource` from the crate
  root, which does not define them. `FeedSource` is modelled by
  `Feed.Source`. `FeedEntry` is modelled with exactly the fields that
  `src/youtube/mod.rs` fills.

## Model

| member | source | states |
|---|---|---|
| Xml.Descendants | src/youtube/mod.rs:25-26 | the traversal starts with the node itself, and a leaf's traversal is just the leaf |
| Xml.ChildDescendantsIncluded | src/youtube/mod.rs:46-49 | every node in the traversal of a child is in the traversal of its parent |
| Xml.DescendantsTransitive | src/youtube/mod.rs:43-49 | every node below a node of the traversal (such as the `thumbnail` searched below the `group`) is itself in the traversal |
| Xml.TextOf | src/xml/mod.rs:7-14 | no node gives ""; a node with text gives exactly that text; a node without text gives "" |
| Xml.AttrOf | src/xml/mod.rs:17-24 | no node gives ""; a present attribute gives its value verbatim; a missing attribute gives "" |
| Xml.Named | src/youtube/mod.rs:27 | the filter keeps only nodes of the given name and never lengthens the sequence |
| Xml.NamedMembers | src/feed/mod.rs:108-111 | a node is in the filtered sequence if and only if it is in the traversal and has the given name |
| Xml.FindFrom | src/youtube/mod.rs:31 | `find` returns the first position at or after the start holding the name, and returns nothing only when no such position exists |
| Xml.LastIndex | src/feed/mod.rs:115-141 | the last position holding the name: no later node has that name, and nothing is returned only when no node has it |
| Xml.Cursor.constructor | src/youtube/mod.rs:29 | a fresh `descendants()` iterator over the entry, positioned at its start |
| Xml.Cursor.Find | src/youtube/mod.rs:29-45 | `find` yields the first match from the current position and moves just past it; on failure it exhausts the iterator |
| Html.FirstRssLinkFrom | src/youtube/mod.rs:16-17 | the first position whose node is a `link` whose `title` is exactly "RSS", with no such node before it |
| Html.RssHref | src/youtube/mod.rs:15-19 | returns if and only if a matching link exists and the first one has an `href`, and then returns that `href`; otherwise an `unwrap` panic |
| Feed.SourceName | src/feed/mod.rs:15-23 | RSS displays as "RSS" and Youtube as "Youtube" |
| Feed.SourceFrom | src/feed/mod.rs:25-33 | "rss" and "youtube" parse to RSS and Youtube; every other string panics with `unimplemented!("Invalid command")` |
| Feed.DisplayedSourceRejected | src/feed/mod.rs:15-33 | parsing the displayed name of any source panics, so display-then-parse does not round trip |
| Feed.LoweredSourceNameParses | src/feed/mod.rs:15-33 | parsing the lowercase of a source's displayed name gives that source back |
| Feed.CategoryName | src/feed/mod.rs:43-52 | each category displays as its capitalised name |
| Feed.CategoryFrom | src/feed/mod.rs:54-63 | exactly "entertainment", "music" and "technology" parse, to their categories; every other string panics with `unimplemented!("Invalid command")` |
| Feed.DisplayedCategoryRejected | src/feed/mod.rs:43-63 | parsing the displayed name of any category panics |
| Feed.LoweredCategoryNameParses | src/feed/mod.rs:43-63 | parsing the lowercase of a category's displayed name gives that category back |
| Feed.GetUrl | src/feed/mod.rs:82-102 | an explicit URL is returned verbatim; otherwise a non-YouTube source panics; a YouTube source gives None when the channel fetch fails, else the first RSS link's `href`, panicking exactly when that link or its `href` is missing |
| Feed.GetUrlNoneOnlyOnFetchFailure | src/feed/mod.rs:82-102 | resolution yields None only for a YouTube feed without an explicit URL whose channel page fetch failed |
| Feed.PublishedOf | src/feed/mod.rs:125-132 | empty or absent text gives None; otherwise the timestamp parser's result, where a parse failure is None |
| Feed.LastWriteEntryEmpty | src/feed/mod.rs:114 | before any node is seen, the accumulator is `Entry::default()`: empty strings and no timestamp |
| Feed.LastWriteEntrySnoc | src/feed/mod.rs:115-141 | a node named `id`, `title`, `link` or `published` overwrites exactly its own field (text, text, `href`, parsed text); any other name changes nothing |
| Feed.IgnoredNamesChangeNothing | src/feed/mod.rs:139 | appending nodes with any other names leaves the extracted entry unchanged |
| Feed.ExtractEntry | src/feed/mod.rs:113-143 | the `for_each` fold over an entry's descendants yields each field from the last node of that name, or the default when there is none |
| Feed.EntriesOf | src/feed/mod.rs:109-145 | one entry per `entry` node, in the same order, each the last-write-wins extraction of that node |
| Feed.ParseEntries | src/feed/mod.rs:108-146 | the entries returned number exactly the `entry` nodes of the document, come in document order, and each is that node's extraction |
| Feed.GetEntries | src/feed/mod.rs:104-151 | panics exactly when URL resolution panics; a missing URL, a failed fetch or a malformed document give no entries; otherwise the document's entries |
| Youtube.RssUrl | src/youtube/mod.rs:10-20 | a failed channel fetch is an error; otherwise the first RSS link's `href`, panicking with `unwrap` exactly when it is missing |
| Youtube.PositionsFound | src/youtube/mod.rs:29-45 | each successful `find` of the chain lands, at or after the start, on a node of the searched name |
| Youtube.PositionsIncrease | src/youtube/mod.rs:29-45 | every search starts strictly after the previous match, so the found positions increase |
| Youtube.PositionsAtEnd | src/youtube/mod.rs:29-45 | an exhausted iterator finds nothing |
| Youtube.PositionsExhausted | src/youtube/mod.rs:29-45 | once a `find` fails, every later `find` on the same iterator fails too |
| Youtube.OccursInOrderEarlier | src/youtube/mod.rs:29-45 | names occurring in order after some position also occur in order after any earlier position |
| Youtube.PositionsLastFoundIff | src/youtube/mod.rs:29-45 | the greedy chain of `find`s finds its last name if and only if the names occur in that order at all |
| Youtube.FieldPositions | src/youtube/mod.rs:29-45 | the five searches `id`, `title`, `link`, `published`, `group` are the chain of first matches, each resumed just past the previous one |
| Youtube.RssEntryOf | src/youtube/mod.rs:28-61 | an extraction panics only by `unwrap`; a returned entry has source Youtube and a thumbnail that is always present |
| Youtube.RssEntryReturnsIff | src/youtube/mod.rs:29-45 | an entry is extracted without panicking if and only if `id`, `title`, `link`, `published` and `group` occur in that order among its descendants |
| Youtube.NoIdPanics | src/youtube/mod.rs:30-45 | with no `id` in the entry, the iterator is exhausted and the `group` unwrap panics |
| Youtube.ExtractRssEntry | src/youtube/mod.rs:28-61 | five successive `find`s on one iterator, then a fresh search below the `group`, compute exactly the chained first-match extraction |
| Youtube.RssEntriesAreYoutube | src/youtube/mod.rs:53-62 | every collected entry has source Youtube and a thumbnail, and a panic of the collection is an `unwrap` |
| Youtube.ParseRssEntries | src/youtube/mod.rs:25-62 | the iterator chain collects one extraction per `entry` node in document order, and stops at the first panicking extraction |
| Youtube.GetRssEntries | src/youtube/mod.rs:22-64 | a failed fetch and a malformed document are errors; otherwise it panics exactly when some extraction panics, else returns `Ok` of all entries |
| Wrappers.CollectMeaning | src/youtube/mod.rs:53-62 | `collect` returns exactly when no item panics, and then holds every item's value in order; otherwise it panics with the first panicking item's reason |
| Wrappers.CollectPanicsPrefix | src/youtube/mod.rs:61-62 | items after the first panic are never looked at: they do not change the outcome |

## Left out

- Network access (`reqwest`, `async`/`await`, tokio). The fetch is a function of the URL, passed in as `Io.Env.fetch`. It gives `None` when the request or the body read fails.
- XML and HTML parsing (`roxmltree`, `scraper`). Documents are given as parsed trees. The XML parser is a parameter that can fail, and the HTML parser is total, as `Html::parse_document` is.
- `Selector::parse("link[title=RSS]")` is treated as succeeding, because its argument is a constant valid selector. The selector is matched with exact, case-sensitive tag-name comparison. HTML's case-insensitive tag names are not modelled.
- RFC 3339 parsing (chrono). It is a parameter from text to an optional timestamp. A timestamp is kept only as its UTC instant in whole seconds and its offset; fractional seconds are not modelled.
- Namespaces: only local tag names are compared, as `tag_name().name()` does.
- `Node::text()` is taken from the tree as given: a node's `text` field is whatever the parser reports.
- Configuration persistence (`Mim` load/save, serde, the config directory) and the command-line layer are not part of this model.
- `#[derive(Default)]` on `Source`, `Category` and `Entry` is modelled as the constants `Feed.DefaultSource`, `Feed.DefaultCategory` and `Feed.EmptyEntry`. These are values only and carry no contract.
- `#[derive(Debug, Serialize, Deserialize)]` output formats are not modelled.
- Youtube.RssEntryOf: the text of a found `published` node, which is "" when that node has no text, goes to the parser as is. The model assumes nothing about what the parser returns for "", although chrono rejects it.
