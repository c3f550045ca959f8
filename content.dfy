/**
 * Selection of the text region of a fetched web page (`get_content`).
 *
 * The HTTP request and the HTML parser are not modelled: a page is a
 * `Document` holding, for each region the code asks the parser for, the text
 * of that region if the page has one, and the page's `<title>` element.
 */
module Content {
  import opened Wrappers

  /** A `<title>` element; `text` is its `.string`, which may be `None`. */
  datatype TitleTag = TitleTag(text: Option<string>)

  /** A parsed page: the text of its `<main>`, `<article>` and `<body>`, and its title. */
  datatype Document = Document(
    main: Option<string>,
    article: Option<string>,
    body: Option<string>,
    title: Option<TitleTag>)

  /** The text chosen for summarising and the title's string (possibly `None`). */
  datatype Extracted = Extracted(text: string, title: Option<string>)

  /** The `AttributeError` raised by reading a field of a missing element. */
  datatype MissingElement = MissingBody | MissingTitle

  /** The regions in the order they are tried. */
  function Priority(doc: Document): (regions: seq<Option<string>>)
    ensures |regions| == 3
  {
    [doc.main, doc.article, doc.body]
  }

  /** The index of the first present region; `|regions|` when none is present. */
  function FirstPresent(regions: seq<Option<string>>): (k: nat)
    ensures k <= |regions|
    ensures forall j :: 0 <= j < k ==> regions[j].None?
    ensures k < |regions| ==> regions[k].Some?
  {
    if regions == [] then 0
    else if regions[0].Some? then 0
    else 1 + FirstPresent(regions[1..])
  }

  /** Pairs a region's text with the string of the page's title element. */
  function WithTitle(text: string, doc: Document): Result<Extracted, MissingElement> {
    match doc.title
    case None => Failure(MissingTitle)
    case Some(tag) => Success(Extracted(text, tag.text))
  }

  /**
   * `get_content`: the `<main>` text if there is one, else the `<article>`
   * text, else the `<body>` text, each paired with the title's string.
   * A missing `<body>` (when it is reached) or a missing `<title>` raises.
   */
  function GetContent(doc: Document): Result<Extracted, MissingElement> {
    if doc.main.Some? then WithTitle(doc.main.value, doc)
    else if doc.article.Some? then WithTitle(doc.article.value, doc)
    else if doc.body.Some? then WithTitle(doc.body.value, doc)
    else Failure(MissingBody)
  }

  /**
   * First match wins: the extracted text is exactly the first present region
   * in the priority order, with the title's string; extraction fails exactly
   * when no region is present or the page has no title element.
   */
  lemma GetContentFirstMatch(doc: Document)
    ensures var k := FirstPresent(Priority(doc));
      && (GetContent(doc).Success? <==> k < 3 && doc.title.Some?)
      && (GetContent(doc).Success? ==>
            GetContent(doc).value == Extracted(Priority(doc)[k].value, doc.title.value.text))
      && (k == 3 ==> GetContent(doc) == Failure(MissingBody))
  {
    var regions := Priority(doc);
    var k := FirstPresent(regions);
    if doc.main.Some? {
      assert k == 0;
    } else {
      assert regions[1..] == [doc.article, doc.body];
      assert regions[1..][1..] == [doc.body];
      assert k == 1 + FirstPresent(regions[1..]);
      if doc.article.Some? {
        assert FirstPresent(regions[1..]) == 0;
      } else if doc.body.Some? {
        assert FirstPresent(regions[1..]) == 1 + FirstPresent(regions[1..][1..]);
        assert FirstPresent(regions[1..][1..]) == 0;
      } else {
        assert regions[1..][1..][1..] == [];
        assert k == 3;
      }
    }
  }

  /** A `<main>` region is chosen whatever else the page contains. */
  lemma MainWins(doc: Document)
    requires doc.main.Some? && doc.title.Some?
    ensures GetContent(doc) == Success(Extracted(doc.main.value, doc.title.value.text))
  {
  }
}
