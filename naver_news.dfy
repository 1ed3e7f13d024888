/**
 * scripts/fetch-naver-news.py: collect the newest items of Naver's economy
 * RSS section as records of four clean strings, wrapped in a success or
 * failure envelope. The download and XML parsing are an input (the feed's
 * items, each with its optional children), and so is the clock.
 */
module NaverNews {
  import opened Wrappers
  import opened PyText

  const RssUrl := "https://news.naver.com/main/rss/section.naver?sid=101"
  const SourceName := "네이버 경제 뉴스"
  const DefaultLimit := 10

  /** A child of an `<item>`: not there, or there with its `.text`, which is None for an empty element. */
  datatype Child = Absent | Element(text: Option<string>)

  datatype Item = Item(title: Child, link: Child, description: Child, pubDate: Child)

  datatype Article = Article(title: string, link: string, description: string, pubDate: string)

  /**
   * The exception that ends the call. Its `str(e)` is not modelled, only
   * which failure it was.
   */
  datatype Fault =
    | FeedUnavailable(reason: string)  // urlopen or ET.fromstring raised
    | DescriptionIsNone                // re.sub was handed None (TypeError)
    | StripOfNone(field: string)       // .strip() on None (AttributeError)

  /** What downloading and parsing the feed produced. */
  datatype Feed = Parsed(items: seq<Item>) | Unavailable(reason: string)

  /** The dictionary the function returns; the failure form has no articles. */
  datatype Envelope =
    | Success(timestamp: string, source: string, rssUrl: string, count: int, articles: seq<Article>)
    | Failure(error: Fault, timestamp: string)

  function Min(a: int, b: int): int { if a <= b then a else b }
  function Max(a: int, b: int): int { if a >= b then a else b }

  /** `xs[:limit]`: a prefix of xs; a negative limit counts from the end. */
  function SliceTo<T>(xs: seq<T>, limit: int): (r: seq<T>)
    ensures |r| <= |xs| && r == xs[..|r|]
    ensures limit >= 0 ==> |r| == Min(limit, |xs|)
    ensures limit < 0 ==> |r| == Max(|xs| + limit, 0)
  {
    if limit >= 0 then (if limit <= |xs| then xs[..limit] else xs)
    else if |xs| + limit > 0 then xs[..|xs| + limit] else []
  }

  /** `item.find(tag).text if item.find(tag) is not None else ""`; None stands for Python's None. */
  function ChildText(c: Child): (t: Option<string>)
    ensures c.Absent? ==> t == Some("")
    ensures c.Element? ==> t == c.text
  {
    match c
    case Absent => Some("")
    case Element(text) => text
  }

  /**
   * Lines 36-50 for one item. The tag removal of line 43 runs before any
   * `strip()`, and the dictionary's values are evaluated in order, so a
   * None description fails first, then title, link and pubDate.
   */
  function ShapeItem(item: Item): (r: Result<Article, Fault>)
    ensures r.Ok? <==> ChildText(item.title).Some? && ChildText(item.link).Some? &&
                       ChildText(item.description).Some? && ChildText(item.pubDate).Some?
    ensures ChildText(item.description).None? ==> r == Err(DescriptionIsNone)
  {
    var title := ChildText(item.title);
    var link := ChildText(item.link);
    var description := ChildText(item.description);
    var pubDate := ChildText(item.pubDate);
    if description.None? then Err(DescriptionIsNone)
    else
      var cleaned := StripTags(description.value);
      if title.None? then Err(StripOfNone("title"))
      else if link.None? then Err(StripOfNone("link"))
      else if pubDate.None? then Err(StripOfNone("pubDate"))
      else Ok(Article(PyStrip(title.value), PyStrip(link.value), PyStrip(cleaned), PyStrip(pubDate.value)))
  }

  /**
   * Results taken in order until the first failure: the list of values
   * when every one succeeded, else the earliest error.
   */
  function Collect<T, E>(rs: seq<Result<T, E>>): Result<seq<T>, E>
    decreases |rs|
  {
    if rs == [] then Ok([])
    else match Collect(rs[..|rs| - 1])
      case Err(f) => Err(f)
      case Ok(values) =>
        match rs[|rs| - 1]
        case Err(f) => Err(f)
        case Ok(v) => Ok(values + [v])
  }

  /** ShapeItem applied to each item. */
  function ShapeEach(items: seq<Item>): (rs: seq<Result<Article, Fault>>)
    ensures |rs| == |items|
    ensures forall i :: 0 <= i < |items| ==> rs[i] == ShapeItem(items[i])
  {
    seq(|items|, i requires 0 <= i < |items| => ShapeItem(items[i]))
  }

  /** The loop of lines 35-50 over the selected items: the first item that fails ends it. */
  function ShapeItems(items: seq<Item>): Result<seq<Article>, Fault> {
    Collect(ShapeEach(items))
  }

  /**
   * Lines 22-68. `feed` is what urlopen and ET.fromstring produced and
   * `now` is `datetime.now().isoformat()`.
   */
  method FetchNaverEconomyNews(limit: int, feed: Feed, now: string) returns (result: Envelope)
    ensures feed.Unavailable? ==> result == Failure(FeedUnavailable(feed.reason), now)
    ensures feed.Parsed? ==>
              match ShapeItems(SliceTo(feed.items, limit))
              case Ok(articles) => result == Success(now, SourceName, RssUrl, |articles|, articles)
              case Err(f) => result == Failure(f, now)
  {
    if feed.Unavailable? {
      return Failure(FeedUnavailable(feed.reason), now);
    }
    var selected := SliceTo(feed.items, limit);
    ghost var shaped := ShapeEach(selected);
    var articles: seq<Article> := [];
    for i := 0 to |selected|
      invariant Collect(shaped[..i]) == Ok(articles)
    {
      var r := ShapeItem(selected[i]);
      assert shaped[i] == r;
      CollectStep(shaped, i, articles);
      if r.Err? {
        FailureEndsCollect(shaped, i + 1);
        return Failure(r.error, now);
      }
      articles := articles + [r.value];
    }
    assert shaped[..|selected|] == shaped;
    result := Success(now, SourceName, RssUrl, |articles|, articles);
  }

  /** One more result taken after a run of successes. */
  lemma CollectStep<T, E>(rs: seq<Result<T, E>>, i: nat, values: seq<T>)
    requires i < |rs| && Collect(rs[..i]) == Ok(values)
    ensures rs[i].Ok? ==> Collect(rs[..i + 1]) == Ok(values + [rs[i].value])
    ensures rs[i].Err? ==> Collect(rs[..i + 1]) == Err(rs[i].error)
  {
    assert rs[..i + 1][..i] == rs[..i];
  }

  /** Once a result has failed, the results after it change nothing. */
  lemma {:induction false} FailureEndsCollect<T, E>(rs: seq<Result<T, E>>, j: nat)
    requires j <= |rs| && Collect(rs[..j]).Err?
    ensures Collect(rs) == Collect(rs[..j])
    decreases |rs| - j
  {
    if j < |rs| {
      assert rs[..j + 1][..j] == rs[..j];
      FailureEndsCollect(rs, j + 1);
    } else {
      assert rs[..j] == rs;
    }
  }

  /** On success there is one value per result, in order. */
  lemma {:induction false} CollectInOrder<T, E>(rs: seq<Result<T, E>>)
    requires Collect(rs).Ok?
    ensures |Collect(rs).value| == |rs|
    ensures forall i :: 0 <= i < |rs| ==> rs[i].Ok? && Collect(rs).value[i] == rs[i].value
    decreases |rs|
  {
    if rs != [] {
      var init := rs[..|rs| - 1];
      CollectInOrder(init);
      assert forall i :: 0 <= i < |init| ==> init[i] == rs[i];
    }
  }

  /** Collecting fails exactly when some result is a failure. */
  lemma {:induction false} CollectFails<T, E>(rs: seq<Result<T, E>>)
    ensures Collect(rs).Err? <==> exists i :: 0 <= i < |rs| && rs[i].Err?
    decreases |rs|
  {
    if rs != [] {
      var init := rs[..|rs| - 1];
      CollectFails(init);
      assert forall i :: 0 <= i < |init| ==> init[i] == rs[i];
    }
  }

  /** On success there is one article per selected item, in document order. */
  lemma ShapeItemsInOrder(items: seq<Item>)
    requires ShapeItems(items).Ok?
    ensures |ShapeItems(items).value| == |items|
    ensures forall i :: 0 <= i < |items| ==>
              ShapeItem(items[i]).Ok? && ShapeItems(items).value[i] == ShapeItem(items[i]).value
  {
    CollectInOrder(ShapeEach(items));
  }

  /** The call fails exactly when some selected item cannot be shaped. */
  lemma ShapeItemsFails(items: seq<Item>)
    ensures ShapeItems(items).Err? <==> exists i :: 0 <= i < |items| && ShapeItem(items[i]).Err?
  {
    var rs := ShapeEach(items);
    CollectFails(rs);
    if ShapeItems(items).Err? {
      var i :| 0 <= i < |rs| && rs[i].Err?;
      assert ShapeItem(items[i]).Err?;
    }
  }

  /** Every field of every article has no whitespace at either end. */
  lemma ArticleFieldsStripped(item: Item)
    requires ShapeItem(item).Ok?
    ensures var a := ShapeItem(item).value;
      Clean(a.title) && Clean(a.link) && Clean(a.description) && Clean(a.pubDate)
  {
    var a := ShapeItem(item).value;
    PyStripClean(ChildText(item.title).value);
    PyStripClean(ChildText(item.link).value);
    PyStripClean(StripTags(ChildText(item.description).value));
    PyStripClean(ChildText(item.pubDate).value);
  }

  predicate Clean(s: string) {
    s == [] || (!IsPySpace(s[0]) && !IsPySpace(s[|s| - 1]))
  }

  /** A child that is not there contributes an empty field. */
  lemma MissingChildrenEmpty(item: Item)
    requires ShapeItem(item).Ok?
    ensures item.title.Absent? ==> ShapeItem(item).value.title == ""
    ensures item.link.Absent? ==> ShapeItem(item).value.link == ""
    ensures item.description.Absent? ==> ShapeItem(item).value.description == ""
    ensures item.pubDate.Absent? ==> ShapeItem(item).value.pubDate == ""
  {
    EmptyFieldsStayEmpty();
  }

  lemma EmptyFieldsStayEmpty()
    ensures PyStrip("") == "" && StripTags("") == ""
  {
  }

  /** A description without `<` only loses its surrounding whitespace. */
  lemma PlainDescriptionKept(item: Item, text: string)
    requires item.description == Element(Some(text)) && '<' !in text && ShapeItem(item).Ok?
    ensures ShapeItem(item).value.description == PyStrip(text)
  {
    StripTagsWithoutAngle(text);
  }

  /**
   * A success reports as many articles as it holds, never more than the
   * feed has, and for a non-negative limit never more than the limit.
   */
  lemma SuccessCount(items: seq<Item>, limit: int, now: string)
    requires ShapeItems(SliceTo(items, limit)).Ok?
    ensures var articles := ShapeItems(SliceTo(items, limit)).value;
      |articles| <= |items| && (limit >= 0 ==> |articles| <= limit) &&
      (limit < 0 ==> |articles| == Max(|items| + limit, 0))
  {
    ShapeItemsInOrder(SliceTo(items, limit));
  }

  /** `limit` as main computes it (lines 73-78): the first argument if `int()` reads it, else 10. */
  function LimitFromArgs(args: seq<string>): (limit: int)
    ensures |args| == 0 ==> limit == DefaultLimit
    ensures |args| > 0 && ParseInt(args[0]).None? ==> limit == DefaultLimit
    ensures |args| > 0 && ParseInt(args[0]).Some? ==> limit == ParseInt(args[0]).value
  {
    if |args| > 0 && ParseInt(args[0]).Some? then ParseInt(args[0]).value else DefaultLimit
  }

  /** An argument written as a decimal integer is taken as the limit. */
  lemma LimitFromDecimal(n: int, rest: seq<string>)
    requires StrDefined(n)
    ensures LimitFromArgs([IntToString(n)] + rest) == n
  {
    ParseIntOfString(n);
  }

  /** An argument of more than 4300 digits makes `int()` raise, so the default limit is kept. */
  lemma LimitFromLongArgument(arg: string, rest: seq<string>)
    requires DigitCount(PyStrip(arg)) > MaxStrDigits
    ensures LimitFromArgs([arg] + rest) == DefaultLimit
  {
    ParseRejectsLong(arg);
  }

  /**
   * Lines 70-88. `args` is `sys.argv[1:]`; the JSON printing and the
   * warning on standard error are left out.
   */
  method Run(args: seq<string>, feed: Feed, now: string) returns (result: Envelope, exitCode: int)
    ensures exitCode == 0 <==> result.Success?
    ensures exitCode == 0 || exitCode == 1
    ensures feed.Unavailable? ==> result == Failure(FeedUnavailable(feed.reason), now)
    ensures feed.Parsed? ==>
              match ShapeItems(SliceTo(feed.items, LimitFromArgs(args)))
              case Ok(articles) => result == Success(now, SourceName, RssUrl, |articles|, articles)
              case Err(f) => result == Failure(f, now)
  {
    var limit := DefaultLimit;
    if |args| > 0 {
      var parsed := ParseInt(args[0]);
      if parsed.Some? {
        limit := parsed.value;
      }
    }
    result := FetchNaverEconomyNews(limit, feed, now);
    exitCode := if result.Success? then 0 else 1;
  }
}
