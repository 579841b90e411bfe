/**
 * What `renderPictures` and `renderPopupPicture` write into the page for a
 * picture record: the fields of each gallery card and of the popup.
 * Template cloning, fragments and class lists are DOM plumbing; a card and
 * the popup are represented by the values their fields receive.
 */
module Views {
  import opened Wrappers
  import opened Text
  import opened Locator

  /** One record of the catalog's list or detail response. */
  datatype Picture = Picture(
    id: string, author: string, width: nat, height: nat, url: string, downloadUrl: string)

  /** A gallery card: the link's `href` and `data-id`, the image's `src` and `alt`. */
  datatype Card = Card(href: string, dataId: string, src: string, alt: string)

  /** The popup: the image's `src` and `alt`, the author caption, the link's `href`. */
  datatype PopupView = PopupView(src: string, alt: string, authorText: string, link: string)

  /** Why rendering a list stops: the list is empty, or a card's link was not found. */
  datatype RenderError =
    | EmptyList
    | NullLink(index: nat)

  /** Divisor for gallery thumbnails and for the popup image. */
  const CardScale: nat := 5
  const PopupScale: nat := 2

  /** A record whose `download_url` has the locator shape `cropImage` rewrites. */
  predicate Renderable(p: Picture) {
    IsLocator(p.downloadUrl)
  }

  predicate AllRenderable(list: seq<Picture>) {
    forall i :: 0 <= i < |list| ==> Renderable(list[i])
  }

  /** The fields one iteration of `renderPictures` assigns for a record. */
  function CardFor(p: Picture): Card
    requires Renderable(p)
  {
    Card(p.url, p.id, CropImage(p.downloadUrl, CardScale), p.author)
  }

  /** The fields `renderPopupPicture` assigns (the image width, a float, is left out). */
  function PopupFor(p: Picture): PopupView
    requires Renderable(p)
  {
    PopupView(CropImage(p.downloadUrl, PopupScale), p.author, p.author, p.downloadUrl)
  }

  /** One card per record, in list order. */
  function Cards(list: seq<Picture>): (r: seq<Card>)
    requires AllRenderable(list)
    ensures |r| == |list|
    ensures forall i :: 0 <= i < |list| ==> r[i] == CardFor(list[i])
  {
    if list == [] then [] else [CardFor(list[0])] + Cards(list[1..])
  }

  /**
   * A card links to the record's page and carries its id; its thumbnail is
   * the record's own picture (same domain, key and id) at a fifth of its
   * size, and its text alternative is the author.
   */
  lemma CardFields(p: Picture)
    requires Renderable(p)
    ensures CardFor(p).href == p.url && CardFor(p).dataId == p.id && CardFor(p).alt == p.author
    ensures IsLocator(CardFor(p).src)
    ensures Split(CardFor(p).src, '/')[DomainAt..WidthAt] == Split(p.downloadUrl, '/')[DomainAt..WidthAt]
    ensures Width(CardFor(p).src) == Width(p.downloadUrl) / 5
    ensures Height(CardFor(p).src) == Height(p.downloadUrl) / 5
  {
    CropImageDims(p.downloadUrl, CardScale);
  }

  /**
   * The popup shows the same picture as the card, at half size, which is
   * never smaller than the card's thumbnail; its link is the full download
   * locator and both its caption and text alternative are the author.
   */
  lemma PopupFields(p: Picture)
    requires Renderable(p)
    ensures PopupFor(p).link == p.downloadUrl
    ensures PopupFor(p).alt == p.author && PopupFor(p).authorText == p.author
    ensures IsLocator(PopupFor(p).src)
    ensures Split(PopupFor(p).src, '/')[DomainAt..WidthAt] == Split(CardFor(p).src, '/')[DomainAt..WidthAt]
    ensures Width(PopupFor(p).src) == Width(p.downloadUrl) / 2 >= Width(CardFor(p).src)
    ensures Height(PopupFor(p).src) == Height(p.downloadUrl) / 2 >= Height(CardFor(p).src)
  {
    CropImageDims(p.downloadUrl, PopupScale);
    CropImageDims(p.downloadUrl, CardScale);
    var w, h := Width(p.downloadUrl), Height(p.downloadUrl);
    FloorDivIsDiv(w, 2);
    FloorDivIsDiv(w, 5);
    FloorDivIsDiv(h, 2);
    FloorDivIsDiv(h, 5);
    FloorDivMonotone(w, 2, 5);
    FloorDivMonotone(h, 2, 5);
  }

  /** Dividing by a larger number never gives more. */
  lemma {:induction false} FloorDivMonotone(n: nat, a: nat, b: nat)
    requires 1 <= a <= b
    ensures FloorDiv(n, b) <= FloorDiv(n, a)
    decreases n
  {
    if n >= b {
      FloorDivMonotone(n - b, a, b);
      FloorDivShrinks(n - a, a, b - a);
    }
  }

  /** Removing more from the dividend never gives more. */
  lemma {:induction false} FloorDivShrinks(n: nat, a: nat, k: nat)
    requires a >= 1 && k <= n
    ensures FloorDiv(n - k, a) <= FloorDiv(n, a)
    decreases n
  {
    if n - k >= a {
      FloorDivShrinks(n - a, a, k);
    }
  }

  /**
   * The card fields `renderPictures` writes, record by record, when a fresh
   * template copy is taken for each record: one card per record, in order.
   */
  method FillCards(list: seq<Picture>) returns (fragment: seq<Card>)
    requires AllRenderable(list)
    ensures fragment == Cards(list)
  {
    fragment := [];
    var i := 0;
    while i < |list|
      invariant 0 <= i <= |list|
      invariant |fragment| == i
      invariant forall j :: 0 <= j < i ==> fragment[j] == CardFor(list[j])
    {
      fragment := fragment + [CardFor(list[i])];
      i := i + 1;
    }
  }

  /**
   * What the card loop of `renderPictures` yields as written, with the one
   * template copy taken before the loop: an empty list is an error, a single
   * record gets its card, and a longer list fails at the second record, whose
   * link the first `appendChild` has already moved away.
   */
  function CardsAsWritten(list: seq<Picture>): (r: Result<seq<Card>, RenderError>)
    requires AllRenderable(list)
    ensures r.Ok? <==> |list| == 1
    ensures |list| == 0 ==> r == Err(EmptyList)
    ensures |list| >= 2 ==> r == Err(NullLink(1))
  {
    if |list| == 0 then Err(EmptyList)
    else if |list| == 1 then Ok([CardFor(list[0])])
    else Err(NullLink(1))
  }

  /**
   * The loop as written and the loop with a copy per record agree exactly
   * on lists of one record; on every longer list the written one fails.
   */
  lemma AsWrittenAgreesOnSingletons(list: seq<Picture>)
    requires AllRenderable(list)
    ensures CardsAsWritten(list) == Ok(Cards(list)) <==> |list| == 1
  {
  }

  /**
   * `renderPictures` as written: an empty list is an error; otherwise the one
   * template copy, taken before the loop, is moved into the fragment by the
   * first `appendChild`, so on the second record `querySelector('a')` finds
   * nothing and setting its `href` fails.
   */
  method FillCardsAsWritten(list: seq<Picture>) returns (r: Result<seq<Card>, RenderError>)
    requires AllRenderable(list)
    ensures r == CardsAsWritten(list)
  {
    if |list| == 0 {
      return Err(EmptyList);
    }
    var copyHasContent := true;
    var fragment: seq<Card> := [];
    var i := 0;
    while i < |list|
      invariant 0 <= i <= |list|
      invariant copyHasContent <==> i == 0
      invariant fragment == Cards(list[..i])
      invariant i <= 1
    {
      if !copyHasContent {
        return Err(NullLink(i));
      }
      fragment := fragment + [CardFor(list[i])];
      copyHasContent := false;
      i := i + 1;
    }
    assert list[..i] == list;
    assert fragment == [CardFor(list[0])];
    return Ok(fragment);
  }
}
