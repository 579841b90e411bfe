/**
 * The state the script keeps across events, as a value, and one function per
 * event handler or helper that changes it. The `Gallery` class runs these
 * same steps on its fields; the lemmas here are about runs of them.
 *
 * The "load more" control's page counter lives in its `data-page` attribute,
 * which holds text: `nextPage + 1` appends the character '1' to it, while the
 * `nextPage > 34` test compares it as a number. `Click` counts with whole
 * numbers, the evident intent; `ClickAsWritten` keeps the text counter.
 */
module PageModel {
  import opened Wrappers
  import opened Text
  import opened Catalog
  import opened Views

  /** `MAX_PAGE_IAMGES`: the last page the control may request. */
  const MaxPage: nat := 34

  /**
   * `page`/`disabled`: the control's counter and disabled flag; `popupOpen`:
   * the popup's `open` class; `popup`: what the popup shows; `loaderVisible`:
   * the loader's visibility; `pendingHides`: hide timers armed and not yet
   * fired; `gallery`: the cards in the images container; `requests`: every
   * request issued, oldest first.
   */
  datatype PageState = PageState(
    page: nat, disabled: bool,
    popupOpen: bool, popup: Option<PopupView>,
    loaderVisible: bool, pendingHides: nat,
    gallery: seq<Card>, requests: seq<Request>)

  /** `showLoader`: the loader becomes visible; armed hide timers stay armed. */
  function ShowLoader(s: PageState): (r: PageState)
    ensures r.loaderVisible && r.pendingHides == s.pendingHides
    ensures r.(loaderVisible := s.loaderVisible) == s
  {
    s.(loaderVisible := true)
  }

  /** `hideLoader`: arms one more hide timer; the loader stays as it is for now. */
  function HideLoader(s: PageState): (r: PageState)
    ensures r.loaderVisible == s.loaderVisible && r.pendingHides == s.pendingHides + 1
    ensures r.(pendingHides := s.pendingHides) == s
  {
    s.(pendingHides := s.pendingHides + 1)
  }

  /** An armed hide timer fires: the loader becomes hidden, whatever happened since it was armed. */
  function TimerFires(s: PageState): (r: PageState)
    requires s.pendingHides > 0
    ensures !r.loaderVisible && r.pendingHides + 1 == s.pendingHides
    ensures r.(loaderVisible := s.loaderVisible, pendingHides := s.pendingHides) == s
  {
    s.(loaderVisible := false, pendingHides := s.pendingHides - 1)
  }

  /** `getPictures(page, limit)`: shows the loader and issues one list request. */
  function GetPictures(s: PageState, page: nat, limit: nat): (r: PageState)
    ensures r.requests == s.requests + [ListPage(page, limit)] && r.loaderVisible
    ensures r.(requests := s.requests, loaderVisible := s.loaderVisible) == s
  {
    ShowLoader(s).(requests := s.requests + [ListPage(page, limit)])
  }

  /** `getPictureInfo(id)`: shows the loader and issues one detail request. */
  function GetPictureInfo(s: PageState, id: string): (r: PageState)
    ensures r.requests == s.requests + [PictureInfo(id)] && r.loaderVisible
    ensures r.(requests := s.requests, loaderVisible := s.loaderVisible) == s
  {
    ShowLoader(s).(requests := s.requests + [PictureInfo(id)])
  }

  /** `togglePopup`: flips the popup's `open` class. */
  function TogglePopup(s: PageState): (r: PageState)
    ensures r.popupOpen != s.popupOpen
    ensures r.(popupOpen := s.popupOpen) == s
  {
    s.(popupOpen := !s.popupOpen)
  }

  /**
   * The page before `initialState` runs: counter from the markup, nothing
   * requested, nothing rendered, popup closed, no timer armed.
   */
  function Loaded(firstPage: nat): PageState {
    PageState(firstPage, true, false, None, false, 0, [], [])
  }

  /**
   * `initialState`: enables the control and requests the default page with
   * the default limit; that is the only request so far.
   */
  function Init(firstPage: nat): (r: PageState)
    ensures !r.disabled && r.page == firstPage
    ensures r.requests == [ListPage(1, 10)] && r.loaderVisible
    ensures r.gallery == [] && !r.popupOpen && r.popup == None && r.pendingHides == 0
  {
    GetPictures(Loaded(firstPage).(disabled := false), DefaultPage, DefaultLimit)
  }

  /**
   * `actionHandler`: reads the counter and advances it before anything else;
   * past the cap it disables the control and requests nothing, otherwise it
   * requests the page it read and leaves the control as it was.
   */
  function Click(s: PageState): (r: PageState)
    ensures r.page == s.page + 1
    ensures s.page > MaxPage ==> r.disabled && r.requests == s.requests
    ensures s.page <= MaxPage ==>
      r.disabled == s.disabled && r.requests == s.requests + [ListPage(s.page, DefaultLimit)]
    ensures r.loaderVisible == (s.loaderVisible || s.page <= MaxPage)
    ensures r.(page := s.page, disabled := s.disabled, requests := s.requests, loaderVisible := s.loaderVisible) == s
  {
    var nextPage := s.page;
    var s1 := s.(page := nextPage + 1);
    if nextPage > MaxPage then s1.(disabled := true) else GetPictures(s1, nextPage, DefaultLimit)
  }

  /** `renderPictures` on a list: an empty list is an error and changes nothing. */
  function RenderPictures(s: PageState, list: seq<Picture>): (r: Result<PageState, RenderError>)
    requires AllRenderable(list)
    ensures r.Err? <==> list == []
    ensures r.Err? ==> r.error == EmptyList
    ensures r.Ok? ==> r.value.gallery == s.gallery + Cards(list)
    ensures r.Ok? ==> r.value.pendingHides == s.pendingHides + 1
    ensures r.Ok? ==> r.value.(gallery := s.gallery, pendingHides := s.pendingHides) == s
  {
    if list == [] then Err(EmptyList)
    else Ok(HideLoader(s.(gallery := s.gallery + Cards(list))))
  }

  /**
   * `renderPopupPicture`: fills the popup, arms a hide timer and toggles the
   * popup, so rendering while the popup is open closes it.
   */
  function RenderPopupPicture(s: PageState, picture: Picture): (r: PageState)
    requires Renderable(picture)
    ensures r.popup == Some(PopupFor(picture))
    ensures r.popupOpen == !s.popupOpen
    ensures r.pendingHides == s.pendingHides + 1
    ensures r.(popup := s.popup, popupOpen := s.popupOpen, pendingHides := s.pendingHides) == s
  {
    TogglePopup(HideLoader(s.(popup := Some(PopupFor(picture)))))
  }

  /** Toggling the popup twice restores the page. */
  lemma ToggleTwice(s: PageState)
    ensures TogglePopup(TogglePopup(s)) == s
  {
  }

  // ---------------------------------------------------------------------------
  // Paging runs

  /** `n` clicks on the control. */
  function Clicks(s: PageState, n: nat): PageState
    decreases n
  {
    if n == 0 then s else Click(Clicks(s, n - 1))
  }

  /** The list requests for pages `from` up to but not including `to`, with the default limit. */
  function PageRequests(from: nat, to: nat): (r: seq<Request>)
    ensures |r| == (if from < to then to - from else 0)
    ensures forall i :: 0 <= i < |r| ==> r[i] == ListPage(from + i, DefaultLimit)
    decreases if from < to then to - from else 0
  {
    if from >= to then [] else [ListPage(from, DefaultLimit)] + PageRequests(from + 1, to)
  }

  function Min(a: nat, b: nat): nat { if a <= b then a else b }

  /**
   * After `n` clicks the counter has advanced by `n`; the clicks have
   * requested, in order, every page from the counter's start up to the cap,
   * and nothing else; the control is disabled exactly when it already was
   * or some click read a page past the cap.
   */
  lemma {:induction false} ClicksRun(s: PageState, n: nat)
    ensures Clicks(s, n).page == s.page + n
    ensures Clicks(s, n).requests == s.requests + PageRequests(s.page, Min(s.page + n, MaxPage + 1))
    ensures Clicks(s, n).disabled == (s.disabled || (n > 0 && s.page + n > MaxPage + 1))
    ensures Clicks(s, n).loaderVisible == (s.loaderVisible || (n > 0 && s.page <= MaxPage))
    ensures Clicks(s, n).(page := s.page, disabled := s.disabled, requests := s.requests,
                          loaderVisible := s.loaderVisible) == s
    decreases n
  {
    if n > 0 {
      ClicksRun(s, n - 1);
      var before := Clicks(s, n - 1);
      assert Clicks(s, n) == Click(before);
      var lo, hi := s.page, Min(s.page + n - 1, MaxPage + 1);
      if before.page <= MaxPage {
        assert PageRequests(lo, hi) + [ListPage(hi, DefaultLimit)] == PageRequests(lo, hi + 1);
      }
    }
  }

  /** Clicks never request a page past the cap. */
  lemma {:induction false} ClicksStayUnderCap(s: PageState, n: nat, i: nat)
    requires |s.requests| <= i < |Clicks(s, n).requests|
    ensures Clicks(s, n).requests[i].ListPage?
    ensures Clicks(s, n).requests[i].page <= MaxPage
  {
    ClicksRun(s, n);
  }

  /**
   * From a counter of 2 (page 1 being the initial request), 33 clicks
   * request pages 2 to 34 and the 34th click disables the control.
   */
  lemma PagingFromTwo()
    ensures Clicks(Init(2), 33).requests == [ListPage(1, 10)] + PageRequests(2, 35)
    ensures !Clicks(Init(2), 33).disabled
    ensures Clicks(Init(2), 34).requests == Clicks(Init(2), 33).requests
    ensures Clicks(Init(2), 34).disabled
  {
    ClicksRun(Init(2), 33);
    ClicksRun(Init(2), 34);
  }

  // ---------------------------------------------------------------------------
  // Loader runs

  /** Every armed hide timer fires. */
  function FireAll(s: PageState): (r: PageState)
    ensures r.pendingHides == 0
    decreases s.pendingHides
  {
    if s.pendingHides == 0 then s else FireAll(TimerFires(s))
  }

  /**
   * Once every armed timer has fired the loader is hidden if any timer was
   * armed, and unchanged if none was; nothing else changes.
   */
  lemma {:induction false} FireAllHides(s: PageState)
    ensures FireAll(s).loaderVisible == (s.loaderVisible && s.pendingHides == 0)
    ensures FireAll(s).(loaderVisible := s.loaderVisible, pendingHides := s.pendingHides) == s
    decreases s.pendingHides
  {
    if s.pendingHides > 0 {
      FireAllHides(TimerFires(s));
    }
  }

  /** The loader calls of the script: `showLoader` and `hideLoader`. */
  datatype LoaderCall = Show | Hide

  function RunLoader(s: PageState, calls: seq<LoaderCall>): (r: PageState)
    ensures r.pendingHides >= s.pendingHides
    decreases |calls|
  {
    if calls == [] then s
    else RunLoader(if calls[0] == Show then ShowLoader(s) else HideLoader(s), calls[1..])
  }

  /**
   * Nothing cancels an armed hide: after a hide is armed, whatever shows and
   * hides follow, the loader ends hidden once the armed timers fire, even
   * when the last call was `showLoader`.
   */
  lemma {:induction false} ShowDoesNotCancelHide(s: PageState, calls: seq<LoaderCall>)
    ensures !FireAll(RunLoader(HideLoader(s), calls)).loaderVisible
  {
    FireAllHides(RunLoader(HideLoader(s), calls));
  }

  /**
   * `renderPictures` as written: the cards are appended and a hide armed only
   * when the loop completes, which with one template copy is a list of one
   * record; an empty list and every longer list end in an error, with
   * nothing appended and no hide armed.
   */
  function RenderPicturesAsWritten(s: PageState, list: seq<Picture>): (r: Result<PageState, RenderError>)
    requires AllRenderable(list)
    ensures r.Ok? <==> |list| == 1
    ensures |list| == 0 ==> r == Err(EmptyList)
    ensures |list| >= 2 ==> r == Err(NullLink(1))
    ensures r.Ok? ==> r == RenderPictures(s, list)
  {
    match CardsAsWritten(list)
    case Err(e) => Err(e)
    case Ok(cards) =>
      assert cards == Cards(list);
      Ok(HideLoader(s.(gallery := s.gallery + cards)))
  }

  /**
   * Whether the loader ever hides after a response: with a visible loader
   * and no timer armed, the corrected render hides it once the timers fire
   * for every non-empty list; as written, every list but one of a single
   * record leaves the page unchanged, so the loader stays visible.
   */
  lemma LoaderAfterRender(s: PageState, list: seq<Picture>)
    requires AllRenderable(list)
    requires s.loaderVisible && s.pendingHides == 0
    ensures list != [] ==> !FireAll(RenderPictures(s, list).value).loaderVisible
    ensures |list| != 1 ==> RenderPicturesAsWritten(s, list).Err? && FireAll(s).loaderVisible
    ensures |list| == 1 ==> !FireAll(RenderPicturesAsWritten(s, list).value).loaderVisible
  {
    FireAllHides(s);
    if list != [] {
      FireAllHides(RenderPictures(s, list).value);
    }
  }

  // ---------------------------------------------------------------------------
  // The counter as the script keeps it: text in `data-page`

  /** One click on the text counter: the new text, the page requested (if any), and whether it disables. */
  datatype TextClick = TextClick(next: string, requested: Option<string>, disables: bool)

  /**
   * `actionHandler` on the attribute text: `nextPage + 1` concatenates, and
   * `nextPage > MAX_PAGE_IAMGES` reads the text as a number.
   */
  function ClickAsWritten(counter: string): (r: TextClick)
    requires IsDigits(counter)
    ensures IsDigits(r.next) && Value(r.next) == 10 * Value(counter) + 1
    ensures r.disables <==> Value(counter) > MaxPage
    ensures r.requested == if r.disables then None else Some(counter)
  {
    AppendDigit(counter, '1');
    var next := counter + "1";
    if Value(counter) > MaxPage then TextClick(next, None, true)
    else TextClick(next, Some(counter), false)
  }

  /** For every counter of 1 or more the text counter skips pages: it does not count by one. */
  lemma CounterSkipsPages(counter: string)
    requires IsDigits(counter) && Value(counter) >= 1
    ensures Value(ClickAsWritten(counter).next) > Value(counter) + 1
  {
  }

  /**
   * From a counter of "2": the first click requests page 2, the second
   * requests page 21, and the third reads "211" and disables the control.
   * With the counter read as a number, the same three clicks request pages
   * 2, 3 and 4.
   */
  lemma CounterFromTwo()
    ensures ClickAsWritten("2") == TextClick("21", Some("2"), false)
    ensures ClickAsWritten("21") == TextClick("211", Some("21"), false)
    ensures ClickAsWritten("211").disables
    ensures Clicks(Init(2), 3).requests == [ListPage(1, 10), ListPage(2, 10), ListPage(3, 10), ListPage(4, 10)]
  {
    assert Value("2") == 2;
    assert Value("21") == 21 by { assert "21"[..1] == "2"; }
    assert Value("211") == 211 by { assert "211"[..2] == "21"; assert "21"[..1] == "2"; }
    ClicksRun(Init(2), 3);
    assert PageRequests(2, 5) == [ListPage(2, 10), ListPage(3, 10), ListPage(4, 10)];
  }
}
