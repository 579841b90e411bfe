/**
 * The page's mutable state as the script keeps it: the "load more" control
 * (its page counter and disabled flag), the popup, the loader and the
 * images container. Each method is one function or event handler of the
 * script and is specified by the matching step of `PageModel`.
 */
module Gallery {
  import opened Wrappers
  import opened Catalog
  import opened Views
  import PageModel

  class Page {
    /** The control's `data-page` counter, read as a whole number. */
    var page: nat
    /** The control's `disabled` flag. */
    var disabled: bool
    /** Whether the popup carries the `open` class. */
    var popupOpen: bool
    /** What the popup's content shows, once something was rendered into it. */
    var popup: Option<PopupView>
    /** The loader's `visibility`. */
    var loaderVisible: bool
    /** Hide timers armed by `hideLoader` that have not fired yet. */
    var pendingHides: nat
    /** The cards appended to the images container, in order. */
    var gallery: seq<Card>
    /** Every request issued, oldest first; the fetches themselves are not modelled. */
    ghost var requests: seq<Request>

    ghost function State(): PageModel.PageState
      reads this
    {
      PageModel.PageState(page, disabled, popupOpen, popup, loaderVisible, pendingHides, gallery, requests)
    }

    /**
     * The page as the script starts it: `firstPage` is the counter the
     * control's markup carries; then `initialState` runs.
     */
    constructor (firstPage: nat)
      ensures State() == PageModel.Init(firstPage)
    {
      page, disabled := firstPage, true;
      popupOpen, popup := false, None;
      loaderVisible, pendingHides := false, 0;
      gallery, requests := [], [];
      new;
      InitialState();
    }

    /** `initialState`. */
    method InitialState()
      modifies this
      ensures State() == PageModel.GetPictures(old(State()).(disabled := false), DefaultPage, DefaultLimit)
    {
      disabled := false;
      GetPictures();
    }

    /** `getPictures(page = 1, limit = 10)`. */
    method GetPictures(page: nat := DefaultPage, limit: nat := DefaultLimit)
      modifies this
      ensures State() == PageModel.GetPictures(old(State()), page, limit)
    {
      ShowLoader();
      requests := requests + [ListPage(page, limit)];
    }

    /** `getPictureInfo(id = 0)`. */
    method GetPictureInfo(id: string := DefaultId)
      modifies this
      ensures State() == PageModel.GetPictureInfo(old(State()), id)
    {
      ShowLoader();
      requests := requests + [PictureInfo(id)];
    }

    /** `showLoader`. */
    method ShowLoader()
      modifies this
      ensures State() == PageModel.ShowLoader(old(State()))
    {
      loaderVisible := true;
    }

    /** `hideLoader`: arms a timer; it does not hide the loader by itself. */
    method HideLoader()
      modifies this
      ensures State() == PageModel.HideLoader(old(State()))
    {
      pendingHides := pendingHides + 1;
    }

    /** The callback of a timer `hideLoader` armed. */
    method TimerFires()
      requires pendingHides > 0
      modifies this
      ensures State() == PageModel.TimerFires(old(State()))
    {
      loaderVisible := false;
      pendingHides := pendingHides - 1;
    }

    /**
     * `renderPictures`: an empty list is an error that changes nothing;
     * otherwise the records' cards are appended to the container in order
     * and a hide of the loader is armed.
     */
    method RenderPictures(list: seq<Picture>) returns (err: Option<RenderError>)
      requires AllRenderable(list)
      modifies this
      ensures var r := PageModel.RenderPictures(old(State()), list);
        (r.Ok? ==> err == None && State() == r.value) &&
        (r.Err? ==> err == Some(r.error) && State() == old(State()))
    {
      if |list| == 0 {
        return Some(EmptyList);
      }
      var fragment := FillCards(list);
      gallery := gallery + fragment;
      HideLoader();
      return None;
    }

    /**
     * `renderPictures` as the script has it: the single template copy is
     * filled record by record, and the cards and the hide only happen when
     * the loop completes; an error leaves the page as it was.
     */
    method RenderPicturesAsWritten(list: seq<Picture>) returns (err: Option<RenderError>)
      requires AllRenderable(list)
      modifies this
      ensures var r := PageModel.RenderPicturesAsWritten(old(State()), list);
        (r.Ok? ==> err == None && State() == r.value) &&
        (r.Err? ==> err == Some(r.error) && State() == old(State()))
    {
      var fragment := FillCardsAsWritten(list);
      match fragment
      case Err(e) =>
        return Some(e);
      case Ok(cards) =>
        gallery := gallery + cards;
        HideLoader();
        return None;
    }

    /** `renderPopupPicture`: fills the popup, arms a hide and toggles the popup. */
    method RenderPopupPicture(picture: Picture)
      requires Renderable(picture)
      modifies this
      ensures State() == PageModel.RenderPopupPicture(old(State()), picture)
    {
      popup := Some(PopupFor(picture));
      HideLoader();
      TogglePopup();
    }

    /** `togglePopup`, also the popup's close button. */
    method TogglePopup()
      modifies this
      ensures State() == PageModel.TogglePopup(old(State()))
    {
      popupOpen := !popupOpen;
    }

    /** `actionHandler`: one click on the "load more" control. */
    method ActionHandler()
      modifies this
      ensures State() == PageModel.Click(old(State()))
    {
      var nextPage := page;
      page := nextPage + 1;
      if nextPage > PageModel.MaxPage {
        disabled := true;
      } else {
        GetPictures(nextPage);
      }
    }
  }
}
