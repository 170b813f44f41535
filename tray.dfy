/**
 * The tray menu, the dispatch of menu clicks (`on_system_tray_event`), the
 * close-request handler, the exit-request handler and the Alt+V shortcut
 * handler of src-tauri/src/main.rs. The framework's window, tray handle and
 * shell are abstract state of `App`.
 */
module Tray {
  import opened Options
  import opened StringOps
  import opened ClipboardUrl
  import opened Links

  const TOGGLE_ID := "visibility-toggle"
  const QUIT_ID := "quit"
  const OPEN_PREFIX := "open-"
  const SHOW := "Show"
  const HIDE := "Hide"

  /** An entry of the tray menu. */
  datatype TrayEntry = Item(item: MenuItem) | Submenu(title: string, items: seq<MenuItem>) | Separator

  /** The tray menu built at start-up: toggle, GitHub submenu, separator, quit. */
  function TrayMenu(): seq<TrayEntry>
  {
    [ Item(MenuItem(TOGGLE_ID, SHOW)),
      Submenu("GitHub", ItemsOf(FilterByPrefix(LINKS, GITHUB_PREFIX))),
      Separator,
      Item(MenuItem(QUIT_ID, "Quit")) ]
  }

  /** Start-up: the GitHub submenu is built by the loop, then the tray menu around it. */
  method BuildTrayMenu() returns (menu: seq<TrayEntry>)
    ensures menu == TrayMenu()
  {
    var github := BuildSubmenu(LINKS, GITHUB_PREFIX);
    menu := [Item(MenuItem(TOGGLE_ID, SHOW)), Submenu("GitHub", github), Separator, Item(MenuItem(QUIT_ID, "Quit"))];
  }

  /** The ids of the clickable items of a menu, submenus included, in menu order. */
  function ClickableIds(menu: seq<TrayEntry>): seq<string>
  {
    if menu == [] then []
    else
      var ids := match menu[0]
        case Item(item) => [item.id]
        case Submenu(_, items) => seq(|items|, i requires 0 <= i < |items| => items[i].id)
        case Separator => [];
      ids + ClickableIds(menu[1..])
  }

  /** What a click on a menu item with the given id does. */
  datatype TrayAction = ToggleVisibility | Quit | Open(url: string) | Ignore

  /** The `match id.as_str()` of `on_system_tray_event`. */
  function Dispatch(id: string): (a: TrayAction)
    ensures a == ToggleVisibility <==> id == TOGGLE_ID
    ensures a == Quit <==> id == QUIT_ID
    ensures a.Open? <==> StartsWith(id, OPEN_PREFIX) && exists i :: 0 <= i < |LINKS| && LINKS[i].id == id
    ensures a.Open? ==> exists i :: 0 <= i < |LINKS| && LINKS[i].id == id && LINKS[i].url == a.url
  {
    if id == TOGGLE_ID then ToggleVisibility
    else if id == QUIT_ID then Quit
    else if StartsWith(id, OPEN_PREFIX) then
      match FindLink(id)
      case Some(link) => Open(link.url)
      case None => Ignore
    else Ignore
  }

  /** A click on a table entry's id opens exactly that entry's URL. */
  lemma DispatchOpensTableUrl(i: nat)
    requires i < |LINKS| && StartsWith(LINKS[i].id, OPEN_PREFIX)
    ensures Dispatch(LINKS[i].id) == Open(LINKS[i].url)
  {
    FindLinkUnique(LINKS[i].id, i);
    assert LINKS[i].id[0] == 'o';
  }

  /** Every id of the table starts with "open-". */
  lemma TableIdsHaveOpenPrefix()
    ensures forall i :: 0 <= i < |LINKS| ==> StartsWith(LINKS[i].id, OPEN_PREFIX)
  {
    assert LINKS[0].id[..|OPEN_PREFIX|] == OPEN_PREFIX;
    assert LINKS[1].id[..|OPEN_PREFIX|] == OPEN_PREFIX;
  }

  /** The clickable ids of the tray menu, in menu order. */
  lemma TrayMenuIds()
    ensures ClickableIds(TrayMenu()) == [TOGGLE_ID, LINKS[0].id, LINKS[1].id, QUIT_ID]
  {
    GithubSubmenuContents();
    var m := TrayMenu();
    assert ClickableIds(m[3..]) == [QUIT_ID];
    assert ClickableIds(m[2..]) == [QUIT_ID] by { assert m[2..][1..] == m[3..]; }
    assert ClickableIds(m[1..]) == [LINKS[0].id, LINKS[1].id, QUIT_ID] by { assert m[1..][1..] == m[2..]; }
  }

  /**
   * Every clickable item of the tray menu has a handler: the toggle, quit,
   * and each GitHub item opens the URL of its own table entry.
   */
  lemma TrayMenuFullyHandled()
    ensures Dispatch(TOGGLE_ID) == ToggleVisibility && Dispatch(QUIT_ID) == Quit
    ensures forall i :: 0 <= i < |LINKS| ==> Dispatch(LINKS[i].id) == Open(LINKS[i].url)
  {
    TrayMenuIds();
    TableIdsHaveOpenPrefix();
    forall i | 0 <= i < |LINKS|
      ensures Dispatch(LINKS[i].id) == Open(LINKS[i].url)
    {
      DispatchOpensTableUrl(i);
    }
  }

  /** The ids the menu does not know, other than the toggle and quit, do nothing. */
  lemma DispatchUnknownIgnored(id: string)
    requires id != TOGGLE_ID && id != QUIT_ID
    requires forall i :: 0 <= i < |LINKS| ==> LINKS[i].id != id
    ensures Dispatch(id) == Ignore
  {
  }

  /** The events the tray delivers; only menu clicks are handled. */
  datatype TrayEvent = MenuItemClick(id: string) | LeftClick | RightClick | DoubleClick

  /** The events of the application's run loop; only exit requests are handled. */
  datatype RunEvent = ExitRequested | OtherRunEvent

  /**
   * The application as the handlers see it: whether the main window is
   * visible, the title of the "visibility-toggle" item, the URLs handed to
   * the shell's `open` so far, and whether the process has exited.
   */
  class App {
    var visible: bool
    var toggleTitle: string
    var openedUrls: seq<string>
    var exited: bool

    /** Every URL ever opened carries an http or https scheme. */
    ghost predicate Valid()
      reads this
    {
      forall i :: 0 <= i < |openedUrls| ==> HasScheme(openedUrls[i])
    }

    /** The toggle item offers the action opposite to the window's state. */
    predicate TitleOffersOpposite()
      reads this
    {
      toggleTitle == if visible then HIDE else SHOW
    }

    /** Start-up: the toggle item is titled "Show"; the window's initial visibility comes from the window configuration. */
    constructor (initiallyVisible: bool)
      ensures Valid()
      ensures visible == initiallyVisible && toggleTitle == SHOW && openedUrls == [] && !exited
    {
      visible := initiallyVisible;
      toggleTitle := SHOW;
      openedUrls := [];
      exited := false;
    }

    /** The "visibility-toggle" branch: hide a visible window, show a hidden one, and retitle the item. */
    method Toggle()
      requires Valid()
      modifies this
      ensures Valid()
      ensures visible == !old(visible)
      ensures toggleTitle == if old(visible) then SHOW else HIDE
      ensures TitleOffersOpposite()
      ensures openedUrls == old(openedUrls) && exited == old(exited)
    {
      if visible {
        visible := false;
        toggleTitle := SHOW;
      } else {
        visible := true;
        toggleTitle := HIDE;
      }
    }

    /** A click on the tray menu item with the given id. */
    method OnMenuItemClick(id: string)
      requires Valid()
      modifies this
      ensures Valid()
      ensures Dispatch(id) == ToggleVisibility ==>
        visible == !old(visible) && toggleTitle == (if old(visible) then SHOW else HIDE) &&
        openedUrls == old(openedUrls) && exited == old(exited)
      ensures Dispatch(id) == Quit ==>
        exited && visible == old(visible) && toggleTitle == old(toggleTitle) && openedUrls == old(openedUrls)
      ensures Dispatch(id).Open? ==>
        openedUrls == old(openedUrls) + [Dispatch(id).url] &&
        visible == old(visible) && toggleTitle == old(toggleTitle) && exited == old(exited)
      ensures Dispatch(id) == Ignore ==> unchanged(this)
    {
      match Dispatch(id)
      case ToggleVisibility =>
        Toggle();
      case Quit =>
        exited := true;
      case Open(url) =>
        LinkUrlsHaveScheme();
        openedUrls := openedUrls + [url];
      case Ignore =>
    }

    /** `on_system_tray_event`: menu clicks are dispatched, every other tray event is ignored. */
    method OnSystemTrayEvent(event: TrayEvent)
      requires Valid()
      modifies this
      ensures Valid()
      ensures event.MenuItemClick? && Dispatch(event.id) == ToggleVisibility ==>
        visible == !old(visible) && toggleTitle == (if old(visible) then SHOW else HIDE) &&
        openedUrls == old(openedUrls) && exited == old(exited)
      ensures event.MenuItemClick? && Dispatch(event.id) == Quit ==>
        exited && visible == old(visible) && toggleTitle == old(toggleTitle) && openedUrls == old(openedUrls)
      ensures event.MenuItemClick? && Dispatch(event.id).Open? ==>
        openedUrls == old(openedUrls) + [Dispatch(event.id).url] &&
        visible == old(visible) && toggleTitle == old(toggleTitle) && exited == old(exited)
      ensures !event.MenuItemClick? || Dispatch(event.id) == Ignore ==> unchanged(this)
    {
      if event.MenuItemClick? {
        OnMenuItemClick(event.id);
      }
    }

    /** A close request on the main window: the close is prevented, the window hidden, the item retitled "Show". */
    method OnCloseRequested()
      requires Valid()
      modifies this
      ensures Valid()
      ensures !visible && toggleTitle == SHOW && TitleOffersOpposite()
      ensures openedUrls == old(openedUrls) && exited == old(exited)
    {
      visible := false;
      toggleTitle := SHOW;
    }

    /** The run loop's handler: an exit request is prevented, so nothing changes and the process keeps running. */
    method OnRunEvent(event: RunEvent)
      modifies this
      ensures unchanged(this)
    {
    }

    /**
     * The Alt+V handler. `clipboard` is the clipboard read (None when it
     * fails, which reads as the empty text); `matchesUrlPattern` is the
     * handler's regular-expression test. Matching text is opened after
     * normalisation; other text opens nothing.
     */
    method OnShortcut(clipboard: Option<string>, matchesUrlPattern: string -> bool)
      requires Valid()
      modifies this
      ensures Valid()
      ensures var text := if clipboard.Some? then clipboard.value else "";
        openedUrls == if matchesUrlPattern(text) then old(openedUrls) + [Normalize(text)] else old(openedUrls)
      ensures clipboard.None? && !matchesUrlPattern("") ==> openedUrls == old(openedUrls)
      ensures visible == old(visible) && toggleTitle == old(toggleTitle) && exited == old(exited)
    {
      var text := match clipboard case Some(t) => t case None => "";
      if matchesUrlPattern(text) {
        var url := Normalize(text);
        openedUrls := openedUrls + [url];
      }
    }
  }

  /** Closing the window and then using the toggle shows the window again, titled "Hide". */
  method CloseThenToggle(app: App)
    requires app.Valid()
    modifies app
    ensures app.Valid()
    ensures app.visible && app.toggleTitle == HIDE
    ensures app.openedUrls == old(app.openedUrls) && app.exited == old(app.exited)
  {
    app.OnCloseRequested();
    app.OnMenuItemClick(TOGGLE_ID);
  }
}
