/** The panel button for one registered StatusNotifierItem
    (sniItemButton.js): gesture routing between Activate, the item's
    dbusmenu and ContextMenu, the refresh of tooltip and icon from a
    `GetAll` reply, and teardown. Pointer coordinates, the `GetAll` reply,
    the icon-theme lookup and the pixmap conversion are inputs; the calls
    made on the item are recorded in `calls`. */
module SniItem {
  import opened Utils
  import opened DbusMenu

  /** The methods invoked on the item (fire and forget). */
  datatype ItemCall = Activate(x: int, y: int) | ContextMenu(x: int, y: int)

  /** What a button-press handler tells the toolkit. */
  datatype PressResult = Propagate | Stop

  /** The reply to `GetAll` on org.kde.StatusNotifierItem. */
  datatype PropsReply = GetAllFailed(message: string) | GetAllOk(props: map<string, Value>)

  /** How a refresh ended. `ActorGone`: the button was destroyed while the
      fetch was in flight, so setting the tooltip throws and the rest of the
      refresh is skipped. */
  datatype RefreshResult = Applied | FetchFailed(logged: bool) | ActorGone

  /** The icon shown: a theme icon by name, or a temporary file written
      from a pixmap. */
  datatype Icon = ThemeIcon(name: string) | FileIcon(file: nat)

  const SecondaryButton: int := 3
  const InitialIconName: string := "dialog-information-symbolic"
  const MissingIconName: string := "image-missing-symbolic"

  /** `unpack(props.Key) ?? null`: one variant layer removed, `Null` when
      the property is absent. */
  function Field(props: map<string, Value>, key: string): Value
  {
    if key in props then Unpack(props[key]) else Null
  }

  /** The tooltip: the title when it is a non-empty string, otherwise the
      item's address followed by its object path, always cut to 80
      characters. */
  function TooltipFor(title: Value, busName: string, objPath: string): (r: string)
    ensures |r| <= TooltipLimit
    ensures title.Str? && title.s != "" ==> r == SafeText(title.s)
    ensures !(title.Str? && title.s != "") ==> r == SafeText(busName + objPath)
  {
    if title.Str? && title.s != "" then SafeText(title.s) else SafeText(busName + objPath)
  }

  class SniItemButton {
    const busName: string
    const objPath: string
    var menuUnsupported: bool
    var openingMenu: bool
    var destroyed: bool
    /** `this.actor` is still set. */
    var actorPresent: bool
    /** `_menuPath`, as last read from the item's `Menu` property. */
    var menuPath: Value
    var tooltip: string
    var icon: Icon
    var tmpIconFile: Option<nat>
    /** Temporary icon files deleted so far, in order. */
    var deletedFiles: seq<nat>
    var dbusMenu: MinimalDbusMenu?
    var calls: seq<ItemCall>

    ghost predicate Valid()
      reads this, dbusMenu
    {
      (dbusMenu != null ==> dbusMenu.Valid()) &&
      (actorPresent <==> !destroyed) &&
      (destroyed ==> tmpIconFile.None? && dbusMenu == null) &&
      (!destroyed && icon.FileIcon? ==> tmpIconFile == Some(icon.file))
    }

    constructor (bus: string, path: string)
      ensures Valid()
      ensures busName == bus && objPath == path
      ensures !menuUnsupported && !openingMenu && !destroyed && actorPresent
      ensures menuPath == Null && tooltip == "" && icon == ThemeIcon(InitialIconName)
      ensures tmpIconFile.None? && deletedFiles == [] && dbusMenu == null && calls == []
    {
      busName, objPath := bus, path;
      menuUnsupported, openingMenu, destroyed := false, false, false;
      actorPresent := true;
      menuPath := Null;
      tooltip := "";
      icon := ThemeIcon(InitialIconName);
      tmpIconFile := None;
      deletedFiles := [];
      dbusMenu := null;
      calls := [];
    }

    /** The `clicked` handler: Activate at the pointer, truncated to 32
        bits. Once destroyed the handler is disconnected. */
    method OnClicked(px: int, py: int)
      requires Valid()
      modifies this`calls
      ensures Valid()
      ensures calls == old(calls) + (if destroyed then [] else [Activate(ToInt32(px), ToInt32(py))])
    {
      if destroyed {
        return;
      }
      calls := calls + [Activate(ToInt32(px), ToInt32(py))];
    }

    /** The `button-press-event` handler. Only the secondary button is
        handled. With an object path for the menu and no record of the menu
        being unsupported, it starts opening the menu (creating the menu
        client if there is none) unless an open is already under way;
        otherwise it invokes ContextMenu at the pointer. */
    method OnButtonPress(button: int, px: int, py: int) returns (r: PressResult)
      requires Valid()
      modifies this
      ensures Valid()
      ensures old(destroyed) || button != SecondaryButton ==> r == Propagate && unchanged(this)
      ensures !old(destroyed) && button == SecondaryButton ==> r == Stop
      ensures !old(destroyed) && button == SecondaryButton && IsObjectPath(menuPath) && !menuUnsupported ==>
                calls == old(calls) &&
                (old(openingMenu) ==> unchanged(this)) &&
                (!old(openingMenu) ==>
                   openingMenu && dbusMenu != null &&
                   (old(dbusMenu) != null ==> dbusMenu == old(dbusMenu)) &&
                   (old(dbusMenu) == null ==>
                      fresh(dbusMenu) && dbusMenu.busName == busName && dbusMenu.menuPath == menuPath.s &&
                      !dbusMenu.destroyed && !dbusMenu.unsupported && !dbusMenu.hasProxy && !dbusMenu.menuPresent &&
                      !dbusMenu.rebuildPending && dbusMenu.deferredRebuilds == 0 && dbusMenu.calls == []))
      ensures !old(destroyed) && button == SecondaryButton && !(IsObjectPath(menuPath) && !menuUnsupported) ==>
                calls == old(calls) + [ContextMenu(ToInt32(px), ToInt32(py))] &&
                openingMenu == old(openingMenu) && dbusMenu == old(dbusMenu)
      ensures menuUnsupported == old(menuUnsupported) && menuPath == old(menuPath)
      ensures tooltip == old(tooltip) && icon == old(icon) && tmpIconFile == old(tmpIconFile)
      ensures deletedFiles == old(deletedFiles) && destroyed == old(destroyed) && actorPresent == old(actorPresent)
    {
      if destroyed {
        return Propagate;
      }
      if button != SecondaryButton {
        return Propagate;
      }
      if IsObjectPath(menuPath) && !menuUnsupported {
        if openingMenu {
          return Stop;
        }
        if dbusMenu == null {
          dbusMenu := new MinimalDbusMenu(busName, menuPath.s);
        }
        openingMenu := true;
        return Stop;
      }
      calls := calls + [ContextMenu(ToInt32(px), ToInt32(py))];
      return Stop;
    }

    /** The menu open started by a press runs to completion with `reply` as
        its layout, then the `finally` block runs: the open is over, and a
        client that reported the menu unsupported is dropped and the item
        remembered as having no usable menu. */
    method OnMenuOpenSettled(reply: LayoutReply)
      requires Valid() && openingMenu
      modifies this, dbusMenu
      ensures Valid() && !openingMenu
      ensures old(menuUnsupported) ==> menuUnsupported
      ensures old(dbusMenu) == null ==> dbusMenu == null && menuUnsupported == old(menuUnsupported)
      ensures old(dbusMenu) != null && old(dbusMenu).unsupported ==> menuUnsupported && dbusMenu == null
      ensures old(dbusMenu) != null && !old(dbusMenu).unsupported ==>
                dbusMenu == old(dbusMenu) && menuUnsupported == old(menuUnsupported)
      ensures old(dbusMenu) != null && old(dbusMenu.destroyed) ==>
                old(dbusMenu).calls == old(dbusMenu.calls) && !old(dbusMenu).menuOpen &&
                old(dbusMenu).destroyed && old(dbusMenu).unsupported == old(dbusMenu.unsupported)
      ensures old(dbusMenu) != null ==> old(dbusMenu).deferredRebuilds == old(dbusMenu.deferredRebuilds)
      ensures old(dbusMenu) != null && !old(dbusMenu.destroyed) && !old(dbusMenu.unsupported) && old(dbusMenu.menuOpen) ==>
                old(dbusMenu).menuOpen && old(dbusMenu).calls == old(dbusMenu.calls) &&
                old(dbusMenu).items == old(dbusMenu.items) && old(dbusMenu).rebuildPending == old(dbusMenu.rebuildPending)
      ensures old(dbusMenu) != null && !old(dbusMenu.destroyed) && !old(dbusMenu.menuOpen) ==>
                old(dbusMenu).calls == old(dbusMenu.calls) + [LayoutRequest] &&
                (reply.LayoutOk? ==>
                   !old(dbusMenu).destroyed && !old(dbusMenu).unsupported &&
                   old(dbusMenu).menuOpen && old(dbusMenu).hasProxy && old(dbusMenu).items == LayoutItems(reply.layout) &&
                   old(dbusMenu).rebuildPending == old(dbusMenu.rebuildPending)) &&
                (reply.LayoutFailed? ==>
                   old(dbusMenu).destroyed &&
                   (old(dbusMenu).unsupported <==> ClassifyFailure(reply.message) == NotSupported))
      ensures calls == old(calls) && menuPath == old(menuPath)
      ensures tooltip == old(tooltip) && icon == old(icon) && tmpIconFile == old(tmpIconFile)
      ensures deletedFiles == old(deletedFiles) && destroyed == old(destroyed) && actorPresent == old(actorPresent)
    {
      if dbusMenu != null {
        dbusMenu.Open(reply);
      }
      openingMenu := false;
      if dbusMenu != null && dbusMenu.unsupported {
        menuUnsupported := true;
        dbusMenu := null;
      }
    }

    /** The settle step as it would have to be for a failed fetch to be
        retried: besides a client that reported the menu unsupported, a
        client that a failed fetch destroyed is dropped too (without
        marking the menu unsupported), so the next secondary press creates
        a fresh client. A client that is kept is always alive. */
    method OnMenuOpenSettledDroppingDead(reply: LayoutReply)
      requires Valid() && openingMenu
      modifies this, dbusMenu
      ensures Valid() && !openingMenu
      ensures dbusMenu != null ==> !dbusMenu.destroyed
      ensures old(menuUnsupported) ==> menuUnsupported
      ensures old(dbusMenu) == null ==> dbusMenu == null && menuUnsupported == old(menuUnsupported)
      ensures old(dbusMenu) != null && old(dbusMenu).unsupported ==> menuUnsupported && dbusMenu == null
      ensures old(dbusMenu) != null && !old(dbusMenu).unsupported && old(dbusMenu).destroyed ==>
                dbusMenu == null && menuUnsupported == old(menuUnsupported)
      ensures old(dbusMenu) != null && !old(dbusMenu).unsupported && !old(dbusMenu).destroyed ==>
                dbusMenu == old(dbusMenu) && menuUnsupported == old(menuUnsupported)
      ensures old(dbusMenu) != null && old(dbusMenu.destroyed) ==>
                old(dbusMenu).calls == old(dbusMenu.calls) && !old(dbusMenu).menuOpen &&
                old(dbusMenu).destroyed && old(dbusMenu).unsupported == old(dbusMenu.unsupported)
      ensures old(dbusMenu) != null ==> old(dbusMenu).deferredRebuilds == old(dbusMenu.deferredRebuilds)
      ensures old(dbusMenu) != null && !old(dbusMenu.destroyed) && !old(dbusMenu.unsupported) && old(dbusMenu.menuOpen) ==>
                old(dbusMenu).menuOpen && old(dbusMenu).calls == old(dbusMenu.calls) &&
                old(dbusMenu).items == old(dbusMenu.items) && old(dbusMenu).rebuildPending == old(dbusMenu.rebuildPending)
      ensures old(dbusMenu) != null && !old(dbusMenu.destroyed) && !old(dbusMenu.menuOpen) ==>
                old(dbusMenu).calls == old(dbusMenu.calls) + [LayoutRequest] &&
                (reply.LayoutOk? ==>
                   !old(dbusMenu).destroyed && !old(dbusMenu).unsupported &&
                   old(dbusMenu).menuOpen && old(dbusMenu).hasProxy && old(dbusMenu).items == LayoutItems(reply.layout) &&
                   old(dbusMenu).rebuildPending == old(dbusMenu.rebuildPending)) &&
                (reply.LayoutFailed? ==>
                   old(dbusMenu).destroyed &&
                   (old(dbusMenu).unsupported <==> ClassifyFailure(reply.message) == NotSupported))
      ensures calls == old(calls) && menuPath == old(menuPath)
      ensures tooltip == old(tooltip) && icon == old(icon) && tmpIconFile == old(tmpIconFile)
      ensures deletedFiles == old(deletedFiles) && destroyed == old(destroyed) && actorPresent == old(actorPresent)
    {
      if dbusMenu != null {
        dbusMenu.Open(reply);
      }
      openingMenu := false;
      if dbusMenu != null && (dbusMenu.unsupported || dbusMenu.destroyed) {
        if dbusMenu.unsupported {
          menuUnsupported := true;
        }
        dbusMenu := null;
      }
    }

    /** `_refreshFromProperties`, with the `GetAll` reply, whether the theme
        has the named icon, whether a pixmap was picked and the result of
        converting it as inputs. A failed fetch changes nothing and is
        logged only on the initial fetch. Otherwise the menu path is taken
        over, the tooltip set, and the icon chosen: the named icon when the
        theme has it, else the converted pixmap (the previous temporary file
        is deleted first), else the missing-icon placeholder. */
    method RefreshFromProperties(reply: PropsReply, isInitial: bool, themeHasName: bool,
                                 pixmapPicked: bool, converted: Option<nat>) returns (result: RefreshResult)
      requires Valid()
      modifies this
      ensures Valid()
      ensures reply.GetAllFailed? ==> result == FetchFailed(isInitial) && unchanged(this)
      ensures reply.GetAllOk? ==> menuPath == Field(reply.props, "Menu")
      ensures reply.GetAllOk? && old(destroyed) ==>
                result == ActorGone && tooltip == old(tooltip) && icon == old(icon) &&
                tmpIconFile == old(tmpIconFile) && deletedFiles == old(deletedFiles)
      ensures reply.GetAllOk? && !old(destroyed) ==>
                result == Applied &&
                tooltip == TooltipFor(Field(reply.props, "Title"), busName, objPath) &&
                (var name := Field(reply.props, "IconName");
                 var named := name.Str? && name.s != "" && themeHasName;
                 (named ==> icon == ThemeIcon(name.s) && tmpIconFile == old(tmpIconFile) && deletedFiles == old(deletedFiles)) &&
                 (!named && pixmapPicked ==>
                    deletedFiles == old(deletedFiles) + (if old(tmpIconFile).Some? then [old(tmpIconFile).value] else []) &&
                    tmpIconFile == converted) &&
                 (!named && pixmapPicked && converted.Some? ==> icon == FileIcon(converted.value)) &&
                 (!named && !pixmapPicked ==> tmpIconFile == old(tmpIconFile) && deletedFiles == old(deletedFiles)) &&
                 (!named && !(pixmapPicked && converted.Some?) ==> icon == ThemeIcon(MissingIconName)))
      ensures menuUnsupported == old(menuUnsupported) && openingMenu == old(openingMenu)
      ensures dbusMenu == old(dbusMenu) && calls == old(calls) && destroyed == old(destroyed)
    {
      if reply.GetAllFailed? {
        return FetchFailed(isInitial);
      }
      var props := reply.props;
      menuPath := Field(props, "Menu");
      var title := Field(props, "Title");
      var iconName := Field(props, "IconName");
      if destroyed {
        return ActorGone;
      }
      tooltip := TooltipFor(title, busName, objPath);
      if iconName.Str? && iconName.s != "" && themeHasName {
        icon := ThemeIcon(iconName.s);
        return Applied;
      }
      if pixmapPicked {
        if tmpIconFile.Some? {
          deletedFiles := deletedFiles + [tmpIconFile.value];
          tmpIconFile := None;
        }
        if converted.Some? {
          tmpIconFile := converted;
          icon := FileIcon(converted.value);
          return Applied;
        }
      }
      icon := ThemeIcon(MissingIconName);
      return Applied;
    }

    /** `destroy`: a second call does nothing. The first releases the
        actor, deletes the temporary icon file and destroys the menu
        client. */
    method Destroy()
      requires Valid()
      modifies this, dbusMenu
      ensures Valid() && destroyed && !actorPresent && tmpIconFile.None? && dbusMenu == null
      ensures old(destroyed) ==> unchanged(this)
      ensures !old(destroyed) ==>
                deletedFiles == old(deletedFiles) + (if old(tmpIconFile).Some? then [old(tmpIconFile).value] else [])
      ensures old(dbusMenu) != null ==> old(dbusMenu).destroyed
      ensures old(dbusMenu) != null ==>
                old(dbusMenu).unsupported == old(dbusMenu.unsupported) && old(dbusMenu).calls == old(dbusMenu.calls)
      ensures menuUnsupported == old(menuUnsupported) && menuPath == old(menuPath) && calls == old(calls)
      ensures openingMenu == old(openingMenu) && tooltip == old(tooltip) && icon == old(icon)
    {
      if destroyed {
        return;
      }
      destroyed := true;
      actorPresent := false;
      if tmpIconFile.Some? {
        deletedFiles := deletedFiles + [tmpIconFile.value];
        tmpIconFile := None;
      }
      if dbusMenu != null {
        dbusMenu.Destroy();
        dbusMenu := null;
      }
    }
  }

  /** An item whose menu lives at `/MenuBar` and whose first menu fetch
      gets no reply. As the settle step is written, the destroyed client
      stays attached to the button, so a second secondary press neither
      fetches the menu again nor falls back to ContextMenu: the press is
      swallowed and nothing is shown. */
  method TransientFailureSilencesButton()
    returns (secondPress: PressResult, fetches: seq<MenuCall>, itemCalls: seq<ItemCall>, menuShown: bool)
    ensures secondPress == Stop
    ensures fetches == [LayoutRequest]
    ensures itemCalls == [] && !menuShown
  {
    var b := new SniItemButton(":1.42", "/org/ExampleItem");
    var refreshed := b.RefreshFromProperties(GetAllOk(map["Menu" := Variant(Str("/MenuBar"))]), true, false, false, None);
    assert IsObjectPath(b.menuPath);
    var first := b.OnButtonPress(SecondaryButton, 10, 10);
    var menu := b.dbusMenu;
    assert menu != null && menu.calls == [];
    ClassifyFailureExamples();
    b.OnMenuOpenSettled(LayoutFailed("NoReply"));
    assert menu.destroyed && !menu.unsupported && menu.calls == [LayoutRequest];
    assert b.dbusMenu == menu && !b.menuUnsupported && !b.openingMenu;
    secondPress := b.OnButtonPress(SecondaryButton, 10, 10);
    assert b.dbusMenu == menu && b.openingMenu && b.calls == [];
    b.OnMenuOpenSettled(LayoutOk(1, Node(0, map[], [])));
    fetches := menu.calls;
    itemCalls := b.calls;
    menuShown := b.dbusMenu != null && b.dbusMenu.menuOpen;
  }

  /** The same item with the corrected settle step: the dead client is
      dropped, the second press creates a new one, and its fetch succeeds
      and opens the menu. */
  method TransientFailureRetried()
    returns (secondPress: PressResult, itemCalls: seq<ItemCall>, menuShown: bool)
    ensures secondPress == Stop
    ensures itemCalls == [] && menuShown
  {
    var b := new SniItemButton(":1.42", "/org/ExampleItem");
    var refreshed := b.RefreshFromProperties(GetAllOk(map["Menu" := Variant(Str("/MenuBar"))]), true, false, false, None);
    assert IsObjectPath(b.menuPath);
    var first := b.OnButtonPress(SecondaryButton, 10, 10);
    ClassifyFailureExamples();
    b.OnMenuOpenSettledDroppingDead(LayoutFailed("NoReply"));
    assert b.dbusMenu == null && !b.menuUnsupported && !b.openingMenu;
    secondPress := b.OnButtonPress(SecondaryButton, 10, 10);
    assert b.dbusMenu != null && !b.dbusMenu.destroyed && !b.dbusMenu.unsupported && !b.dbusMenu.menuOpen;
    assert b.calls == [];
    var menu := b.dbusMenu;
    b.OnMenuOpenSettledDroppingDead(LayoutOk(1, Node(0, map[], [])));
    assert menu.menuOpen && !menu.destroyed;
    assert b.dbusMenu == menu;
    itemCalls := b.calls;
    menuShown := b.dbusMenu != null && b.dbusMenu.menuOpen;
  }

  /** An item whose menu object lacks the dbusmenu methods: the first
      secondary press tries the menu, which is then remembered as
      unsupported, and the next secondary press invokes ContextMenu at the
      pointer instead. */
  method UnsupportedMenuFallsBack() returns (secondPress: PressResult, itemCalls: seq<ItemCall>)
    ensures secondPress == Stop
    ensures itemCalls == [ContextMenu(10, 20)]
  {
    var b := new SniItemButton(":1.42", "/org/ExampleItem");
    var refreshed := b.RefreshFromProperties(GetAllOk(map["Menu" := Variant(Str("/MenuBar"))]), true, false, false, None);
    assert IsObjectPath(b.menuPath);
    var first := b.OnButtonPress(SecondaryButton, 10, 20);
    ClassifyFailureExamples();
    b.OnMenuOpenSettled(LayoutFailed("UnknownMethod"));
    assert b.menuUnsupported && b.dbusMenu == null && b.calls == [];
    secondPress := b.OnButtonPress(SecondaryButton, 10, 20);
    itemCalls := b.calls;
  }

  /** A menu that was shown once, then its own LayoutUpdated leads to an
      idle rebuild whose fetch finds no dbusmenu methods. The client is now
      destroyed and unsupported while still attached to the button; the
      next secondary press is swallowed and only its settle step records the
      menu as unsupported, so the press after that invokes ContextMenu. */
  method IdleFailureThenFallBack()
    returns (secondPress: PressResult, fetches: seq<MenuCall>, itemCalls: seq<ItemCall>)
    ensures secondPress == Stop
    ensures fetches == [LayoutRequest, LayoutRequest]
    ensures itemCalls == [ContextMenu(10, 20)]
  {
    var b := new SniItemButton(":1.42", "/org/ExampleItem");
    var refreshed := b.RefreshFromProperties(GetAllOk(map["Menu" := Variant(Str("/MenuBar"))]), true, false, false, None);
    assert IsObjectPath(b.menuPath);
    var first := b.OnButtonPress(SecondaryButton, 10, 20);
    var menu := b.dbusMenu;
    b.OnMenuOpenSettled(LayoutOk(1, Node(0, map[], [])));
    assert b.dbusMenu == menu && menu.menuOpen && menu.calls == [LayoutRequest];
    menu.CloseMenu();
    menu.OnLayoutUpdated();
    ClassifyFailureExamples();
    menu.OnIdleRebuild(LayoutFailed("UnknownMethod"));
    assert menu.destroyed && menu.unsupported && b.dbusMenu == menu && !b.menuUnsupported;
    secondPress := b.OnButtonPress(SecondaryButton, 10, 20);
    assert b.calls == [] && b.openingMenu;
    b.OnMenuOpenSettled(LayoutOk(2, Node(0, map[], [])));
    assert b.menuUnsupported && b.dbusMenu == null;
    fetches := menu.calls;
    var third := b.OnButtonPress(SecondaryButton, 10, 20);
    itemCalls := b.calls;
  }

  /** The button is destroyed while the open started by a secondary press
      is still under way; the open's `finally` block runs afterwards and
      finds no client. The open guard is released, and nothing is sent. */
  method DestroyDuringOpen() returns (stillOpening: bool, clientGone: bool, itemCalls: seq<ItemCall>)
    ensures !stillOpening && clientGone && itemCalls == []
  {
    var b := new SniItemButton(":1.42", "/org/ExampleItem");
    var refreshed := b.RefreshFromProperties(GetAllOk(map["Menu" := Variant(Str("/MenuBar"))]), true, false, false, None);
    assert IsObjectPath(b.menuPath);
    var first := b.OnButtonPress(SecondaryButton, 10, 20);
    var menu := b.dbusMenu;
    b.Destroy();
    assert b.openingMenu && b.dbusMenu == null && menu.destroyed;
    b.OnMenuOpenSettled(LayoutOk(1, Node(0, map[], [])));
    stillOpening := b.openingMenu;
    clientGone := b.dbusMenu == null;
    itemCalls := b.calls;
  }
}
