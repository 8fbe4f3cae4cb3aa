/** Client of the com.canonical.dbusmenu protocol for one item's menu
    (dbusMenu.js): the conversion of a `GetLayout` reply into a menu tree,
    the classification of a failed fetch, and the client's lifecycle. The
    popup menu is modelled by whether it exists, whether it is open and the
    tree it shows; the proxy by whether it exists. */
module DbusMenu {
  import opened Utils

  // ---------------------------------------------------------------------
  // Reading a layout
  // ---------------------------------------------------------------------

  function SizeOf(v: Value): nat
    decreases v
  {
    match v
    case Variant(x) => 1 + SizeOf(x)
    case Node(_, _, ch) => 1 + SizeOfAll(ch)
    case _ => 1
  }

  function SizeOfAll(vs: seq<Value>): nat
    decreases vs
  {
    if vs == [] then 0 else SizeOf(vs[0]) + SizeOfAll(vs[1..])
  }

  lemma {:induction false} PeeledSize(v: Value)
    ensures SizeOf(Peeled(v)) <= SizeOf(v)
  {
    if v.Variant? {
      PeeledSize(v.inner);
    }
  }

  /** `vunpack(cprops[key])` for a child: the unwrapped property value, or
      `Null` when the child has no such property. */
  function Prop(child: Value, key: string): Value
  {
    if child.Node? && key in child.props then Peeled(child.props[key]) else Null
  }

  function DigitText(d: nat): string
    requires d < 10
  {
    ["0123456789"[d]]
  }

  function NatText(n: nat): string
    decreases n
  {
    if n < 10 then DigitText(n) else NatText(n / 10) + DigitText(n % 10)
  }

  /** `(v ?? '').toString()` for an unwrapped property value. */
  function TextOf(v: Value): string
  {
    match v
    case Null => ""
    case Str(s) => s
    case Bool(b) => if b then "true" else "false"
    case Int(n) => if n < 0 then "-" + NatText(-n) else NatText(n)
    case _ => "[object]"
  }

  function TypeOf(child: Value): string { TextOf(Prop(child, "type")) }

  function LabelOf(child: Value): string { TextOf(Prop(child, "label")) }

  /** Only an explicit `false` hides a child; a missing flag means visible. */
  predicate IsVisible(child: Value) { Prop(child, "visible") != Bool(false) }

  /** Only an explicit `false` makes an entry insensitive. */
  predicate IsEnabled(child: Value) { Prop(child, "enabled") != Bool(false) }

  /** `child?.[2] ?? []`: the raw children, counted before any filtering. */
  function RawChildren(child: Value): seq<Value>
  {
    if child.Node? then child.children else []
  }

  function IdOf(child: Value): Option<int>
  {
    if child.Node? then Some(child.id) else None
  }

  const Placeholder: string := "(unnamed)"

  /** The placeholder replaces an empty label before mnemonic stripping. */
  function DisplayLabel(child: Value): string
  {
    StripMnemonic(if LabelOf(child) == "" then Placeholder else LabelOf(child))
  }

  /** A submenu needs raw children and a type of "submenu" or none. */
  predicate IsSubmenu(child: Value)
  {
    |RawChildren(child)| > 0 && (TypeOf(child) == "submenu" || TypeOf(child) == "")
  }

  // ---------------------------------------------------------------------
  // Building the menu tree
  // ---------------------------------------------------------------------

  /** One entry of the local menu: a separator, a submenu with its own
      entries, or an action that sends a click for `id`. */
  datatype MenuItem =
    | Separator
    | Submenu(text: string, sensitive: bool, items: seq<MenuItem>)
    | Action(id: Option<int>, text: string, sensitive: bool)

  /** The nested `build`: walks the raw children in order, unwraps each,
      skips hidden ones, and turns the rest into entries. */
  function BuildItems(children: seq<Value>): seq<MenuItem>
    decreases SizeOfAll(children)
  {
    if children == [] then []
    else
      var child := Peeled(children[0]);
      PeeledSize(children[0]);
      var rest := BuildItems(children[1..]);
      if !IsVisible(child) then rest
      else if TypeOf(child) == "separator" then [Separator] + rest
      else if IsSubmenu(child) then
        [Submenu(DisplayLabel(child), IsEnabled(child), BuildItems(child.children))] + rest
      else
        [Action(IdOf(child), DisplayLabel(child), IsEnabled(child))] + rest
  }

  /** The entries shown for a whole `GetLayout` reply: the root's children. */
  function LayoutItems(layout: Value): seq<MenuItem>
  {
    BuildItems(RawChildren(Peeled(layout)))
  }

  /** Reference reading, part one: the children that survive, unwrapped,
      in their original order. */
  function Survivors(children: seq<Value>): seq<Value>
  {
    if children == [] then []
    else (if IsVisible(Peeled(children[0])) then [Peeled(children[0])] else []) + Survivors(children[1..])
  }

  /** Reference reading, part two: the entry one surviving child becomes. */
  function BuildNode(child: Value): (m: MenuItem)
    ensures m.Separator? <==> TypeOf(child) == "separator"
    ensures m.Submenu? <==> TypeOf(child) != "separator" && IsSubmenu(child)
    ensures !m.Separator? ==> m.text == DisplayLabel(child) && m.sensitive == IsEnabled(child)
    ensures m.Submenu? ==> m.items == BuildItems(RawChildren(child))
    ensures m.Action? ==> m.id == IdOf(child)
  {
    if TypeOf(child) == "separator" then Separator
    else if IsSubmenu(child) then Submenu(DisplayLabel(child), IsEnabled(child), BuildItems(child.children))
    else Action(IdOf(child), DisplayLabel(child), IsEnabled(child))
  }

  /** Survivors are exactly the visible children, order kept: the filter
      distributes over concatenation and keeps a single child iff visible. */
  lemma {:induction false} SurvivorsFilter(a: seq<Value>, b: seq<Value>)
    ensures Survivors(a + b) == Survivors(a) + Survivors(b)
    ensures forall c :: c in Survivors(a) ==> IsVisible(c) && !c.Variant?
    ensures |Survivors(a)| <= |a|
    decreases |a|
  {
    if a == [] {
      assert a + b == b;
    } else {
      assert (a + b)[1..] == a[1..] + b;
      SurvivorsFilter(a[1..], b);
    }
  }

  /** The built entries correspond one to one, in order, to the surviving
      children: hidden children and their whole subtrees are gone, and each
      survivor becomes the entry its own attributes select. */
  lemma {:induction false} BuildItemsFollowsSurvivors(children: seq<Value>)
    ensures |BuildItems(children)| == |Survivors(children)|
    ensures forall i :: 0 <= i < |Survivors(children)| ==>
              BuildItems(children)[i] == BuildNode(Survivors(children)[i])
    decreases |children|
  {
    if children != [] {
      BuildItemsFollowsSurvivors(children[1..]);
    }
  }

  /** A child typed "separator" is a separator whatever else it carries. */
  lemma SeparatorWins(id: int, props: map<string, Value>, children: seq<Value>)
    requires "type" in props && Peeled(props["type"]) == Str("separator")
    requires !("visible" in props && Peeled(props["visible"]) == Bool(false))
    ensures BuildItems([Node(id, props, children)]) == [Separator]
  {
    var c := Node(id, props, children);
    assert Peeled(c) == c;
    assert [c][1..] == [];
  }

  /** A "submenu" without raw children, and a "standard" entry with
      children, both become plain actions whose children are ignored. */
  lemma LeafRules(id: int, props: map<string, Value>, children: seq<Value>)
    requires !("visible" in props && Peeled(props["visible"]) == Bool(false))
    requires "type" in props
    requires (Peeled(props["type"]) == Str("submenu") && children == []) ||
             Peeled(props["type"]) == Str("standard")
    ensures BuildItems([Node(id, props, children)]) ==
              [Action(Some(id), DisplayLabel(Node(id, props, children)), IsEnabled(Node(id, props, children)))]
  {
    var c := Node(id, props, children);
    assert Peeled(c) == c;
    assert [c][1..] == [];
    assert TypeOf(c) == "submenu" || TypeOf(c) == "standard";
  }

  /** The rule counts raw children: a submenu whose children are all hidden
      still builds as a submenu, with no entries. */
  lemma HiddenChildrenKeepSubmenu(id: int, props: map<string, Value>, hidden: Value)
    requires !("visible" in props && Peeled(props["visible"]) == Bool(false))
    requires "type" in props && Peeled(props["type"]) == Str("submenu")
    requires hidden.Node? && "visible" in hidden.props && Peeled(hidden.props["visible"]) == Bool(false)
    ensures BuildItems([Node(id, props, [hidden])]) ==
              [Submenu(DisplayLabel(Node(id, props, [hidden])), IsEnabled(Node(id, props, [hidden])), [])]
  {
    var c := Node(id, props, [hidden]);
    assert Peeled(c) == c;
    assert Peeled(hidden) == hidden;
    assert [c][1..] == [];
    assert [hidden][1..] == [];
    assert BuildItems([hidden]) == [];
  }

  /** The placeholder is chosen before stripping, so a label that is only a
      mnemonic marker is shown as an empty string. */
  lemma MarkerOnlyLabelShowsEmpty(id: int)
    ensures BuildItems([Node(id, map["label" := Str("_")], [])]) == [Action(Some(id), "", true)]
  {
    var c := Node(id, map["label" := Str("_")], []);
    assert Peeled(c) == c;
    assert [c][1..] == [];
    assert LabelOf(c) == "_";
    StripMnemonicEdgeCases();
  }

  /** A reply whose root holds a hidden separator and an enabled action
      labelled "__Quit" builds a single action labelled "_Quit". */
  lemma QuitScenario()
    ensures LayoutItems(Node(0, map[], [
              Variant(Node(1, map["type" := Variant(Str("separator")), "visible" := Variant(Bool(false))], [])),
              Variant(Node(2, map["label" := Variant(Str("__Quit")), "enabled" := Variant(Bool(true))], []))]))
            == [Action(Some(2), "_Quit", true)]
  {
    var sep := Node(1, map["type" := Variant(Str("separator")), "visible" := Variant(Bool(false))], []);
    var quit := Node(2, map["label" := Variant(Str("__Quit")), "enabled" := Variant(Bool(true))], []);
    var kids := [Variant(sep), Variant(quit)];
    assert kids[1..] == [Variant(quit)];
    assert !IsVisible(sep);
    QuitEntry(quit);
  }

  lemma QuitEntry(quit: Value)
    requires quit == Node(2, map["label" := Variant(Str("__Quit")), "enabled" := Variant(Bool(true))], [])
    ensures BuildItems([Variant(quit)]) == [Action(Some(2), "_Quit", true)]
  {
    assert [Variant(quit)][1..] == [];
    assert LabelOf(quit) == "__Quit";
    assert IsEnabled(quit);
    StripQuitExample();
  }

  // ---------------------------------------------------------------------
  // Failed fetches
  // ---------------------------------------------------------------------

  /** `pat` occurs in `s` starting at position `i`. */
  predicate OccursAt(s: string, pat: string, i: int)
  {
    0 <= i && i + |pat| <= |s| && s[i..i + |pat|] == pat
  }

  lemma OccursShift(s: string, pat: string)
    requires |s| > 0
    ensures forall i :: 0 <= i ==> (OccursAt(s[1..], pat, i) <==> OccursAt(s, pat, i + 1))
  {
    forall i | 0 <= i
      ensures OccursAt(s[1..], pat, i) <==> OccursAt(s, pat, i + 1)
    {
      if 0 <= i && i + 1 + |pat| <= |s| {
        assert s[1..][i..i + |pat|] == s[i + 1..i + 1 + |pat|];
      }
    }
  }

  /** `String.prototype.includes`. */
  function Contains(s: string, pat: string): (r: bool)
    ensures r <==> exists i :: OccursAt(s, pat, i)
    decreases |s|
  {
    if |pat| > |s| then false
    else if s[..|pat|] == pat then
      assert OccursAt(s, pat, 0);
      true
    else
      OccursShift(s, pat);
      assert !OccursAt(s, pat, 0);
      assert forall i :: OccursAt(s, pat, i) ==> i == 0 || OccursAt(s[1..], pat, i - 1);
      Contains(s[1..], pat)
  }

  /** The three classes a failed `GetLayout` falls into. */
  datatype FailureKind =
    | NotSupported   // no such method, interface or object: give up on this menu
    | PeerGone       // service unknown, no reply, disconnected
    | OtherFailure   // anything else, logged

  /** Checked in source order, so a message naming both a missing method
      and a lost peer counts as not supported. */
  function ClassifyFailure(msg: string): FailureKind
  {
    if Contains(msg, "UnknownMethod") || Contains(msg, "doesn't exist") || Contains(msg, "UnknownObject") then NotSupported
    else if Contains(msg, "ServiceUnknown") || Contains(msg, "NoReply") || Contains(msg, "disconnected") then PeerGone
    else OtherFailure
  }

  /** On every message the checks apply in source order: a missing method,
      interface or object wins over a lost peer, and only a message naming
      neither is another failure. */
  lemma ClassifyFailureRules(msg: string)
    ensures ClassifyFailure(msg) == NotSupported <==>
              (exists i :: OccursAt(msg, "UnknownMethod", i)) || (exists i :: OccursAt(msg, "doesn't exist", i)) ||
              (exists i :: OccursAt(msg, "UnknownObject", i))
    ensures ClassifyFailure(msg) == PeerGone <==>
              ClassifyFailure(msg) != NotSupported &&
              ((exists i :: OccursAt(msg, "ServiceUnknown", i)) || (exists i :: OccursAt(msg, "NoReply", i)) ||
               (exists i :: OccursAt(msg, "disconnected", i)))
  {
  }

  lemma ClassifyFailureExamples()
    ensures ClassifyFailure("UnknownMethod") == NotSupported
    ensures ClassifyFailure("UnknownObject NoReply") == NotSupported
    ensures ClassifyFailure("NoReply") == PeerGone
    ensures ClassifyFailure("") == OtherFailure
  {
    assert "UnknownObject NoReply"[..|"UnknownObject"|] == "UnknownObject";
  }

  // ---------------------------------------------------------------------
  // The client
  // ---------------------------------------------------------------------

  /** The answer to `GetLayout`: a revision and the root layout, or the
      message of the error it failed with. */
  datatype LayoutReply = LayoutOk(revision: nat, layout: Value) | LayoutFailed(message: string)

  /** Calls the client makes on the remote menu. */
  datatype MenuCall =
    | GetLayout(parentId: int, recursionDepth: int, propertyNames: seq<string>)
    | Event(id: int, eventId: string, data: Value, timestamp: int)

  /** The fixed request: from the root, unlimited depth, four properties. */
  const LayoutRequest: MenuCall := GetLayout(0, -1, ["label", "enabled", "visible", "type"])

  /** The event an activated action sends: "clicked" with an empty string
      wrapped in a variant wrapped in a variant, timestamp 0. */
  function ClickEvent(id: int): MenuCall
  {
    Event(id, "clicked", Variant(Variant(Str(""))), 0)
  }

  class MinimalDbusMenu {
    const busName: string
    const menuPath: string
    var destroyed: bool
    var unsupported: bool
    /** The proxy exists, with its LayoutUpdated subscription. */
    var hasProxy: bool
    /** `_idleRebuildId != 0`: an idle rebuild is scheduled and tracked. */
    var rebuildPending: bool
    /** Untracked idle rebuilds queued after closing an open menu. */
    var deferredRebuilds: nat
    var menuPresent: bool
    var menuOpen: bool
    /** The entries the popup menu currently holds. */
    var items: seq<MenuItem>
    var calls: seq<MenuCall>

    /** Everything released once destroyed, a pending rebuild only with a
        proxy, an empty closed menu when there is no menu. */
    ghost predicate Consistent()
      reads this
    {
      (destroyed ==> !hasProxy && !menuPresent && !rebuildPending) &&
      (rebuildPending ==> hasProxy) &&
      (!menuPresent ==> !menuOpen && items == [])
    }

    /** The client is marked unsupported only on its way to destruction. */
    ghost predicate Valid()
      reads this
    {
      Consistent() && (unsupported ==> destroyed)
    }

    constructor (bus: string, path: string)
      ensures Valid()
      ensures busName == bus && menuPath == path
      ensures !destroyed && !unsupported && !hasProxy && !rebuildPending && deferredRebuilds == 0
      ensures !menuPresent && !menuOpen && items == [] && calls == []
    {
      busName, menuPath := bus, path;
      destroyed, unsupported := false, false;
      hasProxy, rebuildPending, deferredRebuilds := false, false, 0;
      menuPresent, menuOpen, items := false, false, [];
      calls := [];
    }

    /** `destroy`: a second call does nothing; the first cancels the
        pending idle rebuild, drops the subscription and proxy, and closes
        and drops the menu. */
    method Destroy()
      requires Consistent()
      modifies this
      ensures Valid() && destroyed
      ensures old(destroyed) ==> unchanged(this)
      ensures !hasProxy && !rebuildPending && !menuPresent && !menuOpen && items == []
      ensures unsupported == old(unsupported) && deferredRebuilds == old(deferredRebuilds) && calls == old(calls)
    {
      if destroyed {
        return;
      }
      destroyed := true;
      rebuildPending := false;
      if menuPresent {
        menuOpen := false;
        menuPresent := false;
        items := [];
      }
      hasProxy := false;
    }

    /** `_rebuild`, with the reply to its `GetLayout` call as input. It does
        nothing when destroyed, without menu or proxy, or while the menu is
        open. Otherwise it empties the menu and fetches the layout; a failure
        destroys the client, and marks it unsupported when the peer lacks
        the method or object; a reply is built into the menu. */
    method Rebuild(reply: LayoutReply)
      requires Valid()
      modifies this
      ensures Valid()
      ensures old(destroyed || !menuPresent || !hasProxy || menuOpen) ==> unchanged(this)
      ensures !old(destroyed || !menuPresent || !hasProxy || menuOpen) ==>
                calls == old(calls) + [LayoutRequest] && deferredRebuilds == old(deferredRebuilds)
      ensures !old(destroyed || !menuPresent || !hasProxy || menuOpen) && reply.LayoutOk? ==>
                !destroyed && !unsupported && hasProxy && menuPresent && !menuOpen &&
                rebuildPending == old(rebuildPending) && items == LayoutItems(reply.layout)
      ensures !old(destroyed || !menuPresent || !hasProxy || menuOpen) && reply.LayoutFailed? ==>
                destroyed && !menuPresent && !hasProxy && !rebuildPending &&
                (unsupported <==> ClassifyFailure(reply.message) == NotSupported)
    {
      if destroyed || !menuPresent || !hasProxy {
        return;
      }
      if menuOpen {
        return;
      }
      items := [];
      calls := calls + [LayoutRequest];
      match reply {
        case LayoutFailed(msg) =>
          var kind := ClassifyFailure(msg);
          if kind == NotSupported {
            unsupported := true;
            Destroy();
            return;
          }
          if kind == PeerGone {
            Destroy();
            return;
          }
          Destroy();
        case LayoutOk(_, layoutRaw) =>
          var layout := Vunpack(layoutRaw);
          items := BuildItems(RawChildren(layout));
      }
    }

    /** `open`, run to completion with the reply its rebuild receives. It
        does nothing once destroyed or unsupported. Otherwise it creates the
        proxy and the menu when missing, rebuilds, and opens the menu unless
        the rebuild destroyed the client. */
    method Open(reply: LayoutReply)
      requires Valid()
      modifies this
      ensures Valid()
      ensures old(destroyed || unsupported) ==> unchanged(this)
      ensures deferredRebuilds == old(deferredRebuilds)
      ensures !old(destroyed || unsupported) && old(menuOpen) ==>
                menuOpen && menuPresent && hasProxy && items == old(items) && calls == old(calls) &&
                !destroyed && !unsupported && rebuildPending == old(rebuildPending)
      ensures !old(destroyed || unsupported) && !old(menuOpen) ==> calls == old(calls) + [LayoutRequest]
      ensures !old(destroyed || unsupported) && !old(menuOpen) && reply.LayoutOk? ==>
                !destroyed && !unsupported && hasProxy && menuPresent && menuOpen &&
                rebuildPending == old(rebuildPending) && items == LayoutItems(reply.layout)
      ensures !old(destroyed || unsupported) && !old(menuOpen) && reply.LayoutFailed? ==>
                destroyed && !menuPresent && !menuOpen && !hasProxy && !rebuildPending &&
                (unsupported <==> ClassifyFailure(reply.message) == NotSupported)
    {
      if destroyed || unsupported {
        return;
      }
      if !hasProxy {
        hasProxy := true;
      }
      if !menuPresent {
        menuPresent, menuOpen, items := true, false, [];
      }
      Rebuild(reply);
      if !destroyed && !unsupported && menuPresent {
        menuOpen := true;
      }
    }

    /** The LayoutUpdated handler: ignored once destroyed or unsupported
        and while a rebuild is already scheduled, so at most one tracked
        idle rebuild is ever pending. Without a proxy there is no
        subscription and nothing arrives. */
    method OnLayoutUpdated()
      requires Valid()
      modifies this
      ensures Valid()
      ensures old(!hasProxy || destroyed || unsupported || rebuildPending) ==> unchanged(this)
      ensures !old(!hasProxy || destroyed || unsupported || rebuildPending) ==>
                rebuildPending && destroyed == old(destroyed) && unsupported == old(unsupported) &&
                hasProxy && deferredRebuilds == old(deferredRebuilds) && menuPresent == old(menuPresent) &&
                menuOpen == old(menuOpen) && items == old(items) && calls == old(calls)
    {
      if !hasProxy {
        return;
      }
      if destroyed || unsupported {
        return;
      }
      if rebuildPending {
        return;
      }
      rebuildPending := true;
    }

    /** The tracked idle callback. It clears the pending mark; if the menu
        is open it closes it and queues a further, untracked, rebuild;
        otherwise it rebuilds now. */
    method OnIdleRebuild(reply: LayoutReply)
      requires Valid() && rebuildPending
      modifies this
      ensures Valid() && !rebuildPending
      ensures old(menuOpen) ==>
                !menuOpen && menuPresent && deferredRebuilds == old(deferredRebuilds) + 1 && items == old(items) &&
                calls == old(calls) && !destroyed && !unsupported && hasProxy
      ensures !old(menuOpen) ==> deferredRebuilds == old(deferredRebuilds)
      ensures !old(menuOpen) && old(menuPresent) ==> calls == old(calls) + [LayoutRequest]
      ensures !old(menuOpen) && old(menuPresent) && reply.LayoutOk? ==>
                !destroyed && !unsupported && hasProxy && menuPresent && !menuOpen && items == LayoutItems(reply.layout)
      ensures !old(menuOpen) && old(menuPresent) && reply.LayoutFailed? ==>
                destroyed && !menuPresent && !hasProxy &&
                (unsupported <==> ClassifyFailure(reply.message) == NotSupported)
      ensures !old(menuPresent) ==>
                calls == old(calls) && items == old(items) && !destroyed && !unsupported && hasProxy &&
                !menuPresent && !menuOpen
    {
      rebuildPending := false;
      if destroyed || unsupported {
        return;
      }
      var wasOpen := menuPresent && menuOpen;
      if wasOpen {
        menuOpen := false;
        deferredRebuilds := deferredRebuilds + 1;
        return;
      }
      Rebuild(reply);
    }

    /** The untracked idle callback queued by `OnIdleRebuild`: rebuilds
        unless the client has been destroyed or marked unsupported since. */
    method OnDeferredRebuild(reply: LayoutReply)
      requires Valid() && deferredRebuilds > 0
      modifies this
      ensures Valid() && deferredRebuilds == old(deferredRebuilds) - 1
      ensures old(destroyed || unsupported || !menuPresent || !hasProxy || menuOpen) ==>
                destroyed == old(destroyed) && unsupported == old(unsupported) && hasProxy == old(hasProxy) &&
                rebuildPending == old(rebuildPending) && menuPresent == old(menuPresent) &&
                menuOpen == old(menuOpen) && items == old(items) && calls == old(calls)
      ensures !old(destroyed || unsupported || !menuPresent || !hasProxy || menuOpen) ==>
                calls == old(calls) + [LayoutRequest]
      ensures !old(destroyed || unsupported || !menuPresent || !hasProxy || menuOpen) && reply.LayoutOk? ==>
                !destroyed && !unsupported && hasProxy && menuPresent && !menuOpen &&
                rebuildPending == old(rebuildPending) && items == LayoutItems(reply.layout)
      ensures !old(destroyed || unsupported || !menuPresent || !hasProxy || menuOpen) && reply.LayoutFailed? ==>
                destroyed && !menuPresent && !hasProxy && !rebuildPending &&
                (unsupported <==> ClassifyFailure(reply.message) == NotSupported)
    {
      deferredRebuilds := deferredRebuilds - 1;
      if destroyed || unsupported {
        return;
      }
      Rebuild(reply);
    }

    /** The user dismisses the popup menu. */
    method CloseMenu()
      requires Valid()
      modifies this`menuOpen
      ensures Valid() && !menuOpen
    {
      menuOpen := false;
    }

    /** An action entry is activated: the click goes to the remote menu
        with the entry's own id. Without a proxy, or without an id to send,
        the call throws and the failure is swallowed. */
    method ActivateItem(id: Option<int>)
      requires Valid()
      modifies this`calls
      ensures Valid()
      ensures calls == old(calls) + (if hasProxy && id.Some? then [ClickEvent(id.value)] else [])
    {
      if !hasProxy || id.None? {
        return;
      }
      calls := calls + [ClickEvent(id.value)];
    }
  }
}
