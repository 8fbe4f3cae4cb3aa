/** The org.kde.StatusNotifierWatcher service (watcher.js): a registry of
    items keyed by `busName::objPath`, kept in insertion order like a
    JavaScript Map, whose buttons are handed to the popup grid. The item
    buttons appear here as handles; what the watcher does to them
    (construct and start, destroy) and what it emits on the bus are
    recorded in `events`. */
module Watcher {
  import opened Utils
  import opened Seqs
  import opened Host

  const ValueErrorName: string := "org.gnome.gjs.JSError.ValueError"
  const InvalidRegistration: string := "Invalid registration"
  /** The constant properties of the interface. */
  const IsStatusNotifierHostRegistered: bool := true
  const ProtocolVersion: int := 0

  /** One registered item: its address and object path, the unique name of
      the connection that registered it, and its button. */
  datatype Entry = Entry(busName: string, senderUnique: string, objPath: string, button: Handle)

  datatype Target = Target(busName: string, objPath: string)

  /** A method reply: success, or a D-Bus error name and message. */
  datatype Reply = ReplyOk | ReplyError(name: string, message: string)

  datatype WatcherEvent =
    | ButtonStarted(button: Handle, busName: string, objPath: string)  // constructed, `init()` started
    | ItemRegistered(busName: string)                                  // StatusNotifierItemRegistered
    | ItemsChanged(items: seq<string>)                                 // RegisteredStatusNotifierItems changed
    | ButtonDestroyed(button: Handle)

  predicate StartsWithSlash(s: string)
  {
    |s| > 0 && s[0] == '/'
  }

  /** The address and object path a registration names: an object path
      registers the caller's own connection at that path, anything else is
      an address whose item lives at the default path. */
  function DeriveTarget(service: string, sender: string, defaultPath: string): (t: Target)
    ensures StartsWithSlash(service) ==> t.busName == sender && t.objPath == service
    ensures !StartsWithSlash(service) ==> t.busName == service && t.objPath == defaultPath
    ensures StartsWithSlash(defaultPath) ==> StartsWithSlash(t.objPath)
  {
    if StartsWithSlash(service) then Target(sender, service) else Target(service, defaultPath)
  }

  predicate Accepted(t: Target)
  {
    t.busName != "" && t.objPath != ""
  }

  /** With a non-empty default path a registration is refused exactly when
      the service string is empty, or is an object path sent from a
      connection without a name. */
  lemma RejectedExactly(service: string, sender: string, defaultPath: string)
    requires defaultPath != ""
    ensures !Accepted(DeriveTarget(service, sender, defaultPath)) <==>
            service == "" || (StartsWithSlash(service) && sender == "")
  {
  }

  function RegistrationKey(busName: string, objPath: string): string
  {
    busName + "::" + objPath
  }

  function KeyOf(e: Entry): string
  {
    RegistrationKey(e.busName, e.objPath)
  }

  function Keys(items: seq<Entry>): (ks: seq<string>)
    ensures |ks| == |items|
  {
    seq(|items|, i requires 0 <= i < |items| => KeyOf(items[i]))
  }

  function Buttons(items: seq<Entry>): (bs: seq<Handle>)
    ensures |bs| == |items|
  {
    seq(|items|, i requires 0 <= i < |items| => items[i].button)
  }

  /** `RegisteredStatusNotifierItems`: for every entry in insertion order,
      its address immediately followed by its object path. */
  function RegisteredItems(items: seq<Entry>): (r: seq<string>)
    ensures |r| == |items|
    ensures forall i :: 0 <= i < |items| ==> r[i] == items[i].busName + items[i].objPath
  {
    seq(|items|, i requires 0 <= i < |items| => items[i].busName + items[i].objPath)
  }

  /** An entry belongs to a connection that went away when either its
      address or the unique name of its registrant is that connection. */
  predicate Matches(e: Entry, name: string)
  {
    e.busName == name || e.senderUnique == name
  }

  /** The entries that survive the disappearance of `name`, in order. */
  function Kept(s: seq<Entry>, name: string): (r: seq<Entry>)
    ensures |r| <= |s|
  {
    if s == [] then []
    else (if Matches(s[0], name) then [] else [s[0]]) + Kept(s[1..], name)
  }

  /** The survivors are exactly the entries that do not belong to `name`. */
  lemma {:induction false} KeptMembers(s: seq<Entry>, name: string)
    ensures forall e :: e in Kept(s, name) <==> e in s && !Matches(e, name)
    decreases |s|
  {
    if s != [] {
      KeptMembers(s[1..], name);
      assert s == [s[0]] + s[1..];
    }
  }

  /** Filtering one more entry extends the survivors by at most that entry. */
  lemma {:induction false} KeptSnoc(s: seq<Entry>, e: Entry, name: string)
    ensures Kept(s + [e], name) == Kept(s, name) + (if Matches(e, name) then [] else [e])
    decreases |s|
  {
    if s == [] {
      assert [e][1..] == [];
    } else {
      assert (s + [e])[1..] == s[1..] + [e];
      KeptSnoc(s[1..], e, name);
    }
  }

  /** What walking `rest` emits when `kept` are the earlier survivors:
      for every matching entry its button is destroyed and the list of
      items then still registered is announced. */
  function SweepEvents(kept: seq<Entry>, rest: seq<Entry>, name: string): seq<WatcherEvent>
    decreases |rest|
  {
    if rest == [] then []
    else if Matches(rest[0], name) then
      [ButtonDestroyed(rest[0].button), ItemsChanged(RegisteredItems(kept + rest[1..]))]
        + SweepEvents(kept, rest[1..], name)
    else SweepEvents(kept + [rest[0]], rest[1..], name)
  }

  /** A sweep emits two events, one of them an items-changed, per entry
      it removes. */
  lemma {:induction false} SweepEventsCount(kept: seq<Entry>, rest: seq<Entry>, name: string)
    ensures |SweepEvents(kept, rest, name)| == 2 * (|rest| - |Kept(rest, name)|)
    decreases |rest|
  {
    if rest != [] {
      if Matches(rest[0], name) {
        SweepEventsCount(kept, rest[1..], name);
      } else {
        SweepEventsCount(kept + [rest[0]], rest[1..], name);
      }
    }
  }

  /** One step of the sweep: visiting entry `j` either removes it, with
      its two events, or lets it join the survivors; either way the events
      still to come shrink by exactly what was emitted. */
  lemma SweepAdvance(before: seq<WatcherEvent>, after: seq<WatcherEvent>, s: seq<Entry>, j: int, name: string)
    requires 0 <= j < |s|
    requires Matches(s[j], name) ==>
               after == before + [ButtonDestroyed(s[j].button), ItemsChanged(RegisteredItems(Kept(s[..j], name) + s[j + 1..]))]
    requires !Matches(s[j], name) ==> after == before
    ensures after + SweepEvents(Kept(s[..j + 1], name), s[j + 1..], name)
            == before + SweepEvents(Kept(s[..j], name), s[j..], name)
  {
    var kept := Kept(s[..j], name);
    assert s[j..][0] == s[j] && s[j..][1..] == s[j + 1..];
    assert s[..j + 1] == s[..j] + [s[j]];
    KeptSnoc(s[..j], s[j], name);
    if Matches(s[j], name) {
      var step := [ButtonDestroyed(s[j].button), ItemsChanged(RegisteredItems(kept + s[j + 1..]))];
      assert Kept(s[..j + 1], name) == kept + [] == kept;
      assert SweepEvents(kept, s[j..], name) == step + SweepEvents(kept, s[j + 1..], name);
      assert (before + step) + SweepEvents(kept, s[j + 1..], name) == before + (step + SweepEvents(kept, s[j + 1..], name));
    } else {
      assert SweepEvents(kept, s[j..], name) == SweepEvents(kept + [s[j]], s[j + 1..], name);
    }
  }

  /** Visiting entry `j` of the sweep: the survivors so far followed by
      the entries not yet visited, before and after the visit. */
  lemma KeptAdvance(s: seq<Entry>, j: int, name: string)
    requires 0 <= j < |s|
    ensures Matches(s[j], name) ==> Kept(s[..j + 1], name) + s[j + 1..] == Kept(s[..j], name) + s[j + 1..]
    ensures !Matches(s[j], name) ==> Kept(s[..j + 1], name) + s[j + 1..] == Kept(s[..j], name) + s[j..]
  {
    assert s[..j + 1] == s[..j] + [s[j]];
    KeptSnoc(s[..j], s[j], name);
    assert s[j..] == [s[j]] + s[j + 1..];
  }

  /** The events `destroy` produces: every button destroyed, in order. */
  function DestroyedAll(s: seq<Entry>): (r: seq<WatcherEvent>)
    ensures |r| == |s|
  {
    seq(|s|, i requires 0 <= i < |s| => ButtonDestroyed(s[i].button))
  }

  /** The first (and only) entry with the key of entry `p`. */
  lemma KeyPosition(items: seq<Entry>, p: int)
    requires NoDup(Keys(items)) && 0 <= p < |items|
    ensures IndexOf(Keys(items), KeyOf(items[p])) == p
  {
    IndexOfNoDup(Keys(items), p);
  }

  /** Removing entry `p` removes its key and its button at the same place. */
  lemma RemoveAtProjections(items: seq<Entry>, p: int)
    requires 0 <= p < |items|
    ensures Keys(items[..p] + items[p + 1..]) == Keys(items)[..p] + Keys(items)[p + 1..]
    ensures Buttons(items[..p] + items[p + 1..]) == Buttons(items)[..p] + Buttons(items)[p + 1..]
  {
  }

  class StatusNotifierWatcherMinimal {
    /** The popup grid the buttons are shown in. */
    const host: PopupGridHost
    /** DEFAULT_ITEM_OBJECT_PATH */
    const defaultItemPath: string
    /** `_items`, in insertion order. */
    var items: seq<Entry>
    /** The handle the next button gets. */
    var nextHandle: nat
    var events: seq<WatcherEvent>
    /** The object is exported, the well-known name requested (a held
        ownership request, whether or not the name was acquired), and the
        NameOwnerChanged subscription active. */
    var exported: bool
    var nameRequested: bool
    var subscribed: bool

    /** Keys are unique, every entry names an address and a path, and the
        popup shows exactly the registered items' buttons in registration
        order. */
    ghost predicate Valid()
      reads this, host
    {
      host.Valid() &&
      NoDup(Keys(items)) &&
      host.buttons == Buttons(items) &&
      (forall i :: 0 <= i < |items| ==> items[i].button < nextHandle) &&
      (forall i :: 0 <= i < |items| ==> items[i].busName != "" && items[i].objPath != "")
    }

    constructor (hostButton: PopupGridHost, defaultPath: string)
      requires hostButton.Valid() && hostButton.buttons == []
      ensures Valid()
      ensures host == hostButton && defaultItemPath == defaultPath
      ensures items == [] && events == [] && nextHandle == 0 && exported && nameRequested && subscribed
    {
      host := hostButton;
      defaultItemPath := defaultPath;
      items := [];
      nextHandle := 0;
      events := [];
      exported, nameRequested, subscribed := true, true, true;
    }

    /** `_removeItemByKey`: an unknown key changes nothing. Otherwise the
        button leaves the popup and is destroyed, the entry is deleted and
        the new item list is announced. */
    method RemoveItemByKey(key: string)
      requires Valid()
      modifies this, host
      ensures Valid()
      ensures key !in Keys(items)
      ensures key !in Keys(old(items)) ==> items == old(items) && events == old(events)
      ensures key in Keys(old(items)) ==>
                var i := IndexOf(Keys(old(items)), key);
                items == old(items)[..i] + old(items)[i + 1..] &&
                events == old(events) + [ButtonDestroyed(old(items)[i].button), ItemsChanged(RegisteredItems(items))]
      ensures nextHandle == old(nextHandle)
      ensures exported == old(exported) && nameRequested == old(nameRequested) && subscribed == old(subscribed)
    {
      var i := IndexOf(Keys(items), key);
      if i == -1 {
        return;
      }
      var entry := items[i];
      IndexOfNoDup(Buttons(items), i);
      RemoveAtProjections(items, i);
      NoDupRemoveAt(Keys(items), i);
      host.RemoveButton(Some(entry.button));
      events := events + [ButtonDestroyed(entry.button)];
      items := items[..i] + items[i + 1..];
      events := events + [ItemsChanged(RegisteredItems(items))];
    }

    /** NameOwnerChanged: when a connection loses its name (empty new
        owner), every entry it registered or that lives at that address is
        removed, in registration order, one removal at a time. */
    method OnNameOwnerChanged(name: string, newOwner: string)
      requires Valid()
      modifies this, host
      ensures Valid()
      ensures newOwner != "" ==> items == old(items) && events == old(events) && host.buttons == old(host.buttons)
      ensures newOwner == "" ==>
                items == Kept(old(items), name) &&
                events == old(events) + SweepEvents([], old(items), name)
      ensures forall e :: e in items <==> e in old(items) && !(newOwner == "" && Matches(e, name))
      ensures nextHandle == old(nextHandle)
      ensures exported == old(exported) && nameRequested == old(nameRequested) && subscribed == old(subscribed)
    {
      if newOwner != "" {
        return;
      }
      var snapshot := items;
      for j := 0 to |snapshot|
        invariant Valid()
        invariant items == Kept(snapshot[..j], name) + snapshot[j..]
        invariant events + SweepEvents(Kept(snapshot[..j], name), snapshot[j..], name)
                  == old(events) + SweepEvents([], snapshot, name)
        invariant nextHandle == old(nextHandle)
        invariant exported == old(exported) && nameRequested == old(nameRequested) && subscribed == old(subscribed)
      {
        VisitEntry(snapshot, j, name);
      }
      assert snapshot[..|snapshot|] == snapshot;
      KeptMembers(snapshot, name);
    }

    /** One iteration of the NameOwnerChanged loop over the entries as they
        were when the signal arrived: entry `j` is removed when it belongs
        to `name`; the entries before it have already been visited. */
    method VisitEntry(snapshot: seq<Entry>, j: int, name: string)
      requires Valid() && 0 <= j < |snapshot|
      requires items == Kept(snapshot[..j], name) + snapshot[j..]
      modifies this, host
      ensures Valid()
      ensures items == Kept(snapshot[..j + 1], name) + snapshot[j + 1..]
      ensures events + SweepEvents(Kept(snapshot[..j + 1], name), snapshot[j + 1..], name)
              == old(events) + SweepEvents(Kept(snapshot[..j], name), snapshot[j..], name)
      ensures nextHandle == old(nextHandle)
      ensures exported == old(exported) && nameRequested == old(nameRequested) && subscribed == old(subscribed)
    {
      var entry := snapshot[j];
      ghost var before := events;
      KeptAdvance(snapshot, j, name);
      if Matches(entry, name) {
        var p := |Kept(snapshot[..j], name)|;
        assert items[p] == entry;
        assert items[..p] + items[p + 1..] == Kept(snapshot[..j], name) + snapshot[j + 1..];
        KeyPosition(items, p);
        RemoveItemByKey(KeyOf(entry));
      }
      SweepAdvance(before, events, snapshot, j, name);
    }

    /** RegisterStatusNotifierItem: a registration without an address or a
        path is refused; one whose key is already present is acknowledged
        and changes nothing; a new one is recorded with its registrant,
        gets a button shown in the popup, and is announced before the
        reply. */
    method RegisterStatusNotifierItem(service: string, sender: string) returns (reply: Reply)
      requires Valid()
      modifies this, host
      ensures Valid()
      ensures var t := DeriveTarget(service, sender, defaultItemPath);
              !Accepted(t) ==>
                reply == ReplyError(ValueErrorName, InvalidRegistration) &&
                items == old(items) && events == old(events) && nextHandle == old(nextHandle)
      ensures var t := DeriveTarget(service, sender, defaultItemPath);
              Accepted(t) && RegistrationKey(t.busName, t.objPath) in Keys(old(items)) ==>
                reply == ReplyOk && items == old(items) && events == old(events) && nextHandle == old(nextHandle)
      ensures var t := DeriveTarget(service, sender, defaultItemPath);
              Accepted(t) && RegistrationKey(t.busName, t.objPath) !in Keys(old(items)) ==>
                var h := old(nextHandle);
                reply == ReplyOk &&
                items == old(items) + [Entry(t.busName, sender, t.objPath, h)] &&
                host.buttons == old(host.buttons) + [h] &&
                nextHandle == h + 1 &&
                events == old(events) + [ButtonStarted(h, t.busName, t.objPath), ItemRegistered(t.busName),
                                         ItemsChanged(RegisteredItems(items))]
      ensures !Accepted(DeriveTarget(service, sender, defaultItemPath)) || reply == ReplyOk
      ensures exported == old(exported) && nameRequested == old(nameRequested) && subscribed == old(subscribed)
    {
      var t := DeriveTarget(service, sender, defaultItemPath);
      if !Accepted(t) {
        return ReplyError(ValueErrorName, InvalidRegistration);
      }
      var key := RegistrationKey(t.busName, t.objPath);
      if key in Keys(items) {
        return ReplyOk;
      }
      var h := nextHandle;
      var entry := Entry(t.busName, sender, t.objPath, h);
      assert Keys(items + [entry]) == Keys(items) + [key];
      assert Buttons(items + [entry]) == Buttons(items) + [h];
      assert h !in host.buttons;
      items := items + [entry];
      nextHandle := nextHandle + 1;
      host.AddButton(Some(h));
      events := events + [ButtonStarted(h, t.busName, t.objPath), ItemRegistered(t.busName),
                          ItemsChanged(RegisteredItems(items))];
      return ReplyOk;
    }

    /** RegisterStatusNotifierHost only acknowledges. */
    method RegisterStatusNotifierHost() returns (reply: Reply)
      ensures reply == ReplyOk
    {
      return ReplyOk;
    }

    /** StatusNotifierItemUnregistered only acknowledges. */
    method StatusNotifierItemUnregistered() returns (reply: Reply)
      ensures reply == ReplyOk
    {
      return ReplyOk;
    }

    /** `destroy`: stops serving, destroys every item's button in
        registration order and empties the registry. The popup grid is left
        as it is. */
    method Destroy()
      modifies this
      ensures items == [] && !exported && !nameRequested && !subscribed
      ensures events == old(events) + DestroyedAll(old(items))
      ensures nextHandle == old(nextHandle)
    {
      exported := false;
      nameRequested := false;
      subscribed := false;
      var destroyedNow: seq<WatcherEvent> := [];
      for i := 0 to |items|
        invariant destroyedNow == DestroyedAll(items[..i])
      {
        assert DestroyedAll(items[..i + 1]) == DestroyedAll(items[..i]) + [ButtonDestroyed(items[i].button)];
        destroyedNow := destroyedNow + [ButtonDestroyed(items[i].button)];
      }
      assert items[..|items|] == items;
      events := events + destroyedNow;
      items := [];
    }
  }

  /** An item at `/org/ExampleItem` registered by the connection `:1.42`
      is listed under that connection's name. */
  method ExampleRegistration() returns (reply: Reply, listed: seq<string>)
    ensures reply == ReplyOk && listed == [":1.42/org/ExampleItem"]
  {
    var host := new PopupGridHost(32);
    var w := new StatusNotifierWatcherMinimal(host, "/StatusNotifierItem");
    assert DeriveTarget("/org/ExampleItem", ":1.42", "/StatusNotifierItem") == Target(":1.42", "/org/ExampleItem");
    assert Keys([]) == [];
    reply := w.RegisterStatusNotifierItem("/org/ExampleItem", ":1.42");
    assert w.items == [Entry(":1.42", ":1.42", "/org/ExampleItem", 0)];
    listed := RegisteredItems(w.items);
    assert listed == [":1.42/org/ExampleItem"] by {
      ExampleListing();
    }
  }

  lemma ExampleListing()
    ensures RegisteredItems([Entry(":1.42", ":1.42", "/org/ExampleItem", 0)]) == [":1.42/org/ExampleItem"]
  {
    assert ":1.42" + "/org/ExampleItem" == ":1.42/org/ExampleItem";
  }

  /** When the connection `:1.42` leaves the bus, the item it registered
      is removed and the popup is empty again. */
  method ExampleExit() returns (afterExit: seq<string>, shown: seq<Handle>)
    ensures afterExit == [] && shown == []
  {
    var host := new PopupGridHost(32);
    var w := new StatusNotifierWatcherMinimal(host, "/StatusNotifierItem");
    assert Keys([]) == [];
    var first := w.RegisterStatusNotifierItem("/org/ExampleItem", ":1.42");
    assert w.items == [Entry(":1.42", ":1.42", "/org/ExampleItem", 0)];
    w.OnNameOwnerChanged(":1.42", "");
    assert Kept([Entry(":1.42", ":1.42", "/org/ExampleItem", 0)], ":1.42") == [];
    afterExit := RegisteredItems(w.items);
    shown := host.buttons;
  }
}
