/**
 * `MTabsMainWindow`: the favorites tree and the menu built from it, the tab
 * list, the window title, and the store on disk.
 */
module Window {
  import opened Wrappers
  import opened Dicts
  import opened Favorites
  import Strings
  import Rdp
  import Store
  import Dialog

  const StartTitle := "mTabs (Qt) - Gerenciador de Conexões RDP"

  /** A page of the tab widget: the welcome label, or an RDP session under the remote computer's name. */
  datatype Tab = Welcome | Remote(title: string, config: Rdp.Config)

  /**
   * `_get_computer_name_from_host`: `lookup` is the name
   * `socket.gethostbyaddr(host)` answers, `None` when it raises.
   */
  function ComputerName(host: string, lookup: Option<string>): (name: string)
    ensures lookup.None? ==> name == host
  {
    lookup.GetOr(host)
  }

  /** The tab list without its `i`th page; out-of-range indices remove nothing, as `removeTab` does. */
  function RemoveAt(tabs: seq<Tab>, i: int): (r: seq<Tab>)
    ensures 0 <= i < |tabs| ==>
      && |r| == |tabs| - 1
      && (forall j :: 0 <= j < i ==> r[j] == tabs[j])
      && (forall j :: i <= j < |r| ==> r[j] == tabs[j + 1])
    ensures !(0 <= i < |tabs|) ==> r == tabs
  {
    if 0 <= i < |tabs| then tabs[..i] + tabs[i + 1..] else tabs
  }

  /** `_show_welcome`: the welcome page is added only to an empty tab list. */
  function WithWelcome(tabs: seq<Tab>): (r: seq<Tab>)
    ensures |r| > 0
    ensures tabs != [] ==> r == tabs
  {
    if tabs == [] then [Welcome] else tabs
  }

  // ---------------------------------------------------------------- add_favorite's walk

  /** A dict `add_favorite` descended from, and the key it descended through. */
  datatype Frame = Frame(items: seq<Item>, key: string)

  /** The tree rebuilt around `inner` from the innermost frame outwards. */
  function Plug(trail: seq<Frame>, inner: seq<Item>): seq<Item>
    decreases |trail|
  {
    if trail == [] then inner
    else
      var f := trail[|trail| - 1];
      Plug(trail[..|trail| - 1], Set(f.items, f.key, Dict(inner)))
  }

  function Wrap(trail: seq<Frame>, r: Result<seq<Item>, Failure>): Result<seq<Item>, Failure> {
    match r
    case Ok(inner) => Ok(Plug(trail, inner))
    case Err(e) => Err(e)
  }

  lemma WrapSnoc(trail: seq<Frame>, f: Frame, r: Result<seq<Item>, Failure>)
    ensures Wrap(trail, Wrap([f], r)) == Wrap(trail + [f], r)
  {
    if r.Ok? {
      assert (trail + [f])[..|trail|] == trail;
      assert [f][..0] == [];
      assert Plug([f], r.value) == Set(f.items, f.key, Dict(r.value));
    }
  }

  /** One step of `add_favorite`'s walk: create the folder if missing, then descend or fail. */
  lemma InsertStep(d: seq<Item>, parts: seq<string>, name: string, data: Value)
    requires parts != []
    ensures var here := if Has(d, parts[0]) then d else Set(d, parts[0], Dict([]));
      Insert(d, parts, name, data)
      == if Lookup(here, parts[0]).Dict?
         then Wrap([Frame(here, parts[0])], Insert(Lookup(here, parts[0]).items, parts[1..], name, data))
         else Err(NotADict)
  {
    var here := if Has(d, parts[0]) then d else Set(d, parts[0], Dict([]));
    var x := Lookup(here, parts[0]);
    if x.Dict? {
      var f := Frame(here, parts[0]);
      assert [f][..0] == [];
      match Insert(x.items, parts[1..], name, data)
      case Ok(sub) =>
        assert Plug([f], sub) == Set(here, parts[0], Dict(sub));
      case Err(e) =>
    }
  }

  /** One turn of `add_favorite`'s loop keeps the tree it will produce unchanged. */
  lemma DescendStep(root: seq<Item>, parts: seq<string>, name: string, data: Value,
                    trail: seq<Frame>, d: seq<Item>, i: nat, here: seq<Item>, next: Value)
    requires i < |parts|
    requires Insert(root, parts, name, data) == Wrap(trail, Insert(d, parts[i..], name, data))
    requires here == if Has(d, parts[i]) then d else Set(d, parts[i], Dict([]))
    requires Has(here, parts[i]) && next == Lookup(here, parts[i])
    ensures !next.Dict? ==> Insert(root, parts, name, data).Err?
    ensures next.Dict? ==>
      Insert(root, parts, name, data)
      == Wrap(trail + [Frame(here, parts[i])], Insert(next.items, parts[i + 1..], name, data))
  {
    InsertStep(d, parts[i..], name, data);
    assert parts[i..][0] == parts[i] && parts[i..][1..] == parts[i + 1..];
    if next.Dict? {
      WrapSnoc(trail, Frame(here, parts[i]), Insert(next.items, parts[i + 1..], name, data));
    }
  }

  lemma DescendDone(root: seq<Item>, parts: seq<string>, name: string, data: Value, trail: seq<Frame>, d: seq<Item>)
    requires Insert(root, parts, name, data) == Wrap(trail, Insert(d, parts[|parts|..], name, data))
    ensures Insert(root, parts, name, data) == Ok(Plug(trail, Set(d, name, data)))
  {
    assert parts[|parts|..] == [];
  }

  /** `if part not in d: d[part] = {}` followed by `d[part]`. */
  method Enter(d: seq<Item>, p: string) returns (here: seq<Item>, next: Value)
    ensures here == if Has(d, p) then d else Set(d, p, Dict([]))
    ensures Has(here, p) && next == Lookup(here, p)
  {
    here := d;
    if !Has(here, p) {
      here := Set(here, p, Dict([]));
    }
    next := Lookup(here, p);
  }

  /**
   * The loop of `add_favorite` over the folder segments: creates each
   * missing folder and descends, recording where it came from. `ok` is false
   * where Python raises `TypeError`; otherwise setting `name` in `d` and
   * rebuilding along `trail` gives the tree `Insert` describes.
   */
  method Descend(root: seq<Item>, parts: seq<string>, name: string, data: Value)
    returns (d: seq<Item>, trail: seq<Frame>, ok: bool)
    ensures ok <==> Insert(root, parts, name, data).Ok?
    ensures ok ==> Insert(root, parts, name, data) == Ok(Plug(trail, Set(d, name, data)))
  {
    d := root;
    trail := [];
    var i := 0;
    assert parts[0..] == parts;
    while i < |parts|
      invariant 0 <= i <= |parts|
      invariant Insert(root, parts, name, data) == Wrap(trail, Insert(d, parts[i..], name, data))
    {
      var here, next := Enter(d, parts[i]);
      DescendStep(root, parts, name, data, trail, d, i, here, next);
      if !next.Dict? {
        return here, trail, false;
      }
      trail := trail + [Frame(here, parts[i])];
      d := next.items;
      i := i + 1;
    }
    DescendDone(root, parts, name, data, trail, d);
    return d, trail, true;
  }

  /** Puts the changed innermost dict back into each dict above it, innermost first. */
  method Rebuild(trail: seq<Frame>, inner: seq<Item>) returns (tree: seq<Item>)
    ensures tree == Plug(trail, inner)
  {
    var rest := trail;
    tree := inner;
    while rest != []
      invariant Plug(rest, tree) == Plug(trail, inner)
      decreases |rest|
    {
      var f := rest[|rest| - 1];
      tree := Set(f.items, f.key, Dict(tree));
      rest := rest[..|rest| - 1];
    }
  }

  /** Why `add_favorite` did not complete. */
  datatype AddError = TypeError | SaveFailed(error: Store.StoreError)

  /**
   * The outcome of adding the favorite the dialog recorded, if any, to the
   * tree `before` with the files `filesBefore`: nothing without a request;
   * nothing but the error on `TypeError`; otherwise the new tree, saved
   * unless the save fails.
   */
  ghost predicate FavoriteAdded(request: Option<Dialog.FavRequest>, before: seq<Item>, filesBefore: Store.Files,
                                after: seq<Item>, filesAfter: Store.Files, error: Option<AddError>)
  {
    match request
    case None => after == before && filesAfter == filesBefore && error.None?
    case Some(fav) =>
      match Insert(before, Strings.Segments(fav.folder), fav.name, fav.data)
      case Err(_) => error == Some(TypeError) && after == before && filesAfter == filesBefore
      case Ok(tree) =>
        && after == tree
        && match Store.SaveFiles(filesBefore, tree)
           case Ok(files) => error.None? && filesAfter == files
           case Err(e) => error == Some(SaveFailed(e)) && filesAfter == filesBefore
  }

  class MainWindow {
    var favorites: seq<Item>
    var menu: seq<MenuEntry>
    var tabs: seq<Tab>
    var title: string
    const disk: Store.Disk

    /** The menu shows the current tree and the tab widget is never empty. */
    predicate Valid()
      reads this
    {
      |tabs| > 0 && menu == Menu(favorites)
    }

    /** `__init__` once the key is provisioned and the favorites are loaded: the welcome page only. */
    constructor (disk: Store.Disk, favorites: seq<Item>)
      ensures Valid()
      ensures this.disk == disk && this.favorites == favorites
      ensures tabs == [Welcome] && title == StartTitle
    {
      this.disk := disk;
      this.favorites := favorites;
      menu := Menu(favorites);
      tabs := [];
      title := StartTitle;
      new;
      ShowWelcome();
    }

    /** `_show_welcome`. */
    method ShowWelcome()
      modifies this
      ensures tabs == WithWelcome(old(tabs))
      ensures favorites == old(favorites) && menu == old(menu) && title == old(title)
    {
      if |tabs| == 0 {
        tabs := tabs + [Welcome];
      }
    }

    /** `close_tab`: removes the page, then puts the welcome page back if none is left. */
    method CloseTab(index: int)
      requires Valid()
      modifies this
      ensures Valid()
      ensures tabs == WithWelcome(RemoveAt(old(tabs), index))
      ensures favorites == old(favorites) && menu == old(menu) && title == old(title)
    {
      tabs := RemoveAt(tabs, index);
      if |tabs| == 0 {
        ShowWelcome();
      }
    }

    /** `_add_tab`: a new session page named after the remote computer, also shown in the window title. */
    method AddTab(c: Rdp.Config, lookup: Option<string>)
      requires Valid()
      modifies this
      ensures Valid()
      ensures tabs == old(tabs) + [Remote(ComputerName(c.host, lookup), c)]
      ensures title == ComputerName(c.host, lookup) + " - mTabs"
      ensures favorites == old(favorites) && menu == old(menu)
    {
      var name := ComputerName(c.host, lookup);
      tabs := tabs + [Remote(name, c)];
      title := name + " - mTabs";
    }

    /**
     * A menu action: `_open_favorite_connection`. A value that does not
     * hold `host`, `username` and `password` raises and opens nothing.
     */
    method OpenFavorite(payload: Value, lookup: Option<string>) returns (tabAdded: bool)
      requires Valid()
      modifies this
      ensures Valid()
      ensures tabAdded <==> OpenConfig(payload).Some?
      ensures tabAdded ==> var c := OpenConfig(payload).value;
        && tabs == old(tabs) + [Remote(ComputerName(c.host, lookup), c)]
        && title == ComputerName(c.host, lookup) + " - mTabs"
      ensures !tabAdded ==> tabs == old(tabs) && title == old(title)
      ensures favorites == old(favorites) && menu == old(menu)
    {
      var c := OpenConfig(payload);
      if c.None? {
        return false;
      }
      AddTab(c.value, lookup);
      return true;
    }

    /**
     * `add_favorite`: walks the non-empty `/`-segments of `folderPath`
     * creating missing folders, sets `name`, rebuilds the menu and saves.
     * A `TypeError` happens before anything changes; a failed save leaves
     * the tree and menu updated but the file as it was.
     */
    method AddFavorite(name: string, folderPath: string, data: Value) returns (r: Result<(), AddError>)
      requires Valid()
      modifies this, disk
      ensures Valid()
      ensures tabs == old(tabs) && title == old(title)
      ensures Insert(old(favorites), Strings.Segments(folderPath), name, data).Err? ==>
        r == Err(TypeError) && favorites == old(favorites) && disk.files == old(disk.files)
      ensures Insert(old(favorites), Strings.Segments(folderPath), name, data).Ok? ==>
        && favorites == Insert(old(favorites), Strings.Segments(folderPath), name, data).value
        && (match Store.SaveFiles(old(disk.files), favorites)
            case Ok(files) => r == Ok(()) && disk.files == files
            case Err(e) => r == Err(SaveFailed(e)) && disk.files == old(disk.files))
    {
      var parts := Strings.Segments(folderPath);
      var d, trail, ok := Descend(favorites, parts, name, data);
      if !ok {
        return Err(TypeError);
      }
      d := Rebuild(trail, Set(d, name, data));
      favorites := d;
      menu := Menu(favorites);
      var saved := disk.Save(favorites);
      if saved.Err? {
        return Err(SaveFailed(saved.error));
      }
      return Ok(());
    }

    /** The favorite part of `add_connection`: adds the favorite the dialog recorded, if any. */
    method AddRequested(request: Option<Dialog.FavRequest>) returns (error: Option<AddError>)
      requires Valid()
      modifies this, disk
      ensures Valid()
      ensures tabs == old(tabs) && title == old(title)
      ensures FavoriteAdded(request, old(favorites), old(disk.files), favorites, disk.files, error)
    {
      error := None;
      if request.Some? {
        var fav := request.value;
        var added := AddFavorite(fav.name, fav.folder, fav.data);
        if added.Err? {
          error := Some(added.error);
        }
      }
    }

    /**
     * `add_connection`, given how the dialog ended: nothing happens unless
     * it was accepted with a host and a user name; then a tab opens and, if
     * the dialog recorded a favorite, the favorite is added.
     */
    method AddConnection(outcome: Dialog.State, lookup: Option<string>) returns (tabAdded: bool, error: Option<AddError>)
      requires Valid()
      modifies this, disk
      ensures Valid()
      ensures var c := Dialog.GetData(outcome.form);
        tabAdded <==> outcome.code == Some(Dialog.Accepted) && c.host != "" && c.username != ""
      ensures tabAdded ==> var c := Dialog.GetData(outcome.form);
        && tabs == old(tabs) + [Remote(ComputerName(c.host, lookup), c)]
        && title == ComputerName(c.host, lookup) + " - mTabs"
        && FavoriteAdded(outcome.favorite, old(favorites), old(disk.files), favorites, disk.files, error)
      ensures !tabAdded ==>
        && tabs == old(tabs) && title == old(title)
        && favorites == old(favorites) && disk.files == old(disk.files) && error.None?
    {
      if outcome.code != Some(Dialog.Accepted) {
        return false, None;
      }
      var c := Dialog.GetData(outcome.form);
      if c.host == "" || c.username == "" {
        return false, None;
      }
      assert disk as object != this as object;
      AddTab(c, lookup);
      assert disk.files == old(disk.files);
      error := AddRequested(outcome.favorite);
      tabAdded := true;
    }

    /**
     * `add_connection` as the "Favoritar" button describes itself: a dialog
     * closed by "Favoritar" saves the recorded favorite, without opening a
     * session; any other outcome is handled as before.
     */
    method AddConnectionSavingFavorite(outcome: Dialog.State, lookup: Option<string>)
      returns (tabAdded: bool, error: Option<AddError>)
      requires Valid()
      modifies this, disk
      ensures Valid()
      ensures var c := Dialog.GetData(outcome.form);
        tabAdded <==> outcome.code == Some(Dialog.Accepted) && c.host != "" && c.username != ""
      ensures outcome.code == Some(Dialog.Rejected) && outcome.favorite.Some? ==>
        var fav := outcome.favorite.value;
        && tabs == old(tabs) && title == old(title)
        && FavoriteAdded(outcome.favorite, old(favorites), old(disk.files), favorites, disk.files, error)
        && (Insert(old(favorites), Strings.Segments(fav.folder), fav.name, fav.data).Ok? ==>
              GetPath(Dict(favorites), Strings.Segments(fav.folder) + [fav.name]) == Some(fav.data))
      ensures tabAdded ==> var c := Dialog.GetData(outcome.form);
        && tabs == old(tabs) + [Remote(ComputerName(c.host, lookup), c)]
        && title == ComputerName(c.host, lookup) + " - mTabs"
        && FavoriteAdded(outcome.favorite, old(favorites), old(disk.files), favorites, disk.files, error)
      ensures !tabAdded && !(outcome.code == Some(Dialog.Rejected) && outcome.favorite.Some?) ==>
        && tabs == old(tabs) && title == old(title)
        && favorites == old(favorites) && disk.files == old(disk.files) && error.None?
    {
      if outcome.code == Some(Dialog.Rejected) && outcome.favorite.Some? {
        var fav := outcome.favorite.value;
        error := AddRequested(outcome.favorite);
        if Insert(old(favorites), Strings.Segments(fav.folder), fav.name, fav.data).Ok? {
          InsertPlaces(old(favorites), Strings.Segments(fav.folder), fav.name, fav.data);
        }
        return false, error;
      }
      tabAdded, error := AddConnection(outcome, lookup);
    }
  }

  /**
   * Start-up: `generate_key()` with `newKey` as the key Fernet would make,
   * then `load_favorites_encrypted()`, whose exceptions abort the start.
   */
  method Launch(disk: Store.Disk, newKey: seq<Store.Byte>) returns (r: Result<MainWindow, Store.StoreError>)
    modifies disk
    ensures disk.files == Store.WithKey(old(disk.files), newKey)
    ensures r.Ok? <==> Store.LoadFavorites(disk.files).Ok?
    ensures r.Err? ==> r.error == Store.LoadFavorites(disk.files).error
    ensures r.Ok? ==> && fresh(r.value) && r.value.Valid() && r.value.disk == disk
                      && r.value.favorites == Store.LoadFavorites(disk.files).value
                      && r.value.tabs == [Welcome] && r.value.title == StartTitle
  {
    disk.GenerateKey(newKey);
    var loaded := disk.Load();
    if loaded.Err? {
      return Err(loaded.error);
    }
    var w := new MainWindow(disk, loaded.value);
    return Ok(w);
  }
}
