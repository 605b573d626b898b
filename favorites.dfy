/**
 * The favorites tree of `MTabsMainWindow`: nested Python dicts whose leaves
 * are the connection dicts the dialog builds. A folder and a favorite are
 * told apart only by shape: a dict missing any of `host`, `username` and
 * `password` is a folder, anything else is a favorite.
 */
module Favorites {
  import opened Wrappers
  import opened Dicts
  import Rdp

  /** A dict with all three of `host`, `username` and `password`. */
  predicate IsProfileShaped(v: Value) {
    v.Dict? && Has(v.items, "host") && Has(v.items, "username") && Has(v.items, "password")
  }

  /** The menu's test for a submenu: a dict that is not profile-shaped. */
  predicate IsFolder(v: Value) {
    v.Dict? && !IsProfileShaped(v)
  }

  /** Every dict in `v` has distinct keys, as every Python dict does. */
  ghost predicate WellFormed(v: Value) {
    match v
    case Dict(items) => DistinctKeys(items) && forall i :: 0 <= i < |items| ==> WellFormed(items[i].val)
    case _ => true
  }

  /** The value reached from `v` by looking up each key of `path` in turn. */
  function GetPath(v: Value, path: seq<string>): Option<Value>
    decreases |path|
  {
    if path == [] then Some(v)
    else
      match v
      case Dict(items) => if Has(items, path[0]) then GetPath(Lookup(items, path[0]), path[1..]) else None
      case _ => None
  }

  lemma GetPathCons(items: seq<Item>, k: string, rest: seq<string>)
    ensures GetPath(Dict(items), [k] + rest)
         == if Has(items, k) then GetPath(Lookup(items, k), rest) else None
  {
    assert ([k] + rest)[1..] == rest;
  }

  // ---------------------------------------------------------------- add_favorite

  /** `TypeError`: a folder segment names a value that is not a dict. */
  datatype Failure = NotADict

  /**
   * `add_favorite` on the tree: walk the segments, creating an empty dict for
   * each one that is missing, then set `name` to `data` in the dict reached.
   */
  function Insert(items: seq<Item>, parts: seq<string>, name: string, data: Value): (r: Result<seq<Item>, Failure>)
    ensures r.Err? ==> parts != []
    decreases |parts|
  {
    if parts == [] then Ok(Set(items, name, data))
    else
      var here := if Has(items, parts[0]) then items else Set(items, parts[0], Dict([]));
      match Lookup(here, parts[0])
      case Dict(sub) =>
        (match Insert(sub, parts[1..], name, data)
         case Ok(sub') => Ok(Set(here, parts[0], Dict(sub')))
         case Err(e) => Err(e))
      case _ => Err(NotADict)
  }

  /** A successful `add_favorite` below the top: the folder was a dict, or was created, and was updated in place. */
  lemma InsertCase(items: seq<Item>, parts: seq<string>, name: string, data: Value)
    requires parts != [] && Insert(items, parts, name, data).Ok?
    ensures var here := if Has(items, parts[0]) then items else Set(items, parts[0], Dict([]));
      && Has(here, parts[0]) && Lookup(here, parts[0]).Dict?
      && Insert(Lookup(here, parts[0]).items, parts[1..], name, data).Ok?
      && Insert(items, parts, name, data).value
         == Set(here, parts[0], Dict(Insert(Lookup(here, parts[0]).items, parts[1..], name, data).value))
  {
  }

  /** After `add_favorite`, `data` is found under the folder segments followed by `name`. */
  lemma {:induction false} InsertPlaces(items: seq<Item>, parts: seq<string>, name: string, data: Value)
    requires Insert(items, parts, name, data).Ok?
    ensures GetPath(Dict(Insert(items, parts, name, data).value), parts + [name]) == Some(data)
    decreases |parts|
  {
    if parts == [] {
      assert parts + [name] == [name] + [];
      GetPathThroughSet(items, name, data, []);
    } else {
      var p, rest := parts[0], parts[1..] + [name];
      var here := if Has(items, p) then items else Set(items, p, Dict([]));
      InsertCase(items, parts, name, data);
      var sub := Lookup(here, p).items;
      var sub' := Insert(sub, parts[1..], name, data).value;
      assert GetPath(Dict(sub'), rest) == Some(data) by {
        InsertPlaces(sub, parts[1..], name, data);
      }
      assert GetPath(Dict(Set(here, p, Dict(sub'))), [p] + rest) == Some(data) by {
        GetPathThroughSet(here, p, Dict(sub'), rest);
      }
      assert parts + [name] == [p] + rest;
    }
  }

  /** What is found through a key just set is found in the value it was set to. */
  lemma GetPathThroughSet(items: seq<Item>, k: string, v: Value, rest: seq<string>)
    ensures GetPath(Dict(Set(items, k, v)), [k] + rest) == GetPath(v, rest)
  {
    GetPathCons(Set(items, k, v), k, rest);
  }

  /** Two paths that part ways somewhere: neither is a prefix of the other. */
  predicate Diverges(q: seq<string>, p: seq<string>) {
    |q| > 0 && |p| > 0 && (q[0] != p[0] || Diverges(q[1..], p[1..]))
  }

  lemma {:induction false} GetPathOfEmpty(q: seq<string>)
    requires |q| > 0
    ensures GetPath(Dict([]), q) == None
  {
    assert !Has([], q[0]);
  }

  /** Two dicts that agree on the entry for `q[0]` agree on everything beneath it. */
  lemma SameEntry(items: seq<Item>, r: seq<Item>, q: seq<string>)
    requires |q| > 0
    requires Has(r, q[0]) <==> Has(items, q[0])
    requires Has(items, q[0]) ==> Lookup(r, q[0]) == Lookup(items, q[0])
    ensures GetPath(Dict(r), q) == GetPath(Dict(items), q)
  {
    assert q == [q[0]] + q[1..];
    GetPathCons(r, q[0], q[1..]);
    GetPathCons(items, q[0], q[1..]);
  }

  /**
   * `add_favorite` changes nothing off its own path: every entry whose path
   * parts ways with `parts + [name]` is what it was, siblings and other
   * branches alike, and nothing new appears there.
   */
  lemma {:induction false} InsertFrame(items: seq<Item>, parts: seq<string>, name: string, data: Value, q: seq<string>)
    requires Insert(items, parts, name, data).Ok?
    requires Diverges(q, parts + [name])
    ensures GetPath(Dict(Insert(items, parts, name, data).value), q) == GetPath(Dict(items), q)
    decreases |parts|
  {
    if parts == [] {
      assert q[0] != name;
      SetOthers(items, name, data);
      SameEntry(items, Set(items, name, data), q);
    } else {
      var p := parts[0];
      var here := if Has(items, p) then items else Set(items, p, Dict([]));
      var sub := Lookup(here, p).items;
      InsertCase(items, parts, name, data);
      var sub' := Insert(sub, parts[1..], name, data).value;
      if q[0] != p {
        FrameAside(items, p, Dict(sub'), q);
      } else {
        assert Diverges(q[1..], parts[1..] + [name]) by {
          assert (parts + [name])[1..] == parts[1..] + [name];
        }
        InsertFrame(sub, parts[1..], name, data, q[1..]);
        FrameBelow(items, p, sub', q);
      }
    }
  }

  /** Making sure folder `p` exists and then setting it leaves paths through other keys alone. */
  lemma FrameAside(items: seq<Item>, p: string, v: Value, q: seq<string>)
    requires |q| > 0 && q[0] != p
    ensures var here := if Has(items, p) then items else Set(items, p, Dict([]));
      GetPath(Dict(Set(here, p, v)), q) == GetPath(Dict(items), q)
  {
    var here := if Has(items, p) then items else Set(items, p, Dict([]));
    SetOthers(items, p, Dict([]));
    SetOthers(here, p, v);
    SameEntry(items, Set(here, p, v), q);
  }

  /** Below folder `p`: a path into the updated folder finds what it found in the folder before. */
  lemma FrameBelow(items: seq<Item>, p: string, sub': seq<Item>, q: seq<string>)
    requires |q| > 1 && q[0] == p
    requires var here := if Has(items, p) then items else Set(items, p, Dict([]));
      && Lookup(here, p).Dict?
      && GetPath(Dict(sub'), q[1..]) == GetPath(Lookup(here, p), q[1..])
    ensures var here := if Has(items, p) then items else Set(items, p, Dict([]));
      GetPath(Dict(Set(here, p, Dict(sub'))), q) == GetPath(Dict(items), q)
  {
    var here := if Has(items, p) then items else Set(items, p, Dict([]));
    assert q == [p] + q[1..];
    GetPathCons(Set(here, p, Dict(sub')), p, q[1..]);
    GetPathCons(items, p, q[1..]);
    if !Has(items, p) {
      GetPathOfEmpty(q[1..]);
    }
  }

  /** The value at `q` exists and is not a dict. */
  predicate NonDictAt(v: Value, q: seq<string>) {
    GetPath(v, q).Some? && !GetPath(v, q).value.Dict?
  }

  /** Some segment of `parts` (counting from the top) names an existing value that is not a dict. */
  predicate Blocked(v: Value, parts: seq<string>) {
    exists j :: 1 <= j <= |parts| && NonDictAt(v, parts[..j])
  }

  lemma {:induction false} InsertIntoEmpty(parts: seq<string>, name: string, data: Value)
    ensures Insert([], parts, name, data).Ok?
    decreases |parts|
  {
    if parts != [] {
      InsertIntoEmpty(parts[1..], name, data);
    }
  }

  /**
   * `add_favorite` raises `TypeError` exactly when one of the folder
   * segments names an existing entry that is not a dict. This happens before
   * any folder is created, so a failed call changes nothing.
   */
  lemma {:induction false} InsertFails(items: seq<Item>, parts: seq<string>, name: string, data: Value)
    ensures Insert(items, parts, name, data).Err? <==> Blocked(Dict(items), parts)
    decreases |parts|
  {
    if parts != [] {
      var p := parts[0];
      var v := Dict(items);
      forall j | 1 <= j <= |parts|
        ensures GetPath(v, parts[..j]) == if Has(items, p) then GetPath(Lookup(items, p), parts[1..][..j - 1]) else None
      {
        assert parts[..j] == [p] + parts[1..][..j - 1];
        GetPathCons(items, p, parts[1..][..j - 1]);
      }
      if !Has(items, p) {
        InsertIntoEmpty(parts[1..], name, data);
      } else {
        var x := Lookup(items, p);
        assert GetPath(x, []) == Some(x);
        if x.Dict? {
          InsertFails(x.items, parts[1..], name, data);
          if Blocked(Dict(x.items), parts[1..]) {
            var j :| 1 <= j <= |parts[1..]| && NonDictAt(x, parts[1..][..j]);
            assert NonDictAt(v, parts[..j + 1]);
          }
          if Blocked(v, parts) {
            var j :| 1 <= j <= |parts| && NonDictAt(v, parts[..j]);
            assert j > 1;
            assert NonDictAt(x, parts[1..][..j - 1]);
          }
        } else {
          assert NonDictAt(v, parts[..1]);
        }
      }
    }
  }

  // ---------------------------------------------------------------- the menu

  /** An entry of the favorites menu: a submenu or an action, at the submenu path it sits in. */
  datatype MenuEntry = Folder(path: seq<string>, name: string) | Leaf(path: seq<string>, name: string, payload: Value)

  /** The entry (and, for a folder, everything beneath it) `add_fav_items` makes for `d`'s `k`th item. */
  function ItemEntries(d: Value, k: nat, path: seq<string>): (r: seq<MenuEntry>)
    requires d.Dict? && k < |d.items|
    ensures r != [] && r[0].path == path && r[0].name == d.items[k].key
    ensures r[0].Folder? <==> IsFolder(d.items[k].val)
    decreases d, 0
  {
    var it := d.items[k];
    if IsFolder(it.val) then [Folder(path, it.key)] + Entries(it.val, 0, path + [it.key])
    else [Leaf(path, it.key, it.val)]
  }

  /** `add_fav_items` over the items of `d` from the `k`th on, in iteration order. */
  function Entries(d: Value, k: nat, path: seq<string>): (r: seq<MenuEntry>)
    requires d.Dict? && k <= |d.items|
    ensures |r| >= |d.items| - k
    decreases d, 1, |d.items| - k
  {
    if k == |d.items| then [] else ItemEntries(d, k, path) + Entries(d, k + 1, path)
  }

  /** The whole favorites menu (`_update_favorites_menu`). */
  function Menu(favorites: seq<Item>): (r: seq<MenuEntry>)
    ensures |r| >= |favorites|
    ensures favorites == [] ==> r == []
  {
    Entries(Dict(favorites), 0, [])
  }

  lemma {:induction false} InEntries(d: Value, k: nat, i: nat, path: seq<string>, e: MenuEntry)
    requires d.Dict? && k <= i < |d.items|
    requires e in ItemEntries(d, i, path)
    ensures e in Entries(d, k, path)
    decreases i - k
  {
    if k < i {
      InEntries(d, k + 1, i, path, e);
    }
  }

  /** The path from `v` runs through submenus only: every dict on the way is read as a folder. */
  predicate Visible(v: Value, r: seq<string>)
    decreases |r|
  {
    r == [] || (v.Dict? && Has(v.items, r[0]) && IsFolder(Lookup(v.items, r[0]))
                && Visible(Lookup(v.items, r[0]), r[1..]))
  }

  /** Every non-folder value reachable through folders appears in the menu as an action labelled by its key. */
  lemma {:induction false} EntriesShowLeaf(v: Value, r: seq<string>, lbl: string, x: Value, path: seq<string>)
    requires v.Dict? && Visible(v, r)
    requires GetPath(v, r + [lbl]) == Some(x) && !IsFolder(x)
    ensures Leaf(path + r, lbl, x) in Entries(v, 0, path)
    decreases |r|
  {
    if r == [] {
      GetPathCons(v.items, lbl, []);
      var i := Position(v.items, lbl);
      assert path + r == path;
      InEntries(v, 0, i, path, Leaf(path, lbl, x));
    } else {
      var k := r[0];
      var c := Lookup(v.items, k);
      assert r + [lbl] == [k] + (r[1..] + [lbl]);
      GetPathCons(v.items, k, r[1..] + [lbl]);
      EntriesShowLeaf(c, r[1..], lbl, x, path + [k]);
      assert path + [k] + r[1..] == path + r;
      var i := Position(v.items, k);
      InEntries(v, 0, i, path, Leaf(path + r, lbl, x));
    }
  }

  /** Every entry of `Entries(d, k, path)` sits at `path` or below it. */
  lemma {:induction false} EntriesUnder(d: Value, k: nat, path: seq<string>, e: MenuEntry)
    requires d.Dict? && k <= |d.items|
    requires e in Entries(d, k, path)
    ensures |e.path| >= |path| && e.path[..|path|] == path
    decreases d, 1, |d.items| - k
  {
    if e !in ItemEntries(d, k, path) {
      EntriesUnder(d, k + 1, path, e);
    } else {
      var it := d.items[k];
      if IsFolder(it.val) && e in Entries(it.val, 0, path + [it.key]) {
        EntriesUnder(it.val, 0, path + [it.key], e);
        assert e.path[..|path|] == (e.path[..|path| + 1])[..|path|];
      }
    }
  }

  /** The entries sitting directly at `path`. */
  function AtLevel(es: seq<MenuEntry>, path: seq<string>): (r: seq<MenuEntry>)
    ensures |r| <= |es|
  {
    if es == [] then []
    else (if es[0].path == path then [es[0]] else []) + AtLevel(es[1..], path)
  }

  lemma {:induction false} AtLevelAppend(a: seq<MenuEntry>, b: seq<MenuEntry>, path: seq<string>)
    ensures AtLevel(a + b, path) == AtLevel(a, path) + AtLevel(b, path)
  {
    if a != [] {
      assert (a + b)[1..] == a[1..] + b;
      AtLevelAppend(a[1..], b, path);
    } else {
      assert a + b == b;
    }
  }

  lemma {:induction false} AtLevelNone(es: seq<MenuEntry>, path: seq<string>)
    requires forall e :: e in es ==> e.path != path
    ensures AtLevel(es, path) == []
  {
    if es != [] {
      AtLevelNone(es[1..], path);
    }
  }

  /** The menu entry `add_fav_items` makes at the dict's own level for one item. */
  function EntryFor(it: Item, path: seq<string>): MenuEntry {
    if IsFolder(it.val) then Folder(path, it.key) else Leaf(path, it.key, it.val)
  }

  /**
   * At each level the menu has exactly one entry per key, in insertion order:
   * a submenu for a folder and an action carrying the value for anything else.
   */
  lemma {:induction false} MenuLevel(d: Value, k: nat, path: seq<string>)
    requires d.Dict? && k <= |d.items|
    ensures var level := AtLevel(Entries(d, k, path), path);
      |level| == |d.items| - k
      && forall i :: 0 <= i < |level| ==> level[i] == EntryFor(d.items[k + i], path)
    decreases |d.items| - k
  {
    if k < |d.items| {
      var it := d.items[k];
      MenuLevel(d, k + 1, path);
      AtLevelAppend(ItemEntries(d, k, path), Entries(d, k + 1, path), path);
      assert AtLevel(ItemEntries(d, k, path), path) == [EntryFor(it, path)] by {
        if IsFolder(it.val) {
          var below := Entries(it.val, 0, path + [it.key]);
          forall e | e in below ensures e.path != path {
            EntriesUnder(it.val, 0, path + [it.key], e);
          }
          AtLevelNone(below, path);
          AtLevelAppend([Folder(path, it.key)], below, path);
        }
      }
    }
  }

  /**
   * Every action in the menu is an entry of the tree reached through
   * folders only, carrying the value stored there, and that value is not a
   * folder.
   */
  lemma {:induction false} EntriesSound(d: Value, k: nat, path: seq<string>, e: MenuEntry)
    requires d.Dict? && k <= |d.items| && WellFormed(d)
    requires e in Entries(d, k, path) && e.Leaf?
    ensures |e.path| >= |path| && e.path[..|path|] == path
    ensures Visible(d, e.path[|path|..])
    ensures GetPath(d, e.path[|path|..] + [e.name]) == Some(e.payload) && !IsFolder(e.payload)
    decreases d, 1, |d.items| - k
  {
    EntriesUnder(d, k, path, e);
    if e !in ItemEntries(d, k, path) {
      EntriesSound(d, k + 1, path, e);
    } else {
      var it := d.items[k];
      assert Position(d.items, it.key) == k;
      if IsFolder(it.val) && e in Entries(it.val, 0, path + [it.key]) {
        assert |e.path| >= |path| + 1 && e.path[..|path| + 1] == path + [it.key] by {
          EntriesUnder(it.val, 0, path + [it.key], e);
        }
        var rel := e.path[|path|..];
        var rel' := e.path[|path| + 1..];
        assert Visible(it.val, rel') && GetPath(it.val, rel' + [e.name]) == Some(e.payload)
            && !IsFolder(e.payload) by {
          EntriesSound(it.val, 0, path + [it.key], e);
        }
        assert rel == [it.key] + rel';
        assert rel[1..] == rel';
        assert rel + [e.name] == [it.key] + (rel' + [e.name]);
        GetPathCons(d.items, it.key, rel' + [e.name]);
      } else {
        assert e == Leaf(path, it.key, it.val);
        assert e.path[|path|..] == [];
        GetPathCons(d.items, it.key, []);
      }
    }
  }

  /** Every entry of the menu, action or submenu, is reached from the tree through folders only. */
  lemma {:induction false} EntriesVisible(d: Value, k: nat, path: seq<string>, e: MenuEntry)
    requires d.Dict? && k <= |d.items| && WellFormed(d)
    requires e in Entries(d, k, path)
    ensures |e.path| >= |path| && e.path[..|path|] == path
    ensures Visible(d, e.path[|path|..])
    decreases d, 1, |d.items| - k
  {
    EntriesUnder(d, k, path, e);
    if e !in ItemEntries(d, k, path) {
      EntriesVisible(d, k + 1, path, e);
    } else {
      var it := d.items[k];
      assert Position(d.items, it.key) == k;
      if IsFolder(it.val) && e in Entries(it.val, 0, path + [it.key]) {
        assert |e.path| >= |path| + 1 && e.path[..|path| + 1] == path + [it.key] by {
          EntriesUnder(it.val, 0, path + [it.key], e);
        }
        var rel := e.path[|path|..];
        var rel' := e.path[|path| + 1..];
        assert Visible(it.val, rel') by {
          EntriesVisible(it.val, 0, path + [it.key], e);
        }
        assert rel == [it.key] + rel';
        assert rel[1..] == rel';
      } else {
        assert e.path == path;
        assert e.path[|path|..] == [];
      }
    }
  }

  /** Each non-empty prefix of a path reached through folders leads to a folder. */
  lemma {:induction false} VisiblePrefix(v: Value, q: seq<string>, n: nat)
    requires Visible(v, q) && 0 < n <= |q|
    ensures GetPath(v, q[..n]).Some? && IsFolder(GetPath(v, q[..n]).value)
    decreases n
  {
    var c := Lookup(v.items, q[0]);
    assert q[..n] == [q[0]] + q[1..][..n - 1];
    GetPathCons(v.items, q[0], q[1..][..n - 1]);
    if n > 1 {
      VisiblePrefix(c, q[1..], n - 1);
    }
  }

  // ---------------------------------------------------------------- favorites as connections

  /** The dict `_on_fav_clicked` stores for a connection. */
  function ProfileValue(c: Rdp.Config): (r: Value)
    ensures IsProfileShaped(r) && !IsFolder(r)
  {
    var items := [Item("host", Str(c.host)), Item("username", Str(c.username)), Item("password", Str(c.password)),
                  Item("domain", Str(c.domain)), Item("port", Int(c.port)), Item("nla", Bool(c.nla))];
    assert items[0].key == "host" && items[1].key == "username" && items[2].key == "password";
    Dict(items)
  }

  /**
   * `_open_favorite_connection`: the connection a menu action opens, with
   * `domain`, `port` and `nla` defaulting to `''`, 3389 and `True`. `None`
   * where Python raises (a value that is not a dict, or lacks one of
   * `host`/`username`/`password`) and where a field is not of the type the
   * dialog stores.
   */
  function OpenConfig(v: Value): (r: Option<Rdp.Config>)
    ensures r.Some? ==> IsProfileShaped(v)
  {
    match v
    case Dict(items) =>
      if !(Has(items, "host") && Has(items, "username") && Has(items, "password")) then None
      else
        var host := Lookup(items, "host");
        var username := Lookup(items, "username");
        var password := Lookup(items, "password");
        var domain := Get(items, "domain", Str(""));
        var port := Get(items, "port", Int(Rdp.DefaultPort));
        var nla := Get(items, "nla", Bool(true));
        if host.Str? && username.Str? && password.Str? && domain.Str? && port.Int? && nla.Bool? then
          Some(Rdp.Config(host.s, username.s, password.s, domain.s, port.n, nla.b))
        else None
    case _ => None
  }

  /** The `i`th entry is what `d[k]` finds when no earlier entry has its key. */
  lemma LookupFirst(items: seq<Item>, i: nat)
    requires i < |items| && forall j :: 0 <= j < i ==> items[j].key != items[i].key
    ensures Has(items, items[i].key) && Lookup(items, items[i].key) == items[i].val
  {
    assert Position(items, items[i].key) == i;
  }

  /** The fields of a saved favorite, each found under its key. */
  lemma ProfileLogin(c: Rdp.Config)
    ensures Has(ProfileValue(c).items, "host") && Lookup(ProfileValue(c).items, "host") == Str(c.host)
    ensures Has(ProfileValue(c).items, "username") && Lookup(ProfileValue(c).items, "username") == Str(c.username)
    ensures Has(ProfileValue(c).items, "password") && Lookup(ProfileValue(c).items, "password") == Str(c.password)
  {
    ProfileHost(c);
    ProfileUser(c);
    ProfilePassword(c);
  }

  lemma ProfileHost(c: Rdp.Config)
    ensures Has(ProfileValue(c).items, "host") && Lookup(ProfileValue(c).items, "host") == Str(c.host)
  {
    LookupFirst(ProfileValue(c).items, 0);
  }

  lemma ProfileUser(c: Rdp.Config)
    ensures Has(ProfileValue(c).items, "username") && Lookup(ProfileValue(c).items, "username") == Str(c.username)
  {
    LookupFirst(ProfileValue(c).items, 1);
  }

  lemma ProfilePassword(c: Rdp.Config)
    ensures Has(ProfileValue(c).items, "password") && Lookup(ProfileValue(c).items, "password") == Str(c.password)
  {
    LookupFirst(ProfileValue(c).items, 2);
  }

  lemma ProfileOptions(c: Rdp.Config)
    ensures Has(ProfileValue(c).items, "domain") && Lookup(ProfileValue(c).items, "domain") == Str(c.domain)
    ensures Has(ProfileValue(c).items, "port") && Lookup(ProfileValue(c).items, "port") == Int(c.port)
    ensures Has(ProfileValue(c).items, "nla") && Lookup(ProfileValue(c).items, "nla") == Bool(c.nla)
  {
    ProfileDomain(c);
    ProfilePort(c);
    ProfileNla(c);
  }

  lemma ProfileDomain(c: Rdp.Config)
    ensures Has(ProfileValue(c).items, "domain") && Lookup(ProfileValue(c).items, "domain") == Str(c.domain)
  {
    LookupFirst(ProfileValue(c).items, 3);
  }

  lemma ProfilePort(c: Rdp.Config)
    ensures Has(ProfileValue(c).items, "port") && Lookup(ProfileValue(c).items, "port") == Int(c.port)
  {
    LookupFirst(ProfileValue(c).items, 4);
  }

  lemma ProfileNla(c: Rdp.Config)
    ensures Has(ProfileValue(c).items, "nla") && Lookup(ProfileValue(c).items, "nla") == Bool(c.nla)
  {
    LookupFirst(ProfileValue(c).items, 5);
  }

  /** A favorite that stores all six fields opens exactly those: no default replaces a stored field. */
  lemma OpenStored(items: seq<Item>, c: Rdp.Config)
    requires Has(items, "host") && Lookup(items, "host") == Str(c.host)
    requires Has(items, "username") && Lookup(items, "username") == Str(c.username)
    requires Has(items, "password") && Lookup(items, "password") == Str(c.password)
    requires Has(items, "domain") && Lookup(items, "domain") == Str(c.domain)
    requires Has(items, "port") && Lookup(items, "port") == Int(c.port)
    requires Has(items, "nla") && Lookup(items, "nla") == Bool(c.nla)
    ensures OpenConfig(Dict(items)) == Some(c)
  {
  }

  /** A favorite saved by the dialog opens the connection it was saved from. */
  lemma OpenSaved(c: Rdp.Config)
    ensures OpenConfig(ProfileValue(c)) == Some(c)
  {
    ProfileLogin(c);
    ProfileOptions(c);
    OpenStored(ProfileValue(c).items, c);
  }

  /**
   * Each of `domain`, `port` and `nla` that a favorite lacks opens with its
   * own default, `''`, 3389 or NLA on, and each it stores is opened as stored.
   */
  lemma OpenDefaults(items: seq<Item>, c: Rdp.Config)
    requires Has(items, "host") && Lookup(items, "host") == Str(c.host)
    requires Has(items, "username") && Lookup(items, "username") == Str(c.username)
    requires Has(items, "password") && Lookup(items, "password") == Str(c.password)
    requires if Has(items, "domain") then Lookup(items, "domain") == Str(c.domain) else c.domain == ""
    requires if Has(items, "port") then Lookup(items, "port") == Int(c.port) else c.port == Rdp.DefaultPort
    requires if Has(items, "nla") then Lookup(items, "nla") == Bool(c.nla) else c.nla
    ensures OpenConfig(Dict(items)) == Some(c)
  {
  }

  /**
   * The converse of `OpenDefaults`: a favorite that opens `c` stores its
   * login fields as strings, and each optional field either stores the
   * value opened or is missing and the value is its default.
   */
  lemma OpenFields(items: seq<Item>, c: Rdp.Config)
    requires OpenConfig(Dict(items)) == Some(c)
    ensures Has(items, "host") && Lookup(items, "host") == Str(c.host)
    ensures Has(items, "username") && Lookup(items, "username") == Str(c.username)
    ensures Has(items, "password") && Lookup(items, "password") == Str(c.password)
    ensures if Has(items, "domain") then Lookup(items, "domain") == Str(c.domain) else c.domain == ""
    ensures if Has(items, "port") then Lookup(items, "port") == Int(c.port) else c.port == Rdp.DefaultPort
    ensures if Has(items, "nla") then Lookup(items, "nla") == Bool(c.nla) else c.nla
  {
  }

  // ---------------------------------------------------------------- consequences and quirks

  /** A profile saved through folders that stay folders shows up in the menu under its name. */
  lemma InsertShown(items: seq<Item>, parts: seq<string>, name: string, data: Value)
    requires Insert(items, parts, name, data).Ok?
    requires Visible(Dict(Insert(items, parts, name, data).value), parts)
    requires !IsFolder(data)
    ensures Leaf(parts, name, data) in Menu(Insert(items, parts, name, data).value)
  {
    var r := Insert(items, parts, name, data).value;
    InsertPlaces(items, parts, name, data);
    EntriesShowLeaf(Dict(r), parts, name, data, []);
    assert [] + parts == parts;
  }

  /**
   * `add_favorite` whose folder path already leads to a dict sets `name` in
   * that very dict.
   */
  lemma {:induction false} InsertAt(items: seq<Item>, parts: seq<string>, name: string, data: Value, sub: seq<Item>)
    requires GetPath(Dict(items), parts) == Some(Dict(sub))
    ensures Insert(items, parts, name, data).Ok?
    ensures GetPath(Dict(Insert(items, parts, name, data).value), parts) == Some(Dict(Set(sub, name, data)))
    decreases |parts|
  {
    if parts != [] {
      var p, rest := parts[0], parts[1..];
      assert parts == [p] + rest;
      GetPathCons(items, p, rest);
      var c := Lookup(items, p);
      assert c.Dict?;
      InsertAt(c.items, rest, name, data, sub);
      var sub' := Insert(c.items, rest, name, data).value;
      assert Insert(items, parts, name, data) == Ok(Set(items, p, Dict(sub')));
      GetPathThroughSet(items, p, Dict(sub'), rest);
    }
  }

  /**
   * Saving into a "folder" that is in fact a stored favorite, at any depth,
   * does not fail: the new favorite is stored inside the favorite's own
   * dict, the favorite still opens the same connection, and nothing inside
   * it appears in the menu.
   */
  lemma InsertIntoFavorite(items: seq<Item>, p: seq<string>, s: string, fav: seq<Item>, c: Rdp.Config,
                           name: string, data: Value)
    requires WellFormed(Dict(items)) && WellFormed(data)
    requires GetPath(Dict(items), p + [s]) == Some(Dict(fav)) && OpenConfig(Dict(fav)) == Some(c)
    requires name !in {"host", "username", "password", "domain", "port", "nla"}
    ensures Insert(items, p + [s], name, data).Ok?
    ensures var r := Insert(items, p + [s], name, data).value;
      && GetPath(Dict(r), p + [s]) == Some(Dict(Set(fav, name, data)))
      && GetPath(Dict(r), p + [s, name]) == Some(data)
      && OpenConfig(Dict(Set(fav, name, data))) == Some(c)
      && forall e :: e in Menu(r) ==> !(p + [s] <= e.path)
  {
    InsertAt(items, p + [s], name, data, fav);
    var r := Insert(items, p + [s], name, data).value;
    assert GetPath(Dict(r), p + [s, name]) == Some(data) by {
      InsertPlaces(items, p + [s], name, data);
      assert p + [s] + [name] == p + [s, name];
    }
    ProfileKeepsConfig(fav, c, name, data);
    assert WellFormed(Dict(r)) by {
      InsertWellFormed(items, p + [s], name, data);
    }
    ProfileHidesBelow(r, p, s, Dict(Set(fav, name, data)));
  }

  /** A stored favorite with one more key set, other than its six fields, still opens the same connection. */
  lemma ProfileKeepsConfig(fav: seq<Item>, c: Rdp.Config, name: string, data: Value)
    requires OpenConfig(Dict(fav)) == Some(c)
    requires name !in {"host", "username", "password", "domain", "port", "nla"}
    ensures OpenConfig(Dict(Set(fav, name, data))) == Some(c)
  {
    var r := Set(fav, name, data);
    OpenFields(fav, c);
    SetOthers(fav, name, data);
    assert Has(r, "host") && Has(r, "username") && Has(r, "password");
    assert Has(r, "domain") <==> Has(fav, "domain");
    assert Has(r, "port") <==> Has(fav, "port");
    assert Has(r, "nla") <==> Has(fav, "nla");
    OpenDefaults(r, c);
  }

  /**
   * A favorite saved under one of the six field names into a stored
   * favorite replaces that field with its own dict, after which the
   * favorite opens nothing.
   */
  lemma ReservedNameBreaksFavorite(fav: seq<Item>, name: string, c: Rdp.Config)
    requires name in {"host", "username", "password", "domain", "port", "nla"}
    ensures OpenConfig(Dict(Set(fav, name, ProfileValue(c)))) == None
  {
    var r := Set(fav, name, ProfileValue(c));
    assert Has(r, name) && Lookup(r, name).Dict?;
  }

  /** `add_favorite` of a saved connection under a field name, into a stored favorite at any depth. */
  lemma InsertReservedIntoFavorite(items: seq<Item>, p: seq<string>, s: string, fav: seq<Item>,
                                   name: string, c: Rdp.Config)
    requires GetPath(Dict(items), p + [s]) == Some(Dict(fav))
    requires name in {"host", "username", "password", "domain", "port", "nla"}
    ensures Insert(items, p + [s], name, ProfileValue(c)).Ok?
    ensures var r := Insert(items, p + [s], name, ProfileValue(c)).value;
      && GetPath(Dict(r), p + [s]) == Some(Dict(Set(fav, name, ProfileValue(c))))
      && OpenConfig(Dict(Set(fav, name, ProfileValue(c)))) == None
  {
    InsertAt(items, p + [s], name, ProfileValue(c), fav);
    ReservedNameBreaksFavorite(fav, name, c);
  }

  /**
   * Nothing stored inside a favorite is shown in the menu: wherever a
   * profile-shaped dict sits at `p + [s]`, no entry of the menu, action or
   * submenu, lies at or below `p + [s]`.
   */
  lemma ProfileHidesBelow(r: seq<Item>, p: seq<string>, s: string, x: Value)
    requires WellFormed(Dict(r))
    requires GetPath(Dict(r), p + [s]) == Some(x) && IsProfileShaped(x)
    ensures forall e :: e in Menu(r) ==> !(p + [s] <= e.path)
  {
    forall e | e in Menu(r) && p + [s] <= e.path
      ensures false
    {
      assert e.path[..|p| + 1] == p + [s];
      EntriesVisible(Dict(r), 0, [], e);
      assert e.path[0..] == e.path;
      VisiblePrefix(Dict(r), e.path, |p| + 1);
    }
  }

  /**
   * A folder, at any depth reached through folders, whose entries include
   * favorites named `host`, `username` and `password` is shown as one action
   * named after the folder, and nothing inside it is shown.
   */
  lemma FolderReadAsFavorite(favorites: seq<Item>, p: seq<string>, f: string, x: Value)
    requires WellFormed(Dict(favorites))
    requires Visible(Dict(favorites), p)
    requires GetPath(Dict(favorites), p + [f]) == Some(x) && IsProfileShaped(x)
    ensures Leaf(p, f, x) in Menu(favorites)
    ensures forall e :: e in Menu(favorites) ==> !(p + [f] <= e.path)
  {
    EntriesShowLeaf(Dict(favorites), p, f, x, []);
    assert [] + p == p;
    ProfileHidesBelow(favorites, p, f, x);
  }

  /** Three saves into folder `f` with those names make such a folder. */
  lemma ReservedNamesMakeFavorite(items: seq<Item>, f: string, a: Value, b: Value, c: Value)
    requires !Has(items, f)
    ensures Insert(items, [f], "host", a).Ok?
    ensures var r1 := Insert(items, [f], "host", a).value;
      Insert(r1, [f], "username", b).Ok?
      && var r2 := Insert(r1, [f], "username", b).value;
      Insert(r2, [f], "password", c).Ok?
      && var r3 := Insert(r2, [f], "password", c).value;
      Has(r3, f) && IsProfileShaped(Lookup(r3, f))
  {
    assert [f][1..] == [];
    var d0 := Set(items, f, Dict([]));
    assert Lookup(d0, f) == Dict([]);
    var f1 := Set([], "host", a);
    assert Insert([], [], "host", a) == Ok(f1);
    assert Insert(items, [f], "host", a) == Ok(Set(d0, f, Dict(f1)));
    var r1 := Set(d0, f, Dict(f1));
    var f2 := Set(f1, "username", b);
    assert Insert(f1, [], "username", b) == Ok(f2);
    assert Insert(r1, [f], "username", b) == Ok(Set(r1, f, Dict(f2)));
    var r2 := Set(r1, f, Dict(f2));
    var f3 := Set(f2, "password", c);
    assert Insert(f2, [], "password", c) == Ok(f3);
    assert Insert(r2, [f], "password", c) == Ok(Set(r2, f, Dict(f3)));
    var r3 := Set(r2, f, Dict(f3));
    var folder := Lookup(r3, f).items;
    SetOthers(f1, "username", b);
    SetOthers(f2, "password", c);
    assert Has(folder, "password");
    assert Has(folder, "username");
    assert Has(folder, "host");
  }

  lemma {:induction false} SetWellFormed(items: seq<Item>, k: string, v: Value)
    requires WellFormed(Dict(items)) && WellFormed(v)
    ensures WellFormed(Dict(Set(items, k, v)))
  {
    var r := Set(items, k, v);
    SetOrder(items, k, v);
    forall i | 0 <= i < |r| ensures WellFormed(r[i].val) {
      if Has(items, k) {
        if i != Position(items, k) {
          assert r[i] == items[i];
        }
      } else if i < |items| {
        assert r[i] == items[i];
      }
    }
  }

  /** `add_favorite` keeps every dict's keys distinct. */
  lemma {:induction false} InsertWellFormed(items: seq<Item>, parts: seq<string>, name: string, data: Value)
    requires WellFormed(Dict(items)) && WellFormed(data)
    requires Insert(items, parts, name, data).Ok?
    ensures WellFormed(Dict(Insert(items, parts, name, data).value))
    decreases |parts|
  {
    if parts == [] {
      SetWellFormed(items, name, data);
    } else {
      var p := parts[0];
      var here := if Has(items, p) then items else Set(items, p, Dict([]));
      if !Has(items, p) {
        SetWellFormed(items, p, Dict([]));
      }
      var sub := Lookup(here, p).items;
      assert WellFormed(Dict(sub)) by {
        assert here[Position(here, p)].val == Dict(sub);
      }
      InsertWellFormed(sub, parts[1..], name, data);
      SetWellFormed(here, p, Dict(Insert(sub, parts[1..], name, data).value));
    }
  }
}
