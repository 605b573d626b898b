# mTabs favorites, connections and tabs in Dafny

A Dafny model of the core of `mtabs_qt.py`, a PyQt tab manager for Windows
Remote Desktop sessions. Each session is embedded through the MsTscAx ActiveX
control. The model covers:

- **The favorites tree** (`Favorites`, over the Python values of `Dicts`).
  - Favorites are nested dicts whose leaves are connection dicts.
  - `add_favorite` walks the `/`-separated folder path, creating missing folders, and sets the favorite.
  - The favorites menu is built by `add_fav_items`.
  - Opening a favorite applies defaults for missing fields.
  - Two quirks of the code are proved as stated behaviour:
    - Saving "into" an existing favorite stores the new favorite inside that favorite's dict.
    - A folder that holds entries named `host`, `username` and `password` is shown as a single favorite.
- **The encrypted store** (`Store`).
  - `generate_key`, `load_key`, `save_favorites_encrypted` and `load_favorites_encrypted`.
  - The working directory is a map from file name to contents.
  - A Fernet token is symbolic: it records its key and the tree it carries, so decryption succeeds exactly with the same key.
- **The session widget** (`Rdp`).
  - `showEvent` is modelled by the ordered property assignments it makes on the control and on its `AdvancedSettings` object, plus a count of `Connect()` calls.
  - The chosen resolution falls back to 900 x 600.
  - `resizeEvent` changes the control's visible size and never the session resolution.
  - `showEvent` connects on every show, not only the first.
- **The connection dialog** (`Dialog`).
  - `get_data` and `_on_fav_clicked` read the form: host, user and domain are stripped, the password is not, the port is `int()` or 3389, and NLA is on exactly for combo entry 0.
  - The dialog is driven by a sequence of user actions.
- **The main window** (`Window`).
  - A class holding the favorites tree, the menu derived from it, the tab list and the title, with a reference to the store.
  - `add_favorite` is a loop that descends through the folders, then a loop that puts the changed dicts back. Both are proved equal to the recursive `Favorites.Insert`.
  - `close_tab` and `_show_welcome` keep the tab list non-empty.
  - `add_connection` opens a tab only for an accepted dialog with a host and a user name.
  - Because "Favoritar" ends the dialog with `done(0)`, the `add_favorite` call in `add_connection` can never run (`Dialog.AcceptedHasNoFavorite`; see Findings).

`Strings` supplies `str.strip`, `str.split` with empty pieces dropped, and `int()` on decimal text. `Wrappers` supplies `Option` and `Result`.

## Model

| member | source | states |
|---|---|---|
| Strings.Strip | mtabs_qt.py:272-275 | the stripped text has no whitespace (Python's `isspace` set) at either end |
| Strings.StripShape | mtabs_qt.py:272-275 | `strip` keeps one contiguous part of the text and removes only whitespace before and after it |
| Strings.StripPadded | mtabs_qt.py:272-275 | whitespace around a text with no whitespace at its ends is exactly what `strip` removes |
| Strings.Split | mtabs_qt.py:375 | `split` always yields at least one piece |
| Strings.SplitPieces | mtabs_qt.py:375 | no piece of a split contains the separator |
| Strings.JoinSplit | mtabs_qt.py:375 | joining the pieces with the separator gives the text back |
| Strings.SplitJoin | mtabs_qt.py:375 | separator-free pieces are recovered by splitting their join |
| Strings.SplitConcat | mtabs_qt.py:375 | splitting `p + sep + q` gives the pieces of `p` followed by the pieces of `q` |
| Strings.Segments | mtabs_qt.py:375 | every folder segment is non-empty and contains no `/` |
| Strings.SegmentsOfJoin | mtabs_qt.py:375 | a path written as non-empty segments joined by `/` is read back as exactly those segments |
| Strings.SegmentsOfEmpty | mtabs_qt.py:375 | an empty folder path names the top level of the tree |
| Strings.SegmentsConcat | mtabs_qt.py:375 | the segments of `p/q` are those of `p` then those of `q`, so doubled, leading and trailing slashes are ignored |
| Strings.ParseInt | mtabs_qt.py:276-279 | `int()` succeeds exactly when the stripped text is an optional sign followed by decimal digits and the text holds none of the separators U+001C to U+001F, which `int()` does not skip |
| Strings.ParseIntDecimal | mtabs_qt.py:276-279 | `int()` reads back every integer from its decimal text, with whitespace that `int()` skips around it and with no range check |
| Strings.SeparatorRejected | mtabs_qt.py:276-279 | a separator U+001C to U+001F anywhere in the text makes `int()` fail, though `strip` treats it as whitespace |
| Dicts.Set | mtabs_qt.py:378-381 | after `d[k] = v`, `k` is present and maps to `v` |
| Dicts.SetOthers | mtabs_qt.py:378-381 | `d[k] = v` leaves every other key present or absent as before, with the same value |
| Dicts.SetOrder | mtabs_qt.py:378-381 | `d[k] = v` keeps the iteration order, appends a new key last, and keeps keys distinct |
| Rdp.InitialSize | mtabs_qt.py:79-81 | each side of the resolution is the control's side when positive and 900 or 600 otherwise, so both sides are positive |
| Rdp.AdvancedAssignments | mtabs_qt.py:135-142 | every assignment made inside the `if adv:` block goes to `AdvancedSettings` |
| Rdp.ControlAssignments | mtabs_qt.py:128-133 | every assignment made before `querySubObject` goes to the control itself |
| Rdp.ConnectAssignments | mtabs_qt.py:128-142 | `showEvent` makes four `setProperty` calls on the control, five with a domain, and with an `AdvancedSettings` object five more, six when the port is not 3389 |
| Rdp.EffectiveAppend | mtabs_qt.py:128-142 | a property holds the value of its last assignment; later assignments win over earlier ones |
| Rdp.ConnectControlSettings | mtabs_qt.py:128-133 | after `showEvent` the control holds the host and user; it holds the domain only when the domain is non-empty; its desktop size is the chosen size |
| Rdp.ConnectAdvancedSettings | mtabs_qt.py:134-142 | after `showEvent` `AdvancedSettings` (when handed out) holds the password, authentication level 2 with NLA and 0 without, the port only when it is not 3389, the connection bar on and the chosen size; without it nothing is set there |
| Rdp.RdpWidget.constructor | mtabs_qt.py:83-114 | building the widget stores the configuration, sets no property and does not connect |
| Rdp.RdpWidget.ShowEvent | mtabs_qt.py:124-143 | each show appends the connection assignments for the current size (900 x 600 fallback), connects once more, and leaves the resolution equal to that size |
| Rdp.RdpWidget.ResizeEvent | mtabs_qt.py:169-174 | the control takes the widget's new size; no property is assigned, so the session resolution is unchanged |
| Favorites.Insert | mtabs_qt.py:375-381 | `add_favorite` can raise `TypeError` only while walking folder segments: setting a name at the top never fails |
| Favorites.InsertPlaces | mtabs_qt.py:375-381 | after `add_favorite`, the connection is found under the folder segments followed by the name |
| Favorites.InsertFrame | mtabs_qt.py:375-381 | every path that parts ways with the saved favorite's path finds what it found before, so siblings and other branches are unchanged |
| Favorites.InsertIntoEmpty | mtabs_qt.py:375-381 | saving into an empty tree never fails, whatever the folder path |
| Favorites.InsertFails | mtabs_qt.py:377-380 | `add_favorite` raises `TypeError` exactly when some folder segment names an existing value that is not a dict |
| Favorites.InsertWellFormed | mtabs_qt.py:378-381 | saving keeps the keys of every dict in the tree distinct |
| Favorites.ItemEntries | mtabs_qt.py:341-349 | the first entry made for an item is labelled with its key at the current submenu path, and is a submenu exactly when the value is a folder |
| Favorites.Entries | mtabs_qt.py:340-349 | each item of a dict yields at least one menu entry |
| Favorites.Menu | mtabs_qt.py:339-350 | the menu has at least one entry per top-level key, and none for an empty tree |
| Favorites.EntriesUnder | mtabs_qt.py:340-349 | every menu entry built for a folder sits at that folder's path or below it |
| Favorites.MenuLevel | mtabs_qt.py:340-349 | each menu level has exactly one entry per key, in the dict's order: a submenu for a folder, an action carrying the value for anything else |
| Favorites.EntriesShowLeaf | mtabs_qt.py:340-349 | every non-folder value reached through folders only appears as an action labelled with its key |
| Favorites.EntriesVisible | mtabs_qt.py:340-349 | every menu entry, action or submenu, sits at a path reached from the tree through folders only |
| Favorites.EntriesSound | mtabs_qt.py:340-349 | every action in the menu is reached through folders only, carries the value stored there, and that value is not a folder |
| Favorites.ProfileValue | mtabs_qt.py:249-256 | the dict the dialog stores for a connection holds `host`, `username` and `password`, so the menu shows it as a favorite and not as a folder |
| Favorites.OpenConfig | mtabs_qt.py:352-363 | a favorite opens a connection only if it is a dict holding `host`, `username` and `password` |
| Favorites.OpenStored | mtabs_qt.py:360-362 | a favorite storing all six fields opens exactly those; no default replaces a stored field |
| Favorites.OpenDefaults | mtabs_qt.py:360-363 | each of domain, port and NLA that a favorite lacks opens with its own default, `''`, 3389 or NLA on, while each one it stores is opened as stored |
| Favorites.OpenFields | mtabs_qt.py:360-363 | conversely, a favorite that opens a connection stores host, user and password as those strings, and each of domain, port and NLA is either stored as opened or missing and at its default |
| Favorites.OpenSaved | mtabs_qt.py:249-256 | the dict the dialog stores for a connection opens that same connection |
| Favorites.InsertShown | mtabs_qt.py:365-383 | a non-folder saved through folders that remain folders shows up in the rebuilt menu under its name |
| Favorites.InsertAt | mtabs_qt.py:375-381 | when the folder path already leads to a dict, `add_favorite` succeeds and sets the name in that dict |
| Favorites.InsertIntoFavorite | mtabs_qt.py:375-381 | saving "into" a stored favorite at any folder path, one that opens some connection, under a name other than its six field names (host, username, password, domain, port, nla), succeeds; the new entry is stored inside the favorite's dict, the favorite still opens the same connection, and nothing inside it appears in the menu |
| Favorites.InsertReservedIntoFavorite | mtabs_qt.py:375-381 | saving a connection "into" a stored favorite at any folder path under one of the six field names succeeds, replaces that field with the saved connection's dict, and leaves a favorite that opens nothing |
| Favorites.ReservedNameBreaksFavorite | mtabs_qt.py:360-363 | a favorite one of whose six fields holds a saved connection's dict opens nothing |
| Favorites.ProfileKeepsConfig | mtabs_qt.py:360-363 | any stored favorite with one more key set, other than its six fields, still opens the same connection |
| Favorites.ProfileHidesBelow | mtabs_qt.py:340-349 | wherever a favorite (a dict holding `host`, `username` and `password`) sits in the tree, no menu entry, action or submenu, lies inside it |
| Favorites.FolderReadAsFavorite | mtabs_qt.py:340-349 | a folder at any depth reached through folders that holds `host`, `username` and `password` is shown as one action named after the folder, carrying the folder's dict, and no action or submenu inside it is shown |
| Favorites.ReservedNamesMakeFavorite | mtabs_qt.py:342 | three saves named `host`, `username` and `password` into a new folder make that folder read as a favorite |
| Favorites.SetWellFormed | mtabs_qt.py:381 | setting a key keeps every dict's keys distinct |
| Store.WithKey | mtabs_qt.py:12-20 | after `generate_key` a key file exists; an existing one is kept, otherwise the new key is written; no other file changes |
| Store.ReadKey | mtabs_qt.py:22-29 | the key returned is the key file's bytes and a valid Fernet key; the error is a missing key file exactly when there is none, and an invalid key exactly when the file holds something Fernet refuses |
| Store.SaveFiles | mtabs_qt.py:31-44 | saving fails with `load_key`'s or `Fernet`'s error and writes nothing; otherwise the data file holds the tree encrypted under the stored key, and the directory gains no other file |
| Store.LoadFavorites | mtabs_qt.py:46-54 | with the data file or the key file missing, the store loads as an empty dict |
| Store.KeyIdempotent | mtabs_qt.py:12-20 | a second `generate_key` changes nothing, whatever key it would make |
| Store.ProvisionedKeyRead | mtabs_qt.py:12-29 | the key `generate_key` writes into an empty slot is the key read back, when Fernet accepts it, and an invalid-key error otherwise |
| Store.FirstRunLoadsEmpty | mtabs_qt.py:46-54 | on a first run the store starts empty |
| Store.SaveThenLoad | mtabs_qt.py:31-60 | saving succeeds exactly when the key file holds a valid key, writes only the data file, and loading afterwards gives back the saved tree |
| Store.ForeignTokenRejected | mtabs_qt.py:55-59 | a data file written under another key does not load (Fernet's `InvalidToken`) |
| Store.SaveAfterProvision | mtabs_qt.py:12-44 | after a valid key is provisioned, saving cannot fail unless an existing key file was already invalid |
| Store.Disk.GenerateKey | mtabs_qt.py:12-20 | the files become `WithKey` of the old files |
| Store.Disk.Save | mtabs_qt.py:31-44 | on success the files become the encrypted save; on failure the error is returned and nothing is written |
| Store.Disk.Load | mtabs_qt.py:46-60 | returns what `LoadFavorites` describes, without changing the files |
| Dialog.PortOfPadded | mtabs_qt.py:276-279 | a port field holding an integer's decimal text, with whitespace that `int()` skips around it, gives that integer |
| Dialog.GetData | mtabs_qt.py:267-281 | host, user and domain carry no surrounding whitespace; the password is exactly as typed; the port is `PortOf` the port text; NLA is on exactly for the first combo entry |
| Dialog.GetDataOfTyped | mtabs_qt.py:272-281 | a form filled in with a connection's fields, padded with whitespace where the code strips (and with whitespace `int()` skips around the port), reads back as that connection |
| Dialog.BlankFormData | mtabs_qt.py:206-210 | the untouched form reads as port 3389 with NLA and empty other fields |
| Dialog.PortFallback | mtabs_qt.py:276-279 | a port field that is not an integer, or holds a separator U+001C to U+001F, gives 3389; an integer is taken with no range check |
| Dialog.FavoriteOf | mtabs_qt.py:235-256 | "Favoritar" records nothing when the stripped name is empty; otherwise it records a non-empty stripped name and a stripped folder |
| Dialog.FavoriteOfTyped | mtabs_qt.py:235-256 | a name and folder typed with whitespace around them are recorded without it, with the connection `get_data` reads |
| Dialog.BlankFavoriteWarns | mtabs_qt.py:235-239 | a favorite name of whitespace only records nothing: the dialog shows a warning and stays open |
| Dialog.FavoriteOpensSameConnection | mtabs_qt.py:240-256 | the recorded favorite is not a folder and opens the very connection OK would have opened |
| Dialog.Step | mtabs_qt.py:225-258 | once the dialog has ended, no action changes it |
| Dialog.Run | mtabs_qt.py:225-258 | once the dialog has ended, further actions change nothing; while it is open, no favorite has been recorded |
| Dialog.RunKeepsFavoriteRejects | mtabs_qt.py:249-258 | in every run, a recorded favorite comes with the Rejected code |
| Dialog.AcceptedHasNoFavorite | mtabs_qt.py:408-418 | whatever the user does, a dialog ending Accepted carries no favorite, so `add_connection` never reaches `add_favorite` |
| Dialog.FavoriteEndsRejected | mtabs_qt.py:249-258 | "Favoritar" with a name ends the dialog Rejected with the request recorded |
| Dialog.FavoriteClickDiscarded | mtabs_qt.py:257-258 | typing a name and pressing "Favoritar" records the favorite but ends with a code other than Accepted |
| Window.ComputerName | mtabs_qt.py:441-453 | when the reverse lookup fails, the tab is named after the host itself |
| Window.RemoveAt | mtabs_qt.py:461 | removing page `i` keeps the pages before it and shifts the later ones down; an out-of-range index removes nothing |
| Window.WithWelcome | mtabs_qt.py:465-476 | the welcome page is added only to an empty tab list, so the list is never empty afterwards |
| Window.DescendStep | mtabs_qt.py:377-380 | each turn of the descent loop keeps the tree it will produce equal to the one `Insert` describes |
| Window.Enter | mtabs_qt.py:378-380 | the current dict gets an empty folder under the segment if it had none, and the value under the segment is returned |
| Window.Descend | mtabs_qt.py:375-380 | the loop fails exactly when `Insert` does; otherwise setting the name in the dict reached and rebuilding along the trail gives `Insert`'s tree |
| Window.Rebuild | mtabs_qt.py:377-381 | putting the changed dicts back, innermost first, gives the tree the trail describes |
| Window.MainWindow.constructor | mtabs_qt.py:293-311 | the new window shows the welcome page only, under the start title, with the menu built from the loaded favorites |
| Window.MainWindow.ShowWelcome | mtabs_qt.py:465-476 | adds the welcome page exactly when there is no page |
| Window.MainWindow.CloseTab | mtabs_qt.py:455-463 | removes the page and puts the welcome page back when none is left, so at least one page remains |
| Window.MainWindow.AddTab | mtabs_qt.py:422-439 | appends a session page named after the remote computer and puts that name in the window title |
| Window.MainWindow.OpenFavorite | mtabs_qt.py:352-363 | a menu action opens a tab exactly when the favorite opens a connection; that tab carries this connection and the title names its computer |
| Window.MainWindow.AddFavorite | mtabs_qt.py:365-383 | on `TypeError` nothing changes; otherwise the tree becomes `Insert`'s, the menu is rebuilt from it, and the store holds it unless the save fails |
| Window.MainWindow.AddRequested | mtabs_qt.py:414-418 | adds the favorite the dialog recorded, if any: nothing changes on `TypeError`; otherwise the tree is `Insert`'s and the files are the save's result, or unchanged with the save's error |
| Window.MainWindow.AddConnection | mtabs_qt.py:402-420 | a tab opens exactly for an Accepted dialog with a non-empty host and user name, the title names its computer, and any recorded favorite is then added as `AddRequested` says; otherwise nothing changes |
| Window.MainWindow.AddConnectionSavingFavorite | mtabs_qt.py:402-420 | a dialog closed by "Favoritar" adds the favorite to the tree and saves it to the data file, as `AddRequested` says, leaving the tabs and the title alone; every other outcome gives what `add_connection` gives |
| Window.Launch | mtabs_qt.py:307-311 | start-up provisions the key, then opens a window on the loaded favorites, showing only the welcome page under the start title, or fails with the store's error |

## Left out

- Qt itself is left out: widgets, layouts, style sheets, menus as objects, message boxes, the event loop and `main`. The menu is the list of entries `add_fav_items` makes.
- `print` logging and `handle_ax_exception` only print, so they are not modelled.
- The debug sizing code is not modelled: `test_resize_rdp_to_window`, `set_minimum_size_to_current` and `self.resize(900, 600)`. At start-up the current page is the welcome label, so `set_minimum_size_to_current` sets no session property.
- `_ajustar_resolucao_e_conectar` is never called and is not modelled. `_get_initial_size` is not called either; `Rdp.InitialSize` is the sizing expression it shares with `showEvent`.
- The ActiveX control is foreign code. What the widget does to it is recorded as property assignments and `Connect()` calls. Whether `querySubObject("AdvancedSettings")` returns an object is a parameter.
- Fernet and pickle are symbolic: a token records its key and the tree it carries.
- Store.ReadKey: a valid key is any 44-byte key file. Fernet's base64 decoding to 32 bytes is not modelled.
- `Fernet.generate_key()`'s randomness and `socket.gethostbyaddr` become parameters. The lookup is the name it answers, or none when it raises.
- I/O errors other than a missing key file are not modelled, e.g. permissions or a full disk. The data file is rewritten in place, as the code does; there is no atomic replacement because the code has none.
- `add_favorite` mutates nested dicts in place through an alias. The model rebuilds them by value along the recorded trail. This is not observable, because each dict is reachable from the tree only through its own key.
- Window.MainWindow.AddTab: the current-page index (`setCurrentWidget`) is not modelled, nor is an exception from building the ActiveX widget (caught in `add_connection`).
- Window.MainWindow.AddConnection: the message box for an exception caught there is left out. A `TypeError` or a save error from `add_favorite` is returned as the error.
- Strings.ParseInt: accepts ASCII digits with an optional sign and surrounding whitespace. `int()`'s underscores between digits, its non-ASCII decimal digits, and the 4300-digit limit of recent Python versions are not modelled.
- Window.MainWindow.Valid: does not demand distinct keys in the favorites tree, which every unpickled dict has, because the store's files are not constrained to hold well-formed trees. Distinct keys are proved preserved by every save (`Favorites.InsertWellFormed`).
- Favorites.OpenConfig: opens nothing for a favorite whose `host`, `username`, `password` or `domain` is not a string, whose `port` is not an integer, or whose `nla` is not a boolean. The source passes such values on unchanged (mtabs_qt.py:360-363). A non-string `host` makes `addTab` raise `TypeError` on the tab label (mtabs_qt.py:435-437), out of the menu action with no handler, so no tab opens there either. For a mistyped `username`, `password`, `domain`, `port` or `nla` the source does add the tab (mtabs_qt.py:436-437) and hands the value to the control, which tests `domain` and `nla` for truth and compares `port` with 3389 (mtabs_qt.py:130-139). Such favorites come from a hand-edited store, or, once "Favoritar" saves as intended (`Window.MainWindow.AddConnectionSavingFavorite`), from either of two flows. One is a save under one of the six field names into a stored favorite (`Favorites.InsertReservedIntoFavorite`). The other is three saves named `host`, `username` and `password` into one folder (`Favorites.ReservedNamesMakeFavorite`), which make a favorite whose `host` is a dict.
- Window.MainWindow.OpenFavorite: opens no tab when `Favorites.OpenConfig` refuses the favorite. For the mistyped fields other than `host` named in the line above, the source opens a tab that this contract does not promise.

## Findings

| source | as written | input that shows it | evidently intended | confidence | as-written member | corrected member |
|---|---|---|---|---|---|---|
| mtabs_qt.py:257-258, 408-418 | "Favoritar" records the favorite and closes the dialog with `done(0)`; `add_connection` reads the recorded favorite only when `exec_()` returned Accepted (1), so the favorite is never saved | any connection, favorite name `srv`, then "Favoritar" | the button saves the favorite without opening the connection, as the comment at line 257 says | high; not executed | Dialog.FavoriteClickDiscarded | Window.MainWindow.AddConnectionSavingFavorite |
