/**
 * `ConnectionDialog`: the form the user fills in, how `get_data` and
 * `_on_fav_clicked` read it, and how the dialog ends. The dialog is a
 * sequence of user actions; it ends with Accepted (1) after OK and with
 * Rejected (0) after "Favoritar" with a name, or after the window is
 * closed.
 */
module Dialog {
  import opened Wrappers
  import opened Strings
  import opened Dicts
  import Rdp
  import Favorites

  const Rejected := 0
  const Accepted := 1

  /**
   * The texts of the line edits and the selected authentication entry
   * (0 = "NLA (Recomendado)", 1 = "Legacy (Sem NLA)").
   */
  datatype Form = Form(host: string, username: string, password: string, domain: string,
                       port: string, authIndex: int, favName: string, favFolder: string)

  /** The form as the dialog opens: the port field reads "3389", NLA is selected. */
  const BlankForm := Form("", "", "", "", "3389", 0, "", "")

  /** `int(port_text)`, or 3389 where Python raises ValueError. */
  function PortOf(text: string): (port: int)
    ensures ParseInt(text).Some? ==> port == ParseInt(text).value
    ensures ParseInt(text).None? ==> port == Rdp.DefaultPort
  {
    ParseInt(text).GetOr(Rdp.DefaultPort)
  }

  /**
   * `get_data`: host, user name and domain with surrounding whitespace
   * removed, the password exactly as typed, the port as parsed and NLA when
   * the first entry is selected.
   */
  function GetData(f: Form): (c: Rdp.Config)
    ensures Trimmed(c.host) && Trimmed(c.username) && Trimmed(c.domain)
    ensures c.password == f.password
    ensures c.port == PortOf(f.port)
    ensures c.nla <==> f.authIndex == 0
  {
    Rdp.Config(Strip(f.host), Strip(f.username), f.password, Strip(f.domain), PortOf(f.port), f.authIndex == 0)
  }

  /** `s` is `t` with whitespace around it. */
  ghost predicate Padded(s: string, t: string) {
    exists pre, post :: AllSpace(pre) && AllSpace(post) && s == pre + t + post
  }

  /** `s` is `t` with whitespace that `int()` skips around it. */
  ghost predicate IntPadded(s: string, t: string) {
    exists pre, post :: AllIntSpace(pre) && AllIntSpace(post) && s == pre + t + post
  }

  /** What the user typed, up to whitespace around the host, user name, domain and port. */
  ghost predicate Typed(f: Form, c: Rdp.Config) {
    && Padded(f.host, c.host)
    && Padded(f.username, c.username)
    && Padded(f.domain, c.domain)
    && IntPadded(f.port, IntToDecimal(c.port))
    && f.password == c.password
    && (f.authIndex == 0 <==> c.nla)
  }

  lemma StripOfPadded(s: string, t: string)
    requires Padded(s, t) && Trimmed(t)
    ensures Strip(s) == t
  {
    var pre, post :| AllSpace(pre) && AllSpace(post) && s == pre + t + post;
    StripPadded(pre, t, post);
  }

  lemma PortOfPadded(s: string, n: int)
    requires IntPadded(s, IntToDecimal(n))
    ensures PortOf(s) == n
  {
    var pre, post :| AllIntSpace(pre) && AllIntSpace(post) && s == pre + IntToDecimal(n) + post;
    ParseIntDecimal(n, pre, post);
  }

  /**
   * A form filled in with a connection's fields, with whitespace around any
   * field the code strips, reads back as that connection.
   */
  lemma GetDataOfTyped(f: Form, c: Rdp.Config)
    requires Trimmed(c.host) && Trimmed(c.username) && Trimmed(c.domain)
    requires Typed(f, c)
    ensures GetData(f) == c
  {
    StripOfPadded(f.host, c.host);
    StripOfPadded(f.username, c.username);
    StripOfPadded(f.domain, c.domain);
    PortOfPadded(f.port, c.port);
  }

  /** The untouched form reads as port 3389 with NLA, and leaves the other fields empty. */
  lemma BlankFormData()
    ensures GetData(BlankForm) == Rdp.Config("", "", "", "", 3389, true)
  {
    assert NatToDecimal(3) == "3";
    assert NatToDecimal(33) == "33";
    assert NatToDecimal(338) == "338";
    assert NatToDecimal(3389) == "3389";
    var none: string := "";
    assert AllSpace(none) && AllIntSpace(none);
    assert IntPadded("3389", IntToDecimal(3389)) by {
      assert "3389" == none + IntToDecimal(3389) + none;
    }
    PortOfPadded("3389", 3389);
    assert Padded("", "") by {
      assert "" == none + none + none;
    }
    StripOfPadded("", "");
  }

  /**
   * A port field that does not hold an integer, or holds a separator
   * (U+001C to U+001F) anywhere, gives 3389; there is no range check on one
   * that holds an integer.
   */
  lemma PortFallback(f: Form)
    requires !IntSyntax(Strip(f.port)) || !NoSeparator(f.port)
    ensures GetData(f).port == Rdp.DefaultPort
  {
  }

  /** The request `_on_fav_clicked` records: favorite name, folder path and connection dict. */
  datatype FavRequest = FavRequest(name: string, folder: string, data: Value)

  /**
   * `_on_fav_clicked`: `None` when the stripped favorite name is empty (the
   * dialog shows a warning and stays open); otherwise the stripped name and
   * folder and the connection read as `get_data` reads it.
   */
  function FavoriteOf(f: Form): (r: Option<FavRequest>)
    ensures r.None? <==> Strip(f.favName) == ""
    ensures r.Some? ==> Trimmed(r.value.name) && r.value.name != "" && Trimmed(r.value.folder)
  {
    var name := Strip(f.favName);
    if name == "" then None
    else Some(FavRequest(name, Strip(f.favFolder), Favorites.ProfileValue(GetData(f))))
  }

  /**
   * "Favoritar" records the name and folder as typed, up to whitespace
   * around them, together with the connection `get_data` reads.
   */
  lemma FavoriteOfTyped(f: Form, name: string, folder: string)
    requires Padded(f.favName, name) && Trimmed(name) && name != ""
    requires Padded(f.favFolder, folder) && Trimmed(folder)
    ensures FavoriteOf(f) == Some(FavRequest(name, folder, Favorites.ProfileValue(GetData(f))))
  {
    StripOfPadded(f.favName, name);
    StripOfPadded(f.favFolder, folder);
  }

  /** A favorite name of whitespace only records nothing: the dialog warns and stays open. */
  lemma BlankFavoriteWarns(s: State)
    requires s.code.None? && AllSpace(s.form.favName)
    ensures Step(s, Favorite) == s.(warnings := s.warnings + 1)
  {
    var none: string := "";
    assert s.form.favName == s.form.favName + none + none;
    StripPadded(s.form.favName, none, none);
  }

  /** The favorite recorded by "Favoritar" opens the very connection OK would have opened. */
  lemma FavoriteOpensSameConnection(f: Form)
    requires FavoriteOf(f).Some?
    ensures Favorites.OpenConfig(FavoriteOf(f).value.data) == Some(GetData(f))
    ensures !Favorites.IsFolder(FavoriteOf(f).value.data)
  {
    Favorites.OpenSaved(GetData(f));
  }

  /** The user's interactions with the open dialog. */
  datatype Action =
    | Edit(form: Form)   // typing into the fields or picking an authentication entry
    | Favorite           // the "Favoritar" button
    | Ok                 // the "OK" button: `accept()`
    | Close              // Esc or the window's close button: `reject()`

  /** The dialog's state: the form, `_fav_data`, the result code once it has ended, warnings shown. */
  datatype State = State(form: Form, favorite: Option<FavRequest>, code: Option<int>, warnings: nat)

  function Opened(): State {
    State(BlankForm, None, None, 0)
  }

  /** One action; once the dialog has ended nothing changes. */
  function Step(s: State, a: Action): (t: State)
    ensures s.code.Some? ==> t == s
  {
    if s.code.Some? then s
    else match a
      case Edit(f) => s.(form := f)
      case Favorite =>
        (match FavoriteOf(s.form)
         case None => s.(warnings := s.warnings + 1)
         case Some(r) => s.(favorite := Some(r), code := Some(Rejected)))
      case Ok => s.(code := Some(Accepted))
      case Close => s.(code := Some(Rejected))
  }

  /** `exec_()` driven by a sequence of actions. */
  function Run(s: State, actions: seq<Action>): (r: State)
    ensures s.code.Some? ==> r == s
    ensures r.code.None? ==> r.favorite == s.favorite
    decreases |actions|
  {
    if actions == [] then s else Run(Step(s, actions[0]), actions[1..])
  }

  /** A recorded favorite is always followed by `done(0)`. */
  predicate FavoriteRejects(s: State) {
    s.favorite.Some? ==> s.code == Some(Rejected)
  }

  lemma {:induction false} RunKeepsFavoriteRejects(s: State, actions: seq<Action>)
    requires FavoriteRejects(s)
    ensures FavoriteRejects(Run(s, actions))
    decreases |actions|
  {
    if actions != [] {
      RunKeepsFavoriteRejects(Step(s, actions[0]), actions[1..]);
    }
  }

  /**
   * Whatever the user does, a dialog that ends Accepted carries no favorite:
   * `get_favorite_data()` is `None` whenever `add_connection` asks for it.
   */
  lemma AcceptedHasNoFavorite(actions: seq<Action>)
    requires Run(Opened(), actions).code == Some(Accepted)
    ensures Run(Opened(), actions).favorite.None?
  {
    RunKeepsFavoriteRejects(Opened(), actions);
  }

  /**
   * Typing a favorite name and pressing "Favoritar" records the request but
   * ends the dialog Rejected, which is not the Accepted code `add_connection`
   * waits for before it looks at the request.
   */
  lemma FavoriteClickDiscarded(f: Form)
    requires Strip(f.favName) != ""
    ensures var s := Run(Opened(), [Edit(f), Favorite]);
      && s.favorite == FavoriteOf(f) && s.favorite.Some?
      && s.code == Some(Rejected) && s.code != Some(Accepted)
  {
    var s1 := Step(Opened(), Edit(f));
    assert Run(Opened(), [Edit(f), Favorite]) == Run(s1, [Favorite]);
    assert Run(s1, [Favorite]) == Run(Step(s1, Favorite), []);
  }

  /** "Favoritar" with a name ends the dialog Rejected, with the request recorded. */
  lemma FavoriteEndsRejected(s: State)
    requires s.code.None? && FavoriteOf(s.form).Some?
    ensures Step(s, Favorite).code == Some(Rejected)
    ensures Step(s, Favorite).favorite == FavoriteOf(s.form)
  {
  }
}
