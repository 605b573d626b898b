/**
 * `RDPWidget`: the tab page that embeds the Remote Desktop ActiveX control.
 * The control is foreign; what the widget does to it is recorded as the
 * ordered list of property assignments it makes and the number of times it
 * calls `Connect()`.
 */
module Rdp {
  import opened Wrappers

  const DefaultPort := 3389
  const FallbackWidth := 900
  const FallbackHeight := 600

  /** The connection parameters a widget is built with (`_rdp_config`). */
  datatype Config = Config(host: string, username: string, password: string,
                           domain: string, port: int, nla: bool)

  /**
   * The session resolution chosen from the control's size: each side is kept
   * when positive and falls back to 900 x 600 otherwise
   * (`_get_initial_size`, and the first lines of `showEvent`).
   */
  function InitialSize(width: int, height: int): (size: (int, int))
    ensures size.0 > 0 && size.1 > 0
    ensures size.0 == (if width > 0 then width else FallbackWidth)
    ensures size.1 == (if height > 0 then height else FallbackHeight)
  {
    (if width > 0 then width else FallbackWidth, if height > 0 then height else FallbackHeight)
  }

  /** The control itself, or its `AdvancedSettings` sub-object. */
  datatype Target = Control | Advanced

  /** The properties `showEvent` sets, named as the control names them. */
  datatype Property =
    | Server | UserName | Domain | DesktopWidth | DesktopHeight
    | ClearTextPassword | AuthenticationLevel | RDPPort | DisplayConnectionBar

  datatype Setting = Text(s: string) | Number(n: int) | Flag(b: bool)

  /** One `setProperty(name, value)` call. */
  datatype Assignment = Assignment(target: Target, name: Property, value: Setting)

  function Assign(t: Target, name: Property, value: Setting): seq<Assignment> {
    [Assignment(t, name, value)]
  }

  /** The assignments `showEvent` makes on the `AdvancedSettings` object, when there is one. */
  function AdvancedAssignments(c: Config, width: int, height: int): (r: seq<Assignment>)
    ensures forall a :: a in r ==> a.target == Advanced
  {
    Assign(Advanced, ClearTextPassword, Text(c.password))
    + Assign(Advanced, AuthenticationLevel, Number(if c.nla then 2 else 0))
    + (if c.port != DefaultPort then Assign(Advanced, RDPPort, Number(c.port)) else [])
    + Assign(Advanced, DisplayConnectionBar, Flag(true))
    + Assign(Advanced, DesktopWidth, Number(width))
    + Assign(Advanced, DesktopHeight, Number(height))
  }

  /** The assignments `showEvent` makes on the control itself. */
  function ControlAssignments(c: Config, width: int, height: int): (r: seq<Assignment>)
    ensures forall a :: a in r ==> a.target == Control
  {
    Assign(Control, Server, Text(c.host))
    + Assign(Control, UserName, Text(c.username))
    + (if c.domain != "" then Assign(Control, Domain, Text(c.domain)) else [])
    + Assign(Control, DesktopWidth, Number(width))
    + Assign(Control, DesktopHeight, Number(height))
  }

  /**
   * The assignments `showEvent` makes, in order, for a session of
   * `width` x `height`; `advanced` says whether the control handed out its
   * `AdvancedSettings` object. It makes four or five calls on the control
   * and, with the object, five or six on it.
   */
  function ConnectAssignments(c: Config, width: int, height: int, advanced: bool): (r: seq<Assignment>)
    ensures |r| == (if c.domain != "" then 5 else 4) + (if advanced then (if c.port != DefaultPort then 6 else 5) else 0)
  {
    ControlAssignments(c, width, height) + (if advanced then AdvancedAssignments(c, width, height) else [])
  }

  /** The value a property holds after the assignments in `log`: the last one made to it. */
  function Effective(log: seq<Assignment>, t: Target, name: Property): Option<Setting> {
    if log == [] then None
    else
      var a := log[|log| - 1];
      if a.target == t && a.name == name then Some(a.value)
      else Effective(log[..|log| - 1], t, name)
  }

  /** Later assignments win; a property the later ones leave alone keeps its earlier value. */
  lemma {:induction false} EffectiveAppend(a: seq<Assignment>, b: seq<Assignment>, t: Target, name: Property)
    ensures Effective(a + b, t, name)
         == if Effective(b, t, name).Some? then Effective(b, t, name) else Effective(a, t, name)
  {
    if b == [] {
      assert a + b == a;
    } else {
      assert (a + b)[..|a + b| - 1] == a + b[..|b| - 1];
      EffectiveAppend(a, b[..|b| - 1], t, name);
    }
  }

  /** A single assignment sets exactly the property it names. */
  lemma EffectiveOne(t': Target, name': Property, v: Setting, t: Target, name: Property)
    ensures Effective(Assign(t', name', v), t, name) == if t' == t && name' == name then Some(v) else None
  {
    assert Assign(t', name', v)[..0] == [];
  }

  /** Appending at most one assignment. */
  lemma EffectiveSnoc(log: seq<Assignment>, extra: seq<Assignment>, t: Target, name: Property)
    requires |extra| <= 1
    ensures Effective(log + extra, t, name)
         == if extra != [] && extra[0].target == t && extra[0].name == name then Some(extra[0].value)
            else Effective(log, t, name)
  {
    if extra == [] {
      assert log + extra == log;
    } else {
      assert (log + extra)[..|log|] == log;
    }
  }

  /** A property that no assignment in `log` names has no value. */
  lemma {:induction false} EffectiveOfOthers(log: seq<Assignment>, t: Target, name: Property)
    requires forall i :: 0 <= i < |log| ==> log[i].target != t || log[i].name != name
    ensures Effective(log, t, name) == None
  {
    if log != [] {
      EffectiveOfOthers(log[..|log| - 1], t, name);
    }
  }

  /**
   * What a session's control is left with after `showEvent`: the server and
   * user always, the domain only when it is not empty, and the desktop
   * resolution equal to the chosen size.
   */
  lemma ConnectControlSettings(c: Config, width: int, height: int, advanced: bool)
    ensures var log := ConnectAssignments(c, width, height, advanced);
      && Effective(log, Control, Server) == Some(Text(c.host))
      && Effective(log, Control, UserName) == Some(Text(c.username))
      && Effective(log, Control, Domain) == (if c.domain != "" then Some(Text(c.domain)) else None)
      && Effective(log, Control, DesktopWidth) == Some(Number(width))
      && Effective(log, Control, DesktopHeight) == Some(Number(height))
  {
    ControlSetting(c, width, height, advanced, Server);
    ControlSetting(c, width, height, advanced, UserName);
    ControlSetting(c, width, height, advanced, Domain);
    ControlSetting(c, width, height, advanced, DesktopWidth);
    ControlSetting(c, width, height, advanced, DesktopHeight);
  }

  /** The value `showEvent` leaves in one property of the control. */
  lemma ControlSetting(c: Config, width: int, height: int, advanced: bool, name: Property)
    ensures Effective(ConnectAssignments(c, width, height, advanced), Control, name)
         == if name == DesktopHeight then Some(Number(height))
            else if name == DesktopWidth then Some(Number(width))
            else if name == Domain && c.domain != "" then Some(Text(c.domain))
            else if name == UserName then Some(Text(c.username))
            else if name == Server then Some(Text(c.host))
            else None
  {
    var adv := if advanced then AdvancedAssignments(c, width, height) else [];
    assert forall i | 0 <= i < |adv| :: adv[i].target == Advanced by {
      forall i | 0 <= i < |adv| ensures adv[i].target == Advanced {
        assert adv[i] in adv;
      }
    }
    EffectiveOfOthers(adv, Control, name);
    EffectiveAppend(ControlAssignments(c, width, height), adv, Control, name);
    ControlSettingsOf(c, width, height, name);
  }

  lemma ControlSettingsOf(c: Config, width: int, height: int, name: Property)
    ensures Effective(ControlAssignments(c, width, height), Control, name)
         == if name == DesktopHeight then Some(Number(height))
            else if name == DesktopWidth then Some(Number(width))
            else if name == Domain && c.domain != "" then Some(Text(c.domain))
            else if name == UserName then Some(Text(c.username))
            else if name == Server then Some(Text(c.host))
            else None
  {
    var p1 := Assign(Control, Server, Text(c.host));
    var p2 := p1 + Assign(Control, UserName, Text(c.username));
    var p3 := p2 + (if c.domain != "" then Assign(Control, Domain, Text(c.domain)) else []);
    var p4 := p3 + Assign(Control, DesktopWidth, Number(width));
    EffectiveOne(Control, Server, Text(c.host), Control, name);
    EffectiveSnoc(p1, Assign(Control, UserName, Text(c.username)), Control, name);
    EffectiveSnoc(p2, if c.domain != "" then Assign(Control, Domain, Text(c.domain)) else [], Control, name);
    EffectiveSnoc(p3, Assign(Control, DesktopWidth, Number(width)), Control, name);
    EffectiveSnoc(p4, Assign(Control, DesktopHeight, Number(height)), Control, name);
  }

  /**
   * What the `AdvancedSettings` object is left with after `showEvent`:
   * the password, authentication level 2 with NLA and 0 without, the port only
   * when it is not 3389, the connection bar on, and the desktop resolution;
   * nothing at all when the control has no such object.
   */
  lemma ConnectAdvancedSettings(c: Config, width: int, height: int, advanced: bool)
    ensures var log := ConnectAssignments(c, width, height, advanced);
      && Effective(log, Advanced, ClearTextPassword) == (if advanced then Some(Text(c.password)) else None)
      && Effective(log, Advanced, AuthenticationLevel)
         == (if advanced then Some(Number(if c.nla then 2 else 0)) else None)
      && Effective(log, Advanced, RDPPort)
         == (if advanced && c.port != DefaultPort then Some(Number(c.port)) else None)
      && Effective(log, Advanced, DisplayConnectionBar) == (if advanced then Some(Flag(true)) else None)
      && Effective(log, Advanced, DesktopWidth) == (if advanced then Some(Number(width)) else None)
      && Effective(log, Advanced, DesktopHeight) == (if advanced then Some(Number(height)) else None)
  {
    ControlPartLeavesAdvanced(c, width, height, advanced, ClearTextPassword);
    ControlPartLeavesAdvanced(c, width, height, advanced, AuthenticationLevel);
    ControlPartLeavesAdvanced(c, width, height, advanced, RDPPort);
    ControlPartLeavesAdvanced(c, width, height, advanced, DisplayConnectionBar);
    ControlPartLeavesAdvanced(c, width, height, advanced, DesktopWidth);
    ControlPartLeavesAdvanced(c, width, height, advanced, DesktopHeight);
    if advanced {
      AdvancedSettingsOf(c, width, height);
    }
  }

  /** The assignments to the control itself do not touch `AdvancedSettings`. */
  lemma ControlPartLeavesAdvanced(c: Config, width: int, height: int, advanced: bool, name: Property)
    ensures Effective(ConnectAssignments(c, width, height, advanced), Advanced, name)
         == Effective(if advanced then AdvancedAssignments(c, width, height) else [], Advanced, name)
  {
    var control := ControlAssignments(c, width, height);
    assert forall i | 0 <= i < |control| :: control[i].target == Control by {
      forall i | 0 <= i < |control| ensures control[i].target == Control {
        assert control[i] in control;
      }
    }
    EffectiveOfOthers(control, Advanced, name);
    EffectiveAppend(control, if advanced then AdvancedAssignments(c, width, height) else [], Advanced, name);
  }

  lemma AdvancedSettingsOf(c: Config, width: int, height: int)
    ensures var log := AdvancedAssignments(c, width, height);
      && Effective(log, Advanced, ClearTextPassword) == Some(Text(c.password))
      && Effective(log, Advanced, AuthenticationLevel) == Some(Number(if c.nla then 2 else 0))
      && Effective(log, Advanced, RDPPort) == (if c.port != DefaultPort then Some(Number(c.port)) else None)
      && Effective(log, Advanced, DisplayConnectionBar) == Some(Flag(true))
      && Effective(log, Advanced, DesktopWidth) == Some(Number(width))
      && Effective(log, Advanced, DesktopHeight) == Some(Number(height))
  {
    var level := Number(if c.nla then 2 else 0);
    var port := if c.port != DefaultPort then Assign(Advanced, RDPPort, Number(c.port)) else [];
    var p1 := Assign(Advanced, ClearTextPassword, Text(c.password));
    var p2 := p1 + Assign(Advanced, AuthenticationLevel, level);
    var p3 := p2 + port;
    var p4 := p3 + Assign(Advanced, DisplayConnectionBar, Flag(true));
    var p5 := p4 + Assign(Advanced, DesktopWidth, Number(width));
    var p6 := p5 + Assign(Advanced, DesktopHeight, Number(height));
    assert AdvancedAssignments(c, width, height) == p6;
    forall name: Property
      ensures Effective(p6, Advanced, name)
           == if name == DesktopHeight then Some(Number(height))
              else if name == DesktopWidth then Some(Number(width))
              else if name == DisplayConnectionBar then Some(Flag(true))
              else if name == RDPPort && c.port != DefaultPort then Some(Number(c.port))
              else if name == AuthenticationLevel then Some(level)
              else if name == ClearTextPassword then Some(Text(c.password))
              else None
    {
      EffectiveOne(Advanced, ClearTextPassword, Text(c.password), Advanced, name);
      EffectiveSnoc(p1, Assign(Advanced, AuthenticationLevel, level), Advanced, name);
      EffectiveSnoc(p2, port, Advanced, name);
      EffectiveSnoc(p3, Assign(Advanced, DisplayConnectionBar, Flag(true)), Advanced, name);
      EffectiveSnoc(p4, Assign(Advanced, DesktopWidth, Number(width)), Advanced, name);
      EffectiveSnoc(p5, Assign(Advanced, DesktopHeight, Number(height)), Advanced, name);
    }
  }

  /**
   * The widget. Its size and the control's visible size are set by Qt's
   * layout; the control's property assignments and `Connect()` calls are
   * what the widget does to the foreign control.
   */
  class RdpWidget {
    const config: Config
    var width: int
    var height: int
    var controlWidth: int
    var controlHeight: int
    var log: seq<Assignment>
    var connects: nat

    /** `__init__`: stores the configuration and neither sets a property nor connects. */
    constructor (config: Config, width: int, height: int)
      ensures this.config == config
      ensures this.width == width && this.height == height
      ensures controlWidth == width && controlHeight == height
      ensures log == [] && connects == 0
    {
      this.config := config;
      this.width, this.height := width, height;
      controlWidth, controlHeight := width, height;
      log, connects := [], 0;
    }

    /** The session's desktop resolution as last assigned to the control. */
    function Resolution(): (Option<Setting>, Option<Setting>)
      reads this
    {
      (Effective(log, Control, DesktopWidth), Effective(log, Control, DesktopHeight))
    }

    /**
     * `showEvent`: assigns the connection properties for a session as large
     * as the control (900 x 600 when it has no size yet) and connects. It
     * connects on every show, not only the first.
     */
    method ShowEvent(advanced: bool)
      modifies this
      ensures log == old(log) + ConnectAssignments(config, InitialSize(controlWidth, controlHeight).0,
                                                   InitialSize(controlWidth, controlHeight).1, advanced)
      ensures connects == old(connects) + 1
      ensures var size := InitialSize(controlWidth, controlHeight);
        Resolution() == (Some(Number(size.0)), Some(Number(size.1)))
      ensures width == old(width) && height == old(height)
      ensures controlWidth == old(controlWidth) && controlHeight == old(controlHeight)
    {
      var size := InitialSize(controlWidth, controlHeight);
      var added := ConnectAssignments(config, size.0, size.1, advanced);
      ConnectControlSettings(config, size.0, size.1, advanced);
      EffectiveAppend(log, added, Control, DesktopWidth);
      EffectiveAppend(log, added, Control, DesktopHeight);
      log := log + added;
      connects := connects + 1;
    }

    /**
     * `resizeEvent`: the control is resized to the widget's new size; no
     * property is assigned, so the session resolution stays what it was.
     */
    method ResizeEvent(newWidth: int, newHeight: int)
      modifies this
      ensures width == newWidth && height == newHeight
      ensures controlWidth == newWidth && controlHeight == newHeight
      ensures log == old(log) && connects == old(connects)
      ensures Resolution() == old(Resolution())
    {
      width, height := newWidth, newHeight;
      controlWidth, controlHeight := newWidth, newHeight;
    }
  }
}
