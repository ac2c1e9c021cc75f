/** The tray item's property record (`Properties` in main.c) and its two action
    handlers, `Activate` (toggle) and `SecondaryActivate` (request exit). */
module TrayItem {

  /** The two values the exported `Status` property takes. */
  const StatusActive: string := "Active"
  const StatusPassive: string := "Passive"

  type Byte = x: int | 0 <= x < 256
  type U32 = x: int | 0 <= x < 0x1_0000_0000

  /** What `system()` reported for the command it was given: no child could be
      started (`-1`), or the child's exit-status byte. */
  datatype CommandResult = SpawnFailed | Exited(status: Byte)

  /** The handler treats a command as successful when a child ran and its
      exit-status byte is zero. */
  predicate Succeeded(r: CommandResult) {
    r.Exited? && r.status == 0
  }

  /** The two payload-less signals the item emits on its object path. */
  datatype Signal = NewIcon | NewStatus

  /** The value of the property record: private configuration first, then the
      properties exported over the bus. */
  datatype Item = Item(
    cmdOn: string, cmdOff: string, iconOn: string, iconOff: string,
    enabled: bool, shouldExit: bool,
    category: string, id: string, title: string, status: string, iconName: string,
    windowId: U32, itemIsMenu: bool)

  function StatusFor(enabled: bool): (s: string) {
    if enabled then StatusActive else StatusPassive
  }

  function IconFor(p: Item, enabled: bool): (icon: string) {
    if enabled then p.iconOn else p.iconOff
  }

  /** The exported `Status` and `IconName` describe the `enabled` flag. */
  predicate ShowsState(p: Item) {
    p.status == StatusFor(p.enabled) && p.iconName == IconFor(p, p.enabled)
  }

  /** The fields nothing after start-up ever writes: the identity properties. */
  predicate SameIdentity(a: Item, b: Item) {
    a.category == b.category && a.id == b.id &&
    a.windowId == b.windowId && a.itemIsMenu == b.itemIsMenu
  }

  /** Everything except `enabled`, `Status` and `IconName` is equal. */
  predicate SameSetup(a: Item, b: Item) {
    SameIdentity(a, b) &&
    a.cmdOn == b.cmdOn && a.cmdOff == b.cmdOff &&
    a.iconOn == b.iconOn && a.iconOff == b.iconOff &&
    a.shouldExit == b.shouldExit && a.title == b.title
  }

  /** The record's initial value, before any option is applied. */
  function Defaults(): (d: Item)
    ensures !d.enabled && !d.shouldExit && ShowsState(d)
    ensures d.status == StatusPassive && d.iconName == d.iconOff
  {
    Item(
      "echo Enabled", "echo Disabled", "checkbox-checked-symbolic", "checkbox-symbolic",
      false, false,
      "SystemServices", "Toggler", "Toggler", StatusPassive, "checkbox-symbolic",
      0, false)
  }

  /** The outcome of one activation: the command handed to `system()`, the new
      record, the handler's return value and the signals sent, in order. */
  datatype Activation = Activation(command: string, item: Item, ret: int, emitted: seq<Signal>)

  /** Primary action. `system` stands for `system()`; `iconSent` and `statusSent`
      for the results of sending `NewIcon` and `NewStatus` (negative: not sent). */
  function Activated(p: Item, system: string -> CommandResult, iconSent: int, statusSent: int): (r: Activation)
    ensures r.command == (if p.enabled then p.cmdOff else p.cmdOn)
    ensures !Succeeded(system(r.command)) ==> r.item == p && r.ret == 0 && r.emitted == []
    ensures Succeeded(system(r.command)) ==>
      r.item.enabled == !p.enabled && ShowsState(r.item) && SameSetup(p, r.item)
    ensures Succeeded(system(r.command)) && iconSent < 0 ==>
      r.ret == iconSent && r.emitted == []
    ensures Succeeded(system(r.command)) && iconSent >= 0 && statusSent < 0 ==>
      r.ret == statusSent && r.emitted == [NewIcon]
    ensures Succeeded(system(r.command)) && iconSent >= 0 && statusSent >= 0 ==>
      r.ret == 0 && r.emitted == [NewIcon, NewStatus]
  {
    var command := if p.enabled then p.cmdOff else p.cmdOn;
    if !Succeeded(system(command)) then
      Activation(command, p, 0, [])
    else
      var q := p.(iconName := if p.enabled then p.iconOff else p.iconOn,
                  status := if p.enabled then StatusPassive else StatusActive,
                  enabled := !p.enabled);
      if iconSent < 0 then Activation(command, q, iconSent, [])
      else if statusSent < 0 then Activation(command, q, statusSent, [NewIcon])
      else Activation(command, q, 0, [NewIcon, NewStatus])
  }

  /** Secondary action: only the exit request changes. */
  function Exiting(p: Item): (q: Item)
    ensures q.shouldExit && q.enabled == p.enabled && SameIdentity(p, q)
    ensures q.status == p.status && q.iconName == p.iconName && q.title == p.title
    ensures q.cmdOn == p.cmdOn && q.cmdOff == p.cmdOff && q.iconOn == p.iconOn && q.iconOff == p.iconOff
    ensures q.(shouldExit := true) == q
  {
    p.(shouldExit := true)
  }

  /** The property record as the handlers see it: one object whose fields they
      overwrite in place. `signals` logs every signal sent from this object. */
  class Properties {
    var cmdOn: string
    var cmdOff: string
    var iconOn: string
    var iconOff: string
    var enabled: bool
    var shouldExit: bool
    var category: string
    var id: string
    var title: string
    var status: string
    var iconName: string
    var windowId: U32
    var itemIsMenu: bool
    ghost var signals: seq<Signal>

    function Value(): (v: Item)
      reads this
    {
      Item(cmdOn, cmdOff, iconOn, iconOff, enabled, shouldExit,
           category, id, title, status, iconName, windowId, itemIsMenu)
    }

    constructor ()
      ensures Value() == Defaults() && signals == []
    {
      var d := Defaults();
      cmdOn, cmdOff, iconOn, iconOff := d.cmdOn, d.cmdOff, d.iconOn, d.iconOff;
      enabled, shouldExit := d.enabled, d.shouldExit;
      category, id, title := d.category, d.id, d.title;
      status, iconName := d.status, d.iconName;
      windowId, itemIsMenu := d.windowId, d.itemIsMenu;
      signals := [];
    }

    /** Runs the command for the current state; only when it succeeded are
        `IconName`, `Status` and `enabled` rewritten and the two signals sent. */
    method Activate(system: string -> CommandResult, iconSent: int, statusSent: int) returns (ret: int)
      modifies this
      ensures var r := Activated(old(Value()), system, iconSent, statusSent);
        Value() == r.item && ret == r.ret && signals == old(signals) + r.emitted
    {
      var command := if enabled then cmdOff else cmdOn;
      if !Succeeded(system(command)) {
        return 0;
      }
      iconName := if enabled then iconOff else iconOn;
      status := if enabled then StatusPassive else StatusActive;
      enabled := !enabled;
      if iconSent < 0 {
        return iconSent;
      }
      signals := signals + [NewIcon];
      if statusSent < 0 {
        return statusSent;
      }
      signals := signals + [NewStatus];
      return 0;
    }

    /** Raises the exit request and nothing else. */
    method SecondaryActivate()
      modifies this
      ensures Value() == Exiting(old(Value())) && signals == old(signals)
    {
      shouldExit := true;
    }
  }

  /** One invocation of the primary action, with what the world answered. */
  datatype Click = Click(system: string -> CommandResult, iconSent: int, statusSent: int)

  /** The record and the signals after a series of primary actions. */
  function Replay(p: Item, cs: seq<Click>): (r: (Item, seq<Signal>))
    decreases |cs|
  {
    if cs == [] then (p, [])
    else
      var a := Activated(p, cs[0].system, cs[0].iconSent, cs[0].statusSent);
      var rest := Replay(a.item, cs[1..]);
      (rest.0, a.emitted + rest.1)
  }

  /** Both configured commands succeed on this click. */
  predicate BothSucceed(c: Click, p: Item) {
    Succeeded(c.system(p.cmdOn)) && Succeeded(c.system(p.cmdOff))
  }

  /** The command this click runs from `p` fails. */
  predicate CommandFails(c: Click, p: Item) {
    !Succeeded(c.system(if p.enabled then p.cmdOff else p.cmdOn))
  }

  predicate SendsSucceed(c: Click) {
    c.iconSent >= 0 && c.statusSent >= 0
  }

  /** `n` rounds of `NewIcon` followed by `NewStatus`. */
  function Notifications(n: nat): (s: seq<Signal>)
    ensures |s| == 2 * n
  {
    if n == 0 then [] else [NewIcon, NewStatus] + Notifications(n - 1)
  }

  /** While both configured commands succeed, `enabled` alternates with each activation
      (sending the signals may fail: the flip is never undone), and afterwards
      `Status` and `IconName` agree with it. */
  lemma {:induction false} SuccessfulClicksAlternate(p: Item, cs: seq<Click>)
    requires forall i :: 0 <= i < |cs| ==> BothSucceed(cs[i], p)
    ensures Replay(p, cs).0.enabled == (p.enabled != (|cs| % 2 == 1))
    ensures |cs| > 0 ==> ShowsState(Replay(p, cs).0)
    ensures SameSetup(p, Replay(p, cs).0)
    decreases |cs|
  {
    if cs != [] {
      var a := Activated(p, cs[0].system, cs[0].iconSent, cs[0].statusSent);
      assert Succeeded(cs[0].system(a.command));
      SuccessfulClicksAlternate(a.item, cs[1..]);
    }
  }

  /** When both configured commands succeed and every signal is sent, each activation
      contributes exactly one `NewIcon` followed by one `NewStatus`. */
  lemma {:induction false} SuccessfulClicksNotify(p: Item, cs: seq<Click>)
    requires forall i :: 0 <= i < |cs| ==> BothSucceed(cs[i], p) && SendsSucceed(cs[i])
    ensures Replay(p, cs).1 == Notifications(|cs|)
    decreases |cs|
  {
    if cs != [] {
      var a := Activated(p, cs[0].system, cs[0].iconSent, cs[0].statusSent);
      assert Succeeded(cs[0].system(a.command));
      SuccessfulClicksNotify(a.item, cs[1..]);
    }
  }

  /** When the command each activation runs fails, activations change nothing
      and send nothing. */
  lemma {:induction false} FailedClicksChangeNothing(p: Item, cs: seq<Click>)
    requires forall i :: 0 <= i < |cs| ==> CommandFails(cs[i], p)
    ensures Replay(p, cs) == (p, [])
    decreases |cs|
  {
    if cs != [] {
      var a := Activated(p, cs[0].system, cs[0].iconSent, cs[0].statusSent);
      assert !Succeeded(cs[0].system(a.command));
      assert a.item == p && a.emitted == [];
      FailedClicksChangeNothing(p, cs[1..]);
      assert Replay(p, cs[1..]) == (p, []);
      assert [] + Replay(p, cs[1..]).1 == [];
    }
  }

  /** The scenario of a command pair that always succeeds ("true") and always
      fails ("false"), starting disabled: the first activation switches on, the
      second runs the failing off-command and leaves the item on. */
  method TrueFalseScenario()
  {
    var p := new Properties();
    p.cmdOn, p.cmdOff := "true", "false";
    var system := (c: string) => if c == "true" then Exited(0) else Exited(1);
    var ret := p.Activate(system, 0, 0);
    assert ret == 0 && p.enabled && p.status == StatusActive;
    assert p.signals == [NewIcon, NewStatus];
    ret := p.Activate(system, 0, 0);
    assert ret == 0 && p.enabled && p.status == StatusActive;
    assert p.signals == [NewIcon, NewStatus];
  }
}
