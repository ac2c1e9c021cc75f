/** The option loop at the start of `main`: each option, already split from the
    command line, overwrites fields of the property record in place, or ends the
    process. */
module Options {
  import opened TrayItem

  const ExitSuccess: int := 0
  const ExitFailure: int := 1

  /** One option as `getopt_long` hands it over: `-h`, `-o`, `-O`, `-i`, `-I`,
      `-t`, `-s` with their arguments, or anything it rejected. */
  datatype Opt =
    | Help
    | CmdOn(cmd: string)
    | CmdOff(cmd: string)
    | IconOn(icon: string)
    | IconOff(icon: string)
    | Title(title: string)
    | State(arg: string)
    | Unrecognized

  /** Either the loop goes on with this record, or the process exits with this
      status. */
  datatype Parsed = Continue(item: Item) | Exit(code: int)

  /** The options that end the process: help, a state other than `on`/`off`,
      and anything `getopt_long` rejected. */
  predicate Stops(o: Opt) {
    o.Help? || o.Unrecognized? || (o.State? && o.arg != "on" && o.arg != "off")
  }

  /** One pass through the `switch`. */
  function ApplyOption(p: Item, o: Opt): (r: Parsed)
    ensures r.Exit? <==> Stops(o)
    ensures r.Exit? ==> r.code == (if o.Help? then ExitSuccess else ExitFailure)
    ensures r.Continue? ==>
      r.item.enabled == p.enabled && r.item.shouldExit == p.shouldExit && SameIdentity(p, r.item)
    ensures r.Continue? && o.State? ==>
      r.item.status == StatusFor(o.arg == "on") && r.item.iconName == IconFor(p, o.arg == "on")
    ensures o.CmdOn? ==> r == Continue(p.(cmdOn := o.cmd))
    ensures o.CmdOff? ==> r == Continue(p.(cmdOff := o.cmd))
    ensures o.IconOn? ==> r == Continue(p.(iconOn := o.icon, iconName := o.icon))
    ensures o.IconOff? ==> r == Continue(p.(iconOff := o.icon, iconName := o.icon))
    ensures o.Title? ==> r == Continue(p.(title := o.title))
    ensures r.Continue? && o.State? ==> r.item == p.(status := r.item.status, iconName := r.item.iconName)
  {
    match o
    case Help => Exit(ExitSuccess)
    case CmdOn(c) => Continue(p.(cmdOn := c))
    case CmdOff(c) => Continue(p.(cmdOff := c))
    case IconOn(i) => Continue(p.(iconOn := i, iconName := i))
    case IconOff(i) => Continue(p.(iconOff := i, iconName := i))
    case Title(t) => Continue(p.(title := t))
    case State(a) =>
      if a == "on" then Continue(p.(status := StatusActive, iconName := p.iconOn))
      else if a == "off" then Continue(p.(status := StatusPassive, iconName := p.iconOff))
      else Exit(ExitFailure)
    case Unrecognized => Exit(ExitFailure)
  }

  /** The whole loop, option by option from the first. */
  function FoldOptions(p: Item, opts: seq<Opt>): (r: Parsed)
    ensures r.Exit? ==> r.code == ExitSuccess || r.code == ExitFailure
    ensures r.Exit? ==> exists k :: 0 <= k < |opts| && Stops(opts[k])
    decreases |opts|
  {
    if opts == [] then Continue(p)
    else match ApplyOption(p, opts[0])
      case Exit(c) => Exit(c)
      case Continue(q) => FoldOptions(q, opts[1..])
  }

  /** The option loop run on the record itself. */
  method ParseOptions(p: Properties, opts: seq<Opt>) returns (exits: bool, code: int)
    modifies p
    ensures match FoldOptions(old(p.Value()), opts)
      case Continue(q) => !exits && p.Value() == q
      case Exit(c) => exits && code == c
    ensures p.signals == old(p.signals)
  {
    var i := 0;
    while i < |opts|
      invariant 0 <= i <= |opts|
      invariant FoldOptions(old(p.Value()), opts) == FoldOptions(p.Value(), opts[i..])
      invariant p.signals == old(p.signals)
    {
      assert opts[i..][0] == opts[i] && opts[i..][1..] == opts[i + 1..];
      match opts[i] {
      case Help =>
        return true, ExitSuccess;
      case CmdOn(c) =>
        p.cmdOn := c;
      case CmdOff(c) =>
        p.cmdOff := c;
      case IconOn(icon) =>
        p.iconOn := icon;
        p.iconName := p.iconOn;
      case IconOff(icon) =>
        p.iconOff := icon;
        p.iconName := p.iconOff;
      case Title(t) =>
        p.title := t;
      case State(a) =>
        if a == "on" {
          p.status := StatusActive;
          p.iconName := p.iconOn;
        } else if a == "off" {
          p.status := StatusPassive;
          p.iconName := p.iconOff;
        } else {
          return true, ExitFailure;
        }
      case Unrecognized =>
        return true, ExitFailure;
      }
      i := i + 1;
    }
    return false, 0;
  }

  /** Running two lists of options one after the other is running their
      concatenation. */
  lemma {:induction false} FoldAppend(p: Item, a: seq<Opt>, b: seq<Opt>)
    ensures FoldOptions(p, a + b) ==
      match FoldOptions(p, a)
      case Exit(c) => Exit(c)
      case Continue(q) => FoldOptions(q, b)
    decreases |a|
  {
    if a != [] {
      assert (a + b)[0] == a[0] && (a + b)[1..] == a[1..] + b;
      match ApplyOption(p, a[0])
      case Exit(c) =>
      case Continue(q) => FoldAppend(q, a[1..], b);
    } else {
      assert a + b == b;
    }
  }

  /** The process exits during option parsing exactly when some option stops it,
      and then with the status the first such option selects. */
  lemma {:induction false} FoldStopsAtFirstStop(p: Item, opts: seq<Opt>, k: nat)
    requires k < |opts| && Stops(opts[k])
    requires forall j :: 0 <= j < k ==> !Stops(opts[j])
    ensures FoldOptions(p, opts) == Exit(if opts[k].Help? then ExitSuccess else ExitFailure)
    decreases k
  {
    if k > 0 {
      var q := ApplyOption(p, opts[0]).item;
      assert forall j :: 0 <= j < k - 1 ==> opts[1..][j] == opts[j + 1];
      FoldStopsAtFirstStop(q, opts[1..], k - 1);
    }
  }

  /** Without a stopping option the loop runs to the end. */
  lemma {:induction false} FoldContinuesWithoutStop(p: Item, opts: seq<Opt>)
    ensures (forall j :: 0 <= j < |opts| ==> !Stops(opts[j])) <==> FoldOptions(p, opts).Continue?
    decreases |opts|
  {
    if opts != [] {
      match ApplyOption(p, opts[0])
      case Exit(c) =>
      case Continue(q) =>
        FoldContinuesWithoutStop(q, opts[1..]);
        assert forall j :: 0 <= j < |opts| - 1 ==> opts[1..][j] == opts[j + 1];
    }
  }

  /** No option touches `enabled`, the exit request or the identity properties:
      in particular `-s on` leaves `enabled` as it was. */
  lemma {:induction false} FoldKeepsEnabled(p: Item, opts: seq<Opt>)
    ensures FoldOptions(p, opts).Continue? ==>
      var q := FoldOptions(p, opts).item;
      q.enabled == p.enabled && q.shouldExit == p.shouldExit && SameIdentity(p, q)
    decreases |opts|
  {
    if opts != [] {
      match ApplyOption(p, opts[0])
      case Exit(c) =>
      case Continue(q) => FoldKeepsEnabled(q, opts[1..]);
    }
  }

  function Last(opts: seq<Opt>): (o: Opt)
    requires opts != []
  {
    opts[|opts| - 1]
  }

  function Init(opts: seq<Opt>): (init: seq<Opt>)
    requires opts != []
  {
    opts[..|opts| - 1]
  }

  /** The on-command named by the last `-o`, or the starting one. */
  function CmdOnAfter(p: Item, opts: seq<Opt>): (s: string)
    decreases |opts|
  {
    if opts == [] then p.cmdOn
    else if Last(opts).CmdOn? then Last(opts).cmd
    else CmdOnAfter(p, Init(opts))
  }

  /** The off-command named by the last `-O`, or the starting one. */
  function CmdOffAfter(p: Item, opts: seq<Opt>): (s: string)
    decreases |opts|
  {
    if opts == [] then p.cmdOff
    else if Last(opts).CmdOff? then Last(opts).cmd
    else CmdOffAfter(p, Init(opts))
  }

  /** The title named by the last `-t`, or the starting one. */
  function TitleAfter(p: Item, opts: seq<Opt>): (s: string)
    decreases |opts|
  {
    if opts == [] then p.title
    else if Last(opts).Title? then Last(opts).title
    else TitleAfter(p, Init(opts))
  }

  /** The on-icon named by the last `-i`, or the starting one. */
  function IconOnAfter(p: Item, opts: seq<Opt>): (s: string)
    decreases |opts|
  {
    if opts == [] then p.iconOn
    else if Last(opts).IconOn? then Last(opts).icon
    else IconOnAfter(p, Init(opts))
  }

  /** The off-icon named by the last `-I`, or the starting one. */
  function IconOffAfter(p: Item, opts: seq<Opt>): (s: string)
    decreases |opts|
  {
    if opts == [] then p.iconOff
    else if Last(opts).IconOff? then Last(opts).icon
    else IconOffAfter(p, Init(opts))
  }

  /** `Status` as chosen by the last valid `-s`, or the starting one. */
  function StatusAfter(p: Item, opts: seq<Opt>): (s: string)
    decreases |opts|
  {
    if opts == [] then p.status
    else if Last(opts) == State("on") then StatusActive
    else if Last(opts) == State("off") then StatusPassive
    else StatusAfter(p, Init(opts))
  }

  /** `IconName` as chosen by the last option that names an icon, whatever the
      state: `-i x` and `-I x` give `x`, `-s on` and `-s off` the on- or off-icon
      in force at that point. */
  function IconNameAfter(p: Item, opts: seq<Opt>): (s: string)
    decreases |opts|
  {
    if opts == [] then p.iconName
    else if Last(opts).IconOn? || Last(opts).IconOff? then Last(opts).icon
    else if Last(opts) == State("on") then IconOnAfter(p, Init(opts))
    else if Last(opts) == State("off") then IconOffAfter(p, Init(opts))
    else IconNameAfter(p, Init(opts))
  }

  /** When the loop runs through, the commands, the icons, the title, `Status`
      and `IconName` are those named by the last option that sets each of them:
      the final `IconName` depends on the order of the options. */
  lemma {:induction false} FoldSetsLastNamed(p: Item, opts: seq<Opt>)
    requires FoldOptions(p, opts).Continue?
    ensures var q := FoldOptions(p, opts).item;
      q.cmdOn == CmdOnAfter(p, opts) && q.cmdOff == CmdOffAfter(p, opts) && q.title == TitleAfter(p, opts) &&
      q.iconOn == IconOnAfter(p, opts) && q.iconOff == IconOffAfter(p, opts) &&
      q.status == StatusAfter(p, opts) && q.iconName == IconNameAfter(p, opts)
    decreases |opts|
  {
    if opts != [] {
      var init, last := Init(opts), Last(opts);
      assert opts == init + [last];
      FoldAppend(p, init, [last]);
      if FoldOptions(p, init).Exit? {
        assert false;
      }
      FoldSetsLastNamed(p, init);
      var q := FoldOptions(p, init).item;
      assert FoldOptions(p, opts) == FoldOptions(q, [last]);
      assert FoldOptions(q, [last]) == ApplyOption(q, last);
    }
  }

  /** `-s on` alone, from the defaults, shows the item as active while it is
      still disabled, so its first activation runs the on-command again. */
  lemma StateOnLeavesDisabled()
    ensures var r := FoldOptions(Defaults(), [State("on")]);
      r.Continue? && r.item.status == StatusActive && !r.item.enabled && !ShowsState(r.item)
  {
  }

  /** `-s off -i x` shows the on-icon `x` on a passive item; the same two options
      in the other order show the off-icon. */
  lemma IconOptionIgnoresState()
    ensures var r := FoldOptions(Defaults(), [State("off"), IconOn("x")]);
      r.Continue? && r.item.iconName == "x" && r.item.status == StatusPassive && !ShowsState(r.item)
    ensures var r := FoldOptions(Defaults(), [IconOn("x"), State("off")]);
      r.Continue? && r.item.iconName == Defaults().iconOff && ShowsState(r.item)
  {
  }
}
