/** `main` as a whole: build the record, apply the options, open the bus,
    export the object, read the unique name, register, then run the event loop;
    the process status is failure exactly when the final `ret` is negative. */
module Program {
  import opened TrayItem
  import opened Options
  import opened Registration
  import opened EventLoop

  /** What the bus answers during start-up, and the script the loop then meets. */
  datatype Bus = Bus(
    openRet: int, vtableRet: int, uniqueRet: int,
    reply: Reply, matchRet: int,
    steps: seq<ProcessStep>)

  /** How the process ends, if it does within the script. */
  datatype Termination = Exits(status: int) | KeepsRunning

  /** `ret < 0 ? EXIT_FAILURE : EXIT_SUCCESS` */
  function ExitStatus(ret: int): (code: int)
    ensures code == ExitFailure <==> ret < 0
    ensures code == ExitSuccess <==> ret >= 0
  {
    if ret < 0 then ExitFailure else ExitSuccess
  }

  /** The whole of `main`, given the options and the bus. */
  function MainOutcome(opts: seq<Opt>, bus: Bus): (t: Termination)
    ensures t.Exits? ==> t.status == ExitSuccess || t.status == ExitFailure
  {
    match FoldOptions(Defaults(), opts)
    case Exit(c) => Exits(c)
    case Continue(p) =>
      if bus.openRet < 0 then Exits(ExitStatus(bus.openRet))
      else if bus.vtableRet < 0 then Exits(ExitStatus(bus.vtableRet))
      else if bus.uniqueRet < 0 then Exits(ExitStatus(bus.uniqueRet))
      else match AfterRegistration(bus.uniqueRet, bus.reply, bus.matchRet)
        case Finish(ret) => Exits(ExitStatus(ret))
        case EnterLoop(matches) =>
          var r := Loop(p, matches > 0, bus.steps);
          if r.end.Unfinished? then KeepsRunning else Exits(ExitStatus(FinalRet(r.end)))
  }

  /** `main`, step by step, with `ret` carried from call to call. */
  method Run(opts: seq<Opt>, bus: Bus) returns (t: Termination)
    ensures t == MainOutcome(opts, bus)
  {
    var properties := new Properties();
    var exits, code := ParseOptions(properties, opts);
    if exits {
      return Exits(code);
    }
    var ret := bus.openRet;
    if ret < 0 {
      return Exits(ExitStatus(ret));
    }
    ret := bus.vtableRet;
    if ret < 0 {
      return Exits(ExitStatus(ret));
    }
    ret := bus.uniqueRet;
    if ret < 0 {
      return Exits(ExitStatus(ret));
    }
    var next := AfterRegistration(ret, bus.reply, bus.matchRet);
    if next.Finish? {
      return Exits(ExitStatus(next.ret));
    }
    var end, _ := RunLoop(properties, next.matches > 0, bus.steps);
    if end.Unfinished? {
      return KeepsRunning;
    }
    ret := FinalRet(end);
    return Exits(ExitStatus(ret));
  }

  predicate StartsUp(bus: Bus) {
    bus.openRet >= 0 && bus.vtableRet >= 0 && bus.uniqueRet >= 0
  }

  /** A watcher that rejects the registration for any reason other than being
      absent sends the process to its exit with `ret` still holding the unique
      name's non-negative result: the process reports success. */
  lemma RejectedRegistrationExitsSuccessfully(opts: seq<Opt>, bus: Bus)
    requires FoldOptions(Defaults(), opts).Continue? && StartsUp(bus)
    requires bus.reply.Failed? && bus.reply.error.name != ServiceUnknown
    ensures MainOutcome(opts, bus) == Exits(ExitSuccess)
  {
  }

  /** Once the options are accepted, the process exits with success only after
      the loop stopped on a secondary action it dispatched, or after a
      registration rejected for a reason other than an absent watcher. */
  lemma {:induction false} SuccessNeedsExitRequestOrRejection(opts: seq<Opt>, bus: Bus)
    requires FoldOptions(Defaults(), opts).Continue?
    requires MainOutcome(opts, bus) == Exits(ExitSuccess)
    ensures StartsUp(bus)
    ensures var used := Loop(FoldOptions(Defaults(), opts).item,
                             Classify(bus.reply).ServiceUnavailable?, bus.steps).consumed;
      Classify(bus.reply).OtherFailure? ||
      exists k :: 0 <= k < used && bus.steps[k].Processed? && bus.steps[k].msg.SecondaryActivateCall?
  {
    var p := FoldOptions(Defaults(), opts).item;
    FoldKeepsEnabled(Defaults(), opts);
    if !Classify(bus.reply).OtherFailure? {
      var subscribed := Classify(bus.reply).ServiceUnavailable?;
      LoopEnds(p, subscribed, bus.steps);
      StopNeedsSecondaryActivate(p, subscribed, bus.steps);
    }
  }

  /** A failure while starting up, or a failure to install the NameOwnerChanged
      match when the watcher is absent, ends the process with `EXIT_FAILURE`. */
  lemma StartUpFailureExitsWithFailure(opts: seq<Opt>, bus: Bus)
    requires FoldOptions(Defaults(), opts).Continue?
    requires !StartsUp(bus) || (Classify(bus.reply).ServiceUnavailable? && bus.matchRet < 0)
    ensures MainOutcome(opts, bus) == Exits(ExitFailure)
  {
  }

  /** A negative process or wait result the loop reaches ends the process with
      `EXIT_FAILURE`. */
  lemma LoopFailureExitsWithFailure(opts: seq<Opt>, bus: Bus, k: nat)
    requires FoldOptions(Defaults(), opts).Continue? && StartsUp(bus)
    requires AfterRegistration(bus.uniqueRet, bus.reply, bus.matchRet).EnterLoop?
    requires FailsAt(FoldOptions(Defaults(), opts).item,
                     AfterRegistration(bus.uniqueRet, bus.reply, bus.matchRet).matches > 0, bus.steps, k)
    ensures MainOutcome(opts, bus) == Exits(ExitFailure)
  {
    FailureEndsLoop(FoldOptions(Defaults(), opts).item,
                    AfterRegistration(bus.uniqueRet, bus.reply, bus.matchRet).matches > 0, bus.steps, k);
  }

  /** `-h` ends the process with `EXIT_SUCCESS` and a rejected option with
      `EXIT_FAILURE`, whichever option comes first, before the bus is touched. */
  lemma OptionsDecideExit(opts: seq<Opt>, bus: Bus, k: nat)
    requires k < |opts| && Stops(opts[k])
    requires forall j :: 0 <= j < k ==> !Stops(opts[j])
    ensures MainOutcome(opts, bus) == Exits(if opts[k].Help? then ExitSuccess else ExitFailure)
  {
    FoldStopsAtFirstStop(Defaults(), opts, k);
  }

  /** The `break` at a quiescent point leaves `ret` at 0: `EXIT_SUCCESS`. */
  lemma CleanStopExitsSuccessfully(opts: seq<Opt>, bus: Bus)
    requires FoldOptions(Defaults(), opts).Continue? && StartsUp(bus)
    requires AfterRegistration(bus.uniqueRet, bus.reply, bus.matchRet).EnterLoop?
    requires Loop(FoldOptions(Defaults(), opts).item,
                  AfterRegistration(bus.uniqueRet, bus.reply, bus.matchRet).matches > 0, bus.steps).end == Stopped
    ensures MainOutcome(opts, bus) == Exits(ExitSuccess)
  {
  }

  /** A secondary action the loop reaches, followed by a zero process result
      with only processed messages in between, ends the process with
      `EXIT_SUCCESS`. */
  lemma SecondaryActivateExitsSuccessfully(opts: seq<Opt>, bus: Bus, k: nat, m: nat)
    requires FoldOptions(Defaults(), opts).Continue? && StartsUp(bus)
    requires AfterRegistration(bus.uniqueRet, bus.reply, bus.matchRet).EnterLoop?
    requires k < m < |bus.steps|
    requires Loop(FoldOptions(Defaults(), opts).item,
                  AfterRegistration(bus.uniqueRet, bus.reply, bus.matchRet).matches > 0,
                  bus.steps[..k]).end.Unfinished?
    requires bus.steps[k].Processed? && bus.steps[k].msg.SecondaryActivateCall?
    requires bus.steps[m].Idle?
    requires forall j :: k < j < m ==> bus.steps[j].Processed?
    ensures MainOutcome(opts, bus) == Exits(ExitSuccess)
  {
    ExitAfterSecondaryActivate(FoldOptions(Defaults(), opts).item,
      AfterRegistration(bus.uniqueRet, bus.reply, bus.matchRet).matches > 0, bus.steps, k, m);
  }
}
