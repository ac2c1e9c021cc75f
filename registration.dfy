/** Registration with the StatusNotifierWatcher: how `main` branches on the
    outcome of the first attempt, and the handler that retries when the
    watcher's name changes owner. */
module Registration {

  /** The D-Bus error name for a call to a name that no connection owns. */
  const ServiceUnknown: string := "org.freedesktop.DBus.Error.ServiceUnknown"

  type Errno = x: int | x > 0 witness 5

  /** The error a bus call filled in: its D-Bus name and message, with the
      errno sd-bus associates with that name. */
  datatype BusError = BusError(name: string, message: string, errno: Errno)

  /** The error slot of a call: untouched, or set. */
  datatype Reply = NoError | Failed(error: BusError)

  /** The three ways one registration attempt can end. */
  datatype Outcome = Registered | ServiceUnavailable | OtherFailure(message: string)

  /** Reads the reply of `RegisterStatusNotifierItem`. */
  function Classify(reply: Reply): (r: Outcome)
    ensures r.Registered? <==> reply.NoError?
    ensures r.ServiceUnavailable? <==> reply.Failed? && reply.error.name == ServiceUnknown
    ensures r.OtherFailure? <==> reply.Failed? && reply.error.name != ServiceUnknown
    ensures r.OtherFailure? ==> r.message == reply.error.message
  {
    match reply
    case NoError => Registered
    case Failed(e) => if e.name == ServiceUnknown then ServiceUnavailable else OtherFailure(e.message)
  }

  /** Where `main` goes after the first registration attempt: into the event
      loop with this many name-owner matches installed, or straight to its exit
      with `ret` holding this value. */
  datatype Next = EnterLoop(matches: nat) | Finish(ret: int)

  /** `ret` holds the non-negative result of reading the unique name; `matchRet`
      is what installing the NameOwnerChanged match would return. */
  function AfterRegistration(ret: int, reply: Reply, matchRet: int): (r: Next)
    requires ret >= 0
    ensures Classify(reply).Registered? ==> r == EnterLoop(0)
    ensures Classify(reply).ServiceUnavailable? ==>
      r == (if matchRet < 0 then Finish(matchRet) else EnterLoop(1))
    ensures Classify(reply).OtherFailure? ==> r == Finish(ret)
    ensures r.Finish? ==> (r.ret < 0 <==> Classify(reply).ServiceUnavailable?)
  {
    match Classify(reply)
    case Registered => EnterLoop(0)
    case ServiceUnavailable => if matchRet < 0 then Finish(matchRet) else EnterLoop(1)
    case OtherFailure(_) => Finish(ret)
  }

  /** One `sd_bus_message_read_basic` of a string: its return value, and the
      string it yields when that value is not negative. */
  datatype ReadResult = ReadResult(ret: int, value: string)

  predicate ReadOk(r: ReadResult) {
    r.ret >= 0
  }

  /** The handler's return value, the error it leaves for sd-bus, and how many
      registrations it attempted. */
  datatype Retry = Retry(ret: int, error: Reply, attempts: nat)

  /** The NameOwnerChanged handler: read name, old owner and new owner; the
      first failed read is returned as is; otherwise register once more and
      pass a registration error on. A successful read always yields a string,
      so the new owner is never NULL and even the watcher vanishing (an empty
      new owner) leads to an attempt. */
  function OwnerChanged(name: ReadResult, oldOwner: ReadResult, newOwner: ReadResult, reply: Reply): (r: Retry)
    ensures !ReadOk(name) ==> r == Retry(name.ret, NoError, 0)
    ensures ReadOk(name) && !ReadOk(oldOwner) ==> r == Retry(oldOwner.ret, NoError, 0)
    ensures ReadOk(name) && ReadOk(oldOwner) && !ReadOk(newOwner) ==> r == Retry(newOwner.ret, NoError, 0)
    ensures r.attempts == 1 <==> ReadOk(name) && ReadOk(oldOwner) && ReadOk(newOwner)
    ensures r.attempts == 1 ==> r.error == reply
    ensures r.attempts == 1 && reply.NoError? ==> r.ret == newOwner.ret && r.ret >= 0
    ensures r.attempts == 1 && reply.Failed? ==> r.ret == -(reply.error.errno as int)
    ensures r.ret < 0 <==> r.attempts == 0 || reply.Failed?
  {
    if !ReadOk(name) then Retry(name.ret, NoError, 0)
    else if !ReadOk(oldOwner) then Retry(oldOwner.ret, NoError, 0)
    else if !ReadOk(newOwner) then Retry(newOwner.ret, NoError, 0)
    else match reply
      case NoError => Retry(newOwner.ret, NoError, 1)
      case Failed(e) => Retry(-(e.errno as int), Failed(e), 1)
  }

  /** The handler as the C code runs it: three reads in turn, each returning on
      failure, then at most one registration. */
  method OnNameOwnerChanged(name: ReadResult, oldOwner: ReadResult, newOwner: ReadResult, reply: Reply)
    returns (ret: int, error: Reply, attempts: nat)
    ensures Retry(ret, error, attempts) == OwnerChanged(name, oldOwner, newOwner, reply)
  {
    error, attempts := NoError, 0;
    ret := name.ret;
    if ret < 0 { return; }
    ret := oldOwner.ret;
    if ret < 0 { return; }
    ret := newOwner.ret;
    if ret < 0 { return; }
    // the string read is never NULL, so the check in front of the retry always passes
    attempts := 1;
    if reply.Failed? {
      error := reply;
      ret := -(reply.error.errno as int);
    }
  }

  /** A disappearing watcher (empty new owner) also triggers a registration. */
  lemma VanishingWatcherRetries(name: ReadResult, oldOwner: ReadResult, reply: Reply)
    requires ReadOk(name) && ReadOk(oldOwner)
    ensures OwnerChanged(name, oldOwner, ReadResult(1, ""), reply).attempts == 1
  {
  }
}
