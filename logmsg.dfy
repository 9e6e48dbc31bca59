/**
 * The record value LogMsg (src/LogMsg.cpp): ten persisted fields plus the
 * `msg_static` flag, and the process-wide cache of the application and
 * machine names that every new record copies.
 *
 * The operating system is not modelled: the thread id, the time of day, the
 * host name and the executable path are supplied in an `Env`.
 */
module LogMsg {
  import opened CInt

  /** What the operating system reports when a record is constructed. */
  datatype Env = Env(threadId: int, seconds: int, micros: int, hostName: Twine, exePath: Twine)

  /** The value of a LogMsg: its eleven fields (the timestamp is the POSIX pair tv_sec, tv_usec). */
  datatype Record = Record(
    id: Int32,
    file: Twine,
    line: Int32,
    tid: int,
    seconds: int,
    micros: int,
    channel: Int32,
    appName: Twine,
    machineName: Twine,
    msg: Twine,
    msgStatic: bool)

  /** The cache rule of SetAppMachine: a cached name is taken from the system only while it is empty. */
  function Fill(cached: Twine, fromSystem: Twine): Twine
  {
    if |cached| == 0 then fromSystem else cached
  }

  /** The static twines `staticAppName` and `staticMachineName`, shared by all records of a process. */
  class NameCache {
    var appName: Twine
    var machineName: Twine

    /** Both names start out empty, as static twines do. */
    constructor ()
      ensures appName == [] && machineName == []
    {
      appName := [];
      machineName := [];
    }

    /** LogMsg::SetAppMachine: fill each name from the system while it is still empty. */
    method SetAppMachine(env: Env)
      modifies this
      ensures old(machineName) != [] ==> machineName == old(machineName)
      ensures old(machineName) == [] ==> machineName == env.hostName
      ensures old(appName) != [] ==> appName == old(appName)
      ensures old(appName) == [] ==> appName == env.exePath
    {
      if |machineName| == 0 {
        machineName := env.hostName;
      }
      if |appName| == 0 {
        appName := env.exePath;
      }
    }
  }

  class LogMsg {
    var id: Int32
    var file: Twine
    var line: Int32
    var tid: int
    var seconds: int
    var micros: int
    var channel: Int32
    var appName: Twine
    var machineName: Twine
    var msg: Twine
    var msgStatic: bool

    function Value(): Record
      reads this
    {
      Record(id, file, line, tid, seconds, micros, channel, appName, machineName, msg, msgStatic)
    }

    /** LogMsg(): zero id, line and channel, empty file and message, the cached names. */
    constructor (cache: NameCache, env: Env)
      modifies cache
      ensures cache.appName == Fill(old(cache.appName), env.exePath)
      ensures cache.machineName == Fill(old(cache.machineName), env.hostName)
      ensures Value() == Record(0, "", 0, env.threadId, env.seconds, env.micros, 0,
                                cache.appName, cache.machineName, "", false)
    {
      tid := env.threadId;
      seconds, micros := env.seconds, env.micros;
      cache.SetAppMachine(env);
      id := 0;
      line := 0;
      channel := 0;
      appName := cache.appName;
      machineName := cache.machineName;
      msgStatic := false;
      file, msg := "", "";
    }

    /** LogMsg(f, l, m): the given location and message text. */
    constructor WithMessage(cache: NameCache, env: Env, f: Twine, l: Int32, m: Twine)
      modifies cache
      ensures cache.appName == Fill(old(cache.appName), env.exePath)
      ensures cache.machineName == Fill(old(cache.machineName), env.hostName)
      ensures Value() == Record(0, f, l, env.threadId, env.seconds, env.micros, 0,
                                cache.appName, cache.machineName, m, false)
    {
      tid := env.threadId;
      seconds, micros := env.seconds, env.micros;
      cache.SetAppMachine(env);
      id := 0;
      channel := 0;
      file := f;
      line := l;
      msg := m;
      appName := cache.appName;
      machineName := cache.machineName;
      msgStatic := false;
    }

    /** LogMsg(f, l): the given location and an empty message text. */
    constructor WithLocation(cache: NameCache, env: Env, f: Twine, l: Int32)
      modifies cache
      ensures cache.appName == Fill(old(cache.appName), env.exePath)
      ensures cache.machineName == Fill(old(cache.machineName), env.hostName)
      ensures Value() == Record(0, f, l, env.threadId, env.seconds, env.micros, 0,
                                cache.appName, cache.machineName, "", false)
    {
      tid := env.threadId;
      seconds, micros := env.seconds, env.micros;
      cache.SetAppMachine(env);
      id := 0;
      channel := 0;
      file := f;
      line := l;
      msg := "";
      appName := cache.appName;
      machineName := cache.machineName;
      msgStatic := false;
    }

    /** The copy constructor: every field, msg_static included. */
    constructor Copy(c: LogMsg)
      ensures Value() == c.Value()
    {
      id := c.id;
      tid := c.tid;
      seconds, micros := c.seconds, c.micros;
      channel := c.channel;
      file := c.file;
      line := c.line;
      appName := c.appName;
      machineName := c.machineName;
      msg := c.msg;
      msgStatic := c.msgStatic;
    }

    /** operator=: every field of `c`, msg_static included; assigning a record to itself changes nothing. */
    method Assign(c: LogMsg)
      modifies this
      ensures Value() == old(c.Value())
      ensures c == this ==> Value() == old(Value())
    {
      var v := c.Value();
      id := v.id;
      tid := v.tid;
      seconds, micros := v.seconds, v.micros;
      channel := v.channel;
      file := v.file;
      line := v.line;
      appName := v.appName;
      machineName := v.machineName;
      msg := v.msg;
      msgStatic := v.msgStatic;
    }
  }

  /** Once a cached name is non-empty, no later SetAppMachine changes it, whatever the system reports. */
  lemma FillIsStable(cached: Twine, first: Twine, later: Twine)
    requires Fill(cached, first) != []
    ensures Fill(Fill(cached, first), later) == Fill(cached, first)
  {
  }
}
