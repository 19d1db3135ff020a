/** The login watcher of src/login-monitor.c: for every new login session that
    is a valid unlock target of a user with configured databases, it records
    the session in the user's descriptor file and asks systemd to start that
    user's unlock service. The validity check, user_has_db_configs, fopen and
    the bus are inputs; the file writes and the service starts are an effect
    trace. */
module Watcher {
  import opened Base

  /** An effect of handle_new_session on the world outside the process. */
  datatype WatcherEffect =
    | WriteDescriptor(path: string, content: string)    // fopen "w" + fprintf + fclose
    | StartService(command: string)                      // system(service_cmd)

  /** One SessionNew signal with what the world answers while it is handled:
      the session's owner when session_valid_for_unlock accepts it, whether the
      owner has configured databases, and whether the descriptor opens. */
  datatype NewSession = NewSession(path: string, owner: Option<nat>, configured: bool, openOk: bool)

  const DESCRIPTOR_NAME: string := "/session.env"
  const DESCRIPTOR_KEY: string := "SESSION_PATH="
  const SERVICE_PREFIX: string := "systemctl start keepassxc-unlock@"
  const SERVICE_SUFFIX: string := ".service"

  /** KP_CONFIG_DIR/<uid>/session.env */
  function DescriptorPath(configDir: string, uid: nat): string {
    configDir + "/" + NatToString(uid) + DESCRIPTOR_NAME
  }

  /** SESSION_PATH=<path> and a newline. */
  function DescriptorContent(sessionPath: string): string {
    DESCRIPTOR_KEY + sessionPath + "\n"
  }

  /** systemctl start keepassxc-unlock@<uid>.service */
  function ServiceCommand(uid: nat): string {
    SERVICE_PREFIX + NatToString(uid) + SERVICE_SUFFIX
  }

  /** Reference definition of handle_new_session: the gates in order, then the
      descriptor write and the service start. The exit status of systemctl only
      selects a log message. */
  function NewSessionEffects(configDir: string, s: NewSession): (e: seq<WatcherEffect>)
    ensures e != [] ==> s.owner.Some? && s.configured && s.openOk
    ensures |e| == 0 || |e| == 2
  {
    if s.owner.None? then []    // not a valid target
    else if !s.configured then []
    else if !s.openOk then []
    else [WriteDescriptor(DescriptorPath(configDir, s.owner.value), DescriptorContent(s.path)),
          StartService(ServiceCommand(s.owner.value))]
  }

  /** The effects of a run of signals, in order. */
  function EffectsOf(configDir: string, sessions: seq<NewSession>): seq<WatcherEffect> {
    if sessions == [] then []
    else EffectsOf(configDir, sessions[..|sessions| - 1]) + NewSessionEffects(configDir, sessions[|sessions| - 1])
  }

  /** The files after a sequence of effects: a descriptor write replaces the
      file's whole content. */
  function Apply(files: map<string, string>, effects: seq<WatcherEffect>): map<string, string> {
    if effects == [] then files
    else
      var before := Apply(files, effects[..|effects| - 1]);
      match effects[|effects| - 1]
      case WriteDescriptor(path, content) => before[path := content]
      case StartService(_) => before
  }

  /** The reading side of the descriptor: the session path it holds. */
  function SessionPathIn(content: string): Option<string> {
    if |content| > |DESCRIPTOR_KEY| && HasPrefix(content, DESCRIPTOR_KEY) && content[|content| - 1] == '\n'
    then Some(content[|DESCRIPTOR_KEY|..|content| - 1])
    else None
  }

  /** Every service start comes right after the write of the descriptor of the
      same user. */
  ghost predicate StartsFollowWrites(configDir: string, trace: seq<WatcherEffect>) {
    forall k :: 0 <= k < |trace| && trace[k].StartService? ==> StartFollowsWrite(configDir, trace, k)
  }

  ghost predicate StartFollowsWrite(configDir: string, trace: seq<WatcherEffect>, k: nat)
    requires k < |trace|
  {
    0 < k && trace[k - 1].WriteDescriptor? &&
    exists uid: nat {:trigger UserPair(configDir, trace[k - 1], trace[k], uid)} :: UserPair(configDir, trace[k - 1], trace[k], uid)
  }

  predicate UserPair(configDir: string, w: WatcherEffect, start: WatcherEffect, uid: nat) {
    w.WriteDescriptor? && w.path == DescriptorPath(configDir, uid) && start == StartService(ServiceCommand(uid))
  }

  // ---------------------------------------------------------------------------
  // Properties of one signal

  /** A session that is not a valid target causes no write and no start. */
  lemma InvalidSessionIgnored(configDir: string, s: NewSession)
    requires s.owner.None?
    ensures NewSessionEffects(configDir, s) == []
  {
  }

  /** A user without configured databases causes no write and no start. */
  lemma UnconfiguredUserIgnored(configDir: string, s: NewSession)
    requires !s.configured
    ensures NewSessionEffects(configDir, s) == []
  {
  }

  /** The service is started exactly when the descriptor is written, once,
      right after it, and for the session's owner; otherwise nothing happens. */
  lemma StartOnlyAfterWrite(configDir: string, s: NewSession)
    ensures var e := NewSessionEffects(configDir, s);
      e == [] <==> s.owner.None? || !s.configured || !s.openOk
    ensures var e := NewSessionEffects(configDir, s);
      e != [] ==> |e| == 2 && e[0].WriteDescriptor? && e[1].StartService? && UserPair(configDir, e[0], e[1], s.owner.value)
    ensures forall k :: 0 <= k < |NewSessionEffects(configDir, s)| && NewSessionEffects(configDir, s)[k].StartService? ==> k == 1
  {
  }

  /** The session path written reads back from the descriptor. */
  lemma DescriptorRoundTrip(sessionPath: string)
    ensures SessionPathIn(DescriptorContent(sessionPath)) == Some(sessionPath)
  {
    var c := DescriptorContent(sessionPath);
    assert c[..|DESCRIPTOR_KEY|] == DESCRIPTOR_KEY;
    assert c[|DESCRIPTOR_KEY|..|c| - 1] == sessionPath;
  }

  /** The uid can be read back from the descriptor path and the command. */
  lemma UidInNames(configDir: string, uid: nat)
    ensures var p := DescriptorPath(configDir, uid);
      p[|configDir| + 1..|p| - |DESCRIPTOR_NAME|] == NatToString(uid)
    ensures var c := ServiceCommand(uid);
      c[|SERVICE_PREFIX|..|c| - |SERVICE_SUFFIX|] == NatToString(uid)
  {
  }

  /** Different users have different descriptors and different services. */
  lemma UsersKeptApart(configDir: string, a: nat, b: nat)
    requires a != b
    ensures DescriptorPath(configDir, a) != DescriptorPath(configDir, b)
    ensures ServiceCommand(a) != ServiceCommand(b)
  {
    UidInNames(configDir, a);
    UidInNames(configDir, b);
    DecimalRoundTrip(a);
    DecimalRoundTrip(b);
  }

  /** A write and a start change the files exactly as the write does. */
  lemma ApplyWriteThenStart(files: map<string, string>, path: string, content: string, command: string)
    ensures Apply(files, [WriteDescriptor(path, content), StartService(command)]) == files[path := content]
  {
    var e := [WriteDescriptor(path, content), StartService(command)];
    var w := [WriteDescriptor(path, content)];
    assert e[..1] == w && w[..0] == [];
    assert Apply(files, w) == files[path := content];
    assert Apply(files, e) == Apply(files, w);
  }

  // ---------------------------------------------------------------------------
  // Properties of a run of signals

  lemma EffectsOfAppend(configDir: string, sessions: seq<NewSession>, s: NewSession)
    ensures EffectsOf(configDir, sessions + [s]) == EffectsOf(configDir, sessions) + NewSessionEffects(configDir, s)
  {
    assert (sessions + [s])[..|sessions|] == sessions;
  }

  /** The effects of the first `i + 1` signals: those of the first `i`, then signal `i`'s. */
  lemma EffectsOfStep(configDir: string, sessions: seq<NewSession>, i: nat)
    requires i < |sessions|
    ensures EffectsOf(configDir, sessions[..i + 1]) == EffectsOf(configDir, sessions[..i]) + NewSessionEffects(configDir, sessions[i])
  {
    assert sessions[..i + 1] == sessions[..i] + [sessions[i]];
    EffectsOfAppend(configDir, sessions[..i], sessions[i]);
  }

  lemma EffectsOfAll(configDir: string, sessions: seq<NewSession>)
    ensures EffectsOf(configDir, sessions[..|sessions|]) == EffectsOf(configDir, sessions)
  {
    assert sessions[..|sessions|] == sessions;
  }

  /** Handling one more signal keeps every start right behind its write. */
  lemma StartsFollowWritesAppend(configDir: string, trace: seq<WatcherEffect>, s: NewSession)
    requires StartsFollowWrites(configDir, trace)
    ensures StartsFollowWrites(configDir, trace + NewSessionEffects(configDir, s))
  {
    var e := NewSessionEffects(configDir, s);
    var t := trace + e;
    StartOnlyAfterWrite(configDir, s);
    forall k | 0 <= k < |t| && t[k].StartService?
      ensures StartFollowsWrite(configDir, t, k)
    {
      if k < |trace| {
        assert StartFollowsWrite(configDir, trace, k);
        var uid: nat :| UserPair(configDir, trace[k - 1], trace[k], uid);
        assert UserPair(configDir, t[k - 1], t[k], uid);
      } else {
        assert k == |trace| + 1;
        assert UserPair(configDir, t[k - 1], t[k], s.owner.value);
      }
    }
  }

  /** In any run, every service start comes right after the write of the
      descriptor of the same user. */
  lemma {:induction false} RunStartsFollowWrites(configDir: string, sessions: seq<NewSession>)
    ensures StartsFollowWrites(configDir, EffectsOf(configDir, sessions))
  {
    if sessions != [] {
      RunStartsFollowWrites(configDir, sessions[..|sessions| - 1]);
      StartsFollowWritesAppend(configDir, EffectsOf(configDir, sessions[..|sessions| - 1]), sessions[|sessions| - 1]);
    }
  }

  /** The number of service starts in a trace. */
  function Starts(trace: seq<WatcherEffect>): nat {
    if trace == [] then 0
    else Starts(trace[..|trace| - 1]) + (if trace[|trace| - 1].StartService? then 1 else 0)
  }

  /** Counting the starts of a trace in two parts. */
  lemma {:induction false} StartsAppend(a: seq<WatcherEffect>, b: seq<WatcherEffect>)
    ensures Starts(a + b) == Starts(a) + Starts(b)
    decreases |b|
  {
    if b == [] {
      assert a + b == a;
    } else {
      assert (a + b)[..|a + b| - 1] == a + b[..|b| - 1];
      StartsAppend(a, b[..|b| - 1]);
    }
  }

  /** A run starts at most one service per signal, and writes at most one
      descriptor before each start. */
  lemma {:induction false} AtMostOneStartPerSignal(configDir: string, sessions: seq<NewSession>)
    ensures Starts(EffectsOf(configDir, sessions)) <= |sessions|
    ensures |EffectsOf(configDir, sessions)| <= 2 * |sessions|
  {
    if sessions != [] {
      var front := sessions[..|sessions| - 1];
      var e := NewSessionEffects(configDir, sessions[|sessions| - 1]);
      AtMostOneStartPerSignal(configDir, front);
      StartsAppend(EffectsOf(configDir, front), e);
      StartOnlyAfterWrite(configDir, sessions[|sessions| - 1]);
      if e != [] {
        assert e[..|e| - 1] == [e[0]];
        assert [e[0]][..0] == [];
        assert Starts([e[0]]) == 0;
        assert Starts(e) == 1;
      }
      assert EffectsOf(configDir, sessions) == EffectsOf(configDir, front) + e;
    }
  }

  /** Applying a trace in two parts is applying it whole. */
  lemma {:induction false} ApplyAppend(files: map<string, string>, a: seq<WatcherEffect>, b: seq<WatcherEffect>)
    ensures Apply(files, a + b) == Apply(Apply(files, a), b)
    decreases |b|
  {
    if b == [] {
      assert a + b == a;
    } else {
      assert (a + b)[..|a + b| - 1] == a + b[..|b| - 1];
      assert (a + b)[|a + b| - 1] == b[|b| - 1];
      ApplyAppend(files, a, b[..|b| - 1]);
    }
  }

  /** A later session of the same user overwrites the earlier descriptor: after
      two accepted sessions the file holds the second one's path. */
  lemma LaterSessionOverwrites(configDir: string, files: map<string, string>, s1: NewSession, s2: NewSession)
    requires s1.owner.Some? && s1.configured && s1.openOk
    requires s2.owner == s1.owner && s2.configured && s2.openOk
    ensures var path := DescriptorPath(configDir, s1.owner.value);
      var e := NewSessionEffects(configDir, s1) + NewSessionEffects(configDir, s2);
      path in Apply(files, e) && SessionPathIn(Apply(files, e)[path]) == Some(s2.path)
  {
    var e := NewSessionEffects(configDir, s1) + NewSessionEffects(configDir, s2);
    assert e[..3] == e[..2] + [e[2]];
    assert e[..2] == e[..1] + [e[1]];
    assert e[..1][..0] == [];
    DescriptorRoundTrip(s2.path);
  }

  // ---------------------------------------------------------------------------
  // The process

  /** The watcher: KP_CONFIG_DIR, the files under it, and the effects so far. */
  class LoginWatcher {
    const configDir: string
    var files: map<string, string>
    var trace: seq<WatcherEffect>

    ghost predicate Valid()
      reads this
    {
      StartsFollowWrites(configDir, trace)
    }

    constructor (configDir: string, files: map<string, string>)
      ensures this.configDir == configDir && this.files == files && trace == []
      ensures Valid()
    {
      this.configDir := configDir;
      this.files := files;
      trace := [];
    }

    /** handle_new_session. */
    method HandleNewSession(s: NewSession)
      requires Valid()
      modifies this
      ensures Valid()
      ensures trace == old(trace) + NewSessionEffects(configDir, s)
      ensures files == Apply(old(files), NewSessionEffects(configDir, s))
    {
      StartsFollowWritesAppend(configDir, trace, s);
      if s.owner.None? {
        return;    // not a valid target for auto-unlock
      }
      var uid := s.owner.value;
      if !s.configured {
        return;    // no databases configured
      }
      var path := DescriptorPath(configDir, uid);
      if !s.openOk {
        return;    // fopen failed
      }
      var content := DescriptorContent(s.path);
      files := files[path := content];
      var command := ServiceCommand(uid);
      trace := trace + [WriteDescriptor(path, content), StartService(command)];
      ApplyWriteThenStart(old(files), path, content, command);
    }

    /** g_main_loop_run dispatching SessionNew signals in order. */
    method Serve(sessions: seq<NewSession>)
      requires Valid()
      modifies this
      ensures Valid()
      ensures trace == old(trace) + EffectsOf(configDir, sessions)
      ensures files == Apply(old(files), EffectsOf(configDir, sessions))
    {
      ghost var t0 := trace;
      ghost var f0 := files;
      var i := 0;
      while i < |sessions|
        invariant i <= |sessions|
        invariant Valid()
        invariant trace == t0 + EffectsOf(configDir, sessions[..i])
        invariant files == Apply(f0, EffectsOf(configDir, sessions[..i]))
      {
        EffectsOfStep(configDir, sessions, i);
        ConcatAssoc(t0, EffectsOf(configDir, sessions[..i]), NewSessionEffects(configDir, sessions[i]));
        ApplyAppend(f0, EffectsOf(configDir, sessions[..i]), NewSessionEffects(configDir, sessions[i]));
        HandleNewSession(sessions[i]);
        i := i + 1;
      }
      EffectsOfAll(configDir, sessions);
    }
  }

  /** Reference definition of the watcher's exit status: 1 when not root, when
      any argument is given, or when the bus or the subscription fails; None
      while it serves signals, since nothing ends its loop. */
  function WatcherStatus(argv: seq<string>, euid: nat, busOk: bool, subscribeOk: bool): (r: Option<int>)
    ensures r.Some? ==> r.value == 1
    ensures r.None? ==> euid == 0 && |argv| == 1
  {
    if euid != 0 then Some(1)
    else if |argv| != 1 then Some(1)
    else if !busOk then Some(1)
    else if !subscribeOk then Some(1)
    else None
  }

  /** The watcher fails with status 1 exactly when a check fails, and never
      exits with 0. */
  lemma WatcherFailsIff(argv: seq<string>, euid: nat, busOk: bool, subscribeOk: bool)
    ensures WatcherStatus(argv, euid, busOk, subscribeOk) == Some(1) <==>
      euid != 0 || |argv| != 1 || !busOk || !subscribeOk
    ensures WatcherStatus(argv, euid, busOk, subscribeOk) != Some(0)
  {
  }

  /** main of the watcher, serving `sessions` once its checks have passed. */
  method WatcherMain(argv: seq<string>, euid: nat, busOk: bool, subscribeOk: bool,
                     configDir: string, files: map<string, string>, sessions: seq<NewSession>)
    returns (status: Option<int>, trace: seq<WatcherEffect>)
    ensures status == WatcherStatus(argv, euid, busOk, subscribeOk)
    ensures status.Some? ==> trace == []
    ensures status.None? ==> trace == EffectsOf(configDir, sessions) && StartsFollowWrites(configDir, trace)
  {
    if euid != 0 {
      return Some(1), [];
    }
    if |argv| != 1 {
      return Some(1), [];    // no arguments are expected
    }
    if !busOk {
      return Some(1), [];
    }
    if !subscribeOk {
      return Some(1), [];
    }
    var w := new LoginWatcher(configDir, files);
    w.Serve(sessions);
    return None, w.trace;
  }
}
