/** `unlock_databases` (systemd/keepassxc-unlock.c): the gates that stand before
    any secret leaves the monitor, in their fixed order, each failing closed:
      1. the session is still unlocked (an error reading LockedHint counts as locked);
      2. some process owns the KeePassXC bus name within `wait_secs` attempts, each
         attempt bracketed by a switch to the user's uid and back to root;
      3. the trusted digest file exists;
      4. the SHA-512 hex digest of that process's executable equals the first line
         of the trusted digest file;
    and then the loop over the user's record files, where any record can be skipped
    on its own and every record that gets through is handed to KeePassXC by exactly
    one openDatabase(db, password, key) call.
    Everything the code asks of the outside world (D-Bus, the file system,
    seteuid, systemd-creds, readlink, SHA-512) is an answer recorded in a World. */
module Release {
  import opened Base
  import opened HexEncoding
  import opened Records
  import opened Privilege

  /** SHA512_BUFFER_SIZE: EVP_MAX_MD_SIZE * 2 + 1 */
  const SHA512_BUFFER_SIZE: nat := 129
  /** MAX_PASSWORD_SIZE: the longest accepted password plus its NUL */
  const MAX_PASSWORD_SIZE: nat := 4096

  /** What get_dbus_service_process_id finds on one attempt. */
  datatype PidReply = NoSessionBus | CallFailed | Owner(pid: nat)

  /** The process id get_dbus_service_process_id returns (0 when something went wrong). */
  function PidOf(r: PidReply): nat {
    if r.Owner? then r.pid else 0
  }

  /** Which change_euid call a seteuid answer belongs to. */
  datatype Step = ProbeAttempt(attempt: nat) | RecordCall(index: nat)

  /** The answers the outside world gives during one call of unlock_databases. */
  datatype World = World(
    lockedHint: Option<bool>,                  // Get(LockedHint); None when the call fails
    pidReply: nat -> PidReply,                 // the pid lookup, by attempt
    seteuidOk: (Step, nat) -> bool,            // seteuid(uid), by call and target uid
    trustedHash: Option<string>,               // <conf dir>/keepassxc.sha512; None when it cannot be opened
    exeDigest: nat -> Option<seq<Byte>>,       // SHA-512 of /proc/<pid>/exe; None when open or read fails
    exeLink: nat -> Option<string>,            // readlink(/proc/<pid>/exe)
    confPaths: seq<string>,                    // glob(<conf dir>/*.conf); empty on no match or error
    confFile: string -> Option<seq<string>>,   // a record file's lines; None when fopen fails
    popenOk: nat -> bool,                      // popen of the decrypt command, by record
    unseal: (seq<string>, string) -> string,   // systemd-creds output for (blob, --name)
    sessionBusOk: nat -> bool)                 // g_bus_get_sync(SESSION), by record

  /** What the outside world observes of a release. */
  datatype Effect =
    | BusErrorLogged(attempt: nat)                               // "Failed to connect to session bus"
    | MismatchNotified(pid: nat, exe: string)                    // notify-send about the checksum mismatch
    | DecryptRun(path: string, startLine: nat, name: string)     // tail -n+N <path> | systemd-creds --name=<name>
    | OpenDatabase(db: string, password: string, key: string, asUid: nat)

  /** How far a release got through the gates. */
  datatype Gate = SessionLocked | NoService | NoTrustedHash | DigestMismatch | Verified

  datatype Outcome = Outcome(gate: Gate, effects: seq<Effect>, exited: bool)

  /** Effects of part of a release, and whether the process ended during it. */
  datatype Progress = Progress(effects: seq<Effect>, exited: bool)

  /** Probe result: the pid found (0 for none), effects, and whether the process ended. */
  datatype Probe = Probe(pid: nat, effects: seq<Effect>, exited: bool)

  // ---------------------------------------------------------------------------
  // The gates as functions of the world

  /** is_locked: an error reading the property counts as locked. */
  predicate LockedNow(w: World) {
    w.lockedHint != Some(false)
  }

  /** Pid lookup attempt `j` ends the process (switching back to root failed). */
  predicate AttemptExits(w: World, user: nat, j: nat) {
    BracketExits(user, w.seteuidOk(ProbeAttempt(j), user), w.seteuidOk(ProbeAttempt(j), ROOT))
  }

  /** Pid lookup attempt `j` finds nothing and the loop goes on. */
  predicate AttemptFails(w: World, user: nat, j: nat) {
    !AttemptExits(w, user, j) && PidOf(w.pidReply(j)) == 0
  }

  /** The pid lookup loop from attempt `i` on. */
  function ProbeFrom(w: World, user: nat, budget: int, i: nat): (r: Probe)
    // an attempt that ends the process yields no pid
    ensures r.exited ==> r.pid == 0
    decreases budget - i
  {
    if i >= budget then Probe(0, [], false)
    else
      var reply := w.pidReply(i);
      // the connection error is logged only on the last attempt
      var log := if reply.NoSessionBus? && i == budget - 1 then [BusErrorLogged(i)] else [];
      if AttemptExits(w, user, i) then Probe(0, log, true)
      else if PidOf(reply) != 0 then Probe(PidOf(reply), log, false)
      else
        var rest := ProbeFrom(w, user, budget, i + 1);
        Probe(rest.pid, log + rest.effects, rest.exited)
  }

  function Min(a: nat, b: nat): nat {
    if a < b then a else b
  }

  /** The trusted digest as read: fgets into a 129-byte buffer (at most 128
      characters of the first line), newline stripped, up to any NUL; None when
      the file is empty. */
  function TrustedDigest(content: string): (r: Option<string>)
    ensures r.None? <==> content == []
    ensures r.Some? ==> r.value <= content && |r.value| < SHA512_BUFFER_SIZE
    ensures r.Some? ==> '\n' !in r.value && NUL !in r.value
    // the digest is all of the first line fgets reads: it stops only at the
    // buffer's capacity, the end of the file, the newline or a NUL
    ensures r.Some? ==>
      (|r.value| == SHA512_BUFFER_SIZE - 1 || |r.value| == |content| ||
       content[|r.value|] == '\n' || content[|r.value|] == NUL)
  {
    if content == [] then None
    else
      var line := content[..Min(IndexOf(content, '\n'), SHA512_BUFFER_SIZE - 1)];
      assert forall c :: c in CString(line) ==> c in line;
      Some(CString(line))
  }

  /** The hex digest sha512sum leaves in a 129-byte buffer, or None when it returns 0. */
  function ComputedDigest(d: Option<seq<Byte>>): Option<string> {
    if d.Some? && 0 < |d.value| && 2 * |d.value| + 1 <= SHA512_BUFFER_SIZE then Some(Hex(d.value))
    else None
  }

  /** The `mismatch` flag: hashing failed, the trusted file is empty, or the two differ. */
  predicate Mismatch(computed: Option<string>, trusted: string) {
    computed.None? || TrustedDigest(trusted).None? || computed.value != TrustedDigest(trusted).value
  }

  /** The executable named in the mismatch report: the symlink target, or the /proc path. */
  function ExePath(w: World, pid: nat): string {
    var link := w.exeLink(pid);
    if link.Some? && link.value != "" then link.value else "/proc/" + NatToString(pid) + "/exe"
  }

  /** What systemd-creds prints for record `i`, whose file opened with `lines`. */
  function Unsealed(w: World, i: nat, lines: seq<string>): string
    requires i < |w.confPaths|
  {
    w.unseal(Tail(lines, HeaderOf(lines).startLine), RecordName(w.confPaths[i]))
  }

  /** One iteration of the record loop. */
  function RecordSpec(w: World, user: nat, i: nat): (r: Progress)
    requires i < |w.confPaths|
    // a record whose file does not open or whose pipe does not start leaves no trace
    ensures w.confFile(w.confPaths[i]).None? || !w.popenOk(i) ==> r == Progress([], false)
    // the process can end only in the user bracket, after the decryptor ran
    ensures r.exited ==> r.effects != [] && r.effects[0].DecryptRun?
    ensures |r.effects| <= 2
  {
    var path := w.confPaths[i];
    match w.confFile(path)
    case None => Progress([], false)
    case Some(lines) =>
      var h := HeaderOf(lines);
      if !w.popenOk(i) then Progress([], false)
      else
        var run := [DecryptRun(path, h.startLine, RecordName(path))];
        var output := Unsealed(w, i, lines);
        if |output| >= MAX_PASSWORD_SIZE then Progress(run, false)
        else
          var up, down := w.seteuidOk(RecordCall(i), user), w.seteuidOk(RecordCall(i), ROOT);
          var exits := BracketExits(user, up, down);
          if !w.sessionBusOk(i) then Progress(run, exits)
          else Progress(run + [OpenDatabase(h.db, CString(output), h.key, EuidDuring(user, up))], exits)
  }

  /** The record loop from record `i` on; it stops only if the process ends. */
  function RecordsFrom(w: World, user: nat, i: nat): Progress
    decreases |w.confPaths| - i
  {
    if i >= |w.confPaths| then Progress([], false)
    else
      var r := RecordSpec(w, user, i);
      if r.exited then r
      else
        var rest := RecordsFrom(w, user, i + 1);
        Progress(r.effects + rest.effects, rest.exited)
  }

  /** A whole call of unlock_databases. */
  function ReleaseSpec(w: World, user: nat, budget: int): (r: Outcome)
    ensures r.gate == SessionLocked <==> LockedNow(w)
    // only the pid lookup and the record loop switch the euid, so only they can end the process
    ensures r.exited ==> r.gate == NoService || r.gate == Verified
  {
    if LockedNow(w) then Outcome(SessionLocked, [], false)
    else
      var p := ProbeFrom(w, user, budget, 0);
      if p.exited || p.pid == 0 then Outcome(NoService, p.effects, p.exited)
      else if w.trustedHash.None? then Outcome(NoTrustedHash, p.effects, false)
      else if Mismatch(ComputedDigest(w.exeDigest(p.pid)), w.trustedHash.value) then
        Outcome(DigestMismatch, p.effects + [MismatchNotified(p.pid, ExePath(w, p.pid))], false)
      else
        var r := RecordsFrom(w, user, 0);
        Outcome(Verified, p.effects + r.effects, r.exited)
  }

  // ---------------------------------------------------------------------------
  // Views of an effect trace

  /** The openDatabase calls of a trace, in order. */
  function Opens(es: seq<Effect>): seq<Effect> {
    if es == [] then []
    else Opens(es[..|es| - 1]) + (if es[|es| - 1].OpenDatabase? then [es[|es| - 1]] else [])
  }

  /** The number of mismatch notifications in a trace. */
  function Notifications(es: seq<Effect>): nat {
    if es == [] then 0
    else Notifications(es[..|es| - 1]) + (if es[|es| - 1].MismatchNotified? then 1 else 0)
  }

  lemma {:induction false} OpensAppend(a: seq<Effect>, b: seq<Effect>)
    ensures Opens(a + b) == Opens(a) + Opens(b)
    ensures Notifications(a + b) == Notifications(a) + Notifications(b)
    decreases |b|
  {
    if b != [] {
      assert (a + b)[..|a + b| - 1] == a + b[..|b| - 1];
      OpensAppend(a, b[..|b| - 1]);
    } else {
      assert a + b == a;
    }
  }

  /** A trace of log entries only holds neither calls nor notifications. */
  lemma {:induction false} LogsOnly(es: seq<Effect>)
    requires forall k :: 0 <= k < |es| ==> es[k].BusErrorLogged?
    ensures Opens(es) == [] && Notifications(es) == 0
    decreases |es|
  {
    if es != [] {
      LogsOnly(es[..|es| - 1]);
    }
  }

  // ---------------------------------------------------------------------------
  // Properties of the pid lookup

  /** The pid lookup logs the connection error at most once, on attempt
      `budget - 1`, and exactly when that last attempt is reached and finds no
      session bus. */
  lemma {:induction false} BusErrorOnlyOnLastAttempt(w: World, user: nat, budget: int, i: nat)
    ensures var p := ProbeFrom(w, user, budget, i);
      p.effects == [] || p.effects == [BusErrorLogged(budget - 1)]
    ensures ProbeFrom(w, user, budget, i).effects != [] <==>
      (i < budget && w.pidReply(budget - 1).NoSessionBus? &&
       forall k :: i <= k < budget - 1 ==> AttemptFails(w, user, k))
    decreases budget - i
  {
    if i < budget && i != budget - 1 {
      BusErrorOnlyOnLastAttempt(w, user, budget, i + 1);
      if !AttemptFails(w, user, i) {
        assert ProbeFrom(w, user, budget, i).effects == [];
      }
    }
  }

  /** The lookup returns the pid of the first attempt that finds one, ends the
      process on the first attempt whose switch back to root fails, and
      otherwise returns 0 after `budget` failed attempts. */
  lemma {:induction false} ProbeFindsFirst(w: World, user: nat, budget: int, i: nat)
    ensures var p := ProbeFrom(w, user, budget, i);
      p.pid != 0 ==> (!p.exited &&
        exists j :: i <= j < budget && PidOf(w.pidReply(j)) == p.pid && !AttemptExits(w, user, j) &&
          forall k :: i <= k < j ==> AttemptFails(w, user, k))
    ensures var p := ProbeFrom(w, user, budget, i);
      p.exited ==> (p.pid == 0 &&
        exists j :: i <= j < budget && AttemptExits(w, user, j) &&
          forall k :: i <= k < j ==> AttemptFails(w, user, k))
    ensures var p := ProbeFrom(w, user, budget, i);
      (p.pid == 0 && !p.exited) <==> forall k :: i <= k < budget ==> AttemptFails(w, user, k)
    decreases budget - i
  {
    if i < budget {
      ProbeFindsFirst(w, user, budget, i + 1);
      var p := ProbeFrom(w, user, budget, i);
      if AttemptFails(w, user, i) {
        var q := ProbeFrom(w, user, budget, i + 1);
        assert p.pid == q.pid && p.exited == q.exited;
        if q.pid != 0 {
          var j :| i + 1 <= j < budget && PidOf(w.pidReply(j)) == q.pid && !AttemptExits(w, user, j) &&
            forall k :: i + 1 <= k < j ==> AttemptFails(w, user, k);
          assert forall k :: i <= k < j ==> AttemptFails(w, user, k);
        }
        if q.exited {
          var j :| i + 1 <= j < budget && AttemptExits(w, user, j) &&
            forall k :: i + 1 <= k < j ==> AttemptFails(w, user, k);
          assert forall k :: i <= k < j ==> AttemptFails(w, user, k);
        }
      }
    }
  }

  /** The lookup's trace holds only log entries. */
  lemma ProbeLogsOnly(w: World, user: nat, budget: int)
    ensures var es := ProbeFrom(w, user, budget, 0).effects;
      Opens(es) == [] && Notifications(es) == 0
  {
    BusErrorOnlyOnLastAttempt(w, user, budget, 0);
    LogsOnly(ProbeFrom(w, user, budget, 0).effects);
  }

  // ---------------------------------------------------------------------------
  // Properties of the record loop

  /** Record `i` opens, its decryptor starts, its output fits and the session bus
      connects: the record is handed to KeePassXC. */
  predicate Passes(w: World, i: nat) {
    && i < |w.confPaths|
    && w.confFile(w.confPaths[i]).Some?
    && w.popenOk(i)
    && |Unsealed(w, i, w.confFile(w.confPaths[i]).value)| < MAX_PASSWORD_SIZE
    && w.sessionBusOk(i)
  }

  /** The openDatabase call a passing record gets: its parsed DB= and KEY= values
      and the decryptor's output as a C string, made under the uid seteuid left. */
  function OpenFor(w: World, user: nat, i: nat): Effect
    requires Passes(w, i)
  {
    var lines := w.confFile(w.confPaths[i]).value;
    var h := HeaderOf(lines);
    OpenDatabase(h.db, CString(Unsealed(w, i, lines)), h.key,
      EuidDuring(user, w.seteuidOk(RecordCall(i), user)))
  }

  /** Reference list: one call per passing record from `i` on, in directory order. */
  function PassingOpens(w: World, user: nat, i: nat): seq<Effect>
    decreases |w.confPaths| - i
  {
    if i >= |w.confPaths| then []
    else (if Passes(w, i) then [OpenFor(w, user, i)] else []) + PassingOpens(w, user, i + 1)
  }

  /** One iteration makes the call exactly when the record passes. */
  lemma RecordOpens(w: World, user: nat, i: nat)
    requires i < |w.confPaths|
    ensures Opens(RecordSpec(w, user, i).effects) == if Passes(w, i) then [OpenFor(w, user, i)] else []
    ensures Notifications(RecordSpec(w, user, i).effects) == 0
  {
    var r := RecordSpec(w, user, i);
    var path := w.confPaths[i];
    if w.confFile(path).Some? && w.popenOk(i) {
      var lines := w.confFile(path).value;
      var run := [DecryptRun(path, HeaderOf(lines).startLine, RecordName(path))];
      assert Opens(run) == [] by {
        assert run[..0] == [];
      }
      assert Notifications(run) == 0 by {
        assert run[..0] == [];
      }
      if Passes(w, i) {
        var call := OpenFor(w, user, i);
        assert r.effects == run + [call];
        assert (run + [call])[..1] == run;
      }
    }
  }

  /** When the process survives the loop, the openDatabase calls are exactly one
      per passing record, in order: a failing record costs only its own call. */
  lemma {:induction false} RecordLoopOpens(w: World, user: nat, i: nat)
    requires !RecordsFrom(w, user, i).exited
    ensures Opens(RecordsFrom(w, user, i).effects) == PassingOpens(w, user, i)
    ensures Notifications(RecordsFrom(w, user, i).effects) == 0
    decreases |w.confPaths| - i
  {
    if i < |w.confPaths| {
      var r := RecordSpec(w, user, i);
      RecordOpens(w, user, i);
      RecordLoopOpens(w, user, i + 1);
      OpensAppend(r.effects, RecordsFrom(w, user, i + 1).effects);
    }
  }

  /** The record loop never sends the desktop notification, even if the
      process ends inside it. */
  lemma {:induction false} RecordLoopNoNotification(w: World, user: nat, i: nat)
    ensures Notifications(RecordsFrom(w, user, i).effects) == 0
    decreases |w.confPaths| - i
  {
    if i < |w.confPaths| {
      var r := RecordSpec(w, user, i);
      RecordOpens(w, user, i);
      if !r.exited {
        RecordLoopNoNotification(w, user, i + 1);
        OpensAppend(r.effects, RecordsFrom(w, user, i + 1).effects);
      }
    }
  }

  // ---------------------------------------------------------------------------
  // Properties of a whole release

  /** A release gets past every gate exactly when the session reads as unlocked,
      a pid is found, the trusted digest file exists and the digests match. */
  lemma VerifiedIff(w: World, user: nat, budget: int)
    ensures var r := ReleaseSpec(w, user, budget);
      var p := ProbeFrom(w, user, budget, 0);
      r.gate == Verified <==>
        !LockedNow(w) && p.pid != 0 && !p.exited && w.trustedHash.Some? &&
        !Mismatch(ComputedDigest(w.exeDigest(p.pid)), w.trustedHash.value)
  {
  }

  /** The trace of a release at each gate: nothing when the session is locked,
      the lookup's log when no service or no digest file is found, the log and
      one notification on a mismatch, and the log and the record loop's trace
      when verified. */
  lemma ReleaseTrace(w: World, user: nat, budget: int)
    ensures var r, p := ReleaseSpec(w, user, budget), ProbeFrom(w, user, budget, 0);
      && (r.gate == SessionLocked ==> r == Outcome(SessionLocked, [], false))
      && (r.gate == SessionLocked <==> LockedNow(w))
      && (r.gate == NoService || r.gate == NoTrustedHash ==> r.effects == p.effects)
      && (r.gate == DigestMismatch ==> r.effects == p.effects + [MismatchNotified(p.pid, ExePath(w, p.pid))])
      && (r.gate == Verified ==> r.effects == p.effects + RecordsFrom(w, user, 0).effects)
  {
  }

  /** A mismatch notification is no openDatabase call. */
  lemma NoticeTrace(e: Effect)
    requires e.MismatchNotified?
    ensures Opens([e]) == [] && Notifications([e]) == 1
  {
    assert [e][..0] == [];
  }

  /** No openDatabase call happens unless every gate passed; a locked session
      stops the release before anything else. */
  lemma NothingReleasedUnlessVerified(w: World, user: nat, budget: int)
    ensures var r := ReleaseSpec(w, user, budget);
      r.gate != Verified ==> Opens(r.effects) == []
    ensures LockedNow(w) ==> ReleaseSpec(w, user, budget) == Outcome(SessionLocked, [], false)
  {
    var r, p := ReleaseSpec(w, user, budget), ProbeFrom(w, user, budget, 0);
    ReleaseTrace(w, user, budget);
    ProbeLogsOnly(w, user, budget);
    if r.gate == DigestMismatch {
      var notice := [MismatchNotified(p.pid, ExePath(w, p.pid))];
      NoticeTrace(notice[0]);
      OpensAppend(p.effects, notice);
    }
  }

  /** The only release that notifies is the one stopped by a digest mismatch,
      and it notifies once. */
  lemma OnlyMismatchNotifies(w: World, user: nat, budget: int)
    ensures var r := ReleaseSpec(w, user, budget);
      Notifications(r.effects) == if r.gate == DigestMismatch then 1 else 0
  {
    var r, p := ReleaseSpec(w, user, budget), ProbeFrom(w, user, budget, 0);
    ReleaseTrace(w, user, budget);
    ProbeLogsOnly(w, user, budget);
    if r.gate == DigestMismatch {
      var notice := [MismatchNotified(p.pid, ExePath(w, p.pid))];
      NoticeTrace(notice[0]);
      OpensAppend(p.effects, notice);
    } else if r.gate == Verified {
      RecordLoopNoNotification(w, user, 0);
      OpensAppend(p.effects, RecordsFrom(w, user, 0).effects);
    }
  }

  /** Any openDatabase call means the executable serving the bus name has the
      trusted digest: the digest file's first line is the hex text of its SHA-512. */
  lemma OpenImpliesDigestMatch(w: World, user: nat, budget: int)
    requires Opens(ReleaseSpec(w, user, budget).effects) != []
    ensures !LockedNow(w)
    ensures var p := ProbeFrom(w, user, budget, 0);
      p.pid != 0 && w.trustedHash.Some? && w.exeDigest(p.pid).Some? &&
      TrustedDigest(w.trustedHash.value) == Some(Hex(w.exeDigest(p.pid).value))
  {
    NothingReleasedUnlessVerified(w, user, budget);
  }

  /** Every record that passes gets exactly one call, in directory order, when the
      release is verified and the process survives it. */
  lemma VerifiedReleaseOpens(w: World, user: nat, budget: int)
    requires ReleaseSpec(w, user, budget).gate == Verified
    requires !ReleaseSpec(w, user, budget).exited
    ensures Opens(ReleaseSpec(w, user, budget).effects) == PassingOpens(w, user, 0)
  {
    ProbeLogsOnly(w, user, budget);
    RecordLoopOpens(w, user, 0);
    OpensAppend(ProbeFrom(w, user, budget, 0).effects, RecordsFrom(w, user, 0).effects);
  }

  /** The trusted digest file is read with fgets into 129 bytes, so whatever
      follows the first 128 characters of its first line is never compared. */
  lemma TrailingTextAfterDigestIgnored(hex: string, rest: string)
    requires |hex| == SHA512_BUFFER_SIZE - 1 && '\n' !in hex && NUL !in hex
    ensures TrustedDigest(hex + rest) == Some(hex)
  {
    var content := hex + rest;
    var k := IndexOf(content, '\n');
    assert forall j :: 0 <= j < |hex| ==> content[j] == hex[j];
    assert forall j :: 0 <= j < |hex| ==> content[j] != '\n';
    assert k >= |hex|;
    assert Min(k, SHA512_BUFFER_SIZE - 1) == |hex|;
    assert content[..|hex|] == hex;
    assert IndexOf(hex, NUL) == |hex|;
    assert CString(hex) == hex;
  }

  // ---------------------------------------------------------------------------
  // The code

  /** Every character is NUL. */
  predicate AllNul(s: string) {
    forall k :: 0 <= k < |s| ==> s[k] == NUL
  }

  /** The buffer holds nothing but NULs. */
  predicate Zeroed(buf: array<char>)
    reads buf
  {
    AllNul(buf[..])
  }

  /** memset(buf, 0, buf.Length) */
  method ZeroFill(buf: array<char>)
    modifies buf
    ensures Zeroed(buf)
  {
    forall k | 0 <= k < buf.Length {
      buf[k] := NUL;
    }
  }

  /** fread(buf, 1, buf.Length, pipe) from a pipe that produces `output`. */
  method ReadInto(buf: array<char>, output: string) returns (n: nat)
    modifies buf
    ensures n == Min(|output|, buf.Length)
    ensures buf[..n] == output[..n]
    ensures buf[n..] == old(buf[n..])
  {
    n := Min(|output|, buf.Length);
    forall k | 0 <= k < n {
      buf[k] := output[k];
    }
  }

  /** The pid lookup loop (lines 204-213). */
  method ProbePid(p: Process, w: World, user: nat, budget: int) returns (pid: nat, effects: seq<Effect>, exited: bool)
    requires p.Alive() && p.euid == ROOT
    modifies p
    ensures Probe(pid, effects, exited) == ProbeFrom(w, user, budget, 0)
    ensures exited <==> p.exitStatus == Some(1)
    ensures !exited ==> p.Alive() && p.euid == ROOT
  {
    pid, effects, exited := 0, [], false;
    var i: nat := 0;
    while i < budget
      invariant p.Alive() && p.euid == ROOT
      invariant var rest := ProbeFrom(w, user, budget, i);
        ProbeFrom(w, user, budget, 0) == Probe(rest.pid, effects + rest.effects, rest.exited)
    {
      // switch to the user: the session bus belongs to them
      p.ChangeEuid(user, w.seteuidOk(ProbeAttempt(i), user));
      var reply := w.pidReply(i);
      var log := if reply.NoSessionBus? && i == budget - 1 then [BusErrorLogged(i)] else [];
      var found := PidOf(reply);
      p.ChangeEuid(ROOT, w.seteuidOk(ProbeAttempt(i), ROOT));
      if !p.Alive() {
        effects, exited := effects + log, true;
        return;
      }
      if found != 0 {
        pid, effects := found, effects + log;
        return;
      }
      var rest := ProbeFrom(w, user, budget, i + 1);
      ConcatAssoc(effects, log, rest.effects);
      effects := effects + log;
      i := i + 1;
    }
    assert effects + [] == effects;
  }

  /** One iteration of the record loop (lines 271-341), entered with the
      password buffer cleared. */
  method ReleaseRecord(p: Process, passwd: array<char>, w: World, user: nat, i: nat)
    returns (effects: seq<Effect>, exited: bool)
    requires i < |w.confPaths|
    requires p.Alive() && p.euid == ROOT && passwd.Length == MAX_PASSWORD_SIZE
    requires Zeroed(passwd)
    modifies p, passwd
    ensures Progress(effects, exited) == RecordSpec(w, user, i)
    ensures exited <==> p.exitStatus == Some(1)
    ensures !exited ==> p.Alive() && p.euid == ROOT
  {
    effects, exited := [], false;
    var path := w.confPaths[i];
    var file := w.confFile(path);
    if file.None? {
      return;    // failed to open the configuration file
    }
    var h, blob := ParseRecord(file.value);
    var name := RecordName(path);
    if !w.popenOk(i) {
      return;    // failed to run systemd-creds
    }
    effects := [DecryptRun(path, h.startLine, name)];
    var output := w.unseal(blob, name);
    var n := ReadInto(passwd, output);
    if n == MAX_PASSWORD_SIZE {
      return;    // password too long
    }
    passwd[n] := NUL;
    assert output[..n] == output;
    assert passwd[..] == output + [NUL] + passwd[n + 1..];
    CStringOfTerminated(output, passwd[n + 1..]);
    var password := CString(passwd[..]);
    var up, down := w.seteuidOk(RecordCall(i), user), w.seteuidOk(RecordCall(i), ROOT);
    p.ChangeEuid(user, up);
    var asUid := p.euid;
    if !w.sessionBusOk(i) {
      p.ChangeEuid(ROOT, down);
      exited := !p.Alive();
      return;
    }
    effects := effects + [OpenDatabase(h.db, password, h.key, asUid)];
    p.ChangeEuid(ROOT, down);
    exited := !p.Alive();
  }

  /** The loop's account of the records: what the records before `i` produced,
      followed by what the loop from `i` on produces, is the whole loop. */
  predicate RecordsAccounted(w: World, user: nat, i: nat, done: seq<Effect>) {
    var all, rest := RecordsFrom(w, user, 0), RecordsFrom(w, user, i);
    all.effects == done + rest.effects && all.exited == rest.exited
  }

  /** Record `i` either ends the loop with the whole account or moves it on by one. */
  lemma RecordsAccountStep(w: World, user: nat, i: nat, done: seq<Effect>, e: seq<Effect>, ex: bool)
    requires i < |w.confPaths| && RecordsAccounted(w, user, i, done)
    requires Progress(e, ex) == RecordSpec(w, user, i)
    ensures ex ==> RecordsFrom(w, user, 0) == Progress(done + e, true)
    ensures !ex ==> RecordsAccounted(w, user, i + 1, done + e)
  {
    ConcatAssoc(done, e, RecordsFrom(w, user, i + 1).effects);
  }

  /** Past the last record the account is the whole loop. */
  lemma RecordsAccountDone(w: World, user: nat, done: seq<Effect>)
    requires RecordsAccounted(w, user, |w.confPaths|, done)
    ensures RecordsFrom(w, user, 0) == Progress(done, false)
  {
    assert done + [] == done;
  }

  /** One pass of the record loop body: the buffer is cleared, then record `i`
      is released, and the loop's account moves on. */
  method RecordLoopStep(p: Process, passwd: array<char>, w: World, user: nat, i: nat, done: seq<Effect>)
    returns (effects: seq<Effect>, exited: bool)
    requires i < |w.confPaths| && RecordsAccounted(w, user, i, done)
    requires p.Alive() && p.euid == ROOT && passwd.Length == MAX_PASSWORD_SIZE
    modifies p, passwd
    ensures exited ==> RecordsFrom(w, user, 0) == Progress(effects, true)
    ensures !exited ==> RecordsAccounted(w, user, i + 1, effects)
    ensures exited <==> p.exitStatus == Some(1)
    ensures !exited ==> p.Alive() && p.euid == ROOT
  {
    ZeroFill(passwd);
    var e;
    e, exited := ReleaseRecord(p, passwd, w, user, i);
    RecordsAccountStep(w, user, i, done, e, exited);
    effects := done + e;
  }

  /** The record loop (lines 268-343) up to the last evaluation of its condition;
      the password buffer is cleared before each record. */
  method RecordLoop(p: Process, passwd: array<char>, w: World, user: nat)
    returns (effects: seq<Effect>, exited: bool)
    requires p.Alive() && p.euid == ROOT && passwd.Length == MAX_PASSWORD_SIZE
    modifies p, passwd
    ensures Progress(effects, exited) == RecordsFrom(w, user, 0)
    ensures exited <==> p.exitStatus == Some(1)
    ensures !exited ==> p.Alive() && p.euid == ROOT
  {
    effects, exited := [], false;
    var i := 0;
    while i < |w.confPaths| && !exited
      invariant 0 <= i <= |w.confPaths|
      invariant exited ==> RecordsFrom(w, user, 0) == Progress(effects, true) && p.exitStatus == Some(1)
      invariant !exited ==> p.Alive() && p.euid == ROOT && RecordsAccounted(w, user, i, effects)
    {
      // a failed switch back to root ends the process, and with it the loop
      effects, exited := RecordLoopStep(p, passwd, w, user, i, effects);
      i := i + 1;
    }
    if !exited {
      RecordsAccountDone(w, user, effects);
    }
  }

  /** The whole record loop: the buffer is cleared once more when the loop
      condition fails, so no password is left in it afterwards. */
  method ReleaseRecords(p: Process, passwd: array<char>, w: World, user: nat)
    returns (effects: seq<Effect>, exited: bool)
    requires p.Alive() && p.euid == ROOT && passwd.Length == MAX_PASSWORD_SIZE
    modifies p, passwd
    ensures Progress(effects, exited) == RecordsFrom(w, user, 0)
    ensures exited <==> p.exitStatus == Some(1)
    ensures !exited ==> p.Alive() && p.euid == ROOT && Zeroed(passwd)
  {
    effects, exited := RecordLoop(p, passwd, w, user);
    if !exited {
      ZeroFill(passwd);
    }
  }

  /** unlock_databases(user_id, conn, session_path, wait_secs). */
  method UnlockDatabases(p: Process, passwd: array<char>, w: World, user: nat, budget: int)
    returns (out: Outcome)
    requires p.Alive() && p.euid == ROOT && passwd.Length == MAX_PASSWORD_SIZE
    modifies p, passwd
    ensures out == ReleaseSpec(w, user, budget)
    ensures out.exited <==> p.exitStatus == Some(1)
    ensures !out.exited ==> p.Alive() && p.euid == ROOT
    ensures out.gate != Verified ==> passwd[..] == old(passwd[..])
    ensures out.gate == Verified && !out.exited ==> Zeroed(passwd)
  {
    if LockedNow(w) {
      return Outcome(SessionLocked, [], false);
    }
    var pid, effects, exited := ProbePid(p, w, user, budget);
    if exited || pid == 0 {
      return Outcome(NoService, effects, exited);
    }
    if w.trustedHash.None? {
      return Outcome(NoTrustedHash, effects, false);
    }
    var current := new char[SHA512_BUFFER_SIZE];
    var computed: Option<string> := None;
    var digest := w.exeDigest(pid);
    if digest.Some? {
      var len := HexEncode(digest.value, current);
      if len != 0 {
        computed := Some(current[..len]);
      }
    }
    var expected := TrustedDigest(w.trustedHash.value);
    var mismatch := computed.None? || expected.None? || computed.value != expected.value;
    if mismatch {
      return Outcome(DigestMismatch, effects + [MismatchNotified(pid, ExePath(w, pid))], false);
    }
    var e, ex := ReleaseRecords(p, passwd, w, user);
    out := Outcome(Verified, effects + e, ex);
  }
}
