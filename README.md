# pam-keepassxc session unlock, modelled in Dafny

pam-keepassxc unlocks a user's KeePassXC databases when that user logs in or
unlocks the screen. Two root daemons do the work:

- the **login watcher** (`src/login-monitor.c`) listens for logind's
  `SessionNew` signal. For each new session that is a valid unlock target of a
  user with configured databases, it writes the session path into the user's
  `session.env` descriptor. Then it starts `keepassxc-unlock@<uid>.service`;
- the **session monitor** (`systemd/keepassxc-unlock.c`) is that service. It
  takes a user name or uid and picks the user's first valid X11/Wayland
  session. It releases the databases once at startup, then watches the
  session's `PropertiesChanged` signals, releasing again on an unlock (budget
  10) or an activation (budget 30). It stops when logind reports the session
  removed.

A *release* (`unlock_databases`) passes through fixed gates, and every one
fails closed:

1. the session reads as unlocked;
2. a process owns KeePassXC's bus name within a number of attempts, each made
   with the effective uid switched to the user and back to root;
3. the trusted digest file exists;
4. the SHA-512 of that process's executable, in lowercase hex, equals the
   file's first line.

Only then is each record file `<uid>/*.conf` read. Its `DB=`/`KEY=` header is
parsed and its encrypted blob is piped through `systemd-creds`. The plaintext
password goes to KeePassXC in one `openDatabase(db, password, key)` call for
each record.

The model is imperative where the C code is:

- the process's effective uid and exit status form a class (`Privilege.Process`);
- the session monitor's loop state forms a class (`Monitor.SessionMonitor`);
- the watcher's files and effect trace form a class (`Watcher.LoginWatcher`);
- the password and digest buffers are arrays;
- every loop of the C code is a `while` loop with invariants.

Each method is proved equal to a reference function of its inputs
(`ReleaseSpec`, `RecordsFrom`, `ProbeFrom`, `Triggered`, `MainStatus`,
`NewSessionEffects`, …), and lemmas state what the code promises about those
functions. Everything the programs ask of the outside world is an input:

- D-Bus replies;
- files and directory listings;
- `seteuid` answers;
- `systemd-creds` output;
- SHA-512 digests;
- the account database;
- the order of incoming signals.

The k-th release of a monitor meets the k-th `World`.

Files:

- `base.dfy`: Option, C strings, `strcspn`/`strrchr`/`strstr`, and decimal formatting and parsing.
- `args.dfy`: `strtoul` and the uid-or-name classification of main's argument.
- `hex.dfy`: the hex half of `sha512sum`.
- `records.dfy`: the record file parser and the record name.
- `privilege.dfy`: `change_euid`.
- `release.dfy`: `unlock_databases`.
- `selector.dfy`: `select_session` and its retry loop.
- `monitor.dfy`: the session monitor's handlers, loop and `main`.
- `watcher.dfy`: the login watcher.

## Model

| member | source | states |
|---|---|---|
| Base.IndexOf | systemd/keepassxc-unlock.c:235 | strcspn for one character: the first index of `c`, or the length when `c` is absent |
| Base.CString | systemd/keepassxc-unlock.c:317 | the C string held by a buffer: a NUL-free prefix, ending at the first NUL if there is one |
| Base.CStringOfTerminated | systemd/keepassxc-unlock.c:311-317 | data followed by a NUL and anything else reads back as the data's C string |
| Base.LastIndexOf | systemd/keepassxc-unlock.c:298 | strrchr: None exactly when `c` is absent; otherwise an index holding `c` with no `c` after it |
| Base.Find | systemd/keepassxc-unlock.c:299 | strstr: None only when the pattern occurs nowhere; otherwise its first occurrence |
| Base.NatToString | src/login-monitor.c:40 | `%u` formatting gives a non-empty string of decimal digits with no leading zero |
| Base.DecimalRoundTrip | src/login-monitor.c:40 | reading a formatted uid back gives the same number |
| Arguments.SpacesEnd | systemd/keepassxc-unlock.c:419 | strtoul's leading white-space skip: every character before the result is a space and the one at it is not |
| Arguments.StrtoulValue | systemd/keepassxc-unlock.c:419 | strtoul's value: at most ULONG_MAX |
| Arguments.UidOf | systemd/keepassxc-unlock.c:419 | assigning to uid_t keeps a value below 2^32 |
| Arguments.DecimalArg | systemd/keepassxc-unlock.c:419-420 | an all-digit argument passes the numeric test, and strtoul reads its value saturated at ULONG_MAX |
| Arguments.DecimalArgLooksUpTruncatedUid | systemd/keepassxc-unlock.c:419-421 | a decimal argument up to ULONG_MAX is looked up with getpwuid on its low 32 bits |
| Arguments.UidArgLooksUpUid | systemd/keepassxc-unlock.c:419-421 | a decimal uid below 2^32 is looked up as that uid |
| Arguments.NameArgLooksUpName | systemd/keepassxc-unlock.c:420-423 | an argument starting with a letter or `_` is looked up with getpwnam |
| Arguments.EmptyArgIsAName | systemd/keepassxc-unlock.c:420-423 | the empty argument fails the numeric test and goes to getpwnam |
| Arguments.MinusOneIsLargestUid | systemd/keepassxc-unlock.c:419-421 | "-1" is numeric: strtoul negates it to ULONG_MAX, and uid_t keeps 2^32-1 |
| HexEncoding.HexDigit | systemd/keepassxc-unlock.c:176 | every digit `%02x` prints is a lowercase hex digit |
| HexEncoding.HexValue | systemd/keepassxc-unlock.c:176 | the inverse of HexDigit |
| HexEncoding.Hex | systemd/keepassxc-unlock.c:174-177 | the hex text has two characters per digest byte |
| HexEncoding.HexAt | systemd/keepassxc-unlock.c:174-177 | byte i appears as characters 2i and 2i+1, high nibble first |
| HexEncoding.HexIsLowercase | systemd/keepassxc-unlock.c:176 | every character of the hex text is a lowercase hex digit |
| HexEncoding.HexInjective | systemd/keepassxc-unlock.c:230-236 | equal hex texts come only from equal digests, so the string comparison decides digest equality |
| HexEncoding.HexEqualIff | systemd/keepassxc-unlock.c:230-236 | the hex texts are equal exactly when the digests are |
| HexEncoding.HexEncode | systemd/keepassxc-unlock.c:172-179 | with the overflow guard corrected: returns 0 exactly when the buffer cannot hold 2n digits and a NUL; otherwise returns 2n, with the hex text and a NUL in the buffer |
| HexEncoding.PrintHexPair | systemd/keepassxc-unlock.c:176 | sprintf("%02x") writes two hex digits and a NUL after the text already in the buffer, and leaves every other byte as it was |
| HexEncoding.AsWrittenOverrunsOneByteBuffer | systemd/keepassxc-unlock.c:175-176 | as written, a one-byte buffer and a one-byte digest let sprintf write past the buffer |
| HexEncoding.AsWrittenSafeFromTwo | systemd/keepassxc-unlock.c:174-178 | as written, the guard never lets a write past a buffer of two bytes or more |
| Records.StopIndex | systemd/keepassxc-unlock.c:282-294 | the header scan stops at the first line that is none of `DB=`, `KEY=`, `PASSWORD:`; every earlier line is one of them |
| Records.ParseHeader | systemd/keepassxc-unlock.c:278-294 | the scan loop: the start line for `tail` counts every line read, including the one it stops at; `DB=` and `KEY=` take the last value before the stop, copied by strncpy up to any NUL |
| Records.ParseRecord | systemd/keepassxc-unlock.c:278-305 | the header the file yields, and the blob `tail -n+N` passes to the decryptor |
| Records.LaterValueOverrides | systemd/keepassxc-unlock.c:284-289 | a later `DB=` or `KEY=` line overrides an earlier one; its value is read up to any NUL, and whole when it has none |
| Records.NoBlobLineTailIsLastLine | systemd/keepassxc-unlock.c:281-304 | when every line is a header line, `tail` starts at the last line, so the decryptor gets the last header line |
| Records.BlobStartsAtFirstOtherLine | systemd/keepassxc-unlock.c:290-304 | when a non-header line exists, the blob is everything from the first one on |
| Records.WellFormedRecordParses | systemd/keepassxc-unlock.c:278-305 | a `DB=`, `KEY=`, `PASSWORD:` header followed by a blob parses back to its db and key (as C strings) and blob; db and key without NUL come back whole |
| Records.RecordName | systemd/keepassxc-unlock.c:297-302 | the `--name` passed to systemd-creds: empty with no `/` in the path, and empty when no ".conf" follows the last `/`; otherwise the text between the last `/` and the first ".conf" after it |
| Records.RecordNameOfConfFile | systemd/keepassxc-unlock.c:297-302 | a file `<dir>/<stem>.conf` is named by its stem |
| Privilege.Process.ChangeEuid | systemd/keepassxc-unlock.c:96-106 | nothing happens when the euid is already the target; a successful seteuid switches; a failed switch to root exits with 1; a failed switch away from root keeps the euid and goes on |
| Release.ProbeFindsFirst | systemd/keepassxc-unlock.c:204-217 | the lookup returns the pid of the first attempt that finds one; the process ends on the first attempt whose switch back to root fails; otherwise 0 after `wait_secs` failed attempts |
| Release.BusErrorOnlyOnLastAttempt | systemd/keepassxc-unlock.c:114-136 | the session-bus error is logged at most once: on the last attempt, and exactly when that attempt is reached and finds no bus |
| Release.ProbeLogsOnly | systemd/keepassxc-unlock.c:204-217 | the lookup makes no openDatabase call and sends no notification |
| Release.ProbePid | systemd/keepassxc-unlock.c:203-213 | the loop computes ProbeFrom; the process has exited with 1 exactly when the lookup ended it, and is otherwise back at root |
| Release.RecordOpens | systemd/keepassxc-unlock.c:270-341 | one record makes one openDatabase call exactly when it passes: the file opens, popen works, the output fits in 4095 bytes and the session bus connects |
| Release.RecordLoopOpens | systemd/keepassxc-unlock.c:270-342 | when the process survives the loop, the openDatabase calls are exactly one per passing record, in glob order |
| Release.RecordLoopNoNotification | systemd/keepassxc-unlock.c:270-342 | the record loop never sends a mismatch notification |
| Release.ReleaseRecord | systemd/keepassxc-unlock.c:271-341 | one loop iteration, entered only with the password buffer cleared, computes RecordSpec: the decrypt command, the NUL-terminated password and the euid of the openDatabase call |
| Release.RecordLoop | systemd/keepassxc-unlock.c:268-343 | the loop computes RecordsFrom, each record released from a cleared buffer as ReleaseRecord requires; an exit inside it is the process's exit |
| Release.ReleaseRecords | systemd/keepassxc-unlock.c:268-344 | as RecordLoop, and the buffer holds no password once the loop ends |
| Release.ProbeFrom | systemd/keepassxc-unlock.c:204-217 | an attempt that ends the process yields no pid |
| Release.TrustedDigest | systemd/keepassxc-unlock.c:221-236 | no trusted digest exactly when the file is empty; otherwise a prefix of its content of at most 128 characters, with no newline and no NUL, that stops only at 128 characters, the end of the file, a newline or a NUL |
| Release.RecordSpec | systemd/keepassxc-unlock.c:271-341 | a record whose file does not open or whose decrypt pipe does not start leaves no trace; the process ends in a record only after its decryptor ran; at most two effects per record |
| Release.ReleaseSpec | systemd/keepassxc-unlock.c:188-345 | a release stops at the first gate exactly when the session reads as locked; it can end the process only in the pid lookup or the record loop |
| Release.VerifiedIff | systemd/keepassxc-unlock.c:190-263 | the records are reached exactly when the session reads unlocked, a pid is found, the digest file exists and the digests match |
| Release.NothingReleasedUnlessVerified | systemd/keepassxc-unlock.c:190-263 | no openDatabase call happens before every gate has passed; a locked session (or a failed LockedHint read) stops the release with no effect at all |
| Release.OnlyMismatchNotifies | systemd/keepassxc-unlock.c:238-263 | a release notifies once if it stops at the digest comparison, and otherwise never |
| Release.OpenImpliesDigestMatch | systemd/keepassxc-unlock.c:219-263 | any openDatabase call means the first line of the trusted digest file is the hex SHA-512 of the executable serving the bus name |
| Release.VerifiedReleaseOpens | systemd/keepassxc-unlock.c:265-345 | a verified release the process survives calls openDatabase once per passing record, in glob order |
| Release.TrailingTextAfterDigestIgnored | systemd/keepassxc-unlock.c:221-236 | fgets into 129 bytes: text after the first 128 characters of the digest line is never compared |
| Release.ZeroFill | systemd/keepassxc-unlock.c:270 | memset: every byte of the buffer is NUL |
| Release.ReadInto | systemd/keepassxc-unlock.c:311 | fread: reads min(output, buffer) bytes into the front of the buffer and leaves the rest untouched |
| Release.UnlockDatabases | systemd/keepassxc-unlock.c:188-345 | the release computes ReleaseSpec; it exits with 1 exactly when a switch back to root failed, and otherwise ends at root; before the records are reached the password buffer is untouched, and afterwards it is clear |
| Selector.FirstMatchFromIsFirst | systemd/keepassxc-unlock.c:52-61 | the search finds nothing exactly when no entry is the user's and valid; otherwise it finds the first such entry |
| Selector.SelectSession | systemd/keepassxc-unlock.c:32-65 | a failed ListSessions gives no session; otherwise the path of the first valid session of the user, in listing order |
| Selector.SelectedWithinIsFirstSuccess | systemd/keepassxc-unlock.c:449-457 | the retries give up exactly when every attempt finds nothing; otherwise they return what the first successful attempt found |
| Selector.SelectWithRetries | systemd/keepassxc-unlock.c:449-453 | at most 30 attempts; each earlier attempt found nothing; the result is the last attempt's, and it is None only after 30 failures |
| Monitor.PropertyOf | systemd/keepassxc-unlock.c:372-386 | the g_strcmp0 dispatch Trigger and Next use: LockedHint and Active are told apart from every other key by exact comparison |
| Monitor.Trigger | systemd/keepassxc-unlock.c:373-386 | only a LockedHint or Active entry can release, and always with budget 10 or 30 |
| Monitor.Next | systemd/keepassxc-unlock.c:373-386 | the locked flag changes only on a LockedHint entry, the active flag only on an Active entry, each to the reported value |
| Monitor.LockedHintEntry | systemd/keepassxc-unlock.c:373-379 | a LockedHint entry releases with budget 10 exactly when it reports unlocked after a locked state, and records the new locked flag |
| Monitor.ActiveEntry | systemd/keepassxc-unlock.c:380-386 | an Active entry releases with budget 30 exactly when it reports active after an inactive state while unlocked, and records the new active flag |
| Monitor.OtherEntryIgnored | systemd/keepassxc-unlock.c:372-387 | entries for other properties neither release nor change the flags |
| Monitor.RepeatedEntryQuiet | systemd/keepassxc-unlock.c:373-386 | the same report twice in a row releases at most once |
| Monitor.AfterAppend | systemd/keepassxc-unlock.c:372-387 | handling a dictionary in two parts is handling it whole, for both the flags and the releases |
| Monitor.TriggeredPrefix | systemd/keepassxc-unlock.c:372-387 | the releases of a prefix of the entries are a prefix of the releases |
| Monitor.TriggeredBudgets | systemd/keepassxc-unlock.c:373-386 | at most one release per entry, each with budget 10 or 30 |
| Monitor.LastReportWins | systemd/keepassxc-unlock.c:373-386 | the last LockedHint entry decides the locked flag, and the last Active entry the active flag |
| Monitor.UnreportedFlagKept | systemd/keepassxc-unlock.c:373-386 | a flag no entry reports keeps its value |
| Monitor.LockUnlockReleasesOnce | systemd/keepassxc-unlock.c:373-379 | lock then unlock releases once with budget 10, and a repeated unlock adds nothing |
| Monitor.OneSignalUnlockThenActivate | systemd/keepassxc-unlock.c:372-387 | within one signal, the Active entry sees the locked flag a preceding LockedHint entry left |
| Monitor.ActivationWhileLockedQuiet | systemd/keepassxc-unlock.c:380-386 | activating a session that is still locked releases nothing |
| Monitor.RemovalIndex | systemd/keepassxc-unlock.c:397-402 | the first SessionRemoved signal for the selected session, with none before it; None when there is none |
| Monitor.ChangesOfAppend | systemd/keepassxc-unlock.c:365-390 | the entries of one more signal follow those already seen |
| Monitor.ExtendReleases | systemd/keepassxc-unlock.c:188-345 | one more release in the next world keeps every release faithful to unlock_databases, and updates whether the process survived and whether any release was verified |
| Monitor.SessionMonitor.constructor | systemd/keepassxc-unlock.c:459-470 | main from the startup release: one release with budget 60 in the first world, then the flags unlocked and active |
| Monitor.SessionMonitor.Unlock | systemd/keepassxc-unlock.c:188-345 | one release with the given budget, made in the next world; the flags are unchanged |
| Monitor.SessionMonitor.HandleEntry | systemd/keepassxc-unlock.c:372-387 | one dictionary entry: the release it triggers, and the flags Next gives while the process lives |
| Monitor.SessionMonitor.HandleSessionEvent | systemd/keepassxc-unlock.c:365-390 | the entries in order: the flags After gives and the releases Triggered gives; if a release ends the process, the releases made are a prefix of those |
| Monitor.SessionMonitor.HandleSessionEnd | systemd/keepassxc-unlock.c:393-403 | quit exactly when the removed session is the selected one; nothing else changes |
| Monitor.SessionMonitor.Run | systemd/keepassxc-unlock.c:471-483 | signals are dispatched in order up to the removal of the session; the flags and releases are those of the handled signals' entries; the loop has quit exactly when the removal arrived |
| Monitor.Planned | systemd/keepassxc-unlock.c:460-483 | the planned releases start with the startup release of budget 60 |
| Monitor.EndedIffPlannedExits | systemd/keepassxc-unlock.c:460-483 | a monitor that stopped early has exited, and that happens exactly when some planned release, in its world, ends the process |
| Monitor.MainStatus | systemd/keepassxc-unlock.c:406-502 | main exits with 0 or 1 only, and a monitor still running has passed the argument and root checks |
| Monitor.MonitorMain | systemd/keepassxc-unlock.c:406-502 | the exit status is MainStatus; no release when a check before the startup release fails; the releases made are a prefix of the plan, and all of it while the loop still runs or after the session's removal ended it with 0 |
| Monitor.ExitZeroCases | systemd/keepassxc-unlock.c:432-501 | exit status 0 only when the user has no configuration, when 30 attempts find no session, or when the monitored session is removed |
| Monitor.StillRunning | systemd/keepassxc-unlock.c:471-483 | a main still running has a target, no release has ended it, and its session has not been removed |
| Watcher.NewSessionEffects | src/login-monitor.c:14-66 | a signal has effects only when the session is valid, its owner has configurations and the descriptor opens; then exactly two |
| Watcher.InvalidSessionIgnored | src/login-monitor.c:24-28 | a session that is not a valid target causes no write and no start |
| Watcher.UnconfiguredUserIgnored | src/login-monitor.c:31-36 | a user without configured databases causes no write and no start |
| Watcher.StartOnlyAfterWrite | src/login-monitor.c:24-65 | a signal has effects exactly when all three gates pass; they are then the descriptor write followed by the start of the owner's service |
| Watcher.DescriptorRoundTrip | src/login-monitor.c:51 | the session path written to `session.env` reads back from it |
| Watcher.UidInNames | src/login-monitor.c:39-60 | the uid can be read back from the descriptor path and from the service command |
| Watcher.UsersKeptApart | src/login-monitor.c:39-60 | different users get different descriptors and different services |
| Watcher.ApplyWriteThenStart | src/login-monitor.c:41-65 | a write followed by a start changes the files as the write does |
| Watcher.StartsFollowWritesAppend | src/login-monitor.c:14-66 | one more signal keeps every service start right behind the write of the same user's descriptor |
| Watcher.RunStartsFollowWrites | src/login-monitor.c:14-105 | in any run of signals, every service start comes right after the same user's descriptor write |
| Watcher.AtMostOneStartPerSignal | src/login-monitor.c:14-66 | a run starts at most one service per signal, and has at most two effects per signal |
| Watcher.LaterSessionOverwrites | src/login-monitor.c:41-52 | a later accepted session of the same user overwrites the descriptor: the file then holds the later path |
| Watcher.LoginWatcher.HandleNewSession | src/login-monitor.c:14-66 | the effects and new files of one signal are those of NewSessionEffects, and every start still follows its write |
| Watcher.LoginWatcher.Serve | src/login-monitor.c:103-105 | the signals are handled in order: the trace grows by EffectsOf, and the files are those effects applied to the old files |
| Watcher.WatcherStatus | src/login-monitor.c:69-101 | the watcher's only exit status is 1, and a running watcher is root and has no arguments |
| Watcher.WatcherFailsIff | src/login-monitor.c:69-101 | exit status 1 exactly when the process is not root, has arguments, or the bus or subscription fails; never 0 |
| Watcher.WatcherMain | src/login-monitor.c:69-113 | the status is WatcherStatus; no effects when a check fails; otherwise the effects of the signals, each start right after its write |

## Left out

- Bus messages (GDBus, GVariant, GMainLoop dispatch, subscriptions) are not modelled. What the calls answer is an input: a `World` for each release, a `Host` for main, and a list of signals already filtered to the subscriptions.
- OpenSSL and the read loop of sha512sum are not modelled. The digest of `/proc/<pid>/exe` is an input; only the hex encoding is modelled.
- Four external steps are inputs: `popen` of `tail … | systemd-creds …`, `system()` of notify-send, `system()` of systemctl, and `readlink`. Only whether `popen` started (`popenOk`), what the pipe printed (`unseal`) and the link `readlink` returned (`exeLink`, used in the mismatch report) are modelled. The exit status `pclose` returns is discarded by the code (line 312), so a failed decrypt yields whatever it printed. The two `system()` statuses only choose a log message, so they are not modelled.
- The result of the openDatabase call is only logged. The model records the call, not its answer.
- `session_valid_for_unlock` and `user_has_db_configs` (the common library) and libc's `getpwuid`/`getpwnam` are not modelled. Their answers are inputs.
- `glob` is the sequence of matched paths. A failed glob and a glob without matches are both the empty sequence.
- `sleep(1)` between attempts, `setenv` of DBUS_SESSION_BUS_ADDRESS and log text are left out, because none of them changes what is released.
- Fixed-size buffers are not modelled: the truncation `snprintf` applies to paths and commands (128, 256 and 1024 bytes). The same goes for fgets splitting record lines longer than PATH_MAX and `strncpy` truncating `DB=`/`KEY=` values at PATH_MAX - 1 bytes (its stop at a NUL is modelled). Each would need the lengths of configured paths, which are inputs of arbitrary size.
- The shell quoting of the decrypt command is not modelled. A record path containing a quote would change the command.
- Record names of 128 characters or more are taken whole. In the code, `strncpy` then leaves `conf_name` unterminated (line 301).
- `%d` printing of the uid in paths is taken as `%u`. The two differ only for uids of 2^31 and above.
- `KP_CONFIG_DIR` is a parameter of the watcher, and its files are a map.
- Release.UnlockDatabases: the password buffer is a stack array of each call in the code. It is one array owned by the monitor and passed to every release here, so "untouched before the records" is stated about that array.
- Monitor.SessionMonitor.Run: if a release ends the process, the model only says that the releases made are a prefix of the planned ones; which prefix depends on the world of each release.
- Watcher.WatcherMain: the `return 0` after `g_main_loop_run` (line 112) is not reachable, since nothing quits the watcher's loop. A running watcher has no status (None).

## Where the code and its comments differ

The comment at `systemd/keepassxc-unlock.c:291` says the password starts after the `PASSWORD:` line. The code instead stops the header scan at the first line that is none of `DB=`, `KEY=` or `PASSWORD:`, and `tail -n+N` starts at that line. So a blob line that happens to start with `DB=`, `KEY=` or `PASSWORD:` is read as header. With no such line at all, `tail` starts at the last line of the file. The model follows the code (Records.BlobStartsAtFirstOtherLine, Records.NoBlobLineTailIsLastLine).

## Findings

| source | as written | input that shows it | evidently intended | confidence | as-written member | corrected member |
|---|---|---|---|---|---|---|
| systemd/keepassxc-unlock.c:175 | the guard `buf_len >= buffer_size - 2` is computed in size_t, so `buffer_size - 2` wraps around for buffers of 0 or 1 bytes and the guard never fires | `buffer_size` 1 and a one-byte digest: the first sprintf writes three bytes into a one-byte buffer | return 0 whenever the buffer cannot hold 2n digits and a NUL (`buf_len + 2 >= buffer_size`). The only caller passes 129 bytes, so the program itself is not affected | not executed | HexEncoding.AsWrittenOverrunsOneByteBuffer | HexEncoding.HexEncode |
