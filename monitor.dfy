/** The session monitor of systemd/keepassxc-unlock.c: the two flags it keeps
    about the selected session, the PropertiesChanged handler that decides when
    to release the databases, the SessionRemoved handler that ends the loop,
    and `main`, which checks its arguments, picks the session, releases once at
    startup and then runs the loop. Bus signals arrive as a list of events. */
module Monitor {
  import opened Base
  import opened Privilege
  import opened Release
  import opened Selector
  import opened Arguments

  /** The budgets (pid lookup attempts) unlock_databases is called with. */
  const UNLOCK_BUDGET: nat := 10
  const ACTIVATION_BUDGET: nat := 30
  const STARTUP_BUDGET: nat := 60

  /** The key of a dictionary entry, as g_strcmp0 tells them apart: the two
      properties the handler looks at, and any other property name. */
  datatype Property = LockedHint | Active | OtherProperty(name: string)

  /** The property a key names. */
  function PropertyOf(name: string): (p: Property)
    ensures p == LockedHint <==> name == "LockedHint"
    ensures p == Active <==> name == "Active"
    ensures p.OtherProperty? ==> p.name == name
  {
    if name == "LockedHint" then LockedHint else if name == "Active" then Active else OtherProperty(name)
  }

  /** One entry of the changed-properties dictionary: the property name and
      the boolean it carries when the name is LockedHint or Active (not looked
      at otherwise). */
  datatype Change = Change(key: string, value: bool)

  /** session_locked and session_active of session_loop_data. */
  datatype Flags = Flags(locked: bool, active: bool)

  /** The flags main starts the loop with (line 470). */
  const INITIAL_FLAGS: Flags := Flags(false, true)

  // ---------------------------------------------------------------------------
  // The decision of handle_session_event, one dictionary entry at a time

  /** The budget of the release one entry triggers, if it triggers one. */
  function Trigger(f: Flags, c: Change): (r: Option<nat>)
    ensures r.Some? ==> c.key == "LockedHint" || c.key == "Active"
    ensures r.Some? ==> r.value == UNLOCK_BUDGET || r.value == ACTIVATION_BUDGET
  {
    match PropertyOf(c.key)
    case LockedHint => if !c.value && f.locked then Some(UNLOCK_BUDGET) else None
    case Active => if c.value && !f.active && !f.locked then Some(ACTIVATION_BUDGET) else None
    case OtherProperty(_) => None
  }

  /** The flags after one entry. */
  function Next(f: Flags, c: Change): (g: Flags)
    ensures g.locked != f.locked ==> c.key == "LockedHint" && g.locked == c.value
    ensures g.active != f.active ==> c.key == "Active" && g.active == c.value
  {
    match PropertyOf(c.key)
    case LockedHint => f.(locked := c.value)
    case Active => f.(active := c.value)
    case OtherProperty(_) => f
  }

  function OptionList(o: Option<nat>): seq<nat> {
    if o.Some? then [o.value] else []
  }

  /** The flags after a sequence of entries, taken in order. */
  function After(f: Flags, cs: seq<Change>): Flags {
    if cs == [] then f else Next(After(f, cs[..|cs| - 1]), cs[|cs| - 1])
  }

  /** The budgets of the releases a sequence of entries triggers, in order. */
  function Triggered(f: Flags, cs: seq<Change>): seq<nat> {
    if cs == [] then []
    else Triggered(f, cs[..|cs| - 1]) + OptionList(Trigger(After(f, cs[..|cs| - 1]), cs[|cs| - 1]))
  }

  /** A LockedHint entry releases (with budget 10) exactly when it reports
      unlocked and the session was locked; the locked flag becomes the value
      reported and the active flag is untouched. */
  lemma LockedHintEntry(f: Flags, v: bool)
    ensures Trigger(f, Change("LockedHint", v)).Some? <==> !v && f.locked
    ensures Trigger(f, Change("LockedHint", v)).Some? ==> Trigger(f, Change("LockedHint", v)).value == UNLOCK_BUDGET
    ensures Next(f, Change("LockedHint", v)) == Flags(v, f.active)
  {
  }

  /** An Active entry releases (with budget 30) exactly when it reports active,
      the session was inactive and it is not locked now; the active flag becomes
      the value reported and the locked flag is untouched. */
  lemma ActiveEntry(f: Flags, v: bool)
    ensures Trigger(f, Change("Active", v)).Some? <==> v && !f.active && !f.locked
    ensures Trigger(f, Change("Active", v)).Some? ==> Trigger(f, Change("Active", v)).value == ACTIVATION_BUDGET
    ensures Next(f, Change("Active", v)) == Flags(f.locked, v)
  {
  }

  /** Entries for other properties neither release nor change the flags. */
  lemma OtherEntryIgnored(f: Flags, c: Change)
    requires c.key != "LockedHint" && c.key != "Active"
    ensures Trigger(f, c).None? && Next(f, c) == f
  {
  }

  /** Reporting the same value twice in a row releases at most once. */
  lemma RepeatedEntryQuiet(f: Flags, c: Change)
    ensures Trigger(Next(f, c), c).None?
  {
  }

  /** Processing a dictionary in two parts is processing it whole. */
  lemma {:induction false} AfterAppend(f: Flags, a: seq<Change>, b: seq<Change>)
    ensures After(f, a + b) == After(After(f, a), b)
    ensures Triggered(f, a + b) == Triggered(f, a) + Triggered(After(f, a), b)
    decreases |b|
  {
    if b == [] {
      assert a + b == a;
    } else {
      var b' := b[..|b| - 1];
      assert (a + b)[..|a + b| - 1] == a + b';
      assert (a + b)[|a + b| - 1] == b[|b| - 1];
      AfterAppend(f, a, b');
    }
  }

  /** One more entry: the loop functions unfolded once at position `i`. */
  lemma TriggeredStep(f: Flags, cs: seq<Change>, i: nat)
    requires i < |cs|
    ensures After(f, cs[..i + 1]) == Next(After(f, cs[..i]), cs[i])
    ensures Triggered(f, cs[..i + 1]) == Triggered(f, cs[..i]) + OptionList(Trigger(After(f, cs[..i]), cs[i]))
  {
    assert cs[..i + 1][..i] == cs[..i];
  }

  /** A prefix of the entries triggers a prefix of the releases. */
  lemma TriggeredPrefix(f: Flags, a: seq<Change>, b: seq<Change>)
    ensures Triggered(f, a) <= Triggered(f, a + b)
  {
    AfterAppend(f, a, b);
  }

  /** Stopping after `n` entries, the releases made are a prefix of those the
      whole dictionary would trigger. */
  lemma TriggeredOfPrefix(f: Flags, cs: seq<Change>, n: nat, done: seq<nat>)
    requires n <= |cs|
    ensures done + Triggered(f, cs[..n]) <= done + Triggered(f, cs)
  {
    TriggeredPrefix(f, cs[..n], cs[n..]);
    assert cs[..n] + cs[n..] == cs;
  }

  /** Every release the handler triggers has budget 10 or 30, and there is at
      most one per entry. */
  lemma {:induction false} TriggeredBudgets(f: Flags, cs: seq<Change>)
    ensures |Triggered(f, cs)| <= |cs|
    ensures forall k :: 0 <= k < |Triggered(f, cs)| ==>
      Triggered(f, cs)[k] == UNLOCK_BUDGET || Triggered(f, cs)[k] == ACTIVATION_BUDGET
  {
    if cs != [] {
      TriggeredBudgets(f, cs[..|cs| - 1]);
    }
  }

  /** The last LockedHint entry, if any, decides the locked flag; the last
      Active entry decides the active flag. */
  lemma {:induction false} LastReportWins(f: Flags, cs: seq<Change>, k: nat)
    requires k < |cs|
    ensures cs[k].key == "LockedHint" && (forall j :: k < j < |cs| ==> cs[j].key != "LockedHint") ==>
      After(f, cs).locked == cs[k].value
    ensures cs[k].key == "Active" && (forall j :: k < j < |cs| ==> cs[j].key != "Active") ==>
      After(f, cs).active == cs[k].value
    decreases |cs|
  {
    var front := cs[..|cs| - 1];
    if k < |cs| - 1 {
      LastReportWins(f, front, k);
    }
  }

  /** With no LockedHint entry the locked flag is kept, and with no Active
      entry the active flag is kept. */
  lemma {:induction false} UnreportedFlagKept(f: Flags, cs: seq<Change>)
    ensures (forall j :: 0 <= j < |cs| ==> cs[j].key != "LockedHint") ==> After(f, cs).locked == f.locked
    ensures (forall j :: 0 <= j < |cs| ==> cs[j].key != "Active") ==> After(f, cs).active == f.active
  {
    if cs != [] {
      UnreportedFlagKept(f, cs[..|cs| - 1]);
    }
  }

  /** Lock then unlock releases once with budget 10; a second unlock report
      releases nothing more. */
  lemma LockUnlockReleasesOnce(f: Flags)
    ensures Triggered(f, [Change("LockedHint", true), Change("LockedHint", false)]) == [UNLOCK_BUDGET]
    ensures Triggered(f, [Change("LockedHint", true), Change("LockedHint", false), Change("LockedHint", false)]) == [UNLOCK_BUDGET]
  {
    var cs := [Change("LockedHint", true), Change("LockedHint", false), Change("LockedHint", false)];
    assert cs[..2][..1] == [Change("LockedHint", true)];
    assert cs[..2] == [Change("LockedHint", true), Change("LockedHint", false)];
  }

  /** Within one signal the Active entry sees the locked flag left by a
      LockedHint entry before it: unlocking and activating a locked, inactive
      session in one signal releases twice, with budgets 10 and then 30. */
  lemma OneSignalUnlockThenActivate()
    ensures Triggered(Flags(true, false), [Change("LockedHint", false), Change("Active", true)]) ==
      [UNLOCK_BUDGET, ACTIVATION_BUDGET]
  {
    var cs := [Change("LockedHint", false), Change("Active", true)];
    assert cs[..1] == [Change("LockedHint", false)];
  }

  /** Activating a session that is still locked releases nothing: the
      activation trigger also asks for the session to be unlocked. */
  lemma ActivationWhileLockedQuiet(f: Flags)
    requires f.locked
    ensures Triggered(f, [Change("Active", true)]) == []
  {
  }

  // ---------------------------------------------------------------------------
  // Signals

  /** A signal of the main loop: PropertiesChanged on the selected session, or
      SessionRemoved on the login manager with the removed session's path. */
  datatype Event = PropertiesChanged(changes: seq<Change>) | SessionRemoved(path: string)

  /** All dictionary entries of a run of signals, in order. */
  function ChangesOf(events: seq<Event>): seq<Change> {
    if events == [] then []
    else
      var last := events[|events| - 1];
      ChangesOf(events[..|events| - 1]) + (if last.PropertiesChanged? then last.changes else [])
  }

  /** The position of the first SessionRemoved for `session`, if any. */
  function RemovalIndex(events: seq<Event>, session: string): (r: Option<nat>)
    ensures r.Some? ==> r.value < |events| && events[r.value] == SessionRemoved(session)
    ensures r.Some? ==> forall j :: 0 <= j < r.value ==> events[j] != SessionRemoved(session)
    ensures r.None? ==> forall j :: 0 <= j < |events| ==> events[j] != SessionRemoved(session)
  {
    if events == [] then None
    else if events[0] == SessionRemoved(session) then Some(0)
    else
      var r := RemovalIndex(events[1..], session);
      if r.Some? then Some(r.value + 1) else None
  }

  /** The signals the loop handles: up to and including the removal of the
      selected session. */
  function Handled(events: seq<Event>, session: string): seq<Event> {
    var r := RemovalIndex(events, session);
    if r.Some? then events[..r.value + 1] else events
  }

  lemma ChangesOfAppend(events: seq<Event>, e: Event)
    ensures ChangesOf(events + [e]) == ChangesOf(events) + (if e.PropertiesChanged? then e.changes else [])
  {
    assert (events + [e])[..|events|] == events;
  }

  // ---------------------------------------------------------------------------
  // The monitor

  /** Every release did what unlock_databases does in the world it met, with
      the budget it was given. */
  predicate Faithful(env: nat -> World, user: nat, budgets: seq<nat>, outcomes: seq<Outcome>) {
    |budgets| == |outcomes| &&
    forall k :: 0 <= k < |outcomes| ==> outcomes[k] == ReleaseSpec(env(k), user, budgets[k])
  }

  /** No release ended the process. */
  predicate Survived(outcomes: seq<Outcome>) {
    forall k :: 0 <= k < |outcomes| ==> !outcomes[k].exited
  }

  /** The last release ended the process and none before it did. */
  predicate Ended(outcomes: seq<Outcome>) {
    outcomes != [] && outcomes[|outcomes| - 1].exited && Survived(outcomes[..|outcomes| - 1])
  }

  /** Some release got through every gate. */
  predicate AnyVerified(outcomes: seq<Outcome>) {
    exists k :: 0 <= k < |outcomes| && outcomes[k].gate == Verified
  }

  /** What one more outcome does to the summaries of the outcomes. */
  lemma ExtendSummaries(outcomes: seq<Outcome>, o: Outcome)
    ensures Survived(outcomes) ==> (Survived(outcomes + [o]) <==> !o.exited)
    ensures Survived(outcomes) && o.exited ==> Ended(outcomes + [o])
    ensures AnyVerified(outcomes + [o]) <==> AnyVerified(outcomes) || o.gate == Verified
  {
    var os := outcomes + [o];
    assert os[..|outcomes|] == outcomes;
    assert os[|outcomes|] == o;
    if AnyVerified(os) && !AnyVerified(outcomes) {
      var k :| 0 <= k < |os| && os[k].gate == Verified;
      assert k == |outcomes|;
    }
    if AnyVerified(outcomes) {
      var k :| 0 <= k < |outcomes| && outcomes[k].gate == Verified;
      assert os[k] == outcomes[k];
    }
  }

  /** One more release, made in the next world, keeps the releases faithful. */
  lemma ExtendReleases(env: nat -> World, user: nat, budgets: seq<nat>, outcomes: seq<Outcome>, b: nat, o: Outcome)
    requires Faithful(env, user, budgets, outcomes) && o == ReleaseSpec(env(|outcomes|), user, b)
    ensures Faithful(env, user, budgets + [b], outcomes + [o])
    ensures Survived(outcomes) ==> (Survived(outcomes + [o]) <==> !o.exited)
    ensures Survived(outcomes) && o.exited ==> Ended(outcomes + [o])
    ensures AnyVerified(outcomes + [o]) <==> AnyVerified(outcomes) || o.gate == Verified
  {
    ExtendSummaries(outcomes, o);
    FaithfulAppend(env, user, budgets, outcomes, b, o);
  }

  lemma FaithfulAppend(env: nat -> World, user: nat, budgets: seq<nat>, outcomes: seq<Outcome>, b: nat, o: Outcome)
    requires Faithful(env, user, budgets, outcomes) && o == ReleaseSpec(env(|outcomes|), user, b)
    ensures Faithful(env, user, budgets + [b], outcomes + [o])
  {
    assert forall k :: 0 <= k < |outcomes| ==> (outcomes + [o])[k] == outcomes[k] && (budgets + [b])[k] == budgets[k];
  }

  /** The monitor process for one user and one session: session_loop_data, the
      process's effective uid, the password buffer of unlock_databases, and the
      releases made so far, as their budgets and outcomes. The k-th release
      meets the world `env(k)`. */
  class SessionMonitor {
    const user: nat
    const session: string
    const env: nat -> World
    const proc: Process
    const passwd: array<char>
    var locked: bool
    var active: bool
    var budgets: seq<nat>
    var outcomes: seq<Outcome>
    var quit: bool

    function State(): Flags
      reads this
    {
      Flags(locked, active)
    }

    /** Every release did what unlock_databases does in its world; only the last
        one can have ended the process, with status 1; a live process is back
        at root, and once any release got through the gates the password buffer
        is clear. */
    predicate Valid()
      reads this, proc, passwd
    {
      && passwd.Length == MAX_PASSWORD_SIZE
      && Faithful(env, user, budgets, outcomes)
      && (proc.Alive() ==> Survived(outcomes) && proc.euid == ROOT && (AnyVerified(outcomes) ==> Zeroed(passwd)))
      && (!proc.Alive() ==> proc.exitStatus == Some(1) && Ended(outcomes))
    }

    /** main from line 460 on: the startup release with budget 60, then
        session_loop_data = {loop, session_path, user_id, false, true}. */
    constructor (user: nat, session: string, env: nat -> World, proc: Process, passwd: array<char>)
      requires proc.Alive() && proc.euid == ROOT && passwd.Length == MAX_PASSWORD_SIZE
      modifies proc, passwd
      ensures this.user == user && this.session == session && this.env == env
      ensures this.proc == proc && this.passwd == passwd
      ensures Valid() && !quit && State() == INITIAL_FLAGS
      ensures budgets == [STARTUP_BUDGET] && outcomes == [ReleaseSpec(env(0), user, STARTUP_BUDGET)]
    {
      this.user := user;
      this.session := session;
      this.env := env;
      this.proc := proc;
      this.passwd := passwd;
      locked, active := false, true;
      budgets, outcomes := [], [];
      quit := false;
      new;
      Unlock(STARTUP_BUDGET);
    }

    /** unlock_databases(user_id, conn, session_path, budget). */
    method Unlock(budget: nat)
      requires Valid() && proc.Alive()
      modifies this, proc, passwd
      ensures Valid()
      ensures budgets == old(budgets) + [budget]
      ensures outcomes == old(outcomes) + [ReleaseSpec(env(|old(outcomes)|), user, budget)]
      ensures locked == old(locked) && active == old(active) && quit == old(quit)
    {
      var out := UnlockDatabases(proc, passwd, env(|outcomes|), user, budget);
      ExtendReleases(env, user, budgets, outcomes, budget, out);
      budgets, outcomes := budgets + [budget], outcomes + [out];
    }

    /** The body of the dictionary loop for one entry (lines 372-387). */
    method HandleEntry(c: Change)
      requires Valid() && proc.Alive()
      modifies this, proc, passwd
      ensures Valid() && quit == old(quit)
      ensures old(outcomes) <= outcomes
      ensures budgets == old(budgets) + OptionList(Trigger(old(State()), c))
      ensures proc.Alive() ==> State() == Next(old(State()), c)
    {
      if c.key == "LockedHint" {
        if !c.value && locked {
          Unlock(UNLOCK_BUDGET);
          if !proc.Alive() {
            return;    // exit(1) inside unlock_databases
          }
        } else {
          assert budgets == old(budgets) + [];
        }
        locked := c.value;
      } else if c.key == "Active" {
        if c.value && !active && !locked {
          Unlock(ACTIVATION_BUDGET);
          if !proc.Alive() {
            return;
          }
        } else {
          assert budgets == old(budgets) + [];
        }
        active := c.value;
      } else {
        assert budgets == old(budgets) + [];
      }
    }

    /** handle_session_event: the entries of the dictionary in order. If a
        release ends the process, nothing after it happens. */
    method HandleSessionEvent(changes: seq<Change>)
      requires Valid() && proc.Alive()
      modifies this, proc, passwd
      ensures Valid() && quit == old(quit)
      ensures old(outcomes) <= outcomes
      ensures proc.Alive() ==> State() == After(old(State()), changes)
      ensures proc.Alive() ==> budgets == old(budgets) + Triggered(old(State()), changes)
      ensures !proc.Alive() ==> budgets <= old(budgets) + Triggered(old(State()), changes)
    {
      ghost var f0, b0 := State(), budgets;
      var i := 0;
      while i < |changes|
        invariant i <= |changes|
        invariant Valid() && proc.Alive() && quit == old(quit)
        invariant old(outcomes) <= outcomes
        invariant State() == After(f0, changes[..i])
        invariant budgets == b0 + Triggered(f0, changes[..i])
      {
        var dead := EntryStep(changes, i, f0, b0);
        if dead {
          return;
        }
        i := i + 1;
      }
      assert changes[..i] == changes;
    }

    /** Entry `i` of the dictionary, with the loop's account of the entries
        before it. */
    method EntryStep(changes: seq<Change>, i: nat, ghost f0: Flags, ghost b0: seq<nat>) returns (dead: bool)
      requires i < |changes| && Valid() && proc.Alive()
      requires State() == After(f0, changes[..i]) && budgets == b0 + Triggered(f0, changes[..i])
      modifies this, proc, passwd
      ensures Valid() && quit == old(quit) && old(outcomes) <= outcomes
      ensures dead <==> !proc.Alive()
      ensures !dead ==> State() == After(f0, changes[..i + 1]) && budgets == b0 + Triggered(f0, changes[..i + 1])
      ensures dead ==> budgets <= b0 + Triggered(f0, changes)
    {
      TriggeredStep(f0, changes, i);
      ghost var added := OptionList(Trigger(State(), changes[i]));
      ConcatAssoc(b0, Triggered(f0, changes[..i]), added);
      HandleEntry(changes[i]);
      dead := !proc.Alive();
      if dead {
        TriggeredOfPrefix(f0, changes, i + 1, b0);
      }
    }

    /** handle_session_end: quit the loop when the removed session is the
        selected one. */
    method HandleSessionEnd(removed: string)
      modifies this
      ensures quit == (old(quit) || removed == session)
      ensures State() == old(State()) && budgets == old(budgets) && outcomes == old(outcomes)
    {
      if removed == session {
        quit := true;
      }
    }

    /** g_main_loop_run: the signals are dispatched in order until the selected
        session is removed or the process ends. */
    method Run(events: seq<Event>)
      requires Valid() && proc.Alive() && !quit
      modifies this, proc, passwd
      ensures Valid()
      ensures old(outcomes) <= outcomes
      ensures proc.Alive() ==> (quit <==> RemovalIndex(events, session).Some?)
      ensures proc.Alive() ==> State() == After(old(State()), ChangesOf(Handled(events, session)))
      ensures proc.Alive() ==> budgets == old(budgets) + Triggered(old(State()), ChangesOf(Handled(events, session)))
      ensures !proc.Alive() ==> budgets <= old(budgets) + Triggered(old(State()), ChangesOf(Handled(events, session)))
    {
      ghost var f0, b0 := State(), budgets;
      ghost var removal := RemovalIndex(events, session);
      var i := 0;
      while i < |events| && !quit
        invariant i <= |events|
        invariant Valid() && proc.Alive()
        invariant old(outcomes) <= outcomes
        invariant quit <==> removal.Some? && i == removal.value + 1
        invariant !quit ==> removal.None? || i <= removal.value
        invariant State() == After(f0, ChangesOf(events[..i]))
        invariant budgets == b0 + Triggered(f0, ChangesOf(events[..i]))
      {
        var dead := EventStep(events, i, f0, b0);
        if dead {
          return;
        }
        i := i + 1;
      }
      HandledIsPrefix(events, session, i);
    }

    /** Signal `i`, with the loop's account of the signals before it. */
    method EventStep(events: seq<Event>, i: nat, ghost f0: Flags, ghost b0: seq<nat>) returns (dead: bool)
      requires i < |events| && !quit && Valid() && proc.Alive()
      requires var r := RemovalIndex(events, session); r.None? || i <= r.value
      requires State() == After(f0, ChangesOf(events[..i])) && budgets == b0 + Triggered(f0, ChangesOf(events[..i]))
      modifies this, proc, passwd
      ensures Valid() && old(outcomes) <= outcomes
      ensures dead <==> !proc.Alive()
      ensures !dead ==> (quit <==> events[i] == SessionRemoved(session))
      ensures !dead ==> State() == After(f0, ChangesOf(events[..i + 1]))
      ensures !dead ==> budgets == b0 + Triggered(f0, ChangesOf(events[..i + 1]))
      ensures dead ==> budgets <= b0 + Triggered(f0, ChangesOf(Handled(events, session)))
    {
      var e := events[i];
      ChangesOfStep(events, i);
      ghost var seen := ChangesOf(events[..i]);
      match e {
        case PropertiesChanged(changes) =>
          AfterAppend(f0, seen, changes);
          ghost var before := budgets;
          HandleSessionEvent(changes);
          dead := !proc.Alive();
          ghost var upTo := b0 + Triggered(f0, ChangesOf(events[..i + 1]));
          ConcatAssoc(b0, Triggered(f0, seen), Triggered(After(f0, seen), changes));
          if dead {
            HandledTriggers(f0, events, session, i, b0);
            PrefixTransitive(budgets, upTo, b0 + Triggered(f0, ChangesOf(Handled(events, session))));
          }
        case SessionRemoved(path) =>
          HandleSessionEnd(path);
          dead := false;
      }
    }
  }

  /** The entries of the first `i + 1` signals: those of the first `i`, then signal `i`'s. */
  lemma ChangesOfStep(events: seq<Event>, i: nat)
    requires i < |events|
    ensures ChangesOf(events[..i + 1]) ==
      ChangesOf(events[..i]) + (if events[i].PropertiesChanged? then events[i].changes else [])
    ensures events[i].SessionRemoved? ==> ChangesOf(events[..i + 1]) == ChangesOf(events[..i])
  {
    assert events[..i + 1] == events[..i] + [events[i]];
    ChangesOfAppend(events[..i], events[i]);
    assert ChangesOf(events[..i]) + [] == ChangesOf(events[..i]);
  }

  /** Ending the process while handling signal `i`, the releases made are a
      prefix of those the handled signals would trigger. */
  lemma HandledTriggers(f: Flags, events: seq<Event>, session: string, i: nat, done: seq<nat>)
    requires i < |events|
    requires var r := RemovalIndex(events, session); r.None? || i <= r.value
    ensures done + Triggered(f, ChangesOf(events[..i + 1])) <= done + Triggered(f, ChangesOf(Handled(events, session)))
  {
    HandledExtends(events, session, i);
    var upTo, all := ChangesOf(events[..i + 1]), ChangesOf(Handled(events, session));
    TriggeredMonotone(f, upTo, all);
    PrefixAfter(done, Triggered(f, upTo), Triggered(f, all));
  }

  /** More entries trigger more releases: the releases of a prefix of the
      entries are a prefix of theirs. */
  lemma TriggeredMonotone(f: Flags, a: seq<Change>, b: seq<Change>)
    requires a <= b
    ensures Triggered(f, a) <= Triggered(f, b)
  {
    TriggeredPrefix(f, a, b[|a|..]);
    assert a + b[|a|..] == b;
  }

  /** The signals the loop looks at before stopping of its own accord. */
  lemma HandledIsPrefix(events: seq<Event>, session: string, i: nat)
    requires i <= |events|
    requires var r := RemovalIndex(events, session);
      if r.Some? then i == r.value + 1 else i == |events|
    ensures Handled(events, session) == events[..i]
  {
  }

  /** Stopping early, the changes seen are a prefix of those the whole loop sees. */
  lemma HandledExtends(events: seq<Event>, session: string, i: nat)
    requires i < |events|
    requires var r := RemovalIndex(events, session); r.None? || i < r.value + 1
    ensures ChangesOf(events[..i + 1]) <= ChangesOf(Handled(events, session))
  {
    var h := Handled(events, session);
    assert h[..i + 1] == events[..i + 1];
    ChangesOfPrefix(h, i + 1);
  }

  /** The changes of a prefix of the signals are a prefix of their changes. */
  lemma {:induction false} ChangesOfPrefix(events: seq<Event>, n: nat)
    requires n <= |events|
    ensures ChangesOf(events[..n]) <= ChangesOf(events)
    decreases |events| - n
  {
    if n == |events| {
      assert events[..n] == events;
    } else {
      ChangesOfPrefix(events, n + 1);
      ChangesOfAppend(events[..n], events[n]);
      assert events[..n + 1] == events[..n] + [events[n]];
    }
  }

  // ---------------------------------------------------------------------------
  // main

  /** The budgets of every release a monitor of `session` would make on these
      signals if none of them ended the process: the startup release, then
      those the handled signals trigger from the initial flags. */
  function Planned(events: seq<Event>, session: string): (r: seq<nat>)
    ensures r != [] && r[0] == STARTUP_BUDGET
  {
    [STARTUP_BUDGET] + Triggered(INITIAL_FLAGS, ChangesOf(Handled(events, session)))
  }

  /** Some release with these budgets, the k-th meeting world `env(k)`, ends
      the process. */
  predicate AnyExits(env: nat -> World, user: nat, planned: seq<nat>) {
    exists k :: 0 <= k < |planned| && ReleaseSpec(env(k), user, planned[k]).exited
  }

  /** A monitor that stopped early has ended the process, and one that went on
      survived every planned release; the process ends exactly when some
      planned release ends it. */
  lemma EndedIffPlannedExits(env: nat -> World, user: nat, budgets: seq<nat>, outcomes: seq<Outcome>, planned: seq<nat>)
    requires Faithful(env, user, budgets, outcomes)
    requires (Survived(outcomes) && budgets == planned) || (Ended(outcomes) && budgets <= planned)
    ensures Ended(outcomes) <==> AnyExits(env, user, planned)
  {
    if Survived(outcomes) && budgets == planned {
      assert outcomes != [] ==> !outcomes[|outcomes| - 1].exited;
      forall k | 0 <= k < |planned|
        ensures !ReleaseSpec(env(k), user, planned[k]).exited
      {
        assert outcomes[k] == ReleaseSpec(env(k), user, budgets[k]);
      }
    } else {
      var k := |outcomes| - 1;
      assert outcomes[k] == ReleaseSpec(env(k), user, budgets[k]);
      assert planned[k] == budgets[k];
    }
  }

  /** What the monitor's surroundings answer: its effective uid at start, the
      account database, user_has_db_configs, whether the system bus connects,
      the k-th session listing, the world the k-th release meets, and whether
      the two signal subscriptions succeed. */
  datatype Host = Host(
    euid: nat,
    accounts: Accounts,
    hasConfigs: nat -> bool,
    systemBusOk: bool,
    listings: nat -> Listing,
    releases: nat -> World,
    sessionSubscribeOk: bool,
    loginSubscribeOk: bool)

  /** Reference definition of main's exit status, with the checks in the order
      the code makes them; None while the loop is still running after the
      signals given. */
  function MainStatus(argv: seq<string>, h: Host, events: seq<Event>): (r: Option<int>)
    ensures r.Some? ==> r.value == 0 || r.value == 1
    // a monitor still running got past the argument and privilege checks
    ensures r.None? ==> |argv| == 2 && h.euid == ROOT
  {
    if |argv| != 2 then Some(1)    // usage
    else if h.euid != ROOT then Some(1)
    else
      var user := ArgUser(argv[1], h.accounts);
      if user.None? then Some(1)
      else if !h.hasConfigs(user.value) then Some(0)
      else if !h.systemBusOk then Some(1)
      else
        var session := SelectedWithin(h.listings, user.value, SELECT_ATTEMPTS, 0);
        if session.None? then Some(0)
        else if ReleaseSpec(h.releases(0), user.value, STARTUP_BUDGET).exited then Some(1)
        else if !h.sessionSubscribeOk || !h.loginSubscribeOk then Some(1)
        else if AnyExits(h.releases, user.value, Planned(events, session.value)) then Some(1)
        else if RemovalIndex(events, session.value).Some? then Some(0)
        else None
  }

  /** The uid and session main goes on to monitor, once every check before the
      startup release has passed. */
  function Target(argv: seq<string>, h: Host): Option<(nat, string)> {
    if |argv| != 2 || h.euid != ROOT then None
    else
      var user := ArgUser(argv[1], h.accounts);
      if user.None? || !h.hasConfigs(user.value) || !h.systemBusOk then None
      else
        var session := SelectedWithin(h.listings, user.value, SELECT_ATTEMPTS, 0);
        if session.None? then None else Some((user.value, session.value))
  }

  /** main: the argument and privilege checks, the user lookup, the
      configuration check, the bus connection, the session search, the startup
      release, the subscriptions and the loop over `events`. `budgets` are the
      releases made, in order. */
  method MonitorMain(argv: seq<string>, h: Host, events: seq<Event>) returns (status: Option<int>, budgets: seq<nat>)
    ensures status == MainStatus(argv, h, events)
    ensures Target(argv, h).None? ==> budgets == []
    ensures Target(argv, h).Some? ==> budgets != [] && budgets <= Planned(events, Target(argv, h).value.1)
    ensures status.None? ==> budgets == Planned(events, Target(argv, h).value.1)
    ensures status == Some(0) && Target(argv, h).Some? ==> budgets == Planned(events, Target(argv, h).value.1)
  {
    if |argv| != 2 {
      return Some(1), [];
    }
    if h.euid != ROOT {
      return Some(1), [];
    }
    var pwd := ArgUser(argv[1], h.accounts);
    if pwd.None? {
      return Some(1), [];    // invalid user or ID
    }
    var user := pwd.value;
    if !h.hasConfigs(user) {
      return Some(0), [];
    }
    if !h.systemBusOk {
      return Some(1), [];
    }
    var session, tries := SelectWithRetries(h.listings, user);
    if session.None? {
      return Some(0), [];
    }
    var proc := new Process(h.euid);
    var passwd := new char[MAX_PASSWORD_SIZE];
    var m := new SessionMonitor(user, session.value, h.releases, proc, passwd);
    ghost var planned := Planned(events, session.value);
    budgets := m.budgets;
    if !proc.Alive() {
      assert m.outcomes[0].exited;
      return Some(1), budgets;
    }
    if !h.sessionSubscribeOk || !h.loginSubscribeOk {
      return Some(1), budgets;
    }
    m.Run(events);
    budgets := m.budgets;
    EndedIffPlannedExits(h.releases, user, m.budgets, m.outcomes, planned);
    if !proc.Alive() {
      status := Some(1);
    } else if m.quit {
      status := Some(0);
    } else {
      status := None;
    }
  }

  /** main exits 0 only when the user has no configuration, when no session
      turns up within 30 attempts, or when the selected session is removed
      after the monitoring started. */
  lemma ExitZeroCases(argv: seq<string>, h: Host, events: seq<Event>)
    requires MainStatus(argv, h, events) == Some(0)
    ensures |argv| == 2 && h.euid == ROOT && ArgUser(argv[1], h.accounts).Some?
    ensures var user := ArgUser(argv[1], h.accounts).value;
      || !h.hasConfigs(user)
      || SelectedWithin(h.listings, user, SELECT_ATTEMPTS, 0).None?
      || (Target(argv, h).Some? && RemovalIndex(events, Target(argv, h).value.1).Some?)
  {
  }

  /** A main still running has survived every release, made them all, and has
      not seen its session removed. */
  lemma StillRunning(argv: seq<string>, h: Host, events: seq<Event>)
    requires MainStatus(argv, h, events).None?
    ensures Target(argv, h).Some?
    ensures var t := Target(argv, h).value;
      !AnyExits(h.releases, t.0, Planned(events, t.1)) && RemovalIndex(events, t.1).None?
  {
  }
}
