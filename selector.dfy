/** `select_session` and the bounded retry around it in `main`
    (systemd/keepassxc-unlock.c): the session listing of logind is searched in
    order for the first session of the user that is a valid target for
    unlocking. The listing and the validity answer for each session are inputs. */
module Selector {
  import opened Base

  /** One entry of ListSessions, with what session_valid_for_unlock would answer
      for it (an X11 or Wayland session that is local and active). */
  datatype SessionEntry = SessionEntry(uid: nat, path: string, validForUnlock: bool)

  /** What ListSessions returns: None when the call fails. */
  type Listing = Option<seq<SessionEntry>>

  /** How many times main asks for a session before giving up. */
  const SELECT_ATTEMPTS: nat := 30

  predicate Matches(e: SessionEntry, user: nat) {
    e.uid == user && e.validForUnlock
  }

  /** Entry `j` is the first entry from `i` on that matches. */
  predicate FirstMatchAt(entries: seq<SessionEntry>, user: nat, i: nat, j: nat) {
    i <= j < |entries| && Matches(entries[j], user) &&
    forall k :: i <= k < j ==> !Matches(entries[k], user)
  }

  /** Reference definition: the path of the first matching entry from `i` on. */
  function FirstMatchFrom(entries: seq<SessionEntry>, user: nat, i: nat): Option<string>
    decreases |entries| - i
  {
    if i >= |entries| then None
    else if Matches(entries[i], user) then Some(entries[i].path)
    else FirstMatchFrom(entries, user, i + 1)
  }

  /** The session select_session picks from one listing. */
  function Selected(listing: Listing, user: nat): Option<string> {
    if listing.None? then None else FirstMatchFrom(listing.value, user, 0)
  }

  /** The reference search finds a session exactly when one matches, and then
      the first one. */
  lemma {:induction false} FirstMatchFromIsFirst(entries: seq<SessionEntry>, user: nat, i: nat)
    ensures var r := FirstMatchFrom(entries, user, i);
      r.None? <==> forall j :: i <= j < |entries| ==> !Matches(entries[j], user)
    ensures var r := FirstMatchFrom(entries, user, i);
      r.Some? ==> exists j: nat :: FirstMatchAt(entries, user, i, j) && entries[j].path == r.value
    decreases |entries| - i
  {
    if i < |entries| && !Matches(entries[i], user) {
      FirstMatchFromIsFirst(entries, user, i + 1);
      var r := FirstMatchFrom(entries, user, i + 1);
      if r.Some? {
        var j: nat :| FirstMatchAt(entries, user, i + 1, j) && entries[j].path == r.value;
        assert FirstMatchAt(entries, user, i, j);
      }
    }
  }

  /** select_session: a failed listing gives no session; otherwise the entries
      are walked in order, others' sessions are skipped, and the walk stops at
      the first valid one. */
  method SelectSession(listing: Listing, user: nat) returns (r: Option<string>)
    ensures r == Selected(listing, user)
    ensures listing.None? ==> r.None?
    ensures listing.Some? ==>
      (r.None? <==> forall j :: 0 <= j < |listing.value| ==> !Matches(listing.value[j], user))
    ensures r.Some? ==> listing.Some?
    ensures r.Some? ==> exists j: nat :: FirstMatchAt(listing.value, user, 0, j) && listing.value[j].path == r.value
  {
    if listing.None? {
      return None;    // failed to list sessions
    }
    var entries := listing.value;
    r := None;
    var i := 0;
    while i < |entries|
      invariant 0 <= i <= |entries|
      invariant forall k :: 0 <= k < i ==> !Matches(entries[k], user)
      invariant FirstMatchFrom(entries, user, i) == FirstMatchFrom(entries, user, 0)
    {
      if entries[i].uid != user {
        i := i + 1;
        continue;    // another user's session
      }
      if entries[i].validForUnlock {
        r := Some(entries[i].path);
        break;
      }
      i := i + 1;
    }
    FirstMatchFromIsFirst(entries, user, 0);
  }

  /** Attempt `j` is the first attempt from `i` on that finds a session. */
  predicate FirstSuccessAt(listings: nat -> Listing, user: nat, i: nat, j: nat) {
    i <= j && Selected(listings(j), user).Some? &&
    forall k :: i <= k < j ==> Selected(listings(k), user).None?
  }

  /** Reference definition of the retry loop: the first attempt from `i` on
      whose listing yields a session. */
  function SelectedWithin(listings: nat -> Listing, user: nat, attempts: nat, i: nat): Option<string>
    decreases attempts - i
  {
    if i >= attempts then None
    else if Selected(listings(i), user).Some? then Selected(listings(i), user)
    else SelectedWithin(listings, user, attempts, i + 1)
  }

  /** The retry loop gives up exactly when every attempt finds nothing, and
      otherwise returns what the first successful attempt found. */
  lemma {:induction false} SelectedWithinIsFirstSuccess(listings: nat -> Listing, user: nat, attempts: nat, i: nat)
    ensures var r := SelectedWithin(listings, user, attempts, i);
      r.None? <==> forall j :: i <= j < attempts ==> Selected(listings(j), user).None?
    ensures var r := SelectedWithin(listings, user, attempts, i);
      r.Some? ==> exists j: nat :: j < attempts && FirstSuccessAt(listings, user, i, j) && Selected(listings(j), user) == r
    decreases attempts - i
  {
    if i < attempts && Selected(listings(i), user).None? {
      SelectedWithinIsFirstSuccess(listings, user, attempts, i + 1);
      var r := SelectedWithin(listings, user, attempts, i + 1);
      if r.Some? {
        var j: nat :| j < attempts && FirstSuccessAt(listings, user, i + 1, j) && Selected(listings(j), user) == r;
        assert FirstSuccessAt(listings, user, i, j);
      }
    }
  }

  /** The loop in main (lines 449-453): up to 30 calls of select_session, the
      k-th on listing `listings(k)`, stopping at the first that finds a session.
      `tries` is the number of calls made. */
  method SelectWithRetries(listings: nat -> Listing, user: nat) returns (r: Option<string>, tries: nat)
    ensures r == SelectedWithin(listings, user, SELECT_ATTEMPTS, 0)
    ensures 1 <= tries <= SELECT_ATTEMPTS
    ensures r.None? <==> tries == SELECT_ATTEMPTS && Selected(listings(SELECT_ATTEMPTS - 1), user).None?
    ensures forall k :: 0 <= k < tries - 1 ==> Selected(listings(k), user).None?
    ensures r == Selected(listings(tries - 1), user)
  {
    r, tries := None, 0;
    while tries < SELECT_ATTEMPTS
      invariant tries <= SELECT_ATTEMPTS
      invariant forall k :: 0 <= k < tries ==> Selected(listings(k), user).None?
      invariant 0 < tries ==> r == Selected(listings(tries - 1), user)
      invariant SelectedWithin(listings, user, SELECT_ATTEMPTS, tries) == SelectedWithin(listings, user, SELECT_ATTEMPTS, 0)
    {
      r := SelectSession(listings(tries), user);
      tries := tries + 1;
      if r.Some? {
        break;
      }
      // sleep(1) between attempts is not modelled
    }
  }
}
