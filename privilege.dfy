/** The process-global effective uid of the monitor and `change_euid`
    (systemd/keepassxc-unlock.c): switching is skipped when the uid already
    matches, a failed switch is tolerated, except that failing to switch back
    to root ends the process with status 1. The answer of the seteuid system
    call is an input. */
module Privilege {
  import opened Base

  const ROOT: nat := 0

  class Process {
    /** geteuid() */
    var euid: nat
    /** Some(code) once the process has called exit(code). */
    var exitStatus: Option<int>

    constructor (euid: nat)
      ensures this.euid == euid && exitStatus == None
    {
      this.euid := euid;
      exitStatus := None;
    }

    predicate Alive()
      reads this
    {
      exitStatus.None?
    }

    /** change_euid(uid); `seteuidOk` is what seteuid(uid) would answer. */
    method ChangeEuid(uid: nat, seteuidOk: bool)
      requires Alive()
      modifies this
      ensures old(euid) == uid ==> euid == uid && Alive()
      ensures old(euid) != uid && seteuidOk ==> euid == uid && Alive()
      ensures old(euid) != uid && !seteuidOk ==>
        euid == old(euid) && exitStatus == (if uid == ROOT then Some(1) else None)
    {
      if euid == uid {
        return;
      }
      if seteuidOk {
        euid := uid;
      } else if uid == ROOT {
        // cannot switch back to root: terminate
        exitStatus := Some(1);
      }
    }
  }

  /** The effective uid inside a bracket `change_euid(user); ...; change_euid(0)`
      entered as root, given what seteuid(user) answers. */
  function EuidDuring(user: nat, upOk: bool): nat {
    if upOk then user else ROOT
  }

  /** The bracket ends the process: it left root, and seteuid(0) failed. */
  predicate BracketExits(user: nat, upOk: bool, downOk: bool) {
    EuidDuring(user, upOk) != ROOT && !downOk
  }
}
