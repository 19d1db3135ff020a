/** The classification of the command-line argument in `main` of
    systemd/keepassxc-unlock.c: the argument names a user either by uid, when
    strtoul consumes all of it, or by login name. The account database answers
    getpwuid and getpwnam and is an input. */
module Arguments {
  import opened Base

  /** strtoul's result when the value does not fit in an unsigned long. */
  const ULONG_MAX: nat := 0xFFFF_FFFF_FFFF_FFFF

  /** uid_t is 32 bits wide: assigning the unsigned long truncates it. */
  const UID_MODULUS: nat := 0x1_0000_0000

  /** isspace in the C locale. */
  predicate IsSpace(c: char) {
    c == ' ' || '\t' <= c <= '\r'
  }

  /** The first position from `i` on that is not white space. */
  function SpacesEnd(s: string, i: nat): (k: nat)
    requires i <= |s|
    ensures i <= k <= |s|
    ensures forall j :: i <= j < k ==> IsSpace(s[j])
    ensures k < |s| ==> !IsSpace(s[k])
    decreases |s| - i
  {
    if i < |s| && IsSpace(s[i]) then SpacesEnd(s, i + 1) else i
  }

  /** What strtoul reads in base 10: leading white space, an optional sign,
      then the text where it expects digits. */
  datatype Scanned = Scanned(negative: bool, digits: string)

  function Scan(s: string): Scanned
  {
    var k := SpacesEnd(s, 0);
    if k < |s| && (s[k] == '+' || s[k] == '-') then Scanned(s[k] == '-', s[k + 1..])
    else Scanned(false, s[k..])
  }

  /** The test `argv[1][0] != '\0' && *arg_end == '\0'`: the argument is not
      empty and strtoul stopped at its end, so it is all digits after the white
      space and sign. With no digits strtoul leaves `arg_end` at the start. */
  predicate IsNumericArg(s: string) {
    s != [] && IsDecimal(Scan(s).digits)
  }

  /** The unsigned long strtoul returns: saturated at ULONG_MAX, and negated
      modulo 2^64 after a minus sign. */
  function StrtoulValue(s: string): (v: nat)
    requires IsNumericArg(s)
    ensures v <= ULONG_MAX
  {
    var n := Scan(s);
    var m := DecimalValue(n.digits);
    if m > ULONG_MAX then ULONG_MAX
    else if n.negative then (ULONG_MAX + 1 - m) % (ULONG_MAX + 1)
    else m
  }

  /** `uid_t user_id = strtoul(...)`. */
  function UidOf(s: string): (u: nat)
    requires IsNumericArg(s)
    ensures u < UID_MODULUS
  {
    StrtoulValue(s) % UID_MODULUS
  }

  /** The account database: the pw_uid of the entry getpwuid and getpwnam find,
      or None when there is none. */
  datatype Accounts = Accounts(byUid: nat -> Option<nat>, byName: string -> Option<nat>)

  /** The uid main monitors for the argument, or None for "Invalid user or ID". */
  function ArgUser(arg: string, acc: Accounts): Option<nat> {
    var s := CString(arg);
    if IsNumericArg(s) then acc.byUid(UidOf(s)) else acc.byName(s)
  }

  /** A string of digits passes the numeric test and strtoul reads its
      decimal value, saturated at ULONG_MAX. */
  lemma DecimalArg(s: string)
    requires IsDecimal(s)
    ensures CString(s) == s && IsNumericArg(s)
    ensures StrtoulValue(s) == if DecimalValue(s) > ULONG_MAX then ULONG_MAX else DecimalValue(s)
  {
    assert NUL !in s by {
      forall j | 0 <= j < |s| ensures s[j] != NUL {
        assert IsDigit(s[j]);
      }
    }
    assert IndexOf(s, NUL) == |s|;
    assert !IsSpace(s[0]) && s[0] != '+' && s[0] != '-' by {
      assert IsDigit(s[0]);
    }
    assert SpacesEnd(s, 0) == 0;
    assert Scan(s).digits == s;
  }

  /** A number up to ULONG_MAX written in decimal is looked up as its low 32
      bits: uid_t truncates what strtoul returns. */
  lemma DecimalArgLooksUpTruncatedUid(n: nat, acc: Accounts)
    requires n <= ULONG_MAX
    ensures ArgUser(NatToString(n), acc) == acc.byUid(n % UID_MODULUS)
  {
    DecimalArg(NatToString(n));
    DecimalRoundTrip(n);
  }

  /** A uid written in decimal is looked up as that uid. */
  lemma UidArgLooksUpUid(uid: nat, acc: Accounts)
    requires uid < UID_MODULUS
    ensures ArgUser(NatToString(uid), acc) == acc.byUid(uid)
  {
    assert uid % UID_MODULUS == uid;
    DecimalArgLooksUpTruncatedUid(uid, acc);
  }

  /** An argument that starts with a letter is looked up as a login name. */
  lemma NameArgLooksUpName(name: string, acc: Accounts)
    requires name != [] && NUL !in name
    requires 'a' <= name[0] <= 'z' || 'A' <= name[0] <= 'Z' || name[0] == '_'
    ensures ArgUser(name, acc) == acc.byName(name)
  {
    assert IndexOf(name, NUL) == |name|;
    assert CString(name) == name;
    assert SpacesEnd(name, 0) == 0;
    assert Scan(name).digits == name;
    assert !IsDigit(name[0]);
  }

  /** The empty argument is looked up as the empty login name. */
  lemma EmptyArgIsAName(acc: Accounts)
    ensures ArgUser("", acc) == acc.byName("")
  {
  }

  /** "-1" is numeric: strtoul negates it to ULONG_MAX, and uid_t keeps the low
      32 bits. */
  lemma MinusOneIsLargestUid(acc: Accounts)
    ensures ArgUser("-1", acc) == acc.byUid(UID_MODULUS - 1)
  {
    var s := "-1";
    assert IndexOf(s, NUL) == 2;
    assert CString(s) == s;
    assert SpacesEnd(s, 0) == 0;
    assert Scan(s) == Scanned(true, "1");
    assert DecimalValue("1") == 1 by {
      assert "1"[..0] == "";
    }
  }
}
