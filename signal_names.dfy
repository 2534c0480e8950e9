/** The signal name table `siglist` of ext/rbevent.c, its linear scan
    `signm2signo`, and the name normalisation that `SignalEvent.new`
    performs in front of it. */
module SignalNames {
  import opened CTypes

  datatype SigEntry = SigEntry(name: string, signo: int32)

  /** `siglist` as compiled on Linux x86-64 with glibc: the entries whose
      `#ifdef` holds there, in source order, with glibc's numbers. SIGEMT,
      SIGLOST, SIGMSG, SIGDANGER, SIGMIGRATE, SIGPRE, SIGGRANT, SIGRETRACT,
      SIGSOUND and SIGINFO are not defined there; glibc defines SIGCLD as
      SIGCHLD, so "CLD" maps to 17 on either side of its `#ifdef`. The
      `{NULL, 0}` sentinel is the end of the sequence. */
  const Siglist: seq<SigEntry> := [
    SigEntry("EXIT", 0),
    SigEntry("HUP", 1),
    SigEntry("INT", 2),
    SigEntry("QUIT", 3),
    SigEntry("ILL", 4),
    SigEntry("TRAP", 5),
    SigEntry("IOT", 6),
    SigEntry("ABRT", 6),
    SigEntry("FPE", 8),
    SigEntry("KILL", 9),
    SigEntry("BUS", 7),
    SigEntry("SEGV", 11),
    SigEntry("SYS", 31),
    SigEntry("PIPE", 13),
    SigEntry("ALRM", 14),
    SigEntry("TERM", 15),
    SigEntry("URG", 23),
    SigEntry("STOP", 19),
    SigEntry("TSTP", 20),
    SigEntry("CONT", 18),
    SigEntry("CHLD", 17),
    SigEntry("CLD", 17),
    SigEntry("TTIN", 21),
    SigEntry("TTOU", 22),
    SigEntry("IO", 29),
    SigEntry("XCPU", 24),
    SigEntry("XFSZ", 25),
    SigEntry("VTALRM", 26),
    SigEntry("PROF", 27),
    SigEntry("WINCH", 28),
    SigEntry("USR1", 10),
    SigEntry("USR2", 12),
    SigEntry("PWR", 30),
    SigEntry("POLL", 29)
  ]

  /** `i` is the first entry of `table` whose name is exactly `nm`. */
  ghost predicate FirstMatch(table: seq<SigEntry>, nm: string, i: int) {
    0 <= i < |table| && table[i].name == nm &&
    forall j :: 0 <= j < i ==> table[j].name != nm
  }

  /** The scan that `signm2signo` performs, as a recursive definition:
      the entries are compared in order with an exact `strcmp`, so case
      matters, and the sentinel ends the scan with 0. */
  function Lookup(table: seq<SigEntry>, nm: string): int32 {
    if |table| == 0 then 0
    else if table[0].name == nm then table[0].signo
    else Lookup(table[1..], nm)
  }

  /** The scan returns the number of the FIRST entry named exactly `nm`. */
  lemma {:induction false} LookupFirstMatch(table: seq<SigEntry>, nm: string, i: int)
    requires FirstMatch(table, nm, i)
    ensures Lookup(table, nm) == table[i].signo
  {
    if i > 0 {
      assert table[0].name != nm;
      assert FirstMatch(table[1..], nm, i - 1);
      LookupFirstMatch(table[1..], nm, i - 1);
    }
  }

  /** A name absent from the table scans to the sentinel and gives 0. */
  lemma {:induction false} LookupAbsent(table: seq<SigEntry>, nm: string)
    requires forall i :: 0 <= i < |table| ==> table[i].name != nm
    ensures Lookup(table, nm) == 0
  {
    if |table| > 0 {
      assert table[0].name != nm;
      LookupAbsent(table[1..], nm);
    }
  }

  /** A non-zero result comes from the first entry carrying that name. */
  lemma {:induction false} LookupFound(table: seq<SigEntry>, nm: string)
    requires Lookup(table, nm) != 0
    ensures exists i :: FirstMatch(table, nm, i) && table[i].signo == Lookup(table, nm)
  {
    if table[0].name == nm {
      assert FirstMatch(table, nm, 0);
    } else {
      LookupFound(table[1..], nm);
      var i :| FirstMatch(table[1..], nm, i) && table[1..][i].signo == Lookup(table, nm);
      assert FirstMatch(table, nm, i + 1);
    }
  }

  /** `signm2signo`: the scan of `siglist` that returns on the first match. */
  method SignalNumber(nm: string) returns (signo: int32)
    ensures signo == Lookup(Siglist, nm)
  {
    var i := 0;
    while i < |Siglist|
      invariant 0 <= i <= |Siglist|
      invariant Lookup(Siglist[i..], nm) == Lookup(Siglist, nm)
    {
      assert Siglist[i..][1..] == Siglist[i + 1..];
      if Siglist[i].name == nm {
        return Siglist[i].signo;
      }
      i := i + 1;
    }
    signo := 0;
  }

  /** The text C sees through `StringValuePtr`: everything before the first
      NUL character. */
  function CStr(s: string): string {
    if |s| == 0 || s[0] == '\0' then []
    else [s[0]] + CStr(s[1..])
  }

  /** The C string is the longest NUL-free prefix of the Ruby string. */
  lemma {:induction false} CStrLongestPrefix(s: string)
    ensures |CStr(s)| <= |s| && CStr(s) == s[..|CStr(s)|]
    ensures '\0' !in CStr(s)
    ensures |CStr(s)| < |s| ==> s[|CStr(s)|] == '\0'
  {
    if |s| > 0 && s[0] != '\0' {
      CStrLongestPrefix(s[1..]);
    }
  }

  /** A NUL-free prefix passes through the C-string cut unchanged. */
  lemma {:induction false} CStrPrefix(p: string, n: string)
    requires '\0' !in p
    ensures CStr(p + n) == p + CStr(n)
  {
    if |p| > 0 {
      assert (p + n)[1..] == p[1..] + n;
      assert p[0] != '\0';
      CStrPrefix(p[1..], n);
      assert CStr(p + n) == [p[0]] + CStr(p[1..] + n);
      assert p == [p[0]] + p[1..];
    } else {
      assert p + n == n;
    }
  }

  /** Whatever follows the first NUL is invisible to C. */
  lemma {:induction false} CStrStopsAtNul(s: string, rest: string)
    ensures CStr(s + ['\0'] + rest) == CStr(s)
  {
    if |s| > 0 && s[0] != '\0' {
      assert (s + ['\0'] + rest)[1..] == s[1..] + ['\0'] + rest;
      CStrStopsAtNul(s[1..], rest);
    }
  }

  /** `strncmp(s, "SIG", 3) == 0` on a C string. */
  predicate HasSigPrefix(s: string) {
    |s| >= 3 && s[0] == 'S' && s[1] == 'I' && s[2] == 'G'
  }

  /** One leading "SIG" removed, case-sensitively. */
  function StripSig(s: string): string {
    if HasSigPrefix(s) then s[3..] else s
  }

  /** The name the table is searched for: the C string, one "SIG" stripped. */
  function LookupName(name: string): string {
    StripSig(CStr(name))
  }

  /** With "SIG" in front, the table is searched for the C string of the rest. */
  lemma LookupNameWithPrefix(n: string)
    ensures LookupName("SIG" + n) == CStr(n)
  {
    CStrPrefix("SIG", n);
    assert ("SIG" + CStr(n))[3..] == CStr(n);
  }

  /** Without the prefix, the table is searched for the C string itself. */
  lemma LookupNameWithoutPrefix(n: string)
    requires !HasSigPrefix(n)
    ensures LookupName(n) == CStr(n)
  {
    CStrLongestPrefix(n);
  }

  /** A NUL-free name without the prefix is looked up as it is. */
  lemma PlainName(n: string)
    requires '\0' !in n && !HasSigPrefix(n)
    ensures LookupName(n) == n
  {
    CStrPrefix(n, "");
    assert n + "" == n;
  }

  /** The ArgumentError raised for an unresolvable name; `name` is the
      name after stripping, as the message prints it. */
  datatype SignalError = UnsupportedName(name: string)

  /** The text of the ArgumentError: "SIG" and the stripped name. */
  function Message(e: SignalError): string {
    "unsupported name `SIG" + e.name + "'"
  }

  /** The name check of `SignalEvent.new` over a given table: strip one
      "SIG", scan the table, and reject a result of 0. */
  function ResolveIn(table: seq<SigEntry>, name: string): Result<int32, SignalError> {
    var nm := LookupName(name);
    var signo := Lookup(table, nm);
    if signo == 0 then Failure(UnsupportedName(nm)) else Success(signo)
  }

  /** The name check of `SignalEvent.new` against `siglist`. */
  function Resolve(name: string): Result<int32, SignalError> {
    ResolveIn(Siglist, name)
  }

  /** The outcome is decided by the first entry carrying the stripped name:
      its number, or the error when that number is 0. */
  lemma ResolveFirstMatch(table: seq<SigEntry>, name: string, i: int)
    requires FirstMatch(table, LookupName(name), i)
    ensures table[i].signo == 0 ==> ResolveIn(table, name) == Failure(UnsupportedName(LookupName(name)))
    ensures table[i].signo != 0 ==> ResolveIn(table, name) == Success(table[i].signo)
  {
    LookupFirstMatch(table, LookupName(name), i);
  }

  /** A name absent from the table is rejected, and the error names it. */
  lemma ResolveAbsent(table: seq<SigEntry>, name: string)
    requires forall i :: 0 <= i < |table| ==> table[i].name != LookupName(name)
    ensures ResolveIn(table, name) == Failure(UnsupportedName(LookupName(name)))
  {
    LookupAbsent(table, LookupName(name));
  }

  /** A name resolves only to a non-zero number of the first entry that
      carries its stripped form; a rejection always reports that form. */
  lemma ResolveSound(table: seq<SigEntry>, name: string)
    ensures ResolveIn(table, name).Success? ==>
      exists i :: FirstMatch(table, LookupName(name), i) &&
                  table[i].signo == ResolveIn(table, name).value != 0
    ensures ResolveIn(table, name).Failure? ==>
      ResolveIn(table, name).error == UnsupportedName(LookupName(name))
  {
    if ResolveIn(table, name).Success? {
      LookupFound(table, LookupName(name));
    }
  }

  /** "SIG" is optional: for a name n that does not itself begin with
      "SIG", "SIG" + n and n give the same result, the same error message
      included. (Only one prefix is stripped; see `DoubledPrefixRejected`.) */
  lemma SigPrefixOptional(table: seq<SigEntry>, n: string)
    requires !HasSigPrefix(n)
    ensures ResolveIn(table, "SIG" + n) == ResolveIn(table, n)
  {
    LookupNameWithPrefix(n);
    LookupNameWithoutPrefix(n);
  }

  /** Only one "SIG" is stripped: when no table name starts with "SIG", a
      doubled prefix never resolves. */
  lemma DoubledPrefixRejected(table: seq<SigEntry>, n: string)
    requires forall i :: 0 <= i < |table| ==> !HasSigPrefix(table[i].name)
    ensures ResolveIn(table, "SIGSIG" + n) == Failure(UnsupportedName("SIG" + CStr(n)))
    ensures Message(ResolveIn(table, "SIGSIG" + n).error) == "unsupported name `SIGSIG" + CStr(n) + "'"
  {
    assert "SIGSIG" + n == "SIG" + ("SIG" + n);
    assert "unsupported name `SIG" + ("SIG" + CStr(n)) == "unsupported name `SIGSIG" + CStr(n);
    LookupNameWithPrefix("SIG" + n);
    CStrPrefix("SIG", n);
    assert HasSigPrefix("SIG" + CStr(n));
    ResolveAbsent(table, "SIGSIG" + n);
  }

  /** Characters that occur in the table's names. */
  predicate NameChar(c: char) {
    'A' <= c <= 'Z' || '0' <= c <= '9'
  }

  /** Matching is case-sensitive: when the names are upper-case letters and
      digits, a name whose stripped form holds any other character
      (a lower-case letter, say) is rejected. */
  lemma CaseSensitive(table: seq<SigEntry>, name: string, k: int)
    requires forall i, c :: 0 <= i < |table| && 0 <= c < |table[i].name| ==> NameChar(table[i].name[c])
    requires 0 <= k < |LookupName(name)| && !NameChar(LookupName(name)[k])
    ensures ResolveIn(table, name) == Failure(UnsupportedName(LookupName(name)))
  {
    ResolveAbsent(table, name);
  }

  /** A NUL inside the name cuts it: only the part before it is looked up. */
  lemma NulCutsName(table: seq<SigEntry>, n: string, rest: string)
    ensures ResolveIn(table, n + ['\0'] + rest) == ResolveIn(table, n)
  {
    CStrStopsAtNul(n, rest);
  }

  /** What the resolution lemmas need of a table, entry by entry: names of
      upper-case letters and digits without a "SIG" prefix, number 0 for
      "EXIT" alone, numbers within the 31 classic signals. */
  ghost predicate EntryOk(e: SigEntry) {
    && (forall k :: 0 <= k < |e.name| ==> NameChar(e.name[k]))
    && !HasSigPrefix(e.name)
    && (e.signo == 0 <==> e.name == "EXIT")
    && 0 <= e.signo <= 31
  }

  /** No entry after `i` repeats entry `i`'s name. */
  ghost predicate NoLaterDuplicate(table: seq<SigEntry>, i: int)
    requires 0 <= i < |table|
  {
    forall j :: i < j < |table| ==> table[j].name != table[i].name
  }

  ghost predicate WellFormedTable(table: seq<SigEntry>) {
    && (forall i :: 0 <= i < |table| ==> EntryOk(table[i]))
    && (forall i :: 0 <= i < |table| ==> NoLaterDuplicate(table, i))
  }

  /** In a well-formed table every entry is found under its own name, with
      and without "SIG": "EXIT" is rejected like an unknown name, every
      other name resolves to its entry's number. */
  lemma ResolveEntry(table: seq<SigEntry>, i: int)
    requires WellFormedTable(table) && 0 <= i < |table|
    ensures table[i].name == "EXIT" ==> ResolveIn(table, table[i].name) == Failure(UnsupportedName("EXIT"))
    ensures table[i].name != "EXIT" ==> ResolveIn(table, table[i].name) == Success(table[i].signo)
    ensures ResolveIn(table, "SIG" + table[i].name) == ResolveIn(table, table[i].name)
  {
    var nm := table[i].name;
    assert EntryOk(table[i]);
    assert '\0' !in nm by {
      assert !NameChar('\0');
    }
    PlainName(nm);
    forall j | 0 <= j < i ensures table[j].name != nm {
      assert NoLaterDuplicate(table, j);
    }
    ResolveFirstMatch(table, nm, i);
    SigPrefixOptional(table, nm);
  }

  /** In a well-formed table a resolved number is a real signal, 1..31. */
  lemma ResolvedInRange(table: seq<SigEntry>, name: string)
    requires WellFormedTable(table)
    ensures ResolveIn(table, name).Success? ==> 1 <= ResolveIn(table, name).value <= 31
  {
    ResolveSound(table, name);
    if ResolveIn(table, name).Success? {
      var i :| FirstMatch(table, LookupName(name), i) && table[i].signo == ResolveIn(table, name).value != 0;
      assert EntryOk(table[i]);
    }
  }
}
