/** Facts about `siglist` as compiled for Linux x86-64 with glibc, and the
    resolution results they give for the names the Ruby side uses. */
module SiglistFacts {
  import opened CTypes
  import opened SignalNames

  /** An index of the table is one of its 34 positions; splitting on this
      lets the verifier check a fact entry by entry. */
  lemma Positions(i: int)
    requires 0 <= i < |Siglist|
    ensures |Siglist| == 34
    ensures i == 0 || i == 1 || i == 2 || i == 3 || i == 4 || i == 5 || i == 6 || i == 7
      || i == 8 || i == 9 || i == 10 || i == 11 || i == 12 || i == 13 || i == 14 || i == 15
      || i == 16 || i == 17 || i == 18 || i == 19 || i == 20 || i == 21 || i == 22 || i == 23
      || i == 24 || i == 25 || i == 26 || i == 27 || i == 28 || i == 29 || i == 30 || i == 31
      || i == 32 || i == 33
  {
  }

  /** Entry by entry: no name carries the "SIG" prefix and every number
      is within the 31 classic signals. */
  lemma SiglistNumbersInRange()
    ensures forall i | 0 <= i < |Siglist| :: !HasSigPrefix(Siglist[i].name) && 0 <= Siglist[i].signo <= 31
  {
    forall i | 0 <= i < |Siglist| ensures !HasSigPrefix(Siglist[i].name) && 0 <= Siglist[i].signo <= 31 {
      Positions(i);
    }
  }

  /** "EXIT" is the only entry with number 0. */
  lemma SiglistZeroOnlyForExit()
    ensures forall i | 0 <= i < |Siglist| :: Siglist[i].signo == 0 <==> Siglist[i].name == "EXIT"
  {
    forall i | 0 <= i < |Siglist| ensures Siglist[i].signo == 0 <==> Siglist[i].name == "EXIT" {
      Positions(i);
    }
  }

  /** Names are spelled in upper-case letters and digits, checked in two
      halves of the table. */
  lemma SiglistNameChars0To17()
    ensures forall i, c | 0 <= i < 17 && i < |Siglist| && 0 <= c < |Siglist[i].name| :: NameChar(Siglist[i].name[c])
  {
    forall i, c | 0 <= i < 17 && i < |Siglist| && 0 <= c < |Siglist[i].name| ensures NameChar(Siglist[i].name[c]) {
      Positions(i);
    }
  }

  lemma SiglistNameChars17To34()
    ensures forall i, c | 17 <= i < 34 && i < |Siglist| && 0 <= c < |Siglist[i].name| :: NameChar(Siglist[i].name[c])
  {
    forall i, c | 17 <= i < 34 && i < |Siglist| && 0 <= c < |Siglist[i].name| ensures NameChar(Siglist[i].name[c]) {
      Positions(i);
    }
  }

  /** The names are pairwise distinct, checked in bands of rows. */
  lemma DistinctRows0To3()
    ensures forall a, b | 0 <= a < 3 && a < b < |Siglist| :: Siglist[a].name != Siglist[b].name
  {
    forall a, b | 0 <= a < 3 && a < b < |Siglist| ensures Siglist[a].name != Siglist[b].name {
      Positions(a);
      Positions(b);
    }
  }

  lemma DistinctRows3To6()
    ensures forall a, b | 3 <= a < 6 && a < b < |Siglist| :: Siglist[a].name != Siglist[b].name
  {
    forall a, b | 3 <= a < 6 && a < b < |Siglist| ensures Siglist[a].name != Siglist[b].name {
      Positions(a);
      Positions(b);
    }
  }

  lemma DistinctRows6To9()
    ensures forall a, b | 6 <= a < 9 && a < b < |Siglist| :: Siglist[a].name != Siglist[b].name
  {
    forall a, b | 6 <= a < 9 && a < b < |Siglist| ensures Siglist[a].name != Siglist[b].name {
      Positions(a);
      Positions(b);
    }
  }

  lemma DistinctRows9To13()
    ensures forall a, b | 9 <= a < 13 && a < b < |Siglist| :: Siglist[a].name != Siglist[b].name
  {
    forall a, b | 9 <= a < 13 && a < b < |Siglist| ensures Siglist[a].name != Siglist[b].name {
      Positions(a);
      Positions(b);
    }
  }

  lemma DistinctRows13To18()
    ensures forall a, b | 13 <= a < 18 && a < b < |Siglist| :: Siglist[a].name != Siglist[b].name
  {
    forall a, b | 13 <= a < 18 && a < b < |Siglist| ensures Siglist[a].name != Siglist[b].name {
      Positions(a);
      Positions(b);
    }
  }

  lemma DistinctRows18To34()
    ensures forall a, b | 18 <= a < 34 && a < b < |Siglist| :: Siglist[a].name != Siglist[b].name
  {
    forall a, b | 18 <= a < 34 && a < b < |Siglist| ensures Siglist[a].name != Siglist[b].name {
      Positions(a);
      Positions(b);
    }
  }

  /** Every entry is well formed on its own. */
  lemma SiglistEntriesOk()
    ensures forall i | 0 <= i < |Siglist| :: EntryOk(Siglist[i])
  {
    SiglistNumbersInRange();
    SiglistZeroOnlyForExit();
    SiglistNameChars0To17();
    SiglistNameChars17To34();
    Positions(0);
  }

  /** `siglist` is well formed: upper-case names without a "SIG" prefix,
      each occurring once, 0 for "EXIT" alone, other numbers in 1..31. */
  lemma SiglistWellFormed()
    ensures WellFormedTable(Siglist)
  {
    SiglistEntriesOk();
    DistinctRows0To3();
    DistinctRows3To6();
    DistinctRows6To9();
    DistinctRows9To13();
    DistinctRows13To18();
    DistinctRows18To34();
    forall i | 0 <= i < |Siglist| ensures NoLaterDuplicate(Siglist, i) {
    }
  }

  /** Every name of the table other than "EXIT" resolves, with or without
      "SIG", to its own number; "EXIT" and "SIGEXIT" are rejected. */
  lemma EveryTableNameResolves(i: int)
    requires 0 <= i < |Siglist|
    ensures Siglist[i].name == "EXIT" ==> Resolve(Siglist[i].name) == Failure(UnsupportedName("EXIT"))
    ensures Siglist[i].name != "EXIT" ==> Resolve(Siglist[i].name) == Success(Siglist[i].signo)
    ensures Resolve("SIG" + Siglist[i].name) == Resolve(Siglist[i].name)
  {
    SiglistWellFormed();
    ResolveEntry(Siglist, i);
  }

  /** Whatever the name, a resolved number is a real signal, 1..31. */
  lemma ResolvedSignalInRange(name: string)
    ensures Resolve(name).Success? ==> 1 <= Resolve(name).value <= 31
  {
    SiglistWellFormed();
    ResolvedInRange(Siglist, name);
  }

  /** Lower-case or mixed-case spellings never resolve. */
  lemma SiglistCaseSensitive(name: string, k: int)
    requires 0 <= k < |LookupName(name)| && !NameChar(LookupName(name)[k])
    ensures Resolve(name) == Failure(UnsupportedName(LookupName(name)))
  {
    SiglistWellFormed();
    forall i, c | 0 <= i < |Siglist| && 0 <= c < |Siglist[i].name|
      ensures NameChar(Siglist[i].name[c])
    {
      assert EntryOk(Siglist[i]);
    }
    CaseSensitive(Siglist, name, k);
  }

  /** "SIGSIG..." never resolves: only one prefix is stripped. */
  lemma SiglistDoubledPrefixRejected(n: string)
    ensures Resolve("SIGSIG" + n) == Failure(UnsupportedName("SIG" + CStr(n)))
    ensures Message(Resolve("SIGSIG" + n).error) == "unsupported name `SIGSIG" + CStr(n) + "'"
  {
    SiglistWellFormed();
    forall i | 0 <= i < |Siglist| ensures !HasSigPrefix(Siglist[i].name) {
      assert EntryOk(Siglist[i]);
    }
    DoubledPrefixRejected(Siglist, n);
  }

  /** Where the names with special roles sit: "EXIT" is entry 0 with
      number 0; "CHLD" and its alias "CLD" are entries 20 and 21, both 17;
      "USR1" is entry 30 with 10; "IOT" and "ABRT" share 6, "IO" and
      "POLL" share 29. With `EveryTableNameResolves` these give their
      resolution results. */
  lemma KnownEntries()
    ensures Siglist[0] == SigEntry("EXIT", 0)
    ensures Siglist[6] == SigEntry("IOT", 6) && Siglist[7] == SigEntry("ABRT", 6)
    ensures Siglist[20] == SigEntry("CHLD", 17) && Siglist[21] == SigEntry("CLD", 17)
    ensures Siglist[24] == SigEntry("IO", 29) && Siglist[33] == SigEntry("POLL", 29)
    ensures Siglist[30] == SigEntry("USR1", 10)
  {
  }
}

/** Resolution of the literal names the Ruby side and the alias rules
    care about. */
module SiglistExamples {
  import opened CTypes
  import opened SignalNames
  import opened SiglistFacts

  /** ":USR1", as the tests pass it, gives 10. */
  lemma Usr1Resolves()
    ensures Resolve("USR1") == Success(10)
  {
    KnownEntries();
    EveryTableNameResolves(30);
  }

  /** "SIGUSR1" is stripped to "USR1" and gives 10 as well. */
  lemma SigUsr1Resolves()
    ensures Resolve("SIGUSR1") == Success(10)
  {
    assert LookupName("SIGUSR1") == "USR1" by {
      assert "SIGUSR1" == "SIG" + "USR1";
      LookupNameWithPrefix("USR1");
      PlainName("USR1");
    }
    KnownEntries();
    EveryTableNameResolves(30);
  }

  /** Lower case is not accepted: "sigusr1" is rejected as it is. */
  lemma LowerCaseRejected()
    ensures Resolve("sigusr1") == Failure(UnsupportedName("sigusr1"))
  {
    PlainName("sigusr1");
    SiglistCaseSensitive("sigusr1", 0);
  }

  /** "EXIT" is in the table with number 0, so it is rejected like an
      unknown name, with and without "SIG". */
  lemma ExitRejected()
    ensures Resolve("EXIT") == Failure(UnsupportedName("EXIT"))
    ensures Resolve("SIGEXIT") == Failure(UnsupportedName("EXIT"))
  {
    KnownEntries();
    EveryTableNameResolves(0);
    assert "SIGEXIT" == "SIG" + "EXIT";
  }

  /** "CLD" is an alias of "CHLD": both give 17. */
  lemma ChildAlias()
    ensures Resolve("CLD") == Success(17) && Resolve("CHLD") == Success(17)
  {
    KnownEntries();
    EveryTableNameResolves(20);
    EveryTableNameResolves(21);
  }
}
