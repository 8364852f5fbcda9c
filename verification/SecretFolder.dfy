/**
  The certificate commands as they run: they replace one file after another, and may be cut off after any
  write. A budget counts the writes that still happen.
 */
module SecretFolders {
  import opened Options
  import opened CertificateRotation

  datatype Outcome = Refused(refusal: Refusal) | CutOff | Done | NothingToDo

  class SecretFolder {
    var files: Files
    var budget: nat

    constructor (files: Files, budget: nat)
      ensures this.files == files && this.budget == budget
    {
      this.files, this.budget := files, budget;
    }

    /** Replaces one file whole, or not at all when the command is cut off before it. */
    method WriteAtomic(name: Name, text: string) returns (written: bool)
      modifies this
      ensures written == (old(budget) > 0)
      ensures files == if written then old(files)[name := text] else old(files)
      ensures budget == if written then old(budget) - 1 else 0
    {
      if budget == 0 {
        return false;
      }
      files := files[name := text];
      budget := budget - 1;
      written := true;
    }

    method WritePair(pairs: seq<Write>) returns (complete: bool)
      modifies this
      ensures complete == (old(budget) >= |pairs|)
      ensures files == Cut(old(files), pairs, old(budget))
      ensures budget == if complete then old(budget) - |pairs| else 0
    {
      for i := 0 to |pairs|
        invariant old(budget) >= i && budget == old(budget) - i && files == Written(old(files), pairs, i)
      {
        var written := WriteAtomic(pairs[i].name, pairs[i].text);
        if !written {
          return false;
        }
      }
      complete := true;
    }

    method ReadSecrets(names: seq<Name>) returns (missing: Option<Refusal>)
      ensures missing == FirstMissing(files, names)
    {
      for i := 0 to |names|
        invariant FirstMissing(files, names) == FirstMissing(files, names[i..])
      {
        if names[i] !in files {
          return Some(MissingFile(names[i]));
        }
      }
      missing := None;
    }

    method ShapeProblem() returns (bad: Option<Refusal>)
      requires forall n :: n in NAMES ==> n in files
      ensures bad == FirstBadShape(files, NAMES)
    {
      for i := 0 to |NAMES|
        invariant FirstBadShape(files, NAMES) == FirstBadShape(files, NAMES[i..])
      {
        if !IsWellShaped(NAMES[i], files[NAMES[i]]) {
          return Some(BadShape(NAMES[i]));
        }
      }
      bad := None;
    }

    method RotateCertificate(made: Certificate, dropPrevious: bool) returns (o: Outcome)
      modifies this
      ensures files == After(old(files), Rotate(made, dropPrevious, old(budget)))
      ensures o == match RotateRefusal(old(files), dropPrevious)
        case Some(refusal) => Refused(refusal)
        case None => if old(budget) >= 4 then Done else CutOff
    {
      var missing := ReadSecrets(NAMES);
      if missing.Some? {
        return Refused(missing.value);
      }
      var bad := ShapeProblem();
      if bad.Some? {
        return Refused(bad.value);
      }
      RotatableNames(files);
      var current, currentPassword := files[DpCert], files[DpCertPassword];
      var previous, previousPassword := files[DpPrevious], files[DpPreviousPassword];
      if (previous == "") != (previousPassword == "") {
        return Refused(HalfEmpty);
      }
      if previous != "" && !dropPrevious {
        return Refused(PreviousNotEmpty);
      }
      SecondPair(files, PairWrites(current, currentPassword, true), PairWrites(made.text, made.password, false), budget);
      var first := WritePair(PairWrites(current, currentPassword, true));
      if !first {
        return CutOff;
      }
      var second := WritePair(PairWrites(made.text, made.password, false));
      o := if second then Done else CutOff;
    }

    method RetirePreviousCertificate() returns (o: Outcome)
      modifies this
      ensures files == After(old(files), Retire(old(budget)))
      ensures o == match FirstMissing(old(files), PREVIOUS_NAMES)
        case Some(refusal) => Refused(refusal)
        case None => if RetireWrites(old(files)) == [] then NothingToDo else if old(budget) >= 2 then Done else CutOff
    {
      var missing := ReadSecrets(PREVIOUS_NAMES);
      if missing.Some? {
        return Refused(missing.value);
      }
      RetirableHasPrevious(files);
      if files[DpPrevious] == "" && files[DpPreviousPassword] == "" {
        return NothingToDo;
      }
      var complete := WritePair(PairWrites("", "", true));
      o := if complete then Done else CutOff;
    }

    method SecretsAdd(made: Certificate) returns (o: Outcome)
      modifies this
      ensures files == After(old(files), Add(made, old(budget)))
      ensures o == if old(files) != map[] then Refused(AlreadyThere) else if old(budget) >= 4 then Done else CutOff
    {
      if files != map[] {
        return Refused(AlreadyThere);
      }
      var complete := WritePair(AddWrites(made));
      o := if complete then Done else CutOff;
    }

    method SecretProblems() returns (problems: seq<Problem>)
      ensures problems == Check(files)
    {
      problems := [];
      for i := 0 to |NAMES|
        invariant problems == FileProblems(files, i)
      {
        var name := NAMES[i];
        if name !in files {
          problems := problems + [Missing(name)];
        } else if !IsWellShaped(name, files[name]) {
          problems := problems + [Malformed(name)];
        }
      }
      var derived := DerivedProblemsOf(Contents(files));
      problems := problems + derived;
    }
  }

  method DerivedProblemsOf(contents: Files) returns (problems: seq<Problem>)
    ensures problems == DerivedProblems(contents)
  {
    problems := [];
    if DpPrevious in contents && DpPreviousPassword in contents
       && (contents[DpPrevious] == "") != (contents[DpPreviousPassword] == "") {
      problems := problems + [PreviousHalfEmpty];
    }
    if DpPrevious in contents && contents[DpPrevious] != ""
       && DpCert in contents && contents[DpPrevious] == contents[DpCert] {
      problems := problems + [PreviousIsCurrent];
    }
  }

  lemma RotatableNames(files: Files)
    requires forall n :: n in NAMES ==> n in files
    ensures forall n: Name :: n in files
  {
    forall n: Name ensures n in files {
      EveryName(n);
    }
  }

  /** Two pairs written one after the other are one sequence of writes with one cut. */
  lemma SecondPair(files: Files, a: seq<Write>, b: seq<Write>, n: nat)
    ensures Cut(files, a + b, n) == if n < |a| then Cut(files, a, n) else Cut(Written(files, a, |a|), b, n - |a|)
  {
    if n < |a| {
      WrittenFirst(files, a, b, n);
    } else {
      WrittenSecond(files, a, b, if n - |a| < |b| then n - |a| else |b|);
    }
  }

  lemma {:induction false} WrittenFirst(files: Files, a: seq<Write>, b: seq<Write>, n: nat)
    requires n <= |a|
    ensures Written(files, a + b, n) == Written(files, a, n)
  {
    if n > 0 {
      WrittenFirst(files, a, b, n - 1);
    }
  }

  lemma {:induction false} WrittenSecond(files: Files, a: seq<Write>, b: seq<Write>, n: nat)
    requires n <= |b|
    ensures Written(files, a + b, |a| + n) == Written(Written(files, a, |a|), b, n)
  {
    if n == 0 {
      WrittenFirst(files, a, b, |a|);
    } else {
      WrittenSecond(files, a, b, n - 1);
    }
  }
}
