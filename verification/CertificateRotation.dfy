/**
  The four files of the key ring's certificate: adding, rotating and retiring them as sequences of atomic
  writes that may stop after any one, and what `check` says about the files it then finds.
 */
module CertificateRotation {
  import opened Options

  datatype Name = DpCert | DpCertPassword | DpPrevious | DpPreviousPassword

  type Files = map<Name, string>

  datatype Certificate = Certificate(text: string, password: string)

  const NAMES := [DpCert, DpCertPassword, DpPrevious, DpPreviousPassword]
  const PFX_MAX_BYTES := 16 * 1024

  // ----- Shapes -----

  predicate IsAlphanumeric(c: char) {
    'A' <= c <= 'Z' || 'a' <= c <= 'z' || '0' <= c <= '9'
  }

  predicate IsPassword(text: string) {
    32 <= |text| <= 256 && forall i :: 0 <= i < |text| ==> IsAlphanumeric(text[i])
  }

  function Padding(text: string): (n: nat) {
    if |text| >= 2 && text[|text| - 2..] == "==" then 2 else if |text| >= 1 && text[|text| - 1] == '=' then 1 else 0
  }

  /** Strict base64 on one line (section 4 of RFC 4648) that decodes to 1 byte up to 16 KiB. */
  predicate IsPfx(text: string) {
    && |text| % 4 == 0 && Padding(text) < |text|
    && (forall i :: 0 <= i < |text| - Padding(text) ==> IsAlphanumeric(text[i]) || text[i] == '+' || text[i] == '/')
    && 1 <= |text| / 4 * 3 - Padding(text) <= PFX_MAX_BYTES
  }

  predicate IsWellShaped(name: Name, text: string) {
    match name
    case DpCert => IsPfx(text)
    case DpCertPassword => IsPassword(text)
    case DpPrevious => text == "" || IsPfx(text)
    case DpPreviousPassword => text == "" || IsPassword(text)
  }

  // ----- Writes -----

  datatype Write = Write(name: Name, text: string)

  function Written(files: Files, writes: seq<Write>, n: nat): (after: Files)
    requires n <= |writes|
  {
    if n == 0 then files else Written(files, writes, n - 1)[writes[n - 1].name := writes[n - 1].text]
  }

  function PairWrites(cert: string, password: string, previous: bool): (ws: seq<Write>)
    ensures |ws| == 2
  {
    if previous then [Write(DpPrevious, cert), Write(DpPreviousPassword, password)]
    else [Write(DpCert, cert), Write(DpCertPassword, password)]
  }

  // ----- Commands: why they refuse and what they write -----

  datatype Refusal = MissingFile(missing: Name) | BadShape(bad: Name) | HalfEmpty | PreviousNotEmpty | AlreadyThere

  function FirstMissing(files: Files, names: seq<Name>): (r: Option<Refusal>)
    ensures r == None <==> forall n :: n in names ==> n in files
  {
    if names == [] then None
    else if names[0] !in files then Some(MissingFile(names[0]))
    else FirstMissing(files, names[1..])
  }

  function FirstBadShape(files: Files, names: seq<Name>): (r: Option<Refusal>)
    requires forall n :: n in names ==> n in files
    ensures r == None <==> forall n :: n in names ==> IsWellShaped(n, files[n])
  {
    if names == [] then None
    else if !IsWellShaped(names[0], files[names[0]]) then Some(BadShape(names[0]))
    else FirstBadShape(files, names[1..])
  }

  predicate IsHalfEmpty(previous: string, password: string) {
    (previous == "") != (password == "")
  }

  function RotateRefusal(files: Files, dropPrevious: bool): (r: Option<Refusal>) {
    if FirstMissing(files, NAMES).Some? then FirstMissing(files, NAMES)
    else if FirstBadShape(files, NAMES).Some? then FirstBadShape(files, NAMES)
    else if IsHalfEmpty(files[DpPrevious], files[DpPreviousPassword]) then Some(HalfEmpty)
    else if files[DpPrevious] != "" && !dropPrevious then Some(PreviousNotEmpty)
    else None
  }

  /** The current pair becomes the previous pair first; then the new pair becomes current. */
  function RotateWrites(files: Files, made: Certificate): (ws: seq<Write>)
    requires DpCert in files && DpCertPassword in files
    ensures |ws| == 4
  {
    PairWrites(files[DpCert], files[DpCertPassword], true) + PairWrites(made.text, made.password, false)
  }

  const PREVIOUS_NAMES := [DpPrevious, DpPreviousPassword]

  function RetireWrites(files: Files): (ws: seq<Write>)
    requires DpPrevious in files && DpPreviousPassword in files
  {
    if files[DpPrevious] == "" && files[DpPreviousPassword] == "" then [] else PairWrites("", "", true)
  }

  function AddRefusal(files: Files): (r: Option<Refusal>) {
    if files != map[] then Some(AlreadyThere) else None
  }

  function AddWrites(made: Certificate): (ws: seq<Write>)
    ensures |ws| == 4
  {
    PairWrites(made.text, made.password, false) + PairWrites("", "", true)
  }

  // ----- `check` -----

  datatype Problem = Missing(name: Name) | Malformed(name: Name) | PreviousHalfEmpty | PreviousIsCurrent

  function FileProblem(files: Files, name: Name): (p: seq<Problem>) {
    if name !in files then [Missing(name)] else if !IsWellShaped(name, files[name]) then [Malformed(name)] else []
  }

  function FileProblems(files: Files, n: nat): (ps: seq<Problem>)
    requires n <= |NAMES|
    ensures ps == [] <==> forall i :: 0 <= i < n ==> NAMES[i] in files && IsWellShaped(NAMES[i], files[NAMES[i]])
  {
    if n == 0 then [] else FileProblems(files, n - 1) + FileProblem(files, NAMES[n - 1])
  }

  /** Only well-shaped files are compared with each other. */
  function Contents(files: Files): (contents: Files)
    ensures forall n :: n in contents <==> n in files && IsWellShaped(n, files[n])
    ensures forall n :: n in contents ==> contents[n] == files[n]
  {
    map n | n in files && IsWellShaped(n, files[n]) :: files[n]
  }

  function DerivedProblems(contents: Files): (ps: seq<Problem>) {
    (if DpPrevious in contents && DpPreviousPassword in contents
        && IsHalfEmpty(contents[DpPrevious], contents[DpPreviousPassword]) then [PreviousHalfEmpty] else [])
    + if DpPrevious in contents && contents[DpPrevious] != ""
         && DpCert in contents && contents[DpPrevious] == contents[DpCert] then [PreviousIsCurrent] else []
  }

  function Check(files: Files): (ps: seq<Problem>) {
    FileProblems(files, |NAMES|) + DerivedProblems(Contents(files))
  }

  // ----- What the shapes are, and what makes the four files healthy -----

  /** An ASCII letter or digit, by its code point. */
  predicate LetterOrDigit(c: char) {
    var n := c as int;
    48 <= n <= 57 || 65 <= n <= 90 || 97 <= n <= 122
  }

  /** 32 to 256 letters and digits. */
  ghost predicate Password(text: string) {
    32 <= |text| <= 256 && forall c :: c in text ==> LetterOrDigit(c)
  }

  /** The text is a base64 body and its padding, in whole groups of four characters, of 1 byte up to 16 KiB. */
  ghost predicate Encodes(text: string, body: string, padding: string) {
    && text == body + padding && padding in {"", "=", "=="} && |text| % 4 == 0
    && (forall c :: c in body ==> LetterOrDigit(c) || c == '+' || c == '/')
    && 1 <= |body| * 3 / 4 <= 16_384
  }

  lemma PasswordIff(text: string)
    ensures IsPassword(text) <==> Password(text)
  {
    forall i | 0 <= i < |text| ensures text[i] in text {
    }
    forall c | c in text ensures exists i :: 0 <= i < |text| && text[i] == c {
    }
  }

  lemma PfxEncodes(text: string)
    requires IsPfx(text)
    ensures Encodes(text, text[..|text| - Padding(text)], text[|text| - Padding(text)..])
  {
    var n := |text| - Padding(text);
    assert text == text[..n] + text[n..];
    assert text[n..] == if |text| == n then "" else if |text| == n + 1 then "=" else "==";
    forall c | c in text[..n] ensures LetterOrDigit(c) || c == '+' || c == '/' {
      var i :| 0 <= i < n && text[i] == c;
    }
  }

  lemma EncodesIsPfx(text: string, body: string, padding: string)
    requires Encodes(text, body, padding)
    ensures IsPfx(text)
  {
    PaddingOf(text, body, padding);
    forall i | 0 <= i < |body| ensures IsAlphanumeric(text[i]) || text[i] == '+' || text[i] == '/' {
      assert text[i] == body[i] && body[i] in body;
    }
  }

  lemma PfxIff(text: string)
    ensures IsPfx(text) <==> Pfx(text)
  {
    if IsPfx(text) {
      PfxEncodes(text);
    }
    if body, padding :| Encodes(text, body, padding) {
      EncodesIsPfx(text, body, padding);
    }
  }

  lemma PaddingOf(text: string, body: string, padding: string)
    requires Encodes(text, body, padding)
    ensures Padding(text) == |padding|
  {
    assert body[|body| - 1] in body;
    assert text[|body| - 1] == body[|body| - 1];
    if padding == "==" {
      assert text[|text| - 2..] == "==";
    } else if padding == "=" {
      assert text[|text| - 1] == '=' && text[|text| - 2] == body[|body| - 1];
    } else {
      assert text == body;
    }
  }

  ghost predicate Pfx(text: string) {
    exists body, padding :: Encodes(text, body, padding)
  }

  /** All four files are there and well-shaped, and the previous pair is whole or empty. */
  ghost predicate AllWhole(files: Files) {
    && (forall n: Name :: n in files)
    && Pfx(files[DpCert]) && Password(files[DpCertPassword])
    && (files[DpPrevious] == "" <==> files[DpPreviousPassword] == "")
    && (files[DpPrevious] != "" ==> Pfx(files[DpPrevious]) && Password(files[DpPreviousPassword]))
  }

  predicate IsHealthy(files: Files) {
    && (forall n :: n in NAMES ==> n in files && IsWellShaped(n, files[n]))
    && !IsHalfEmpty(files[DpPrevious], files[DpPreviousPassword])
    && files[DpPrevious] != files[DpCert]
  }

  lemma EveryName(n: Name)
    ensures n in NAMES
  {
    assert NAMES[0] == DpCert && NAMES[1] == DpCertPassword && NAMES[2] == DpPrevious && NAMES[3] == DpPreviousPassword;
    match n
    case DpCert => assert NAMES[0] in NAMES;
    case DpCertPassword => assert NAMES[1] in NAMES;
    case DpPrevious => assert NAMES[2] in NAMES;
    case DpPreviousPassword => assert NAMES[3] in NAMES;
  }

  lemma WellShapedIff(name: Name, text: string)
    ensures IsWellShaped(name, text) <==>
      || ((name == DpPrevious || name == DpPreviousPassword) && text == "")
      || (if name == DpCert || name == DpPrevious then Pfx(text) else Password(text))
  {
    PfxIff(text);
    PasswordIff(text);
  }

  lemma AllWholeIff(files: Files)
    ensures AllWhole(files) <==>
      && (forall n :: n in NAMES ==> n in files && IsWellShaped(n, files[n]))
      && !IsHalfEmpty(files[DpPrevious], files[DpPreviousPassword])
  {
    forall n: Name ensures n in NAMES {
      EveryName(n);
    }
    forall n | n in files
      ensures IsWellShaped(n, files[n]) <==>
        || ((n == DpPrevious || n == DpPreviousPassword) && files[n] == "")
        || (if n == DpCert || n == DpPrevious then Pfx(files[n]) else Password(files[n]))
    {
      WellShapedIff(n, files[n]);
    }
  }

  /** `check` is silent exactly on four present, well-shaped files whose previous pair is whole and not the current one. */
  lemma CheckIsSilentIff(files: Files)
    ensures Check(files) == [] <==> IsHealthy(files)
    ensures Check(files) == [] <==> AllWhole(files) && files[DpPrevious] != files[DpCert]
  {
    EveryName(DpCert);
    EveryName(DpCertPassword);
    EveryName(DpPrevious);
    EveryName(DpPreviousPassword);
    AllWholeIff(files);
  }

  lemma {:induction false} FileProblemsAre(files: Files, k: nat, n: Name)
    requires k <= |NAMES|
    ensures Missing(n) in FileProblems(files, k) <==> n in NAMES[..k] && n !in files
    ensures Malformed(n) in FileProblems(files, k) <==> n in NAMES[..k] && n in files && !IsWellShaped(n, files[n])
    ensures PreviousHalfEmpty !in FileProblems(files, k) && PreviousIsCurrent !in FileProblems(files, k)
  {
    if k > 0 {
      FileProblemsAre(files, k - 1, n);
      assert NAMES[..k] == NAMES[..k - 1] + [NAMES[k - 1]];
    }
  }

  /** Each problem is named exactly when it is there; only well-shaped files are compared with each other. */
  lemma CheckNamesIff(files: Files, n: Name)
    ensures Missing(n) in Check(files) <==> n !in files
    ensures Malformed(n) in Check(files) <==> n in files && n !in Contents(files)
    ensures PreviousHalfEmpty in Check(files) <==>
      && DpPrevious in Contents(files) && DpPreviousPassword in Contents(files)
      && (files[DpPrevious] == "" <==> files[DpPreviousPassword] != "")
    ensures PreviousIsCurrent in Check(files) <==>
      && DpPrevious in Contents(files) && DpCert in Contents(files)
      && files[DpPrevious] == files[DpCert]
  {
    EveryName(n);
    EmptyHasNoShape();
    FileProblemsAre(files, |NAMES|, n);
    assert NAMES[..|NAMES|] == NAMES;
  }

  /**
    A rotation is made exactly from whole files whose previous pair is empty or may be dropped; an addition exactly where
    none of the four files is there.
   */
  lemma CommandsAreMadeIff(files: Files, dropPrevious: bool)
    ensures RotateRefusal(files, dropPrevious) == None <==> AllWhole(files) && (dropPrevious || files[DpPrevious] == "")
    ensures AddRefusal(files) == None <==> forall n: Name :: n !in files
  {
    AllWholeIff(files);
    if forall n: Name :: n !in files {
      assert files == map[];
    }
  }

  // ----- Which certificates are kept -----

  predicate Holds(files: Files, certName: Name, passwordName: Name, c: Certificate) {
    certName in files && passwordName in files && files[certName] == c.text && files[passwordName] == c.password
  }

  /** A certificate is kept while it stands beside its own password, in the current or the previous pair. */
  predicate Kept(files: Files, c: Certificate) {
    Holds(files, DpCert, DpCertPassword, c) || Holds(files, DpPrevious, DpPreviousPassword, c)
  }

  function Current(files: Files): (c: Certificate)
    requires DpCert in files && DpCertPassword in files
  {
    Certificate(files[DpCert], files[DpCertPassword])
  }

  lemma RotatedFiles(files: Files, made: Certificate, n: nat)
    requires DpCert in files && DpCertPassword in files && n <= 4
    ensures var after := Written(files, RotateWrites(files, made), n);
      && after.Keys == files.Keys + (if n >= 1 then {DpPrevious} else {}) + (if n >= 2 then {DpPreviousPassword} else {})
      && after[DpCert] == (if n >= 3 then made.text else files[DpCert])
      && after[DpCertPassword] == (if n >= 4 then made.password else files[DpCertPassword])
      && (n >= 1 ==> after[DpPrevious] == files[DpCert])
      && (n >= 2 ==> after[DpPreviousPassword] == files[DpCertPassword])
      && (n < 1 && DpPrevious in files ==> after[DpPrevious] == files[DpPrevious])
      && (n < 2 && DpPreviousPassword in files ==> after[DpPreviousPassword] == files[DpPreviousPassword])
  {
    if n > 0 {
      RotatedFiles(files, made, n - 1);
    }
  }

  /** Wherever a rotation stops, the certificate it started from is still beside its own password. */
  lemma RotationKeepsTheCurrentPair(files: Files, made: Certificate, n: nat)
    requires DpCert in files && DpCertPassword in files && n <= 4
    ensures Kept(Written(files, RotateWrites(files, made), n), Current(files))
    ensures n == 4 ==> Holds(Written(files, RotateWrites(files, made), n), DpCert, DpCertPassword, made)
  {
    RotatedFiles(files, made, n);
  }

  /**
    From files that `check` accepts, a rotation that stops is named exactly after its first and its second
    write. After the third the new certificate stands beside the old password, and nothing is named.
   */
  lemma CheckNamesFirstAndSecondWrite(files: Files, dropPrevious: bool, made: Certificate, n: nat)
    requires Check(files) == [] && RotateRefusal(files, dropPrevious) == None && n <= 4
    requires IsPfx(made.text) && IsPassword(made.password) && made.text != files[DpCert]
    ensures Check(Written(files, RotateWrites(files, made), n)) != [] <==> n == 1 || n == 2
  {
    CheckIsSilentIff(files);
    EveryName(DpCert);
    EveryName(DpCertPassword);
    RotatedFiles(files, made, n);
    var after := Written(files, RotateWrites(files, made), n);
    CheckIsSilentIff(after);
    AfterRotation(files, after, made, n);
  }

  lemma AfterRotation(files: Files, after: Files, made: Certificate, n: nat)
    requires IsHealthy(files) && n <= 4 && after == Written(files, RotateWrites(files, made), n)
    requires IsPfx(made.text) && IsPassword(made.password) && made.text != files[DpCert]
    ensures IsHealthy(after) <==> n != 1 && n != 2
  {
    forall m: Name ensures m in files && IsWellShaped(m, files[m]) {
      EveryName(m);
    }
    RotatedFiles(files, made, n);
    EmptyHasNoShape();
  }

  lemma EmptyHasNoShape()
    ensures !IsPfx("") && !IsPassword("")
  {
  }

  /** What the third write leaves: a new certificate that its own password does not stand beside. */
  lemma ThirdWriteMismatches(files: Files, made: Certificate)
    requires DpCert in files && DpCertPassword in files && made.password != files[DpCertPassword]
    requires made.text != files[DpCert]
    ensures !Kept(Written(files, RotateWrites(files, made), 3), made)
  {
    RotatedFiles(files, made, 3);
  }

  // ----- Histories -----

  /** A command, and after how many of its writes it is cut off; a larger number than it has is no cut. */
  datatype Step =
    | Add(made: Certificate, writes: nat)
    | Rotate(made: Certificate, dropPrevious: bool, writes: nat)
    | Retire(writes: nat)

  function Cut(files: Files, ws: seq<Write>, n: nat): (after: Files) {
    Written(files, ws, if n < |ws| then n else |ws|)
  }

  function After(files: Files, step: Step): (after: Files) {
    match step
    case Add(made, n) => if AddRefusal(files).Some? then files else Cut(files, AddWrites(made), n)
    case Rotate(made, dropPrevious, n) =>
      if RotateRefusal(files, dropPrevious).Some? then files
      else RotatableHasCurrent(files, dropPrevious); Cut(files, RotateWrites(files, made), n)
    case Retire(n) =>
      if FirstMissing(files, PREVIOUS_NAMES).Some? then files
      else RetirableHasPrevious(files); Cut(files, RetireWrites(files), n)
  }

  lemma RotatableHasCurrent(files: Files, dropPrevious: bool)
    requires RotateRefusal(files, dropPrevious) == None
    ensures DpCert in files && DpCertPassword in files && DpPrevious in files && DpPreviousPassword in files
    ensures IsPfx(files[DpCert]) && IsPassword(files[DpCertPassword])
    ensures !dropPrevious ==> files[DpPrevious] == "" && files[DpPreviousPassword] == ""
  {
    forall n: Name ensures n in files && IsWellShaped(n, files[n]) {
      EveryName(n);
    }
  }

  lemma RetirableHasPrevious(files: Files)
    requires FirstMissing(files, PREVIOUS_NAMES) == None
    ensures DpPrevious in files && DpPreviousPassword in files
  {
    assert PREVIOUS_NAMES[0] in PREVIOUS_NAMES && PREVIOUS_NAMES[1] in PREVIOUS_NAMES;
  }

  function AfterAll(files: Files, steps: seq<Step>): (after: Files) {
    if steps == [] then files else After(AfterAll(files, steps[..|steps| - 1]), steps[|steps| - 1])
  }

  function FourFiles(cert: string, password: string, previous: string, previousPassword: string): (files: Files) {
    map[DpCert := cert, DpCertPassword := password, DpPrevious := previous, DpPreviousPassword := previousPassword]
  }

  lemma AllFour(files: Files)
    requires forall n: Name :: n in files
    ensures files == FourFiles(files[DpCert], files[DpCertPassword], files[DpPrevious], files[DpPreviousPassword])
  {
    var four := FourFiles(files[DpCert], files[DpCertPassword], files[DpPrevious], files[DpPreviousPassword]);
    forall n: Name ensures n in four && four[n] == files[n] {
      match n
      case DpCert =>
      case DpCertPassword =>
      case DpPrevious =>
      case DpPreviousPassword =>
    }
    assert files.Keys == four.Keys;
  }

  /** Two certificates that are well-shaped, or one and no previous one, make four whole files. */
  lemma FourAreWhole(current: Certificate, previous: Certificate)
    requires Pfx(current.text) && Password(current.password)
    requires (previous.text == "" && previous.password == "") || (Pfx(previous.text) && Password(previous.password))
    ensures AllWhole(FourFiles(current.text, current.password, previous.text, previous.password))
  {
    var four := FourFiles(current.text, current.password, previous.text, previous.password);
    forall n: Name ensures n in four {
      match n
      case DpCert =>
      case DpCertPassword =>
      case DpPrevious =>
      case DpPreviousPassword =>
    }
    EmptyHasNoShape();
    PfxIff("");
    PasswordIff("");
  }

  /** An addition that is not cut off makes the four files where there is none, and else changes nothing. */
  lemma WholeAddition(files: Files, made: Certificate, n: nat)
    requires n >= 4
    ensures After(files, Add(made, n)) ==
      if forall name: Name :: name !in files then FourFiles(made.text, made.password, "", "") else files
  {
    CommandsAreMadeIff(files, false);
    if forall name: Name :: name !in files {
      assert files == map[];
      AddedFiles(made, 4);
    }
  }

  /** A rotation that is made moves the current pair to the previous one and puts the new pair in its place. */
  lemma WholeRotation(files: Files, made: Certificate, dropPrevious: bool, n: nat)
    requires n >= 4
    ensures After(files, Rotate(made, dropPrevious, n)) ==
      if AllWhole(files) && (dropPrevious || files[DpPrevious] == "")
      then FourFiles(made.text, made.password, files[DpCert], files[DpCertPassword]) else files
  {
    CommandsAreMadeIff(files, dropPrevious);
    if RotateRefusal(files, dropPrevious) == None {
      RotatableHasCurrent(files, dropPrevious);
      RotatedFiles(files, made, 4);
      AllFour(After(files, Rotate(made, dropPrevious, n)));
    }
  }

  /** A retirement empties the previous pair, and changes nothing where that is not there. */
  lemma WholeRetirement(files: Files, n: nat)
    requires n >= 4
    ensures After(files, Retire(n)) ==
      if DpPrevious in files && DpPreviousPassword in files
      then files[DpPrevious := ""][DpPreviousPassword := ""] else files
  {
    if FirstMissing(files, PREVIOUS_NAMES) == None {
      RetirableHasPrevious(files);
      RetiredFiles(files, 2);
      assert Written(files, PairWrites("", "", true), 2) == files[DpPrevious := ""][DpPreviousPassword := ""];
    } else {
      MissingPrevious(files);
    }
  }

  lemma OneStepMore(files: Files, steps: seq<Step>, step: Step)
    ensures AfterAll(files, steps + [step]) == After(AfterAll(files, steps), step)
  {
    assert (steps + [step])[..|steps|] == steps;
  }

  /** Commands follow one another: rotated from whole files, retired and rotated again, the last two certificates remain. */
  lemma RotateRetireRotate(a: Certificate, b: Certificate, c: Certificate)
    requires Pfx(a.text) && Password(a.password) && Pfx(b.text) && Password(b.password)
    ensures var files := FourFiles(a.text, a.password, "", "");
      AfterAll(files, [Rotate(b, false, 4)] + [Retire(4)] + [Rotate(c, false, 4)])
        == FourFiles(c.text, c.password, b.text, b.password)
  {
    var none := Certificate("", "");
    var files := FourFiles(a.text, a.password, "", "");
    FourAreWhole(a, none);
    FourAreWhole(b, none);
    OneStepMore(files, [], Rotate(b, false, 4));
    assert [] + [Rotate(b, false, 4)] == [Rotate(b, false, 4)];
    WholeRotation(files, b, false, 4);
    OneStepMore(files, [Rotate(b, false, 4)], Retire(4));
    WholeRetirement(FourFiles(b.text, b.password, a.text, a.password), 4);
    assert FourFiles(b.text, b.password, a.text, a.password)[DpPrevious := ""][DpPreviousPassword := ""]
        == FourFiles(b.text, b.password, "", "");
    OneStepMore(files, [Rotate(b, false, 4)] + [Retire(4)], Rotate(c, false, 4));
    WholeRotation(FourFiles(b.text, b.password, "", ""), c, false, 4);
  }

  /** Adding never touches what is there, and a rotation that may not drop finds nothing to drop. */
  lemma OtherCommandsKeep(files: Files, step: Step, c: Certificate)
    requires Kept(files, c) && c.text != "" && !step.Retire? && (step.Rotate? ==> !step.dropPrevious)
    ensures Kept(After(files, step), c)
  {
    if step.Rotate? && RotateRefusal(files, false) == None {
      RotatableHasCurrent(files, false);
      RotationKeepsTheCurrentPair(files, step.made, if step.writes < 4 then step.writes else 4);
    }
  }

  /** Retiring loses a kept certificate exactly when it only stands in the previous pair and a write is made. */
  lemma RetireLosesIff(files: Files, writes: nat, c: Certificate)
    requires Kept(files, c) && c.text != ""
    ensures !Kept(After(files, Retire(writes)), c)
       <==> !Holds(files, DpCert, DpCertPassword, c) && writes > 0
  {
    if FirstMissing(files, PREVIOUS_NAMES) == None {
      RetirableHasPrevious(files);
      RetiredFiles(files, if writes < 2 then writes else 2);
    } else {
      MissingPrevious(files);
    }
  }

  /**
    A rotation that may drop loses a kept certificate exactly when it stands only in the previous pair, as soon
    as both files of that pair are overwritten, and already with the first unless the text there stays the same.
   */
  lemma DroppingRotationLosesIff(files: Files, made: Certificate, writes: nat, c: Certificate)
    requires Kept(files, c) && c.text != "" && RotateRefusal(files, true) == None && made.text != c.text
    ensures !Kept(After(files, Rotate(made, true, writes)), c)
       <==> !Holds(files, DpCert, DpCertPassword, c)
            && (writes >= 2 || (writes == 1 && c.text != files[DpCert]))
  {
    RotatableHasCurrent(files, true);
    RotatedFiles(files, made, if writes < 4 then writes else 4);
  }

  /** From files that `check` accepts, the first write is enough. */
  lemma DroppingHealthyLosesIff(files: Files, made: Certificate, writes: nat, c: Certificate)
    requires Check(files) == [] && Kept(files, c) && c.text != "" && made.text != c.text
    ensures RotateRefusal(files, true) == None
    ensures !Kept(After(files, Rotate(made, true, writes)), c)
       <==> !Holds(files, DpCert, DpCertPassword, c) && writes > 0
  {
    CheckIsSilentIff(files);
    EveryName(DpCert);
    EveryName(DpPrevious);
    DroppingRotationLosesIff(files, made, writes, c);
  }

  lemma MissingPrevious(files: Files)
    requires FirstMissing(files, PREVIOUS_NAMES).Some?
    ensures DpPrevious !in files || DpPreviousPassword !in files
  {
    if DpPrevious in files && DpPreviousPassword in files {
      HasPrevious(files);
    }
  }

  lemma RetiredFiles(files: Files, n: nat)
    requires DpPrevious in files && DpPreviousPassword in files && n <= 2
    ensures var after := Written(files, PairWrites("", "", true), n);
      && after.Keys == files.Keys
      && (forall name :: name in files && name != DpPrevious && name != DpPreviousPassword ==> after[name] == files[name])
      && after[DpPrevious] == (if n >= 1 then "" else files[DpPrevious])
      && after[DpPreviousPassword] == (if n >= 2 then "" else files[DpPreviousPassword])
  {
    if n > 0 {
      RetiredFiles(files, n - 1);
    }
  }

  ghost predicate LosesAt(files: Files, steps: seq<Step>, i: nat, c: Certificate)
    requires i < |steps|
  {
    Kept(AfterAll(files, steps[..i]), c) && !Kept(After(AfterAll(files, steps[..i]), steps[i]), c)
  }

  predicate MayLose(step: Step) {
    step.Retire? || (step.Rotate? && step.dropPrevious)
  }

  /** Over any history whatever, each command cut off anywhere, only a retirement or a dropping rotation loses one. */
  lemma {:induction false} OnlyRetireOrDropLoses(files: Files, steps: seq<Step>, c: Certificate)
    requires Kept(files, c) && c.text != ""
    ensures Kept(AfterAll(files, steps), c)
         || exists i: nat :: i < |steps| && MayLose(steps[i]) && LosesAt(files, steps, i, c)
  {
    if steps != [] {
      var n := |steps| - 1;
      OnlyRetireOrDropLoses(files, steps[..n], c);
      if Kept(AfterAll(files, steps[..n]), c) {
        if MayLose(steps[n]) {
          assert LosesAt(files, steps, n, c) || Kept(AfterAll(files, steps), c);
        } else {
          OtherCommandsKeep(AfterAll(files, steps[..n]), steps[n], c);
        }
      } else {
        var i: nat :| i < n && MayLose(steps[..n][i]) && LosesAt(files, steps[..n], i, c);
        assert steps[..n][..i] == steps[..i];
        assert LosesAt(files, steps, i, c);
      }
    }
  }

  /** Over any history without `--drop-previous`, whatever is cut off where, only `retire` loses a certificate. */
  lemma OnlyRetireLoses(files: Files, steps: seq<Step>, c: Certificate)
    requires Kept(files, c) && c.text != ""
    requires forall s :: s in steps ==> s.Rotate? ==> !s.dropPrevious
    ensures Kept(AfterAll(files, steps), c)
         || exists i: nat :: i < |steps| && steps[i].Retire? && LosesAt(files, steps, i, c)
  {
    OnlyRetireOrDropLoses(files, steps, c);
    if !Kept(AfterAll(files, steps), c) {
      var i: nat :| i < |steps| && MayLose(steps[i]) && LosesAt(files, steps, i, c);
      assert steps[i] in steps;
    }
  }

  // ----- Recovery -----

  /** Retiring undoes a rotation that stopped after its first or second write: the old pair is current, alone. */
  lemma RetireUndoesAnEarlyStop(files: Files, made: Certificate, n: nat, writes: nat)
    requires RotateRefusal(files, false) == None && (n == 1 || n == 2) && writes >= 2
    ensures After(After(files, Rotate(made, false, n)), Retire(writes)) == files
  {
    RotatableHasCurrent(files, false);
    var stopped := After(files, Rotate(made, false, n));
    RotatedFiles(files, made, n);
    RetiredWhole(stopped, writes);
    var undone := After(stopped, Retire(writes));
    assert undone.Keys == files.Keys;
    assert stopped == Written(files, RotateWrites(files, made), n);
    forall name: Name | name in files ensures undone[name] == files[name] {
      match name
      case DpCert =>
      case DpCertPassword =>
      case DpPrevious =>
      case DpPreviousPassword =>
    }
  }

  /** A retirement that is not cut off empties the previous pair and nothing else. */
  lemma RetiredWhole(files: Files, writes: nat)
    requires DpPrevious in files && DpPreviousPassword in files && writes >= 2
    ensures After(files, Retire(writes)) == files[DpPrevious := ""][DpPreviousPassword := ""]
  {
    HasPrevious(files);
    RetiredFiles(files, 2);
    assert files[DpPrevious := ""][DpPreviousPassword := ""].Keys == files.Keys;
  }

  lemma HasPrevious(files: Files)
    requires DpPrevious in files && DpPreviousPassword in files
    ensures FirstMissing(files, PREVIOUS_NAMES) == None
  {
    assert forall n :: n in PREVIOUS_NAMES ==> n == DpPrevious || n == DpPreviousPassword;
  }

  /** After the third write retiring is no way back: it loses the only certificate that has its password. */
  lemma RetireAfterTheThirdWriteLoses(files: Files, made: Certificate)
    requires RotateRefusal(files, false) == None && made.text != files[DpCert]
    ensures !Kept(After(After(files, Rotate(made, false, 3)), Retire(2)), Current(files))
  {
    RotatableHasCurrent(files, false);
    RotatedFiles(files, made, 3);
    RotationKeepsTheCurrentPair(files, made, 3);
    EmptyHasNoShape();
    RetireLosesIff(After(files, Rotate(made, false, 3)), 2, Current(files));
  }

  /** An addition is named by `check` until its last write. */
  lemma AddIsNamedUntilComplete(made: Certificate, n: nat)
    requires IsPfx(made.text) && IsPassword(made.password) && n <= 4
    ensures Check(Written(map[], AddWrites(made), n)) == [] <==> n == 4
  {
    AddedFiles(made, n);
    CheckIsSilentIff(Written(map[], AddWrites(made), n));
    EveryName(DpPreviousPassword);
    EmptyHasNoShape();
  }

  lemma AddedFiles(made: Certificate, n: nat)
    requires n <= 4
    ensures var after := Written(map[], AddWrites(made), n);
      && (DpPreviousPassword in after <==> n == 4)
      && (n == 4 ==>
            after == map[DpCert := made.text, DpCertPassword := made.password, DpPrevious := "", DpPreviousPassword := ""])
  {
    if n > 0 {
      AddedFiles(made, n - 1);
    }
    var ws := AddWrites(made);
    assert ws[0] == Write(DpCert, made.text) && ws[1] == Write(DpCertPassword, made.password);
    assert ws[2] == Write(DpPrevious, "") && ws[3] == Write(DpPreviousPassword, "");
    if n == 4 {
      assert Written(map[], ws, 1) == map[DpCert := made.text];
      assert Written(map[], ws, 2) == map[DpCert := made.text, DpCertPassword := made.password];
      assert Written(map[], ws, 3) == map[DpCert := made.text, DpCertPassword := made.password, DpPrevious := ""];
    }
  }
}
