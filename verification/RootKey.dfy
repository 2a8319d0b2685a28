/** The measurement-bound root key: four objects and a log entry, written in a fixed order by
    boots that may fail or crash between any two steps. */
module RootKey {
  import opened Options

  /** A generation's key pair, certificate and attestation share an identity; KMS data keys have
      their own. Encryption is ideal: a sealed key opens under one data key and no other. */
  type Id = nat

  datatype Sealed = Sealed(key: Id, under: Id)

  /** The two buckets and the transparency log. `used` are the identities drawn so far. */
  datatype World = World(
    aesEncryptedKey: Option<Sealed>,
    kmsEncryptedKey: Option<Id>,
    certificate: Option<Id>,
    attestation: Option<Id>,
    tlogEntry: Option<Id>,   // the log's entry for a certificate, as stored
    log: set<Id>,            // the certificates the log has recorded
    used: set<Id>)

  const Empty := World(None, None, None, None, None, {}, {})

  /** Everything a boot asks of the outside, in the order of the code. */
  datatype Op =
    | GetCertificate | GetKmsKey | KmsDecrypt | GetAesKey | GetAttestation
    | HeadTlogEntry | FindLogEntry | PutFoundEntry
    | GenerateKeys | KmsGenerate | PutAesKey | PutKmsKey | PutCertificate | PutAttestation
    | RecordInLog | PutTlogEntry

  /** A step may throw, or the machine may stop, before or after the step has taken effect. */
  datatype Fault = NoFault | ThrowBefore | ThrowAfter | CrashBefore | CrashAfter

  datatype Result = Returned(certificate: Id, key: Id, token: Id) | Threw | Crashed

  /** One boot: the identities it would draw, and what goes wrong at each step. */
  datatype Boot = Boot(key: Id, dataKey: Id, fault: Op -> Fault)

  predicate TakesEffect(f: Fault) {
    f == NoFault || f == ThrowAfter || f == CrashAfter
  }

  function Outcome(f: Fault): Result
    requires f != NoFault
  {
    if f == ThrowBefore || f == ThrowAfter then Threw else Crashed
  }

  /** The generation path, from its i-th write on. */
  function Writes(w: World, b: Boot, i: nat): (World, Result)
    requires i <= 6
    decreases 6 - i
  {
    if i == 6 then (w, Returned(b.key, b.key, b.key))
    else
      var f := b.fault(WriteOp(i));
      var w1 := if TakesEffect(f) then Write(w, b, i) else w;
      if f == NoFault then Writes(w1, b, i + 1) else (w1, Outcome(f))
  }

  function WriteOp(i: nat): Op
    requires i < 6
  {
    [PutAesKey, PutKmsKey, PutCertificate, PutAttestation, RecordInLog, PutTlogEntry][i]
  }

  function Write(w: World, b: Boot, i: nat): World
    requires i < 6
  {
    match i
    case 0 => w.(aesEncryptedKey := Some(Sealed(b.key, b.dataKey)))
    case 1 => w.(kmsEncryptedKey := Some(b.dataKey))
    case 2 => w.(certificate := Some(b.key))
    case 3 => w.(attestation := Some(b.key))
    case 4 => w.(log := w.log + {b.key})
    case _ => w.(tlogEntry := Some(b.key))
  }

  function GenerateAndStore(w: World, b: Boot): (World, Result) {
    var w1 := w.(used := w.used + {b.key, b.dataKey});
    if b.fault(GenerateKeys) != NoFault then (w1, Outcome(b.fault(GenerateKeys)))
    else if b.fault(KmsGenerate) != NoFault then (w1, Outcome(b.fault(KmsGenerate)))
    else Writes(w1, b, 0)
  }

  /** Loading's last step: fetch a missing log entry. Only the existence check may fail the boot;
      what goes wrong after it is logged and swallowed, unless the machine stops. */
  function Reconcile(w: World, b: Boot, cert: Id): (World, Option<Result>) {
    if b.fault(HeadTlogEntry) != NoFault then (w, Some(Outcome(b.fault(HeadTlogEntry))))
    else if w.tlogEntry != None then (w, None)
    else
      var f := b.fault(FindLogEntry);
      if f == CrashBefore || f == CrashAfter then (w, Some(Crashed))
      else if f != NoFault || cert !in w.log then (w, None)
      else
        var g := b.fault(PutFoundEntry);
        var w1 := if TakesEffect(g) then w.(tlogEntry := Some(cert)) else w;
        (w1, if g == CrashBefore || g == CrashAfter then Some(Crashed) else None)
  }

  function LoadOrGenerate(w: World, b: Boot): (World, Result) {
    if b.fault(GetCertificate) != NoFault then (w, Outcome(b.fault(GetCertificate)))
    else if w.certificate == None then GenerateAndStore(w, b)
    else if b.fault(GetKmsKey) != NoFault then (w, Outcome(b.fault(GetKmsKey)))
    else if w.kmsEncryptedKey == None then GenerateAndStore(w, b)
    else if b.fault(KmsDecrypt) != NoFault then (w, Outcome(b.fault(KmsDecrypt)))
    else if b.fault(GetAesKey) != NoFault then (w, Outcome(b.fault(GetAesKey)))
    else if w.aesEncryptedKey == None then GenerateAndStore(w, b)
    else if b.fault(GetAttestation) != NoFault then (w, Outcome(b.fault(GetAttestation)))
    else if w.attestation == None then GenerateAndStore(w, b)
    else if w.aesEncryptedKey.value.under != w.kmsEncryptedKey.value then (w, Threw)
    else
      var (w1, stopped) := Reconcile(w, b, w.certificate.value);
      if stopped != None then (w1, stopped.value)
      else (w1, Returned(w.certificate.value, w.aesEncryptedKey.value.key, w.attestation.value))
  }

  ghost predicate NoFaults(b: Boot) {
    forall op :: b.fault(op) == NoFault
  }

  /** A boot draws identities nobody has drawn before. */
  ghost predicate Fresh(w: World, b: Boot) {
    b.key !in w.used && b.dataKey !in w.used && b.key != b.dataKey
  }

  /** Crash consistency: the attestation, written last, vouches for one whole generation; no other
      certificate is ever recorded in the log; and the stored log entry is the log's for it. */
  ghost predicate Consistent(w: World) {
    && (w.attestation.Some? ==>
          && w.certificate == w.attestation
          && w.kmsEncryptedKey.Some?
          && w.aesEncryptedKey == Some(Sealed(w.attestation.value, w.kmsEncryptedKey.value)))
    && (w.tlogEntry.Some? ==>
          w.attestation.Some? && w.tlogEntry == w.certificate && w.tlogEntry.value in w.log)
    && (forall c :: c in w.log ==> w.attestation == Some(c))
  }

  /** How far a generation has come when its i-th write is next. */
  ghost predicate Written(w: World, b: Boot, i: nat) {
    && (i <= 3 ==> w.attestation == None && w.tlogEntry == None)
    && (i >= 1 ==> w.aesEncryptedKey == Some(Sealed(b.key, b.dataKey)))
    && (i >= 2 ==> w.kmsEncryptedKey == Some(b.dataKey))
    && (i >= 3 ==> w.certificate == Some(b.key))
    && (i >= 4 ==> w.attestation == Some(b.key))
    && (4 <= i <= 5 ==> w.tlogEntry == None)
    && (i <= 4 ==> w.log == {})
    && (i >= 5 ==> w.log == {b.key})
    && (i >= 6 ==> w.tlogEntry == Some(b.key))
  }

  lemma WriteAdvances(w: World, b: Boot, i: nat)
    requires i < 6 && Written(w, b, i)
    ensures Written(Write(w, b, i), b, i + 1)
  {
  }

  lemma {:induction false} WritesKeep(w: World, b: Boot, i: nat)
    requires i <= 6 && Written(w, b, i)
    ensures var (w', r) := Writes(w, b, i);
            && Consistent(w')
            && (r.Returned? ==> Written(w', b, 6))
            && w'.used == w.used && w.log <= w'.log
    decreases 6 - i
  {
    if i < 6 {
      WriteAdvances(w, b, i);
      var f := b.fault(WriteOp(i));
      var w1 := if TakesEffect(f) then Write(w, b, i) else w;
      if f == NoFault { WritesKeep(w1, b, i + 1); }
    }
  }

  /** A boot generates only while there is no attestation. */
  lemma GeneratesUnattested(w: World, b: Boot)
    requires Consistent(w) && w.attestation.Some?
    ensures var (w', r) := LoadOrGenerate(w, b);
            && w' == w.(tlogEntry := w'.tlogEntry)
            && (r.Returned? ==> r == Returned(w.attestation.value, w.attestation.value, w.attestation.value))
  {
  }

  /** Every boot, whatever goes wrong in it, keeps the buckets consistent, and what it returns is
      a matching set of one generation, which is then the stored one. */
  lemma {:induction false} BootKeeps(w: World, b: Boot)
    requires Consistent(w) && Fresh(w, b)
    ensures var (w', r) := LoadOrGenerate(w, b);
            && Consistent(w') && w.used <= w'.used && w.log <= w'.log
            && (r.Returned? ==>
                  && r.certificate == r.key == r.token
                  && w'.attestation == Some(r.certificate))
  {
    if w.attestation.Some? {
      GeneratesUnattested(w, b);
    } else {
      assert w.log == {};
      WritesKeep(w.(used := w.used + {b.key, b.dataKey}), b, 0);
    }
  }

  /** From every consistent world a boot without faults succeeds. */
  lemma {:induction false} Recovers(w: World, b: Boot)
    requires Consistent(w) && NoFaults(b)
    ensures LoadOrGenerate(w, b).1.Returned?
    ensures var (w', r) := LoadOrGenerate(w, b); r.certificate in w'.log ==> w'.tlogEntry == Some(r.certificate)
  {
    if w.attestation == None {
      assert w.log == {};
      var w1 := w.(used := w.used + {b.key, b.dataKey});
      NoFaultWrites(w1, b, 0);
    }
  }

  lemma {:induction false} NoFaultWrites(w: World, b: Boot, i: nat)
    requires i <= 6 && NoFaults(b) && Written(w, b, i)
    ensures Writes(w, b, i).1.Returned? && Written(Writes(w, b, i).0, b, 6)
    decreases 6 - i
  {
    if i < 6 {
      WriteAdvances(w, b, i);
      NoFaultWrites(Write(w, b, i), b, i + 1);
    }
  }

  // Which faults fail a boot.

  /** The first thing that goes wrong in a sequence of steps. */
  function FirstFault(b: Boot, steps: seq<Op>): (f: Fault)
    ensures f == NoFault <==> forall op :: op in steps ==> b.fault(op) == NoFault
  {
    if steps == [] then NoFault
    else if b.fault(steps[0]) != NoFault then b.fault(steps[0])
    else FirstFault(b, steps[1..])
  }

  predicate Stops(f: Fault) {
    f == CrashBefore || f == CrashAfter
  }

  /** What loading asks for before it turns to the log. */
  const LOADING: seq<Op> := [GetCertificate, GetKmsKey, KmsDecrypt, GetAesKey, GetAttestation]

  const GENERATING: seq<Op> :=
    [GenerateKeys, KmsGenerate, PutAesKey, PutKmsKey, PutCertificate, PutAttestation, RecordInLog, PutTlogEntry]

  /** How much of it there is before the first missing object. */
  function Missing(w: World): nat {
    if w.certificate == None then 1 else if w.kmsEncryptedKey == None then 2 else if w.aesEncryptedKey == None then 4 else 5
  }

  /** The first fault of a few steps, step by step. */
  lemma Unrolled(b: Boot, steps: seq<Op>, n: nat)
    requires n == |steps| <= 6
    ensures FirstFault(b, steps)
         == if n > 0 && b.fault(steps[0]) != NoFault then b.fault(steps[0])
            else if n > 1 && b.fault(steps[1]) != NoFault then b.fault(steps[1])
            else if n > 2 && b.fault(steps[2]) != NoFault then b.fault(steps[2])
            else if n > 3 && b.fault(steps[3]) != NoFault then b.fault(steps[3])
            else if n > 4 && b.fault(steps[4]) != NoFault then b.fault(steps[4])
            else if n > 5 then b.fault(steps[5]) else NoFault
  {
    forall i | 0 <= i < n
      ensures FirstFault(b, steps[i..]) == if b.fault(steps[i]) != NoFault then b.fault(steps[i]) else FirstFault(b, steps[i + 1..])
    {
      assert steps[i..][0] == steps[i] && steps[i..][1..] == steps[i + 1..];
    }
    hide FirstFault;
    assert steps[0..] == steps;
    assert FirstFault(b, steps[n..]) == NoFault;
  }

  /** When a boot returns, and what it does otherwise. With an attestation: it returns that generation if
      and only if the five reads and the check for the log entry meet no fault and, where that entry is
      missing, the machine does not stop while it is looked up, or found and stored - errors of these two
      steps fail no boot. Without one: it returns its own generation if and only if nothing goes wrong in
      the reads up to the first missing object and in the eight steps of generating. A boot that does not
      return ends as the first fault has it. */
  lemma ReturnsExactly(w: World, b: Boot)
    requires Consistent(w)
    ensures var (w', r) := LoadOrGenerate(w, b);
            if w.attestation.Some? then
              var a := w.attestation.value;
              var f := FirstFault(b, LOADING + [HeadTlogEntry]);
              var looked := f == NoFault && w.tlogEntry == None;
              var found := looked && b.fault(FindLogEntry) == NoFault && a in w.log;
              && w' == w.(tlogEntry := if found && TakesEffect(b.fault(PutFoundEntry)) then Some(a) else w.tlogEntry)
              && r == if f != NoFault then Outcome(f)
                      else if (looked && Stops(b.fault(FindLogEntry))) || (found && Stops(b.fault(PutFoundEntry))) then Crashed
                      else Returned(a, a, a)
            else
              var f := FirstFault(b, LOADING[..Missing(w)] + GENERATING);
              r == if f != NoFault then Outcome(f) else Returned(b.key, b.key, b.key)
  {
    hide Writes, GenerateAndStore;
    if w.attestation.Some? {
      Unrolled(b, LOADING + [HeadTlogEntry], 6);
    } else {
      var known := LOADING[..Missing(w)];
      Unrolled(b, known, |known|);
      FirstOfBoth(b, known, GENERATING);
      GenerateResult(w, b);
    }
  }

  lemma {:induction false} GenerateResult(w: World, b: Boot)
    ensures var f := FirstFault(b, GENERATING);
            GenerateAndStore(w, b).1 == if f != NoFault then Outcome(f) else Returned(b.key, b.key, b.key)
  {
    hide Writes;
    WritesResult(w.(used := w.used + {b.key, b.dataKey}), b, 0);
    assert GENERATING[1..][1..] == GENERATING[2..];
  }

  lemma {:induction false} WritesResult(w: World, b: Boot, i: nat)
    requires i <= 6
    ensures var f := FirstFault(b, GENERATING[i + 2..]);
            Writes(w, b, i).1 == if f != NoFault then Outcome(f) else Returned(b.key, b.key, b.key)
    decreases 6 - i
  {
    if i < 6 {
      assert GENERATING[i + 2..][0] == WriteOp(i) && GENERATING[i + 2..][1..] == GENERATING[i + 3..];
      WritesResult(Write(w, b, i), b, i + 1);
    }
  }

  lemma {:induction false} FirstOfBoth(b: Boot, first: seq<Op>, second: seq<Op>)
    ensures FirstFault(b, first + second) == if FirstFault(b, first) != NoFault then FirstFault(b, first) else FirstFault(b, second)
  {
    if first == [] {
      assert first + second == second;
    } else {
      FirstOfBoth(b, first[1..], second);
      assert (first + second)[1..] == first[1..] + second;
    }
  }

  // Whole histories of boots.

  ghost predicate Legal(w: World, boots: seq<Boot>)
    decreases |boots|
  {
    boots == [] || (Fresh(w, boots[0]) && Legal(LoadOrGenerate(w, boots[0]).0, boots[1..]))
  }

  function After(w: World, boots: seq<Boot>): World
    decreases |boots|
  {
    if boots == [] then w else After(LoadOrGenerate(w, boots[0]).0, boots[1..])
  }

  function Results(w: World, boots: seq<Boot>): (rs: seq<Result>)
    ensures |rs| == |boots|
    decreases |boots|
  {
    if boots == [] then []
    else [LoadOrGenerate(w, boots[0]).1] + Results(LoadOrGenerate(w, boots[0]).0, boots[1..])
  }

  /** Whatever boots there were, and wherever they stopped: the buckets are consistent, and every
      boot that returned, returned one and the same matching set. */
  lemma {:induction false} HistoryConsistent(w: World, boots: seq<Boot>)
    requires Consistent(w) && Legal(w, boots)
    ensures Consistent(After(w, boots))
    ensures forall i :: 0 <= i < |boots| && Results(w, boots)[i].Returned? ==>
              var r := Results(w, boots)[i];
              && r.certificate == r.key == r.token
              && After(w, boots).attestation == Some(r.certificate)
    ensures w.attestation.Some? ==> After(w, boots).attestation == w.attestation
    decreases |boots|
  {
    if boots != [] {
      var (w1, r) := LoadOrGenerate(w, boots[0]);
      BootKeeps(w, boots[0]);
      if w.attestation.Some? { GeneratesUnattested(w, boots[0]); }
      HistoryConsistent(w1, boots[1..]);
      var rs := Results(w, boots);
      assert rs[0] == r && rs[1..] == Results(w1, boots[1..]);
    }
  }

  /** Starting from empty buckets: all boots that ever return agree, and after any history one
      more boot without faults returns, with the certificate all of them returned. */
  lemma {:induction false} RootKeyIsStable(boots: seq<Boot>, last: Boot)
    requires Legal(Empty, boots) && Fresh(After(Empty, boots), last)
    ensures Consistent(After(Empty, boots))
    ensures forall i, j :: 0 <= i < |boots| && 0 <= j < |boots|
              && Results(Empty, boots)[i].Returned? && Results(Empty, boots)[j].Returned?
              ==> Results(Empty, boots)[i] == Results(Empty, boots)[j]
    ensures NoFaults(last) ==> LoadOrGenerate(After(Empty, boots), last).1.Returned?
    ensures LoadOrGenerate(After(Empty, boots), last).1.Returned? ==>
              forall i :: 0 <= i < |boots| && Results(Empty, boots)[i].Returned?
                ==> Results(Empty, boots)[i] == LoadOrGenerate(After(Empty, boots), last).1
  {
    HistoryConsistent(Empty, boots);
    var w := After(Empty, boots);
    if NoFaults(last) { Recovers(w, last); }
    BootKeeps(w, last);
    if w.attestation.Some? { GeneratesUnattested(w, last); }
  }

  /** A boot that opens the private key before it fetches the attestation: the two last steps of
      loading the other way round. */
  function LoadKeyFirst(w: World, b: Boot): (World, Result) {
    if b.fault(GetCertificate) != NoFault then (w, Outcome(b.fault(GetCertificate)))
    else if w.certificate == None then GenerateAndStore(w, b)
    else if b.fault(GetKmsKey) != NoFault then (w, Outcome(b.fault(GetKmsKey)))
    else if w.kmsEncryptedKey == None then GenerateAndStore(w, b)
    else if b.fault(KmsDecrypt) != NoFault then (w, Outcome(b.fault(KmsDecrypt)))
    else if b.fault(GetAesKey) != NoFault then (w, Outcome(b.fault(GetAesKey)))
    else if w.aesEncryptedKey == None then GenerateAndStore(w, b)
    else if w.aesEncryptedKey.value.under != w.kmsEncryptedKey.value then (w, Threw)
    else LoadOrGenerate(w, b)
  }

  /** A private key sealed under a data key that is no longer there. */
  ghost predicate Mixed(w: World) {
    && w.certificate.Some? && w.kmsEncryptedKey.Some? && w.aesEncryptedKey.Some?
    && w.aesEncryptedKey.value.under != w.kmsEncryptedKey.value
  }

  /** In a mixed world the order of the two steps decides: as long as there is no attestation a boot
      without faults starts over and returns; a boot that opened the key first would never return,
      and leave the world as it is - so neither would any boot after it. */
  lemma MixedNeedsAttestationFirst(w: World, b: Boot)
    requires Mixed(w)
    ensures w.attestation == None && NoFaults(b) ==> LoadOrGenerate(w, b).1.Returned?
    ensures LoadKeyFirst(w, b).0 == w && !LoadKeyFirst(w, b).1.Returned?
  {
    hide Writes;
    if NoFaults(b) { NoFaultReturns(w.(used := w.used + {b.key, b.dataKey}), b, 0); }
  }

  lemma {:induction false} NoFaultReturns(w: World, b: Boot, i: nat)
    requires i <= 6 && NoFaults(b)
    ensures Writes(w, b, i).1.Returned?
    decreases 6 - i
  {
    if i < 6 { NoFaultReturns(Write(w, b, i), b, i + 1); }
  }

  function AfterKeyFirst(w: World, boots: seq<Boot>): World
    decreases |boots|
  {
    if boots == [] then w else AfterKeyFirst(LoadKeyFirst(w, boots[0]).0, boots[1..])
  }

  /** Why the attestation is fetched before the key is opened: two interrupted boots can leave such a
      world. From there any boot without faults returns; had the key been opened first, no boot would
      ever return again, however many are tried. */
  lemma MixedGenerations(boot1: Boot, boot2: Boot, boots: seq<Boot>, next: Boot)
    requires Fresh(Empty, boot1) && Fresh(Empty.(used := {boot1.key, boot1.dataKey}), boot2)
    requires forall op :: boot1.fault(op) == if op == PutAttestation then CrashBefore else NoFault
    requires forall op :: boot2.fault(op) == if op == PutKmsKey then CrashBefore else NoFault
    ensures Legal(Empty, [boot1, boot2])
    ensures var w := After(Empty, [boot1, boot2]);
            && Mixed(w) && w.attestation == None
            && (NoFaults(next) ==> LoadOrGenerate(w, next).1.Returned?)
            && !LoadKeyFirst(AfterKeyFirst(w, boots), next).1.Returned?
  {
    var w1 := Unattested(boot1);
    FirstBootDies(boot1);
    SecondBootDies(w1, boot2);
    hide LoadOrGenerate;
    var w2 := LoadOrGenerate(w1, boot2).0;
    assert [boot1, boot2][1..] == [boot2] && [boot2][1..] == [];
    assert After(Empty, [boot1, boot2]) == After(w1, [boot2]) == After(w2, []);
    assert Legal(w2, []) && Fresh(w1, boot2);
    assert Legal(w1, [boot2]);
    MixedForEver(w2, boots);
    MixedNeedsAttestationFirst(w2, next);
  }

  lemma {:induction false} MixedForEver(w: World, boots: seq<Boot>)
    requires Mixed(w)
    ensures AfterKeyFirst(w, boots) == w
    decreases |boots|
  {
    hide LoadKeyFirst, Mixed;
    if boots != [] {
      MixedNeedsAttestationFirst(w, boots[0]);
      MixedForEver(w, boots[1..]);
    }
  }

  ghost function Unattested(boot: Boot): World {
    Empty.(used := {boot.key, boot.dataKey}, aesEncryptedKey := Some(Sealed(boot.key, boot.dataKey)),
           kmsEncryptedKey := Some(boot.dataKey), certificate := Some(boot.key))
  }

  lemma FirstBootDies(boot: Boot)
    requires forall op :: boot.fault(op) == if op == PutAttestation then CrashBefore else NoFault
    ensures LoadOrGenerate(Empty, boot).0 == Unattested(boot)
  {
    assert {} + {boot.key, boot.dataKey} == {boot.key, boot.dataKey};
    var e := Empty.(used := {boot.key, boot.dataKey});
    assert Writes(e, boot, 0) == Writes(Write(e, boot, 0), boot, 1);
    var e1 := Write(e, boot, 0);
    assert Writes(e1, boot, 1) == Writes(Write(e1, boot, 1), boot, 2);
    var e2 := Write(e1, boot, 1);
    assert Writes(e2, boot, 2) == Writes(Write(e2, boot, 2), boot, 3);
  }

  lemma SecondBootDies(w: World, boot: Boot)
    requires w.attestation == None && w.aesEncryptedKey.Some? && w.kmsEncryptedKey.Some? && w.certificate.Some?
    requires forall op :: boot.fault(op) == if op == PutKmsKey then CrashBefore else NoFault
    ensures LoadOrGenerate(w, boot).0
         == w.(used := w.used + {boot.key, boot.dataKey}, aesEncryptedKey := Some(Sealed(boot.key, boot.dataKey)))
  {
    var f := w.(used := w.used + {boot.key, boot.dataKey});
    assert Writes(f, boot, 0) == Writes(Write(f, boot, 0), boot, 1);
  }

  /** The provider at work on the buckets and the log. */
  class KeyProvider {
    var aesEncryptedKey: Option<Sealed>
    var kmsEncryptedKey: Option<Id>
    var certificate: Option<Id>
    var attestation: Option<Id>
    var tlogEntry: Option<Id>
    var log: set<Id>
    ghost var used: set<Id>

    ghost function Snapshot(): World
      reads this
    {
      World(aesEncryptedKey, kmsEncryptedKey, certificate, attestation, tlogEntry, log, used)
    }

    constructor ()
      ensures Snapshot() == Empty
    {
      aesEncryptedKey, kmsEncryptedKey, certificate, attestation, tlogEntry := None, None, None, None, None;
      log, used := {}, {};
    }

    /** executeLoadOrGenerateCertificate. */
    method LoadOrGenerateCertificate(b: Boot) returns (r: Result)
      modifies this
      ensures (Snapshot(), r) == LoadOrGenerate(old(Snapshot()), b)
    {
      if b.fault(GetCertificate) != NoFault { return Outcome(b.fault(GetCertificate)); }
      if certificate == None { r := GenerateAndStoreCertificate(b); return; }
      var cert := certificate.value;
      if b.fault(GetKmsKey) != NoFault { return Outcome(b.fault(GetKmsKey)); }
      if kmsEncryptedKey == None { r := GenerateAndStoreCertificate(b); return; }
      if b.fault(KmsDecrypt) != NoFault { return Outcome(b.fault(KmsDecrypt)); }
      var dataKey := kmsEncryptedKey.value;
      if b.fault(GetAesKey) != NoFault { return Outcome(b.fault(GetAesKey)); }
      if aesEncryptedKey == None { r := GenerateAndStoreCertificate(b); return; }
      var sealed := aesEncryptedKey.value;
      if b.fault(GetAttestation) != NoFault { return Outcome(b.fault(GetAttestation)); }
      if attestation == None { r := GenerateAndStoreCertificate(b); return; }
      var token := attestation.value;
      if sealed.under != dataKey { return Threw; }
      var stopped := ReconcileTlogArtifacts(b, cert);
      if stopped != None { return stopped.value; }
      r := Returned(cert, sealed.key, token);
    }

    method GenerateAndStoreCertificate(b: Boot) returns (r: Result)
      modifies this
      ensures (Snapshot(), r) == GenerateAndStore(old(Snapshot()), b)
    {
      ghost var w0 := Snapshot();
      used := used + {b.key, b.dataKey};
      if b.fault(GenerateKeys) != NoFault { return Outcome(b.fault(GenerateKeys)); }
      if b.fault(KmsGenerate) != NoFault { return Outcome(b.fault(KmsGenerate)); }
      ghost var goal := Writes(Snapshot(), b, 0);

      if TakesEffect(b.fault(PutAesKey)) { aesEncryptedKey := Some(Sealed(b.key, b.dataKey)); }
      if b.fault(PutAesKey) != NoFault { return Outcome(b.fault(PutAesKey)); }
      assert goal == Writes(Snapshot(), b, 1);

      if TakesEffect(b.fault(PutKmsKey)) { kmsEncryptedKey := Some(b.dataKey); }
      if b.fault(PutKmsKey) != NoFault { return Outcome(b.fault(PutKmsKey)); }
      assert goal == Writes(Snapshot(), b, 2);

      if TakesEffect(b.fault(PutCertificate)) { certificate := Some(b.key); }
      if b.fault(PutCertificate) != NoFault { return Outcome(b.fault(PutCertificate)); }
      assert goal == Writes(Snapshot(), b, 3);

      if TakesEffect(b.fault(PutAttestation)) { attestation := Some(b.key); }
      if b.fault(PutAttestation) != NoFault { return Outcome(b.fault(PutAttestation)); }
      assert goal == Writes(Snapshot(), b, 4);

      if TakesEffect(b.fault(RecordInLog)) { log := log + {b.key}; }
      if b.fault(RecordInLog) != NoFault { return Outcome(b.fault(RecordInLog)); }
      assert goal == Writes(Snapshot(), b, 5);

      if TakesEffect(b.fault(PutTlogEntry)) { tlogEntry := Some(b.key); }
      if b.fault(PutTlogEntry) != NoFault { return Outcome(b.fault(PutTlogEntry)); }
      r := Returned(b.key, b.key, b.key);
    }

    /** A result means that the boot stops here. */
    method ReconcileTlogArtifacts(b: Boot, cert: Id) returns (stopped: Option<Result>)
      modifies this`tlogEntry
      ensures (Snapshot(), stopped) == Reconcile(old(Snapshot()), b, cert)
    {
      if b.fault(HeadTlogEntry) != NoFault { return Some(Outcome(b.fault(HeadTlogEntry))); }
      if tlogEntry != None { return None; }
      var f := b.fault(FindLogEntry);
      if f == CrashBefore || f == CrashAfter { return Some(Crashed); }
      if f != NoFault || cert !in log { return None; }
      var g := b.fault(PutFoundEntry);
      if TakesEffect(g) { tlogEntry := Some(cert); }
      stopped := if g == CrashBefore || g == CrashAfter then Some(Crashed) else None;
    }

    /** A sequence of boots: the imperative provider goes through the history of the model, so
        the buckets it leaves are consistent and everything it returned matches. */
    method Live(boots: seq<Boot>) returns (results: seq<Result>)
      requires Consistent(Snapshot()) && Legal(Snapshot(), boots)
      modifies this
      ensures Snapshot() == After(old(Snapshot()), boots) && results == Results(old(Snapshot()), boots)
      ensures Consistent(Snapshot())
    {
      HistoryConsistent(Snapshot(), boots);
      ghost var goal, all := After(Snapshot(), boots), Results(Snapshot(), boots);
      results := [];
      var i := 0;
      assert boots[0..] == boots && [] + all == all;
      while i < |boots|
        invariant i <= |boots| && Legal(Snapshot(), boots[i..])
        invariant After(Snapshot(), boots[i..]) == goal
        invariant results + Results(Snapshot(), boots[i..]) == all
      {
        assert boots[i..][0] == boots[i] && boots[i..][1..] == boots[i + 1..];
        var r := LoadOrGenerateCertificate(boots[i]);
        results := results + [r];
        i := i + 1;
      }
    }
  }
}
