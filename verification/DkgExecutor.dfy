/** The executor of the key ceremony as the object it is, each method proved against its part of the
    tick. The private key is an array, because the executor wipes it where it stands. */
module DkgExecutor {
  import opened Wrappers
  import opened ByteCodec
  import opened Threshold
  import opened FrostIds
  import opened DkgPackages
  import opened DkgCrypto
  import opened DkgSpec
  import Spec = DkgSpec
  import Safety = DkgSafety

  datatype Round1Result = Round1Result(pkg: Bytes, secret: nat, public: Bytes, private: array<byte>)

  class Executor {
    const box: Box
    var until: nat
    var r1: Option<Round1Result>
    var r2: Option<Round2>
    var r3: Option<Round3>
    var sessionSigner: Option<Bytes>
    var validatorIdx: uint16
    ghost var ledger: Ledger

    constructor (box: Box)
      ensures this.box == box
      ensures Abs() == Spec.INITIAL
      ensures r1.None?
    {
      this.box := box;
      until := 0;
      r1, r2, r3 := None, None, None;
      sessionSigner := None;
      validatorIdx := 255;
      ledger := Ledger({}, {}, false, [], [], 0, {}, {});
    }

    ghost function Key(): set<object>
      reads this
    {
      if r1.Some? then {r1.value.private} else {}
    }

    ghost function Abs(): State
      reads this, Key()
    {
      State(until,
            if r1.Some? then
              Some(Round1(r1.value.pkg, r1.value.secret, KeyPair(r1.value.public, r1.value.private[..])))
            else None,
            r2, r3, sessionSigner, validatorIdx, ledger)
    }

    ghost method Record(next: Ledger)
      modifies this`ledger
      ensures Abs() == old(Abs()).(ledger := next)
    {
      ledger := next;
    }

    /** A message leaves the process. */
    method Send(msg: Msg)
      modifies this`ledger
      ensures Abs() == old(Abs()).Send(msg)
    {
      Record(Abs().Send(msg).ledger);
    }

    /** Overwrites the private key with zeros, in place. */
    method SafeCleanPrivateX25519()
      modifies Key()
      ensures Abs() == Spec.WipeKey(old(Abs()))
      ensures r1.Some? ==> forall i | 0 <= i < r1.value.private.Length :: r1.value.private[i] == 0
    {
      if r1 == None {
        return;
      }
      var key := r1.value.private;
      for i := 0 to key.Length
        modifies key
        invariant forall k | 0 <= k < i :: key[k] == 0
      {
        key[i] := 0;
      }
      assert key[..] == Zeros(key.Length);
    }

    method Cleanup()
      modifies this, Key()
      ensures Abs() == Spec.Cleanup(old(Abs()))
      ensures r1.None?
      ensures old(r1).Some? ==> forall i | 0 <= i < old(r1).value.private.Length :: old(r1).value.private[i] == 0
    {
      if r1.Some? && r1.value.secret != 0 {
        Record(Abs().Free1(r1.value.secret).ledger);
      }
      SafeCleanPrivateX25519();
      if r2.Some? && r2.value.secret != 0 {
        Record(Abs().Free2(r2.value.secret).ledger);
      }
      r1 := None;
      r2 := None;
      r3 := None;
      sessionSigner := None;
      ledger := ledger.(dropped := ledger.dropped + 1);
    }

    method OnStartNewDKG(tk: Tick) returns (ok: bool)
      requires tk.dkg.until > until
      modifies this, Key()
      ensures (Abs(), ok) == Spec.StartIfNew(old(Abs()), tk)
      ensures r1.None?
    {
      Cleanup();
      if tk.newSession == None {
        return false;
      }
      sessionSigner := tk.newSession;
      until := tk.dkg.until;
      return true;
    }

    method ExecuteClaim(dkg: Dkg, culprit: Option<uint16>)
      modifies this`ledger
      ensures Abs() == Spec.ExecuteClaim(old(Abs()), dkg, culprit)
    {
      if culprit.Some? && validatorIdx !in dkg.claimsMask {
        Send(ClaimMsg(dkg.until, validatorIdx, culprit.value));
      }
    }

    method ClaimCulpritByR3Mask(dkg: Dkg)
      modifies this`ledger
      ensures Abs() == Spec.ExecuteClaim(old(Abs()), dkg, LowestBit(dkg.r3Mask, 0, dkg.maxSigners))
    {
      for i := 0 to dkg.maxSigners
        invariant ledger == old(ledger)
        invariant LowestBit(dkg.r3Mask, 0, dkg.maxSigners) == LowestBit(dkg.r3Mask, i, dkg.maxSigners)
      {
        if i in dkg.r3Mask {
          ExecuteClaim(dkg, Some(i));
          return;
        }
      }
    }

    method MakeR1(tk: Tick) returns (ok: bool)
      requires r1.None?
      modifies this`r1, this`ledger
      ensures (Abs(), ok) == Spec.MakeR1(old(Abs()), tk)
      ensures fresh(Key())
      ensures ok ==> r1.Some?
    {
      var minSigners := CalcMinSigners(tk.dkg.maxSigners);
      if minSigners == None || tk.part1 == None {
        return false;
      }
      Record(Abs().Alloc1(tk.part1.value.1).ledger);
      if tk.keyPair == None {
        return false;
      }
      var keys := tk.keyPair.value;
      var private := new byte[|keys.private|](k requires 0 <= k < |keys.private| => keys.private[k]);
      assert private[..] == keys.private;
      r1 := Some(Round1Result(tk.part1.value.0, tk.part1.value.1, keys.public, private));
      return true;
    }

    method ExecuteR1(tk: Tick) returns (done: bool)
      modifies this`r1, this`ledger
      ensures (Abs(), done) == Spec.ExecuteR1(old(Abs()), tk)
      ensures fresh(Key() - old(Key()))
    {
      if tk.dkg.Round1Completed() {
        return true;
      }
      if validatorIdx in tk.dkg.r1Mask {
        return false;
      }
      if r1 == None {
        var ok := MakeR1(tk);
        if !ok {
          return false;
        }
      }
      Send(R1Msg(tk.dkg.until, validatorIdx, r1.value.pkg, r1.value.public));
      return false;
    }

    method MakeR2(tk: Tick) returns (ok: bool)
      requires r2.None?
      modifies this`r2, this`ledger
      ensures (Abs(), ok) == Spec.MakeR2(box, old(Abs()), tk)
      ensures ok ==> r2.Some?
    {
      if r1 == None {
        return false;
      }
      var parsed := DeserializeDkgR1(tk.dkg.r1Packages);
      match parsed
      case R1Culprit(culprit) =>
        ExecuteClaim(tk.dkg, Some(culprit));
        return false;
      case R1Parsed(r1Packages, keys) =>
        var others := r1Packages - {ValidatorIdxToFrost(validatorIdx)};
        Record(Abs().Use1(r1.value.secret).ledger);
        match tk.part2(r1.value.secret, others)
        case Part2Failed(culprit) =>
          ExecuteClaim(tk.dkg, culprit);
          return false;
        case Part2Ok(packages, secret) =>
          ok := SealR2(packages, secret, keys, tk);
    }

    method SealR2(packages: OurPackages, secret: nat, keys: map<uint16, Bytes>, tk: Tick)
      returns (ok: bool)
      requires r1.Some? && r2.None?
      modifies this`r2, this`ledger
      ensures (Abs(), ok) == Spec.SealR2(box, old(Abs()), packages, secret, keys, tk)
      ensures ok ==> r2.Some?
    {
      Record(Abs().Alloc2(secret).ledger);
      Record(Abs().UseKey(Abs().r1.value.keys).ledger);
      var sealed := EncryptR2Packages(Session(box, keys, r1.value.private[..], tk.dkg.until, validatorIdx),
                                      packages, tk.rand);
      if sealed == None {
        return false;
      }
      var serialized := SerializeR2Packages(sealed.value);
      r2 := Some(Round2(serialized, secret));
      return true;
    }

    method ExecuteR2(tk: Tick) returns (done: bool)
      modifies this`r2, this`ledger
      ensures (Abs(), done) == Spec.ExecuteR2(box, old(Abs()), tk)
    {
      if tk.dkg.Round2Completed() {
        return true;
      }
      if validatorIdx in tk.dkg.r2Mask {
        return false;
      }
      if r2 == None {
        var ok := MakeR2(tk);
        if !ok {
          return false;
        }
      }
      Send(R2Msg(tk.dkg.until, validatorIdx, r2.value.packages));
      return false;
    }

    method FinishR3(answer: Part3Answer, tk: Tick) returns (ok: bool)
      requires r2.Some? && r3.None?
      modifies this`r3, this`ledger, Key()
      ensures (Abs(), ok) == Spec.FinishR3(old(Abs()), answer, tk)
      ensures ok ==> r3.Some?
    {
      Record(Abs().Use2(r2.value.secret).ledger);
      match answer
      case Part3Failed(culprit) =>
        ExecuteClaim(tk.dkg, culprit);
        return false;
      case Part3Ok(keyPackage, publicKeyPackage) =>
        if tk.publicKey == None {
          return false;
        }
        r3 := Some(Round3(keyPackage, publicKeyPackage));
        SafeCleanPrivateX25519();
        if tk.stored {
          Record(Abs().Persist(publicKeyPackage).ledger);
        }
        return tk.stored;
    }

    method OpenR2(r1Packages: map<Identifier, Bytes>, keys: map<uint16, Bytes>,
                  received: map<uint16, map<uint16, Bytes>>, tk: Tick) returns (ok: bool)
      requires r1.Some? && r2.Some? && r3.None?
      modifies this`r3, this`ledger, Key()
      ensures (Abs(), ok) == Spec.OpenR2(box, old(Abs()), r1Packages, keys, received, tk)
      ensures ok ==> r3.Some?
    {
      Record(Abs().UseKey(Abs().r1.value.keys).ledger);
      var opening := DecryptR2Packages(Session(box, keys, r1.value.private[..], tk.dkg.until, validatorIdx), received);
      match opening
      case DecryptCulprit(culprit) =>
        ExecuteClaim(tk.dkg, Some(culprit));
        return false;
      case KeyMissing(_) =>
        return false;
      case Decrypted(r2Packages) =>
        ok := FinishR3(tk.part3(r2.value.secret, r1Packages, r2Packages), tk);
    }

    method MakeR3(tk: Tick) returns (ok: bool)
      requires r3.None?
      modifies this`r3, this`ledger, Key()
      ensures (Abs(), ok) == Spec.MakeR3(box, old(Abs()), tk)
      ensures ok ==> r3.Some?
    {
      if r2 == None || r1 == None {
        return false;
      }
      var parsed := DeserializeDkgR1(tk.dkg.r1Packages);
      match parsed
      case R1Culprit(culprit) =>
        ExecuteClaim(tk.dkg, Some(culprit));
        return false;
      case R1Parsed(r1Packages, keys) =>
        var others := r1Packages - {ValidatorIdxToFrost(validatorIdx)};
        var inbox := DeserializeDkgR2(tk.dkg.r2Packages, tk.dkg.vsetMask);
        match inbox
        case R2Culprit(culprit) =>
          ExecuteClaim(tk.dkg, Some(culprit));
          return false;
        case R2Nothing =>
          return false;
        case R2Parsed(received) =>
          ok := OpenR2(others, keys, received, tk);
    }

    method SendR3(tk: Tick)
      requires r3.Some?
      modifies this`ledger
      ensures Abs() == Spec.SendR3(old(Abs()), tk)
    {
      Record(Abs().Announce().ledger);
      Send(R3Msg(tk.dkg.until, validatorIdx, sessionSigner, r3.value.publicKeyPackage));
      if tk.sendExitCode == DIFFERENT_PUBKEY_PACKAGES {
        ClaimCulpritByR3Mask(tk.dkg);
      }
    }

    method ExecuteR3(tk: Tick)
      modifies this`r3, this`ledger, Key()
      ensures Abs() == Spec.ExecuteR3(box, old(Abs()), tk)
    {
      if tk.dkg.Round3Completed() {
        SafeCleanPrivateX25519();
        return;
      }
      if validatorIdx in tk.dkg.r3Mask {
        return;
      }
      if r3 == None {
        var ok := MakeR3(tk);
        if !ok {
          return;
        }
      }
      SendR3(tk);
    }

    method Rounds(tk: Tick)
      modifies this`r1, this`r2, this`r3, this`ledger, Key()
      ensures Abs() == Spec.Rounds(box, old(Abs()), tk)
      ensures fresh(Key() - old(Key()))
    {
      var done := ExecuteR1(tk);
      if done {
        done := ExecuteR2(tk);
        if done {
          ExecuteR3(tk);
        }
      }
    }

    method Execute(tk: Tick)
      modifies this, Key()
      ensures Abs() == Spec.Execute(box, old(Abs()), tk)
      ensures fresh(Key() - old(Key()))
    {
      if tk.dkg.state == Finished {
        Cleanup();
        return;
      }
      if tk.dkg.until > until {
        var started := OnStartNewDKG(tk);
        if !started {
          return;
        }
      }
      if tk.keyInfo == None {
        return;
      }
      validatorIdx := tk.keyInfo.value;
      if validatorIdx !in tk.dkg.vsetMask {
        return;
      }
      Rounds(tk);
    }

    /** The channel loop of a new process: whatever the ticks are, every native secret is handled
        properly, and no ceremony sees two different packages. */
    method Work(ticks: seq<Tick>, ghost idxOf: nat -> uint16)
      requires Abs() == Spec.INITIAL
      modifies this, Key()
      ensures Abs() == Spec.Run(box, ticks)
      ensures (forall tk | tk in ticks :: Safety.GoodKeyPair(box, tk)) ==> Safety.Healthy(box, Abs())
      ensures Safety.Orderly(ticks, idxOf) ==> Safety.Consistent(ledger)
    {
      for i := 0 to |ticks|
        invariant fresh(Key() - old(Key()))
        invariant Abs() == Spec.Run(box, ticks[..i])
      {
        assert ticks[..i + 1][..i] == ticks[..i];
        Execute(ticks[i]);
      }
      assert ticks[..|ticks|] == ticks;
      if forall tk | tk in ticks :: Safety.GoodKeyPair(box, tk) {
        Safety.ArtifactDiscipline(box, ticks);
      }
      if Safety.Orderly(ticks, idxOf) {
        Safety.NoEquivocation(box, ticks, idxOf);
      }
    }
  }
}
