/** Round-two packages travel encrypted from each validator to each other one.

    The box is a parameter: all that is assumed of NaCl is that opening undoes sealing for
    matching key pairs, and the 16-byte header. */
module DkgCrypto {
  import opened Wrappers
  import opened ByteCodec
  import opened FrostIds
  import opened DkgPackages

  type Nonce = n: Bytes | |n| == 24 witness Zeros(24)

  datatype Box = Box(
    publicOf: Bytes -> Bytes,
    seal: (Bytes, Nonce, Bytes, Bytes) -> Bytes,        // message, nonce, their public key, my private key
    open: (Bytes, Nonce, Bytes, Bytes) -> Option<Bytes>
  ) {
    ghost predicate Laws() {
      && (forall sk: Bytes :: |publicOf(sk)| == 32)
      && (forall data: Bytes, n: Nonce, pk: Bytes, sk: Bytes :: |seal(data, n, pk, sk)| == |data| + 16)
      && (forall data: Bytes, n: Nonce, skA: Bytes, skB: Bytes ::
            open(seal(data, n, publicOf(skB), skA), n, publicOf(skA), skB) == Some(data))
    }
  }

  /** The laws can be met: a box that pads, and opens what is padded. */
  lemma LawsCanBeMet() returns (box: Box)
    ensures box.Laws()
  {
    box := Box(_ => Zeros(32), (data, _, _, _) => data + Zeros(16),
               (data: Bytes, _, _, _) => if |data| >= 16 then Some(data[..|data| - 16]) else None);
    assert forall data: Bytes :: (data + Zeros(16))[..|data + Zeros(16)| - 16] == data;
  }

  function Encrypt(box: Box, data: Bytes, thisPrivate: Bytes, otherPublic: Bytes, nonce: Option<Nonce>): Option<Bytes> {
    if nonce.None? then None else Some(nonce.value + box.seal(data, nonce.value, otherPublic, thisPrivate))
  }

  function Decrypt(box: Box, data: Bytes, thisPrivate: Bytes, otherPublic: Bytes): Option<Bytes> {
    if |data| <= 24 then None else box.open(data[24..], data[..24], otherPublic, thisPrivate)
  }

  function Envelope(until: int, from: uint16, pkg: Bytes): Bytes {
    BE(U64(until), 8) + BE(from, 2) + pkg
  }

  /** One validator's view of a ceremony: everybody's public keys and its own private one. */
  datatype Session = Session(box: Box, keys: map<uint16, Bytes>, private: Bytes, until: int, idx: uint16)

  // ----- sending -----

  /** The identifiers FROST hands back are the ones it was given. */
  predicate OurIdentifiers(pkgs: map<Identifier, Bytes>) {
    forall id | id in pkgs :: id == ValidatorIdxToFrost(FrostToValidatorIdx(id))
  }

  type OurPackages = pkgs: map<Identifier, Bytes> | OurIdentifiers(pkgs) witness map[]

  ghost function Recipients(pkgs: map<Identifier, Bytes>): (to: set<uint16>)
    requires OurIdentifiers(pkgs)
    ensures forall v | v in to :: ValidatorIdxToFrost(v) in pkgs && FrostToValidatorIdx(ValidatorIdxToFrost(v)) == v
    ensures forall id | id in pkgs :: FrostToValidatorIdx(id) in to
  {
    set id | id in pkgs :: FrostToValidatorIdx(id)
  }

  function SealFor(s: Session, to: uint16, pkg: Bytes, nonce: Option<Nonce>): Option<Bytes> {
    if to in s.keys then Encrypt(s.box, Envelope(s.until, s.idx, pkg), s.private, s.keys[to], nonce) else None
  }

  ghost predicate AllSealed(s: Session, pkgs: map<Identifier, Bytes>, rand: Identifier -> Option<Nonce>) {
    forall id | id in pkgs :: SealFor(s, FrostToValidatorIdx(id), pkgs[id], rand(id)).Some?
  }

  /** By recipient; nothing at all if one recipient has no key or one nonce cannot be drawn. */
  ghost function SealAll(s: Session, pkgs: map<Identifier, Bytes>, rand: Identifier -> Option<Nonce>)
    : (sent: Option<map<uint16, Bytes>>)
    requires OurIdentifiers(pkgs)
    ensures sent.Some? <==> AllSealed(s, pkgs, rand)
    ensures sent.Some? ==> sent.value.Keys == Recipients(pkgs)
    ensures sent.Some? ==> forall id | id in pkgs ::
              SealFor(s, FrostToValidatorIdx(id), pkgs[id], rand(id)) == Some(sent.value[FrostToValidatorIdx(id)])
  {
    if !AllSealed(s, pkgs, rand) then None
    else
      Some(map to: uint16 | to in Recipients(pkgs) ::
        var id := ValidatorIdxToFrost(to);
        assert SealFor(s, FrostToValidatorIdx(id), pkgs[id], rand(id)).Some?;
        SealFor(s, to, pkgs[id], rand(id)).value)
  }

  /** The packages are visited in map order. Two identifiers for one validator would overwrite each
      other in that order; our own identifiers do not collide. */
  method EncryptR2Packages(s: Session, pkgs: map<Identifier, Bytes>, rand: Identifier -> Option<Nonce>)
    returns (r: Option<map<uint16, Bytes>>)
    ensures r.Some? <==> AllSealed(s, pkgs, rand)
    ensures OurIdentifiers(pkgs) ==> r == SealAll(s, pkgs, rand)
  {
    var todo := pkgs.Keys;
    var result: map<uint16, Bytes> := map[];
    while todo != {}
      invariant todo <= pkgs.Keys
      invariant forall id | id in pkgs && id !in todo ::
                  && FrostToValidatorIdx(id) in result
                  && SealFor(s, FrostToValidatorIdx(id), pkgs[id], rand(id)).Some?
      invariant OurIdentifiers(pkgs) ==> Sealed(s, pkgs, rand, todo, result)
      decreases |todo|
    {
      var id :| id in todo;
      todo := todo - {id};
      var to := FrostToValidatorIdx(id);
      var dataToEncrypt := BE(U64(s.until), 8);
      dataToEncrypt := dataToEncrypt + BE(s.idx, 2);
      dataToEncrypt := dataToEncrypt + pkgs[id];
      if to !in s.keys {
        assert SealFor(s, to, pkgs[id], rand(id)).None?;
        return None;
      }
      var sealed := Encrypt(s.box, dataToEncrypt, s.private, s.keys[to], rand(id));
      assert SealFor(s, to, pkgs[id], rand(id)) == sealed;
      if sealed == None {
        return None;
      }
      result := result[to := sealed.value];
    }
    if OurIdentifiers(pkgs) {
      SealAllIs(s, pkgs, rand, result);
    }
    return Some(result);
  }

  /** What is sealed so far: one package for each recipient that is no longer to do. */
  ghost predicate Sealed(s: Session, pkgs: map<Identifier, Bytes>, rand: Identifier -> Option<Nonce>,
                         todo: set<Identifier>, result: map<uint16, Bytes>)
    requires OurIdentifiers(pkgs)
  {
    && (forall id | id in pkgs && id !in todo ::
          && FrostToValidatorIdx(id) in result
          && SealFor(s, FrostToValidatorIdx(id), pkgs[id], rand(id)) == Some(result[FrostToValidatorIdx(id)]))
    && (forall to | to in result :: to in Recipients(pkgs))
  }

  lemma SealAllIs(s: Session, pkgs: map<Identifier, Bytes>, rand: Identifier -> Option<Nonce>, m: map<uint16, Bytes>)
    requires OurIdentifiers(pkgs)
    requires forall id | id in pkgs ::
               && FrostToValidatorIdx(id) in m
               && SealFor(s, FrostToValidatorIdx(id), pkgs[id], rand(id)) == Some(m[FrostToValidatorIdx(id)])
    requires forall to | to in m :: to in Recipients(pkgs)
    ensures SealAll(s, pkgs, rand) == Some(m)
  {
    assert AllSealed(s, pkgs, rand);
    var all := SealAll(s, pkgs, rand).value;
    var to := Recipients(pkgs);
    forall v | v in to ensures v in m && m[v] == all[v] {
      var id := ValidatorIdxToFrost(v);
      assert id in pkgs && FrostToValidatorIdx(id) == v;
    }
    assert m == all;
  }

  // ----- receiving -----

  datatype Verdict = Good(pkg: Bytes) | Blame | NoKey

  /** What the receiver makes of one sender's packages. */
  function Judge(s: Session, toPackages: map<uint16, Bytes>, from: uint16): Verdict {
    if s.idx !in toPackages then Blame
    else if from !in s.keys then NoKey
    else
      match Decrypt(s.box, toPackages[s.idx], s.private, s.keys[from])
      case None => Blame
      case Some(data) =>
        if |data| != 10 + FROST_DKG_R2_PACKAGE_SIZE then Blame
        else if FromBE(data[..8]) != U64(s.until) || U16(data[8..10]) != from then Blame
        else Good(data[10..])
  }

  /** What a receiver accepts: a 24-byte nonce, then a box that opens with the sender's public key to the
      deadline in eight bytes, the sender in two, and 37 bytes of package. */
  ghost predicate OpensTo(s: Session, wire: Bytes, from: uint16, pkg: Bytes)
    requires from in s.keys
  {
    && |wire| > 24 && |pkg| == 37
    && s.box.open(wire[24..], wire[..24], s.keys[from], s.private) == Some(BE(s.until % 0x1_0000_0000_0000_0000, 8) + BE(from, 2) + pkg)
  }

  /** Nothing else is accepted: an envelope of another deadline or another sender, a longer or shorter one,
      or one that does not open is the sender's fault; only a missing public key is not. */
  lemma JudgeExactly(s: Session, toPackages: map<uint16, Bytes>, from: uint16)
    ensures Judge(s, toPackages, from) == NoKey <==> s.idx in toPackages && from !in s.keys
    ensures forall pkg: Bytes :: Judge(s, toPackages, from) == Good(pkg) <==>
              s.idx in toPackages && from in s.keys && OpensTo(s, toPackages[s.idx], from, pkg)
  {
    if s.idx in toPackages && from in s.keys {
      var plain := Decrypt(s.box, toPackages[s.idx], s.private, s.keys[from]);
      if plain.Some? {
        forall pkg: Bytes ensures Judge(s, toPackages, from) == Good(pkg) <==> OpensTo(s, toPackages[s.idx], from, pkg) {
          HeaderExactly(plain.value, U64(s.until), from, pkg);
        }
      }
    }
  }

  lemma HeaderExactly(data: Bytes, until: nat, from: uint16, pkg: Bytes)
    requires until < TWO_64
    ensures data == BE(until, 8) + BE(from, 2) + pkg <==>
            |data| >= 10 && FromBE(data[..8]) == until && U16(data[8..10]) == from && data[10..] == pkg
  {
    Pow256Values();
    BERoundTrip(until, 8);
    U16RoundTrip(from);
    var header := BE(until, 8) + BE(from, 2);
    if data == header + pkg {
      assert data[..8] == BE(until, 8) && data[8..10] == BE(from, 2) && data[10..] == pkg;
    }
    if |data| >= 10 && FromBE(data[..8]) == until && U16(data[8..10]) == from && data[10..] == pkg {
      BEOfFromBE(data[..8]);
      BEOfFromBE(data[8..10]);
      assert data == data[..8] + data[8..10] + data[10..];
    }
  }

  datatype DecryptOutcome =
    | Decrypted(packages: map<Identifier, Bytes>)
    | DecryptCulprit(culprit: uint16)
    | KeyMissing(keyOwner: uint16)

  ghost function NotGood(s: Session, received: map<uint16, map<uint16, Bytes>>): set<uint16> {
    set v: uint16 | v in received && v != s.idx && !Judge(s, received[v], v).Good?
  }

  ghost function GoodPackages(s: Session, received: map<uint16, map<uint16, Bytes>>): map<uint16, Bytes>
    requires NotGood(s, received) == {}
  {
    map v: uint16 | v in received && v != s.idx :: assert v !in NotGood(s, received); Judge(s, received[v], v).pkg
  }

  /** The least sender other than ourselves whose package is not good decides. */
  ghost function OpenAll(s: Session, received: map<uint16, map<uint16, Bytes>>): DecryptOutcome {
    var bad := NotGood(s, received);
    if bad == {} then Decrypted(FrostMap(GoodPackages(s, received)))
    else
      var v := LeastIdx(bad);
      if Judge(s, received[v], v).NoKey? then KeyMissing(v) else DecryptCulprit(v)
  }

  lemma AllGoodOpens(s: Session, received: map<uint16, map<uint16, Bytes>>, expected: map<uint16, Bytes>)
    requires forall v | v in received && v != s.idx :: v in expected
    requires forall v | v in expected :: v in received && v != s.idx
    requires forall v | v in expected :: Judge(s, received[v], v) == Good(expected[v])
    ensures OpenAll(s, received) == Decrypted(FrostMap(expected))
  {
    assert NotGood(s, received) == {};
    assert GoodPackages(s, received) == expected;
  }

  /** Once round two parses, no member of the set finds its package missing: the first test never fails. */
  lemma NothingMissing(s: Session, published: map<uint16, Bytes>, vset: set<uint16>, from: uint16)
    requires R2Parse(published, vset).R2Parsed? && s.idx in vset
    requires from in R2Parse(published, vset).received && from != s.idx
    ensures from in published && R2Parse(published, vset).received[from].Keys == vset - {from}
    ensures s.idx in R2Parse(published, vset).received[from]
  {
    R2Exact(published, vset);
  }

  /** Opening is exact: everybody else's package, re-keyed, or else what is wrong with the least sender that
      is not good. */
  lemma OpenExactly(s: Session, received: map<uint16, map<uint16, Bytes>>)
    ensures OpenAll(s, received).Decrypted? <==> forall v | v in received && v != s.idx :: Judge(s, received[v], v).Good?
    ensures OpenAll(s, received).Decrypted? && (forall v | v in received :: !Bit7(v)) ==>
              var packages := OpenAll(s, received).packages;
              && (forall v | v in received && v != s.idx ::
                    ValidatorIdxToFrost(v) in packages
                    && Judge(s, received[v], v) == Good(packages[ValidatorIdxToFrost(v)]))
              && forall id | id in packages :: exists v | v in received && v != s.idx :: id == ValidatorIdxToFrost(v)
    ensures forall culprit: uint16 :: OpenAll(s, received) == DecryptCulprit(culprit) ==>
              culprit in received && culprit != s.idx && Judge(s, received[culprit], culprit).Blame?
              && forall v | v in received && v != s.idx && v < culprit :: Judge(s, received[v], v).Good?
    ensures forall owner: uint16 :: OpenAll(s, received) == KeyMissing(owner) ==>
              owner in received && owner != s.idx && Judge(s, received[owner], owner).NoKey?
              && forall v | v in received && v != s.idx && v < owner :: Judge(s, received[v], v).Good?
  {
    var bad := NotGood(s, received);
    if bad == {} {
      forall v | v in received && v != s.idx ensures Judge(s, received[v], v).Good? {
        assert v !in bad;
      }
      if forall v | v in received :: !Bit7(v) {
        FrostMapExact(GoodPackages(s, received));
      }
    } else {
      assert LeastIdx(bad) in bad;
      forall v | v in received && v != s.idx && v < LeastIdx(bad) ensures Judge(s, received[v], v).Good? {
        assert v !in bad;
      }
    }
  }

  method JudgeSender(s: Session, toPackages: map<uint16, Bytes>, from: uint16) returns (r: Verdict)
    ensures r == Judge(s, toPackages, from)
  {
    if s.idx !in toPackages {
      return Blame;
    }
    if from !in s.keys {
      return NoKey;
    }
    var plain := Decrypt(s.box, toPackages[s.idx], s.private, s.keys[from]);
    if plain == None {
      return Blame;
    }
    var data := plain.value;
    if |data| < 8 || FromBE(data[..8]) != U64(s.until) {
      return Blame;
    }
    data := data[8..];
    assert |data| >= 2 ==> plain.value[8..10] == data[..2];
    if |data| < 2 || U16(data[..2]) != from {
      return Blame;
    }
    data := data[2..];
    assert plain.value[10..] == data;
    if |data| != FROST_DKG_R2_PACKAGE_SIZE {
      return Blame;
    }
    return Good(data);
  }

  method DecryptR2Packages(s: Session, received: map<uint16, map<uint16, Bytes>>) returns (r: DecryptOutcome)
    ensures r == OpenAll(s, received)
  {
    var senders := ExtractSortedKeysFromMap(received);
    ghost var bad := NotGood(s, received);
    var result: map<uint16, Bytes> := map[];
    for i := 0 to |senders|
      invariant forall k | 0 <= k < i :: senders[k] !in bad && (senders[k] != s.idx ==> senders[k] in result)
      invariant forall v | v in result :: v in received && v != s.idx && Judge(s, received[v], v) == Good(result[v])
    {
      var from := senders[i];
      if from == s.idx {
        continue;
      }
      var verdict := JudgeSender(s, received[from], from);
      match verdict
      case Good(pkg) =>
        result := result[from := pkg];
      case Blame =>
        FirstBadIsLeast(received, i, bad);
        return DecryptCulprit(from);
      case NoKey =>
        FirstBadIsLeast(received, i, bad);
        return KeyMissing(from);
    }
    forall v | v in received && v != s.idx ensures v in result {
      var k := SortedKeyOf(received, v);
    }
    AllGoodOpens(s, received, result);
    var packages := ConvertMapToFrostPackages(result);
    return Decrypted(packages);
  }

  /** A sealed package opens, for its addressee, to what went in. */
  lemma SealedOpens(from: Session, to: Session, pkg: Bytes, nonce: Option<Nonce>, toPackages: map<uint16, Bytes>)
    requires from.box == to.box && from.box.Laws() && from.until == to.until
    requires |pkg| == FROST_DKG_R2_PACKAGE_SIZE
    requires to.idx in from.keys && from.keys[to.idx] == from.box.publicOf(to.private)
    requires from.idx in to.keys && to.keys[from.idx] == from.box.publicOf(from.private)
    requires to.idx in toPackages && SealFor(from, to.idx, pkg, nonce) == Some(toPackages[to.idx])
    ensures Judge(to, toPackages, from.idx) == Good(pkg)
  {
    var data := Envelope(from.until, from.idx, pkg);
    var wire := toPackages[to.idx];
    assert wire[24..] == from.box.seal(data, nonce.value, from.keys[to.idx], from.private);
    assert wire[..24] == nonce.value;
    assert data[..8] == BE(U64(from.until), 8) && data[8..10] == BE(from.idx, 2) && data[10..] == pkg;
    Pow256Values();
    BERoundTrip(U64(from.until), 8);
    U16RoundTrip(from.idx);
  }
}
