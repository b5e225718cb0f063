/** The package exchange as a whole: everybody's bytes pass through everybody's parser.

    With honest validators each package reaches its addressee intact; among dishonest ones an
    honest validator is never the culprit. */
module DkgExchange {
  import opened Wrappers
  import opened ByteCodec
  import opened FrostIds
  import opened DkgPackages
  import opened DkgCrypto

  /** A validator's private key, and what FROST and the random source hand it. */
  datatype Party = Party(
    private: Bytes,
    r1: Bytes,
    r2: map<Identifier, Bytes>,
    rand: Identifier -> Option<Nonce>
  )

  /** FROST made one 37-byte package for each other member. */
  ghost predicate HonestParty(p: Party, v: uint16, vset: set<uint16>) {
    && |p.r1| >= 1
    && (forall u | u in vset && u != v :: ValidatorIdxToFrost(u) in p.r2)
    && (forall id | id in p.r2 ::
          && |p.r2[id]| == FROST_DKG_R2_PACKAGE_SIZE && p.rand(id).Some?
          && FrostToValidatorIdx(id) in vset && FrostToValidatorIdx(id) != v
          && id == ValidatorIdxToFrost(FrostToValidatorIdx(id)))
  }

  /** At least two validators, none of whose indices has bit 7 set (all indices below 128, say). */
  ghost predicate ValidatorSet(vset: set<uint16>) {
    |vset| >= 2 && forall v | v in vset :: !Bit7(v)
  }

  function R1Bytes(box: Box, p: Party): Bytes {
    box.publicOf(p.private) + p.r1
  }

  /** `s` is what an honest `p` works with: its own key, and some key for everybody. */
  ghost predicate Honest(s: Session, p: Party, vset: set<uint16>) {
    && s.box.Laws() && ValidatorSet(vset) && s.idx in vset
    && s.private == p.private && HonestParty(p, s.idx, vset)
    && forall v | v in vset :: v in s.keys
  }

  lemma HonestSeals(s: Session, p: Party, vset: set<uint16>)
    requires Honest(s, p, vset)
    ensures OurIdentifiers(p.r2) && SealAll(s, p.r2, p.rand).Some?
    ensures var sent := SealAll(s, p.r2, p.rand).value;
            && sent.Keys == vset - {s.idx}
            && forall u | u in sent ::
                 && ValidatorIdxToFrost(u) in p.r2 && |sent[u]| == ENCRYPTED_R2_SIZE
                 && SealFor(s, u, p.r2[ValidatorIdxToFrost(u)], p.rand(ValidatorIdxToFrost(u))) == Some(sent[u])
  {
    forall u | u in vset - {s.idx} ensures u in Recipients(p.r2) {
      FrostRoundTrip(u);
      assert ValidatorIdxToFrost(u) in p.r2;
    }
    forall id | id in p.r2
      ensures SealFor(s, FrostToValidatorIdx(id), p.r2[id], p.rand(id)).Some?
      ensures |SealFor(s, FrostToValidatorIdx(id), p.r2[id], p.rand(id)).value| == ENCRYPTED_R2_SIZE
    {
      assert p.rand(id).Some?;
    }
    forall v | v in Recipients(p.r2) ensures v in vset - {s.idx} {
      assert ValidatorIdxToFrost(v) in p.r2;
    }
  }

  /** The bytes an honest validator publishes in round two. */
  ghost function R2Bytes(s: Session, p: Party, vset: set<uint16>): Bytes
    requires Honest(s, p, vset)
  {
    HonestSeals(s, p, vset);
    Serialized(SealAll(s, p.r2, p.rand).value)
  }

  lemma {:induction false} SmallSet(s: set<uint16>, n: nat)
    requires forall v | v in s :: v < n
    ensures |s| <= n
  {
    if n == 0 {
      assert s == {};
    } else {
      SmallSet(s - {n - 1}, n - 1);
    }
  }

  lemma R2BytesParse(s: Session, p: Party, vset: set<uint16>)
    requires Honest(s, p, vset)
    ensures SenderOk(s.idx, R2Bytes(s, p, vset), vset)
    ensures OurIdentifiers(p.r2)
    ensures Some(Entries(R2Bytes(s, p, vset), Count(R2Bytes(s, p, vset)))) == SealAll(s, p.r2, p.rand)
  {
    HonestSeals(s, p, vset);
    var sent := SealAll(s, p.r2, p.rand).value;
    SmallSet(vset, 0x1_0000);
    assert |sent.Keys| == |vset| - 1;
    HonestSenderOk(s.idx, sent, vset);
    SerializedRoundTrip(sent);
  }

  lemma R1BytesOk(box: Box, p: Party)
    requires box.Laws() && |p.r1| >= 1
    ensures R1Ok(R1Bytes(box, p))
    ensures R1Bytes(box, p)[..32] == box.publicOf(p.private) && R1Bytes(box, p)[32..] == p.r1
  {
  }

  /** Two honest validators that know each other's real key: the package arrives. */
  lemma PackageArrives(from: Session, p: Party, to: Session, vset: set<uint16>)
    requires Honest(from, p, vset) && to.idx in vset && to.idx != from.idx
    requires from.box == to.box && from.until == to.until
    requires from.keys[to.idx] == from.box.publicOf(to.private)
    requires from.idx in to.keys && to.keys[from.idx] == from.box.publicOf(from.private)
    ensures ValidatorIdxToFrost(to.idx) in p.r2 && SizeOk(R2Bytes(from, p, vset))
    ensures var b := R2Bytes(from, p, vset);
            Judge(to, Entries(b, Count(b)), from.idx) == Good(p.r2[ValidatorIdxToFrost(to.idx)])
  {
    HonestSeals(from, p, vset);
    R2BytesParse(from, p, vset);
    var b := R2Bytes(from, p, vset);
    var id := ValidatorIdxToFrost(to.idx);
    SealedOpens(from, to, p.r2[id], p.rand(id), Entries(b, Count(b)));
  }

  // ----- nobody honest is blamed -----

  lemma LeastInside(bad: set<uint16>)
    ensures bad != {} ==> LeastIdx(bad) in bad
  {
  }

  lemma NeverR1Culprit(published: map<uint16, Bytes>, v: uint16)
    requires v in published && R1Ok(published[v])
    ensures R1Parse(published) != R1Culprit(v)
  {
    LeastInside(R1Bad(published));
  }

  lemma NeverR2Culprit(published: map<uint16, Bytes>, vset: set<uint16>, v: uint16)
    requires v in published && SenderOk(v, published[v], vset)
    ensures R2Parse(published, vset) != R2Culprit(v)
    ensures R2Parse(published, vset).R2Parsed? ==>
              var received := R2Parse(published, vset).received;
              v in received && received[v] == Entries(published[v], Count(published[v]))
  {
    LeastInside(R2Bad(published, vset));
  }

  lemma NeverDecryptCulprit(s: Session, received: map<uint16, map<uint16, Bytes>>, v: uint16)
    requires v in received && (v == s.idx || Judge(s, received[v], v).Good?)
    ensures OpenAll(s, received) != DecryptCulprit(v)
  {
    assert v !in NotGood(s, received);
    LeastInside(NotGood(s, received));
  }

  /** What anybody learns of the keys from the bytes of round one. */
  lemma KeyLearned(box: Box, published: map<uint16, Bytes>, v: uint16, p: Party)
    requires box.Laws() && v in published && published[v] == R1Bytes(box, p)
    requires R1Parse(published).R1Parsed?
    ensures var keys := R1Parse(published).publicKeys;
            && (forall u | u in published :: u in keys)
            && keys[v] == box.publicOf(p.private)
  {
    assert |box.publicOf(p.private)| == 32;
    assert R1Bytes(box, p)[..32] == box.publicOf(p.private);
  }

  /** A validator's session once it has read round one. */
  ghost function SessionAfter(box: Box, published1: map<uint16, Bytes>, p: Party, until: int, v: uint16): Session
    requires R1Parse(published1).R1Parsed?
  {
    Session(box, R1Parse(published1).publicKeys, p.private, until, v)
  }

  lemma HonestAfter(box: Box, published1: map<uint16, Bytes>, p: Party, until: int, v: uint16, vset: set<uint16>)
    requires box.Laws() && ValidatorSet(vset) && v in vset && HonestParty(p, v, vset)
    requires forall u | u in vset :: u in published1
    requires R1Parse(published1).R1Parsed? && published1[v] == R1Bytes(box, p)
    ensures Honest(SessionAfter(box, published1, p, until, v), p, vset)
  {
    KeyLearned(box, published1, v, p);
  }

  /** Whatever bytes all others publish: a validator whose own bytes come from this code is never the
      culprit of parsing round one, of parsing round two, or of opening its package at another honest
      validator. Both work with the keys that round one published. */
  lemma HonestNeverBlamed(box: Box, vset: set<uint16>, until: int, from: uint16, p: Party, to: uint16, q: Party,
                          published1: map<uint16, Bytes>, published2: map<uint16, Bytes>)
    requires box.Laws() && ValidatorSet(vset) && from in vset && to in vset && HonestParty(p, from, vset)
    requires forall v | v in vset :: v in published1
    requires published1[from] == R1Bytes(box, p) && published1[to] == R1Bytes(box, q)
    ensures R1Parse(published1) != R1Culprit(from)
    ensures R1Parse(published1).R1Parsed? ==>
              var s := SessionAfter(box, published1, p, until, from);
              && Honest(s, p, vset)
              && (from in published2 && published2[from] == R2Bytes(s, p, vset) ==>
                    && R2Parse(published2, vset) != R2Culprit(from)
                    && (R2Parse(published2, vset).R2Parsed? ==>
                          OpenAll(SessionAfter(box, published1, q, until, to), R2Parse(published2, vset).received)
                          != DecryptCulprit(from)))
  {
    R1BytesOk(box, p);
    NeverR1Culprit(published1, from);
    if R1Parse(published1).R1Parsed? {
      HonestAfter(box, published1, p, until, from, vset);
      KeyLearned(box, published1, from, p);
      KeyLearned(box, published1, to, q);
      var s, t := SessionAfter(box, published1, p, until, from), SessionAfter(box, published1, q, until, to);
      if from in published2 && published2[from] == R2Bytes(s, p, vset) {
        OpenedAtOther(s, p, vset, t, published2);
      }
    }
  }

  lemma OpenedAtOther(s: Session, p: Party, vset: set<uint16>, to: Session, published2: map<uint16, Bytes>)
    requires Honest(s, p, vset)
    requires s.idx in published2 && published2[s.idx] == R2Bytes(s, p, vset)
    requires to.idx in vset && s.box == to.box && s.until == to.until
    requires s.keys[to.idx] == s.box.publicOf(to.private)
    requires s.idx in to.keys && to.keys[s.idx] == s.box.publicOf(s.private)
    ensures R2Parse(published2, vset) != R2Culprit(s.idx)
    ensures R2Parse(published2, vset).R2Parsed? ==>
              OpenAll(to, R2Parse(published2, vset).received) != DecryptCulprit(s.idx)
  {
    R2BytesParse(s, p, vset);
    NeverR2Culprit(published2, vset, s.idx);
    if R2Parse(published2, vset).R2Parsed? {
      if to.idx != s.idx {
        PackageArrives(s, p, to, vset);
      }
      NeverDecryptCulprit(to, R2Parse(published2, vset).received, s.idx);
    }
  }

  // ----- everybody honest -----

  datatype Ceremony = Ceremony(box: Box, vset: set<uint16>, parties: map<uint16, Party>, until: int) {
    ghost predicate Valid() {
      && box.Laws() && ValidatorSet(vset) && parties.Keys == vset
      && forall v | v in vset :: HonestParty(parties[v], v, vset)
    }

    ghost function Published1(): map<uint16, Bytes> {
      map v: uint16 | v in parties :: R1Bytes(box, parties[v])
    }

    ghost function Keys(): map<uint16, Bytes> {
      map v: uint16 | v in parties :: box.publicOf(parties[v].private)
    }

    ghost function SessionOf(v: uint16): Session
      requires v in parties
    {
      Session(box, Keys(), parties[v].private, until, v)
    }

    ghost function Published2(): map<uint16, Bytes>
      requires Valid()
    {
      map v: uint16 | v in parties :: assert Honest(SessionOf(v), parties[v], vset); R2Bytes(SessionOf(v), parties[v], vset)
    }
  }

  ghost function OtherIds(vset: set<uint16>, v: uint16): set<Identifier> {
    set u | u in vset && u != v :: ValidatorIdxToFrost(u)
  }

  ghost function AnyParty(vset: set<uint16>, v: uint16): (p: Party)
    requires ValidatorSet(vset)
    ensures HonestParty(p, v, vset)
  {
    assert forall u | u in vset :: FrostToValidatorIdx(ValidatorIdxToFrost(u)) == u by {
      forall u | u in vset ensures FrostToValidatorIdx(ValidatorIdxToFrost(u)) == u {
        FrostRoundTrip(u);
      }
    }
    Party([], [0], map id | id in OtherIds(vset, v) :: Zeros(37), _ => Some(Zeros(24)))
  }

  /** There is an honest ceremony among every validator set. */
  lemma EverySetCanMeet(box: Box, vset: set<uint16>, until: int) returns (c: Ceremony)
    requires box.Laws() && ValidatorSet(vset)
    ensures c.Valid() && c.box == box && c.vset == vset && c.until == until
  {
    c := Ceremony(box, vset, map v | v in vset :: AnyParty(vset, v), until);
  }

  lemma R1AllOk(published: map<uint16, Bytes>, keys: map<uint16, Bytes>, packages: map<uint16, Bytes>)
    requires published.Keys == keys.Keys == packages.Keys
    requires forall v | v in published ::
               |keys[v]| == 32 && |packages[v]| >= 1 && published[v] == keys[v] + packages[v]
    ensures R1Parse(published) == R1Parsed(FrostMap(packages), keys)
  {
    assert R1Bad(published) == {};
    assert Tails(published) == packages;
    assert PublicKeys(published) == keys;
  }

  lemma R2AllOk(published: map<uint16, Bytes>, vset: set<uint16>)
    requires published != map[]
    requires forall v | v in published :: SenderOk(v, published[v], vset)
    ensures forall v | v in published :: SizeOk(published[v])
    ensures R2Parse(published, vset) == R2Parsed(AllEntries(published))
  {
    assert R2Bad(published, vset) == {};
  }

  ghost function R1Packages(c: Ceremony): map<uint16, Bytes> {
    map v: uint16 | v in c.parties :: c.parties[v].r1
  }

  lemma PartyOf(c: Ceremony, v: uint16)
    requires c.Valid() && v in c.parties
    ensures |c.box.publicOf(c.parties[v].private)| == 32 && |c.parties[v].r1| >= 1
  {
    assert HonestParty(c.parties[v], v, c.vset);
  }

  lemma RoundOneParses(c: Ceremony)
    requires c.Valid()
    ensures R1Parse(c.Published1()) == R1Parsed(FrostMap(R1Packages(c)), c.Keys())
  {
    var published, keys, packages := c.Published1(), c.Keys(), R1Packages(c);
    forall v | v in published
      ensures |keys[v]| == 32 && |packages[v]| >= 1 && published[v] == keys[v] + packages[v]
    {
      PartyOf(c, v);
    }
    R1AllOk(published, keys, packages);
  }

  /** Round one: everybody learns everybody's key and FROST package. */
  lemma RoundOneReachesAll(c: Ceremony)
    requires c.Valid()
    ensures R1Parse(c.Published1()).R1Parsed?
    ensures R1Parse(c.Published1()).publicKeys == c.Keys()
    ensures var packages := R1Parse(c.Published1()).packages;
            && packages.Keys == (set v | v in R1Packages(c) :: ValidatorIdxToFrost(v))
            && forall v | v in R1Packages(c) :: packages[ValidatorIdxToFrost(v)] == c.parties[v].r1
  {
    RoundOneParses(c);
    FrostMapExact(R1Packages(c));
  }

  /** What the other members' FROST instances made for `t`. */
  ghost function MadeFor(c: Ceremony, t: uint16): map<uint16, Bytes>
    requires c.Valid() && t in c.vset
  {
    map f: uint16 | f in c.parties && f != t ::
      assert HonestParty(c.parties[f], f, c.vset); c.parties[f].r2[ValidatorIdxToFrost(t)]
  }

  lemma MemberReads(c: Ceremony, f: uint16, t: uint16)
    requires c.Valid() && t in c.vset && f in c.vset
    ensures f in c.Published2() && SenderOk(f, c.Published2()[f], c.vset)
    ensures f != t ==>
              && f in MadeFor(c, t)
              && Judge(c.SessionOf(t), Entries(c.Published2()[f], Count(c.Published2()[f])), f) == Good(MadeFor(c, t)[f])
  {
    R2BytesParse(c.SessionOf(f), c.parties[f], c.vset);
    if f != t {
      PackageArrives(c.SessionOf(f), c.parties[f], c.SessionOf(t), c.vset);
    }
  }

  lemma RoundTwoParses(c: Ceremony)
    requires c.Valid()
    ensures forall v | v in c.Published2() :: SizeOk(c.Published2()[v])
    ensures R2Parse(c.Published2(), c.vset) == R2Parsed(AllEntries(c.Published2()))
  {
    var published := c.Published2();
    forall f | f in published ensures SenderOk(f, published[f], c.vset) {
      MemberReads(c, f, f);
    }
    var t :| t in c.vset;
    assert t in published;
    R2AllOk(published, c.vset);
  }

  lemma AllJudgedGood(c: Ceremony, t: uint16)
    requires c.Valid() && t in c.vset
    ensures forall v | v in c.Published2() :: SizeOk(c.Published2()[v])
    ensures OpenAll(c.SessionOf(t), AllEntries(c.Published2())).Decrypted?
    ensures OpenAll(c.SessionOf(t), AllEntries(c.Published2())).packages == FrostMap(MadeFor(c, t))
  {
    RoundTwoParses(c);
    var received := AllEntries(c.Published2());
    forall f | f in MadeFor(c, t) ensures Judge(c.SessionOf(t), received[f], f) == Good(MadeFor(c, t)[f]) {
      MemberReads(c, f, t);
    }
    AllGoodOpens(c.SessionOf(t), received, MadeFor(c, t));
  }

  /** n-party exchange: at each member `t`, parsing and decrypting everybody's round-two bytes
      yields, for every other member `f`, exactly the package FROST made at `f` for `t`. */
  lemma RoundTwoReachesAll(c: Ceremony, t: uint16)
    requires c.Valid() && t in c.vset
    ensures R2Parse(c.Published2(), c.vset).R2Parsed?
    ensures var outcome := OpenAll(c.SessionOf(t), R2Parse(c.Published2(), c.vset).received);
            && outcome.Decrypted?
            && outcome.packages.Keys == (set f | f in MadeFor(c, t) :: ValidatorIdxToFrost(f))
            && forall f | f in MadeFor(c, t) :: outcome.packages[ValidatorIdxToFrost(f)] == MadeFor(c, t)[f]
  {
    RoundTwoParses(c);
    AllJudgedGood(c, t);
    FrostMapExact(MadeFor(c, t));
  }
}
