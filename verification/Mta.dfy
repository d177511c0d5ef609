// Multiplicative-to-additive share conversion over an ideal Paillier scheme: a ciphertext
// is its key and its plaintext modulo the key's N.
module Mta {
  import opened Results
  import opened Zq
  import opened Feldman

  datatype EncryptionKey = EncryptionKey(owner: nat, n: pos)

  // Garbage is what an operation under the wrong key yields.
  datatype Cipher = Cipher(key: EncryptionKey, plain: nat) | Garbage

  function Encrypt(ek: EncryptionKey, m: int): Cipher {
    Cipher(ek, Mod(m, ek.n))
  }

  function CipherMul(ek: EncryptionKey, c: Cipher, b: int): Cipher {
    if c.Garbage? || c.key != ek then Garbage else Cipher(ek, Mod(c.plain * b, ek.n))
  }

  function CipherAdd(ek: EncryptionKey, c: Cipher, d: Cipher): Cipher {
    if c.Garbage? || d.Garbage? || c.key != ek || d.key != ek then Garbage
    else Cipher(ek, Mod(c.plain + d.plain, ek.n))
  }

  function Decrypt(ek: EncryptionKey, c: Cipher): Option<nat> {
    if c.Garbage? || c.key != ek then None else Some(c.plain)
  }

  datatype MessageA = MessageA(c: Cipher)

  datatype MessageB = MessageB(c: Cipher, bProof: DLogProof, betaTagProof: DLogProof)

  function MakeA(a: nat, ek: EncryptionKey): MessageA {
    MessageA(Encrypt(ek, a))
  }

  // The reply to c_a for the secret b and the sampled mask betaTag < N, with b's own share.
  function MakeB(b: nat, ek: EncryptionKey, ca: MessageA, betaTag: nat, q: pos): (MessageB, nat) {
    var betaTagFe := Mod(betaTag, q);
    var cB := CipherAdd(ek, CipherMul(ek, ca.c, b), Encrypt(ek, betaTag));
    (MessageB(cB, ProveDLog(b, q), ProveDLog(betaTagFe, q)), Mod(0 - betaTagFe, q))
  }

  function GetAlpha(m: MessageB, dk: EncryptionKey, a: nat, q: pos): Option<nat> {
    var share :- Decrypt(dk, m.c);
    var alpha := Mod(share, q);
    var expected := AddPoints(MulPoint(m.bProof.pk, a, q), m.betaTagProof.pk, q);
    if VerifyDLog(m.bProof, q) && VerifyDLog(m.betaTagProof, q) && expected == MulPoint(GENERATOR, alpha, q)
    then Some(alpha) else None
  }

  // The plaintext under Alice's key, before reduction modulo N.
  function Plaintext(a: nat, b: nat, betaTag: nat): nat { a * b + betaTag }

  // Reducing v modulo N loses a multiple of N; it does no harm when that is 0 modulo q.
  predicate Liftable(v: nat, n: pos, q: pos) {
    Mod(v - Mod(v, n), q) == 0
  }

  lemma {:induction false} NoWrapLiftable(v: nat, n: pos, q: pos)
    requires v < n
    ensures Liftable(v, n, q)
  {
  }

  lemma {:induction false} LiftableIff(v: nat, n: pos, q: pos)
    ensures Liftable(v, n, q) <==> Cong(Mod(v, n), v, q)
  {
    hide Mod;
    CongDifference(v, Mod(v, n), q);
  }

  lemma {:induction false} HonestCipher(a: nat, b: nat, betaTag: nat, ek: EncryptionKey, q: pos)
    ensures MakeB(b, ek, MakeA(a, ek), betaTag, q).0.c == Cipher(ek, Mod(Plaintext(a, b, betaTag), ek.n))
  {
    hide Mod;
    var n := ek.n;
    CongMod(a, n);
    CongMul(Mod(a, n), a, b, b, n);
    CongMod(Mod(a, n) * b, n);
    CongMod(betaTag, n);
    CongAdd(Mod(Mod(a, n) * b, n), a * b, Mod(betaTag, n), betaTag, n);
  }

  lemma {:induction false} ExpectedPoint(a: nat, b: nat, betaTag: nat, q: pos)
    ensures AddPoints(MulPoint(ProveDLog(b, q).pk, a, q), ProveDLog(Mod(betaTag, q), q).pk, q)
         == Point(Mod(Plaintext(a, b, betaTag), q))
  {
    hide Mod;
    CongMod(b, q);
    CongMul(Mod(b, q), b, a, a, q);
    CongMod(Mod(b, q) * a, q);
    CongMod(betaTag, q);
    CongMod(Mod(betaTag, q), q);
    CongAdd(Mod(Mod(b, q) * a, q), b * a, Mod(Mod(betaTag, q), q), betaTag, q);
  }

  // An honest reply is accepted exactly when the wrapped multiple of N vanishes modulo q.
  lemma {:induction false} AlphaExact(a: nat, b: nat, betaTag: nat, ek: EncryptionKey, q: pos)
    ensures GetAlpha(MakeB(b, ek, MakeA(a, ek), betaTag, q).0, ek, a, q)
         == if Liftable(Plaintext(a, b, betaTag), ek.n, q) then Some(Mod(Plaintext(a, b, betaTag), q)) else None
  {
    hide Mod;
    var v := Plaintext(a, b, betaTag);
    HonestCipher(a, b, betaTag, ek, q);
    ExpectedPoint(a, b, betaTag, q);
    LiftableIff(v, ek.n, q);
    GeneratorPower(Mod(Mod(v, ek.n), q), q);
  }

  // The two shares of an accepted conversion add up to the product.
  lemma {:induction false} ConversionCorrect(a: nat, b: nat, betaTag: nat, ek: EncryptionKey, q: pos)
    requires GetAlpha(MakeB(b, ek, MakeA(a, ek), betaTag, q).0, ek, a, q).Some?
    ensures Cong(GetAlpha(MakeB(b, ek, MakeA(a, ek), betaTag, q).0, ek, a, q).value
                 + MakeB(b, ek, MakeA(a, ek), betaTag, q).1, a * b, q)
  {
    hide Mod;
    var v := Plaintext(a, b, betaTag);
    AlphaExact(a, b, betaTag, ek, q);
    BetaIs(betaTag, q);
    CongMod(v, q);
    CongAdd(Mod(v, q), v, Mod(0 - Mod(betaTag, q), q), 0 - betaTag, q);
  }

  lemma {:induction false} GeneratorPower(x: nat, q: pos)
    requires x < q
    ensures MulPoint(GENERATOR, x, q) == Point(x)
  {
  }

  lemma {:induction false} BetaIs(betaTag: nat, q: pos)
    ensures Cong(Mod(0 - Mod(betaTag, q), q), 0 - betaTag, q)
  {
    hide Mod;
    CongMod(betaTag, q);
    CongAdd(0, 0, Mod(betaTag, q), betaTag, q);
    CongMod(0 - Mod(betaTag, q), q);
  }

  // Whatever the reply, acceptance means that the decrypted share is the claimed combination
  // of the two proven secrets.
  lemma {:induction false} AcceptedReplyBinds(m: MessageB, ek: EncryptionKey, a: nat, q: pos)
    requires GetAlpha(m, ek, a, q).Some?
    ensures Cong(GetAlpha(m, ek, a, q).value, m.bProof.secret * a + m.betaTagProof.secret, q)
  {
    hide Mod;
    var b, t := m.bProof.secret, m.betaTagProof.secret;
    CongMod(b, q);
    CongMul(Mod(b, q), b, a, a, q);
    CongMod(Mod(b, q) * a, q);
    CongMod(t, q);
    CongAdd(Mod(Mod(b, q) * a, q), b * a, Mod(t, q), t, q);
  }

  // Exactly which replies are accepted, and with which share: a ciphertext under the own key
  // whose plaintext is, modulo q, that combination of two secrets with valid proofs.
  lemma {:induction false} GetAlphaIff(m: MessageB, ek: EncryptionKey, a: nat, q: pos)
    ensures var b, t := m.bProof, m.betaTagProof;
      GetAlpha(m, ek, a, q)
      == if m.c.Cipher? && m.c.key == ek && b.pk == Point(Mod(b.secret, q)) && t.pk == Point(Mod(t.secret, q))
            && Cong(m.c.plain, b.secret * a + t.secret, q)
         then Some(Mod(m.c.plain, q)) else None
  {
    hide Mod;
    ProofPoint(m.bProof, q);
    ProofPoint(m.betaTagProof, q);
    if m.c.Cipher? && m.c.key == ek && VerifyDLog(m.bProof, q) && VerifyDLog(m.betaTagProof, q) {
      CombinedPoint(m.bProof, m.betaTagProof, a, q);
      GeneratorPower(Mod(m.c.plain, q), q);
    }
  }

  lemma {:induction false} ProofPoint(p: DLogProof, q: pos)
    ensures VerifyDLog(p, q) <==> p.pk == Point(Mod(p.secret, q))
  {
    assert 1 * p.secret == p.secret;
  }

  lemma {:induction false} CombinedPoint(b: DLogProof, t: DLogProof, a: nat, q: pos)
    requires VerifyDLog(b, q) && VerifyDLog(t, q)
    ensures AddPoints(MulPoint(b.pk, a, q), t.pk, q) == Point(Mod(b.secret * a + t.secret, q))
  {
    hide Mod;
    ProofPoint(b, q);
    ProofPoint(t, q);
    CongMod(b.secret, q);
    CongMul(b.pk.log, b.secret, a, a, q);
    CongMod(b.pk.log * a, q);
    CongMod(t.secret, q);
    CongAdd(Mod(b.pk.log * a, q), b.secret * a, t.pk.log, t.secret, q);
  }
}
