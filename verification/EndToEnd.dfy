/** From built APDU bytes to the signature, through the virtual card. */
module EndToEnd {
  import opened Wrappers
  import opened ByteStrings
  import opened Apdu
  import opened VirtualCard
  import opened Isolation
  import opened NumberTheory
  import OpenPgp
  import OpenPgpCard
  import OpenPgpImport
  import OpenPgpKeyRuns
  import OpenPgpKeys
  import OpenPgpRuns
  import Rsa

  /** The OpenPGP applet is selected on a powered card. */
  predicate Selected(s: State) { s.control == Control(OpenPgpActive, true) }

  /** The bytes that the builder writes for a command bring exactly this command to the selected
      applet, whichever format was asked for. */
  lemma BuiltReachesApplet(l: Library, s: State, cmd: Apdu, extended: bool, env: Env)
    requires Selected(s) && cmd.ins != 0xA4 && Writable(cmd, extended)
    ensures var r := OpenPgp.Process(l.openpgp, s.openpgp, cmd, env.openpgp);
      Process(l, s, Built(cmd, extended), env) == Reply(State(r.state, s.piv, s.control), ResponseBytes(r.response))
  {
    hide OpenPgp.Process, ParseApdu, Built, Writable;
    RustReadsBuilt(cmd, extended);
  }

  /** The run of an applet alone ends where its events lead one by one. */
  lemma {:induction false} AloneIsRun(c: OpenPgpKeys.Crypto, s: OpenPgp.State, es: seq<OpenPgpRuns.Event>)
    ensures OpenPgpAlone(c, s, es).state == OpenPgpRuns.StateAt(c, s, es, |es|)
    decreases |es|
  {
    hide OpenPgpRuns.Next, OpenPgp.Process;
    if es != [] {
      AloneIsRun(c, OpenPgpRuns.Next(c, s, es[0]), es[1..]);
      LaterState(c, s, es, |es|);
    }
  }

  /** A run goes on from its first event. */
  lemma {:induction false} LaterState(c: OpenPgpKeys.Crypto, s: OpenPgp.State, es: seq<OpenPgpRuns.Event>, i: nat)
    requires 1 <= i <= |es|
    ensures OpenPgpRuns.StateAt(c, s, es, i) == OpenPgpRuns.StateAt(c, OpenPgpRuns.Next(c, s, es[0]), es[1..], i - 1)
  {
    hide OpenPgpRuns.Next;
    if i > 1 { LaterState(c, s, es, i - 1); }
  }

  /** The signature key of the applet is not replaced by what the stream brings to it. */
  predicate KeyUntouched(l: Library, s: State, es: seq<Event>) {
    var share := OpenPgpShare(s.control, es);
    OpenPgpKeyRuns.NoneWrites(l.openpgp, s.openpgp, share, |share|, OpenPgpCard.Sig)
  }

  /** After any stream of commands to both applets, power changes and resets that does not
      replace the signature key, it is still the one that was there. */
  lemma KeySurvives(l: Library, s: State, es: seq<Event>)
    requires KeyUntouched(l, s, es)
    ensures OpenPgpKeyRuns.SameKey(s.openpgp.card.sig, Together(l, s, es).state.openpgp.card.sig)
  {
    hide Together, OpenPgpShare, OpenPgpAlone, OpenPgpRuns.StateAt, OpenPgpKeyRuns.NoneWrites;
    var share := OpenPgpShare(s.control, es);
    AppletsAreIsolated(l, s, es);
    AloneIsRun(l.openpgp, s.openpgp, share);
    OpenPgpKeyRuns.KeyStays(l.openpgp, s.openpgp, share, |share|, OpenPgpCard.Sig);
  }

  /** What the card must be ready for when the signature is asked for. */
  predicate ReadyToSign(s: State) {
    Selected(s) && !s.openpgp.card.terminated && s.openpgp.commandBuffer == []
  }

  /** The host imports a key of two different primes, any stream of commands, power changes and
      resets follows that does not replace it, and then the host asks for a signature. What
      PSO:CDS answers is as it must be with that key; in particular, if nothing is missing and
      Le leaves room, the card returns the signature and 9000, and the signature verifies under
      (p * q, e). */
  lemma SignedOverTheWire(l: Library, s: State, importing: Apdu, long: bool, env: Env, es: seq<Event>, signing: Apdu,
                          long': bool, env': Env, e: Bytes, p: Bytes, q: Bytes)
    returns (signature: Bytes)
    requires OpenPgpImport.Component(e) && OpenPgpImport.Component(p) && OpenPgpImport.Component(q)
    requires Prime(ToNat(p)) && Prime(ToNat(q)) && ToNat(p) != ToNat(q) && |OpenPgp.Modulus(p, q)| < 65536
    requires ReadyToSign(s) && s.openpgp.security.pw3 && s.openpgp.card.sig.algorithm.id == 0x01
    requires Writable(importing, long) && importing.ins == OpenPgp.PUT_DATA_ODD && !Chained(importing)
    requires importing.p1 == 0x3F && importing.p2 == 0xFF
    requires importing.data == OpenPgpImport.HeaderList(OpenPgpCard.Sig, e, p, q)
    requires Writable(signing, long') && signing.ins == OpenPgp.PSO && !Chained(signing)
    requires OpenPgp.P1P2(signing) == OpenPgp.CDS
    requires KeyUntouched(l, Process(l, s, Built(importing, long), env).state, es)
    requires ReadyToSign(Together(l, Process(l, s, Built(importing, long), env).state, es).state)
    ensures Process(l, s, Built(importing, long), env).answer == [0x90, 0x00]
    ensures OpenPgp.Product(ToNat(p), ToNat(q)) > 0
    ensures var u := Together(l, Process(l, s, Built(importing, long), env).state, es).state;
      Answered(l, u, signing, Process(l, u, Built(signing, long'), env'), env', signature,
               OpenPgp.Product(ToNat(p), ToNat(q)), ToNat(e), ToNat(p), ToNat(q))
  {
    hide Process, Together, OpenPgp.Process, OpenPgpImport.HeaderList, OpenPgpImport.SignedReply, KeyUntouched,
      ToNat, OpenPgp.Modulus, OpenPgp.Product, OpenPgpImport.HoldsKey, Built, Writable, Chained, OpenPgp.Sign;
    ImportOverTheWire(l, s, importing, long, env, e, p, q);
    var t := Process(l, s, Built(importing, long), env).state;
    var u := Together(l, t, es).state;
    KeySurvives(l, t, es);
    HeldBy(t.openpgp.card.sig, u.openpgp.card.sig, e, p, q);
    BuiltReachesApplet(l, u, signing, long', env');
    OpenPgpImport.Direct(l.openpgp, u.openpgp, signing, env'.openpgp);
    signature := OpenPgpImport.StoredSigns(l.openpgp, u.openpgp.(currentLe := signing.le), e, p, q, signing.data);
    AnswerIs(l, u, signing, Process(l, u, Built(signing, long'), env'), env', signature,
             OpenPgp.Product(ToNat(p), ToNat(q)), ToNat(e), ToNat(p), ToNat(q));
  }

  /** The card's answer to PSO:CDS: the applet's, and the whole signature if there is room. */
  ghost predicate Answered(l: Library, u: State, cmd: Apdu, r: Reply, env: Env, signature: Bytes, n: nat, e: nat,
                           p: nat, q: nat)
    requires n > 0
  {
    var applet := OpenPgp.Process(l.openpgp, u.openpgp, cmd, env.openpgp);
    && p >= 1 && q >= 1
    && r.answer == ResponseBytes(applet.response) && r.state.openpgp == applet.state
    && OpenPgpImport.SignedReply(l.openpgp, u.openpgp.(currentLe := cmd.le), applet, cmd.data, signature, n, e, p, q)
    && (u.openpgp.security.pw1Sign && u.openpgp.card.sig.HasKey() && Rsa.Usable(n, e, p, q, l.openpgp.acceptsKey)
        && |cmd.data| + 11 <= Rsa.KeySize(n) && cmd.le.Some? && Rsa.KeySize(n) <= cmd.le.value ==>
          r.answer == signature + [0x90, 0x00] && Rsa.Verify(n, e, signature) == Some(cmd.data))
  }

  lemma AnswerIs(l: Library, u: State, cmd: Apdu, r: Reply, env: Env, signature: Bytes, n: nat, e: nat, p: nat, q: nat)
    requires n > 0 && p >= 1 && q >= 1
    requires var applet := OpenPgp.Process(l.openpgp, u.openpgp, cmd, env.openpgp);
      && r.answer == ResponseBytes(applet.response) && r.state.openpgp == applet.state
      && OpenPgpImport.SignedReply(l.openpgp, u.openpgp.(currentLe := cmd.le), applet, cmd.data, signature, n, e, p, q)
    ensures Answered(l, u, cmd, r, env, signature, n, e, p, q)
  {
    hide OpenPgp.Process, Rsa.Usable, Rsa.KeySize, Rsa.Verify;
  }

  lemma HeldBy(x: OpenPgpCard.KeySlot, y: OpenPgpCard.KeySlot, e: Bytes, p: Bytes, q: Bytes)
    requires OpenPgpImport.HoldsKey(x, e, p, q) && OpenPgpKeyRuns.SameKey(x, y)
    ensures OpenPgpImport.HoldsKey(y, e, p, q)
  {}

  /** The import by itself: accepted, and the slot holds the key. */
  lemma ImportOverTheWire(l: Library, s: State, importing: Apdu, long: bool, env: Env, e: Bytes, p: Bytes, q: Bytes)
    requires OpenPgpImport.Component(e) && OpenPgpImport.Component(p) && OpenPgpImport.Component(q)
    requires |OpenPgp.Modulus(p, q)| < 65536
    requires ReadyToSign(s) && s.openpgp.security.pw3 && s.openpgp.card.sig.algorithm.id == 0x01
    requires Writable(importing, long) && importing.ins == OpenPgp.PUT_DATA_ODD && !Chained(importing)
    requires importing.p1 == 0x3F && importing.p2 == 0xFF
    requires importing.data == OpenPgpImport.HeaderList(OpenPgpCard.Sig, e, p, q)
    ensures var r := Process(l, s, Built(importing, long), env);
            r.answer == [0x90, 0x00] && OpenPgpImport.HoldsKey(r.state.openpgp.card.sig, e, p, q)
  {
    hide Process, OpenPgp.Process, OpenPgpImport.HeaderList, ToNat, OpenPgp.Modulus, OpenPgp.Product, Rsa.ReadFields,
      Rsa.GetModulus, Rsa.GetExponent, OpenPgp.PutDataOdd, Built, Writable, Chained;
    BuiltReachesApplet(l, s, importing, long, env);
    OpenPgpImport.Direct(l.openpgp, s.openpgp, importing, env.openpgp);
    OpenPgpImport.ImportRecovers(l.openpgp, s.openpgp.(currentLe := importing.le), importing,
                                 OpenPgpCard.Sig, e, p, q);
  }
}
