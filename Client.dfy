/** The client side of SRP-6a (RFC 5054; its section 2.6 gives the premaster secret):
    generating the ephemeral key pair, answering the server's challenge with the evidence
    message M and the session key, and checking the server's evidence H(A, M, K).

    Everything the client imports from its helper module (the group's prime and generator, the
    hash, padding, big-endian decoding, and the derivations of x and M) is a parameter of type
    `Utils`: the model is proved for every choice of them and assumes nothing about their byte
    layouts. */
module Client {
  import opened ModArith

  newtype byte = x: int | 0 <= x < 256
  type Bytes = seq<byte>

  /** One argument of the hash, which accepts integers and byte strings alike. */
  datatype HashArg = Num(n: int) | Data(b: Bytes)

  /** The helpers the client takes from its helper module, left uninterpreted. */
  datatype Utils = Utils(
    prime: int,                                                 // _get_srp_prime()
    generator: int,                                             // _get_srp_generator()
    hash: seq<HashArg> -> Bytes,                                // _Hash(*args)
    pad: (int, nat) -> Bytes,                                   // _pad(value, width)
    toInt: Bytes -> nat,                                        // _to_int(bytes), big-endian unsigned
    calculateX: (Bytes, string, string) -> nat,                 // _calculate_x(salt, identity, password)
    calculateM: (int, int, string, Bytes, int, int, Bytes) -> Bytes)  // _calculate_M(g, N, I, s, A, B, K)

  /** Which SRP-6a safety check aborted the exchange. */
  datatype SafetyCheck = PublicValueBIsZero | ScramblerUIsZero

  /** The two exceptions of the client: SafetyException and EvidenceException. */
  datatype AuthError = SafetyViolation(check: SafetyCheck) | EvidenceMismatch

  datatype Result<T> = Ok(value: T) | Err(error: AuthError)

  /** The private ephemeral `a` and the public ephemeral `A`. */
  datatype KeyPair = KeyPair(a: nat, A: int)

  /** The client evidence message and the session key. */
  datatype Challenge = Challenge(M: Bytes, sessionKey: Bytes)

  /** Number of random bytes the private ephemeral is drawn from (256 bits). */
  const RandomByteCount: nat := 32

  /** Draws the private ephemeral `a` from `entropy` (the 32 random bytes, taken as an input)
      and computes the public ephemeral `A = g^a mod N`. */
  function GenerateAPair(utils: Utils, entropy: Bytes): (r: KeyPair)
    requires utils.prime > 1
    requires |entropy| == RandomByteCount
    ensures r.a == utils.toInt(entropy)
    ensures 0 <= r.A < utils.prime
    ensures r.A == Pow(utils.generator, r.a) % utils.prime
  {
    var a := utils.toInt(entropy);
    KeyPair(a, ModPow(utils.generator, a, utils.prime))
  }

  /** The padding width: the BIT length of the prime, as the client computes it. */
  function Width(utils: Utils): nat
    requires utils.prime > 1
  {
    BitLength(utils.prime)
  }

  /** The scrambling parameter u = H(pad(A), pad(B)). */
  function Scrambler(utils: Utils, A: int, B: int): nat
    requires utils.prime > 1
  {
    var width := Width(utils);
    utils.toInt(utils.hash([Data(utils.pad(A, width)), Data(utils.pad(B, width))]))
  }

  /** The multiplier k = H(N, pad(g)). */
  function Multiplier(utils: Utils): nat
    requires utils.prime > 1
  {
    utils.toInt(utils.hash([Num(utils.prime), Data(utils.pad(utils.generator, Width(utils)))]))
  }

  /** The premaster secret as RFC 5054 section 2.6 writes it, over the unbounded integers:
      S = (B - k * g^x) ^ (a + u * x) % N. */
  ghost function RfcPremaster(utils: Utils, a: nat, B: int, u: nat, x: nat, k: nat): int
    requires utils.prime > 1
  {
    Pow(B - k * Pow(utils.generator, x), a + u * x) % utils.prime
  }

  /** The premaster secret as the client computes it: g^x is reduced mod N before it is
      multiplied and subtracted, so the base t1 may be negative. The result is nevertheless in
      [0, N) and equals the unreduced formula. */
  function Premaster(utils: Utils, a: nat, B: int, u: nat, x: nat, k: nat): (S: int)
    requires utils.prime > 1
    ensures 0 <= S < utils.prime
    ensures S == RfcPremaster(utils, a, B, u, x, k)
  {
    var N, g := utils.prime, utils.generator;
    var t1 := B - k * ModPow(g, x, N);
    var t2 := a + u * x;
    SubtractReducedProduct(B, k, Pow(g, x), N);
    PowCongruent(t1, B - k * Pow(g, x), t2, N);
    ModPow(t1, t2, N)
  }

  /** Answers the server's challenge (salt, B). Aborts with a safety violation when B is 0 or
      when the scrambler u is 0, checking B first; otherwise returns the evidence message M and
      the session key H(S). */
  function ProcessChallenge(utils: Utils, identity: string, password: string, salt: Bytes,
                            a: nat, A: int, B: int): (r: Result<Challenge>)
    requires utils.prime > 1
    ensures B == 0 ==> r == Err(SafetyViolation(PublicValueBIsZero))
    ensures B != 0 && Scrambler(utils, A, B) == 0 ==> r == Err(SafetyViolation(ScramblerUIsZero))
    ensures r.Ok? <==> B != 0 && Scrambler(utils, A, B) != 0
    ensures r.Ok? ==>
      var S := RfcPremaster(utils, a, B, Scrambler(utils, A, B),
                            utils.calculateX(salt, identity, password), Multiplier(utils));
      var key := utils.hash([Num(S)]);
      r.value == Challenge(utils.calculateM(utils.generator, utils.prime, identity, salt, A, B, key), key)
  {
    var u := Scrambler(utils, A, B);
    var x := utils.calculateX(salt, identity, password);
    var k := Multiplier(utils);
    if B == 0 then Err(SafetyViolation(PublicValueBIsZero))
    else if u == 0 then Err(SafetyViolation(ScramblerUIsZero))
    else
      var S := Premaster(utils, a, B, u, x, k);
      var sessionKey := utils.hash([Num(S)]);
      var M := utils.calculateM(utils.generator, utils.prime, identity, salt, A, B, sessionKey);
      Ok(Challenge(M, sessionKey))
  }

  /** Whether the exchange aborts, and with which safety check, is decided by A and B alone:
      no secret (a, identity, password, salt) has any say, as the checks precede S. */
  lemma SafetyVerdictIgnoresSecrets(utils: Utils, A: int, B: int,
                                    identity1: string, password1: string, salt1: Bytes, a1: nat,
                                    identity2: string, password2: string, salt2: Bytes, a2: nat)
    requires utils.prime > 1
    ensures var r1 := ProcessChallenge(utils, identity1, password1, salt1, a1, A, B);
            var r2 := ProcessChallenge(utils, identity2, password2, salt2, a2, A, B);
            r1.Err? == r2.Err? && (r1.Err? ==> r1.error == r2.error)
  {
  }

  /** The password enters the result only through the private key x: two passwords with the
      same x give the same evidence message and session key. */
  lemma PasswordOnlyThroughPrivateKey(utils: Utils, identity: string, password1: string,
                                      password2: string, salt: Bytes, a: nat, A: int, B: int)
    requires utils.prime > 1
    requires utils.calculateX(salt, identity, password1) == utils.calculateX(salt, identity, password2)
    ensures ProcessChallenge(utils, identity, password1, salt, a, A, B)
         == ProcessChallenge(utils, identity, password2, salt, a, A, B)
  {
  }

  /** The B check is literal: a nonzero multiple of N passes it, and the exchange goes on
      whenever u is nonzero. B then drops out of the premaster secret altogether: the session
      key is H((-k * (g^x mod N))^(a + u*x) mod N), for the u, x and k of that exchange. */
  lemma MultipleOfPrimePassesBCheck(utils: Utils, identity: string, password: string,
                                    salt: Bytes, a: nat, A: int, c: int)
    requires utils.prime > 1
    requires c != 0
    requires Scrambler(utils, A, c * utils.prime) != 0
    ensures var N, g := utils.prime, utils.generator;
            var u, x, k := Scrambler(utils, A, c * N), utils.calculateX(salt, identity, password), Multiplier(utils);
            var r := ProcessChallenge(utils, identity, password, salt, a, A, c * N);
            r.Ok? && r.value.sessionKey == utils.hash([Num(ModPow(0 - k * ModPow(g, x, N), a + u * x, N))])
  {
    var N, g := utils.prime, utils.generator;
    var u, x, k := Scrambler(utils, A, c * N), utils.calculateX(salt, identity, password), Multiplier(utils);
    assert c * N != 0;
    var t: int := 0 - k * ModPow(g, x, N);
    assert c * N - k * ModPow(g, x, N) == t + c * N;
    AddMultipleMod(t, c, N);
    ModPowCongruent(c * N - k * ModPow(g, x, N), t, a + u * x, N);
    assert Premaster(utils, a, c * N, u, x, k) == ModPow(t, a + u * x, N);
  }

  /** Recomputes the server evidence H(A, M, K) and accepts exactly when the server sent those
      bytes, returning them; any other value is an evidence mismatch. */
  function VerifySession(utils: Utils, A: int, M: Bytes, sessionKey: Bytes, serverHAMK: Bytes)
    : (r: Result<Bytes>)
    ensures r.Ok? <==> serverHAMK == utils.hash([Num(A), Data(M), Data(sessionKey)])
    ensures r.Ok? ==> r.value == serverHAMK
    ensures r.Err? ==> r.error == EvidenceMismatch
  {
    var clientHAMK := utils.hash([Num(A), Data(M), Data(sessionKey)]);
    if clientHAMK != serverHAMK then Err(EvidenceMismatch) else Ok(clientHAMK)
  }

  /** Changing one byte of accepted server evidence makes it rejected. */
  lemma AlteredEvidenceRejected(utils: Utils, A: int, M: Bytes, sessionKey: Bytes,
                                serverHAMK: Bytes, i: nat, v: byte)
    requires VerifySession(utils, A, M, sessionKey, serverHAMK).Ok?
    requires i < |serverHAMK| && v != serverHAMK[i]
    ensures VerifySession(utils, A, M, sessionKey, serverHAMK[i := v]) == Err(EvidenceMismatch)
  {
  }
}
