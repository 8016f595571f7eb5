# SRP-6a client core, modelled in Dafny

This project models the client side of the SRP-6a password-authenticated key exchange
(RFC 5054; its section 2.6 gives the premaster secret) as implemented in
`python/lib/bsrp/client.py`. The client has three steps:

1. **Generate the key pair.** The client draws a private ephemeral `a` from 32 random bytes and
   publishes `A = g^a mod N`.
2. **Process the challenge.** From the server's salt and public value `B`, the client computes:
   - the scrambler `u = H(pad(A), pad(B))`;
   - the private key `x`;
   - the multiplier `k = H(N, pad(g))`.

   It aborts if `B` is 0, or else if `u` is 0. Otherwise it computes the premaster secret
   `S = (B - k * (g^x mod N))^(a + u*x) mod N` and returns the evidence message `M` with the
   session key `H(S)`.
3. **Verify the session.** The client recomputes the server evidence `H(A, M, K)` and accepts
   only if it equals the server's bytes.

Files:

- `ModArith.dfy` models the two Python built-ins the client depends on:
  - three-argument `pow` is `ModPow`, proved equal to the exact power reduced mod N;
  - `int.bit_length()` is `BitLength`, proved to give the number of binary digits.
- `Client.dfy` models the three steps as pure functions.
  - The two exceptions (`SafetyException`, `EvidenceException`) become the `Err` cases of a
    `Result`: `SafetyViolation(PublicValueBIsZero | ScramblerUIsZero)` and `EvidenceMismatch`.
  - Everything the client imports from its helper module is one `Utils` value of
    uninterpreted functions: prime, generator, hash, padding, big-endian decoding, and the
    derivations of `x` and `M`. Every result holds for every choice of them.
  - The random bytes are an input (`entropy`).
  - The helpers `Width` (`client.py:69`), `Scrambler` (`client.py:72-78`) and `Multiplier`
    (`client.py:84`) compute the padding width, u and k. They have no contract of their own;
    `ProcessChallenge`'s contract is stated in terms of them.

Where the code and the protocol prose differ, the model follows the code:

- The B check is literal `B == 0` (`client.py:87`), not `B % N == 0` as RFC 5054 asks of the
  client. `Client.MultipleOfPrimePassesBCheck` proves that any nonzero multiple of N passes the
  check. The exchange then succeeds whenever u is nonzero, and B drops out of the premaster
  secret: the session key is `H((-k * (g^x mod N))^(a + u*x) mod N)`.
- The padding width is `prime.bit_length()` (`client.py:69`), a count of bits, not the byte
  length of N. `Width` passes that value to the uninterpreted `pad`. Nothing is claimed about
  the padded length.

## Model

| member | source | states |
|---|---|---|
| ModArith.ModPow | python/lib/bsrp/client.py:98 | Python's `pow(b, e, m)` for m > 0: the result lies in [0, m) and equals the exact power `b^e` reduced mod m, also for a negative base |
| ModArith.ModPowCongruent | python/lib/bsrp/client.py:94-98 | bases congruent mod m give the same modular power |
| ModArith.PowCongruent | python/lib/bsrp/client.py:93-98 | bases congruent mod m give exact powers congruent mod m |
| ModArith.ModPowNormalisesBase | python/lib/bsrp/client.py:94-98 | a possibly negative base `t1` is normalised into [0, m) and the modular power is unchanged by that normalisation |
| ModArith.SubtractReducedProduct | python/lib/bsrp/client.py:94 | reducing `g^x` mod N before multiplying by k and subtracting from B leaves the base congruent mod N |
| ModArith.BitLength | python/lib/bsrp/client.py:69 | `n.bit_length()`: zero exactly for n = 0, and for n > 0 the w with 2^(w-1) <= n < 2^w, so the padding width is a bit count |
| Client.GenerateAPair | python/lib/bsrp/client.py:23-37 | `a` is the decoding of the 32 random bytes, and `A = g^a mod N` lies in [0, N) for any `a` |
| Client.Premaster | python/lib/bsrp/client.py:93-98 | the premaster secret computed with `g^x` reduced first lies in [0, N) and equals RFC 5054's `(B - k*g^x)^(a + u*x) % N` over the unreduced integers |
| Client.ProcessChallenge | python/lib/bsrp/client.py:40-112 | B = 0 aborts with the B violation whatever else holds; otherwise u = 0 aborts with the u violation; it succeeds iff neither holds; on success it returns exactly `(calculate_M(g, N, I, s, A, B, H(S)), H(S))` with S given by the RFC formula |
| Client.SafetyVerdictIgnoresSecrets | python/lib/bsrp/client.py:86-91 | whether and how the exchange aborts depends on A and B only, never on a, identity, password or salt: the checks come before S |
| Client.PasswordOnlyThroughPrivateKey | python/lib/bsrp/client.py:81-112 | the result is determined by its inputs, and the password affects it only through x: two passwords with the same x give the same M and session key |
| Client.MultipleOfPrimePassesBCheck | python/lib/bsrp/client.py:87-88 | a nonzero multiple c·N of N passes the literal B check, and the exchange succeeds when u is nonzero; its session key is then `H((-k * (g^x mod N))^(a + u*x) mod N)` for that exchange's u, x and k, so B no longer enters S |
| Client.VerifySession | python/lib/bsrp/client.py:115-135 | succeeds iff the server evidence equals `H(A, M, K)` and then returns those bytes; every other value is an evidence mismatch |
| Client.AlteredEvidenceRejected | python/lib/bsrp/client.py:130-133 | changing any single byte of accepted server evidence makes it rejected |

## Left out

- Random byte generation (`_generate_random_bytes`): it is an external effect, so the 32 bytes are the `entropy` input of `GenerateAPair`.
- The helper module (`_Hash`, `_pad`, `_to_int`, `_calculate_x`, `_calculate_M`, `_get_srp_prime`, `_get_srp_generator`) is not part of this model. Its members are uninterpreted fields of `Utils`, and no byte layout is assumed for them.
- Client.ProcessChallenge: takes `a` as a non-negative integer, and `calculateX` returns a non-negative integer. So the exponent `a + u*x` is never negative. Python's `pow` with a negative exponent (a modular inverse, or a `ValueError`) is not modelled. `a` is non-negative whenever it comes from `generate_a_pair`.
- The group parameters are taken with a prime greater than 1. Python's `pow` with modulus 0 or a negative modulus is not modelled, and neither is any check that N is a safe prime or g a generator.
- Failures raised inside the helpers (for example `_pad` given a value that is too wide) are not modelled, because the helpers are total uninterpreted functions.
- Mutual agreement with a server, secrecy and hash collision resistance are not modelled. The server side is not part of this model, and these claims rest on properties of the hash.
- Constant-time comparison, side channels, scrubbing of `a` and `x`, and the efficiency of modular exponentiation are not modelled. `ModPow` multiplies one factor at a time.
- Network round-trips between the three steps and multi-session handling are not modelled.
