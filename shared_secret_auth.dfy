/** The gateway's generator of shared-secret login passwords (corporal/matrix). */
module SharedSecretAuth {
  import opened Wrappers
  import opened Hex

  /** A generator is fully described by its secret. */
  datatype SharedSecretAuthPasswordGenerator = SharedSecretAuthPasswordGenerator(sharedSecret: string)

  function NewSharedSecretAuthPasswordGenerator(sharedSecret: string): (g: SharedSecretAuthPasswordGenerator)
    ensures g.sharedSecret == sharedSecret
  {
    SharedSecretAuthPasswordGenerator(sharedSecret)
  }

  /** The password for `userId`: HMAC-SHA512 of the user id keyed by the secret, as lowercase hex.
      `hmac` is the MAC; the output depends on nothing but the secret and the user id. */
  function GenerateForUserId(g: SharedSecretAuthPasswordGenerator, userId: string, hmac: Hmac): (r: string)
    ensures |r| == 128 && IsLowerHex(r)
    ensures HexDecode(r) == Some(hmac(g.sharedSecret, userId))
  {
    HexDecodeHexLower(hmac(g.sharedSecret, userId));
    HexLower(hmac(g.sharedSecret, userId))
  }

  /** Passwords for two users coincide only when their MACs collide. */
  lemma GeneratedPasswordsDistinguishUsers(g: SharedSecretAuthPasswordGenerator, u: string, v: string, hmac: Hmac)
    ensures GenerateForUserId(g, u, hmac) == GenerateForUserId(g, v, hmac) <==> hmac(g.sharedSecret, u) == hmac(g.sharedSecret, v)
  {
    HexLowerInjective(hmac(g.sharedSecret, u), hmac(g.sharedSecret, v));
  }
}
