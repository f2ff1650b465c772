/** An arbitrary signature scheme over messages of type `M`. */
module Signatures {
  import opened Common

  const Ed25519 := "ed25519"

  /**
    `publicKey` is undefined on a private key of the wrong size, `decodeKey` on
    text that is no encoded key, and `verified(key, message, text)` is false when
    `text` is no encoded signature.
   */
  datatype Scheme<!M(!new)> = Scheme(
    publicKey: string -> Option<string>, encodeKey: string -> string, decodeKey: string -> Option<string>,
    sign: (string, M) -> string, verified: (string, M, string) -> bool)
  {
    /** Decoding undoes encoding, and a signature made with a private key verifies under its public key. */
    ghost predicate Lawful() {
      && (forall p | publicKey(p).Some? ::
            && decodeKey(encodeKey(publicKey(p).value)) == publicKey(p)
            && encodeKey(publicKey(p).value) != "")
      && (forall p, m | publicKey(p).Some? :: verified(publicKey(p).value, m, sign(p, m)))
    }
  }

  /** A scheme that accepts every signature: keys are encoded behind one character. */
  function Gullible<M(!new)>(): Scheme<M> {
    Scheme(p => Some(p), k => "k" + k, t => if t == "" then None else Some(t[1..]), (p, m) => "", (k, m, t) => true)
  }

  lemma GullibleLawful<M(!new)>()
    ensures Gullible<M>().Lawful()
  {
    forall p: string ensures ("k" + p)[1..] == p {}
  }
}
