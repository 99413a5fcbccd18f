/** Sealed blobs: ChaCha20-Poly1305 (section 2.8 of RFC 8439) in a labelled envelope with base64 fields. */
module Sealing {
  import opened Wrappers
  import opened Bytes
  import Base64

  const MAGIC: string := "hybridcipher-protected"
  const VERSION: nat := 1
  const NONCE_LEN: nat := 12

  datatype ProtectedData = ProtectedData(magic: string, version: nat, nonce: string, ciphertext: string)

  /** The cipher: `seal` and `open` take key, nonce, additional data and text. */
  datatype Aead = Aead(
    seal: (Octets, Octets, string, Octets) -> Octets,
    open: (Octets, Octets, string, Octets) -> Option<Octets>)
  {
    /** What was sealed opens under the same key, nonce and additional data. */
    ghost predicate Correct() {
      forall key: Octets, nonce: Octets, ad: string, text: Octets ::
        open(key, nonce, ad, seal(key, nonce, ad, text)) == Some(text)
    }
  }

  function EncryptWithAd(aead: Aead, text: Octets, key: Octets, ad: string, nonce: Octets): (p: ProtectedData) {
    ProtectedData(MAGIC, VERSION, Base64.Encode(Base64.STANDARD, nonce),
      Base64.Encode(Base64.STANDARD, aead.seal(key, nonce, ad, text)))
  }

  function DecryptWithAd(aead: Aead, p: ProtectedData, key: Octets, ad: string): (text: Option<Octets>) {
    if p.magic != MAGIC || p.version != VERSION then None
    else
      var nonce := Base64.Decode(Base64.STANDARD, p.nonce);
      if nonce.None? || |nonce.value| != NONCE_LEN then None
      else
        var ciphertext := Base64.Decode(Base64.STANDARD, p.ciphertext);
        if ciphertext.None? then None else aead.open(key, nonce.value, ad, ciphertext.value)
  }

  lemma SealedOpens(aead: Aead, text: Octets, key: Octets, ad: string, nonce: Octets)
    requires aead.Correct() && |nonce| == NONCE_LEN
    ensures DecryptWithAd(aead, EncryptWithAd(aead, text, key, ad, nonce), key, ad) == Some(text)
  {
    var ciphertext := aead.seal(key, nonce, ad, text);
    Base64.RoundTrip(Base64.STANDARD, nonce);
    Base64.RoundTrip(Base64.STANDARD, ciphertext);
  }
}
