// Content hashes, signatures and policy bundles, over opaque SHA-256 and HMAC functions.
module Signing {
  import opened Json
  import opened CanonicalJson

  // `sha` maps a text to its hex digest; `mac` maps a key and a text to a hex digest.
  datatype Crypto = Crypto(sha: string -> string, mac: (string, string) -> string)

  function ContentHash(c: Crypto, document: Dict): string {
    c.sha(Print(Obj(document)))
  }

  function Sign(c: Crypto, document: Dict, key: string): string {
    c.mac(key, Print(Obj(document)))
  }

  predicate Verify(c: Crypto, document: Dict, signature: string, key: string) {
    Sign(c, document, key) == signature
  }

  datatype Bundle = Bundle(contentHash: string, signature: string, document: Dict)

  function PackagePolicy(c: Crypto, key: string, document: Dict): Bundle {
    Bundle(ContentHash(c, document), Sign(c, document, key), document)
  }

  predicate VerifyPolicy(c: Crypto, key: string, bundle: Bundle) {
    ContentHash(c, bundle.document) == bundle.contentHash && Verify(c, bundle.document, bundle.signature, key)
  }

  ghost predicate CollisionFree(c: Crypto) {
    forall a, b :: c.sha(a) == c.sha(b) ==> a == b
  }

  // The registry accepts a packaged hash and signature for the packaged document and no other.
  lemma VerifiesOnlyThePackagedDocument(c: Crypto, key: string, document: Dict, other: Dict)
    requires CollisionFree(c)
    ensures VerifyPolicy(c, key, PackagePolicy(c, key, document).(document := other)) <==> other == document
  {
    PrintIsInjective(Obj(document), Obj(other));
  }

  ghost predicate MacCollisionFree(c: Crypto) {
    forall k, a, l, b :: c.mac(k, a) == c.mac(l, b) ==> k == l && a == b
  }

  // A signature verifies for the document and the key that it was made with, and for no others.
  lemma SignatureIsKeyed(c: Crypto, key: string, document: Dict, otherKey: string, other: Dict)
    requires MacCollisionFree(c)
    ensures Verify(c, other, Sign(c, document, key), otherKey) <==> other == document && otherKey == key
  {
    PrintIsInjective(Obj(document), Obj(other));
  }

  // Hashes and signatures are taken of the text that the encoder writes for the document, whatever the
  // insertion order of its keys.
  lemma TakenOfEncodedText(c: Crypto, items: seq<Item>, key: string)
    requires WellFormed(PyDict(items))
    ensures ContentHash(c, FieldsOf(items)) == c.sha(Dumps(PyDict(items)))
    ensures Sign(c, FieldsOf(items), key) == c.mac(key, Dumps(PyDict(items)))
  {
    DumpsIsPrint(PyDict(items));
  }
}
