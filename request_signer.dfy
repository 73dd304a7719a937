/**
 * `RequestSigner::sign`: builds a BIP 70 PaymentRequest for a merchant's
 * PaymentDetails, carrying the merchant's X.509 chain, and signs it.
 */
module X509 {
  import opened Wrappers
  import opened PhpArray
  import opened Proto

  /** BIP 70 `pki_type` for an unsigned request. */
  const PKI_NONE: string := "none"

  /** An X.509 `AlgorithmIdentifier`: an object identifier and its optional parameters. */
  datatype AlgorithmIdentifier = AlgorithmIdentifier(oid: string, parameters: Option<Bytes>)

  /** A PKCS #8 `PrivateKeyInfo`. */
  datatype PrivateKeyInfo = PrivateKeyInfo(algorithm: AlgorithmIdentifier, privateKey: Bytes)

  /** An X.509 certificate: the signed part, the issuer's algorithm and signature. */
  datatype Certificate = Certificate(tbsCertificate: Bytes, signatureAlgorithm: AlgorithmIdentifier, signatureValue: Bytes)

  /** A signature as the cryptographic backend returns it; `bitString` is its raw bytes. */
  datatype Signature = Signature(bitString: Bytes)

  /** The cryptographic backend: signs bytes with a private key under a signature algorithm. */
  datatype Crypto = Crypto(sign: (Bytes, PrivateKeyInfo, AlgorithmIdentifier) -> Signature)

  /**
   * Code the signer calls that is not part of this model: the DER encoder
   * of certificates, and the signature-algorithm factory, which maps a
   * pki_type and a key's algorithm identifier to a signature algorithm and
   * fails (None) on a pair it does not support.
   */
  datatype Collaborators = Collaborators(
    toDer: Certificate -> Bytes,
    signatureAlgorithm: (string, AlgorithmIdentifier) -> Option<AlgorithmIdentifier>)

  /** Why `sign` refuses: pki_type "none", or no signature algorithm for the pki_type and key. */
  datatype SignError = PkiTypeNone | UnsupportedAlgorithm(pkiType: string, keyAlgorithm: AlgorithmIdentifier)

  /** The DER encodings of `certs`, in order. */
  function DerChain(env: Collaborators, certs: seq<Certificate>): seq<Bytes> {
    seq(|certs|, i requires 0 <= i < |certs| => env.toDer(certs[i]))
  }

  /**
   * The certificate container as a PHP array: the leaf under key 0, then
   * `rest[i]` under key `i + 1`. Each position holds its own index as key,
   * and the values run leaf first, then `rest` in its given order.
   */
  function LeafFirst(leaf: Bytes, rest: seq<Bytes>): (a: seq<Entry<Bytes>>)
    ensures |a| == |rest| + 1
    ensures forall p :: 0 <= p < |a| ==> a[p].key == p
    ensures Values(a) == [leaf] + rest
  {
    var a := [Entry(0, leaf)] + seq(|rest|, i requires 0 <= i < |rest| => Entry(i + 1, rest[i]));
    assert Values(a) == [leaf] + rest;
    a
  }

  /**
   * Storing intermediate `i` under key `i + 1` never overwrites an entry:
   * the key is new, so the entry is appended after those already stored.
   */
  lemma FillStep(leaf: Bytes, rest: seq<Bytes>, i: nat)
    requires i < |rest|
    ensures i + 1 !in Keys(LeafFirst(leaf, rest[..i]))
    ensures Put(LeafFirst(leaf, rest[..i]), i + 1, rest[i]) == LeafFirst(leaf, rest[..i + 1])
  {
  }

  /**
   * The layout of the container: no key occurs twice, its keys are exactly
   * 0..|rest|, key 0 holds the leaf and key `i + 1` holds `rest[i]`.
   */
  lemma ContainerLayout(leaf: Bytes, rest: seq<Bytes>)
    ensures UniqueKeys(LeafFirst(leaf, rest))
    ensures forall k :: k in Keys(LeafFirst(leaf, rest)) <==> 0 <= k <= |rest|
    ensures Lookup(LeafFirst(leaf, rest), 0) == Some(leaf)
    ensures forall i :: 0 <= i < |rest| ==> Lookup(LeafFirst(leaf, rest), i + 1) == Some(rest[i])
  {
    var a := LeafFirst(leaf, rest);
    assert UniqueKeys(a) by {
      forall i, j | 0 <= i < j < |a| ensures a[i].key != a[j].key {
      }
    }
    forall k | 0 <= k <= |rest| ensures k in Keys(a) {
      assert a[k].key == k;
    }
    LookupAt(a, 0);
    forall i | 0 <= i < |rest| ensures Lookup(a, i + 1) == Some(rest[i]) {
      LookupAt(a, i + 1);
      assert a[i + 1].value == ([leaf] + rest)[i + 1];
    }
  }

  /** The request `sign` builds before signing: every field set, the signature to the empty string. */
  function UnsignedRequest(codec: Codec, env: Collaborators, details: PaymentDetails, pkiType: string,
                           cert: Certificate, intermediates: seq<Certificate>): (m: PaymentRequestMessage)
    ensures m.paymentDetailsVersion == Some(1)
    ensures m.pkiType == Some(pkiType)
    ensures m.pkiData == Some(codec.serializeCertificates([env.toDer(cert)] + DerChain(env, intermediates)))
    ensures m.serializedPaymentDetails == Some(codec.serializeDetails(details))
    ensures m.signature == Some([])
  {
    var container := LeafFirst(env.toDer(cert), DerChain(env, intermediates));
    PaymentRequestMessage(Some(1), Some(pkiType), Some(codec.serializeCertificates(Values(container))),
                          Some(codec.serializeDetails(details)), Some([]))
  }

  /**
   * What `sign` returns: a failure for pki_type "none" or an unsupported
   * algorithm, otherwise the request whose signature is the backend's
   * signature of the serialized unsigned request.
   */
  function SignedRequest(crypto: Crypto, codec: Codec, env: Collaborators, details: PaymentDetails,
                         pkiType: string, privateKey: PrivateKeyInfo, cert: Certificate,
                         intermediates: seq<Certificate>): (r: Result<PaymentRequestMessage, SignError>)
    ensures pkiType == PKI_NONE ==> r == Failure(PkiTypeNone)
    ensures r.Failure? <==> pkiType == PKI_NONE || env.signatureAlgorithm(pkiType, privateKey.algorithm).None?
    ensures r.Failure? && pkiType != PKI_NONE ==> r.error == UnsupportedAlgorithm(pkiType, privateKey.algorithm)
    ensures r.Success? ==>
      && r.value.paymentDetailsVersion == Some(1)
      && r.value.pkiType == Some(pkiType)
      && r.value.pkiData == Some(codec.serializeCertificates([env.toDer(cert)] + DerChain(env, intermediates)))
      && r.value.serializedPaymentDetails == Some(codec.serializeDetails(details))
    ensures r.Success? ==>
      r.value.signature == Some(crypto.sign(codec.serializeRequestNonDiscarding(r.value.(signature := Some([]))),
                                            privateKey,
                                            env.signatureAlgorithm(pkiType, privateKey.algorithm).value).bitString)
  {
    if pkiType == PKI_NONE then Failure(PkiTypeNone)
    else match env.signatureAlgorithm(pkiType, privateKey.algorithm)
      case None => Failure(UnsupportedAlgorithm(pkiType, privateKey.algorithm))
      case Some(algorithm) =>
        var unsigned := UnsignedRequest(codec, env, details, pkiType, cert, intermediates);
        var signature := crypto.sign(codec.serializeRequestNonDiscarding(unsigned), privateKey, algorithm);
        Success(unsigned.(signature := Some(signature.bitString)))
  }

  /**
   * The private key's material reaches only the signature: two keys with the
   * same algorithm identifier give requests equal in every other field.
   */
  lemma KeyOnlyAffectsSignature(crypto: Crypto, codec: Codec, env: Collaborators, details: PaymentDetails,
                                pkiType: string, k1: PrivateKeyInfo, k2: PrivateKeyInfo, cert: Certificate,
                                intermediates: seq<Certificate>)
    requires k1.algorithm == k2.algorithm
    ensures SignedRequest(crypto, codec, env, details, pkiType, k1, cert, intermediates).Success?
        == SignedRequest(crypto, codec, env, details, pkiType, k2, cert, intermediates).Success?
    ensures SignedRequest(crypto, codec, env, details, pkiType, k1, cert, intermediates).Success? ==>
      SignedRequest(crypto, codec, env, details, pkiType, k1, cert, intermediates).value.(signature := None)
        == SignedRequest(crypto, codec, env, details, pkiType, k2, cert, intermediates).value.(signature := None)
  {
  }

  /**
   * With an injective codec, the signed bytes pin down every other field:
   * any message that differs from the signed request outside the signature
   * serializes, with its signature emptied, to bytes other than the signed ones.
   */
  lemma SignatureCoversAllOtherFields(crypto: Crypto, codec: Codec, env: Collaborators, details: PaymentDetails,
                                      pkiType: string, privateKey: PrivateKeyInfo, cert: Certificate,
                                      intermediates: seq<Certificate>, tampered: PaymentRequestMessage)
    requires forall m1, m2 :: codec.serializeRequestNonDiscarding(m1) == codec.serializeRequestNonDiscarding(m2) ==> m1 == m2
    requires SignedRequest(crypto, codec, env, details, pkiType, privateKey, cert, intermediates).Success?
    requires tampered.(signature := None)
          != SignedRequest(crypto, codec, env, details, pkiType, privateKey, cert, intermediates).value.(signature := None)
    ensures codec.serializeRequestNonDiscarding(tampered.(signature := Some([])))
         != codec.serializeRequestNonDiscarding(
              SignedRequest(crypto, codec, env, details, pkiType, privateKey, cert, intermediates).value.(signature := Some([])))
  {
  }

  /** `RequestSigner`: signs PaymentRequests through its cryptographic backend. */
  class RequestSigner {
    const crypto: Crypto

    /** Uses the given backend, or the default one when none is given. */
    constructor (crypto: Option<Crypto>, defaultCrypto: Crypto)
      ensures this.crypto == (if crypto.Some? then crypto.value else defaultCrypto)
    {
      this.crypto := if crypto.Some? then crypto.value else defaultCrypto;
    }

    method Sign(codec: Codec, env: Collaborators, details: PaymentDetails, pkiType: string,
                privateKey: PrivateKeyInfo, cert: Certificate, intermediates: seq<Certificate>)
      returns (r: Result<PaymentRequest, SignError>)
      ensures pkiType == PKI_NONE ==> r == Failure(PkiTypeNone)
      ensures r.Failure? ==>
        SignedRequest(crypto, codec, env, details, pkiType, privateKey, cert, intermediates) == Failure(r.error)
      ensures r.Success? ==> fresh(r.value)
      ensures r.Success? ==>
        SignedRequest(crypto, codec, env, details, pkiType, privateKey, cert, intermediates) == Success(r.value.Message())
    {
      if pkiType == PKI_NONE {
        return Failure(PkiTypeNone);
      }

      var algOid := privateKey.algorithm;
      var signAlgorithm := env.signatureAlgorithm(pkiType, algOid);
      if signAlgorithm.None? {
        return Failure(UnsupportedAlgorithm(pkiType, algOid));
      }

      ghost var leaf := env.toDer(cert);
      ghost var ders := DerChain(env, intermediates);
      var x509Certs := new X509Certificates();
      x509Certs.SetCertificate(env.toDer(cert), 0);
      assert x509Certs.certificate == LeafFirst(leaf, ders[..0]);
      var i := 0;
      while i < |intermediates|
        invariant 0 <= i <= |intermediates|
        invariant x509Certs.certificate == LeafFirst(leaf, ders[..i])
      {
        FillStep(leaf, ders, i);
        x509Certs.SetCertificate(env.toDer(intermediates[i]), i + 1);
        i := i + 1;
      }
      assert ders[..i] == ders;

      var request := new PaymentRequest();
      request.SetPaymentDetailsVersion(1);
      request.SetPkiType(pkiType);
      request.SetPkiData(x509Certs.Serialize(codec));
      request.SetSerializedPaymentDetails(codec.serializeDetails(details));
      request.SetSignature([]);
      assert request.Message() == UnsignedRequest(codec, env, details, pkiType, cert, intermediates);

      var data := request.Serialize(codec);
      var signature := crypto.sign(data, privateKey, signAlgorithm.value);

      request.SetSignature(signature.bitString);
      return Success(request);
    }
  }

  /**
   * Signing twice with the same signer and inputs gives field-for-field
   * equal requests. This rests on the backend's `sign` being a function: a
   * backend whose signatures are randomized (as ECDSA's generally are) would
   * give equal requests except for the signature.
   */
  method SignIsDeterministic(signer: RequestSigner, codec: Codec, env: Collaborators, details: PaymentDetails,
                             pkiType: string, privateKey: PrivateKeyInfo, cert: Certificate,
                             intermediates: seq<Certificate>)
    returns (r1: Result<PaymentRequest, SignError>, r2: Result<PaymentRequest, SignError>)
    ensures r1.Success? == r2.Success?
    ensures r1.Failure? ==> r1.error == r2.error
    ensures r1.Success? ==> r1.value != r2.value && r1.value.Message() == r2.value.Message()
  {
    r1 := signer.Sign(codec, env, details, pkiType, privateKey, cert, intermediates);
    r2 := signer.Sign(codec, env, details, pkiType, privateKey, cert, intermediates);
  }
}
