# BIP 70 request signer, modelled in Dafny

This project models `RequestSigner::sign` of a PHP implementation of the
BIP 70 payment protocol. `sign` takes a merchant's `PaymentDetails`, a
`pki_type`, a private key, the merchant's end-entity X.509 certificate and a
bundle of intermediate certificates. It returns a signed `PaymentRequest`.
It refuses `pki_type` "none". It looks up the signature algorithm for the
pair (pki_type, key algorithm). It puts the DER-encoded leaf certificate at
index 0 of an `X509Certificates` container and intermediate `i` at index
`i + 1`. It fills a fresh `PaymentRequest` with version 1, the pki_type, the
serialized container, the serialized details and an empty signature. It
serializes that request with the non-discarding codec, signs the bytes, and
finally overwrites only the signature field with the signature's bytes.

Files:

- `wrappers.dfy`: `Option` and `Result`.
- `php_array.dfy` (module `PhpArray`): a PHP array with integer keys. It is
  an ordered map in insertion order. `$a[$k] = $v` overwrites in place or
  appends. This is how the container's repeated `certificate` field is held.
- `proto.dfy` (module `Proto`): the BIP 70 messages. `X509Certificates` and
  `PaymentRequest` are classes updated through their setters. `Message()`
  gives a request's current field values; `None` marks an unset field.
  The protobuf encoders are the function fields of `Codec`.
- `request_signer.dfy` (module `X509`): the `RequestSigner` class and its
  `Sign` method, which follows the PHP statement by statement. Also the
  specification function `SignedRequest` and the lemmas about it.

`Sign` is proved against `SignedRequest`: on success, the returned object's
fields equal `SignedRequest(...)`, and its failures are the same. The
properties that make the signature meaningful are proved about
`SignedRequest` and the container layout:

- the signature is the backend's signature of the returned request,
  re-serialized with its signature reset to the empty string;
- the container is leaf first, keeps the intermediates' order, and never
  overwrites a key.

Code outside this model enters as function values passed in. `Codec` holds
the protobuf encoders. `Collaborators` holds `Certificate::toDER` and
`SignatureAlgorithmFactory::getSignatureAlgorithm`. `Crypto` holds the
cryptographic backend's `sign`. `Crypto::getDefault()` becomes the
constructor parameter `defaultCrypto`. A Dafny function always gives the
same result for the same arguments, so the model assumes these
collaborators are deterministic.

Two facts about the code shape the model:

- `pki_type` is a string, and `sign` compares it with "none".
- Refusing "none" is the PHP `UnexpectedValueException`, modelled as the
  error `PkiTypeNone`.

## Model

| member | source | states |
|---|---|---|
| `PhpArray.Put` | src/X509/RequestSigner.php:52-54 | `setCertificate($der, $i)` as PHP keyed assignment: the keys become the old keys plus `$i`; a new key is appended after all existing entries; unique keys stay unique |
| `PhpArray.LookupPut` | src/X509/RequestSigner.php:52-54 | after assigning key `k`, reading `k` gives the new value and every other key reads as before |
| `PhpArray.PutExistingInPlace` | src/X509/RequestSigner.php:52-54 | assigning to a key already present overwrites in place: the array keeps its length and its key order |
| `PhpArray.LookupAt` | src/X509/RequestSigner.php:52-55 | in an array with unique keys, the entry at each position is what its key reads |
| `Proto.X509Certificates.constructor` | src/X509/RequestSigner.php:51 | a new container holds no certificate |
| `Proto.X509Certificates.Serialize` | src/X509/RequestSigner.php:60 | a definition with no contract: the default codec's encoding of the container's values in `foreach` order; its meaning for the filled container is stated by `X509.LeafFirst` |
| `Proto.X509Certificates.SetCertificate` | src/X509/RequestSigner.php:52-54 | the container's array after the call is the old array with the DER bytes assigned under the index |
| `Proto.PaymentRequest.constructor` | src/X509/RequestSigner.php:57 | a fresh request has no field set |
| `Proto.PaymentRequest.Serialize` | src/X509/RequestSigner.php:64 | a definition with no contract: the non-discarding codec's encoding of the request's current field values; what it is applied to is stated by `X509.SignedRequest` |
| `Proto.PaymentRequest.SetPaymentDetailsVersion` | src/X509/RequestSigner.php:58 | sets only the version field |
| `Proto.PaymentRequest.SetPkiType` | src/X509/RequestSigner.php:59 | sets only the pki_type field |
| `Proto.PaymentRequest.SetPkiData` | src/X509/RequestSigner.php:60 | sets only the pki_data field |
| `Proto.PaymentRequest.SetSerializedPaymentDetails` | src/X509/RequestSigner.php:61 | sets only the serialized_payment_details field |
| `Proto.PaymentRequest.SetSignature` | src/X509/RequestSigner.php:62-67 | sets only the signature field; version, pki_type, pki_data and details are unchanged |
| `X509.FillStep` | src/X509/RequestSigner.php:53-54 | storing intermediate `i` under key `i + 1` never overwrites an entry: the key is new, and the entry is appended after the leaf and intermediates 0..i-1 |
| `X509.LeafFirst` | src/X509/RequestSigner.php:51-55 | closed form of the container the loop builds: one entry more than there are intermediates, position `p` holds key `p`, and the values run leaf first, then the intermediates in order |
| `X509.ContainerLayout` | src/X509/RequestSigner.php:51-55 | no key of the container repeats; its keys are exactly 0..n; key 0 holds the leaf's DER; key `i + 1` holds intermediate `i`'s DER |
| `X509.UnsignedRequest` | src/X509/RequestSigner.php:57-62 | the request as filled before signing: version 1, the caller's pki_type, pki_data the serialized leaf-first DER chain, the serialized details, and the signature set to the empty string |
| `X509.SignedRequest` | src/X509/RequestSigner.php:43-69 | pki_type "none" fails with `PkiTypeNone` and nothing else does; otherwise failure exactly when the algorithm factory has no algorithm for (pki_type, key algorithm); on success: version 1, the caller's pki_type, pki_data is the serialized leaf-first chain, details are `serialize(details)`, and the signature is the backend's signature, under the factory's algorithm for that pair, of the returned request re-serialized with its signature set to the empty string |
| `X509.KeyOnlyAffectsSignature` | src/X509/RequestSigner.php:48-67 | two private keys with the same algorithm identifier succeed or fail together and give requests that agree on every field except the signature |
| `X509.SignatureCoversAllOtherFields` | src/X509/RequestSigner.php:57-65 | with an injective request codec, a message that differs from the signed request in version, pki_type, pki_data or details serializes, with its signature emptied, to bytes other than those that were signed |
| `X509.RequestSigner.constructor` | src/X509/RequestSigner.php:28-31 | the signer's backend is the one given, or the default when none is given |
| `X509.RequestSigner.Sign` | src/X509/RequestSigner.php:36-70 | pki_type "none" returns `Failure(PkiTypeNone)` and so no request; every failure is that of `SignedRequest`; on success the request is fresh and its fields equal `SignedRequest`'s result |
| `X509.SignIsDeterministic` | src/X509/RequestSigner.php:57-69 | two calls with the same signer and inputs both succeed or both fail with the same error; on success they return distinct objects with field-for-field equal contents |

## Left out

- Cryptography (`Crypto::sign`, `Crypto::getDefault`): the backend is a function value. Failures inside `sign` are not modelled.
- Protobuf wire encoding (the binary and non-discarding codecs): the encoders are function values of `Codec`. Varints and field tags are not modelled. Nor is the codec's handling of unset fields; the model passes it the field values, with `None` for an unset field.
- DER encoding of certificates (`toDER`) is a function value. Certificates and private keys are records with the X.509 and PKCS #8 fields. Only the key's algorithm identifier is read, and it is passed to the algorithm factory. Certificate contents and key material are never inspected.
- `SignatureAlgorithmFactory::getSignatureAlgorithm` is not part of this model. It is a partial function value; `None` stands for the exception it raises on an unsupported pair.
- `CertificateBundle` is modelled as a sequence, so `foreach` yields keys 0..n-1 in order. A bundle with other keys is not modelled.
- The `X509Certificates` and `PaymentRequest` classes come from the protobuf library, which is not part of this model. `setCertificate` is modelled as PHP keyed array assignment. The repeated field is modelled as serializing in array order.
- The payer side (`RequestValidation`, `QualifiedCertificate`, path validation, trust store) is not part of this model. Properties that need it (sign-then-validate round trip, tamper detection by a validator, the identity-mismatch guard) are out of scope.
- Encoding failures are not modelled: the protobuf encoders and `toDER` are total functions, so a library refusing a message (for instance one with a required field missing) or a certificate cannot occur in the model.
- X509.SignIsDeterministic: holds because the backend's `sign` is a function of its arguments; a backend with randomized signatures (ECDSA in general) gives requests equal in every field but the signature, which the model does not capture.
- The `RequestSignerInterface` declaration is not part of this model.
