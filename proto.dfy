/**
 * The BIP 70 protocol-buffer messages the signer fills in: PaymentDetails,
 * PaymentRequest and X509Certificates. The protobuf library that encodes
 * them is not part of this model; its encoders are the fields of `Codec`.
 */
module Proto {
  import opened Wrappers
  import opened PhpArray

  newtype byte = x: int | 0 <= x < 256

  type Bytes = seq<byte>

  /** BIP 70 `Output`: an amount in satoshis and the script to pay to. */
  datatype Output = Output(amount: nat, script: Bytes)

  /** BIP 70 `PaymentDetails`: the merchant's payment instructions, only ever serialized here. */
  datatype PaymentDetails = PaymentDetails(
    network: Option<string>,
    outputs: seq<Output>,
    time: nat,
    expires: Option<nat>,
    memo: Option<string>,
    paymentUrl: Option<string>,
    merchantData: Option<Bytes>)

  /**
   * The field values of a BIP 70 `PaymentRequest` message. `None` is a field
   * that was never set; `Some([])` is a field explicitly set to the empty
   * string, which the non-discarding codec still emits.
   */
  datatype PaymentRequestMessage = PaymentRequestMessage(
    paymentDetailsVersion: Option<nat>,
    pkiType: Option<string>,
    pkiData: Option<Bytes>,
    serializedPaymentDetails: Option<Bytes>,
    signature: Option<Bytes>)

  /**
   * The protobuf library's encoders, which are not part of this model:
   * the default binary codec for PaymentDetails and for X509Certificates
   * (whose repeated `certificate` field is given as its values in array
   * order), and the non-discarding binary codec for PaymentRequest.
   */
  datatype Codec = Codec(
    serializeDetails: PaymentDetails -> Bytes,
    serializeCertificates: seq<Bytes> -> Bytes,
    serializeRequestNonDiscarding: PaymentRequestMessage -> Bytes)

  /** BIP 70 `X509Certificates`: the repeated `certificate` field, held as a PHP array. */
  class X509Certificates {
    var certificate: seq<Entry<Bytes>>

    constructor ()
      ensures certificate == []
    {
      certificate := [];
    }

    /** `setCertificate($der, $index)`: assigns `certificate[$index]`. */
    method SetCertificate(der: Bytes, index: int)
      modifies this
      ensures certificate == Put(old(certificate), index, der)
    {
      certificate := Put(certificate, index, der);
    }

    function Serialize(codec: Codec): Bytes
      reads this
    {
      codec.serializeCertificates(Values(certificate))
    }
  }

  /** BIP 70 `PaymentRequest`, a message object filled in through its setters. */
  class PaymentRequest {
    var paymentDetailsVersion: Option<nat>
    var pkiType: Option<string>
    var pkiData: Option<Bytes>
    var serializedPaymentDetails: Option<Bytes>
    var signature: Option<Bytes>

    /** The current field values. */
    function Message(): PaymentRequestMessage
      reads this
    {
      PaymentRequestMessage(paymentDetailsVersion, pkiType, pkiData, serializedPaymentDetails, signature)
    }

    function Serialize(codec: Codec): Bytes
      reads this
    {
      codec.serializeRequestNonDiscarding(Message())
    }

    constructor ()
      ensures Message() == PaymentRequestMessage(None, None, None, None, None)
    {
      paymentDetailsVersion, pkiType, pkiData, serializedPaymentDetails, signature := None, None, None, None, None;
    }

    method SetPaymentDetailsVersion(version: nat)
      modifies this
      ensures Message() == old(Message()).(paymentDetailsVersion := Some(version))
    {
      paymentDetailsVersion := Some(version);
    }

    method SetPkiType(t: string)
      modifies this
      ensures Message() == old(Message()).(pkiType := Some(t))
    {
      pkiType := Some(t);
    }

    method SetPkiData(data: Bytes)
      modifies this
      ensures Message() == old(Message()).(pkiData := Some(data))
    {
      pkiData := Some(data);
    }

    method SetSerializedPaymentDetails(data: Bytes)
      modifies this
      ensures Message() == old(Message()).(serializedPaymentDetails := Some(data))
    {
      serializedPaymentDetails := Some(data);
    }

    method SetSignature(sig: Bytes)
      modifies this
      ensures Message() == old(Message()).(signature := Some(sig))
    {
      signature := Some(sig);
    }
  }
}
