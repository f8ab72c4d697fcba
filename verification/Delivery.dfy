/** Delivery identities and receipts: the values `state.py` saves before a message is sent. */
module Delivery {
  datatype Family = Ordinary | Merged | Header | Separator | ForumIndex

  /** "base", or the hexadecimal name of one authorised replacement. */
  datatype Generation = Base | Minted(hex: nat)

  datatype DeliveryRef = DeliveryRef(
    sourceChannel: string,
    sourceMessage: string,
    destination: string,
    family: Family,
    generation: Generation
  )

  /** The delivery a reference is about, whichever replacement of it is meant. */
  function Logical(ref: DeliveryRef): DeliveryRef {
    ref.(generation := Base)
  }

  /** SHA-256 of a reference, as an injective function. */
  datatype ReceiptId = ReceiptId(ref: DeliveryRef)

  datatype PartStatus = Prepared | Uncertain | Acknowledged | ConfirmedRejected

  datatype Part = Part(key: string, status: PartStatus, messageId: string)

  datatype Receipt = Receipt(namespace: nat, service: string, ref: DeliveryRef, parts: seq<Part>)

  /** The bytes of a receipt file: a document that parses as one, or anything else. */
  datatype Contents = Document(receipt: Receipt) | Malformed(text: string)

  /** SHA-256 of file bytes, as an injective function. */
  datatype Digest = Sha256(contents: Contents)

  predicate UlidCharacter(c: char) {
    || '0' <= c <= '9'
    || ((c in "ABCDEFGHJKMNPQRSTVWXYZ") || (c in "abcdefghjkmnpqrstvwxyz"))
  }

  /** A well-formed Stoat message, channel, role or server id. */
  predicate IsStoatId(s: string) {
    |s| == 26 && forall i :: 0 <= i < |s| ==> UlidCharacter(s[i])
  }

  /** What `_decode_delivery_receipt` demands of the parts of a receipt. */
  predicate WellFormed(receipt: Receipt) {
    && receipt.parts != []
    && (forall i, j :: 0 <= i < j < |receipt.parts| ==> receipt.parts[i].key != receipt.parts[j].key)
    && (forall i :: 0 <= i < |receipt.parts| ==>
          if receipt.parts[i].status == Acknowledged then IsStoatId(receipt.parts[i].messageId)
          else receipt.parts[i].messageId == "")
  }

  predicate FullyAcknowledged(receipt: Receipt) {
    forall i :: 0 <= i < |receipt.parts| ==> receipt.parts[i].status == Acknowledged
  }
}
