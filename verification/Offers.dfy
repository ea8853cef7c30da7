// Transfer offers, receipts and the records a transfer leaves beside its partial data.
module Offers {
  import opened Wrappers
  import opened Text
  import opened Names
  import opened Manifest

  const QUIC_PROTOCOL_VERSION: nat := 2

  datatype TransferKind = FileKind | FolderKind

  datatype DeviceSummary = DeviceSummary(instanceId: string, name: string, publicKey: string)

  datatype TransferOffer = TransferOffer(
    protocol: nat, transferId: string, filename: string, kind: TransferKind, size: u64,
    modifiedMs: int, blake3: string, sender: DeviceSummary, signature: string)

  datatype StoredOffer = StoredOffer(
    transferId: string, filename: string, kind: TransferKind, size: u64,
    modifiedMs: int, blake3: string, senderInstanceId: string, senderPublicKey: string)

  datatype TransferReceipt = TransferReceipt(transferId: string, size: u64, blake3: string)

  datatype CommitRecord = CommitRecord(offer: StoredOffer, destination: string, manifest: Option<FolderManifest>)

  datatype DoneRecord = DoneRecord(
    offer: StoredOffer, destination: string, receipt: TransferReceipt, manifest: Option<FolderManifest>)

  datatype CompletedTransfer = CompletedTransfer(receipt: TransferReceipt, destination: string)

  // The sender's name and signature are not stored, so an offer re-signed later is the same offer.
  function Stored(offer: TransferOffer): StoredOffer {
    StoredOffer(offer.transferId, SafeFilename(offer.filename), offer.kind, offer.size,
                offer.modifiedMs, offer.blake3, offer.sender.instanceId, offer.sender.publicKey)
  }

  function ReceiptOf(offer: StoredOffer): TransferReceipt {
    TransferReceipt(offer.transferId, offer.size, offer.blake3)
  }

  // The sender's own test of the receipt it is sent.
  predicate ReceiptAccepted(offer: TransferOffer, receipt: TransferReceipt) {
    receipt.transferId == offer.transferId && receipt.size == offer.size && receipt.blake3 == offer.blake3
  }

  // `authentic` stands for the transfer id, identity and Ed25519 checks.
  predicate OfferOk(offer: TransferOffer, authentic: TransferOffer -> bool) {
    && offer.protocol == QUIC_PROTOCOL_VERSION
    && Utf8Length(offer.filename) <= 4096
    && offer.size <= MAX_FILE_SIZE
    && offer.modifiedMs >= 0
    && ValidBlake3(offer.blake3)
    && authentic(offer)
  }
}
